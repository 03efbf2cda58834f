/** The three event streams of the interceptor and the switch on the message
    kind that decides which of them fire for one keyboard transition. */
module Events {
  import opened Native

  datatype EventKind = KeyDown | KeyUp | KeyPress

  /** The KeyEventArgs handed to subscribers: the translated key and the
      timestamp of the raw event. */
  datatype KeyEvent = KeyEvent(key: Key, time: int)

  /** One invocation of an event field: which event was raised, with what. */
  datatype Fired = Fired(kind: EventKind, event: KeyEvent)

  predicate IsKeyMessage(wParam: int) {
    wParam == WM_KEYDOWN || wParam == WM_SYSKEYDOWN || wParam == WM_KEYUP || wParam == WM_SYSKEYUP
  }

  predicate IsKeyUpMessage(wParam: int) {
    wParam == WM_KEYUP || wParam == WM_SYSKEYUP
  }

  /** The events raised for message kind `wParam`, in the order they are raised. */
  function Dispatch(wParam: int, e: KeyEvent): (fired: seq<Fired>)
    ensures |fired| <= 2
    // every subscriber of every stream sees the same event value
    ensures forall i | 0 <= i < |fired| :: fired[i].event == e
    // something fires exactly for the four keyboard messages
    ensures fired != [] <==> IsKeyMessage(wParam)
    // the first event says the direction of the transition
    ensures fired != [] ==> fired[0].kind == (if IsKeyUpMessage(wParam) then KeyUp else KeyDown)
    // KeyPress fires only for a plain key-down, and after its KeyDown
    ensures (exists i | 0 <= i < |fired| :: fired[i].kind == KeyPress) <==> wParam == WM_KEYDOWN
    // the exact list for each keyboard message
    ensures wParam == WM_KEYDOWN ==> fired == [Fired(KeyDown, e), Fired(KeyPress, e)]
    ensures wParam == WM_SYSKEYDOWN ==> fired == [Fired(KeyDown, e)]
    ensures IsKeyUpMessage(wParam) ==> fired == [Fired(KeyUp, e)]
  {
    if wParam == WM_SYSKEYDOWN then [Fired(KeyDown, e)]
    else if wParam == WM_KEYDOWN then
      var both := [Fired(KeyDown, e), Fired(KeyPress, e)];
      assert both[1].kind == KeyPress;
      both
    else if wParam == WM_SYSKEYUP || wParam == WM_KEYUP then [Fired(KeyUp, e)]
    else []
  }
}
