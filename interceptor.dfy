/** The KeyboardInterceptor object: its fields are updated in place by the
    hook callback and by StartCapturing/StopCapturing. The three event fields
    are modelled by `fired`, the sequence of every event raised so far, and
    the UnhookWindowsHookEx calls by `unhooked`. */
module Interceptor {
  import opened Native
  import opened Events
  import Spec = InterceptorSpec

  class KeyboardInterceptor {
    var ptrHook: Handle
    var isCapturing: bool
    var suppressWindowsHandling: bool
    var disableRepeat: bool
    var previousScancode: int
    var previousFlags: int
    /** KeyDown/KeyUp/KeyPress invocations, in the order they happened. */
    var fired: seq<Fired>
    /** Every handle passed to UnhookWindowsHookEx, in order. */
    var unhooked: seq<Handle>

    /** The interceptor's fields as a value of the state machine. */
    function State(): Spec.State
      reads this
    {
      Spec.State(ptrHook, isCapturing, disableRepeat, suppressWindowsHandling,
                 previousScancode, previousFlags)
    }

    constructor ()
      ensures State() == Spec.Initial()
      ensures fired == [] && unhooked == []
    {
      ptrHook := Zero;
      isCapturing := false;
      suppressWindowsHandling := false;
      disableRepeat := false;
      previousScancode := 0;
      previousFlags := 0;
      fired := [];
      unhooked := [];
    }

    /** `hook` is what SetWindowsHookEx returned; it is stored unchecked and
        any previous handle is overwritten without being unhooked. */
    method StartCapturing(hook: Handle)
      modifies this
      ensures ptrHook == hook && isCapturing
      ensures State() == Spec.StartCapturing(old(State()), hook)
      ensures fired == old(fired) && unhooked == old(unhooked)
    {
      ptrHook := hook;
      isCapturing := true;
    }

    /** Unhooks the current handle, if any. IsCapturing is left as it was. */
    method StopCapturing()
      modifies this
      ensures ptrHook == Zero && isCapturing == old(isCapturing)
      ensures State() == Spec.StopCapturing(old(State()))
      ensures unhooked == old(unhooked) + Spec.Unhooks(old(State()))
      ensures fired == old(fired)
    {
      if ptrHook != Zero {
        unhooked := unhooked + [ptrHook];
        ptrHook := Zero;
      }
    }

    /** Compares the event with the cached pair, then caches the event's pair. */
    method IsRepeat(info: KeyInfo) returns (isRepeat: bool)
      modifies this
      ensures isRepeat <==> old(previousScancode) == info.scanCode && old(previousFlags) == info.flags
      ensures previousScancode == info.scanCode && previousFlags == info.flags
      ensures State() == Spec.Remember(old(State()), info)
      ensures fired == old(fired) && unhooked == old(unhooked)
    {
      isRepeat := false;
      if previousScancode == info.scanCode && previousFlags == info.flags {
        isRepeat := true;
      }
      previousScancode := info.scanCode;
      previousFlags := info.flags;
    }

    /** Invokes one event field. */
    method Raise(kind: EventKind, e: KeyEvent)
      modifies this`fired
      ensures fired == old(fired) + [Fired(kind, e)]
    {
      fired := fired + [Fired(kind, e)];
    }

    /** The low-level keyboard hook callback. */
    method KeyboardHandler(nCode: int, wParam: int, lParam: int, info: KeyInfo,
                           keyFromVirtualKey: KeyFromVirtualKey, callNextHookEx: CallNextHookEx)
      returns (r: int)
      modifies this
      ensures r == if old(suppressWindowsHandling) then 1
                   else callNextHookEx(old(ptrHook), nCode, wParam, lParam)
      ensures nCode < 0 ==> State() == old(State()) && fired == old(fired)
      ensures var out := Spec.HandleCall(old(State()), Spec.HookCall(nCode, wParam, lParam, info),
                                         Spec.Env(keyFromVirtualKey, callNextHookEx));
              State() == out.state && fired == old(fired) + out.fired && r == out.result
      ensures unhooked == old(unhooked)
    {
      if nCode >= 0 {
        var key := keyFromVirtualKey(info.key);
        var repeat := false;
        if disableRepeat {
          repeat := IsRepeat(info);
        }
        if repeat {
          if suppressWindowsHandling {
            return 1;
          } else {
            return callNextHookEx(ptrHook, nCode, wParam, lParam);
          }
        } else {
          previousScancode := info.scanCode;
        }
        var eventArgs := KeyEvent(key, info.time);
        if wParam == WM_SYSKEYDOWN {
          Raise(KeyDown, eventArgs);
        } else if wParam == WM_KEYDOWN {
          Raise(KeyDown, eventArgs);
          Raise(KeyPress, eventArgs);
        } else if wParam == WM_SYSKEYUP || wParam == WM_KEYUP {
          Raise(KeyUp, eventArgs);
        }
      }
      if suppressWindowsHandling {
        r := 1;
      } else {
        r := callNextHookEx(ptrHook, nCode, wParam, lParam);
      }
    }
  }

  /** What a client such as the demo view-model can rely on from the
      contracts alone: with both options set, a held key raises its events
      once and every callback is swallowed. */
  method HeldKeyClient(info: KeyInfo, keyFromVirtualKey: KeyFromVirtualKey,
                       callNextHookEx: CallNextHookEx, hook: Handle)
    requires info.scanCode != 0 || info.flags != 0
  {
    var k := new KeyboardInterceptor();
    k.disableRepeat := true;
    k.suppressWindowsHandling := true;
    k.StartCapturing(hook);
    var r1 := k.KeyboardHandler(0, WM_KEYDOWN, 0, info, keyFromVirtualKey, callNextHookEx);
    var e := KeyEvent(keyFromVirtualKey(info.key), info.time);
    assert k.fired == [Fired(KeyDown, e), Fired(KeyPress, e)] && r1 == 1;
    var r2 := k.KeyboardHandler(0, WM_KEYDOWN, 0, info, keyFromVirtualKey, callNextHookEx);
    assert k.fired == [Fired(KeyDown, e), Fired(KeyPress, e)] && r2 == 1;
    k.StopCapturing();
    k.StopCapturing();
    assert k.ptrHook == Zero && k.isCapturing;
    assert k.unhooked == if hook == Zero then [] else [hook];
  }
}
