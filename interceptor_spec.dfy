/** The keyboard interceptor as a pure state machine: its fields as a State
    value, the hook callback as a function of the state and one call, the
    start/stop lifecycle, and a run over a sequence of operations. */
module InterceptorSpec {
  import opened Native
  import opened Events

  /** The fields of one interceptor: the hook handle, IsCapturing, the two
      configuration flags and the repeat cache. */
  datatype State = State(
    ptrHook: Handle,
    isCapturing: bool,
    disableRepeat: bool,
    suppressWindowsHandling: bool,
    previousScancode: int,
    previousFlags: int)

  /** A freshly constructed interceptor: every field holds its default value,
      so the repeat cache starts at (0, 0). */
  function Initial(): State {
    State(Zero, false, false, false, 0, 0)
  }

  /** The arguments of one invocation of the hook callback; `info` is the
      record that lParam points to. */
  datatype HookCall = HookCall(nCode: int, wParam: int, lParam: int, info: KeyInfo)

  /** The foreign functions the callback consults. */
  datatype Env = Env(keyFromVirtualKey: KeyFromVirtualKey, callNextHookEx: CallNextHookEx)

  /** What one callback does: the interceptor's new state, the events it
      raised in order, and the value handed back to the OS. */
  datatype Reaction = Reaction(state: State, fired: seq<Fired>, result: int)

  /** The repeat test: the event's (scanCode, flags) equals the cached pair. */
  predicate IsRepeatOf(s: State, info: KeyInfo) {
    s.previousScancode == info.scanCode && s.previousFlags == info.flags
  }

  /** The cache after IsRepeat: both fields hold the event's pair. */
  function Remember(s: State, info: KeyInfo): State {
    s.(previousScancode := info.scanCode, previousFlags := info.flags)
  }

  /** The propagation decision: 1 swallows the event, otherwise the result
      of the next hook in the chain. */
  function Propagate(s: State, c: HookCall, env: Env): int {
    if s.suppressWindowsHandling then 1
    else env.callNextHookEx(s.ptrHook, c.nCode, c.wParam, c.lParam)
  }

  /** The event value shared by every stream raised for `c`. */
  function EventOf(c: HookCall, env: Env): KeyEvent {
    KeyEvent(env.keyFromVirtualKey(c.info.key), c.info.time)
  }

  /** The hook callback. `IsRepeat` is consulted only when DisableRepeat is
      set (short-circuit), and the non-dropped path refreshes the scan code
      alone. */
  function HandleCall(s: State, c: HookCall, env: Env): (r: Reaction)
    // 1 exactly when suppressing, otherwise the next hook's result unchanged
    ensures r.result == if s.suppressWindowsHandling then 1
                        else env.callNextHookEx(s.ptrHook, c.nCode, c.wParam, c.lParam)
    // the handle, IsCapturing and the configuration are never touched
    ensures r.state.ptrHook == s.ptrHook && r.state.isCapturing == s.isCapturing
    ensures r.state.disableRepeat == s.disableRepeat
    ensures r.state.suppressWindowsHandling == s.suppressWindowsHandling
    // a negative hook code is not looked at
    ensures c.nCode < 0 ==> r.state == s && r.fired == []
    // otherwise the scan code is cached; the flags only when DisableRepeat is set
    ensures c.nCode >= 0 ==> r.state.previousScancode == c.info.scanCode
    ensures c.nCode >= 0 ==>
      r.state.previousFlags == if s.disableRepeat then c.info.flags else s.previousFlags
    // a dropped repeat raises nothing; any other event raises its dispatch
    ensures c.nCode >= 0 && s.disableRepeat && IsRepeatOf(s, c.info) ==> r.fired == []
    ensures c.nCode >= 0 && !(s.disableRepeat && IsRepeatOf(s, c.info)) ==>
      r.fired == Dispatch(c.wParam, EventOf(c, env))
  {
    if c.nCode < 0 then
      Reaction(s, [], Propagate(s, c, env))
    else
      var key := env.keyFromVirtualKey(c.info.key);
      if s.disableRepeat && IsRepeatOf(s, c.info) then
        var s' := Remember(s, c.info);
        Reaction(s', [], Propagate(s', c, env))
      else
        var s' := if s.disableRepeat then Remember(s, c.info)
                  else s.(previousScancode := c.info.scanCode);
        Reaction(s', Dispatch(c.wParam, KeyEvent(key, c.info.time)), Propagate(s', c, env))
  }

  /** StartCapturing, given the handle SetWindowsHookEx returned (never checked). */
  function StartCapturing(s: State, hook: Handle): State {
    s.(ptrHook := hook, isCapturing := true)
  }

  /** The handles StopCapturing passes to UnhookWindowsHookEx. */
  function Unhooks(s: State): seq<Handle> {
    if s.ptrHook != Zero then [s.ptrHook] else []
  }

  /** StopCapturing: only the handle is reset; IsCapturing stays as it was. */
  function StopCapturing(s: State): State {
    if s.ptrHook != Zero then s.(ptrHook := Zero) else s
  }

  /** What an owner of the interceptor can do to it, and the OS callback. */
  datatype Op =
    | Start(hook: Handle)
    | Stop
    | SetDisableRepeat(value: bool)
    | SetSuppressWindowsHandling(value: bool)
    | Callback(call: HookCall)

  /** The observable history: state, events raised, values returned by the
      callbacks, and handles released with UnhookWindowsHookEx. */
  datatype Trace = Trace(state: State, fired: seq<Fired>, results: seq<int>, released: seq<Handle>)

  function Apply(t: Trace, op: Op, env: Env): Trace {
    match op
    case Start(hook) => t.(state := StartCapturing(t.state, hook))
    case Stop => t.(state := StopCapturing(t.state), released := t.released + Unhooks(t.state))
    case SetDisableRepeat(b) => t.(state := t.state.(disableRepeat := b))
    case SetSuppressWindowsHandling(b) => t.(state := t.state.(suppressWindowsHandling := b))
    case Callback(c) =>
      var r := HandleCall(t.state, c, env);
      Trace(r.state, t.fired + r.fired, t.results + [r.result], t.released)
  }

  function Run(t: Trace, ops: seq<Op>, env: Env): Trace
    decreases |ops|
  {
    if ops == [] then t else Run(Apply(t, ops[0], env), ops[1..], env)
  }

  /** The events a run raises when no repeat is ever dropped: the dispatch of
      every callback with a non-negative code, in order. */
  function DispatchedAll(ops: seq<Op>, env: Env): seq<Fired>
    decreases |ops|
  {
    if ops == [] then [] else Dispatched(ops[0], env) + DispatchedAll(ops[1..], env)
  }

  /** The events one operation raises when no repeat is dropped. */
  function Dispatched(op: Op, env: Env): seq<Fired> {
    if op.Callback? && op.call.nCode >= 0 then Dispatch(op.call.wParam, EventOf(op.call, env)) else []
  }
}
