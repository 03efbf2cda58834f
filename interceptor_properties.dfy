/** Properties of the interceptor state machine: single callbacks, the
    lifecycle, and whole runs of operations. */
module InterceptorProperties {
  import opened Native
  import opened Events
  import opened InterceptorSpec

  // ---------------------------------------------------------------------------
  // One callback

  /** A negative hook code raises nothing, leaves the cache alone and still
      swallows the event when SuppressWindowsHandling is set. */
  lemma NegativeCodeBypasses(s: State, c: HookCall, env: Env)
    requires c.nCode < 0
    ensures HandleCall(s, c, env).fired == []
    ensures HandleCall(s, c, env).state == s
    ensures HandleCall(s, c, env).result ==
      if s.suppressWindowsHandling then 1 else env.callNextHookEx(s.ptrHook, c.nCode, c.wParam, c.lParam)
  {
  }

  /** With DisableRepeat set, a repeat raises nothing; the result is still
      decided by SuppressWindowsHandling alone. */
  lemma RepeatDropped(s: State, c: HookCall, env: Env)
    requires c.nCode >= 0 && s.disableRepeat && IsRepeatOf(s, c.info)
    ensures HandleCall(s, c, env).fired == []
    ensures HandleCall(s, c, env).state == s
    ensures HandleCall(s, c, env).result ==
      if s.suppressWindowsHandling then 1 else env.callNextHookEx(s.ptrHook, c.nCode, c.wParam, c.lParam)
  {
  }

  /** With DisableRepeat set, an event that is not a repeat is dispatched and
      becomes the new baseline for both scan code and flags. */
  lemma FreshEventRemembered(s: State, c: HookCall, env: Env)
    requires c.nCode >= 0 && s.disableRepeat && !IsRepeatOf(s, c.info)
    ensures HandleCall(s, c, env).fired == Dispatch(c.wParam, EventOf(c, env))
    ensures HandleCall(s, c, env).state == Remember(s, c.info)
  {
  }

  /** With DisableRepeat clear, the cache is never compared: the event is
      always dispatched and only the scan code is refreshed. */
  lemma RepeatFilterOff(s: State, c: HookCall, env: Env)
    requires c.nCode >= 0 && !s.disableRepeat
    ensures HandleCall(s, c, env).fired == Dispatch(c.wParam, EventOf(c, env))
    ensures HandleCall(s, c, env).state == s.(previousScancode := c.info.scanCode)
  {
  }

  /** A fresh interceptor with DisableRepeat set takes an event with scan code
      0 and flags 0 for a repeat of an event that never happened. */
  lemma FreshZeroEventIsRepeat(c: HookCall, env: Env)
    requires c.nCode >= 0 && c.info.scanCode == 0 && c.info.flags == 0
    ensures HandleCall(Initial().(disableRepeat := true), c, env).fired == []
  {
  }

  /** Because DisableRepeat clear leaves the flags stale, an event can be
      dropped as a repeat of a pair that never occurred: after (5, 1) with the
      filter off, (5, 0) with the filter on is a "repeat". */
  lemma StaleFlagsFalseRepeat(env: Env)
    ensures
      var first := HookCall(0, WM_KEYDOWN, 0, KeyInfo(0x41, 5, 1, 10));
      var second := HookCall(0, WM_KEYDOWN, 0, KeyInfo(0x41, 5, 0, 20));
      var s1 := HandleCall(Initial(), first, env).state;
      s1 == Initial().(previousScancode := 5) &&
      HandleCall(s1.(disableRepeat := true), second, env).fired == []
  {
  }

  /** A plain key-down of 'A' with the filter off raises KeyDown then KeyPress
      carrying the translated key. */
  lemma KeyDownScenario(s: State, env: Env)
    requires !s.disableRepeat
    ensures
      var c := HookCall(0, WM_KEYDOWN, 0, KeyInfo(0x41, 30, 0, 7));
      var e := KeyEvent(env.keyFromVirtualKey(0x41), 7);
      HandleCall(s, c, env).fired == [Fired(KeyDown, e), Fired(KeyPress, e)]
  {
  }

  /** Held key with DisableRepeat: two identical events then one with other
      flags. The second is dropped, the third is dispatched. */
  lemma ThirdEventWithNewFlagsNotRepeat(env: Env)
    ensures
      var a := Callback(HookCall(0, WM_KEYDOWN, 0, KeyInfo(0x41, 30, 0, 1)));
      var b := Callback(HookCall(0, WM_KEYDOWN, 0, KeyInfo(0x41, 30, 0, 2)));
      var c := Callback(HookCall(0, WM_KEYUP, 0, KeyInfo(0x41, 30, 128, 3)));
      var t := Trace(Initial().(disableRepeat := true), [], [], []);
      Run(t, [a, b, c], env).fired ==
        Dispatch(WM_KEYDOWN, EventOf(a.call, env)) + Dispatch(WM_KEYUP, EventOf(c.call, env))
  {
    var a := Callback(HookCall(0, WM_KEYDOWN, 0, KeyInfo(0x41, 30, 0, 1)));
    var b := Callback(HookCall(0, WM_KEYDOWN, 0, KeyInfo(0x41, 30, 0, 2)));
    var c := Callback(HookCall(0, WM_KEYUP, 0, KeyInfo(0x41, 30, 128, 3)));
    var t := Trace(Initial().(disableRepeat := true), [], [], []);
    assert [a, b, c][1..] == [b, c];
    assert [b, c][1..] == [c];
    var t1 := Apply(t, a, env);
    var t2 := Apply(t1, b, env);
    var t3 := Apply(t2, c, env);
    assert t1.fired == Dispatch(WM_KEYDOWN, EventOf(a.call, env));
    assert t2.fired == t1.fired;
    assert t3.fired == t2.fired + Dispatch(WM_KEYUP, EventOf(c.call, env));
    assert Run(t, [a, b, c], env) == Run(t1, [b, c], env);
    assert Run(t1, [b, c], env) == Run(t2, [c], env);
    assert Run(t2, [c], env) == Run(t3, [], env) == t3;
  }

  // ---------------------------------------------------------------------------
  // Lifecycle

  /** StopCapturing zeroes the handle, unhooks it once, is idempotent, and
      changes neither IsCapturing, the configuration nor the repeat cache. */
  lemma StopCapturingProperties(s: State)
    ensures StopCapturing(s).ptrHook == Zero
    ensures StopCapturing(s) == s.(ptrHook := Zero)
    ensures StopCapturing(StopCapturing(s)) == StopCapturing(s)
    ensures Unhooks(StopCapturing(s)) == []
    ensures Unhooks(s) == if s.ptrHook == Zero then [] else [s.ptrHook]
  {
  }

  /** StartCapturing stores the new handle and sets IsCapturing, releasing nothing. */
  lemma StartCapturingProperties(s: State, hook: Handle, env: Env)
    ensures StartCapturing(s, hook).ptrHook == hook && StartCapturing(s, hook).isCapturing
    ensures var t := Trace(s, [], [], []);
            Apply(t, Start(hook), env).released == []
  {
  }

  // ---------------------------------------------------------------------------
  // Runs

  /** Every step only appends to the history. */
  lemma {:induction false} RunExtends(t: Trace, ops: seq<Op>, env: Env)
    ensures t.fired <= Run(t, ops, env).fired
    ensures t.results <= Run(t, ops, env).results
    ensures t.released <= Run(t, ops, env).released
    decreases |ops|
  {
    if ops != [] {
      RunExtends(Apply(t, ops[0], env), ops[1..], env);
    }
  }

  /** IsCapturing is true at the end of a run exactly when it was true at the
      start or the run starts capturing: nothing ever clears it. */
  lemma {:induction false} CapturingOnceStarted(t: Trace, ops: seq<Op>, env: Env)
    ensures Run(t, ops, env).state.isCapturing <==>
      t.state.isCapturing || exists i | 0 <= i < |ops| :: ops[i].Start?
    decreases |ops|
  {
    if ops != [] {
      var t1 := Apply(t, ops[0], env);
      CapturingOnceStarted(t1, ops[1..], env);
      assert t1.state.isCapturing <==> t.state.isCapturing || ops[0].Start?;
      if exists i | 0 <= i < |ops| :: ops[i].Start? {
        var i :| 0 <= i < |ops| && ops[i].Start?;
        if i > 0 { assert ops[1..][i - 1].Start?; }
      }
      if exists j | 0 <= j < |ops[1..]| :: ops[1..][j].Start? {
        var j :| 0 <= j < |ops[1..]| && ops[1..][j].Start?;
        assert ops[j + 1].Start?;
      }
    }
  }

  /** A handle that is not the current one and is never started again is
      never passed to UnhookWindowsHookEx. */
  lemma {:induction false} ForgottenHandleNeverReleased(t: Trace, h: Handle, ops: seq<Op>, env: Env)
    requires h != Zero && t.state.ptrHook != h && h !in t.released
    requires forall i | 0 <= i < |ops| :: ops[i].Start? ==> ops[i].hook != h
    ensures h !in Run(t, ops, env).released
    decreases |ops|
  {
    if ops != [] {
      var t1 := Apply(t, ops[0], env);
      assert t1.state.ptrHook != h && h !in t1.released;
      forall i | 0 <= i < |ops[1..]| && ops[1..][i].Start?
        ensures ops[1..][i].hook != h
      {
        assert ops[1..][i] == ops[i + 1];
      }
      ForgottenHandleNeverReleased(t1, h, ops[1..], env);
    }
  }

  /** A second StartCapturing leaks the first hook: whatever follows (short of
      starting that same handle again), it is never unhooked. */
  lemma DoubleStartLeaks(s: State, h1: Handle, h2: Handle, ops: seq<Op>, env: Env)
    requires h1 != Zero && h1 != h2
    requires forall i | 0 <= i < |ops| :: ops[i].Start? ==> ops[i].hook != h1
    ensures h1 !in Run(Trace(s, [], [], []), [Start(h1), Start(h2)] + ops, env).released
  {
    var t := Trace(s, [], [], []);
    var all := [Start(h1), Start(h2)] + ops;
    assert all[1..] == [Start(h2)] + ops;
    assert ([Start(h2)] + ops)[1..] == ops;
    var t2 := Apply(Apply(t, Start(h1), env), Start(h2), env);
    assert Run(t, all, env) == Run(t2, ops, env);
    ForgottenHandleNeverReleased(t2, h1, ops, env);
  }

  /** A held key under DisableRepeat: while every callback repeats the cached
      pair and the filter is not switched off, nothing is raised and the cache
      does not move. */
  lemma {:induction false} HeldKeyRaisesNothing(t: Trace, ops: seq<Op>, env: Env)
    requires t.state.disableRepeat
    requires forall i | 0 <= i < |ops| :: !(ops[i].SetDisableRepeat? && !ops[i].value)
    requires forall i | 0 <= i < |ops| :: ops[i].Callback? ==> IsRepeatOf(t.state, ops[i].call.info)
    ensures Run(t, ops, env).fired == t.fired
    ensures Run(t, ops, env).state.previousScancode == t.state.previousScancode
    ensures Run(t, ops, env).state.previousFlags == t.state.previousFlags
    decreases |ops|
  {
    if ops != [] {
      var t1 := Apply(t, ops[0], env);
      assert t1.fired == t.fired && t1.state.disableRepeat;
      assert t1.state.previousScancode == t.state.previousScancode;
      assert t1.state.previousFlags == t.state.previousFlags;
      forall i | 0 <= i < |ops[1..]|
        ensures !(ops[1..][i].SetDisableRepeat? && !ops[1..][i].value)
        ensures ops[1..][i].Callback? ==> IsRepeatOf(t1.state, ops[1..][i].call.info)
      {
        assert ops[1..][i] == ops[i + 1];
      }
      HeldKeyRaisesNothing(t1, ops[1..], env);
    }
  }

  /** One operation with the filter off raises its dispatch and does not
      switch the filter on unless it is SetDisableRepeat(true). */
  lemma FilterOffStep(t: Trace, op: Op, env: Env)
    requires !t.state.disableRepeat && !(op.SetDisableRepeat? && op.value)
    ensures Apply(t, op, env).fired == t.fired + Dispatched(op, env)
    ensures !Apply(t, op, env).state.disableRepeat
  {
    if op.Callback? && op.call.nCode >= 0 {
      RepeatFilterOff(t.state, op.call, env);
    }
  }

  /** With DisableRepeat clear and never set, every callback with a
      non-negative code raises its dispatch, whatever the cache holds. */
  lemma {:induction false} FilterOffRaisesEverything(t: Trace, ops: seq<Op>, env: Env)
    requires !t.state.disableRepeat
    requires forall i | 0 <= i < |ops| :: !(ops[i].SetDisableRepeat? && ops[i].value)
    ensures Run(t, ops, env).fired == t.fired + DispatchedAll(ops, env)
    decreases |ops|
  {
    if ops != [] {
      var t1 := Apply(t, ops[0], env);
      FilterOffStep(t, ops[0], env);
      forall i | 0 <= i < |ops[1..]|
        ensures !(ops[1..][i].SetDisableRepeat? && ops[1..][i].value)
      {
        assert ops[1..][i] == ops[i + 1];
      }
      FilterOffRaisesEverything(t1, ops[1..], env);
      assert t.fired + Dispatched(ops[0], env) + DispatchedAll(ops[1..], env)
          == t.fired + DispatchedAll(ops, env);
    }
  }

  /** A sequence of callbacks returns one result each. */
  lemma {:induction false} CallbackCount(t: Trace, ops: seq<Op>, env: Env)
    requires forall i | 0 <= i < |ops| :: ops[i].Callback?
    ensures |Run(t, ops, env).results| == |t.results| + |ops|
    decreases |ops|
  {
    if ops != [] {
      forall i | 0 <= i < |ops[1..]| ensures ops[1..][i].Callback? {
        assert ops[1..][i] == ops[i + 1];
      }
      CallbackCount(Apply(t, ops[0], env), ops[1..], env);
    }
  }

  /** The result of the i-th callback of a run of callbacks: 1 when
      suppressing, otherwise what the next hook returned for that call. */
  lemma {:induction false} CallbackResultAt(t: Trace, ops: seq<Op>, env: Env, i: nat)
    requires forall j | 0 <= j < |ops| :: ops[j].Callback?
    requires i < |ops|
    ensures |t.results| + i < |Run(t, ops, env).results|
    ensures Run(t, ops, env).results[|t.results| + i] ==
      if t.state.suppressWindowsHandling then 1
      else env.callNextHookEx(t.state.ptrHook, ops[i].call.nCode, ops[i].call.wParam, ops[i].call.lParam)
    decreases i
  {
    var t1 := Apply(t, ops[0], env);
    assert Run(t, ops, env) == Run(t1, ops[1..], env);
    assert t1.results == t.results + [Propagate(t.state, ops[0].call, env)];
    if i == 0 {
      RunExtends(t1, ops[1..], env);
      assert t1.results[|t.results|] == Propagate(t.state, ops[0].call, env);
    } else {
      forall j | 0 <= j < |ops[1..]| ensures ops[1..][j].Callback? {
        assert ops[1..][j] == ops[j + 1];
      }
      assert ops[1..][i - 1] == ops[i];
      CallbackResultAt(t1, ops[1..], env, i - 1);
    }
  }

  /** A sequence of callbacks returns one result each, keeps the earlier
      results, and each result is 1 when suppressing and otherwise exactly
      what the next hook returned. */
  lemma CallbackResults(t: Trace, ops: seq<Op>, env: Env)
    requires forall i | 0 <= i < |ops| :: ops[i].Callback?
    ensures |Run(t, ops, env).results| == |t.results| + |ops|
    ensures Run(t, ops, env).results[..|t.results|] == t.results
    ensures forall i | 0 <= i < |ops| ::
      Run(t, ops, env).results[|t.results| + i] ==
        if t.state.suppressWindowsHandling then 1
        else env.callNextHookEx(t.state.ptrHook, ops[i].call.nCode, ops[i].call.wParam, ops[i].call.lParam)
  {
    CallbackCount(t, ops, env);
    RunExtends(t, ops, env);
    forall i | 0 <= i < |ops|
      ensures Run(t, ops, env).results[|t.results| + i] ==
        if t.state.suppressWindowsHandling then 1
        else env.callNextHookEx(t.state.ptrHook, ops[i].call.nCode, ops[i].call.wParam, ops[i].call.lParam)
    {
      CallbackResultAt(t, ops, env, i);
    }
  }
}
