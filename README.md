# WinKeyboardHook interceptor, modelled in Dafny

This project models `KeyboardInterceptor`, the component of WinKeyboardHook.WPF
that installs a low-level keyboard hook and republishes each keyboard
transition as `KeyDown`, `KeyUp` and `KeyPress` events. The model covers:

* the per-event hook callback (`KeyboardHandler`): the negative-hook-code
  bypass, the repeat filter (`IsRepeat` and the `(scanCode, flags)` cache),
  the switch on the message kind that decides which events fire and in which
  order, and the return value (swallow with `1`, or pass on the next hook's
  result);
* the lifecycle (`StartCapturing`, `StopCapturing`) acting on the hook handle
  and `IsCapturing`.

Files:

* `native.dfy` (module `Native`): the `WM_*` message constants, the decoded
  `KBDLLHOOKSTRUCT` record `KeyInfo`, and the types of the two foreign lookups.
* `events.dfy` (module `Events`): the three event kinds, the event value, and
  `Dispatch`, the message-kind switch.
* `interceptor_spec.dfy` (module `InterceptorSpec`): the interceptor's fields
  as a `State` value, the callback as the function `HandleCall`, the lifecycle
  as `StartCapturing`/`StopCapturing`/`Unhooks`, and `Run`, which applies a
  sequence of operations (starts, stops, option changes, callbacks) and
  records the events raised, the values returned and the handles unhooked.
* `interceptor_properties.dfy` (module `InterceptorProperties`): lemmas about
  single callbacks, the lifecycle and whole runs.
* `interceptor.dfy` (module `Interceptor`): the class `KeyboardInterceptor`,
  with the source's fields updated in place by its methods. Each method's
  contract gives the new fields in terms of the state machine above. Raising
  an event appends to the field `fired`, and calling `UnhookWindowsHookEx`
  appends to the field `unhooked`.

The foreign calls are parameters. `SetWindowsHookEx` is the `hook` argument of
`StartCapturing`. `CallNextHookEx` and `KeyInterop.KeyFromVirtualKey` are total
functions given to `KeyboardHandler`. The record that `lParam` points to is a
`KeyInfo` argument.

The model follows the code as written. It keeps these behaviours:

* The repeat cache starts at `(0, 0)`. On a fresh interceptor with
  `DisableRepeat` set, an event with scan code 0 and flags 0 is dropped.
* When `DisableRepeat` is false, only the cached scan code is refreshed, and
  the cached flags go stale (`StaleFlagsFalseRepeat`).
* `StopCapturing` never clears `IsCapturing` (`CapturingOnceStarted`).
* A second `StartCapturing` overwrites the handle without unhooking it
  (`DoubleStartLeaks`).
* A negative hook code is still swallowed when `SuppressWindowsHandling` is set.
* The handle returned by `SetWindowsHookEx` is stored without being checked,
  and `IsCapturing` is set even if registration failed.

## Model

| member | source | states |
|---|---|---|
| Events.Dispatch | src/AobD.WinKeyboardHook.WPF/KeyboardInterceptor.cs:176-190 | WM_KEYDOWN fires exactly [KeyDown, KeyPress], WM_SYSKEYDOWN exactly [KeyDown], WM_KEYUP and WM_SYSKEYUP exactly [KeyUp], and any other message nothing. Every fired event carries the same event value, and KeyPress fires only for a plain key-down. |
| InterceptorSpec.HandleCall | src/AobD.WinKeyboardHook.WPF/KeyboardInterceptor.cs:147-201 | The result is 1 if SuppressWindowsHandling, else the next hook's result for the current handle and the same arguments. The handle, IsCapturing and both options are unchanged. A negative code changes nothing and fires nothing. Otherwise the scan code is cached, and the flags only under DisableRepeat. A dropped repeat fires nothing and every other event fires its dispatch. |
| InterceptorProperties.NegativeCodeBypasses | src/AobD.WinKeyboardHook.WPF/KeyboardInterceptor.cs:149-200 | A negative hook code fires no events and leaves the state unchanged. It returns 1 under SuppressWindowsHandling, else the next hook's result. |
| InterceptorProperties.RepeatDropped | src/AobD.WinKeyboardHook.WPF/KeyboardInterceptor.cs:155-165 | With DisableRepeat set, a repeat of the cached pair fires nothing and leaves the state as it was. The return still follows SuppressWindowsHandling. |
| InterceptorProperties.FreshEventRemembered | src/AobD.WinKeyboardHook.WPF/KeyboardInterceptor.cs:132-169 | With DisableRepeat set, a non-repeat is dispatched, and both its scan code and its flags become the cache. |
| InterceptorProperties.RepeatFilterOff | src/AobD.WinKeyboardHook.WPF/KeyboardInterceptor.cs:155-169 | With DisableRepeat clear, every event is dispatched and only the cached scan code changes. |
| InterceptorProperties.FreshZeroEventIsRepeat | src/AobD.WinKeyboardHook.WPF/KeyboardInterceptor.cs:129-145 | A new interceptor with DisableRepeat set drops an event with scan code 0 and flags 0, because the cache starts at (0, 0). |
| InterceptorProperties.StaleFlagsFalseRepeat | src/AobD.WinKeyboardHook.WPF/KeyboardInterceptor.cs:155-169 | After (5, 1) is seen with the filter off, the cache holds (5, 0). An event (5, 0) with the filter on is then dropped as a repeat. |
| InterceptorProperties.KeyDownScenario | src/AobD.WinKeyboardHook.WPF/KeyboardInterceptor.cs:182-185 | A key-down of virtual key 0x41 with the filter off fires exactly KeyDown and then KeyPress, both carrying the translated key and the time. |
| InterceptorProperties.ThirdEventWithNewFlagsNotRepeat | src/AobD.WinKeyboardHook.WPF/KeyboardInterceptor.cs:132-145 | With DisableRepeat set, the second of two identical events is dropped. A third event that differs in its flags is dispatched. |
| InterceptorProperties.StopCapturingProperties | src/AobD.WinKeyboardHook.WPF/KeyboardInterceptor.cs:203-210 | After StopCapturing the handle is zero and nothing else changes. Stopping twice equals stopping once. A non-zero handle is unhooked once, and the second stop unhooks nothing. |
| InterceptorProperties.StartCapturingProperties | src/AobD.WinKeyboardHook.WPF/KeyboardInterceptor.cs:118-127 | StartCapturing sets IsCapturing, stores the given handle and unhooks nothing. |
| InterceptorProperties.CapturingOnceStarted | src/AobD.WinKeyboardHook.WPF/KeyboardInterceptor.cs:101-127 | At the end of any run, IsCapturing is true exactly when it was true at the start or the run contains a StartCapturing. |
| InterceptorProperties.ForgottenHandleNeverReleased | src/AobD.WinKeyboardHook.WPF/KeyboardInterceptor.cs:203-210 | A non-zero handle that is neither current nor already unhooked, and is never started again, is never unhooked by any run. |
| InterceptorProperties.DoubleStartLeaks | src/AobD.WinKeyboardHook.WPF/KeyboardInterceptor.cs:118-127 | After StartCapturing(h1) then StartCapturing(h2) with h1 non-zero and different from h2, h1 is never unhooked, whatever follows (unless h1 is started again). |
| InterceptorProperties.HeldKeyRaisesNothing | src/AobD.WinKeyboardHook.WPF/KeyboardInterceptor.cs:155-165 | With DisableRepeat set and not switched off, a run whose callbacks all repeat the cached pair fires nothing and leaves the cache unchanged. |
| InterceptorProperties.FilterOffRaisesEverything | src/AobD.WinKeyboardHook.WPF/KeyboardInterceptor.cs:155-190 | With DisableRepeat clear and never switched on, a run fires exactly the dispatch of each non-negative callback, in order, whatever the cache holds. |
| InterceptorProperties.CallbackResultAt | src/AobD.WinKeyboardHook.WPF/KeyboardInterceptor.cs:155-200 | In a run of callbacks, the i-th result is 1 under SuppressWindowsHandling, else the next hook's result for the i-th call and the current handle. |
| InterceptorProperties.CallbackResults | src/AobD.WinKeyboardHook.WPF/KeyboardInterceptor.cs:155-200 | A run of callbacks returns one value per callback and keeps the earlier results. Each value is 1 under SuppressWindowsHandling, else that callback's next-hook result. |
| Interceptor.KeyboardInterceptor.constructor | src/AobD.WinKeyboardHook.WPF/KeyboardInterceptor.cs:113-130 | A new interceptor has no handle, is not capturing, has both options off, and its cache is (0, 0). |
| Interceptor.KeyboardInterceptor.StartCapturing | src/AobD.WinKeyboardHook.WPF/KeyboardInterceptor.cs:118-127 | Stores the handle from SetWindowsHookEx unchecked and sets IsCapturing. Nothing is unhooked and nothing fires. |
| Interceptor.KeyboardInterceptor.StopCapturing | src/AobD.WinKeyboardHook.WPF/KeyboardInterceptor.cs:203-210 | Unhooks a non-zero handle exactly once and zeroes it. IsCapturing is left unchanged. |
| Interceptor.KeyboardInterceptor.IsRepeat | src/AobD.WinKeyboardHook.WPF/KeyboardInterceptor.cs:132-145 | Returns true iff the event's (scanCode, flags) equals the cached pair. Afterwards the cache holds the event's pair whatever the result. |
| Interceptor.KeyboardInterceptor.Raise | src/AobD.WinKeyboardHook.WPF/KeyboardInterceptor.cs:180-188 | Invoking an event field appends exactly that event to the stream. |
| Interceptor.KeyboardInterceptor.KeyboardHandler | src/AobD.WinKeyboardHook.WPF/KeyboardInterceptor.cs:147-201 | Returns 1 when SuppressWindowsHandling is set, else the next hook's result. A negative code changes no field and fires nothing. The new fields, the events appended and the result are exactly those of HandleCall. |

## Left out

- Win32 calls (`SetWindowsHookEx`, `UnhookWindowsHookEx`, `CallNextHookEx`, `GetModuleHandle`, and the unused `GetAsyncKeyState`) are foreign. The handle is a parameter, the next-hook result comes from a function parameter, and unhooking is recorded in `unhooked`.
- `Process.GetCurrentProcess` and the module-name lookup in `StartCapturing` are operating-system I/O.
- `Marshal.PtrToStructure` and the `KBDLLHOOKSTRUCT` memory layout are interop. The decoded record is passed in as `KeyInfo`, and the unused `extra` pointer is dropped.
- `KeyInterop.KeyFromVirtualKey` and the unused `KeyConverter` are a WPF table that is not visible here. They are modelled as an arbitrary total function.
- Building `KeyEventArgs` from the keyboard device and its active presentation source is UI plumbing. When the device has no active source, a new `HwndSource` window is created on every callback; that side effect is not modelled. The event is `(key, time)`.
- Subscribing and unsubscribing to the three events, and the null check of `?.Invoke`, are not modelled. `fired` records every raise, which is what each subscriber would see, in order.
- Raise: subscribers are assumed not to write the interceptor or the shared `KeyEventArgs` object during dispatch. In the source, a handler receives the interceptor and can set `SuppressWindowsHandling`, change `DisableRepeat` or call `StopCapturing`. It can also change the event arguments that the KeyDown and KeyPress handlers share. `KeyboardHandler` reads `SuppressWindowsHandling` and the hook handle only after the events fire. Its result and new state, as stated here, hold only under this assumption.
- The `keyboardProcess` delegate field only keeps the callback alive for the garbage collector. It has no logic.
- The setters of `DisableRepeat` and `SuppressWindowsHandling` are plain field assignments on the class, and the `SetDisableRepeat` and `SetSuppressWindowsHandling` operations in runs.
- `KeyboardHandler`: on a 64-bit process `wParam.ToInt32()` is a checked conversion that would throw on a value outside 32 bits. A `WH_KEYBOARD_LL` hook only ever receives one of the four `WM_*` keyboard messages there, so this path is not modelled and `wParam` is taken as an `int`.
- `CallNextHookEx` is modelled as a fixed function of the handle, `nCode`, `wParam` and `lParam`. Two identical callbacks in one run therefore get the same next-hook result; the real hook chain may answer them differently. No lemma depends on this.
- Threading, the operating system's time budget for hook callbacks, and exceptions thrown by subscribers are runtime concerns with no logic in the code.
- The constant `WH_KEYBOARD_LL` is declared, but the code passes the literal 13. The unused `VK_*` constants, `WM_DEADCHAR` and `WM_SYSDEADCHAR` are never read.
- `IKeyboardInterceptor.cs` has only signatures. `MainViewModel.cs` is demo UI glue; `HeldKeyClient` shows how a client like it uses the contracts.
