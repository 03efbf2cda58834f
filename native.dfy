/** The Win32 boundary of the keyboard interceptor: the message constants the
    hook callback switches on, the decoded low-level keyboard record, and the
    shapes of the foreign calls, which the model takes as parameters. */
module Native {

  /** Message kinds delivered in wParam. */
  const WM_KEYDOWN: int := 0x100
  const WM_SYSKEYDOWN: int := 0x104
  const WM_KEYUP: int := 0x101
  const WM_SYSKEYUP: int := 0x105

  /** An IntPtr hook handle; zero means "no hook". */
  type Handle = int
  const Zero: Handle := 0

  /** A value of WPF's Key enumeration. */
  type Key = int

  /** The KBDLLHOOKSTRUCT that lParam points to, already read out of memory
      (the trailing `extra` pointer is never used). */
  datatype KeyInfo = KeyInfo(key: int, scanCode: int, flags: int, time: int)

  /** KeyInterop.KeyFromVirtualKey: a total lookup from virtual key code to Key. */
  type KeyFromVirtualKey = int -> Key

  /** CallNextHookEx(hook, nCode, wParam, lParam): what the rest of the hook chain returns. */
  type CallNextHookEx = (Handle, int, int, int) -> int
}
