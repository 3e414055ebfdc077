/**
 The few Win32 values the hotkey hook touches, written out with their C widths.
 The operating-system calls themselves are not modelled: what they return is
 passed in as plain values.
 */
module Win32 {

  /** A C `int` (32-bit, signed): the hook code and the result of GetMessageW. */
  type CInt = x: int | -0x8000_0000 <= x < 0x8000_0000

  /** A `DWORD` / `UINT` (32-bit, unsigned): virtual-key codes, message ids, thread ids. */
  type Dword = x: int | 0 <= x < 0x1_0000_0000

  /** A `WPARAM`, pointer sized; a 64-bit target is assumed. */
  type WParam = x: int | 0 <= x < 0x1_0000_0000_0000_0000

  /** An `HHOOK`; the value 0 is the null handle. */
  type HHook = nat

  const NULL_HOOK: HHook := 0

  /** The message id of a key press delivered to a low-level keyboard hook. */
  const WM_KEYDOWN: Dword := 0x0100

  /** The message id GetMessageW retrieves with the return value 0. */
  const WM_QUIT: Dword := 0x0012

  /** The message id of a key release; it is never forwarded. */
  const WM_KEYUP: Dword := 0x0101

  /** Rust's `wparam as UINT`: keeps the low 32 bits of the pointer-sized value. */
  function AsUint(w: WParam): (u: Dword)
    ensures w < 0x1_0000_0000 ==> u == w
    ensures (w - u) % 0x1_0000_0000 == 0
  {
    w % 0x1_0000_0000
  }

  /**
   One call of the low-level keyboard hook procedure: the hook code, the
   message id in `wparam`, and the `vkCode` field of the KBDLLHOOKSTRUCT that
   `lparam` points to.
   */
  datatype KbdEvent = KbdEvent(code: CInt, wparam: WParam, vkCode: Dword)

  /** What one GetMessageW call yields: its return value and the message id it stored. */
  datatype Msg = Msg(ret: CInt, message: Dword)
}
