/**
 Values shared by every part of the hotkey hook: keys, callbacks and the
 error taxonomy of the Windows back end.
 */
module Hotkey {

  /**
   A key of the catalogue, identified by its Windows virtual-key code. The
   hook accepts exactly the codes 1 to 254 and converts them unchanged.
   */
  type KeyCode = k: int | 1 <= k <= 0xFE witness 1

  /** A registered callback. Callbacks are opaque: only their identity is observed. */
  type CallbackId = nat

  /** The errors the Windows back end reports. */
  datatype Error =
    | AlreadyRegistered
    | NotRegistered
    | WindowsHook
    | ThreadStopped
    | MessageLoop

  datatype Result<T> = Ok(value: T) | Err(error: Error)

  datatype Option<T> = None | Some(value: T)
}
