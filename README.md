# Windows global hotkey hook, modelled in Dafny

This project models the Windows back end of the `livesplit-hotkey` crate.
The back end runs system-wide keyboard shortcuts: a low-level keyboard hook
on its own thread turns key presses into keys on an event channel. A
dispatcher thread drains that channel and calls the callback registered for
each key. Callers register and unregister callbacks through a `Hook` handle.

The model is sequential. Callbacks are opaque identifiers (`CallbackId`), and
a run of the dispatcher is described by the trace of callbacks it invoked.
Every Win32 call becomes a plain input value:

- the handle `SetWindowsHookExW` returns (0 is null);
- the thread id `GetCurrentThreadId` returns;
- the raw hook-procedure arguments;
- the `(ret, message)` pairs `GetMessageW` yields.

Modules, one per component:

- `Win32` (win32.dfy): the C widths of `int`, `DWORD`/`UINT` and `WPARAM`, the message constants, and the truncating `wparam as UINT` cast.
- `Hotkey` (hotkey.dfy): `KeyCode` as the virtual-key codes 1..254, the `Error` enum, `Result`, `Option`.
- `Registry` (registry.dfy): what a register or unregister does to the key-to-callback table.
- `Filter` (filter.dfy): the hook procedure. It decides which events become keys and always calls the next hook.
- `Dispatch` (dispatch.dfy): the consumer loop and its trace.
- `Lifecycle` (lifecycle.dfy): the hook thread's start-up report, the message loop, and the unhooking.
- `Service` (service.dfy): the `Hook` class, whose methods edit its table in place. Also `Hook::new`, timelines that interleave key presses with registry calls, and the scenario of the crate's `test` function.

Behaviour of the code that the model keeps as written:

- When `SetWindowsHookExW` returns null, the hook thread reports `WindowsHook` but does not stop. It still fills its thread-local state and enters the message loop. `Hook::new` fails, so no handle exists whose drop could post `MSG_EXIT`, and the thread goes on pumping. The hook thread and the dispatcher thread then stay alive until `GetMessageW` reports an error, since nothing posts `MSG_EXIT` to the hook thread. `Service.New` returns the thread with its state filled, and `Lifecycle.HookThread.Pump` can then run on it.
- The message loop stops only on `MSG_EXIT` or on a negative `GetMessageW` result. A `WM_QUIT` (result 0) keeps it looping. On the error path the thread returns `MessageLoop` without unhooking.
- The message id is `wparam as UINT`, so on a 64-bit target only the low 32 bits of `wparam` are compared with `WM_KEYDOWN`.
- The names of the keys come from a key table that is not part of this model. Numpad0 and Numpad1 are taken to be the Windows virtual-key codes 0x60 and 0x61. The `transmute` of `vkCode as u8` implies that each key's discriminant is its virtual-key code.

## Model

| member | source | states |
|---|---|---|
| `Win32.AsUint` | crates/livesplit-hotkey/src/windows/mod.rs:75 | `wparam as UINT` keeps the low 32 bits: it is the identity below 2^32 and differs from its input by a multiple of 2^32 |
| `Registry.TryInsert` | crates/livesplit-hotkey/src/windows/mod.rs:167-172 | success exactly when the key had no entry. On success the new entry is the given callback, the domain grows by that key and nothing else changes. Otherwise the error is `AlreadyRegistered` and the table is unchanged, the original callback included |
| `Registry.TryRemove` | crates/livesplit-hotkey/src/windows/mod.rs:175-181 | success exactly when the key had an entry. The domain afterwards lacks exactly that key and the other entries keep their callbacks. Otherwise the error is `NotRegistered` and the table is unchanged |
| `Registry.RegisterTwiceKeepsFirst` | crates/livesplit-hotkey/src/windows/mod.rs:167-172 | a second registration of a key fails with `AlreadyRegistered` and the first callback stays active |
| `Registry.RegisterThenUnregister` | crates/livesplit-hotkey/src/windows/mod.rs:163-181 | registering a vacant key and then unregistering it succeeds and restores the table exactly |
| `Registry.UnregisterThenRegister` | crates/livesplit-hotkey/src/windows/mod.rs:184-192 | after a successful unregister, registering the same key again succeeds with the new callback |
| `Registry.DistinctKeysIndependent` | crates/livesplit-hotkey/src/windows/mod.rs:163-181 | a register or unregister on one key leaves a different key's entry as it was, and so the result of any register or unregister on that key |
| `Filter.Translate` | crates/livesplit-hotkey/src/windows/mod.rs:71-83 | a key is sent exactly when the hook code is non-negative, `vkCode` is in 1..0xFE and the truncated message id is `WM_KEYDOWN`; the key sent is the one whose code is `vkCode` |
| `Filter.CallbackProc` | crates/livesplit-hotkey/src/windows/mod.rs:66-87 | every event, forwarded or not, goes to `CallNextHookEx` unchanged with the stored hook handle. The hook never swallows input, and it sends a key under the same condition as `Translate` |
| `Filter.ForwardedAppend` | crates/livesplit-hotkey/src/windows/mod.rs:77-80 | the keys sent on the channel for two consecutive runs of events are those of the first run followed by those of the second |
| `Filter.ForwardedLength` | crates/livesplit-hotkey/src/windows/mod.rs:71-83 | at most one key per event is sent |
| `Filter.ForwardedKeys` | crates/livesplit-hotkey/src/windows/mod.rs:71-83 | a key is on the channel if and only if some event with that `vkCode` passed the filter |
| `Filter.NothingForwarded` | crates/livesplit-hotkey/src/windows/mod.rs:71-83 | nothing is sent if and only if no event passes the filter (key-ups, negative codes, codes 0 and above 0xFE) |
| `Filter.WParamIsTruncated` | crates/livesplit-hotkey/src/windows/mod.rs:71-76 | concrete cases: a `wparam` whose low half is `WM_KEYDOWN` is a press; a key-up, a negative code, `vkCode` 0 and `vkCode` 0xFF are not forwarded |
| `Dispatch.Drain` | crates/livesplit-hotkey/src/windows/mod.rs:150-156 | the consumer loop takes keys first in, first out, and invokes exactly the trace `Trace(hotkeys, events)` |
| `Dispatch.TraceAppend` | crates/livesplit-hotkey/src/windows/mod.rs:151-155 | dispatching two batches in turn invokes the callbacks of the first, then those of the second |
| `Dispatch.TraceIsMappedSubsequence` | crates/livesplit-hotkey/src/windows/mod.rs:151-155 | the trace has one invocation per received key that has an entry, no more and no fewer, at strictly increasing positions. The j-th invocation is the callback of the j-th mapped key |
| `Dispatch.UnmappedKeyInvokesNothing` | crates/livesplit-hotkey/src/windows/mod.rs:152-154 | inserting a key with no entry anywhere among the received keys leaves the trace unchanged |
| `Dispatch.EmptyTraceIffNoneMapped` | crates/livesplit-hotkey/src/windows/mod.rs:151-155 | no callback runs if and only if none of the received keys has an entry |
| `Lifecycle.StartupReport` | crates/livesplit-hotkey/src/windows/mod.rs:112-120 | the start-up report is `Ok(thread id)` exactly for a non-null hook handle, and otherwise `WindowsHook` |
| `Lifecycle.ReceiveReport` | crates/livesplit-hotkey/src/windows/mod.rs:158 | the constructor takes the report that was sent, with its error, or `ThreadStopped` when no report arrived |
| `Lifecycle.Handshake` | crates/livesplit-hotkey/src/windows/mod.rs:112-120 | once the report is received, construction fails with `WindowsHook` exactly on a null handle and otherwise yields the hook thread's id |
| `Lifecycle.LoopFateFromCharacterization` | crates/livesplit-hotkey/src/windows/mod.rs:130-139 | the loop, read from any position, ends at the first message that is `MSG_EXIT` or has a negative result. With `MSG_EXIT` it ends normally, otherwise it fails. It keeps waiting if and only if no such message comes |
| `Lifecycle.LoopFateCharacterization` | crates/livesplit-hotkey/src/windows/mod.rs:130-139 | the same for the whole loop. `MSG_EXIT` is tested before the error, so it exits normally even when `ret < 0` |
| `Lifecycle.LoopFateFromPrefix` | crates/livesplit-hotkey/src/windows/mod.rs:130-139 | from any position, messages after the one that ends the loop do not change how it ends |
| `Lifecycle.LoopEndsForGood` | crates/livesplit-hotkey/src/windows/mod.rs:130-139 | once the loop has ended, later messages are never read |
| `Lifecycle.LoopEdgeCases` | crates/livesplit-hotkey/src/windows/mod.rs:134-137 | concrete cases: `WM_QUIT` with result 0 keeps looping, `MSG_EXIT` with result -1 exits normally, an error after a key-down fails at the second message |
| `Lifecycle.HookThread.constructor` | crates/livesplit-hotkey/src/windows/mod.rs:62-64 | the thread-local state starts empty, nothing has been unhooked and the thread has not returned |
| `Lifecycle.HookThread.Start` | crates/livesplit-hotkey/src/windows/mod.rs:100-128 | sends the start-up report for the handle, then fills the state cell with that handle, also when it is null |
| `Lifecycle.HookThread.Pump` | crates/livesplit-hotkey/src/windows/mod.rs:130-145 | follows `LoopFate`. A normal exit unhooks the stored handle exactly once and returns `Ok`. A failure returns `MessageLoop` without unhooking. While still waiting, nothing is unhooked and nothing is returned |
| `Service.Hook.constructor` | crates/livesplit-hotkey/src/windows/mod.rs:160 | a new handle carries the reported thread id and an empty registry |
| `Service.Hook.Register` | crates/livesplit-hotkey/src/windows/mod.rs:163-173 | in place: fills a vacant entry and returns `Ok`, or returns `AlreadyRegistered` and leaves the table untouched; the result and new table are those of `TryInsert` |
| `Service.Hook.Unregister` | crates/livesplit-hotkey/src/windows/mod.rs:175-181 | in place: removes exactly the key's entry and returns `Ok`, or returns `NotRegistered` and leaves the table untouched; agrees with `TryRemove` |
| `Service.Hook.PlayStep` | crates/livesplit-hotkey/src/windows/mod.rs:148-156 | one step on the shared table. A key press goes through the filter and the dispatcher. A registry call edits the table. Together they agree with `StepRun` |
| `Service.Hook.Play` | crates/livesplit-hotkey/src/windows/mod.rs:148-156 | a timeline of key presses and registry calls on the handle ends in the table, results and trace that `Simulate` gives |
| `Service.New` | crates/livesplit-hotkey/src/windows/mod.rs:90-161 | `Hook::new` succeeds exactly on a non-null handle. It then returns a fresh handle with the hook thread's id and an empty registry, and otherwise fails with `WindowsHook`. Either way the hook thread's state is filled and the thread has not returned |
| `Service.PressesDispatchForwarded` | crates/livesplit-hotkey/src/windows/mod.rs:66-87 | without registry calls in between, hook and dispatcher together invoke the trace of the forwarded keys, and the registry does not change |
| `Service.KeyUpsInvokeNothing` | crates/livesplit-hotkey/src/windows/mod.rs:76-81 | events that are not key-downs never invoke a callback |
| `Service.PressOne` | crates/livesplit-hotkey/src/windows/mod.rs:152-154 | one key press invokes that key's callback if it has one, and nothing otherwise |
| `Service.NumpadScenario` | crates/livesplit-hotkey/src/windows/mod.rs:184-192 | register Numpad0 with `a`, press it, unregister it, press it, register Numpad1 with `b`, press it. Every call succeeds and the trace is exactly `[a, b]` |
| `Service.SourceTest` | crates/livesplit-hotkey/src/windows/mod.rs:184-192 | the crate's `test` function on the class: with the hook installed, registering Numpad0, unregistering it and registering Numpad1 all succeed |

## Left out

- Threads, the `mpsc` channels, the `parking_lot::Mutex` and the `Arc` sharing are not modelled. The registry, the hook procedure and the dispatcher run sequentially; a key press in a timeline is dispatched against the table as it stands at that step. The hook thread's start-up (report, then state cell) runs to completion before the constructor takes the report, whereas in the source `Hook::new` can return before the thread has filled its state cell.
- Service.Hook.Play: does not model a press dispatched later than the registry calls that follow it, because the real dispatcher runs asynchronously on its own thread.
- The Win32 calls (`SetWindowsHookExW`, `GetModuleHandleW`, `GetCurrentThreadId`, `GetMessageW`, `CallNextHookEx`, `UnhookWindowsHookEx`) are replaced by the values they return or receive.
- `CallbackProc`'s return value is whatever `CallNextHookEx` returns, an OS-provided value; the model records the call's arguments instead.
- The `Drop` impl, which posts `MSG_EXIT` to the hook thread without waiting, is left out. The exit message appears only as an input of the message loop.
- The `ThreadStopped` paths on the hook thread (a failed send of the start-up report, lines 113-119) cannot arise in a sequential run, because the constructor is still waiting on the receiver. `Lifecycle.ReceiveReport` covers the constructor's side of that error.
- The `expect` panics in the hook procedure (state not initialised, dispatcher gone) are left out. The hook procedure takes the stored handle as a parameter.
- The key catalogue's variant list and the `mem::transmute` are not part of this model. `KeyCode` is the range 1..254 of virtual-key codes.
- The bodies of user callbacks are left out; a callback is only its identity.
- Lifecycle.HookThread.Pump: reads a finite sequence of `GetMessageW` results, so a thread still blocked in `GetMessageW` is reported as `Waiting` rather than running forever.
- The C API wrappers and the layout module re-exports are plumbing with no logic of their own and are not modelled.
