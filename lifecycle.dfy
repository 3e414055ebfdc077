/**
 The hook thread: it installs the low-level keyboard hook, reports the outcome
 to the constructor over a one-shot channel, stores its state in the
 thread-local cell, pumps its message queue until told to exit, and removes
 the hook on the way out.
 */
module Lifecycle {
  import opened Win32
  import opened Hotkey

  /** The private thread message that asks the hook thread to stop. */
  const MSG_EXIT: Dword := 0x400

  /** The report the hook thread sends once SetWindowsHookExW returned `hook`. */
  function StartupReport(hook: HHook, threadId: Dword): (r: Result<Dword>)
    ensures r.Ok? <==> hook != NULL_HOOK
    ensures r.Ok? ==> r.value == threadId
    ensures r.Err? ==> r.error == WindowsHook
  {
    if hook != NULL_HOOK then Ok(threadId) else Err(WindowsHook)
  }

  /**
   What the constructor makes of the one-shot channel: the report that was
   sent, or `ThreadStopped` when the sender went away without sending.
   */
  function ReceiveReport(received: Option<Result<Dword>>): (r: Result<Dword>)
    ensures r.Ok? <==> received.Some? && received.value.Ok?
    ensures r.Ok? ==> r.value == received.value.value
    ensures r.Err? ==> r.error == if received.Some? then received.value.error else ThreadStopped
  {
    match received
    case None => Err(ThreadStopped)
    case Some(report) => report
  }

  /** A started hook thread always gets its report through: construction fails exactly on a null hook. */
  lemma Handshake(hook: HHook, threadId: Dword)
    ensures ReceiveReport(Some(StartupReport(hook, threadId)))
            == if hook == NULL_HOOK then Err(WindowsHook) else Ok(threadId)
  {
  }

  /** A message after which the message loop asks GetMessageW for the next one. */
  predicate KeepsPumping(m: Msg) {
    m.message != MSG_EXIT && m.ret >= 0
  }

  /**
   How the message loop ends on a finite run of GetMessageW results: it leaves
   normally after the `consumed`-th message, fails after it, or is still
   waiting for more messages once all of them are read.
   */
  datatype LoopExit = ExitRequested(consumed: nat) | Failed(consumed: nat) | Waiting

  /** The fate of the loop when it reads `msgs` from position `i` on. */
  function LoopFateFrom(msgs: seq<Msg>, i: nat): LoopExit
    requires i <= |msgs|
    decreases |msgs| - i
  {
    if i == |msgs| then Waiting
    else if msgs[i].message == MSG_EXIT then ExitRequested(i + 1)
    else if msgs[i].ret < 0 then Failed(i + 1)
    else LoopFateFrom(msgs, i + 1)
  }

  /** The fate of the message loop on the GetMessageW results `msgs`. */
  function LoopFate(msgs: seq<Msg>): LoopExit {
    LoopFateFrom(msgs, 0)
  }

  lemma {:induction false} LoopFateFromCharacterization(msgs: seq<Msg>, i: nat)
    requires i <= |msgs|
    ensures var f := LoopFateFrom(msgs, i);
            && (f.Waiting? <==> forall j :: i <= j < |msgs| ==> KeepsPumping(msgs[j]))
            && (!f.Waiting? ==>
                  && i < f.consumed <= |msgs|
                  && (forall j :: i <= j < f.consumed - 1 ==> KeepsPumping(msgs[j]))
                  && !KeepsPumping(msgs[f.consumed - 1]))
            && (f.ExitRequested? ==> msgs[f.consumed - 1].message == MSG_EXIT)
            && (f.Failed? ==> msgs[f.consumed - 1].message != MSG_EXIT && msgs[f.consumed - 1].ret < 0)
    decreases |msgs| - i
  {
    if i < |msgs| && KeepsPumping(msgs[i]) {
      LoopFateFromCharacterization(msgs, i + 1);
    }
  }

  /**
   The loop ends at the first message that is MSG_EXIT or comes with a
   negative result; MSG_EXIT is tested first, so it means a normal exit even
   when GetMessageW reported an error. Every other message, WM_QUIT included,
   keeps the loop going.
   */
  lemma LoopFateCharacterization(msgs: seq<Msg>)
    ensures var f := LoopFate(msgs);
            && (f.Waiting? <==> forall j :: 0 <= j < |msgs| ==> KeepsPumping(msgs[j]))
            && (!f.Waiting? ==>
                  && 0 < f.consumed <= |msgs|
                  && (forall j :: 0 <= j < f.consumed - 1 ==> KeepsPumping(msgs[j]))
                  && !KeepsPumping(msgs[f.consumed - 1]))
            && (f.ExitRequested? ==> msgs[f.consumed - 1].message == MSG_EXIT)
            && (f.Failed? ==> msgs[f.consumed - 1].message != MSG_EXIT && msgs[f.consumed - 1].ret < 0)
  {
    LoopFateFromCharacterization(msgs, 0);
  }

  lemma {:induction false} LoopFateFromPrefix(msgs: seq<Msg>, more: seq<Msg>, i: nat)
    requires i <= |msgs|
    requires !LoopFateFrom(msgs, i).Waiting?
    ensures LoopFateFrom(msgs + more, i) == LoopFateFrom(msgs, i)
    decreases |msgs| - i
  {
    assert (msgs + more)[i] == msgs[i];
    if KeepsPumping(msgs[i]) {
      LoopFateFromPrefix(msgs, more, i + 1);
    }
  }

  /** Once the loop has ended, later messages are never read and change nothing. */
  lemma LoopEndsForGood(msgs: seq<Msg>, more: seq<Msg>)
    requires !LoopFate(msgs).Waiting?
    ensures LoopFate(msgs + more) == LoopFate(msgs)
  {
    LoopFateFromPrefix(msgs, more, 0);
  }

  /** GetMessageW returning 0 for WM_QUIT does not end the loop; an error does, MSG_EXIT wins over an error. */
  lemma LoopEdgeCases()
    ensures LoopFate([Msg(0, WM_QUIT)]) == Waiting
    ensures LoopFate([Msg(-1, MSG_EXIT)]) == ExitRequested(1)
    ensures LoopFate([Msg(1, WM_KEYDOWN), Msg(-1, WM_QUIT)]) == Failed(2)
  {
    assert LoopFateFrom([Msg(0, WM_QUIT)], 1) == Waiting;
    assert LoopFateFrom([Msg(1, WM_KEYDOWN), Msg(-1, WM_QUIT)], 1) == Failed(2);
  }

  /** The contents of the thread-local state cell: the hook handle (its channel sender is implicit). */
  datatype State = State(hook: HHook)

  /** The hook thread and what it leaves behind in the operating system. */
  class HookThread {
    /** The thread-local cell, empty until start-up wrote it. */
    var state: Option<State>
    /** The handles given to UnhookWindowsHookEx, in order. */
    var unhooked: seq<HHook>
    /** The thread's return value, once it has returned. */
    var returned: Option<Result<()>>

    constructor ()
      ensures state == None && unhooked == [] && returned == None
    {
      state := None;
      unhooked := [];
      returned := None;
    }

    /**
     Start-up with the handle SetWindowsHookExW returned: send the report,
     then fill the state cell. The cell is filled even for a null handle,
     and the thread goes on into its message loop.
     */
    method Start(hook: HHook, threadId: Dword) returns (report: Result<Dword>)
      requires state == None
      modifies this`state
      ensures report == StartupReport(hook, threadId)
      ensures state == Some(State(hook))
    {
      report := StartupReport(hook, threadId);
      state := Some(State(hook));
    }

    /**
     The message loop over the GetMessageW results `msgs`, followed by the
     unhooking on a normal exit. On a failure the thread returns
     `MessageLoop` and leaves the hook installed.
     */
    method Pump(msgs: seq<Msg>) returns (exit: LoopExit)
      requires state.Some? && returned == None
      modifies this`unhooked, this`returned
      ensures exit == LoopFate(msgs)
      ensures exit.ExitRequested? ==> unhooked == old(unhooked) + [state.value.hook] && returned == Some(Ok(()))
      ensures exit.Failed? ==> unhooked == old(unhooked) && returned == Some(Err(MessageLoop))
      ensures exit.Waiting? ==> unhooked == old(unhooked) && returned == None
    {
      var i := 0;
      while i < |msgs|
        invariant 0 <= i <= |msgs|
        invariant LoopFateFrom(msgs, i) == LoopFate(msgs)
        invariant unchanged(this)
      {
        if msgs[i].message == MSG_EXIT {
          break;
        } else if msgs[i].ret < 0 {
          exit := Failed(i + 1);
          returned := Some(Err(MessageLoop));
          return;
        }
        i := i + 1;
      }
      if i == |msgs| {
        exit := Waiting;
        return;
      }
      exit := ExitRequested(i + 1);
      unhooked := unhooked + [state.value.hook];
      returned := Some(Ok(()));
    }
  }
}
