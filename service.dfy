/**
 The service handle `Hook`: construction starts the hook thread and waits for
 its report; `Register` and `Unregister` edit the shared registry in place.
 Key presses, registrations and unregistrations interleaved on one timeline
 are described by `Simulate`.
 */
module Service {
  import opened Win32
  import opened Hotkey
  import opened Registry
  import opened Filter
  import opened Dispatch
  import opened Lifecycle

  /** The handle returned to callers: the hook thread's id and the registry it shares with the dispatcher. */
  class Hook {
    const threadId: Dword
    var hotkeys: Hotkeys

    constructor (threadId: Dword)
      ensures this.threadId == threadId && hotkeys == map[]
    {
      this.threadId := threadId;
      hotkeys := map[];
    }

    /** Insert `callback` into the vacant entry of `hotkey`; an occupied entry is an error and is kept. */
    method Register(hotkey: KeyCode, callback: CallbackId) returns (r: Result<()>)
      modifies this`hotkeys
      ensures old(hotkey in hotkeys) ==> r == Err(AlreadyRegistered) && hotkeys == old(hotkeys)
      ensures old(hotkey !in hotkeys) ==> r == Ok(()) && hotkeys == old(hotkeys)[hotkey := callback]
      ensures Outcome(r, hotkeys) == TryInsert(old(hotkeys), hotkey, callback)
    {
      if hotkey !in hotkeys {
        hotkeys := hotkeys[hotkey := callback];
        r := Ok(());
      } else {
        r := Err(AlreadyRegistered);
      }
    }

    /** Remove the entry of `hotkey`; a missing entry is an error. */
    method Unregister(hotkey: KeyCode) returns (r: Result<()>)
      modifies this`hotkeys
      ensures old(hotkey in hotkeys) ==> r == Ok(()) && hotkeys == old(hotkeys) - {hotkey}
      ensures old(hotkey !in hotkeys) ==> r == Err(NotRegistered) && hotkeys == old(hotkeys)
      ensures Outcome(r, hotkeys) == TryRemove(old(hotkeys), hotkey)
    {
      if hotkey in hotkeys {
        hotkeys := hotkeys - {hotkey};
        r := Ok(());
      } else {
        r := Err(NotRegistered);
      }
    }

    /** Play one step: a key press goes through the filter and the dispatcher, a registry call edits the table. */
    method PlayStep(step: Step) returns (results: seq<Result<()>>, invoked: seq<CallbackId>)
      modifies this`hotkeys
      ensures Run(hotkeys, results, invoked) == StepRun(old(hotkeys), step)
    {
      match step
      case PressEvent(ev) =>
        var keys := match Translate(ev) case Some(k) => [k] case None => [];
        assert keys == Forwarded([ev]) by {
          assert [ev][1..] == [];
        }
        invoked := Drain(hotkeys, keys);
        results := [];
      case RegisterKey(k, cb) =>
        var r := Register(k, cb);
        results, invoked := [r], [];
      case UnregisterKey(k) =>
        var r := Unregister(k);
        results, invoked := [r], [];
    }

    /** Play a timeline against this handle; each key press is dispatched before the next step. */
    method Play(steps: seq<Step>) returns (results: seq<Result<()>>, trace: seq<CallbackId>)
      modifies this`hotkeys
      ensures Run(hotkeys, results, trace) == Simulate(old(hotkeys), steps)
    {
      results, trace := [], [];
      var pending := steps;
      while pending != []
        invariant Then(Run(hotkeys, results, trace), Simulate(hotkeys, pending)) == Simulate(old(hotkeys), steps)
        decreases |pending|
      {
        ghost var done := Run(hotkeys, results, trace);
        ghost var rest := Simulate(StepRun(hotkeys, pending[0]).hotkeys, pending[1..]);
        var stepResults, invoked := PlayStep(pending[0]);
        ThenAssociative(done, Run(hotkeys, stepResults, invoked), rest);
        results, trace := results + stepResults, trace + invoked;
        pending := pending[1..];
      }
    }
  }

  /**
   Hook::new with the handle SetWindowsHookExW returns on the new hook thread
   and that thread's id. The thread is returned too: it keeps running after
   start-up, whatever its report said.
   */
  method New(hook: HHook, threadId: Dword) returns (r: Result<Hook>, thread: HookThread)
    ensures fresh(thread) && thread.state == Some(State(hook))
    ensures thread.unhooked == [] && thread.returned == None
    ensures r.Ok? <==> hook != NULL_HOOK
    ensures r.Err? ==> r.error == WindowsHook
    ensures r.Ok? ==> fresh(r.value) && r.value.threadId == threadId && r.value.hotkeys == map[]
  {
    thread := new HookThread();
    var report := thread.Start(hook, threadId);
    match ReceiveReport(Some(report))
    case Ok(tid) =>
      var h := new Hook(tid);
      r := Ok(h);
    case Err(e) =>
      r := Err(e);
  }

  const NUMPAD0: KeyCode := 0x60
  const NUMPAD1: KeyCode := 0x61

  /** A key press as the hook sees it. */
  function KeyDown(k: KeyCode): KbdEvent {
    KbdEvent(0, WM_KEYDOWN, k)
  }

  /** One event on the service's timeline. */
  datatype Step =
    | PressEvent(event: KbdEvent)
    | RegisterKey(key: KeyCode, callback: CallbackId)
    | UnregisterKey(key: KeyCode)

  /** The registry after a timeline, the results of its registry calls, and the callbacks it invoked. */
  datatype Run = Run(hotkeys: Hotkeys, results: seq<Result<()>>, trace: seq<CallbackId>)

  /** A run followed by another that starts from its registry. */
  function Then(first: Run, second: Run): Run {
    Run(second.hotkeys, first.results + second.results, first.trace + second.trace)
  }

  /** One step played from the registry `m`. */
  function StepRun(m: Hotkeys, step: Step): Run
  {
    match step
    case PressEvent(ev) => Run(m, [], Trace(m, Forwarded([ev])))
    case RegisterKey(k, cb) => var o := TryInsert(m, k, cb); Run(o.hotkeys, [o.result], [])
    case UnregisterKey(k) => var o := TryRemove(m, k); Run(o.hotkeys, [o.result], [])
  }

  lemma ThenAssociative(a: Run, b: Run, c: Run)
    ensures Then(Then(a, b), c) == Then(a, Then(b, c))
  {
  }

  /** The timeline `steps` played from the registry `m`. */
  function Simulate(m: Hotkeys, steps: seq<Step>): Run
    decreases |steps|
  {
    if steps == [] then Run(m, [], [])
    else
      var first := StepRun(m, steps[0]);
      Then(first, Simulate(first.hotkeys, steps[1..]))
  }

  /** The timeline that only presses keys, one step per raw event. */
  function Presses(evs: seq<KbdEvent>): seq<Step>
  {
    seq(|evs|, i requires 0 <= i < |evs| => PressEvent(evs[i]))
  }

  /**
   With no registry call in between, the hook and the dispatcher together
   invoke the callbacks of the forwarded keys, in order, and the registry
   does not change.
   */
  lemma {:induction false} PressesDispatchForwarded(m: Hotkeys, evs: seq<KbdEvent>)
    ensures Simulate(m, Presses(evs)) == Run(m, [], Trace(m, Forwarded(evs)))
  {
    if evs != [] {
      assert Presses(evs)[1..] == Presses(evs[1..]);
      PressesDispatchForwarded(m, evs[1..]);
      assert evs == [evs[0]] + evs[1..];
      ForwardedAppend([evs[0]], evs[1..]);
      TraceAppend(m, Forwarded([evs[0]]), Forwarded(evs[1..]));
    }
  }

  /** Key releases invoke nothing, however many of them the hook sees. */
  lemma KeyUpsInvokeNothing(m: Hotkeys, evs: seq<KbdEvent>)
    requires forall i :: 0 <= i < |evs| ==> AsUint(evs[i].wparam) != WM_KEYDOWN
    ensures Simulate(m, Presses(evs)).trace == []
  {
    PressesDispatchForwarded(m, evs);
    NothingForwarded(evs);
  }

  /** Playing a timeline is playing its first step, then the rest from the registry that step leaves. */
  lemma SimulateCons(m: Hotkeys, step: Step, rest: seq<Step>)
    ensures Simulate(m, [step] + rest) == Then(StepRun(m, step), Simulate(StepRun(m, step).hotkeys, rest))
  {
  }

  /** Pressing one key invokes its callback if it has one, and nothing otherwise. */
  lemma PressOne(m: Hotkeys, k: KeyCode)
    ensures StepRun(m, PressEvent(KeyDown(k))) == Run(m, [], if k in m then [m[k]] else [])
  {
    assert Forwarded([KeyDown(k)]) == [k] by { assert [KeyDown(k)][1..] == []; }
    assert Trace(m, [k]) == (if k in m then [m[k]] else []) + Trace(m, []) by {
      assert [k][1..] == [];
    }
  }

  /**
   The Numpad scenario: callback `a` fires for Numpad0 while it is
   registered and not after it is unregistered; `b` then fires for Numpad1.
   Every registry call succeeds.
   */
  lemma NumpadScenario(a: CallbackId, b: CallbackId)
    ensures Simulate(map[], [
              RegisterKey(NUMPAD0, a), PressEvent(KeyDown(NUMPAD0)),
              UnregisterKey(NUMPAD0), PressEvent(KeyDown(NUMPAD0)),
              RegisterKey(NUMPAD1, b), PressEvent(KeyDown(NUMPAD1))])
            == Run(map[NUMPAD1 := b], [Ok(()), Ok(()), Ok(())], [a, b])
  {
    var m0: Hotkeys := map[NUMPAD0 := a];
    var m1: Hotkeys := map[];
    var m2: Hotkeys := map[NUMPAD1 := b];
    var s0, s1, s2 := RegisterKey(NUMPAD0, a), PressEvent(KeyDown(NUMPAD0)), UnregisterKey(NUMPAD0);
    var s3, s4, s5 := PressEvent(KeyDown(NUMPAD0)), RegisterKey(NUMPAD1, b), PressEvent(KeyDown(NUMPAD1));
    assert StepRun(m1, s0) == Run(m0, [Ok(())], []) by {
      assert m1[NUMPAD0 := a] == m0;
    }
    assert StepRun(m0, s1) == Run(m0, [], [a]) by {
      PressOne(m0, NUMPAD0);
    }
    assert StepRun(m0, s2) == Run(m1, [Ok(())], []) by {
      assert m0 - {NUMPAD0} == m1;
    }
    assert StepRun(m1, s3) == Run(m1, [], []) by {
      PressOne(m1, NUMPAD0);
    }
    assert StepRun(m1, s4) == Run(m2, [Ok(())], []) by {
      assert m1[NUMPAD1 := b] == m2;
    }
    assert StepRun(m2, s5) == Run(m2, [], [b]) by {
      PressOne(m2, NUMPAD1);
    }
    SimulateCons(m2, s5, []);
    SimulateCons(m1, s4, [s5]);
    SimulateCons(m1, s3, [s4, s5]);
    SimulateCons(m0, s2, [s3, s4, s5]);
    SimulateCons(m0, s1, [s2, s3, s4, s5]);
    SimulateCons(m1, s0, [s1, s2, s3, s4, s5]);
  }

  /** The crate's `test` function: with the hook installed, register Numpad0, unregister it, register Numpad1; all succeed. */
  method SourceTest(installed: HHook, threadId: Dword, a: CallbackId, b: CallbackId) returns (results: seq<Result<()>>)
    requires installed != NULL_HOOK
    ensures results == [Ok(()), Ok(()), Ok(())]
  {
    var created, thread := New(installed, threadId);
    var hook := created.value;
    var r1 := hook.Register(NUMPAD0, a);
    var r2 := hook.Unregister(NUMPAD0);
    var r3 := hook.Register(NUMPAD1, b);
    results := [r1, r2, r3];
  }
}
