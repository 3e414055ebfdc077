/**
 The low-level keyboard hook procedure (`callback_proc`): it decides which
 raw keyboard events become keys on the event channel, and hands every event
 on to the next hook in the chain.
 */
module Filter {
  import opened Win32
  import opened Hotkey

  /** The event filter: a non-negative hook code, a virtual-key code in 1..0xFE, a key-down message. */
  predicate IsForwarded(ev: KbdEvent) {
    ev.code >= 0 && 1 <= ev.vkCode <= 0xFE && AsUint(ev.wparam) == WM_KEYDOWN
  }

  /** The key sent on the event channel for one event, if any (`vkCode as u8`, then the key whose code it is). */
  function Translate(ev: KbdEvent): (key: Option<KeyCode>)
    ensures key.Some? <==> IsForwarded(ev)
    ensures key.Some? ==> key.value == ev.vkCode
  {
    if ev.code >= 0 then
      if 1 <= ev.vkCode <= 0xFE then
        var key: KeyCode := ev.vkCode % 0x100;
        if AsUint(ev.wparam) == WM_KEYDOWN then Some(key) else None
      else None
    else None
  }

  /** The arguments CallNextHookEx receives. */
  datatype NextHookCall = NextHookCall(hook: HHook, event: KbdEvent)

  /** One run of the hook procedure: what it sent on the channel and how it passed the event on. */
  datatype ProcStep = ProcStep(sent: Option<KeyCode>, next: NextHookCall)

  /**
   The hook procedure with the hook handle held in the thread's state. Every
   event, forwarded or not, reaches the next hook exactly as it came in.
   */
  function CallbackProc(hook: HHook, ev: KbdEvent): (r: ProcStep)
    ensures r.next.hook == hook && r.next.event == ev
    ensures r.sent.Some? <==> IsForwarded(ev)
    ensures r.sent.Some? ==> r.sent.value == ev.vkCode
  {
    ProcStep(Translate(ev), NextHookCall(hook, ev))
  }

  /** The keys the hook thread puts on the event channel while the hook sees `evs`, in order. */
  function Forwarded(evs: seq<KbdEvent>): seq<KeyCode>
  {
    if evs == [] then []
    else (match Translate(evs[0]) case Some(k) => [k] case None => []) + Forwarded(evs[1..])
  }

  /** Forwarding a stream in two parts sends the keys of each part one after the other. */
  lemma {:induction false} ForwardedAppend(a: seq<KbdEvent>, b: seq<KbdEvent>)
    ensures Forwarded(a + b) == Forwarded(a) + Forwarded(b)
  {
    if a == [] {
      assert a + b == b;
    } else {
      assert (a + b)[1..] == a[1..] + b;
      ForwardedAppend(a[1..], b);
    }
  }

  /** At most one key per event reaches the channel. */
  lemma {:induction false} ForwardedLength(evs: seq<KbdEvent>)
    ensures |Forwarded(evs)| <= |evs|
  {
    if evs != [] {
      ForwardedLength(evs[1..]);
    }
  }

  /** A key is on the channel exactly when some event with that virtual-key code passed the filter. */
  lemma {:induction false} ForwardedKeys(evs: seq<KbdEvent>, k: KeyCode)
    ensures k in Forwarded(evs) <==> exists i :: 0 <= i < |evs| && IsForwarded(evs[i]) && evs[i].vkCode == k
  {
    if evs != [] {
      ForwardedKeys(evs[1..], k);
      if k in Forwarded(evs[1..]) {
        var i :| 0 <= i < |evs[1..]| && IsForwarded(evs[1..][i]) && evs[1..][i].vkCode == k;
        assert evs[i + 1] == evs[1..][i];
      }
      if exists i :: 0 <= i < |evs| && IsForwarded(evs[i]) && evs[i].vkCode == k {
        var i :| 0 <= i < |evs| && IsForwarded(evs[i]) && evs[i].vkCode == k;
        if i > 0 {
          assert evs[1..][i - 1] == evs[i];
        }
      }
    }
  }

  /** Nothing at all is sent exactly when no event passes the filter (key-ups, negative codes, codes out of range). */
  lemma {:induction false} NothingForwarded(evs: seq<KbdEvent>)
    ensures Forwarded(evs) == [] <==> forall i :: 0 <= i < |evs| ==> !IsForwarded(evs[i])
  {
    if evs != [] {
      NothingForwarded(evs[1..]);
      if forall i :: 0 <= i < |evs| ==> !IsForwarded(evs[i]) {
        assert forall i :: 0 <= i < |evs[1..]| ==> evs[1..][i] == evs[i + 1];
      }
      if forall i :: 0 <= i < |evs[1..]| ==> !IsForwarded(evs[1..][i]) {
        assert forall i :: 1 <= i < |evs| ==> evs[i] == evs[1..][i - 1];
      }
    }
  }

  /**
   The message id is truncated to 32 bits before it is compared, so a
   pointer-sized `wparam` whose low half is WM_KEYDOWN counts as a key press.
   */
  lemma WParamIsTruncated()
    ensures IsForwarded(KbdEvent(0, 0x1_0000_0000 + WM_KEYDOWN, 0x41))
    ensures !IsForwarded(KbdEvent(0, WM_KEYUP, 0x41))
    ensures !IsForwarded(KbdEvent(-1, WM_KEYDOWN, 0x41))
    ensures !IsForwarded(KbdEvent(0, WM_KEYDOWN, 0xFF))
    ensures !IsForwarded(KbdEvent(0, WM_KEYDOWN, 0))
  {
  }
}
