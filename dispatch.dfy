/**
 The dispatch thread: it drains the event channel in order and, for each key,
 calls the callback registered for it at that moment, if there is one.
 Callbacks are recorded by identity, so a run is described by its trace.
 */
module Dispatch {
  import opened Hotkey
  import opened Registry

  /** The callbacks invoked, in order, when the keys `keys` are received against the table `m`. */
  function Trace(m: Hotkeys, keys: seq<KeyCode>): seq<CallbackId>
  {
    if keys == [] then []
    else (if keys[0] in m then [m[keys[0]]] else []) + Trace(m, keys[1..])
  }

  /** The consumer loop: receive keys first in, first out, and call the mapped callback of each. */
  method Drain(hotkeys: Hotkeys, events: seq<KeyCode>) returns (trace: seq<CallbackId>)
    ensures trace == Trace(hotkeys, events)
  {
    trace := [];
    var pending := events;
    while pending != []
      invariant trace + Trace(hotkeys, pending) == Trace(hotkeys, events)
      decreases |pending|
    {
      var key := pending[0];
      pending := pending[1..];
      if key in hotkeys {
        trace := trace + [hotkeys[key]];
      }
    }
  }

  /** Dispatching two batches one after the other invokes the callbacks of each batch in turn. */
  lemma {:induction false} TraceAppend(m: Hotkeys, a: seq<KeyCode>, b: seq<KeyCode>)
    ensures Trace(m, a + b) == Trace(m, a) + Trace(m, b)
  {
    if a == [] {
      assert a + b == b;
    } else {
      assert (a + b)[1..] == a[1..] + b;
      TraceAppend(m, a[1..], b);
    }
  }

  /** The positions, in increasing order, of the received keys that have an entry. */
  ghost function MappedPositions(m: Hotkeys, keys: seq<KeyCode>): seq<nat>
  {
    if keys == [] then []
    else
      var n := |keys| - 1;
      MappedPositions(m, keys[..n]) + (if keys[n] in m then [n] else [])
  }

  /**
   The trace is exactly one invocation per received key that has an entry, in
   the order the keys were received: the j-th callback invoked is the one of
   the j-th mapped key, the mapped positions increase, and none is missed.
   */
  lemma {:induction false} TraceIsMappedSubsequence(m: Hotkeys, keys: seq<KeyCode>)
    ensures var pos := MappedPositions(m, keys);
            var t := Trace(m, keys);
            && |t| == |pos|
            && (forall j :: 0 <= j < |pos| ==> pos[j] < |keys| && keys[pos[j]] in m && t[j] == m[keys[pos[j]]])
            && (forall j1, j2 :: 0 <= j1 < j2 < |pos| ==> pos[j1] < pos[j2])
            && (forall i :: 0 <= i < |keys| && keys[i] in m ==> i in pos)
  {
    if keys != [] {
      var n := |keys| - 1;
      var init := keys[..n];
      TraceIsMappedSubsequence(m, init);
      assert keys == init + [keys[n]];
      TraceAppend(m, init, [keys[n]]);
      assert Trace(m, [keys[n]]) == (if keys[n] in m then [m[keys[n]]] else []) by {
        assert [keys[n]][1..] == [];
      }
      var pos0 := MappedPositions(m, init);
      assert forall j :: 0 <= j < |pos0| ==> pos0[j] < n;
    }
  }

  /** A key without an entry invokes nothing, wherever it appears among the received keys. */
  lemma UnmappedKeyInvokesNothing(m: Hotkeys, before: seq<KeyCode>, key: KeyCode, after: seq<KeyCode>)
    requires key !in m
    ensures Trace(m, before + [key] + after) == Trace(m, before + after)
  {
    TraceAppend(m, before + [key], after);
    TraceAppend(m, before, [key]);
    TraceAppend(m, before, after);
    assert Trace(m, [key]) == [] by {
      assert [key][1..] == [];
    }
  }

  /** No callback runs exactly when none of the received keys has an entry. */
  lemma {:induction false} EmptyTraceIffNoneMapped(m: Hotkeys, keys: seq<KeyCode>)
    ensures Trace(m, keys) == [] <==> forall i :: 0 <= i < |keys| ==> keys[i] !in m
  {
    if keys != [] {
      EmptyTraceIffNoneMapped(m, keys[1..]);
      assert forall i :: 1 <= i < |keys| ==> keys[i] == keys[1..][i - 1];
    }
  }
}
