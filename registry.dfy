/**
 The hotkey registry: the table from key to callback behind the hook's mutex.
 `TryInsert` and `TryRemove` give the value-level meaning of a register and
 an unregister call; the class `Service.Hook` performs them in place.
 */
module Registry {
  import opened Hotkey

  /** The registry table. Being a map, it holds at most one callback per key. */
  type Hotkeys = map<KeyCode, CallbackId>

  /** The result a registry call returns together with the table it leaves behind. */
  datatype Outcome = Outcome(result: Result<()>, hotkeys: Hotkeys)

  /** Register `callback` for `key`: only a vacant entry is filled, an occupied one is left alone. */
  function TryInsert(m: Hotkeys, key: KeyCode, callback: CallbackId): (r: Outcome)
    ensures r.result.Ok? <==> key !in m
    ensures r.result.Err? ==> r.result.error == AlreadyRegistered && r.hotkeys == m
    ensures r.result.Ok? ==> r.hotkeys.Keys == m.Keys + {key} && r.hotkeys[key] == callback
    ensures forall k :: k in m ==> k in r.hotkeys && r.hotkeys[k] == m[k]
    ensures forall k :: k != key ==> (k in r.hotkeys <==> k in m)
  {
    if key !in m then Outcome(Ok(()), m[key := callback])
    else Outcome(Err(AlreadyRegistered), m)
  }

  /** Unregister `key`: an existing entry is removed, a missing one is an error. */
  function TryRemove(m: Hotkeys, key: KeyCode): (r: Outcome)
    ensures r.result.Ok? <==> key in m
    ensures r.result.Err? ==> r.result.error == NotRegistered && r.hotkeys == m
    ensures r.hotkeys.Keys == m.Keys - {key}
    ensures forall k :: k in r.hotkeys ==> r.hotkeys[k] == m[k]
  {
    if key in m then Outcome(Ok(()), m - {key})
    else Outcome(Err(NotRegistered), m)
  }

  /** A second registration of a key fails and the first callback stays in place. */
  lemma RegisterTwiceKeepsFirst(m: Hotkeys, key: KeyCode, first: CallbackId, second: CallbackId)
    requires key !in m
    ensures var once := TryInsert(m, key, first);
            var twice := TryInsert(once.hotkeys, key, second);
            twice.result == Err(AlreadyRegistered)
            && twice.hotkeys == once.hotkeys
            && twice.hotkeys[key] == first
  {
  }

  /** Unregistering a key that was just registered restores the table exactly. */
  lemma RegisterThenUnregister(m: Hotkeys, key: KeyCode, callback: CallbackId)
    requires key !in m
    ensures TryRemove(TryInsert(m, key, callback).hotkeys, key) == Outcome(Ok(()), m)
  {
  }

  /** Once an unregister succeeds, the key can be registered again, with any callback. */
  lemma UnregisterThenRegister(m: Hotkeys, key: KeyCode, callback: CallbackId)
    requires TryRemove(m, key).result.Ok?
    ensures var again := TryInsert(TryRemove(m, key).hotkeys, key, callback);
            again.result == Ok(()) && again.hotkeys == m[key := callback]
  {
  }

  /**
   Registry calls on two different keys do not affect each other: a register
   or unregister of `k1` leaves the entry of `k2` as it was, and so the result
   of any later register or unregister of `k2`.
   */
  lemma DistinctKeysIndependent(m: Hotkeys, k1: KeyCode, k2: KeyCode, c1: CallbackId, c2: CallbackId)
    requires k1 != k2
    ensures var h := TryInsert(m, k1, c1).hotkeys;
            (k2 in h <==> k2 in m) && (k2 in m ==> h[k2] == m[k2])
    ensures var h := TryRemove(m, k1).hotkeys;
            (k2 in h <==> k2 in m) && (k2 in m ==> h[k2] == m[k2])
    ensures TryInsert(TryInsert(m, k1, c1).hotkeys, k2, c2).result == TryInsert(m, k2, c2).result
    ensures TryInsert(TryRemove(m, k1).hotkeys, k2, c2).result == TryInsert(m, k2, c2).result
    ensures TryRemove(TryInsert(m, k1, c1).hotkeys, k2).result == TryRemove(m, k2).result
    ensures TryRemove(TryRemove(m, k1).hotkeys, k2).result == TryRemove(m, k2).result
  {
  }
}
