/** A cache whose entries expire, and are removed only when a read finds them expired. */
module ExpiringCache {
  import opened Wrappers

  datatype Item<V> = Item(item: V, expires: int)

  type Items<K, V> = map<K, Item<V>>

  /** One call, with the clock reading it makes. Delete reads no clock. */
  datatype Op<K, V> =
    | Get(key: K, now: int)
    | Put(key: K, item: V, validity: int, now: int)
    | Delete(key: K)

  /** What Get returns; an item is still good at the very instant it expires. */
  function Lookup<K, V>(items: Items<K, V>, key: K, now: int): Option<V> {
    if key in items && now <= items[key].expires then Some(items[key].item) else None
  }

  function Apply<K, V>(items: Items<K, V>, op: Op<K, V>): Items<K, V> {
    match op
    case Get(key, now) => if key in items && items[key].expires < now then items - {key} else items
    case Put(key, item, validity, now) => items[key := Item(item, now + validity)]
    case Delete(key) => items - {key}
  }

  function After<K, V>(ops: seq<Op<K, V>>): Items<K, V> {
    if ops == [] then map[] else Apply(After(ops[..|ops| - 1]), ops[|ops| - 1])
  }

  class Cache<K(==), V(0)> {
    var items: map<K, Item<V>>

    constructor ()
      ensures items == map[]
    {
      items := map[];
    }

    /** `now` is what the clock says when the entry is checked. */
    method Get(key: K, now: int) returns (value: V, found: bool)
      modifies this
      ensures items == Apply(old(items), Op.Get(key, now))
      ensures found <==> Lookup(old(items), key, now).Some?
      ensures found ==> Lookup(old(items), key, now) == Some(value)
    {
      var empty: V := *;
      if key !in items {
        return empty, false;
      }
      var item := items[key];
      if item.expires < now {
        Expire(key);
        return empty, false;
      }
      return item.item, true;
    }

    method Put(key: K, item: V, validity: int, now: int)
      modifies this
      ensures items == Apply(old(items), Op.Put(key, item, validity, now))
    {
      items := items[key := Item(item, now + validity)];
    }

    method Delete(key: K)
      modifies this
      ensures items == Apply(old(items), Op.Delete(key))
    {
      items := items - {key};
    }

    method Len() returns (n: nat)
      ensures n == |items|
    {
      n := |items|;
    }

    method Expire(key: K)
      modifies this
      ensures items == old(items) - {key}
    {
      items := items - {key};
    }
  }

  // ----- Histories of calls, one after the other

  predicate Writes<K(==), V>(op: Op<K, V>, key: K) {
    !op.Get? && op.key == key
  }

  /** Call i is a Put on the key, and nothing wrote to the key since. */
  ghost predicate LastPut<K, V>(ops: seq<Op<K, V>>, key: K, i: nat) {
    && i < |ops| && ops[i].Put? && ops[i].key == key
    && forall j | i < j < |ops| :: !Writes(ops[j], key)
  }

  /** Some read of the key after call i found its item expired. */
  ghost predicate SeenExpired<K, V>(ops: seq<Op<K, V>>, key: K, i: nat)
    requires i < |ops| && ops[i].Put?
  {
    exists j :: i < j < |ops| && ops[j].Get? && ops[j].key == key && ops[i].now + ops[i].validity < ops[j].now
  }

  /** An entry is exactly the last Put on its key, unless a read has seen that one expired. */
  lemma {:induction false} EntryIsLastPut<K, V>(ops: seq<Op<K, V>>, key: K)
    ensures key in After(ops) <==> exists i: nat :: LastPut(ops, key, i) && !SeenExpired(ops, key, i)
    ensures forall i: nat | LastPut(ops, key, i) && key in After(ops) ::
      After(ops)[key] == Item(ops[i].item, ops[i].now + ops[i].validity)
    decreases |ops|
  {
    if ops != [] {
      var pre := ops[..|ops| - 1];
      var op := ops[|ops| - 1];
      EntryIsLastPut(pre, key);
      if Writes(op, key) {
        LastIsOnlyPut(ops, key);
      } else {
        forall i: nat ensures LastPut(ops, key, i) <==> LastPut(pre, key, i) {
          ReadKeepsLastPut(ops, key, i);
        }
        forall i: nat | LastPut(pre, key, i)
          ensures SeenExpired(ops, key, i) <==>
            SeenExpired(pre, key, i) || (op.Get? && op.key == key && ops[i].now + ops[i].validity < op.now)
        {
          ReadMayExpire(ops, key, i);
        }
      }
    }
  }

  lemma LastIsOnlyPut<K, V>(ops: seq<Op<K, V>>, key: K)
    requires ops != [] && Writes(ops[|ops| - 1], key)
    ensures forall i: nat :: LastPut(ops, key, i) <==> i == |ops| - 1 && ops[i].Put?
    ensures ops[|ops| - 1].Put? ==> LastPut(ops, key, |ops| - 1) && !SeenExpired(ops, key, |ops| - 1)
  {
  }

  lemma ReadKeepsLastPut<K, V>(ops: seq<Op<K, V>>, key: K, i: nat)
    requires ops != [] && !Writes(ops[|ops| - 1], key)
    ensures LastPut(ops, key, i) <==> LastPut(ops[..|ops| - 1], key, i)
  {
    var pre := ops[..|ops| - 1];
    if LastPut(pre, key, i) {
      forall j | i < j < |ops| ensures !Writes(ops[j], key) {
        assert j < |pre| ==> ops[j] == pre[j];
      }
    }
  }

  lemma ReadMayExpire<K, V>(ops: seq<Op<K, V>>, key: K, i: nat)
    requires ops != [] && LastPut(ops[..|ops| - 1], key, i)
    ensures var op := ops[|ops| - 1];
      SeenExpired(ops, key, i) <==>
        SeenExpired(ops[..|ops| - 1], key, i) || (op.Get? && op.key == key && ops[i].now + ops[i].validity < op.now)
  {
    var pre := ops[..|ops| - 1];
    if SeenExpired(pre, key, i) {
      var j :| i < j < |pre| && pre[j].Get? && pre[j].key == key && pre[i].now + pre[i].validity < pre[j].now;
      assert ops[j] == pre[j];
    }
    if SeenExpired(ops, key, i) {
      var j :| i < j < |ops| && ops[j].Get? && ops[j].key == key && ops[i].now + ops[i].validity < ops[j].now;
      assert j < |pre| ==> pre[j] == ops[j];
    }
  }

  /** For every history and any clock whatever: a read hits with v exactly when the last write to the key put v,
      v is good at this reading, and no read in between was shown a later time than v's deadline. */
  lemma {:induction false} HitExactly<K, V>(ops: seq<Op<K, V>>, key: K, now: int, v: V)
    ensures Lookup(After(ops), key, now) == Some(v) <==>
      exists i: nat ::
        LastPut(ops, key, i) && ops[i].item == v && now <= ops[i].now + ops[i].validity && !SeenExpired(ops, key, i)
  {
    EntryIsLastPut(ops, key);
  }

  /** No call so far was shown a later time than `now`. */
  ghost predicate Monotone<K, V>(ops: seq<Op<K, V>>, now: int) {
    forall j | 0 <= j < |ops| && !ops[j].Delete? :: ops[j].now <= now
  }

  /** While the clock does not go back, lazy removal cannot be observed: a read hits with v exactly when the last
      write to the key put v and v has not passed its deadline. */
  lemma {:induction false} HitUnderMonotoneClock<K, V>(ops: seq<Op<K, V>>, key: K, now: int, v: V)
    requires Monotone(ops, now)
    ensures Lookup(After(ops), key, now) == Some(v) <==>
      exists i: nat :: LastPut(ops, key, i) && ops[i].item == v && now <= ops[i].now + ops[i].validity
  {
    HitExactly(ops, key, now, v);
    forall i: nat | LastPut(ops, key, i) && now <= ops[i].now + ops[i].validity ensures !SeenExpired(ops, key, i) {
    }
  }

  ghost function TouchedKeys<K(!new), V>(ops: seq<Op<K, V>>): set<K> {
    set i | 0 <= i < |ops| :: ops[i].key
  }

  /** The keys whose last write was a Put that no read has seen expired. */
  ghost function LiveKeys<K(!new), V>(ops: seq<Op<K, V>>): set<K> {
    set key | key in TouchedKeys(ops) && exists i: nat :: LastPut(ops, key, i) && !SeenExpired(ops, key, i)
  }

  /** Over every history and any clock: the length counts each such key once. An expired entry counts until a read
      of its key has seen it expired. */
  lemma {:induction false} LenExactly<K(!new), V>(ops: seq<Op<K, V>>)
    ensures After(ops).Keys == LiveKeys(ops) && |After(ops)| == |LiveKeys(ops)|
  {
    forall key: K ensures key in After(ops) <==> key in LiveKeys(ops) {
      EntryIsLastPut(ops, key);
      if i: nat :| LastPut(ops, key, i) && !SeenExpired(ops, key, i) {
        assert ops[i].key in TouchedKeys(ops);
      }
    }
    assert After(ops).Keys == LiveKeys(ops);
  }

  // ----- Reads split into their steps, interleaved with everything else

  /** Get reads the entry under the read lock, then checks it against the clock, then, if it expired, removes
      whatever the key holds by then. Puts and deletes happen in one step under the write lock. */
  datatype Step<K, V> =
    | Write(op: Op<K, V>)
    | Read(reader: nat, key: K)
    | Check(reader: nat, now: int)
    | Remove(reader: nat)

  datatype Reader<K, V> =
    | Holding(key: K, entry: Option<Item<V>>)
    | Hit(key: K, found: Item<V>, now: int)
    | Missed
    | Expiring(key: K)

  datatype Shared<K, V> = Shared(items: Items<K, V>, readers: map<nat, Reader<K, V>>)

  predicate Enabled<K(==), V>(s: Shared<K, V>, step: Step<K, V>) {
    match step
    case Write(op) => !op.Get?
    case Read(g, _) => g !in s.readers
    case Check(g, _) => g in s.readers && s.readers[g].Holding?
    case Remove(g) => g in s.readers && s.readers[g].Expiring?
  }

  function Next<K(==), V>(s: Shared<K, V>, step: Step<K, V>): Shared<K, V>
    requires Enabled(s, step)
  {
    match step
    case Write(op) => s.(items := Apply(s.items, op))
    case Read(g, key) =>
      s.(readers := s.readers[g := Holding(key, if key in s.items then Some(s.items[key]) else None)])
    case Check(g, now) =>
      var r := s.readers[g];
      s.(readers := s.readers[g :=
        if r.entry.None? then Missed
        else if r.entry.value.expires < now then Expiring(r.key)
        else Hit(r.key, r.entry.value, now)])
    case Remove(g) => Shared(s.items - {s.readers[g].key}, s.readers[g := Missed])
  }

  ghost predicate Legal<K, V>(steps: seq<Step<K, V>>)
    decreases |steps|, 0
  {
    steps == [] ||
    (Legal(steps[..|steps| - 1]) && Enabled(Reach(steps[..|steps| - 1]), steps[|steps| - 1]))
  }

  ghost function Reach<K, V>(steps: seq<Step<K, V>>): Shared<K, V>
    requires Legal(steps)
    decreases |steps|, 1
  {
    if steps == [] then Shared(map[], map[]) else Next(Reach(steps[..|steps| - 1]), steps[|steps| - 1])
  }

  /** Step i put this entry, and up to step r nothing wrote to its key. */
  ghost predicate PutBefore<K, V>(steps: seq<Step<K, V>>, key: K, entry: Item<V>, i: nat, r: nat) {
    && i < r <= |steps|
    && steps[i].Write? && steps[i].op.Put? && steps[i].op.key == key
    && entry == Item(steps[i].op.item, steps[i].op.now + steps[i].op.validity)
    && forall j | i < j < r :: steps[j].Write? ==> !Writes(steps[j].op, key)
  }

  /** At its read step, reader g found an entry that was then the last one put on the key. */
  ghost predicate ReadFresh<K, V>(steps: seq<Step<K, V>>, g: nat, key: K, entry: Item<V>) {
    exists i: nat, r: nat :: r < |steps| && steps[r] == Read(g, key) && PutBefore(steps, key, entry, i, r)
  }

  ghost predicate ReaderSound<K, V>(steps: seq<Step<K, V>>, g: nat, r: Reader<K, V>) {
    && (r.Holding? && r.entry.Some? ==> ReadFresh(steps, g, r.key, r.entry.value))
    && (r.Hit? ==> ReadFresh(steps, g, r.key, r.found) && r.now <= r.found.expires)
  }

  lemma {:induction false} EntriesAreLastPuts<K, V>(steps: seq<Step<K, V>>, key: K)
    requires Legal(steps) && key in Reach(steps).items
    ensures exists i: nat :: PutBefore(steps, key, Reach(steps).items[key], i, |steps|)
    decreases |steps|
  {
    var pre := steps[..|steps| - 1];
    var step := steps[|steps| - 1];
    if step.Write? && Writes(step.op, key) {
      assert PutBefore(steps, key, Reach(steps).items[key], |steps| - 1, |steps|);
    } else {
      assert Reach(steps).items[key] == Reach(pre).items[key];
      EntriesAreLastPuts(pre, key);
      var i: nat :| PutBefore(pre, key, Reach(pre).items[key], i, |pre|);
      forall j | i < j < |steps| ensures steps[j].Write? ==> !Writes(steps[j].op, key) {
        assert j < |pre| ==> steps[j] == pre[j];
      }
      assert PutBefore(steps, key, Reach(steps).items[key], i, |steps|);
    }
  }

  lemma ReadFreshLater<K, V>(steps: seq<Step<K, V>>, g: nat, key: K, entry: Item<V>)
    requires steps != [] && ReadFresh(steps[..|steps| - 1], g, key, entry)
    ensures ReadFresh(steps, g, key, entry)
  {
    var pre := steps[..|steps| - 1];
    var i: nat, r: nat :| r < |pre| && pre[r] == Read(g, key) && PutBefore(pre, key, entry, i, r);
    assert steps[r] == pre[r] && PutBefore(steps, key, entry, i, r);
  }

  lemma {:induction false} ReadersAreSound<K, V>(steps: seq<Step<K, V>>, g: nat)
    requires Legal(steps) && g in Reach(steps).readers
    ensures ReaderSound(steps, g, Reach(steps).readers[g])
    decreases |steps|
  {
    var pre := steps[..|steps| - 1];
    var step := steps[|steps| - 1];
    var s := Reach(pre);
    if step.Read? && step.reader == g {
      if step.key in s.items {
        EntriesAreLastPuts(pre, step.key);
        var i: nat :| PutBefore(pre, step.key, s.items[step.key], i, |pre|);
        assert PutBefore(steps, step.key, s.items[step.key], i, |pre|);
        assert steps[|pre|] == Read(g, step.key);
      }
    } else {
      ReadersAreSound(pre, g);
      var r := s.readers[g];
      if r.Holding? && r.entry.Some? {
        ReadFreshLater(steps, g, r.key, r.entry.value);
      } else if r.Hit? {
        ReadFreshLater(steps, g, r.key, r.found);
      }
    }
  }

  /** In every interleaving: a reader that hits returns a value that was the last one put on the key when it
      read the map, and that had not expired at its own clock reading. */
  lemma {:induction false} ConcurrentHit<K, V>(steps: seq<Step<K, V>>, g: nat)
    requires Legal(steps) && g in Reach(steps).readers && Reach(steps).readers[g].Hit?
    ensures var hit := Reach(steps).readers[g];
      exists i: nat, r: nat ::
        && r < |steps| && steps[r] == Read(g, hit.key)
        && PutBefore(steps, hit.key, hit.found, i, r)
        && hit.now <= steps[i].op.now + steps[i].op.validity
  {
    ReadersAreSound(steps, g);
    var hit := Reach(steps).readers[g];
    var i: nat, r: nat :| r < |steps| && steps[r] == Read(g, hit.key) && PutBefore(steps, hit.key, hit.found, i, r);
    assert hit.now <= steps[i].op.now + steps[i].op.validity;
  }

  lemma Extend<K, V>(steps: seq<Step<K, V>>, step: Step<K, V>)
    requires Legal(steps) && Enabled(Reach(steps), step)
    ensures Legal(steps + [step]) && Reach(steps + [step]) == Next(Reach(steps), step)
  {
    assert (steps + [step])[..|steps + [step]| - 1] == steps;
  }

  /** The removal takes whatever the key holds: from any state in which a reader has found its entry expired, a
      fresh Put on that key can be lost before anyone reads it. */
  lemma {:induction false} RemovalDropsFreshPut<K, V>(steps: seq<Step<K, V>>, g: nat, item: V, validity: int, now: int)
    requires Legal(steps) && g in Reach(steps).readers && Reach(steps).readers[g].Expiring?
    ensures var key := Reach(steps).readers[g].key;
      var more := steps + [Write(Put(key, item, validity, now))] + [Remove(g)];
      Legal(more) && key !in Reach(more).items
  {
    var key := Reach(steps).readers[g].key;
    Extend(steps, Write(Put(key, item, validity, now)));
    Extend(steps + [Write(Put(key, item, validity, now))], Remove(g));
  }

  // ----- Exactly when a fresh Put can be lost

  /** Reader g read an entry of the key and has not decided yet, or has decided to remove what the key holds. */
  predicate Endangers<K(==), V>(s: Shared<K, V>, g: nat, key: K) {
    g in s.readers &&
    match s.readers[g]
    case Holding(k, entry) => k == key && entry.Some?
    case Expiring(k) => k == key
    case _ => false
  }

  /** Neither a write nor the start of a read of the key. */
  predicate LeavesAlone<K(==), V>(step: Step<K, V>, key: K) {
    match step
    case Write(op) => op.key != key
    case Read(_, k) => k != key
    case _ => true
  }

  /** After more steps that neither write the key nor start a read of it, the key holds nothing. */
  ghost predicate LostBy<K, V>(steps: seq<Step<K, V>>, more: seq<Step<K, V>>, key: K) {
    Legal(steps + more) && (forall x | x in more :: LeavesAlone(x, key)) && key !in Reach(steps + more).items
  }

  lemma StepKeepsSafe<K, V>(s: Shared<K, V>, step: Step<K, V>, key: K)
    requires Enabled(s, step) && LeavesAlone(step, key) && key in s.items
    requires forall g :: !Endangers(s, g, key)
    ensures key in Next(s, step).items && Next(s, step).items[key] == s.items[key]
    ensures forall g :: !Endangers(Next(s, step), g, key)
  {
    assert step.Remove? ==> !Endangers(s, step.reader, key);
    forall g ensures !Endangers(Next(s, step), g, key) {
      assert !Endangers(s, g, key);
    }
  }

  /** With no such reader, an entry outlasts everything but a write or a read of its key. */
  lemma {:induction false} UndisturbedEntryStays<K, V>(steps: seq<Step<K, V>>, more: seq<Step<K, V>>, key: K)
    requires Legal(steps) && Legal(steps + more) && key in Reach(steps).items
    requires forall x | x in more :: LeavesAlone(x, key)
    requires forall g :: !Endangers(Reach(steps), g, key)
    ensures key in Reach(steps + more).items && Reach(steps + more).items[key] == Reach(steps).items[key]
    ensures forall g :: !Endangers(Reach(steps + more), g, key)
    decreases |more|
  {
    if more == [] {
      assert steps + more == steps;
    } else {
      var shorter := more[..|more| - 1];
      assert (steps + more)[..|steps + more| - 1] == steps + shorter;
      assert more[|more| - 1] in more;
      UndisturbedEntryStays(steps, shorter, key);
      StepKeepsSafe(Reach(steps + shorter), more[|more| - 1], key);
    }
  }

  /** A reader in between can always end by removing whatever the key holds. */
  lemma EndangeredIsLost<K, V>(steps: seq<Step<K, V>>, g: nat, key: K) returns (more: seq<Step<K, V>>)
    requires Legal(steps) && Endangers(Reach(steps), g, key)
    ensures LostBy(steps, more, key)
  {
    var s := Reach(steps);
    if s.readers[g].Expiring? {
      Extend(steps, Remove(g));
      more := [Remove(g)];
    } else {
      var late := Check(g, s.readers[g].entry.value.expires + 1);
      Extend(steps, late);
      Extend(steps + [late], Remove(g));
      more := [late, Remove(g)];
      assert steps + [late] + [Remove(g)] == steps + more;
    }
  }

  /** A fresh Put can be lost, without a write or a new read of its key, exactly if at the Put some reader stood
      between its read of an entry of that key and its removal. Otherwise the entry stays just as it was put. */
  lemma {:induction false} PutLostExactly<K, V>(steps: seq<Step<K, V>>, key: K, item: V, validity: int, now: int)
    requires Legal(steps)
    ensures var put := steps + [Write(Put(key, item, validity, now))];
      && Legal(put)
      && ((exists more :: LostBy(put, more, key)) <==> exists g :: Endangers(Reach(steps), g, key))
      && ((forall g :: !Endangers(Reach(steps), g, key)) ==>
            forall more | Legal(put + more) && (forall x | x in more :: LeavesAlone(x, key)) ::
              key in Reach(put + more).items && Reach(put + more).items[key] == Item(item, now + validity))
  {
    var write := Write(Put(key, item, validity, now));
    var put := steps + [write];
    Extend(steps, write);
    assert forall g :: Endangers(Reach(put), g, key) <==> Endangers(Reach(steps), g, key);
    if g :| Endangers(Reach(steps), g, key) {
      var more := EndangeredIsLost(put, g, key);
      assert LostBy(put, more, key);
    } else {
      forall more | Legal(put + more) && (forall x | x in more :: LeavesAlone(x, key))
        ensures key in Reach(put + more).items && Reach(put + more).items[key] == Item(item, now + validity)
      {
        UndisturbedEntryStays(put, more, key);
      }
    }
  }
}
