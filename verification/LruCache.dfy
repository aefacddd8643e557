/** The least-recently-used cache: a map and a list of its keys, refining a bounded list
    of entries from least to most recently used. */
module LruCache {
  import opened Results

  datatype Slot<K, V> = Slot(key: K, value: V)

  /** The reference: entries in order of use, the most recent last. */
  datatype Recency<K, V> = Recency(capacity: nat, slots: seq<Slot<K, V>>)

  function Without<K(==,!new), V(!new)>(slots: seq<Slot<K, V>>, key: K): (r: seq<Slot<K, V>>)
    ensures |r| <= |slots|
    ensures forall s :: s in r <==> s in slots && s.key != key
  {
    if |slots| == 0 then []
    else if slots[0].key == key then Without(slots[1..], key)
    else [slots[0]] + Without(slots[1..], key)
  }

  function Lookup<K(==,!new), V(!new)>(slots: seq<Slot<K, V>>, key: K): (v: Option<V>)
    ensures v.Some? ==> Slot(key, v.value) in slots
    ensures v.None? ==> forall s :: s in slots ==> s.key != key
  {
    if |slots| == 0 then None
    else if slots[0].key == key then Some(slots[0].value)
    else Lookup(slots[1..], key)
  }

  /** A hit moves to the back. */
  function Touched<K(==,!new), V(!new)>(c: Recency<K, V>, key: K): Recency<K, V> {
    match Lookup(c.slots, key)
    case Some(v) => c.(slots := Without(c.slots, key) + [Slot(key, v)])
    case None => c
  }

  /** A new entry goes to the back, in place of an old one with its key; if that leaves
      too many, the front one goes. */
  function Upserted<K(==,!new), V(!new)>(c: Recency<K, V>, key: K, value: V): Recency<K, V> {
    if c.capacity == 0 then c else
    var rest := Without(c.slots, key);
    var kept := if |rest| >= c.capacity then rest[1..] else rest;
    c.(slots := kept + [Slot(key, value)])
  }

  predicate Distinct<K(==,!new), V(!new)>(slots: seq<Slot<K, V>>) {
    forall i, j :: 0 <= i < j < |slots| ==> slots[i].key != slots[j].key
  }

  predicate Bounded<K(==,!new), V(!new)>(c: Recency<K, V>) {
    |c.slots| <= c.capacity && Distinct(c.slots)
  }

  lemma {:induction false} WithoutKeepsDistinct<K(!new), V(!new)>(slots: seq<Slot<K, V>>, key: K)
    requires Distinct(slots)
    ensures Distinct(Without(slots, key))
    ensures |Without(slots, key)| == if Lookup(slots, key).Some? then |slots| - 1 else |slots|
  {
    if |slots| > 0 {
      WithoutKeepsDistinct(slots[1..], key);
      if slots[0].key == key {
        assert Lookup(slots[1..], key).None?;
        WithoutAbsent(slots[1..], key);
      } else {
        var rest := Without(slots[1..], key);
        forall j | 0 <= j < |rest| ensures rest[j].key != slots[0].key {
          assert rest[j] in slots[1..];
        }
      }
    }
  }

  lemma {:induction false} WithoutAbsent<K(!new), V(!new)>(slots: seq<Slot<K, V>>, key: K)
    requires forall s :: s in slots ==> s.key != key
    ensures Without(slots, key) == slots
  {
    if |slots| > 0 {
      WithoutAbsent(slots[1..], key);
    }
  }

  /** Both operations keep the keys distinct and the size within the capacity. */
  lemma DistinctAppend<K(!new), V(!new)>(slots: seq<Slot<K, V>>, key: K, value: V)
    requires Distinct(slots) && forall s :: s in slots ==> s.key != key
    ensures Distinct(slots + [Slot(key, value)])
    ensures |slots| > 0 ==> Distinct(slots[1..] + [Slot(key, value)])
  {
  }

  lemma StaysBounded<K(!new), V(!new)>(c: Recency<K, V>, key: K, value: V)
    requires Bounded(c)
    ensures Bounded(Touched(c, key)) && Bounded(Upserted(c, key, value))
    ensures |Touched(c, key).slots| == |c.slots|
  {
    hide Distinct, Without, Lookup;
    WithoutKeepsDistinct(c.slots, key);
    DistinctAppend(Without(c.slots, key), key, value);
    if Lookup(c.slots, key).Some? {
      DistinctAppend(Without(c.slots, key), key, Lookup(c.slots, key).value);
    }
  }

  lemma {:induction false} LookupFinds<K(!new), V(!new)>(slots: seq<Slot<K, V>>, s: Slot<K, V>)
    requires Distinct(slots) && s in slots
    ensures Lookup(slots, s.key) == Some(s.value)
  {
    if slots[0] != s {
      assert s in slots[1..];
      LookupFinds(slots[1..], s);
    }
  }

  /** What an insertion changes: its own key is found afterwards, and every other key
      stays as it was, except one at most: the least recently used when all slots were
      taken by other keys. */
  lemma UpsertEvictsTheOldest<K(!new), V(!new)>(c: Recency<K, V>, key: K, value: V, other: K)
    requires Bounded(c) && c.capacity > 0 && other != key
    ensures Lookup(Upserted(c, key, value).slots, key) == Some(value)
    ensures var evicts := Lookup(c.slots, key).None? && |c.slots| == c.capacity;
      Lookup(Upserted(c, key, value).slots, other) ==
      if evicts && c.slots[0].key == other then None else Lookup(c.slots, other)
  {
    var after := Upserted(c, key, value).slots;
    StaysBounded(c, key, value);
    WithoutKeepsDistinct(c.slots, key);
    LookupFinds(after, Slot(key, value));
    if Lookup(c.slots, key).None? {
      WithoutAbsent(c.slots, key);
    }
    var was := Lookup(c.slots, other);
    if was.Some? {
      var s := Slot(other, was.value);
      if s in after {
        LookupFinds(after, s);
      }
      if Lookup(c.slots, key).None? && |c.slots| == c.capacity && c.slots[0].key == other {
        LookupFinds(c.slots, c.slots[0]);
        assert forall j :: 1 <= j < |c.slots| ==> c.slots[j].key != other;
      }
    }
    var now := Lookup(after, other);
    assert now.Some? ==> Slot(other, now.value) in c.slots;
  }

  /** A lookup changes nothing but the order, and protects what it finds: the next
      eviction takes it only if it is alone. */
  lemma TouchProtects<K(!new), V(!new)>(c: Recency<K, V>, key: K, other: K)
    requires Bounded(c)
    ensures Lookup(Touched(c, key).slots, other) == Lookup(c.slots, other)
    ensures Lookup(c.slots, key).Some? && |c.slots| > 1 ==> Touched(c, key).slots[0].key != key
  {
    if Lookup(c.slots, key).Some? {
      var after := Touched(c, key).slots;
      StaysBounded(c, key, Lookup(c.slots, key).value);
      WithoutKeepsDistinct(c.slots, key);
      var v := Lookup(c.slots, other);
      if v.Some? {
        LookupFinds(after, Slot(other, v.value));
      }
    }
  }

  // -------------------------------------------------------------- whole runs

  datatype Op<K, V> = Put(key: K, value: V) | Get(key: K) | Drop(key: K) | Clear

  function Apply<K(==,!new), V(!new)>(c: Recency<K, V>, op: Op<K, V>): Recency<K, V> {
    match op
    case Put(key, value) => Upserted(c, key, value)
    case Get(key) => Touched(c, key)
    case Drop(key) => c.(slots := Without(c.slots, key))
    case Clear => c.(slots := [])
  }

  function Played<K(==,!new), V(!new)>(capacity: nat, ops: seq<Op<K, V>>): Recency<K, V> {
    if |ops| == 0 then Recency(capacity, []) else Apply(Played(capacity, ops[..|ops| - 1]), ops[|ops| - 1])
  }

  /** When a key was last stored or asked for. */
  function LastUse<K(==,!new), V(!new)>(ops: seq<Op<K, V>>, key: K): (i: int)
    ensures i < |ops|
  {
    if |ops| == 0 then -1 else
    var (n, last) := (|ops| - 1, ops[|ops| - 1]);
    if (last.Put? || last.Get?) && last.key == key then n else LastUse(ops[..n], key)
  }

  /** The value last stored under a key. */
  function LastPut<K(==,!new), V(!new)>(ops: seq<Op<K, V>>, key: K): Option<V> {
    if |ops| == 0 then None else
    var last := ops[|ops| - 1];
    if last.Put? && last.key == key then Some(last.value) else LastPut(ops[..|ops| - 1], key)
  }

  /** From least to most recently used, each with the value last stored. */
  ghost predicate InOrder<K(!new), V(!new)>(slots: seq<Slot<K, V>>, ops: seq<Op<K, V>>) {
    (forall i, j :: 0 <= i < j < |slots| ==> LastUse(ops, slots[i].key) < LastUse(ops, slots[j].key)) &&
    (forall i :: 0 <= i < |slots| ==> LastPut(ops, slots[i].key) == Some(slots[i].value))
  }

  lemma {:induction false} WithoutComesFrom<K(!new), V(!new)>(slots: seq<Slot<K, V>>, key: K, j: nat) returns (i: nat)
    requires j < |Without(slots, key)|
    ensures i < |slots| && slots[i] == Without(slots, key)[j]
  {
    if slots[0].key == key {
      i := WithoutComesFrom(slots[1..], key, j);
      i := i + 1;
    } else if j == 0 {
      i := 0;
    } else {
      i := WithoutComesFrom(slots[1..], key, j - 1);
      i := i + 1;
    }
  }

  lemma ConsInOrder<K(!new), V(!new)>(s: Slot<K, V>, rest: seq<Slot<K, V>>, ops: seq<Op<K, V>>)
    requires InOrder(rest, ops) && LastPut(ops, s.key) == Some(s.value)
    requires forall j :: 0 <= j < |rest| ==> LastUse(ops, s.key) < LastUse(ops, rest[j].key)
    ensures InOrder([s] + rest, ops)
  {
    hide LastUse, LastPut;
  }

  lemma {:induction false} WithoutKeepsOrder<K(!new), V(!new)>(slots: seq<Slot<K, V>>, key: K, ops: seq<Op<K, V>>)
    requires InOrder(slots, ops)
    ensures InOrder(Without(slots, key), ops)
  {
    hide LastUse, LastPut;
    if |slots| > 0 {
      var rest := Without(slots[1..], key);
      WithoutKeepsOrder(slots[1..], key, ops);
      forall j | 0 <= j < |rest| ensures LastUse(ops, slots[0].key) < LastUse(ops, rest[j].key) {
        var k := WithoutComesFrom(slots[1..], key, j);
        assert slots[k + 1] == rest[j];
      }
      ConsInOrder(slots[0], rest, ops);
    }
  }

  /** Entries other than the one an operation is about keep their place in time. */
  lemma OthersKeepOrder<K(!new), V(!new)>(slots: seq<Slot<K, V>>, ops: seq<Op<K, V>>, op: Op<K, V>)
    requires InOrder(slots, ops) && forall s :: s in slots ==> op.Clear? || op.Drop? || s.key != op.key
    ensures InOrder(slots, ops + [op])
  {
    assert (ops + [op])[..|ops|] == ops;
    assert forall i :: 0 <= i < |slots| ==> slots[i] in slots;
  }

  lemma OneMoreInOrder<K(!new), V(!new)>(slots: seq<Slot<K, V>>, ops: seq<Op<K, V>>, s: Slot<K, V>)
    requires InOrder(slots, ops) && LastPut(ops, s.key) == Some(s.value)
    requires LastUse(ops, s.key) == |ops| - 1
    requires forall i :: 0 <= i < |slots| ==> LastUse(ops, slots[i].key) < |ops| - 1
    ensures InOrder(slots + [s], ops)
  {
  }

  lemma OlderThan<K(!new), V(!new)>(slots: seq<Slot<K, V>>, ops: seq<Op<K, V>>, op: Op<K, V>)
    requires forall s :: s in slots ==> op.Clear? || op.Drop? || s.key != op.key
    ensures forall i :: 0 <= i < |slots| ==> LastUse(ops + [op], slots[i].key) < |ops|
  {
    assert (ops + [op])[..|ops|] == ops;
    assert forall i :: 0 <= i < |slots| ==> slots[i] in slots;
  }

  lemma UseIsLast<K(!new), V(!new)>(ops: seq<Op<K, V>>, op: Op<K, V>)
    requires op.Put? || op.Get?
    ensures LastUse(ops + [op], op.key) == |ops|
    ensures LastPut(ops + [op], op.key) == if op.Put? then Some(op.value) else LastPut(ops, op.key)
  {
    assert (ops + [op])[..|ops|] == ops;
  }

  lemma ApplyKeepsOrder<K(!new), V(!new)>(c: Recency<K, V>, ops: seq<Op<K, V>>, op: Op<K, V>)
    requires Bounded(c) && InOrder(c.slots, ops)
    ensures InOrder(Apply(c, op).slots, ops + [op]) && Bounded(Apply(c, op)) && Apply(c, op).capacity == c.capacity
  {
    hide InOrder, LastUse, LastPut;
    match op
    case Put(key, value) =>
      StaysBounded(c, key, value);
      if c.capacity == 0 {
        OthersKeepOrder(c.slots, ops, op);
      } else {
        var rest := Without(c.slots, key);
        WithoutKeepsOrder(c.slots, key, ops);
        var kept := if |rest| >= c.capacity then rest[1..] else rest;
        TailInOrder(rest, ops);
        OthersKeepOrder(kept, ops, op);
        OlderThan(kept, ops, op);
        UseIsLast(ops, op);
        OneMoreInOrder(kept, ops + [op], Slot(key, value));
      }
    case Get(key) =>
      if Lookup(c.slots, key).Some? {
        StaysBounded(c, key, Lookup(c.slots, key).value);
        var rest := Without(c.slots, key);
        WithoutKeepsOrder(c.slots, key, ops);
        OthersKeepOrder(rest, ops, op);
        OlderThan(rest, ops, op);
        UseIsLast(ops, op);
        FoundIsPut(c.slots, ops, key);
        OneMoreInOrder(rest, ops + [op], Slot(key, Lookup(c.slots, key).value));
      } else {
        OthersKeepOrder(c.slots, ops, op);
      }
    case Drop(key) =>
      WithoutKeepsDistinct(c.slots, key);
      WithoutKeepsOrder(c.slots, key, ops);
      OthersKeepOrder(Without(c.slots, key), ops, op);
    case Clear => NothingInOrder<K, V>(ops + [op]);
  }

  lemma NothingInOrder<K(!new), V(!new)>(ops: seq<Op<K, V>>)
    ensures InOrder([], ops)
  {
  }

  lemma TailInOrder<K(!new), V(!new)>(slots: seq<Slot<K, V>>, ops: seq<Op<K, V>>)
    requires InOrder(slots, ops)
    ensures |slots| > 0 ==> InOrder(slots[1..], ops)
  {
  }

  lemma FoundIsPut<K(!new), V(!new)>(slots: seq<Slot<K, V>>, ops: seq<Op<K, V>>, key: K)
    requires InOrder(slots, ops) && Lookup(slots, key).Some?
    ensures LastPut(ops, key) == Lookup(slots, key)
  {
    var s := Slot(key, Lookup(slots, key).value);
    assert s in slots;
  }

  /** After any run the entries stand in the order of their last use, each with the value
      last stored, so what is evicted is what was used least recently. */
  lemma {:induction false} OrderedByLastUse<K(!new), V(!new)>(capacity: nat, ops: seq<Op<K, V>>)
    ensures var c := Played(capacity, ops);
      c.capacity == capacity && Bounded(c) && InOrder(c.slots, ops)
  {
    if |ops| == 0 {
      NothingInOrder(ops);
    } else {
      var n := |ops| - 1;
      OrderedByLastUse(capacity, ops[..n]);
      ApplyKeepsOrder(Played(capacity, ops[..n]), ops[..n], ops[n]);
      assert ops[..n] + [ops[n]] == ops;
    }
  }

  // ------------------------------------------------------------ the class

  class LRUCache<K(==,!new), V(!new)> {
    const capacity: nat
    var data: map<K, V>
    var lru: seq<K>

    ghost predicate Valid()
      reads this
    {
      Unique(lru) && (forall k :: k in data <==> k in lru) && |lru| <= capacity && |data| == |lru|
    }

    ghost function Contents(): Recency<K, V>
      reads this
      requires Valid()
    {
      Recency(capacity, Slots(lru, data))
    }

    constructor (capacity: nat)
      ensures Valid() && Contents() == Recency(capacity, [])
    {
      this.capacity, data, lru := capacity, map[], [];
    }

    /** Drop an item. */
    method Erase(key: K) returns (found: bool)
      requires Valid()
      modifies this
      ensures Valid() && found == (key in old(data)) && key !in lru
      ensures Contents() == old(Contents()).(slots := Without(old(Contents()).slots, key))
    {
      SlotsWithout(lru, data, key);
      if key !in data {
        return false;
      }
      assert |data - {key}| == |data| - 1;
      data := data - {key};
      lru := Removed(lru, key);
      return true;
    }

    method Upsert(key: K, value: V)
      requires Valid()
      modifies this
      ensures Valid() && Contents() == Upserted(old(Contents()), key, value)
    {
      hide Slots, Without;
      if capacity == 0 {
        return;
      }
      var _ := Erase(key);
      SlotsLength(lru, data);
      if |data| >= capacity {
        var oldest := lru[0];
        SlotsTail(lru, data);
        assert |data - {oldest}| == |data| - 1;
        data := data - {oldest};
        lru := lru[1..];
      }
      UniqueAppend(lru, key);
      SlotsAppend(lru, data, key, value);
      data := data[key := value];
      lru := lru + [key];
    }

    method Get(key: K) returns (r: Option<V>)
      requires Valid()
      modifies this
      ensures Valid() && r == Lookup(old(Contents()).slots, key) && Contents() == Touched(old(Contents()), key)
    {
      hide Slots, Without, Lookup, Unique, Removed;
      SlotsWithout(lru, data, key);
      SlotsLookup(lru, data, key);
      if key !in data {
        return None;
      }
      r := Some(data[key]);
      ghost var rest := Removed(lru, key);
      UniqueAppend(rest, key);
      SlotsAppend(rest, data - {key}, key, r.value);
      assert (data - {key})[key := r.value] == data;
      lru := Removed(lru, key) + [key];
    }

    method Size() returns (n: nat)
      requires Valid()
      ensures n == |Contents().slots|
    {
      SlotsLength(lru, data);
      return |data|;
    }

    method Clear()
      requires Valid()
      modifies this
      ensures Valid() && Contents() == Recency(capacity, [])
    {
      data, lru := map[], [];
    }
  }

  /** Taking a node out of the list. */
  function Removed<K(==,!new)>(lru: seq<K>, key: K): (r: seq<K>)
    ensures |r| <= |lru|
    ensures forall k :: k in r <==> k in lru && k != key
  {
    if |lru| == 0 then []
    else if lru[0] == key then Removed(lru[1..], key)
    else [lru[0]] + Removed(lru[1..], key)
  }

  /** The entries the list and the map make up together. */
  function Slots<K(==,!new), V(!new)>(lru: seq<K>, data: map<K, V>): seq<Slot<K, V>> {
    if |lru| == 0 then []
    else if lru[0] !in data then Slots(lru[1..], data)
    else [Slot(lru[0], data[lru[0]])] + Slots(lru[1..], data)
  }

  predicate Unique<K(==,!new)>(lru: seq<K>) {
    forall i, j :: 0 <= i < j < |lru| ==> lru[i] != lru[j]
  }

  lemma UniqueAppend<K(!new)>(lru: seq<K>, key: K)
    requires Unique(lru) && key !in lru
    ensures Unique(lru + [key])
  {
  }

  lemma {:induction false} SlotsLength<K(!new), V(!new)>(lru: seq<K>, data: map<K, V>)
    requires forall k :: k in lru ==> k in data
    ensures |Slots(lru, data)| == |lru|
  {
    if |lru| > 0 {
      SlotsLength(lru[1..], data);
    }
  }

  lemma {:induction false} SlotsAgree<K(!new), V(!new)>(lru: seq<K>, data: map<K, V>, more: map<K, V>)
    requires forall k :: k in lru ==> (k in data <==> k in more) && (k in data ==> data[k] == more[k])
    ensures Slots(lru, data) == Slots(lru, more)
  {
    if |lru| > 0 {
      SlotsAgree(lru[1..], data, more);
    }
  }

  lemma {:induction false} RemovedAbsent<K(!new)>(lru: seq<K>, key: K)
    requires key !in lru
    ensures Removed(lru, key) == lru
  {
    if |lru| > 0 {
      RemovedAbsent(lru[1..], key);
    }
  }

  lemma UniqueTail<K(!new)>(lru: seq<K>)
    requires |lru| > 0
    ensures Unique(lru) ==> Unique(lru[1..]) && lru[0] !in lru[1..]
  {
  }

  lemma UniqueCons<K(!new)>(k: K, rest: seq<K>)
    requires Unique(rest) && k !in rest
    ensures Unique([k] + rest)
  {
  }

  lemma {:induction false} RemovedUnique<K(!new)>(lru: seq<K>, key: K)
    requires Unique(lru)
    ensures Unique(Removed(lru, key)) && |Removed(lru, key)| == if key in lru then |lru| - 1 else |lru|
    ensures key !in lru ==> Removed(lru, key) == lru
  {
    if |lru| > 0 {
      hide Unique;
      UniqueTail(lru);
      if lru[0] == key {
        RemovedAbsent(lru[1..], key);
      } else {
        RemovedUnique(lru[1..], key);
        UniqueCons(lru[0], Removed(lru[1..], key));
      }
    }
    if key !in lru {
      RemovedAbsent(lru, key);
    }
  }

  lemma {:induction false} SlotsRemoved<K(!new), V(!new)>(lru: seq<K>, data: map<K, V>, key: K)
    requires forall k :: k in lru ==> k in data
    ensures Slots(Removed(lru, key), data) == Without(Slots(lru, data), key)
  {
    if |lru| > 0 {
      SlotsRemoved(lru[1..], data, key);
    }
  }

  lemma SlotsWithout<K(!new), V(!new)>(lru: seq<K>, data: map<K, V>, key: K)
    requires Unique(lru) && forall k :: k in lru ==> k in data
    ensures Slots(Removed(lru, key), data - {key}) == Without(Slots(lru, data), key)
    ensures key !in lru ==> Slots(lru, data) == Without(Slots(lru, data), key)
    ensures Unique(Removed(lru, key)) && |Removed(lru, key)| == if key in lru then |lru| - 1 else |lru|
  {
    hide Slots, Without, Unique;
    RemovedUnique(lru, key);
    SlotsRemoved(lru, data, key);
    SlotsAgree(Removed(lru, key), data, data - {key});
  }

  lemma SlotsTail<K(!new), V(!new)>(lru: seq<K>, data: map<K, V>)
    requires Unique(lru) && |lru| > 0 && forall k :: k in lru ==> k in data
    ensures Slots(lru[1..], data - {lru[0]}) == Slots(lru, data)[1..]
  {
    SlotsAgree(lru[1..], data, data - {lru[0]});
  }

  lemma {:induction false} SlotsAppend<K(!new), V(!new)>(lru: seq<K>, data: map<K, V>, key: K, value: V)
    requires key !in lru && forall k :: k in lru ==> k in data
    ensures Slots(lru + [key], data[key := value]) == Slots(lru, data) + [Slot(key, value)]
  {
    if |lru| > 0 {
      assert (lru + [key])[1..] == lru[1..] + [key];
      SlotsAppend(lru[1..], data, key, value);
    } else {
      assert lru + [key] == [key] && [key][1..] == [];
    }
  }

  lemma {:induction false} SlotsLookup<K(!new), V(!new)>(lru: seq<K>, data: map<K, V>, key: K)
    requires forall k :: k in lru ==> k in data
    ensures Lookup(Slots(lru, data), key) == if key in lru then Some(data[key]) else None
  {
    if |lru| > 0 {
      SlotsLookup(lru[1..], data, key);
    }
  }
}
