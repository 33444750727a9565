/** The in-memory cache: least-recently-used eviction under a byte budget. */
module MemoryCache {
  import opened Text
  import opened Params

  datatype CacheEntry = CacheEntry(data: seq<U8>, contentType: string, createdAt: int) {
    function Size(): nat {
      |data| + |contentType|
    }
  }

  /** The stored entries, least recently used first. */
  type Slots = seq<(string, CacheEntry)>

  function Total(slots: Slots): nat {
    if slots == [] then 0 else slots[0].1.Size() + Total(slots[1..])
  }

  predicate DistinctKeys(slots: Slots) {
    forall i, j :: 0 <= i < j < |slots| ==> slots[i].0 != slots[j].0
  }

  function Lookup(slots: Slots, key: string): Option<CacheEntry> {
    if slots == [] then None
    else if slots[0].0 == key then Some(slots[0].1)
    else Lookup(slots[1..], key)
  }

  /** The entries without the one under `key`. */
  function Without(slots: Slots, key: string): Slots {
    if slots == [] then []
    else if slots[0].0 == key then slots[1..]
    else [slots[0]] + Without(slots[1..], key)
  }

  /** A read makes its entry the most recently used one. */
  function Touched(slots: Slots, key: string): Slots {
    match Lookup(slots, key)
    case Some(e) => Without(slots, key) + [(key, e)]
    case None => slots
  }

  /** Drops least recently used entries until the rest fits into `room`. */
  function Evicted(slots: Slots, room: nat): Slots {
    if Total(slots) <= room then slots else Evicted(slots[1..], room)
  }

  /** A write replaces the entry, evicts to make room, and refuses an entry larger than the whole cache. */
  function Stored(slots: Slots, key: string, entry: CacheEntry, max: nat): Slots {
    if entry.Size() > max then []
    else Evicted(Without(slots, key), max - entry.Size()) + [(key, entry)]
  }

  // ---------------------------------------------------------------------------
  // The slot functions
  // ---------------------------------------------------------------------------

  lemma {:induction false} WithoutFacts(slots: Slots, key: string)
    requires DistinctKeys(slots)
    ensures DistinctKeys(Without(slots, key))
    ensures forall x :: x in Without(slots, key) <==> x in slots && x.0 != key
    ensures Total(slots) == Total(Without(slots, key))
                            + match Lookup(slots, key) { case Some(e) => e.Size() case None => 0 }
    ensures Lookup(slots, key).None? ==> Without(slots, key) == slots
  {
    if slots != [] {
      assert slots == [slots[0]] + slots[1..];
      if slots[0].0 == key {
        assert forall j :: 0 < j < |slots| ==> slots[j].0 != key;
      } else {
        WithoutFacts(slots[1..], key);
        var rest := Without(slots[1..], key);
        assert forall j :: 0 <= j < |rest| ==> rest[j] in slots[1..];
        assert Without(slots, key)[1..] == rest;
      }
    }
  }

  lemma {:induction false} LookupFinds(slots: Slots, key: string)
    ensures Lookup(slots, key).Some? ==> (key, Lookup(slots, key).value) in slots
    ensures Lookup(slots, key).None? ==> forall x :: x in slots ==> x.0 != key
  {
    if slots != [] {
      LookupFinds(slots[1..], key);
      assert slots == [slots[0]] + slots[1..];
    }
  }

  lemma {:induction false} TotalAppend(a: Slots, b: Slots)
    ensures Total(a + b) == Total(a) + Total(b)
  {
    if a == [] {
      assert a + b == b;
    } else {
      assert (a + b)[1..] == a[1..] + b;
      TotalAppend(a[1..], b);
    }
  }

  lemma TotalSingle(x: (string, CacheEntry))
    ensures Total([x]) == x.1.Size()
  {
    assert [x][1..] == [];
  }

  /** Eviction keeps the longest most-recently-used suffix that leaves enough room. */
  lemma {:induction false} EvictedIsLongestSuffix(slots: Slots, room: nat) returns (n: nat)
    ensures n <= |slots| && Evicted(slots, room) == slots[n..]
    ensures Total(slots[n..]) <= room
    ensures forall m :: 0 <= m < n ==> Total(slots[m..]) > room
  {
    if Total(slots) <= room {
      n := 0;
      assert slots[0..] == slots;
    } else {
      var k := EvictedIsLongestSuffix(slots[1..], room);
      n := k + 1;
      assert slots[1..][k..] == slots[n..];
      forall m | 0 <= m < n ensures Total(slots[m..]) > room {
        if m > 0 { assert slots[1..][m - 1..] == slots[m..]; } else { assert slots[0..] == slots; }
      }
    }
  }

  lemma TouchedFacts(slots: Slots, key: string)
    requires DistinctKeys(slots)
    ensures DistinctKeys(Touched(slots, key)) && Total(Touched(slots, key)) == Total(slots)
    ensures forall x :: x in Touched(slots, key) <==> x in slots
  {
    WithoutFacts(slots, key);
    LookupFinds(slots, key);
    match Lookup(slots, key)
    case None =>
    case Some(e) =>
      TotalAppend(Without(slots, key), [(key, e)]);
      TotalSingle((key, e));
      var rest := Without(slots, key);
      assert forall i :: 0 <= i < |rest| ==> rest[i] in rest;
      forall x | x in slots && x.0 == key ensures x == (key, e) {
        var i :| 0 <= i < |slots| && slots[i] == x;
        var j :| 0 <= j < |slots| && slots[j] == (key, e);
        assert i < j || j < i || i == j;
      }
  }

  /** A suffix with one entry under a new key behind it. */
  lemma SuffixAndOne(rest: Slots, n: nat, x: (string, CacheEntry))
    requires n <= |rest| && DistinctKeys(rest) && forall y :: y in rest ==> y.0 != x.0
    ensures DistinctKeys(rest[n..] + [x])
    ensures forall y :: y in rest[n..] + [x] ==> y == x || y in rest
  {
    forall i | n <= i < |rest| ensures rest[i].0 != x.0 {
      assert rest[i] in rest;
    }
  }

  lemma SuffixAndOneFits(rest: Slots, n: nat, x: (string, CacheEntry), max: nat)
    requires n <= |rest| && Total(rest[n..]) + x.1.Size() <= max
    ensures Total(rest[n..] + [x]) <= max
  {
    TotalAppend(rest[n..], [x]);
    TotalSingle(x);
  }

  lemma StoredFacts(slots: Slots, key: string, entry: CacheEntry, max: nat)
    requires DistinctKeys(slots)
    ensures DistinctKeys(Stored(slots, key, entry, max)) && Total(Stored(slots, key, entry, max)) <= max
    ensures forall x :: x in Stored(slots, key, entry, max) ==>
      (x == (key, entry) && entry.Size() <= max) || (x in slots && x.0 != key)
    ensures entry.Size() <= max ==> (key, entry) in Stored(slots, key, entry, max)
  {
    hide DistinctKeys, Evicted, Without, Lookup;
    if entry.Size() <= max {
      WithoutFacts(slots, key);
      var rest := Without(slots, key);
      var n := EvictedIsLongestSuffix(rest, max - entry.Size());
      SuffixAndOne(rest, n, (key, entry));
      SuffixAndOneFits(rest, n, (key, entry), max);
    } else {
      EmptyFacts();
    }
  }

  lemma EmptyFacts()
    ensures DistinctKeys([]) && Total([]) == 0
  {}

  // ---------------------------------------------------------------------------
  // The cache
  // ---------------------------------------------------------------------------

  class MemoryCache {
    const maxSizeBytes: nat
    var slots: Slots
    var currentSizeBytes: nat

    ghost predicate Valid()
      reads this
    {
      DistinctKeys(slots) && currentSizeBytes == Total(slots) && currentSizeBytes <= maxSizeBytes
    }

    constructor (maxSizeBytes: nat)
      ensures Valid() && slots == [] && this.maxSizeBytes == maxSizeBytes
    {
      this.maxSizeBytes := maxSizeBytes;
      slots := [];
      currentSizeBytes := 0;
    }

    method Get(key: string) returns (entry: Option<CacheEntry>)
      requires Valid()
      modifies this
      ensures Valid()
      ensures slots == Touched(old(slots), key) && entry == Lookup(old(slots), key)
    {
      TouchedFacts(slots, key);
      entry := Lookup(slots, key);
      if entry.Some? {
        slots := Without(slots, key) + [(key, entry.value)];
      }
    }

    /** The byte count never goes below zero: every subtraction takes the size of an entry still counted. */
    method Put(key: string, entry: CacheEntry)
      requires Valid()
      modifies this
      ensures Valid()
      ensures slots == Stored(old(slots), key, entry, maxSizeBytes)
    {
      StoredFacts(slots, key, entry, maxSizeBytes);
      var newSize := entry.Size();
      WithoutFacts(slots, key);
      var existing := Lookup(slots, key);
      if existing.Some? {
        slots := Without(slots, key);
        currentSizeBytes := currentSizeBytes - existing.value.Size();
      }
      ghost var rest := slots;
      while currentSizeBytes + newSize > maxSizeBytes && slots != []
        invariant currentSizeBytes == Total(slots)
        invariant newSize <= maxSizeBytes ==>
          Evicted(slots, maxSizeBytes - newSize) == Evicted(rest, maxSizeBytes - newSize)
        decreases |slots|
      {
        var evicted := slots[0].1;
        slots := slots[1..];
        currentSizeBytes := currentSizeBytes - evicted.Size();
      }
      if newSize > maxSizeBytes {
        return;
      }
      TotalAppend(slots, [(key, entry)]);
      TotalSingle((key, entry));
      currentSizeBytes := currentSizeBytes + newSize;
      slots := slots + [(key, entry)];
    }

    method Delete(key: string) returns (existed: bool)
      requires Valid()
      modifies this
      ensures Valid()
      ensures slots == Without(old(slots), key) && existed == Lookup(old(slots), key).Some?
    {
      WithoutFacts(slots, key);
      match Lookup(slots, key)
      case Some(e) =>
        slots := Without(slots, key);
        currentSizeBytes := currentSizeBytes - e.Size();
        existed := true;
      case None =>
        existed := false;
    }

    method Clear()
      requires Valid()
      modifies this
      ensures Valid() && slots == []
    {
      slots := [];
      currentSizeBytes := 0;
    }

    method Size() returns (n: nat)
      ensures n == |slots|
    {
      n := |slots|;
    }
  }

  // ---------------------------------------------------------------------------
  // Whole runs
  // ---------------------------------------------------------------------------

  datatype Op = OpGet(key: string) | OpPut(key: string, entry: CacheEntry) | OpDelete(key: string) | OpClear

  function Apply(slots: Slots, op: Op, max: nat): Slots {
    match op
    case OpGet(k) => Touched(slots, k)
    case OpPut(k, e) => Stored(slots, k, e, max)
    case OpDelete(k) => Without(slots, k)
    case OpClear => []
  }

  /** The entries after a sequence of operations on an empty cache. */
  function Run(ops: seq<Op>, max: nat): Slots {
    if ops == [] then [] else Apply(Run(ops[..|ops| - 1], max), ops[|ops| - 1], max)
  }

  /** The value of the last write of a key, unless it was deleted or the cache cleared since. */
  function LastPut(ops: seq<Op>, key: string): Option<CacheEntry> {
    if ops == [] then None
    else
      match ops[|ops| - 1]
      case OpPut(k, e) => if k == key then Some(e) else LastPut(ops[..|ops| - 1], key)
      case OpDelete(k) => if k == key then None else LastPut(ops[..|ops| - 1], key)
      case OpClear => None
      case OpGet(_) => LastPut(ops[..|ops| - 1], key)
  }

  /** The time of the last read or write of a key, counted from one; zero when there was none. */
  function LastUse(ops: seq<Op>, key: string): (t: nat)
    ensures t <= |ops|
  {
    if ops == [] then 0
    else
      match ops[|ops| - 1]
      case OpPut(k, _) => if k == key then |ops| else LastUse(ops[..|ops| - 1], key)
      case OpGet(k) => if k == key then |ops| else LastUse(ops[..|ops| - 1], key)
      case _ => LastUse(ops[..|ops| - 1], key)
  }

  /** The bytes of the data and of the content types of all entries. */
  function BytesHeld(slots: Slots): nat {
    if slots == [] then 0 else |slots[0].1.data| + |slots[0].1.contentType| + BytesHeld(slots[1..])
  }

  lemma {:induction false} TotalIsBytes(slots: Slots)
    ensures Total(slots) == BytesHeld(slots)
  {
    if slots != [] { TotalIsBytes(slots[1..]); }
  }

  /** Over every run the keys stay distinct, and the bytes held stay within the budget. */
  lemma RunKeepsBytes(ops: seq<Op>, max: nat)
    ensures DistinctKeys(Run(ops, max)) && BytesHeld(Run(ops, max)) <= max
  {
    RunKeepsBudget(ops, max);
    TotalIsBytes(Run(ops, max));
  }

  /** Over every run the keys stay distinct and the budget is kept. */
  lemma {:induction false} RunKeepsBudget(ops: seq<Op>, max: nat)
    ensures DistinctKeys(Run(ops, max)) && Total(Run(ops, max)) <= max
    decreases |ops|
  {
    if ops != [] {
      var before := Run(ops[..|ops| - 1], max);
      RunKeepsBudget(ops[..|ops| - 1], max);
      match ops[|ops| - 1]
      case OpGet(k) => TouchedFacts(before, k);
      case OpPut(k, e) => StoredFacts(before, k, e, max);
      case OpDelete(k) => WithoutFacts(before, k);
      case OpClear =>
    }
  }

  /** Over every run, what the cache holds under a key is the value last written there and not deleted since. */
  lemma {:induction false} RunHoldsLastPut(ops: seq<Op>, max: nat, x: (string, CacheEntry))
    requires x in Run(ops, max)
    ensures LastPut(ops, x.0) == Some(x.1)
    decreases |ops|
  {
    if ops != [] {
      var front := ops[..|ops| - 1];
      var before := Run(front, max);
      RunKeepsBudget(front, max);
      match ops[|ops| - 1]
      case OpGet(k) =>
        TouchedFacts(before, k);
        RunHoldsLastPut(front, max, x);
      case OpPut(k, e) =>
        StoredFacts(before, k, e, max);
        if x != (k, e) { RunHoldsLastPut(front, max, x); }
      case OpDelete(k) =>
        WithoutFacts(before, k);
        RunHoldsLastPut(front, max, x);
      case OpClear =>
    }
  }

  predicate OrderedByUse(slots: Slots, ops: seq<Op>) {
    forall i, j :: 0 <= i < j < |slots| ==> LastUse(ops, slots[i].0) < LastUse(ops, slots[j].0)
  }

  lemma {:induction false} WithoutIsSubsequence(slots: Slots, key: string, i: nat, j: nat) returns (i': nat, j': nat)
    requires i < j < |Without(slots, key)|
    ensures i' < j' < |slots| && Without(slots, key)[i] == slots[i'] && Without(slots, key)[j] == slots[j']
  {
    if slots[0].0 == key {
      i', j' := i + 1, j + 1;
    } else if i > 0 {
      i', j' := WithoutIsSubsequence(slots[1..], key, i - 1, j - 1);
      i', j' := i' + 1, j' + 1;
    } else {
      i' := 0;
      j' := WithoutHas(slots[1..], key, j - 1);
      j' := j' + 1;
    }
  }

  lemma {:induction false} WithoutHas(slots: Slots, key: string, j: nat) returns (j': nat)
    requires j < |Without(slots, key)|
    ensures j' < |slots| && Without(slots, key)[j] == slots[j']
  {
    if slots[0].0 == key {
      j' := j + 1;
    } else if j == 0 {
      j' := 0;
    } else {
      j' := WithoutHas(slots[1..], key, j - 1);
      j' := j' + 1;
    }
  }

  lemma WithoutKeepsOrder(slots: Slots, key: string, ops: seq<Op>)
    requires OrderedByUse(slots, ops)
    ensures OrderedByUse(Without(slots, key), ops)
  {
    var rest := Without(slots, key);
    forall i, j | 0 <= i < j < |rest| ensures LastUse(ops, rest[i].0) < LastUse(ops, rest[j].0) {
      var i', j' := WithoutIsSubsequence(slots, key, i, j);
    }
  }

  /** Using one key leaves the order of the others and puts it last. */
  lemma UsedLast(rest: Slots, x: (string, CacheEntry), front: seq<Op>, op: Op)
    requires OrderedByUse(rest, front) && forall y :: y in rest ==> y.0 != x.0
    requires op == OpGet(x.0) || op == OpPut(x.0, x.1)
    ensures OrderedByUse(rest + [x], front + [op])
  {
    var ops := front + [op];
    assert ops[..|ops| - 1] == front;
    forall i | 0 <= i < |rest| ensures LastUse(ops, rest[i].0) == LastUse(front, rest[i].0) {
      assert rest[i] in rest;
    }
    assert LastUse(ops, x.0) == |ops|;
  }

  lemma UnusedKeepsOrder(slots: Slots, front: seq<Op>, op: Op)
    requires OrderedByUse(slots, front)
    requires op.OpDelete? || op.OpClear? || forall y :: y in slots ==> y.0 != op.key
    ensures OrderedByUse(slots, front + [op])
  {
    var ops := front + [op];
    assert ops[..|ops| - 1] == front;
    forall i | 0 <= i < |slots| ensures LastUse(ops, slots[i].0) == LastUse(front, slots[i].0) {
      assert slots[i] in slots;
    }
  }

  /** Over every run the entries stand in the order of their last use, so eviction takes the least recent one. */
  lemma {:induction false} RunOrderedByUse(ops: seq<Op>, max: nat)
    ensures OrderedByUse(Run(ops, max), ops)
    decreases |ops|
  {
    if ops != [] {
      var front, op := ops[..|ops| - 1], ops[|ops| - 1];
      assert ops == front + [op];
      var before := Run(front, max);
      RunOrderedByUse(front, max);
      RunKeepsBudget(front, max);
      hide Run, LastUse, OrderedByUse;
      assert Run(ops, max) == Apply(before, op, max) by { RunStep(front, op, max); }
      match op
      case OpClear =>
        EmptyOrdered(ops);
      case OpDelete(k) =>
        WithoutKeepsOrder(before, k, front);
        UnusedKeepsOrder(Without(before, k), front, op);
      case OpGet(k) =>
        WithoutFacts(before, k);
        LookupFinds(before, k);
        match Lookup(before, k) {
          case None => UnusedKeepsOrder(before, front, op);
          case Some(e) =>
            WithoutKeepsOrder(before, k, front);
            UsedLast(Without(before, k), (k, e), front, op);
        }
      case OpPut(k, e) =>
        if e.Size() > max {
          EmptyOrdered(ops);
        } else {
          WithoutFacts(before, k);
          WithoutKeepsOrder(before, k, front);
          var rest := Without(before, k);
          var n := EvictedIsLongestSuffix(rest, max - e.Size());
          SuffixOrdered(rest, front, n);
          assert forall y :: y in rest[n..] ==> y in rest;
          UsedLast(rest[n..], (k, e), front, op);
        }
    }
  }

  lemma RunStep(front: seq<Op>, op: Op, max: nat)
    ensures Run(front + [op], max) == Apply(Run(front, max), op, max)
  {
    assert (front + [op])[..|front|] == front;
  }

  lemma EmptyOrdered(ops: seq<Op>)
    ensures OrderedByUse([], ops)
  {}

  lemma SuffixOrdered(slots: Slots, ops: seq<Op>, n: nat)
    requires n <= |slots| && OrderedByUse(slots, ops)
    ensures OrderedByUse(slots[n..], ops)
  {}
}
