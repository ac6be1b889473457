/** The recency-ordered read cache (LRUCache in src/memory/mod.rs). */
module Lru {
  import opened Collections
  import opened Pages

  datatype MemoryAddress = MemoryAddress(segmentId: u32, pageId: u32, offset: u32)

  /** Cached bytes, and the keys from most to least recently used. */
  datatype Cache = Cache(entries: map<MemoryAddress, seq<byte>>, recency: seq<MemoryAddress>)

  /** The list without the first occurrence of `key`. */
  function Forgotten(recency: seq<MemoryAddress>, key: MemoryAddress): seq<MemoryAddress> {
    if recency == [] then []
    else if recency[0] == key then recency[1..]
    else [recency[0]] + Forgotten(recency[1..], key)
  }

  function Looked(c: Cache, key: MemoryAddress): (Cache, Option<seq<byte>>) {
    if key in c.recency
    then (c.(recency := [key] + Forgotten(c.recency, key)), if key in c.entries then Some(c.entries[key]) else None)
    else (c, None)
  }

  /** Room made for one more entry. */
  function Evicted(c: Cache, capacity: nat): Cache {
    if |c.entries| >= capacity && c.recency != []
    then Cache(c.entries - {Last(c.recency)}, c.recency[..|c.recency| - 1])
    else c
  }

  function Inserted(c: Cache, capacity: nat, key: MemoryAddress, value: seq<byte>): Cache {
    var room := Evicted(c, capacity);
    Cache(room.entries[key := value], [key] + room.recency)
  }

  function Dropped(c: Cache, key: MemoryAddress): Cache {
    Cache(c.entries - {key}, Forgotten(c.recency, key))
  }

  /** The list names every cached key once. */
  predicate WellFormed(c: Cache) {
    Enumerates(c.recency, c.entries.Keys)
  }

  class LRUCache {
    const capacity: nat
    var cache: map<MemoryAddress, seq<byte>>
    var lru: seq<MemoryAddress>

    function View(): Cache
      reads this
    {
      Cache(cache, lru)
    }

    constructor (capacity: nat)
      ensures this.capacity == capacity && View() == Cache(map[], [])
    {
      this.capacity := capacity;
      cache, lru := map[], [];
    }

    /** Position of `key` in the list. */
    method Position(key: MemoryAddress) returns (pos: Option<nat>)
      ensures pos.None? <==> key !in lru
      ensures pos.Some? ==> pos.value < |lru| && lru[pos.value] == key && key !in lru[..pos.value]
    {
      for i := 0 to |lru|
        invariant key !in lru[..i]
      {
        if lru[i] == key {
          return Some(i);
        }
      }
      return None;
    }

    method Get(key: MemoryAddress) returns (data: Option<seq<byte>>)
      modifies this`lru
      ensures (View(), data) == Looked(old(View()), key)
    {
      var pos := Position(key);
      if pos.None? {
        return None;
      }
      ForgottenAt(lru, key, pos.value);
      lru := lru[..pos.value] + lru[pos.value + 1..];
      lru := [key] + lru;
      return if key in cache then Some(cache[key]) else None;
    }

    method Insert(key: MemoryAddress, value: seq<byte>)
      modifies this
      ensures View() == Inserted(old(View()), capacity, key, value)
    {
      if |cache| >= capacity {
        if lru != [] {
          var lruKey := lru[|lru| - 1];
          lru := lru[..|lru| - 1];
          cache := cache - {lruKey};
        }
      }
      cache := cache[key := value];
      lru := [key] + lru;
    }

    method Remove(key: MemoryAddress)
      modifies this
      ensures View() == Dropped(old(View()), key)
    {
      cache := cache - {key};
      var pos := Position(key);
      if pos.Some? {
        ForgottenAt(lru, key, pos.value);
        lru := lru[..pos.value] + lru[pos.value + 1..];
      } else {
        ForgottenAbsent(lru, key);
      }
    }
  }

  lemma {:induction false} ForgottenAt(recency: seq<MemoryAddress>, key: MemoryAddress, i: nat)
    requires i < |recency| && recency[i] == key && key !in recency[..i]
    ensures Forgotten(recency, key) == recency[..i] + recency[i + 1..]
  {
    if i > 0 {
      assert recency[0] in recency[..i];
      assert recency[1..][..i - 1] == recency[..i][1..];
      assert forall x | x in recency[1..][..i - 1] :: x in recency[..i];
      ForgottenAt(recency[1..], key, i - 1);
      assert recency[..i] == [recency[0]] + recency[1..][..i - 1];
    }
  }

  lemma {:induction false} ForgottenAbsent(recency: seq<MemoryAddress>, key: MemoryAddress)
    requires key !in recency
    ensures Forgotten(recency, key) == recency
  {
    if recency != [] {
      ForgottenAbsent(recency[1..], key);
    }
  }

  // ---------- The list matches the entries ----------

  ghost predicate Distinct(s: seq<MemoryAddress>) {
    forall i, j | 0 <= i < j < |s| :: s[i] != s[j]
  }

  lemma {:induction false} ForgottenIsDistinct(recency: seq<MemoryAddress>, key: MemoryAddress)
    requires Distinct(recency)
    ensures Distinct(Forgotten(recency, key))
    ensures forall x :: x in Forgotten(recency, key) <==> x in recency && x != key
    ensures |Forgotten(recency, key)| == if key in recency then |recency| - 1 else |recency|
  {
    if key in recency {
      var i :| 0 <= i < |recency| && recency[i] == key;
      ForgottenAt(recency, key, i);
    } else {
      ForgottenAbsent(recency, key);
    }
  }

  lemma WellFormedSize(c: Cache)
    requires WellFormed(c)
    ensures |c.entries| == |c.recency|
    ensures forall k :: k in c.recency <==> k in c.entries
  {
    DistinctCount(c.recency);
    assert forall k :: k in c.recency <==> k in (set x | x in c.recency);
  }

  lemma LookingKeepsWellFormed(c: Cache, key: MemoryAddress)
    requires WellFormed(c)
    ensures var (d, data) := Looked(c, key);
            && WellFormed(d) && d.entries == c.entries
            && (data.Some? <==> key in c.entries)
            && (data.Some? ==> data.value == c.entries[key])
  {
    WellFormedSize(c);
    ForgottenIsDistinct(c.recency, key);
  }

  lemma DroppingKeepsWellFormed(c: Cache, key: MemoryAddress)
    requires WellFormed(c)
    ensures WellFormed(Dropped(c, key))
    ensures Dropped(c, key).entries == c.entries - {key}
  {
    WellFormedSize(c);
    ForgottenIsDistinct(c.recency, key);
    var d := Dropped(c, key);
    assert forall k :: k in d.recency <==> k in d.entries;
    assert (set k | k in d.recency) == d.entries.Keys;
  }

  lemma EvictingKeepsWellFormed(c: Cache, capacity: nat)
    requires WellFormed(c)
    ensures WellFormed(Evicted(c, capacity))
    ensures Evicted(c, capacity).entries.Keys <= c.entries.Keys
    ensures |c.recency| <= (if capacity == 0 then 1 else capacity) ==>
              |Evicted(c, capacity).recency| < (if capacity == 0 then 1 else capacity)
  {
    WellFormedSize(c);
    if |c.entries| >= capacity && c.recency != [] {
      var d := Evicted(c, capacity);
      assert c.recency == d.recency + [Last(c.recency)];
      assert forall k :: k in d.entries <==> k in d.recency;
      assert (set k | k in d.recency) == d.entries.Keys;
    }
  }

  /** With room made, inserting a key keeps the list matched exactly when the key is not there. */
  lemma AddingKeepsWellFormed(room: Cache, key: MemoryAddress, value: seq<byte>)
    requires WellFormed(room)
    ensures WellFormed(Cache(room.entries[key := value], [key] + room.recency)) <==> key !in room.entries
  {
    WellFormedSize(room);
    var d := Cache(room.entries[key := value], [key] + room.recency);
    if key in room.entries {
      var i :| 0 <= i < |room.recency| && room.recency[i] == key;
      assert d.recency[0] == key == d.recency[i + 1];
    } else {
      assert forall k :: k in d.recency <==> k in d.entries;
      assert (set k | k in d.recency) == d.entries.Keys;
    }
  }

  /** Inserting keeps one list entry per key exactly when the key is new, or was itself the one
      evicted; otherwise the list would name it twice. */
  lemma InsertingKeepsWellFormed(c: Cache, capacity: nat, key: MemoryAddress, value: seq<byte>)
    requires WellFormed(c)
    ensures WellFormed(Inserted(c, capacity, key, value))
            <==> key !in c.entries || (|c.entries| >= capacity && Last(c.recency) == key)
  {
    WellFormedSize(c);
    EvictingKeepsWellFormed(c, capacity);
    AddingKeepsWellFormed(Evicted(c, capacity), key, value);
  }

  // ---------- Inclusion ----------

  /** Get, then insert on a miss, on the list alone. */
  function Accessed(recency: seq<MemoryAddress>, capacity: nat, key: MemoryAddress): seq<MemoryAddress> {
    if key in recency then [key] + Forgotten(recency, key)
    else [key] + (if |recency| >= capacity && recency != [] then recency[..|recency| - 1] else recency)
  }

  /** The cache's two calls for one access move its list as Accessed says. */
  lemma AccessMovesList(c: Cache, capacity: nat, key: MemoryAddress, value: seq<byte>)
    requires WellFormed(c)
    ensures var (d, data) := Looked(c, key);
            (if data.Some? then d else Inserted(d, capacity, key, value)).recency == Accessed(c.recency, capacity, key)
  {
    WellFormedSize(c);
  }

  datatype Op = Access(key: MemoryAddress) | Forget(key: MemoryAddress)

  function After(recency: seq<MemoryAddress>, capacity: nat, op: Op): seq<MemoryAddress> {
    match op
    case Access(key) => Accessed(recency, capacity, key)
    case Forget(key) => Forgotten(recency, key)
  }

  /** The recency list after a sequence of accesses and removals. */
  function List(capacity: nat, ops: seq<Op>): seq<MemoryAddress> {
    if ops == [] then [] else After(List(capacity, ops[..|ops| - 1]), capacity, Last(ops))
  }

  /** A capacity of zero still holds one entry. */
  function Room(capacity: nat): nat {
    if capacity == 0 then 1 else capacity
  }

  lemma {:induction false} ForgottenPrefix(small: seq<MemoryAddress>, large: seq<MemoryAddress>, key: MemoryAddress)
    requires small <= large
    ensures (if key in small then Forgotten(small, key) else small) <= Forgotten(large, key)
  {
    if small != [] && small[0] != key {
      assert small[1..] <= large[1..];
      ForgottenPrefix(small[1..], large[1..], key);
    }
  }

  lemma AccessedKeepsBounds(recency: seq<MemoryAddress>, capacity: nat, op: Op)
    requires Distinct(recency) && |recency| <= Room(capacity)
    ensures Distinct(After(recency, capacity, op)) && |After(recency, capacity, op)| <= Room(capacity)
  {
    ForgottenIsDistinct(recency, op.key);
  }

  lemma AccessKeepsPrefix(small: seq<MemoryAddress>, large: seq<MemoryAddress>, c: nat, d: nat, key: MemoryAddress)
    requires small <= large && c <= d
    requires |small| <= Room(c) && |large| <= Room(d)
    ensures Accessed(small, c, key) <= Accessed(large, d, key)
  {
    ForgottenPrefix(small, large, key);
    if key in small {
      assert key in large;
    }
  }

  /** Inclusion: on any common sequence of accesses and removals, the list of a smaller cache is a
      prefix of the list of a larger one; both hold distinct keys, within their capacity. */
  lemma {:induction false} Inclusion(c: nat, d: nat, ops: seq<Op>)
    requires c <= d
    ensures List(c, ops) <= List(d, ops)
    ensures Distinct(List(d, ops)) && |List(c, ops)| <= Room(c) && |List(d, ops)| <= Room(d)
  {
    if ops != [] {
      var before, op := ops[..|ops| - 1], Last(ops);
      Inclusion(c, d, before);
      assert Distinct(List(c, before));
      AccessedKeepsBounds(List(c, before), c, op);
      AccessedKeepsBounds(List(d, before), d, op);
      if op.Access? {
        AccessKeepsPrefix(List(c, before), List(d, before), c, d, op.key);
      } else {
        ForgottenPrefix(List(c, before), List(d, before), op.key);
        ForgottenAbsentPrefix(List(c, before), op.key);
      }
    }
  }

  lemma ForgottenAbsentPrefix(recency: seq<MemoryAddress>, key: MemoryAddress)
    ensures key !in recency ==> Forgotten(recency, key) == recency
  {
    if key !in recency {
      ForgottenAbsent(recency, key);
    }
  }

  /** Accesses that find their key cached. */
  function Hits(capacity: nat, ops: seq<Op>): nat {
    if ops == [] then 0
    else
      var before := ops[..|ops| - 1];
      Hits(capacity, before) + (if Last(ops).Access? && Last(ops).key in List(capacity, before) then 1 else 0)
  }

  /** So more capacity never turns a hit into a miss. */
  lemma {:induction false} CapacityOnlyHelps(c: nat, d: nat, ops: seq<Op>)
    requires c <= d
    ensures Hits(c, ops) <= Hits(d, ops)
    ensures forall k | k in List(c, ops) :: k in List(d, ops)
  {
    Inclusion(c, d, ops);
    if ops != [] {
      CapacityOnlyHelps(c, d, ops[..|ops| - 1]);
    }
  }

  // ---------- The same of the cache itself ----------

  /** What one access or removal makes of a cache; a miss inserts `value`. */
  function Served(c: Cache, capacity: nat, op: Op, value: seq<byte>): Cache {
    match op
    case Access(key) =>
      var (d, data) := Looked(c, key);
      if data.Some? then d else Inserted(d, capacity, key, value)
    case Forget(key) => Dropped(c, key)
  }

  /** `d` comes of serving `op`, whatever bytes a miss inserts. */
  ghost predicate Serves(capacity: nat, c: Cache, op: Op, d: Cache) {
    exists value :: d == Served(c, capacity, op, value)
  }

  /** `caches` is a run of accesses and removals from an empty cache. */
  ghost predicate IsCacheRun(capacity: nat, caches: seq<Cache>, ops: seq<Op>) {
    && |caches| == |ops| + 1
    && caches[0] == Cache(map[], [])
    && forall i | 0 <= i < |ops| :: Serves(capacity, caches[i], ops[i], caches[i + 1])
  }

  /** Accesses of a run that found their key. */
  function RunHits(caches: seq<Cache>, ops: seq<Op>): nat
    requires |caches| == |ops| + 1
  {
    if ops == [] then 0
    else
      var n := |ops| - 1;
      RunHits(caches[..n + 1], ops[..n])
        + (if ops[n].Access? && Looked(caches[n], ops[n].key).1.Some? then 1 else 0)
  }

  lemma ServedMovesList(c: Cache, capacity: nat, op: Op, value: seq<byte>)
    requires WellFormed(c)
    ensures WellFormed(Served(c, capacity, op, value))
    ensures Served(c, capacity, op, value).recency == After(c.recency, capacity, op)
  {
    match op
    case Access(key) =>
      LookingKeepsWellFormed(c, key);
      AccessMovesList(c, capacity, key, value);
      InsertingKeepsWellFormed(Looked(c, key).0, capacity, key, value);
    case Forget(key) => DroppingKeepsWellFormed(c, key);
  }

  lemma CacheRunPrefix(capacity: nat, caches: seq<Cache>, ops: seq<Op>)
    requires IsCacheRun(capacity, caches, ops) && ops != []
    ensures IsCacheRun(capacity, caches[..|ops|], ops[..|ops| - 1])
  {
  }

  /** Every run keeps one list entry per key, in the order of the list model, and has its hits. */
  lemma {:induction false} RunFollowsList(capacity: nat, caches: seq<Cache>, ops: seq<Op>)
    requires IsCacheRun(capacity, caches, ops)
    ensures WellFormed(Last(caches)) && Last(caches).recency == List(capacity, ops)
    ensures RunHits(caches, ops) == Hits(capacity, ops)
  {
    if ops != [] {
      var n := |ops| - 1;
      CacheRunPrefix(capacity, caches, ops);
      RunFollowsList(capacity, caches[..n + 1], ops[..n]);
      var c := caches[n];
      assert Last(caches[..n + 1]) == c;
      var value :| caches[n + 1] == Served(c, capacity, ops[n], value);
      ServedMovesList(c, capacity, ops[n], value);
      LookingFinds(c, ops[n].key);
      assert Last(caches) == caches[n + 1];
    }
  }

  lemma LookingFinds(c: Cache, key: MemoryAddress)
    requires WellFormed(c)
    ensures Looked(c, key).1.Some? <==> key in c.recency
  {
    WellFormedSize(c);
  }

  /** Two caches serving the same accesses and removals, whatever bytes they insert: the larger one
      finds whatever the smaller one finds, at the end and at every access before. */
  lemma HitsCarryOver(c: nat, d: nat, small: seq<Cache>, large: seq<Cache>, ops: seq<Op>, key: MemoryAddress)
    requires c <= d && IsCacheRun(c, small, ops) && IsCacheRun(d, large, ops)
    ensures Looked(Last(small), key).1.Some? ==> Looked(Last(large), key).1.Some?
    ensures RunHits(small, ops) <= RunHits(large, ops)
    ensures |Last(small).entries| <= Room(c)
  {
    RunFollowsList(c, small, ops);
    RunFollowsList(d, large, ops);
    Inclusion(c, d, ops);
    CapacityOnlyHelps(c, d, ops);
    LookingFinds(Last(small), key);
    LookingFinds(Last(large), key);
    WellFormedSize(Last(small));
  }
}
