/** Vocabulary shared by the models: optional values, machine integers and
    facts about finite sets and sequences. */
module Collections {
  const U64_LIMIT: int := 0x1_0000_0000_0000_0000

  type byte = x: int | 0 <= x < 256
  type u64 = x: int | 0 <= x < U64_LIMIT

  datatype Option<+T> = None | Some(value: T)

  /** `order` lists every element of `keys` exactly once: one iteration order of a hash map. */
  predicate Enumerates<T(==)>(order: seq<T>, keys: set<T>) {
    && (forall i, j | 0 <= i < j < |order| :: order[i] != order[j])
    && (set k | k in order) == keys
  }

  lemma EnumeratedMembers<T>(order: seq<T>, keys: set<T>)
    requires Enumerates(order, keys)
    ensures forall k :: k in order <==> k in keys
  {
    forall k
      ensures k in order <==> k in keys
    {
      assert k in order <==> k in (set x | x in order);
    }
  }

  function Last<T>(s: seq<T>): T
    requires s != []
  {
    s[|s| - 1]
  }

  lemma {:induction false} DistinctCount<T>(s: seq<T>)
    requires forall i, j | 0 <= i < j < |s| :: s[i] != s[j]
    ensures |set x | x in s| == |s|
  {
    if s != [] {
      var init := s[..|s| - 1];
      DistinctCount(init);
      assert s == init + [Last(s)];
      assert (set x | x in s) == (set x | x in init) + {Last(s)};
    }
  }

  /** Two sets that together overfill a universe must overlap. */
  lemma OverlapBound<T>(a: set<T>, b: set<T>, universe: set<T>)
    requires a <= universe && b <= universe
    ensures |a * b| >= |a| + |b| - |universe|
  {
    assert |a + b| == |a| + |b| - |a * b|;
    SubsetCard(a + b, universe);
  }

  lemma SubsetCard<T>(a: set<T>, b: set<T>)
    requires a <= b
    ensures |a| <= |b|
  {
    assert b == a + (b - a);
  }

  /** The integers of [lo, hi). */
  ghost function Interval(lo: int, hi: int): (s: set<int>)
    requires lo <= hi
    ensures forall x :: x in s <==> lo <= x < hi
    ensures |s| == hi - lo
    decreases hi - lo
  {
    if lo == hi then {} else Interval(lo, hi - 1) + {hi - 1}
  }
}
