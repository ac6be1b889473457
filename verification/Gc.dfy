/** Mark and sweep over the segment list (src/memory/gc.rs). */
module Gc {
  import opened Collections
  import opened Pages

  datatype SegmentType = Code | Data | Stack | Heap

  datatype Segment = Segment(segmentType: SegmentType, size: u64, isShared: bool, ownerId: Option<u32>)

  predicate IsRoot(s: Segment) {
    s.isShared || s.ownerId.Some?
  }

  /** `i as u32`. */
  function Truncated(i: nat): u32 {
    i % U32_LIMIT
  }

  /** The ids marked: the truncated indices of the roots. */
  function Marks(segments: seq<Segment>): set<u32> {
    if segments == [] then {}
    else Marks(segments[..|segments| - 1])
         + (if IsRoot(Last(segments)) then {Truncated(|segments| - 1)} else {})
  }

  /** The first index at or after i whose id is not marked, or n. */
  function FirstUnmarked(i: nat, n: nat, marked: set<u32>): nat
    decreases n - i
  {
    if i >= n || Truncated(i) !in marked then i else FirstUnmarked(i + 1, n, marked)
  }

  /** What a collection leaves. */
  function Survivors(segments: seq<Segment>): seq<Segment> {
    var k := FirstUnmarked(0, |segments|, Marks(segments));
    if k <= |segments| then segments[..k] else segments
  }

  class GarbageCollector {
    const threshold: u64
    var marked: set<u32>
    var collections: nat
    var freedSegments: nat
    var freedPages: nat

    constructor (threshold: u64)
      ensures this.threshold == threshold && marked == {}
      ensures collections == 0 && freedSegments == 0 && freedPages == 0
    {
      this.threshold := threshold;
      marked, collections, freedSegments, freedPages := {}, 0, 0, 0;
    }

    method Collect(segments: seq<Segment>) returns (left: seq<Segment>)
      requires marked == {}
      modifies this
      ensures left == Survivors(segments) && marked == {}
      ensures collections == old(collections) + 1
      ensures freedSegments == old(freedSegments) + |segments| - |left|
      ensures freedPages == old(freedPages) + |segments| - |left|
    {
      Mark(segments);
      var freed, pages;
      left, freed, pages := Sweep(segments);
      collections := collections + 1;
      freedSegments := freedSegments + freed;
      freedPages := freedPages + pages;
      marked := {};
    }

    method Mark(segments: seq<Segment>)
      requires marked == {}
      modifies this`marked
      ensures marked == Marks(segments)
    {
      for i := 0 to |segments|
        invariant marked == Marks(segments[..i])
      {
        assert segments[..i + 1][..i] == segments[..i];
        if IsRoot(segments[i]) {
          marked := marked + {Truncated(i)};
        }
      }
      assert segments[..|segments|] == segments;
    }

    /** Removes every segment whose current index is not marked. */
    method Sweep(segments: seq<Segment>) returns (left: seq<Segment>, freed: nat, pages: nat)
      ensures var k := FirstUnmarked(0, |segments|, marked);
              k <= |segments| && left == segments[..k] && freed == pages == |segments| - k
    {
      left, freed, pages := segments, 0, 0;
      var i := 0;
      while i < |left|
        invariant i <= |left| && freed == pages && i + freed <= |segments|
        invariant left == segments[..i] + segments[i + freed..]
        invariant FirstUnmarked(i, |segments|, marked) == FirstUnmarked(0, |segments|, marked)
        invariant freed > 0 ==> Truncated(i) !in marked
        decreases |left| - i
      {
        if Truncated(i) !in marked {
          RemovingShifts(segments, i, freed);
          left := left[..i] + left[i + 1..];
          freed := freed + 1;
          pages := pages + 1;
        } else {
          i := i + 1;
        }
      }
      assert segments[i + freed..] == [];
    }
  }

  /** Removing at i what is left of a list that lost `freed` elements there loses one more. */
  lemma RemovingShifts(segments: seq<Segment>, i: nat, freed: nat)
    requires i + freed < |segments|
    ensures var left := segments[..i] + segments[i + freed..];
            left[..i] + left[i + 1..] == segments[..i] + segments[i + freed + 1..]
  {
  }

  // ---------- What survives ----------

  /** The length of the longest leading run of roots. */
  function LeadingRoots(segments: seq<Segment>): (n: nat)
    ensures n <= |segments|
  {
    if segments == [] || !IsRoot(segments[0]) then 0 else 1 + LeadingRoots(segments[1..])
  }

  function Roots(segments: seq<Segment>): seq<Segment> {
    if segments == [] then [] else (if IsRoot(segments[0]) then [segments[0]] else []) + Roots(segments[1..])
  }

  lemma {:induction false} MarksAreRootIndices(segments: seq<Segment>, i: nat)
    requires |segments| <= U32_LIMIT && i < |segments|
    ensures Truncated(i) in Marks(segments) <==> segments[i].isShared || segments[i].ownerId.Some?
  {
    var init := segments[..|segments| - 1];
    if i < |init| {
      MarksAreRootIndices(init, i);
    } else {
      MarksAreSmall(init, i);
    }
  }

  lemma {:induction false} MarksAreSmall(segments: seq<Segment>, i: nat)
    requires |segments| <= i < U32_LIMIT
    ensures Truncated(i) !in Marks(segments)
  {
    if segments != [] {
      MarksAreSmall(segments[..|segments| - 1], i);
    }
  }

  lemma {:induction false} UnmarkedIsLeading(segments: seq<Segment>, i: nat)
    requires |segments| <= U32_LIMIT && i <= |segments|
    ensures FirstUnmarked(i, |segments|, Marks(segments)) == i + LeadingRoots(segments[i..])
    decreases |segments| - i
  {
    if i < |segments| {
      MarksAreRootIndices(segments, i);
      assert segments[i..][1..] == segments[i + 1..];
      UnmarkedIsLeading(segments, i + 1);
    }
  }

  /** A collection keeps exactly the longest leading run of roots, each where it was: marks name
      original indices, while every removal shifts the segments behind it. */
  lemma SurvivorsAreLeadingRoots(segments: seq<Segment>)
    requires |segments| <= U32_LIMIT
    ensures Survivors(segments) == segments[..LeadingRoots(segments)]
  {
    UnmarkedIsLeading(segments, 0);
    assert segments[0..] == segments;
  }

  lemma {:induction false} LeadingRootsIsMaximal(segments: seq<Segment>)
    ensures forall i | 0 <= i < LeadingRoots(segments) :: IsRoot(segments[i])
    ensures LeadingRoots(segments) < |segments| ==> !IsRoot(segments[LeadingRoots(segments)])
  {
    if segments != [] && IsRoot(segments[0]) {
      LeadingRootsIsMaximal(segments[1..]);
    }
  }

  lemma {:induction false} RootsMembers(segments: seq<Segment>)
    ensures Roots(segments) == [] <==> forall i | 0 <= i < |segments| :: !IsRoot(segments[i])
  {
    if segments != [] {
      RootsMembers(segments[1..]);
      assert forall i | 0 < i < |segments| :: segments[i] == segments[1..][i - 1];
    }
  }

  lemma {:induction false} RootsSplit(segments: seq<Segment>)
    ensures Roots(segments) == segments[..LeadingRoots(segments)] + Roots(segments[LeadingRoots(segments)..])
  {
    if segments != [] && IsRoot(segments[0]) {
      var n := LeadingRoots(segments[1..]);
      RootsSplit(segments[1..]);
      assert segments[..n + 1] == [segments[0]] + segments[1..][..n];
      assert segments[n + 1..] == segments[1..][n..];
    } else {
      assert segments[0..] == segments;
    }
  }

  /** No shared or owned segment follows one that is neither. */
  ghost predicate RootsLead(segments: seq<Segment>) {
    forall i, j | 0 <= i < j < |segments| && (segments[j].isShared || segments[j].ownerId.Some?) ::
      segments[i].isShared || segments[i].ownerId.Some?
  }

  lemma RootsLeadWhenNoneFollow(segments: seq<Segment>)
    ensures RootsLead(segments) <==> Roots(segments[LeadingRoots(segments)..]) == []
  {
    var n := LeadingRoots(segments);
    LeadingRootsIsMaximal(segments);
    RootsMembers(segments[n..]);
    if Roots(segments[n..]) == [] {
      forall j | n <= j < |segments| ensures !IsRoot(segments[j]) {
        assert segments[j] == segments[n..][j - n];
      }
    } else {
      var k :| 0 <= k < |segments[n..]| && IsRoot(segments[n..][k]);
      assert segments[n + k] == segments[n..][k];
      assert n < |segments| && !IsRoot(segments[n]);
      assert IsRoot(segments[n + k]);
    }
  }

  /** So "keep the roots, free the rest" is what happens exactly when no root follows a non-root. */
  lemma KeepsExactlyRootsWhenLeading(segments: seq<Segment>)
    requires |segments| <= U32_LIMIT
    ensures Survivors(segments) == Roots(segments) <==> RootsLead(segments)
  {
    var n := LeadingRoots(segments);
    SurvivorsAreLeadingRoots(segments);
    RootsLeadWhenNoneFollow(segments);
    RootsSplit(segments);
    assert |Roots(segments)| == n + |Roots(segments[n..])|;
  }

  // ---------- Which segments survive, in any list ----------

  /** Index j is marked: some shared or owned segment has an index that is the same 32-bit number. */
  ghost predicate SharesMark(segments: seq<Segment>, j: nat) {
    exists k :: 0 <= k < |segments| && k % 0x1_0000_0000 == j % 0x1_0000_0000
                && (segments[k].isShared || segments[k].ownerId.Some?)
  }

  lemma {:induction false} MarkedExactly(segments: seq<Segment>, j: nat)
    ensures Truncated(j) in Marks(segments) <==> SharesMark(segments, j)
  {
    if segments != [] {
      var n := |segments| - 1;
      MarkedExactly(segments[..n], j);
      assert forall k | 0 <= k < n :: segments[..n][k] == segments[k];
      if IsRoot(segments[n]) && n % 0x1_0000_0000 == j % 0x1_0000_0000 {
        assert SharesMark(segments, j);
      }
    }
  }

  lemma {:induction false} FirstUnmarkedExactly(i: nat, n: nat, marked: set<u32>)
    requires i <= n
    ensures var k := FirstUnmarked(i, n, marked);
            && i <= k <= n
            && (forall j | i <= j < k :: Truncated(j) in marked)
            && (k < n ==> Truncated(k) !in marked)
    decreases n - i
  {
    if i < n && Truncated(i) in marked {
      FirstUnmarkedExactly(i + 1, n, marked);
    }
  }

  /** A segment survives a collection exactly when it and every segment before it share their 32-bit
      index with one that is shared or owned; and then it stays where it was. */
  lemma SurvivesExactly(segments: seq<Segment>, i: nat)
    requires i < |segments|
    ensures i < |Survivors(segments)| <==> forall j | 0 <= j <= i :: SharesMark(segments, j)
    ensures Survivors(segments) <= segments
  {
    FirstUnmarkedExactly(0, |segments|, Marks(segments));
    var k := FirstUnmarked(0, |segments|, Marks(segments));
    forall j: nat
      ensures Truncated(j) in Marks(segments) <==> SharesMark(segments, j)
    {
      MarkedExactly(segments, j);
    }
    if k <= i {
      assert !SharesMark(segments, k);
    }
  }

  /** Up to 2^32 segments, that is: it and every one before it is shared or owned itself. */
  lemma SurvivesWhenRootsLead(segments: seq<Segment>, i: nat)
    requires |segments| <= 0x1_0000_0000 && i < |segments|
    ensures i < |Survivors(segments)| <==> forall j | 0 <= j <= i :: segments[j].isShared || segments[j].ownerId.Some?
  {
    SurvivesExactly(segments, i);
    forall j: nat | j <= i
      ensures SharesMark(segments, j) <==> segments[j].isShared || segments[j].ownerId.Some?
    {
      MarkedExactly(segments, j);
      MarksAreRootIndices(segments, j);
    }
  }
}
