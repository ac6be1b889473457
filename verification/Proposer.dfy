/** Stake-weighted proposer choice (select_proposer in src/network/consensus.rs). */
module Proposer {
  import opened Collections
  import opened Divisibility

  /** Stake per validator address. */
  type Stakes = map<string, u64>

  datatype Selection = Selected(address: string) | NoProposer | Panic

  function StakeSum(order: seq<string>, stakes: Stakes): nat
    requires forall a | a in order :: a in stakes
  {
    if order == [] then 0 else stakes[order[0]] + StakeSum(order[1..], stakes)
  }

  /** Walk the validators in `order`, spending each stake, until `value` falls inside one. */
  function Walk(order: seq<string>, stakes: Stakes, value: nat): Selection
    requires forall a | a in order :: a in stakes
  {
    if order == [] then NoProposer
    else if value < stakes[order[0]] then Selected(order[0])
    else Walk(order[1..], stakes, value - stakes[order[0]])
  }

  /** round * total modulo the number of validators. */
  function Reduced(round: nat, total: nat, validators: nat): (value: nat)
    requires validators > 0
  {
    round * total % validators
  }

  /** The whole selection. Summing past u64 and reducing modulo zero validators both panic. */
  function Select(order: seq<string>, stakes: Stakes, round: u64): Selection
    requires forall a | a in order :: a in stakes
  {
    if StakeSum(order, stakes) >= U64_LIMIT || order == [] then Panic
    else Walk(order, stakes, Reduced(round, StakeSum(order, stakes), |order|))
  }

  /** The loop of select_proposer. */
  method SelectProposer(order: seq<string>, stakes: Stakes, round: u64) returns (r: Selection)
    requires Enumerates(order, stakes.Keys)
    ensures r == Select(order, stakes, round)
  {
    EnumeratedKeys(order, stakes);
    var total: int := 0;
    for i := 0 to |order|
      invariant 0 <= total < U64_LIMIT
      invariant total + StakeSum(order[i..], stakes) == StakeSum(order, stakes)
    {
      total := total + stakes[order[i]];
      if total >= U64_LIMIT {
        return Panic;
      }
    }
    if |order| == 0 {
      return Panic;
    }
    ProductFits(round, total);
    var value: int := Reduced(round, total, |order|);
    ghost var start := value;
    for i := 0 to |order|
      invariant 0 <= value
      invariant Walk(order[i..], stakes, value) == Walk(order, stakes, start)
    {
      if value < stakes[order[i]] {
        return Selected(order[i]);
      }
      value := value - stakes[order[i]];
    }
    return NoProposer;
  }

  lemma EnumeratedKeys(order: seq<string>, stakes: Stakes)
    requires Enumerates(order, stakes.Keys)
    ensures forall a | a in order :: a in stakes
  {
    EnumeratedMembers(order, stakes.Keys);
  }

  /** The u128 product of a u64 round and a u64 stake total cannot overflow. */
  lemma ProductFits(round: u64, total: int)
    requires 0 <= total < U64_LIMIT
    ensures 0 <= round * total < U64_LIMIT * U64_LIMIT
  {
    if round > 0 && total > 0 {
      assert round * total <= round * U64_LIMIT;
    }
  }

  /** Stake held by the validators before position `i`. */
  function Before(order: seq<string>, stakes: Stakes, i: nat): nat
    requires i <= |order|
    requires forall a | a in order :: a in stakes
  {
    StakeSum(order[..i], stakes)
  }

  lemma {:induction false} BeforeStep(order: seq<string>, stakes: Stakes, i: nat)
    requires i < |order|
    requires forall a | a in order :: a in stakes
    ensures Before(order, stakes, i + 1) == Before(order, stakes, i) + stakes[order[i]]
  {
    if i == 0 {
      assert order[..1] == [order[0]];
    } else {
      assert order[1..][..i] == order[..i + 1][1..];
      assert order[1..][..i - 1] == order[..i][1..];
      BeforeStep(order[1..], stakes, i - 1);
    }
  }

  lemma {:induction false} BeforeMonotone(order: seq<string>, stakes: Stakes, i: nat, j: nat)
    requires i <= j <= |order|
    requires forall a | a in order :: a in stakes
    ensures Before(order, stakes, i) <= Before(order, stakes, j)
    decreases j - i
  {
    if i < j {
      BeforeStep(order, stakes, j - 1);
      BeforeMonotone(order, stakes, i, j - 1);
    }
  }

  /** The walk stops in the interval that holds its value. */
  lemma {:induction false} WalkLandsIn(order: seq<string>, stakes: Stakes, value: nat) returns (i: nat)
    requires forall a | a in order :: a in stakes
    ensures i <= |order|
    ensures i == |order| <==> value >= StakeSum(order, stakes)
    ensures i == |order| ==> Walk(order, stakes, value) == NoProposer
    ensures i < |order| ==>
              && Walk(order, stakes, value) == Selected(order[i])
              && Before(order, stakes, i) <= value < Before(order, stakes, i) + stakes[order[i]]
  {
    if order == [] {
      i := 0;
    } else if value < stakes[order[0]] {
      i := 0;
    } else {
      var k := WalkLandsIn(order[1..], stakes, value - stakes[order[0]]);
      i := k + 1;
      if k < |order[1..]| {
        assert order[1..][..k] == order[..k + 1][1..];
      }
    }
  }

  /** Taking position i out takes its stake out. */
  lemma {:induction false} StakeSumWithout(order: seq<string>, stakes: Stakes, i: nat)
    requires i < |order|
    requires forall a | a in order :: a in stakes
    ensures StakeSum(order, stakes) == stakes[order[i]] + StakeSum(order[..i] + order[i + 1..], stakes)
  {
    if i == 0 {
      assert order[..0] + order[1..] == order[1..];
    } else {
      StakeSumWithout(order[1..], stakes, i - 1);
      var others := order[..i] + order[i + 1..];
      assert others[0] == order[0] && others[1..] == order[1..][..i - 1] + order[1..][i..];
    }
  }

  lemma RemainderEnumerates(order: seq<string>, keys: set<string>, i: nat)
    requires Enumerates(order, keys) && i < |order|
    ensures Enumerates(order[..i] + order[i + 1..], keys - {order[i]})
  {
    EnumeratedMembers(order, keys);
    var rest := order[..i] + order[i + 1..];
    assert order == order[..i] + [order[i]] + order[i + 1..];
    forall k
      ensures k in rest <==> k in keys - {order[i]}
    {
      assert k in order <==> k in rest || k == order[i];
      if k in rest {
        var j :| 0 <= j < |rest| && rest[j] == k;
        assert k == order[if j < i then j else j + 1];
      }
    }
    assert (set k | k in rest) == keys - {order[i]};
  }

  /** The total stake does not depend on the enumeration order. */
  lemma {:induction false} StakeSumIsOrderFree(
      order: seq<string>, other: seq<string>, stakes: Stakes, keys: set<string>)
    requires keys <= stakes.Keys && Enumerates(order, keys) && Enumerates(other, keys)
    ensures forall a | a in order :: a in stakes
    ensures forall a | a in other :: a in stakes
    ensures StakeSum(order, stakes) == StakeSum(other, stakes)
    decreases |order|
  {
    EnumeratedMembers(order, keys);
    EnumeratedMembers(other, keys);
    DistinctCount(order);
    DistinctCount(other);
    if order != [] {
      var x := order[0];
      assert x in other;
      var i :| 0 <= i < |other| && other[i] == x;
      var rest := other[..i] + other[i + 1..];
      StakeSumWithout(other, stakes, i);
      RemainderEnumerates(order, keys, 0);
      RemainderEnumerates(other, keys, i);
      assert order[..0] + order[1..] == order[1..];
      StakeSumIsOrderFree(order[1..], rest, stakes, keys - {x});
    }
  }

  /** The values below the total stake that select `address`. */
  ghost function ValuesSelecting(order: seq<string>, stakes: Stakes, address: string): set<int>
    requires forall a | a in order :: a in stakes
  {
    set value: int | 0 <= value < StakeSum(order, stakes) && Walk(order, stakes, value) == Selected(address)
  }

  /** The walk partitions 0..total: a validator is selected by exactly the values of its own
      stake interval, so exactly `stake` times. */
  lemma StakePartition(order: seq<string>, stakes: Stakes, i: nat)
    requires Enumerates(order, stakes.Keys) && i < |order|
    ensures forall a | a in order :: a in stakes
    ensures forall value: nat ::
              Walk(order, stakes, value) == Selected(order[i])
              <==> Before(order, stakes, i) <= value < Before(order, stakes, i) + stakes[order[i]]
    ensures |ValuesSelecting(order, stakes, order[i])| == stakes[order[i]]
  {
    EnumeratedKeys(order, stakes);
    var lo := Before(order, stakes, i);
    var hi := lo + stakes[order[i]];
    BeforeStep(order, stakes, i);
    BeforeMonotone(order, stakes, i + 1, |order|);
    assert order[..|order|] == order;
    forall value: nat
      ensures Walk(order, stakes, value) == Selected(order[i]) <==> lo <= value < hi
    {
      var k := WalkLandsIn(order, stakes, value);
      if k < i {
        BeforeStep(order, stakes, k);
        BeforeMonotone(order, stakes, k + 1, i);
      } else if i < k < |order| {
        BeforeMonotone(order, stakes, i + 1, k);
      }
    }
    assert ValuesSelecting(order, stakes, order[i]) == Interval(lo, hi);
  }

  /** Values below the total stake always select a validator, and one that has stake. */
  lemma WalkSelectsStaked(order: seq<string>, stakes: Stakes, value: nat)
    requires forall a | a in order :: a in stakes
    ensures value < StakeSum(order, stakes) <==> Walk(order, stakes, value).Selected?
    ensures var r := Walk(order, stakes, value);
            r.Selected? ==> r.address in order && stakes[r.address] > 0
  {
    var i := WalkLandsIn(order, stakes, value);
  }

  /** Which rounds select anyone: the value is the round times the total stake, modulo the number of
      validators. */
  lemma RoundSelects(order: seq<string>, stakes: Stakes, round: u64)
    requires Enumerates(order, stakes.Keys)
    ensures forall a | a in order :: a in stakes
    ensures var total := StakeSum(order, stakes);
            && (Select(order, stakes, round).Panic? <==> total >= U64_LIMIT || order == [])
            && (Select(order, stakes, round).Selected?
                <==> total < U64_LIMIT && order != [] && round * total % |order| < total)
  {
    EnumeratedKeys(order, stakes);
    if order != [] {
      WalkSelectsStaked(order, stakes, Reduced(round, StakeSum(order, stakes), |order|));
      var i := WalkLandsIn(order, stakes, Reduced(round, StakeSum(order, stakes), |order|));
    }
  }

  /** And whom: the validator in whose stake interval that value lies. */
  lemma RoundSelectsAt(order: seq<string>, stakes: Stakes, round: u64, i: nat)
    requires Enumerates(order, stakes.Keys) && i < |order|
    ensures forall a | a in order :: a in stakes
    ensures var lo := Before(order, stakes, i);
            var value := round * StakeSum(order, stakes) % |order|;
            Select(order, stakes, round) == Selected(order[i])
            <==> StakeSum(order, stakes) < U64_LIMIT && lo <= value < lo + stakes[order[i]]
  {
    EnumeratedKeys(order, stakes);
    StakePartition(order, stakes, i);
    var value: nat := Reduced(round, StakeSum(order, stakes), |order|);
    assert Walk(order, stakes, value) == Selected(order[i])
      <==> Before(order, stakes, i) <= value < Before(order, stakes, i) + stakes[order[i]];
  }

  lemma FoundWhenStaked(order: seq<string>, stakes: Stakes, round: u64)
    requires forall a | a in order :: a in stakes
    requires 0 < |order| <= StakeSum(order, stakes) < U64_LIMIT
    ensures Select(order, stakes, round).Selected?
  {
    WalkSelectsStaked(order, stakes, Reduced(round, StakeSum(order, stakes), |order|));
  }

  lemma MissedInFirstRound(order: seq<string>, stakes: Stakes)
    requires forall a | a in order :: a in stakes
    requires StakeSum(order, stakes) < |order|
    ensures !Select(order, stakes, 1).Selected?
  {
    FirstRoundReducesToTotal(StakeSum(order, stakes), |order|);
    var i := WalkLandsIn(order, stakes, StakeSum(order, stakes));
  }

  lemma FirstRoundReducesToTotal(total: nat, validators: nat)
    requires total < validators
    ensures Reduced(1, total, validators) == total
  {
  }

  /** Reducing modulo the number of validators (not the stake) leaves the error unreachable in
      every round from the first on, exactly when there is at least one unit of stake per validator. */
  lemma ProposerAlwaysFound(order: seq<string>, stakes: Stakes)
    requires Enumerates(order, stakes.Keys) && order != []
    ensures forall a | a in order :: a in stakes
    ensures StakeSum(order, stakes) < U64_LIMIT ==>
              ((forall round: u64 | round >= 1 :: Select(order, stakes, round).Selected?)
               <==> StakeSum(order, stakes) >= |order|)
  {
    EnumeratedKeys(order, stakes);
    if StakeSum(order, stakes) < |order| {
      MissedInFirstRound(order, stakes);
      var first: u64 := 1;
      assert !Select(order, stakes, first).Selected?;
    } else if StakeSum(order, stakes) < U64_LIMIT {
      forall round: u64
        ensures Select(order, stakes, round).Selected?
      {
        FoundWhenStaked(order, stakes, round);
      }
    }
  }

  // ---------- Which values the rounds reach ----------

  /** Some round from the first on reduces to `value`. */
  ghost predicate Reached(total: nat, validators: nat, value: nat)
    requires validators > 0
  {
    exists round: u64 :: round >= 1 && Reduced(round, total, validators) == value
  }

  lemma ReachedIsMultiple(round: nat, total: nat, validators: nat)
    requires validators > 0
    ensures Reduced(round, total, validators) % Gcd(total, validators) == 0
  {
    var g := Gcd(total, validators);
    var p, q := GcdDivides(total, validators);
    DifferenceOfMultiples(round, g, p, q, round * total / validators);
    RemainderIs(Reduced(round, total, validators), g, round * p - q * (round * total / validators), 0);
  }

  /** Bezout's coefficient for the total, times the multiple, is the round that reaches it. */
  lemma RoundFor(total: nat, validators: nat, value: nat) returns (round: nat)
    requires validators > 0
    requires value < validators && value % Gcd(total, validators) == 0
    ensures round < validators && Reduced(round, total, validators) == value
  {
    var g := Gcd(total, validators);
    var k := value / g;
    var x, y := Bezout(total, validators);
    Quotient(value, g);
    assert value == g * k;
    var c := x * k / validators;
    round := x * k % validators;
    Quotient(x * k, validators);
    assert round == x * k - validators * c;
    var quotient := -(y * k) - c * total;
    ResidueTimes(x, k, validators, c, total);
    ScaledBezout(total, x, g, validators, y, k);
    Regrouped(validators, y * k, c * total);
    assert round * total == validators * quotient + value;
    RemainderIs(round * total, validators, quotient, value);
  }

  lemma MultipleIsReached(total: nat, validators: nat, value: nat)
    requires 0 < validators < U64_LIMIT
    requires value < validators && value % Gcd(total, validators) == 0
    ensures Reached(total, validators, value)
  {
    var found := RoundFor(total, validators, value);
    var round: u64 := if found == 0 then validators else found;
    if found == 0 {
      RemainderIs(validators * total, validators, total, 0);
    }
    assert Reduced(round, total, validators) == value;
  }

  /** Over all rounds the reduced values are exactly the multiples, below the number of validators,
      of its greatest common divisor with the total stake. */
  lemma ReachedExactly(total: nat, validators: nat, value: nat)
    requires 0 < validators < U64_LIMIT
    ensures Reached(total, validators, value) <==> value < validators && value % Gcd(total, validators) == 0
  {
    if Reached(total, validators, value) {
      var round: u64 :| round >= 1 && Reduced(round, total, validators) == value;
      ReachedIsMultiple(round, total, validators);
    } else if value < validators && value % Gcd(total, validators) == 0 {
      MultipleIsReached(total, validators, value);
    }
  }

  /** Who can ever propose: the validator at position i is selected in some round exactly when the
      first multiple of the greatest common divisor at or above the stake enumerated before it lies
      in its own stake interval and below the number of validators. */
  lemma EverProposes(order: seq<string>, stakes: Stakes, i: nat)
    requires Enumerates(order, stakes.Keys) && i < |order| < U64_LIMIT
    ensures forall a | a in order :: a in stakes
    ensures StakeSum(order, stakes) < U64_LIMIT ==>
              ((exists round: u64 :: round >= 1 && Select(order, stakes, round) == Selected(order[i]))
               <==> var start := NextMultiple(Before(order, stakes, i), Gcd(StakeSum(order, stakes), |order|));
                    start < Before(order, stakes, i) + stakes[order[i]] && start < |order|)
  {
    EnumeratedKeys(order, stakes);
    var total, n := StakeSum(order, stakes), |order|;
    var lo, g := Before(order, stakes, i), Gcd(total, n);
    var start := NextMultiple(lo, g);
    StakePartition(order, stakes, i);
    NextMultipleIsLeast(lo, g);
    if total < U64_LIMIT {
      if round: u64 :| round >= 1 && Select(order, stakes, round) == Selected(order[i]) {
        ReachedIsMultiple(round, total, n);
        var value: nat := Reduced(round, total, n);
        assert Walk(order, stakes, value) == Selected(order[i]);
        assert value >= start;
      }
      if start < lo + stakes[order[i]] && start < n {
        MultipleIsReached(total, n, start);
        var round: u64 :| round >= 1 && Reduced(round, total, n) == start;
        assert Select(order, stakes, round) == Walk(order, stakes, start);
      }
    }
  }

  /** In particular the first validator enumerated proposes in every round exactly when its stake
      exceeds the number of validators less that greatest common divisor. */
  lemma FirstProposesForever(order: seq<string>, stakes: Stakes)
    requires Enumerates(order, stakes.Keys) && 0 < |order| < U64_LIMIT
    ensures forall a | a in order :: a in stakes
    ensures StakeSum(order, stakes) < U64_LIMIT ==>
              ((forall round: u64 | round >= 1 :: Select(order, stakes, round) == Selected(order[0]))
               <==> stakes[order[0]] > |order| - Gcd(StakeSum(order, stakes), |order|))
  {
    EnumeratedKeys(order, stakes);
    var total, n := StakeSum(order, stakes), |order|;
    var g := Gcd(total, n);
    StakePartition(order, stakes, 0);
    LargestMultipleBelow(total, n);
    if total < U64_LIMIT {
      if stakes[order[0]] > n - g {
        forall round: u64 | round >= 1
          ensures Select(order, stakes, round) == Selected(order[0])
        {
          ReachedIsMultiple(round, total, n);
          var value: nat := Reduced(round, total, n);
          assert value <= n - g;
          assert Walk(order, stakes, value) == Selected(order[0]);
        }
      } else {
        MultipleIsReached(total, n, n - g);
        var round: u64 :| round >= 1 && Reduced(round, total, n) == n - g;
        assert Select(order, stakes, round) == Walk(order, stakes, n - g);
        assert Select(order, stakes, round) != Selected(order[0]);
      }
    }
  }

  /** Two validators with the same stake: one proposes in every round, the other never. */
  lemma EqualStakeNeverProposes(round: u64)
    ensures var stakes: Stakes := map["a" := 1000, "b" := 1000];
            Select(["a", "b"], stakes, round) == Selected("a")
  {
    var stakes: Stakes := map["a" := 1000, "b" := 1000];
    var order := ["a", "b"];
    assert order[1..] == ["b"];
    assert StakeSum(order, stakes) == 2000;
    assert Reduced(round, 2000, 2) < 2;
  }
}
