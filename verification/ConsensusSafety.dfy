/** What the consensus engine keeps over whole runs. */
module ConsensusSafety {
  import opened Collections
  import opened Blocks
  import opened Consensus
  import Proposer

  ghost predicate LegalRun(validators: Proposer.Stakes, es: seq<Event>) {
    forall i | 0 <= i < |es| :: Legal(validators, es[i])
  }

  /** The state after a run of events from an empty engine. */
  function Run(cfg: Config, validators: Proposer.Stakes, es: seq<Event>): (s: State)
    requires LegalRun(validators, es)
    ensures s.validators == validators
  {
    if es == [] then Initial(validators)
    else Step(cfg, Run(cfg, validators, es[..|es| - 1]), es[|es| - 1])
  }

  /** The voter an event adds to the counted votes for `h`. */
  function Counted(cfg: Config, s: State, e: Event, h: Hash): set<string> {
    if e.SubmitVote? && e.blockHash == h && Counts(cfg, s, e.validator, h) then {e.validator} else {}
  }

  /** Everyone whose vote for `h` was ever counted, resets and clean-ups notwithstanding. */
  function Voters(cfg: Config, validators: Proposer.Stakes, es: seq<Event>, h: Hash): set<string>
    requires LegalRun(validators, es)
  {
    if es == [] then {}
    else
      var before := es[..|es| - 1];
      Voters(cfg, validators, before, h) + Counted(cfg, Run(cfg, validators, before), es[|es| - 1], h)
  }

  lemma {:induction false} VotersAreValid(cfg: Config, validators: Proposer.Stakes, es: seq<Event>, h: Hash)
    requires LegalRun(validators, es)
    ensures forall v | v in Voters(cfg, validators, es, h) :: v in validators && validators[v] >= cfg.stakeThreshold
    ensures Voters(cfg, validators, es, h) <= validators.Keys
  {
    if es != [] {
      VotersAreValid(cfg, validators, es[..|es| - 1], h);
    }
  }

  /** Only a submitted block, a counted vote and a clean-up touch the ballot. */
  lemma BallotFrame(cfg: Config, s: State, e: Event)
    requires Legal(s.validators, e)
    ensures var t := Step(cfg, s, e);
            && (e.ProcessTransaction? || e.ProcessRound? ==>
                  t.pendingBlocks == s.pendingBlocks && t.votes == s.votes && t.finalizedBlocks == s.finalizedBlocks)
            && (e.Cleanup? ==> t.pendingBlocks == s.pendingBlocks && t.finalizedBlocks == s.finalizedBlocks)
            && (e.ProcessBlock? ==> t.finalizedBlocks == s.finalizedBlocks)
  {
  }

  /** No pending block ever holds a quorum, and each can be voted on. */
  lemma {:induction false} PendingLacksQuorum(cfg: Config, validators: Proposer.Stakes, es: seq<Event>, h: Hash)
    requires LegalRun(validators, es)
    ensures var s := Run(cfg, validators, es);
            h in s.pendingBlocks ==>
              h in s.votes && s.pendingBlocks[h].Hash() == h && 3 * |s.votes[h]| <= 2 * |validators|
  {
    if es != [] {
      var before := es[..|es| - 1];
      PendingLacksQuorum(cfg, validators, before, h);
      BallotFrame(cfg, Run(cfg, validators, before), es[|es| - 1]);
    }
  }

  lemma VotesStep(cfg: Config, s: State, e: Event, h: Hash, counted: set<string>)
    requires Legal(s.validators, e)
    requires h in s.votes ==> s.votes[h] <= counted
    ensures var t := Step(cfg, s, e);
            h in t.votes ==> t.votes[h] <= counted + Counted(cfg, s, e, h)
  {
    BallotFrame(cfg, s, e);
  }

  /** Live vote sets only hold votes that were counted. */
  lemma {:induction false} LiveVotesWereCounted(cfg: Config, validators: Proposer.Stakes, es: seq<Event>, h: Hash)
    requires LegalRun(validators, es)
    ensures var s := Run(cfg, validators, es);
            h in s.votes ==> s.votes[h] <= Voters(cfg, validators, es, h)
  {
    if es != [] {
      var before := es[..|es| - 1];
      LiveVotesWereCounted(cfg, validators, before, h);
      VotesStep(cfg, Run(cfg, validators, before), es[|es| - 1], h, Voters(cfg, validators, before, h));
    }
  }

  /** Every finalised block was voted for by more than two thirds of the validators. */
  lemma {:induction false} FinalizedWasVoted(cfg: Config, validators: Proposer.Stakes, es: seq<Event>, n: nat)
    requires LegalRun(validators, es)
    ensures var s := Run(cfg, validators, es);
            n in s.finalizedBlocks ==>
              && s.finalizedBlocks[n].header.number == n
              && CheckConsensus(|Voters(cfg, validators, es, s.finalizedBlocks[n].Hash())|, |validators|)
  {
    if es != [] {
      var before, last := es[..|es| - 1], es[|es| - 1];
      var s, t := Run(cfg, validators, before), Run(cfg, validators, es);
      FinalizedWasVoted(cfg, validators, before, n);
      BallotFrame(cfg, s, last);
      if n in t.finalizedBlocks {
        var h := t.finalizedBlocks[n].Hash();
        if n in s.finalizedBlocks && t.finalizedBlocks[n] == s.finalizedBlocks[n] {
          SubsetCard(Voters(cfg, validators, before, h), Voters(cfg, validators, es, h));
        } else {
          PendingLacksQuorum(cfg, validators, before, last.blockHash);
          LiveVotesWereCounted(cfg, validators, es, h);
          SubsetCard(t.votes[h], Voters(cfg, validators, es, h));
        }
      }
    }
  }

  lemma {:induction false} VotersGrow(cfg: Config, validators: Proposer.Stakes, es: seq<Event>, i: nat, h: Hash)
    requires LegalRun(validators, es) && i <= |es|
    ensures Voters(cfg, validators, es[..i], h) <= Voters(cfg, validators, es, h)
  {
    if i == |es| {
      assert es[..i] == es;
    } else {
      var before := es[..|es| - 1];
      VotersGrow(cfg, validators, before, i, h);
      assert before[..i] == es[..i];
    }
  }

  /** After the first i events, the block finalised at height n has hash h. */
  ghost predicate FinalizedAt(cfg: Config, validators: Proposer.Stakes, es: seq<Event>, i: nat, n: nat, h: Hash) {
    && LegalRun(validators, es) && i <= |es|
    && LegalRun(validators, es[..i])
    && var finalized := Run(cfg, validators, es[..i]).finalizedBlocks;
       n in finalized && finalized[n].Hash() == h
  }

  /** Finalisation rests on more than two thirds of the whole run's voters. */
  lemma FinalizedHasQuorum(cfg: Config, validators: Proposer.Stakes, es: seq<Event>, i: nat, n: nat, h: Hash)
    requires FinalizedAt(cfg, validators, es, i, n, h)
    ensures h.HeaderHash? && h.header.number == n
    ensures 3 * |Voters(cfg, validators, es, h)| > 2 * |validators|
  {
    FinalizedWasVoted(cfg, validators, es[..i], n);
    VotersGrow(cfg, validators, es, i, h);
    SubsetCard(Voters(cfg, validators, es[..i], h), Voters(cfg, validators, es, h));
  }

  /** Accountable safety: blocks with two hashes finalised at one height, at whatever two moments
      of a run, share more than a third of all validators as voters for both. */
  lemma AccountableSafety(
      cfg: Config, validators: Proposer.Stakes, es: seq<Event>, i: nat, j: nat, n: nat, h: Hash, g: Hash)
    requires FinalizedAt(cfg, validators, es, i, n, h) && FinalizedAt(cfg, validators, es, j, n, g) && h != g
    ensures 3 * |Voters(cfg, validators, es, h) * Voters(cfg, validators, es, g)| > |validators|
    ensures Voters(cfg, validators, es, h) * Voters(cfg, validators, es, g) <= Equivocators(cfg, validators, es, n)
  {
    FinalizedHasQuorum(cfg, validators, es, i, n, h);
    FinalizedHasQuorum(cfg, validators, es, j, n, g);
    VotersAreValid(cfg, validators, es, h);
    VotersAreValid(cfg, validators, es, g);
    OverlapBound(Voters(cfg, validators, es, h), Voters(cfg, validators, es, g), validators.Keys);
    forall v | v in Voters(cfg, validators, es, h) * Voters(cfg, validators, es, g)
      ensures v in Equivocators(cfg, validators, es, n)
    {
      assert VotedForBoth(cfg, validators, es, n, v, h, g);
    }
  }

  ghost predicate VotedForBoth(
      cfg: Config, validators: Proposer.Stakes, es: seq<Event>, n: nat, v: string, h: Hash, g: Hash)
    requires LegalRun(validators, es)
  {
    && h.HeaderHash? && g.HeaderHash? && h.header.number == n == g.header.number && h != g
    && v in Voters(cfg, validators, es, h) && v in Voters(cfg, validators, es, g)
  }

  /** Validators whose votes counted for two different headers at height `n`. */
  ghost function Equivocators(cfg: Config, validators: Proposer.Stakes, es: seq<Event>, n: nat): set<string>
    requires LegalRun(validators, es)
  {
    set v | v in validators.Keys && exists h, g :: VotedForBoth(cfg, validators, es, n, v, h, g)
  }

  lemma StepKeepsHeight(cfg: Config, s: State, e: Event, n: nat)
    requires Legal(s.validators, e) && n in s.finalizedBlocks
    ensures n in Step(cfg, s, e).finalizedBlocks
  {
    BallotFrame(cfg, s, e);
  }

  lemma {:induction false} FinalizedHeightsStay(
      cfg: Config, validators: Proposer.Stakes, es: seq<Event>, i: nat, n: nat)
    requires LegalRun(validators, es) && i <= |es|
    requires n in Run(cfg, validators, es[..i]).finalizedBlocks
    ensures n in Run(cfg, validators, es).finalizedBlocks
  {
    if i == |es| {
      assert es[..i] == es;
    } else {
      var before := es[..|es| - 1];
      assert before[..i] == es[..i];
      FinalizedHeightsStay(cfg, validators, before, i, n);
      StepKeepsHeight(cfg, Run(cfg, validators, before), es[|es| - 1], n);
    }
  }

  /** While at most a third of the validators equivocate at a height, the header finalised
      there never changes again. */
  lemma FinalizedHeaderIsStable(cfg: Config, validators: Proposer.Stakes, es: seq<Event>, i: nat, n: nat, h: Hash)
    requires FinalizedAt(cfg, validators, es, i, n, h)
    requires 3 * |Equivocators(cfg, validators, es, n)| <= |validators|
    ensures FinalizedAt(cfg, validators, es, |es|, n, h)
  {
    FinalizedHeightsStay(cfg, validators, es, i, n);
    assert es[..|es|] == es;
    var g := Run(cfg, validators, es).finalizedBlocks[n].Hash();
    if h != g {
      AccountableSafety(cfg, validators, es, i, |es|, n, h, g);
      SubsetCard(Voters(cfg, validators, es, h) * Voters(cfg, validators, es, g), Equivocators(cfg, validators, es, n));
    }
  }

  // ---------- Exact finalisation of one proposal ----------

  /** The distinct valid validators named by votes for `h` in `es`, in no particular order. */
  function Supporters(cfg: Config, validators: Proposer.Stakes, es: seq<Event>, h: Hash): set<string> {
    set e | e in es && e.SubmitVote? && e.blockHash == h
            && e.validator in validators && validators[e.validator] >= cfg.stakeThreshold
      :: e.validator
  }

  /** `es` is a run in which `block` was last (re)submitted at position k. */
  ghost predicate LastSubmitted(validators: Proposer.Stakes, es: seq<Event>, k: nat, block: Block) {
    && LegalRun(validators, es)
    && k < |es|
    && es[k] == Event.ProcessBlock(block)
    && forall i | k < i < |es| && es[i].ProcessBlock? :: es[i].block.Hash() != block.Hash()
  }

  /** The voter an event adds to the supporters of `h`. */
  function Support(cfg: Config, validators: Proposer.Stakes, e: Event, h: Hash): set<string> {
    if e.SubmitVote? && e.blockHash == h
       && e.validator in validators && validators[e.validator] >= cfg.stakeThreshold
    then {e.validator} else {}
  }

  /** `block` is pending, or has left with a quorum behind it; its vote set, which a pending block
      always has, is exactly `support`. */
  ghost predicate Tallied(s: State, block: Block, support: set<string>) {
    var h := block.Hash();
    && (h in s.votes ==> s.votes[h] == support)
    && if 3 * |support| > 2 * |s.validators| then h !in s.pendingBlocks
       else h in s.pendingBlocks && s.pendingBlocks[h] == block && h in s.votes
  }

  lemma TallyVote(cfg: Config, s: State, validator: string, block: Block, support: set<string>)
    requires IsValidValidator(cfg, s.validators, validator)
    requires Tallied(s, block, support)
    ensures Tallied(VoteSubmitted(cfg, s, validator, block.Hash()), block, support + {validator})
  {
    SubsetCard(support, support + {validator});
  }

  lemma TallyFrame(cfg: Config, s: State, e: Event, h: Hash)
    requires Legal(s.validators, e)
    requires e.ProcessBlock? ==> e.block.Hash() != h
    requires Support(cfg, s.validators, e, h) == {}
    ensures var t := Step(cfg, s, e);
            && (h in t.pendingBlocks <==> h in s.pendingBlocks)
            && (h in s.pendingBlocks ==> t.pendingBlocks[h] == s.pendingBlocks[h])
            && (h in s.pendingBlocks && h in s.votes ==> h in t.votes)
            && (h in t.votes ==> h in s.votes && t.votes[h] == s.votes[h])
  {
    BallotFrame(cfg, s, e);
  }

  lemma TallyStep(cfg: Config, s: State, e: Event, block: Block, support: set<string>)
    requires Legal(s.validators, e)
    requires e.ProcessBlock? ==> e.block.Hash() != block.Hash()
    requires Tallied(s, block, support)
    ensures Tallied(Step(cfg, s, e), block, support + Support(cfg, s.validators, e, block.Hash()))
  {
    if Support(cfg, s.validators, e, block.Hash()) == {} {
      TallyFrame(cfg, s, e, block.Hash());
      assert support + {} == support;
    } else {
      TallyVote(cfg, s, e.validator, block, support);
    }
  }

  /** From its last submission on, a block is pending exactly as long as its distinct valid
      supporters do not exceed two thirds: duplicate votes, invalid voters, votes for other blocks,
      rounds and clean-ups make no difference, nor does the order of the votes. Votes go on being
      added to its vote set after it has left, until a clean-up drops the set. */
  lemma {:induction false} PendingUntilQuorum(
      cfg: Config, validators: Proposer.Stakes, es: seq<Event>, k: nat, block: Block)
    requires LastSubmitted(validators, es, k, block)
    ensures var s := Run(cfg, validators, es);
            var h := block.Hash();
            && Tallied(s, block, Supporters(cfg, validators, es[k + 1..], h))
            && (h in s.pendingBlocks <==> 3 * |Supporters(cfg, validators, es[k + 1..], h)| <= 2 * |validators|)
            && (h in s.votes ==> s.votes[h] == Supporters(cfg, validators, es[k + 1..], h))
            && (h in s.pendingBlocks ==> h in s.votes && s.pendingBlocks[h] == block)
  {
    var h := block.Hash();
    if k == |es| - 1 {
      assert es[k + 1..] == [];
      assert Supporters(cfg, validators, [], h) == {};
    } else {
      var before := es[..|es| - 1];
      var last := es[|es| - 1];
      assert LastSubmitted(validators, before, k, block) by {
        assert forall i | k < i < |before| :: before[i] == es[i];
      }
      PendingUntilQuorum(cfg, validators, before, k, block);
      assert es[k + 1..] == before[k + 1..] + [last];
      SupportersStep(cfg, validators, before[k + 1..], last, h);
      TallyStep(cfg, Run(cfg, validators, before), last, block, Supporters(cfg, validators, before[k + 1..], h));
    }
  }

  lemma SupportersStep(cfg: Config, validators: Proposer.Stakes, es: seq<Event>, last: Event, h: Hash)
    ensures Supporters(cfg, validators, es + [last], h)
         == Supporters(cfg, validators, es, h)
            + Support(cfg, validators, last, h)
  {
    forall v | v in Supporters(cfg, validators, es, h)
      ensures v in Supporters(cfg, validators, es + [last], h)
    {
      var e :| e in es && e.SubmitVote? && e.blockHash == h && e.validator == v
               && e.validator in validators && validators[e.validator] >= cfg.stakeThreshold;
      assert e in es + [last];
    }
    assert last in es + [last];
  }

  /** The vote that first completes the two thirds finalises exactly that block, at exactly its
      own height, and no other event touches the finalised blocks for it. */
  lemma QuorumFinalizes(cfg: Config, validators: Proposer.Stakes, es: seq<Event>, last: Event, k: nat, block: Block)
    requires LastSubmitted(validators, es, k, block) && LegalRun(validators, es + [last])
    requires 3 * |Supporters(cfg, validators, es[k + 1..], block.Hash())| <= 2 * |validators|
    requires 3 * |Supporters(cfg, validators, es[k + 1..] + [last], block.Hash())| > 2 * |validators|
    ensures Run(cfg, validators, es + [last]).finalizedBlocks
         == Run(cfg, validators, es).finalizedBlocks[block.header.number := block]
    ensures Run(cfg, validators, es + [last]).pendingBlocks
         == Run(cfg, validators, es).pendingBlocks - {block.Hash()}
  {
    PendingUntilQuorum(cfg, validators, es, k, block);
    SupportersStep(cfg, validators, es[k + 1..], last, block.Hash());
    assert (es + [last])[..|es + [last]| - 1] == es;
  }

  /** Finalised blocks change only when a pending block leaves: every change is one insertion of
      the pending block whose vote set the event completed. */
  lemma FinalizationComesFromPending(cfg: Config, validators: Proposer.Stakes, es: seq<Event>, last: Event)
    requires LegalRun(validators, es + [last])
    ensures LegalRun(validators, es)
    ensures var s := Run(cfg, validators, es);
            var t := Run(cfg, validators, es + [last]);
            t.finalizedBlocks == s.finalizedBlocks
            || (&& last.SubmitVote?
                && last.blockHash in s.pendingBlocks && last.blockHash !in t.pendingBlocks
                && last.blockHash in s.votes
                && 3 * |s.votes[last.blockHash] + {last.validator}| > 2 * |validators|
                && var block := s.pendingBlocks[last.blockHash];
                   t.finalizedBlocks == s.finalizedBlocks[block.header.number := block])
  {
    assert LegalRun(validators, es) by {
      assert forall i | 0 <= i < |es| :: (es + [last])[i] == es[i];
    }
    assert (es + [last])[..|es + [last]| - 1] == es;
    assert Legal(validators, (es + [last])[|es|]);
    BallotFrame(cfg, Run(cfg, validators, es), last);
  }

  // ---------- Transactions ----------

  /** Transactions submitted by a run, oldest first. */
  function Submitted(es: seq<Event>): seq<Transaction> {
    if es == [] then []
    else
      var last := es[|es| - 1];
      Submitted(es[..|es| - 1]) + (if last.ProcessTransaction? then [last.transaction] else [])
  }

  function TotalSize(transactions: seq<Transaction>): nat {
    if transactions == [] then 0 else transactions[0].SerializedSize() + TotalSize(transactions[1..])
  }

  /** What one event does to the transaction queue: append, or drop from the front. */
  lemma QueueStep(cfg: Config, s: State, e: Event) returns (dropped: nat)
    requires Legal(s.validators, e)
    ensures var t := Step(cfg, s, e);
            if e.ProcessTransaction? then t.pendingTransactions == s.pendingTransactions + [e.transaction]
            else dropped <= |s.pendingTransactions| && t.pendingTransactions == s.pendingTransactions[dropped..]
  {
    dropped := if e.ProcessTransaction? then 0
               else |s.pendingTransactions| - |Step(cfg, s, e).pendingTransactions|;
  }

  /** Nothing overtakes, repeats or is invented: the pending transactions are the most recent
      ones submitted, in order. */
  lemma {:induction false} PendingIsSubmittedSuffix(cfg: Config, validators: Proposer.Stakes, es: seq<Event>)
    returns (gone: nat)
    requires LegalRun(validators, es)
    ensures gone <= |Submitted(es)|
    ensures Run(cfg, validators, es).pendingTransactions == Submitted(es)[gone..]
  {
    if es == [] {
      gone := 0;
    } else {
      var before, last := es[..|es| - 1], es[|es| - 1];
      gone := PendingIsSubmittedSuffix(cfg, validators, before);
      var dropped := QueueStep(cfg, Run(cfg, validators, before), last);
      if last.ProcessTransaction? {
        assert Submitted(es)[gone..] == Submitted(before)[gone..] + [last.transaction];
      } else {
        gone := gone + dropped;
      }
    }
  }

  /** A clean-up keeps exactly the vote sets of pending blocks, and drops only the oldest
      transactions, only beyond ten thousand. */
  lemma CleanupKeeps(s: State)
    ensures var t := CleanedUp(s);
            && (forall h :: h in t.votes <==> h in s.votes && h in s.pendingBlocks)
            && (forall h | h in t.votes :: t.votes[h] == s.votes[h])
            && (exists gone: nat ::
                  && gone <= |s.pendingTransactions| && t.pendingTransactions == s.pendingTransactions[gone..]
                  && (gone > 0 ==> |t.pendingTransactions| == 10000))
            && |t.pendingTransactions| <= 10000
  {
    var gone := if |s.pendingTransactions| <= 10000 then 0 else |s.pendingTransactions| - 10000;
    assert CleanedUp(s).pendingTransactions == s.pendingTransactions[gone..];
  }

  lemma {:induction false} FittingIsMaximal(queue: seq<Transaction>, room: int)
    ensures var n := FittingCount(queue, room);
            && (n > 0 ==> TotalSize(queue[..n]) <= room)
            && (n < |queue| ==> TotalSize(queue[..n + 1]) > room)
  {
    if queue != [] && queue[0].SerializedSize() <= room {
      var n := FittingCount(queue, room);
      FittingIsMaximal(queue[1..], room - queue[0].SerializedSize());
      assert queue[..n][1..] == queue[1..][..n - 1];
      if n < |queue| {
        assert queue[..n + 1][1..] == queue[1..][..n];
      }
    } else if queue != [] {
      assert queue[..1] == [queue[0]];
    }
  }

  /** create_block takes the longest prefix of the queue that fits, leaves the rest, and builds a
      block that verifies exactly when every transaction it took is signed. */
  lemma BlockPacking(cfg: Config, s: State, proposer: string, timestamp: nat)
    ensures var (t, block) := BlockCreated(cfg, s, proposer, timestamp);
            && block.transactions + t.pendingTransactions == s.pendingTransactions
            && TotalSize(block.transactions) <= cfg.maxBlockSize
            && (t.pendingTransactions != [] ==>
                  TotalSize(block.transactions + [t.pendingTransactions[0]]) > cfg.maxBlockSize)
            && (block.Verify() <==> forall tx | tx in block.transactions :: tx.signature.Some?)
            && block.header.number == s.height + 1 && block.header.author == proposer
            && block.header.timestamp == timestamp
            && block.header.stateRoot == block.header.receiptsRoot == DefaultHash
            && block.stateRoot == block.receiptsRoot == DefaultHash
            && block.header.parentHash == (if s.height in s.finalizedBlocks then s.finalizedBlocks[s.height].Hash()
                                           else DefaultHash)
            && t == s.(pendingTransactions := t.pendingTransactions)
  {
    var n := FittingCount(s.pendingTransactions, cfg.maxBlockSize);
    FittingIsMaximal(s.pendingTransactions, cfg.maxBlockSize);
    assert TotalSize([]) == 0;
    if n < |s.pendingTransactions| {
      assert s.pendingTransactions[..n + 1] == s.pendingTransactions[..n] + [s.pendingTransactions[n]];
    }
  }

  // ---------- Rounds ----------

  /** Rounds processed by a run. */
  function Rounds(es: seq<Event>): nat {
    if es == [] then 0 else Rounds(es[..|es| - 1]) + (if es[|es| - 1].ProcessRound? then 1 else 0)
  }

  lemma RoundFrame(cfg: Config, s: State, e: Event)
    requires Legal(s.validators, e)
    ensures var t := Step(cfg, s, e);
            && t.height == s.height
            && t.round == if e.ProcessRound? && s.round + 1 < U64_LIMIT then s.round + 1 else s.round
  {
  }

  /** The round counter is the number of rounds processed, until it would overflow; and the height
      never moves, whatever is finalised. */
  lemma {:induction false} RoundsAreCounted(cfg: Config, validators: Proposer.Stakes, es: seq<Event>)
    requires LegalRun(validators, es)
    ensures var s := Run(cfg, validators, es);
            && s.round == (if Rounds(es) < U64_LIMIT then Rounds(es) else U64_LIMIT - 1)
            && s.height == 0
  {
    if es != [] {
      RoundsAreCounted(cfg, validators, es[..|es| - 1]);
      RoundFrame(cfg, Run(cfg, validators, es[..|es| - 1]), es[|es| - 1]);
    }
  }

  /** So every block assembled in any run has number one, and only a block finalised at height zero
      can be its parent. */
  lemma AssembledIsNumberOne(
      cfg: Config, validators: Proposer.Stakes, es: seq<Event>, proposer: string, timestamp: nat)
    requires LegalRun(validators, es)
    ensures var s := Run(cfg, validators, es);
            var block := BlockCreated(cfg, s, proposer, timestamp).1;
            && block.header.number == 1
            && block.header.parentHash == (if 0 in s.finalizedBlocks then s.finalizedBlocks[0].Hash() else DefaultHash)
  {
    RoundsAreCounted(cfg, validators, es);
    BlockPacking(cfg, Run(cfg, validators, es), proposer, timestamp);
  }

  /** `left` is what remains of a queue once the longest prefix that fits is taken off. */
  ghost predicate Takes(queue: seq<Transaction>, left: seq<Transaction>, room: nat) {
    exists n: nat :: n <= |queue| && left == queue[n..] && IsLongestFit(queue, n, room)
  }

  predicate IsLongestFit(queue: seq<Transaction>, n: nat, room: nat)
    requires n <= |queue|
  {
    TotalSize(queue[..n]) <= room && (n < |queue| ==> TotalSize(queue[..n + 1]) > room)
  }

  /** A round succeeds exactly when the round it counts to selects a proposer. Then it takes the
      longest prefix that fits off the queue, and as no block becomes pending or final, those
      transactions are gone. Nothing else changes. */
  lemma RoundExactly(cfg: Config, s: State, order: seq<string>, timestamp: nat)
    requires Enumerates(order, s.validators.Keys) && s.round + 1 < U64_LIMIT
    ensures forall a | a in order :: a in s.validators
    ensures var (t, status) := RoundProcessed(cfg, s, order, timestamp);
            var selection := Proposer.Select(order, s.validators, s.round + 1);
            && t == s.(round := s.round + 1, pendingTransactions := t.pendingTransactions)
            && status == (if selection.Panic? then Panic else if selection.Selected? then Ok else NoProposer)
            && (if selection.Selected? then Takes(s.pendingTransactions, t.pendingTransactions, cfg.maxBlockSize)
                else t.pendingTransactions == s.pendingTransactions)
  {
    Proposer.EnumeratedKeys(order, s.validators);
    var s1 := s.(round := s.round + 1);
    match Proposer.Select(order, s.validators, s1.round)
    case Panic => assert RoundProcessed(cfg, s, order, timestamp) == (s1, Panic);
    case NoProposer => assert RoundProcessed(cfg, s, order, timestamp) == (s1, NoProposer);
    case Selected(proposer) =>
      PackingTakes(cfg, s1, proposer, timestamp);
      assert RoundProcessed(cfg, s, order, timestamp) == (BlockCreated(cfg, s1, proposer, timestamp).0, Ok);
  }

  lemma PackingTakes(cfg: Config, s: State, proposer: string, timestamp: nat)
    ensures var t := BlockCreated(cfg, s, proposer, timestamp).0;
            && t == s.(pendingTransactions := t.pendingTransactions)
            && Takes(s.pendingTransactions, t.pendingTransactions, cfg.maxBlockSize)
  {
    FittingIsMaximal(s.pendingTransactions, cfg.maxBlockSize);
    assert IsLongestFit(s.pendingTransactions, FittingCount(s.pendingTransactions, cfg.maxBlockSize), cfg.maxBlockSize);
  }
}
