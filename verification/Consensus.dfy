/** The vote and finalisation engine (src/network/consensus.rs): its transitions as functions
    on a value, and the engine object whose methods carry them out in place. */
module Consensus {
  import opened Collections
  import opened Blocks
  import Proposer

  const MAX_PENDING_TRANSACTIONS := 10000

  datatype Config = Config(maxBlockSize: nat, stakeThreshold: u64)

  datatype State = State(
    round: u64,
    height: nat,
    validators: Proposer.Stakes,
    pendingTransactions: seq<Transaction>,
    pendingBlocks: map<Hash, Block>,
    finalizedBlocks: map<nat, Block>,
    votes: map<Hash, set<string>>)

  datatype Status = Ok | InvalidValidator | NoProposer | Panic

  datatype Event =
    | ProcessTransaction(transaction: Transaction)
    | ProcessBlock(block: Block)
    | SubmitVote(validator: string, blockHash: Hash)
    | ProcessRound(order: seq<string>, timestamp: nat)
    | Cleanup

  function Initial(validators: Proposer.Stakes): State {
    State(0, 0, validators, [], map[], map[], map[])
  }

  /** Strictly more than two thirds. */
  predicate CheckConsensus(votes: nat, totalValidators: nat) {
    votes * 3 > totalValidators * 2
  }

  predicate IsValidValidator(cfg: Config, validators: Proposer.Stakes, validator: string) {
    validator in validators && validators[validator] >= cfg.stakeThreshold
  }

  function BlockProcessed(s: State, block: Block): State {
    s.(pendingBlocks := s.pendingBlocks[block.Hash() := block],
       votes := s.votes[block.Hash() := {}])
  }

  /** A vote is counted when its voter is valid and the block has a vote set. */
  predicate Counts(cfg: Config, s: State, validator: string, blockHash: Hash) {
    IsValidValidator(cfg, s.validators, validator) && blockHash in s.votes
  }

  function VoteSubmitted(cfg: Config, s: State, validator: string, blockHash: Hash): State {
    if !Counts(cfg, s, validator, blockHash) then s
    else
      var voters := s.votes[blockHash] + {validator};
      var voted := s.(votes := s.votes[blockHash := voters]);
      if CheckConsensus(|voters|, |s.validators|) && blockHash in s.pendingBlocks then
        var block := s.pendingBlocks[blockHash];
        voted.(pendingBlocks := s.pendingBlocks - {blockHash},
               finalizedBlocks := s.finalizedBlocks[block.header.number := block])
      else voted
  }

  function CleanedUp(s: State): State {
    s.(votes := map h | h in s.votes && h in s.pendingBlocks :: s.votes[h],
       pendingTransactions := Newest(s.pendingTransactions, MAX_PENDING_TRANSACTIONS))
  }

  function Newest<T>(s: seq<T>, n: nat): seq<T> {
    if |s| <= n then s else s[|s| - n..]
  }

  /** How many transactions fit, in order, in the room that is left. */
  function FittingCount(queue: seq<Transaction>, room: int): (n: nat)
    ensures n <= |queue|
  {
    if queue == [] || queue[0].SerializedSize() > room then 0
    else 1 + FittingCount(queue[1..], room - queue[0].SerializedSize())
  }

  lemma FittingStep(queue: seq<Transaction>, room: int)
    requires queue != [] && queue[0].SerializedSize() <= room
    ensures FittingCount(queue, room) == 1 + FittingCount(queue[1..], room - queue[0].SerializedSize())
  {
  }

  function ParentHash(s: State): Hash {
    if s.height in s.finalizedBlocks then s.finalizedBlocks[s.height].Hash() else DefaultHash
  }

  function BlockWith(s: State, proposer: string, timestamp: nat, transactions: seq<Transaction>): Block {
    Block(BlockHeader(ParentHash(s), timestamp, s.height + 1, proposer,
                      TransactionsRoot(transactions), DefaultHash, DefaultHash),
          transactions, DefaultHash, DefaultHash)
  }

  /** The block create_block assembles, and the queue it leaves. */
  function BlockCreated(cfg: Config, s: State, proposer: string, timestamp: nat): (State, Block) {
    var n := FittingCount(s.pendingTransactions, cfg.maxBlockSize);
    (s.(pendingTransactions := s.pendingTransactions[n..]),
     BlockWith(s, proposer, timestamp, s.pendingTransactions[..n]))
  }

  /** A round: count it, select a proposer, assemble (and drop) a block. */
  function RoundProcessed(cfg: Config, s: State, order: seq<string>, timestamp: nat): (State, Status)
    requires Enumerates(order, s.validators.Keys)
  {
    Proposer.EnumeratedKeys(order, s.validators);
    if s.round + 1 >= U64_LIMIT then (s, Panic)
    else
      var s1 := s.(round := s.round + 1);
      match Proposer.Select(order, s.validators, s1.round)
      case Panic => (s1, Panic)
      case NoProposer => (s1, NoProposer)
      case Selected(proposer) => (BlockCreated(cfg, s1, proposer, timestamp).0, Ok)
  }

  /** A round iterates over the validators in some order. */
  predicate Legal(validators: Proposer.Stakes, e: Event) {
    e.ProcessRound? ==> Enumerates(e.order, validators.Keys)
  }

  function Step(cfg: Config, s: State, e: Event): State
    requires Legal(s.validators, e)
  {
    match e
    case ProcessTransaction(transaction) => s.(pendingTransactions := s.pendingTransactions + [transaction])
    case ProcessBlock(block) => BlockProcessed(s, block)
    case SubmitVote(validator, blockHash) => VoteSubmitted(cfg, s, validator, blockHash)
    case ProcessRound(order, timestamp) => RoundProcessed(cfg, s, order, timestamp).0
    case Cleanup => CleanedUp(s)
  }

  /** The engine behind its lock: each method is one handler, run to its end. */
  class ConsensusEngine {
    const config: Config
    const validators: Proposer.Stakes
    var currentRound: u64
    var currentHeight: nat
    var pendingTransactions: seq<Transaction>
    var pendingBlocks: map<Hash, Block>
    var finalizedBlocks: map<nat, Block>
    var votes: map<Hash, set<string>>

    function View(): State
      reads this
    {
      State(currentRound, currentHeight, validators, pendingTransactions, pendingBlocks, finalizedBlocks, votes)
    }

    constructor (config: Config, validators: Proposer.Stakes)
      ensures this.config == config && View() == Initial(validators)
    {
      this.config := config;
      this.validators := validators;
      currentRound, currentHeight := 0, 0;
      pendingTransactions, pendingBlocks, finalizedBlocks, votes := [], map[], map[], map[];
    }

    method ProcessTransaction(transaction: Transaction)
      modifies this
      ensures View() == Step(config, old(View()), Event.ProcessTransaction(transaction))
    {
      pendingTransactions := pendingTransactions + [transaction];
    }

    method ProcessBlock(block: Block)
      modifies this
      ensures View() == Step(config, old(View()), Event.ProcessBlock(block))
    {
      var blockHash := block.Hash();
      pendingBlocks := pendingBlocks[blockHash := block];
      votes := votes[blockHash := {}];
    }

    method SubmitVote(validator: string, blockHash: Hash) returns (status: Status)
      modifies this
      ensures View() == Step(config, old(View()), Event.SubmitVote(validator, blockHash))
      ensures status == if validator in validators && validators[validator] >= config.stakeThreshold
                        then Ok else InvalidValidator
      ensures blockHash in old(pendingBlocks) && blockHash !in pendingBlocks
              <==> && status == Ok && blockHash in old(pendingBlocks) && blockHash in old(votes)
                   && 3 * |old(votes)[blockHash] + {validator}| > 2 * |validators|
    {
      if !IsValidValidator(config, validators, validator) {
        return InvalidValidator;
      }
      if blockHash in votes {
        votes := votes[blockHash := votes[blockHash] + {validator}];
        if CheckConsensus(|votes[blockHash]|, |validators|) {
          if blockHash in pendingBlocks {
            var block := pendingBlocks[blockHash];
            pendingBlocks := pendingBlocks - {blockHash};
            finalizedBlocks := finalizedBlocks[block.header.number := block];
          }
        }
      }
      return Ok;
    }

    method ProcessRound(order: seq<string>, timestamp: nat) returns (status: Status)
      requires Enumerates(order, validators.Keys)
      modifies this
      ensures View() == Step(config, old(View()), Event.ProcessRound(order, timestamp))
      ensures status == RoundProcessed(config, old(View()), order, timestamp).1
    {
      if currentRound + 1 >= U64_LIMIT {
        return Panic;
      }
      currentRound := currentRound + 1;
      var selection := Proposer.SelectProposer(order, validators, currentRound);
      match selection
      case Panic => return Panic;
      case NoProposer => return NoProposer;
      case Selected(proposer) =>
        var block := CreateBlock(proposer, timestamp);
        return Ok;
    }

    method CreateBlock(proposer: string, timestamp: nat) returns (block: Block)
      modifies this`pendingTransactions
      ensures (View(), block) == BlockCreated(config, old(View()), proposer, timestamp)
    {
      var transactions := [];
      var size := 0;
      ghost var queue := pendingTransactions;
      while pendingTransactions != []
        invariant |transactions| <= |queue|
        invariant transactions == queue[..|transactions|]
        invariant pendingTransactions == queue[|transactions|..]
        invariant FittingCount(queue, config.maxBlockSize)
               == |transactions| + FittingCount(pendingTransactions, config.maxBlockSize - size)
        decreases |pendingTransactions|
      {
        var transactionSize := pendingTransactions[0].SerializedSize();
        if size + transactionSize > config.maxBlockSize {
          break;
        }
        FittingStep(pendingTransactions, config.maxBlockSize - size);
        transactions := transactions + [pendingTransactions[0]];
        pendingTransactions := pendingTransactions[1..];
        size := size + transactionSize;
      }
      assert |transactions| == FittingCount(queue, config.maxBlockSize);
      assert View() == old(View()).(pendingTransactions := queue[|transactions|..]);
      block := BlockWith(View(), proposer, timestamp, transactions);
      assert block == BlockWith(old(View()), proposer, timestamp, transactions);
    }

    method Cleanup()
      modifies this
      ensures View() == Step(config, old(View()), Event.Cleanup)
    {
      votes := map h | h in votes && h in pendingBlocks :: votes[h];
      while |pendingTransactions| > MAX_PENDING_TRANSACTIONS
        invariant Newest(pendingTransactions, MAX_PENDING_TRANSACTIONS)
               == Newest(old(pendingTransactions), MAX_PENDING_TRANSACTIONS)
        modifies this`pendingTransactions
        decreases |pendingTransactions|
      {
        pendingTransactions := pendingTransactions[1..];
      }
    }
  }
}
