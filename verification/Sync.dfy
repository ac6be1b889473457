/** The state-sync request scheduler (src/network/sync.rs): its transitions as functions on a
    value, and the object whose handlers carry them out in place. */
module Sync {
  import opened Collections

  const TIMEOUT_MS: nat := 30_000
  const STALL_MS: nat := 300_000
  const RETRY_LIMIT: nat := 3

  type PeerId = string
  type Key = seq<byte>

  /** Requests are compared with their timestamp. */
  datatype Request = Request(blockNumber: nat, account: string, storageKeys: seq<Key>, timestamp: int)

  datatype Response = Response(blockNumber: nat, account: string, storageKeys: seq<Key>)

  datatype Status = Idle | Syncing(currentBlock: nat, targetBlock: nat, peers: nat) | Error

  /** A handler succeeds, or reports a request dropped after `retries` retries. */
  datatype Outcome = Ok | RetriesExhausted(retries: nat)

  type InFlightLists = map<PeerId, seq<Request>>
  type RetryTable = map<Request, nat>

  datatype State = State(
    status: Status,
    pending: InFlightLists,
    completed: set<Request>,
    failed: RetryTable,
    queue: seq<Request>,
    lastProgress: int)

  // ---------- Timeouts ----------

  predicate IsExpired(r: Request, now: int) {
    now - r.timestamp > TIMEOUT_MS
  }

  function Expired(rs: seq<Request>, now: int): seq<Request> {
    if rs == [] then [] else (if IsExpired(rs[0], now) then [rs[0]] else []) + Expired(rs[1..], now)
  }

  function Unexpired(rs: seq<Request>, now: int): seq<Request> {
    if rs == [] then [] else (if IsExpired(rs[0], now) then [] else [rs[0]]) + Unexpired(rs[1..], now)
  }

  /** retain(|x| x != r) */
  function Without(rs: seq<Request>, r: Request): seq<Request> {
    if rs == [] then [] else (if rs[0] == r then [] else [rs[0]]) + Without(rs[1..], r)
  }

  function Failures(failed: RetryTable, r: Request): nat {
    if r in failed then failed[r] else 0
  }

  function CountFailures(failed: RetryTable, rs: seq<Request>): RetryTable {
    if rs == [] then failed
    else
      var r := rs[|rs| - 1];
      var before := CountFailures(failed, rs[..|rs| - 1]);
      before[r := Failures(before, r) + 1]
  }

  /** Each peer in `order` gives up its expired requests to the back of the queue. */
  function PeersTimedOut(s: State, order: seq<PeerId>, now: int): (t: State)
    requires forall p | p in order :: p in s.pending
    ensures t.pending.Keys == s.pending.Keys
    decreases |order|
  {
    if order == [] then s
    else
      var lists := s.pending[order[0]];
      var s1 := s.(pending := s.pending[order[0] := Unexpired(lists, now)],
                   failed := CountFailures(s.failed, Expired(lists, now)),
                   queue := s.queue + Expired(lists, now));
      PeersTimedOut(s1, order[1..], now)
  }

  function TimeoutsChecked(s: State, order: seq<PeerId>, now: int): (t: State)
    requires forall p | p in order :: p in s.pending
    ensures t.pending.Keys == s.pending.Keys
  {
    var t := PeersTimedOut(s, order, now);
    if t.status.Syncing? && now - t.lastProgress > STALL_MS then t.(status := Error) else t
  }

  // ---------- Dispatch ----------

  function FirstAvailable(pending: InFlightLists, batchSize: nat, order: seq<PeerId>): (peer: Option<PeerId>)
    requires forall p | p in order :: p in pending
    ensures peer.Some? ==> peer.value in order && |pending[peer.value]| < batchSize
    ensures peer.None? ==> forall p | p in order :: |pending[p]| >= batchSize
  {
    if order == [] then None
    else if |pending[order[0]]| < batchSize then Some(order[0])
    else FirstAvailable(pending, batchSize, order[1..])
  }

  function Dispatched(s: State, batchSize: nat, order: seq<PeerId>): (State, Outcome)
    requires forall p | p in order :: p in s.pending
    decreases |s.queue|
  {
    if s.queue == [] then (s, Ok)
    else
      var request := s.queue[0];
      var rest := s.(queue := s.queue[1..]);
      if request in s.completed then Dispatched(rest, batchSize, order)
      else if Failures(s.failed, request) >= RETRY_LIMIT then (rest, RetriesExhausted(Failures(s.failed, request)))
      else
        match FirstAvailable(s.pending, batchSize, order)
        case Some(peer) =>
          Dispatched(rest.(pending := s.pending[peer := s.pending[peer] + [request]]), batchSize, order)
        case None => (rest.(queue := rest.queue + [request]), Ok)
  }

  predicate NothingInFlight(pending: InFlightLists) {
    forall p | p in pending :: pending[p] == []
  }

  function QueueProcessed(s: State, batchSize: nat, order: seq<PeerId>, now: int): (State, Outcome)
    requires forall p | p in order :: p in s.pending
  {
    var (t, outcome) := Dispatched(TimeoutsChecked(s, order, now), batchSize, order);
    if outcome.Ok? && t.queue == [] && NothingInFlight(t.pending)
    then (t.(status := Idle), outcome)
    else (t, outcome)
  }

  // ---------- Handlers ----------

  datatype Event =
    | StartSync(peer: PeerId, now: int)
    | HandleRequest(request: Request, order: seq<PeerId>, now: int)
    | HandleResponse(response: Response, stamp: int, order: seq<PeerId>, now: int)
    | PeerDisconnected(peer: PeerId)

  function Initial(now: int): State {
    State(Idle, map[], {}, map[], [], now)
  }

  function SyncStarted(s: State, peer: PeerId, now: int): State {
    var t := if s.status.Idle? then s.(status := Syncing(0, 0, 1), lastProgress := now) else s;
    if peer in s.pending then t else t.(pending := s.pending[peer := []])
  }

  /** The request a response is taken to answer carries the clock of its arrival. */
  function Answered(response: Response, stamp: int): Request {
    Request(response.blockNumber, response.account, response.storageKeys, stamp)
  }

  /** retain(|x| x != r) on every peer's list. */
  function AllWithout(pending: InFlightLists, r: Request): InFlightLists {
    map p | p in pending :: Without(pending[p], r)
  }

  function ResponseRecorded(s: State, response: Response, stamp: int, now: int): State {
    var r := Answered(response, stamp);
    var t := s.(completed := s.completed + {r},
                pending := AllWithout(s.pending, r));
    if s.status.Syncing? && response.blockNumber > s.status.currentBlock
    then t.(status := s.status.(currentBlock := response.blockNumber), lastProgress := now)
    else t
  }

  function Disconnected(s: State, peer: PeerId): State {
    var t := if peer in s.pending
             then s.(queue := s.queue + s.pending[peer], pending := s.pending - {peer}) else s;
    if t.status.Syncing? then t.(status := t.status.(peers := if t.status.peers == 0 then 0 else t.status.peers - 1))
    else t
  }

  /** A handler that works through the queue iterates over the peers in one order throughout:
      no peer joins or leaves while it runs. */
  predicate Legal(s: State, e: Event) {
    match e
    case HandleRequest(_, order, _) => Enumerates(order, s.pending.Keys)
    case HandleResponse(_, _, order, _) => Enumerates(order, s.pending.Keys)
    case _ => true
  }

  function Step(s: State, batchSize: nat, e: Event): (State, Outcome)
    requires Legal(s, e)
  {
    match e
    case StartSync(peer, now) => (SyncStarted(s, peer, now), Ok)
    case HandleRequest(request, order, now) =>
      EnumeratedPeers(order, s.pending);
      QueueProcessed(s.(queue := s.queue + [request]), batchSize, order, now)
    case HandleResponse(response, stamp, order, now) =>
      EnumeratedPeers(order, s.pending);
      QueueProcessed(ResponseRecorded(s, response, stamp, now), batchSize, order, now)
    case PeerDisconnected(peer) => (Disconnected(s, peer), Ok)
  }

  lemma EnumeratedPeers(order: seq<PeerId>, pending: InFlightLists)
    requires Enumerates(order, pending.Keys)
    ensures forall p | p in order :: p in pending
    ensures forall p | p in pending :: p in order
  {
    EnumeratedMembers(order, pending.Keys);
  }

  // ---------- The retain-then-push loop ----------

  /** retain applied once per element of `gone`. */
  function WithoutAll(rs: seq<Request>, gone: seq<Request>): seq<Request> {
    if gone == [] then rs else Without(WithoutAll(rs, gone[..|gone| - 1]), gone[|gone| - 1])
  }

  lemma {:induction false} WithoutAllCons(rs: seq<Request>, gone: seq<Request>)
    requires rs != []
    ensures WithoutAll(rs, gone) == (if rs[0] in gone then [] else [rs[0]]) + WithoutAll(rs[1..], gone)
  {
    if gone != [] {
      var before, last := gone[..|gone| - 1], gone[|gone| - 1];
      WithoutAllCons(rs, before);
      assert gone == before + [last];
      if rs[0] in before {
        assert WithoutAll(rs, before) == WithoutAll(rs[1..], before);
      } else {
        assert WithoutAll(rs, before)[0] == rs[0] && WithoutAll(rs, before)[1..] == WithoutAll(rs[1..], before);
        assert rs[0] in gone <==> rs[0] == last;
      }
    }
  }

  lemma {:induction false} WithoutAllIsUnexpired(rs: seq<Request>, gone: seq<Request>, now: int)
    requires forall r | r in rs :: IsExpired(r, now) <==> r in gone
    ensures WithoutAll(rs, gone) == Unexpired(rs, now)
  {
    if rs == [] {
      WithoutAllEmpty(gone);
    } else {
      WithoutAllCons(rs, gone);
      WithoutAllIsUnexpired(rs[1..], gone, now);
    }
  }

  lemma {:induction false} WithoutAllEmpty(gone: seq<Request>)
    ensures WithoutAll([], gone) == []
  {
    if gone != [] {
      WithoutAllEmpty(gone[..|gone| - 1]);
    }
  }

  lemma {:induction false} ExpiredMembers(rs: seq<Request>, now: int)
    ensures forall r :: r in Expired(rs, now) <==> r in rs && IsExpired(r, now)
  {
    if rs != [] {
      ExpiredMembers(rs[1..], now);
    }
  }

  /** Removing, one by one, every equal copy of each expired request leaves exactly the rest. */
  lemma RetainLoopIsUnexpired(rs: seq<Request>, now: int)
    ensures WithoutAll(rs, Expired(rs, now)) == Unexpired(rs, now)
  {
    ExpiredMembers(rs, now);
    WithoutAllIsUnexpired(rs, Expired(rs, now), now);
  }

  lemma LoopStep(rs: seq<Request>, failed: RetryTable, gone: seq<Request>, r: Request)
    ensures WithoutAll(rs, gone + [r]) == Without(WithoutAll(rs, gone), r)
    ensures var before := CountFailures(failed, gone);
            CountFailures(failed, gone + [r]) == before[r := Failures(before, r) + 1]
  {
    assert (gone + [r])[..|gone|] == gone;
  }

  lemma NextPeerTimesOut(s: State, t: State, order: seq<PeerId>, i: nat, now: int)
    requires i < |order| && forall p | p in order :: p in s.pending
    requires var lists := s.pending[order[i]];
             t == s.(pending := s.pending[order[i] := Unexpired(lists, now)],
                     failed := CountFailures(s.failed, Expired(lists, now)),
                     queue := s.queue + Expired(lists, now))
    ensures PeersTimedOut(s, order[i..], now) == PeersTimedOut(t, order[i + 1..], now)
  {
    assert order[i..][0] == order[i] && order[i..][1..] == order[i + 1..];
  }

  // ---------- The scheduler object ----------

  class StateSync {
    const batchSize: nat
    var status: Status
    var pendingRequests: InFlightLists
    var completedRequests: set<Request>
    var failedRequests: RetryTable
    var syncQueue: seq<Request>
    var lastProgress: int

    function View(): State
      reads this
    {
      State(status, pendingRequests, completedRequests, failedRequests, syncQueue, lastProgress)
    }

    constructor (batchSize: nat, now: int)
      ensures this.batchSize == batchSize && View() == Initial(now)
      ensures View() == State(Idle, map[], {}, map[], [], now)
    {
      this.batchSize := batchSize;
      status, pendingRequests, completedRequests := Idle, map[], {};
      failedRequests, syncQueue, lastProgress := map[], [], now;
    }

    method StartSync(peer: PeerId, now: int)
      modifies this
      ensures View() == Step(old(View()), batchSize, Event.StartSync(peer, now)).0
    {
      if status.Idle? {
        status := Syncing(0, 0, 1);
        lastProgress := now;
      }
      if peer !in pendingRequests {
        pendingRequests := pendingRequests[peer := []];
      }
    }

    method HandleRequest(request: Request, order: seq<PeerId>, now: int) returns (outcome: Outcome)
      requires Enumerates(order, pendingRequests.Keys)
      modifies this
      ensures (View(), outcome) == Step(old(View()), batchSize, Event.HandleRequest(request, order, now))
    {
      syncQueue := syncQueue + [request];
      outcome := ProcessSyncQueue(order, now);
    }

    method HandleResponse(response: Response, stamp: int, order: seq<PeerId>, now: int) returns (outcome: Outcome)
      requires Enumerates(order, pendingRequests.Keys)
      modifies this
      ensures (View(), outcome) == Step(old(View()), batchSize, Event.HandleResponse(response, stamp, order, now))
    {
      var request := Answered(response, stamp);
      completedRequests := completedRequests + {request};
      RetainEverywhere(request, order);
      if status.Syncing? && response.blockNumber > status.currentBlock {
        status := status.(currentBlock := response.blockNumber);
        lastProgress := now;
      }
      assert View() == ResponseRecorded(old(View()), response, stamp, now);
      outcome := ProcessSyncQueue(order, now);
    }

    /** Drops every in-flight copy of `request`, peer by peer. */
    method RetainEverywhere(request: Request, order: seq<PeerId>)
      requires Enumerates(order, pendingRequests.Keys)
      modifies this`pendingRequests
      ensures pendingRequests == AllWithout(old(pendingRequests), request)
    {
      EnumeratedPeers(order, pendingRequests);
      for i := 0 to |order|
        invariant pendingRequests.Keys == old(pendingRequests).Keys
        invariant forall j | 0 <= j < i :: pendingRequests[order[j]] == Without(old(pendingRequests)[order[j]], request)
        invariant forall j | i <= j < |order| :: pendingRequests[order[j]] == old(pendingRequests)[order[j]]
      {
        pendingRequests := pendingRequests[order[i] := Without(pendingRequests[order[i]], request)];
      }
    }

    method HandlePeerDisconnected(peer: PeerId)
      modifies this
      ensures View() == Step(old(View()), batchSize, Event.PeerDisconnected(peer)).0
    {
      if peer in pendingRequests {
        var requests := pendingRequests[peer];
        pendingRequests := pendingRequests - {peer};
        for i := 0 to |requests|
          invariant syncQueue == old(syncQueue) + requests[..i]
          modifies this`syncQueue
        {
          syncQueue := syncQueue + [requests[i]];
        }
      }
      if status.Syncing? {
        status := status.(peers := if status.peers == 0 then 0 else status.peers - 1);
      }
    }

    method ProcessSyncQueue(order: seq<PeerId>, now: int) returns (outcome: Outcome)
      requires Enumerates(order, pendingRequests.Keys)
      modifies this
      ensures forall p | p in order :: p in old(pendingRequests)
      ensures (View(), outcome) == QueueProcessed(old(View()), batchSize, order, now)
    {
      EnumeratedPeers(order, pendingRequests);
      CheckTimeouts(order, now);
      ghost var start := View();
      while syncQueue != []
        invariant pendingRequests.Keys == old(pendingRequests).Keys
        invariant Dispatched(View(), batchSize, order) == Dispatched(start, batchSize, order)
        decreases |syncQueue|
      {
        var request := syncQueue[0];
        syncQueue := syncQueue[1..];
        if request in completedRequests {
          continue;
        }
        var retryCount := Failures(failedRequests, request);
        if retryCount >= RETRY_LIMIT {
          return RetriesExhausted(retryCount);
        }
        var available := FindAvailable(order);
        if available.Some? {
          pendingRequests := pendingRequests[available.value := pendingRequests[available.value] + [request]];
        } else {
          syncQueue := syncQueue + [request];
          assert Dispatched(start, batchSize, order) == (View(), Ok);
          break;
        }
      }
      if syncQueue == [] && NothingInFlight(pendingRequests) {
        status := Idle;
      }
      return Ok;
    }

    method FindAvailable(order: seq<PeerId>) returns (peer: Option<PeerId>)
      requires forall p | p in order :: p in pendingRequests
      ensures peer == FirstAvailable(pendingRequests, batchSize, order)
    {
      for i := 0 to |order|
        invariant FirstAvailable(pendingRequests, batchSize, order)
               == FirstAvailable(pendingRequests, batchSize, order[i..])
      {
        if |pendingRequests[order[i]]| < batchSize {
          return Some(order[i]);
        }
      }
      return None;
    }

    method CheckTimeouts(order: seq<PeerId>, now: int)
      requires Enumerates(order, pendingRequests.Keys)
      modifies this`pendingRequests, this`failedRequests, this`syncQueue, this`status
      ensures forall p | p in order :: p in old(pendingRequests)
      ensures View() == TimeoutsChecked(old(View()), order, now)
    {
      EnumeratedPeers(order, pendingRequests);
      assert order[0..] == order;
      for i := 0 to |order|
        invariant pendingRequests.Keys == old(pendingRequests).Keys
        invariant PeersTimedOut(View(), order[i..], now) == PeersTimedOut(old(View()), order, now)
        modifies this`pendingRequests, this`failedRequests, this`syncQueue
      {
        ghost var before := View();
        TimeOutPeer(order[i], now);
        NextPeerTimesOut(before, View(), order, i, now);
      }
      assert order[|order|..] == [];
      assert PeersTimedOut(old(View()), order, now) == View();
      if status.Syncing? && now - lastProgress > STALL_MS {
        status := Error;
      }
    }

    /** Gives up one peer's expired requests. */
    method TimeOutPeer(peer: PeerId, now: int)
      requires peer in pendingRequests
      modifies this`pendingRequests, this`failedRequests, this`syncQueue
      ensures pendingRequests == old(pendingRequests)[peer := Unexpired(old(pendingRequests)[peer], now)]
      ensures failedRequests == CountFailures(old(failedRequests), Expired(old(pendingRequests)[peer], now))
      ensures syncQueue == old(syncQueue) + Expired(old(pendingRequests)[peer], now)
    {
      var requests := pendingRequests[peer];
      var timedOut := Expired(requests, now);
      RetainLoopIsUnexpired(requests, now);
      requests := RetainAndRequeue(requests, timedOut);
      pendingRequests := pendingRequests[peer := requests];
    }

    /** Each timed-out request is counted, removed with all its equals, and pushed once. */
    method RetainAndRequeue(requests: seq<Request>, timedOut: seq<Request>) returns (left: seq<Request>)
      modifies this`failedRequests, this`syncQueue
      ensures left == WithoutAll(requests, timedOut)
      ensures failedRequests == CountFailures(old(failedRequests), timedOut)
      ensures syncQueue == old(syncQueue) + timedOut
    {
      left := requests;
      for i := 0 to |timedOut|
        invariant left == WithoutAll(requests, timedOut[..i])
        invariant failedRequests == CountFailures(old(failedRequests), timedOut[..i])
        invariant syncQueue == old(syncQueue) + timedOut[..i]
      {
        var request := timedOut[i];
        LoopStep(requests, old(failedRequests), timedOut[..i], request);
        assert timedOut[..i + 1] == timedOut[..i] + [request];
        failedRequests := failedRequests[request := Failures(failedRequests, request) + 1];
        left := Without(left, request);
        syncQueue := syncQueue + [request];
      }
      assert timedOut[..|timedOut|] == timedOut;
    }
  }
}
