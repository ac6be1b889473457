/** What the scheduler keeps over whole runs. */
module SyncSafety {
  import opened Collections
  import opened Sync

  // ---------- Counting copies ----------

  /** How often `r` occurs in a list. */
  function Copies(rs: seq<Request>, r: Request): nat {
    if rs == [] then 0 else (if rs[0] == r then 1 else 0) + Copies(rs[1..], r)
  }

  lemma {:induction false} CopiesAppend(a: seq<Request>, b: seq<Request>, r: Request)
    ensures Copies(a + b, r) == Copies(a, r) + Copies(b, r)
  {
    if a == [] {
      assert a + b == b;
    } else {
      assert (a + b)[1..] == a[1..] + b;
      CopiesAppend(a[1..], b, r);
    }
  }

  lemma {:induction false} CopiesMember(rs: seq<Request>, r: Request)
    ensures Copies(rs, r) > 0 <==> r in rs
  {
    if rs != [] {
      CopiesMember(rs[1..], r);
    }
  }

  /** How often `r` is in flight at `peers`. */
  ghost function Held(pending: InFlightLists, peers: set<PeerId>, r: Request): nat
    requires peers <= pending.Keys
  {
    if peers == {} then 0
    else var p :| p in peers; Copies(pending[p], r) + Held(pending, peers - {p}, r)
  }

  /** How often `r` is in flight. */
  ghost function InFlight(pending: InFlightLists, r: Request): nat {
    Held(pending, pending.Keys, r)
  }

  /** How many copies of `r` the scheduler still has to deal with. */
  ghost function Live(s: State, r: Request): nat {
    Copies(s.queue, r) + InFlight(s.pending, r)
  }

  lemma {:induction false} HeldAt(pending: InFlightLists, peers: set<PeerId>, p: PeerId, r: Request)
    requires p in peers && peers <= pending.Keys
    ensures Held(pending, peers, r) == Copies(pending[p], r) + Held(pending, peers - {p}, r)
  {
    var q :| q in peers && Held(pending, peers, r) == Copies(pending[q], r) + Held(pending, peers - {q}, r);
    if p != q {
      HeldAt(pending, peers - {q}, p, r);
      HeldAt(pending, peers - {p}, q, r);
      assert peers - {q} - {p} == peers - {p} - {q};
    }
  }

  lemma {:induction false} HeldFrame(a: InFlightLists, b: InFlightLists, peers: set<PeerId>, r: Request)
    requires peers <= a.Keys && peers <= b.Keys
    requires forall p | p in peers :: Copies(a[p], r) == Copies(b[p], r)
    ensures Held(a, peers, r) == Held(b, peers, r)
  {
    if p :| p in peers {
      HeldAt(a, peers, p, r);
      HeldAt(b, peers, p, r);
      HeldFrame(a, b, peers - {p}, r);
    }
  }

  lemma {:induction false} HeldNowhere(pending: InFlightLists, peers: set<PeerId>, r: Request)
    requires peers <= pending.Keys
    ensures Held(pending, peers, r) == 0 <==> forall p | p in peers :: r !in pending[p]
  {
    if p :| p in peers {
      HeldAt(pending, peers, p, r);
      HeldNowhere(pending, peers - {p}, r);
      CopiesMember(pending[p], r);
      assert forall q | q in peers :: q == p || q in peers - {p};
    }
  }

  lemma InFlightUpdate(pending: InFlightLists, p: PeerId, rs: seq<Request>, r: Request)
    ensures InFlight(pending[p := rs], r)
         == InFlight(pending, r) - (if p in pending then Copies(pending[p], r) else 0) + Copies(rs, r)
  {
    var updated := pending[p := rs];
    var others := pending.Keys - {p};
    HeldAt(updated, updated.Keys, p, r);
    assert updated.Keys - {p} == others;
    HeldFrame(updated, pending, others, r);
    if p in pending {
      HeldAt(pending, pending.Keys, p, r);
    } else {
      assert others == pending.Keys;
    }
  }

  lemma InFlightRemove(pending: InFlightLists, p: PeerId, r: Request)
    requires p in pending
    ensures InFlight(pending, r) == InFlight(pending - {p}, r) + Copies(pending[p], r)
  {
    HeldAt(pending, pending.Keys, p, r);
    assert (pending - {p}).Keys == pending.Keys - {p};
    HeldFrame(pending, pending - {p}, pending.Keys - {p}, r);
  }

  /** `r` may be given up: it was answered, or it ran out of retries. */
  predicate MayRetire(s: State, r: Request) {
    r in s.completed || Failures(s.failed, r) >= 3
  }

  // ---------- Timeouts ----------

  lemma {:induction false} ExpiredSplits(rs: seq<Request>, now: int, r: Request)
    ensures Copies(rs, r) == Copies(Expired(rs, now), r) + Copies(Unexpired(rs, now), r)
  {
    if rs != [] {
      ExpiredSplits(rs[1..], now, r);
      CopiesAppend(if IsExpired(rs[0], now) then [rs[0]] else [], Expired(rs[1..], now), r);
      CopiesAppend(if IsExpired(rs[0], now) then [] else [rs[0]], Unexpired(rs[1..], now), r);
    }
  }

  lemma {:induction false} FailuresCounted(failed: RetryTable, rs: seq<Request>, r: Request)
    ensures Failures(CountFailures(failed, rs), r) == Failures(failed, r) + Copies(rs, r)
  {
    if rs != [] {
      var before, last := rs[..|rs| - 1], rs[|rs| - 1];
      FailuresCounted(failed, before, r);
      assert rs == before + [last];
      CopiesAppend(before, [last], r);
    }
  }

  /** One peer of PeersTimedOut. */
  function PeerTimedOut(s: State, peer: PeerId, now: int): State
    requires peer in s.pending
  {
    s.(pending := s.pending[peer := Unexpired(s.pending[peer], now)],
       failed := CountFailures(s.failed, Expired(s.pending[peer], now)),
       queue := s.queue + Expired(s.pending[peer], now))
  }

  lemma PeerTimeoutConserves(s: State, peer: PeerId, now: int, r: Request)
    requires peer in s.pending
    ensures var t := PeerTimedOut(s, peer, now);
            && Live(t, r) == Live(s, r)
            && InFlight(t.pending, r) <= InFlight(s.pending, r)
            && Failures(t.failed, r) + InFlight(t.pending, r) == Failures(s.failed, r) + InFlight(s.pending, r)
  {
    var rs := s.pending[peer];
    ExpiredSplits(rs, now, r);
    InFlightUpdate(s.pending, peer, Unexpired(rs, now), r);
    FailuresCounted(s.failed, Expired(rs, now), r);
    CopiesAppend(s.queue, Expired(rs, now), r);
  }

  /** Timeouts lose and duplicate nothing, even among equal requests, and charge one failure per
      copy taken out of flight. */
  lemma {:induction false} TimeoutsConserve(s: State, order: seq<PeerId>, now: int, r: Request)
    requires forall p | p in order :: p in s.pending
    ensures var t := TimeoutsChecked(s, order, now);
            && Live(t, r) == Live(s, r)
            && InFlight(t.pending, r) <= InFlight(s.pending, r)
            && Failures(t.failed, r) + InFlight(t.pending, r) == Failures(s.failed, r) + InFlight(s.pending, r)
            && t.completed == s.completed
            && t.status == (if s.status.Syncing? && now - s.lastProgress > STALL_MS then Error else s.status)
    decreases |order|
  {
    if order != [] {
      var s1 := PeerTimedOut(s, order[0], now);
      PeerTimeoutConserves(s, order[0], now, r);
      TimeoutsConserve(s1, order[1..], now, r);
      assert PeersTimedOut(s, order, now) == PeersTimedOut(s1, order[1..], now);
    }
  }

  lemma {:induction false} UnexpiredCounts(rs: seq<Request>, now: int, r: Request)
    ensures Copies(Unexpired(rs, now), r) == if now - r.timestamp <= 30_000 then Copies(rs, r) else 0
  {
    if rs != [] {
      UnexpiredCounts(rs[1..], now, r);
      CopiesAppend(if IsExpired(rs[0], now) then [] else [rs[0]], Unexpired(rs[1..], now), r);
    }
  }

  lemma {:induction false} PeersTimedOutAt(s: State, order: seq<PeerId>, now: int, p: PeerId)
    requires forall q | q in order :: q in s.pending
    requires forall i, j | 0 <= i < j < |order| :: order[i] != order[j]
    requires p in s.pending
    ensures PeersTimedOut(s, order, now).pending[p]
         == if p in order then Unexpired(s.pending[p], now) else s.pending[p]
    decreases |order|
  {
    if order != [] {
      var s1 := PeerTimedOut(s, order[0], now);
      PeersTimedOutAt(s1, order[1..], now, p);
      assert PeersTimedOut(s, order, now) == PeersTimedOut(s1, order[1..], now);
    }
  }

  /** Which requests time out: exactly those stamped more than 30 seconds ago. Every list keeps its
      fresh requests, copy for copy, and loses the others; a request that expired has all its copies
      moved to the queue, behind what waited there, and one failure counted for each. */
  lemma TimeoutsExactly(s: State, order: seq<PeerId>, now: int, r: Request)
    requires Enumerates(order, s.pending.Keys)
    ensures forall p | p in order :: p in s.pending
    ensures var t := TimeoutsChecked(s, order, now);
            && (forall p | p in s.pending ::
                  && (r in t.pending[p] <==> r in s.pending[p] && now - r.timestamp <= 30_000)
                  && Copies(t.pending[p], r) == if now - r.timestamp <= 30_000 then Copies(s.pending[p], r) else 0)
            && s.queue <= t.queue
            && (now - r.timestamp <= 30_000 ==>
                  && InFlight(t.pending, r) == InFlight(s.pending, r)
                  && Copies(t.queue, r) == Copies(s.queue, r)
                  && Failures(t.failed, r) == Failures(s.failed, r))
            && (now - r.timestamp > 30_000 ==>
                  && InFlight(t.pending, r) == 0
                  && Copies(t.queue, r) == Copies(s.queue, r) + InFlight(s.pending, r)
                  && Failures(t.failed, r) == Failures(s.failed, r) + InFlight(s.pending, r))
  {
    EnumeratedPeers(order, s.pending);
    TimeoutsConserve(s, order, now, r);
    var t := TimeoutsChecked(s, order, now);
    forall p | p in s.pending
      ensures r in t.pending[p] <==> r in s.pending[p] && now - r.timestamp <= 30_000
      ensures Copies(t.pending[p], r) == if now - r.timestamp <= 30_000 then Copies(s.pending[p], r) else 0
    {
      PeersTimedOutAt(s, order, now, p);
      UnexpiredCounts(s.pending[p], now, r);
      CopiesMember(s.pending[p], r);
      CopiesMember(t.pending[p], r);
    }
    QueueKept(s, order, now);
    if now - r.timestamp <= 30_000 {
      HeldFrame(t.pending, s.pending, s.pending.Keys, r);
    } else {
      NowhereHeld(t.pending, r);
    }
  }

  lemma {:induction false} QueueKept(s: State, order: seq<PeerId>, now: int)
    requires forall p | p in order :: p in s.pending
    ensures s.queue <= TimeoutsChecked(s, order, now).queue
    decreases |order|
  {
    if order != [] {
      var s1 := PeerTimedOut(s, order[0], now);
      QueueKept(s1, order[1..], now);
      assert PeersTimedOut(s, order, now) == PeersTimedOut(s1, order[1..], now);
    }
  }

  lemma NowhereHeld(pending: InFlightLists, r: Request)
    requires forall p | p in pending :: Copies(pending[p], r) == 0
    ensures InFlight(pending, r) == 0
  {
    forall p | p in pending
      ensures r !in pending[p]
    {
      CopiesMember(pending[p], r);
    }
    HeldNowhere(pending, pending.Keys, r);
  }

  lemma {:induction false} UnexpiredIsPart(rs: seq<Request>, now: int)
    ensures |Unexpired(rs, now)| <= |rs|
    ensures forall r | r in Unexpired(rs, now) :: r in rs && !IsExpired(r, now)
  {
    if rs != [] {
      UnexpiredIsPart(rs[1..], now);
    }
  }

  // ---------- Dispatch ----------

  function Incomplete(rs: seq<Request>, completed: set<Request>): seq<Request> {
    if rs == [] then [] else (if rs[0] in completed then [] else [rs[0]]) + Incomplete(rs[1..], completed)
  }

  /** Why dispatching stopped: the queue ran out, a request found no room (and moved to the back),
      or a request had no retries left (and was dropped). */
  datatype Stop = Drained | NoRoom | GaveUp

  /** Dispatching works through a prefix of the queue in order, all of it answered or with retries left. */
  ghost predicate DispatchShape(s: State, t: State, outcome: Outcome, batchSize: nat, n: nat, stop: Stop) {
    && t == s.(pending := t.pending, queue := t.queue)
    && t.pending.Keys == s.pending.Keys
    && n <= |s.queue|
    && (forall i | 0 <= i < n :: s.queue[i] in s.completed || Failures(s.failed, s.queue[i]) < 3)
    && (match stop
        case Drained => n == |s.queue| && outcome == Ok && t.queue == []
        case NoRoom =>
          && n < |s.queue| && outcome == Ok
          && t.queue == s.queue[n + 1..] + [s.queue[n]]
          && s.queue[n] !in s.completed && Failures(s.failed, s.queue[n]) < 3
          && forall p | p in t.pending :: |t.pending[p]| >= batchSize
        case GaveUp =>
          && n < |s.queue|
          && t.queue == s.queue[n + 1..]
          && s.queue[n] !in s.completed && Failures(s.failed, s.queue[n]) >= 3
          && outcome == RetriesExhausted(Failures(s.failed, s.queue[n])))
  }

  /** ... and puts exactly the unanswered requests of that prefix in flight. */
  ghost predicate DispatchMoves(s: State, t: State, n: nat)
    requires n <= |s.queue|
  {
    forall r :: InFlight(t.pending, r) == InFlight(s.pending, r) + Copies(Incomplete(s.queue[..n], s.completed), r)
  }

  lemma {:induction false} DispatchHasShape(s: State, batchSize: nat, order: seq<PeerId>) returns (n: nat, stop: Stop)
    requires Enumerates(order, s.pending.Keys)
    ensures forall p | p in order :: p in s.pending
    ensures var (t, outcome) := Dispatched(s, batchSize, order);
            DispatchShape(s, t, outcome, batchSize, n, stop) && DispatchMoves(s, t, n)
    decreases |s.queue|
  {
    EnumeratedPeers(order, s.pending);
    if s.queue == [] {
      n, stop := 0, Drained;
    } else {
      var request := s.queue[0];
      var rest := s.(queue := s.queue[1..]);
      if request in s.completed {
        n, stop := DispatchHasShape(rest, batchSize, order);
        var (t, outcome) := Dispatched(rest, batchSize, order);
        ShapeExtends(s, rest, t, outcome, batchSize, n, stop);
        MovesExtend(s, rest, t, n);
        n := n + 1;
      } else if Failures(s.failed, request) >= RETRY_LIMIT {
        n, stop := 0, GaveUp;
      } else {
        var peer := FirstAvailable(s.pending, batchSize, order);
        if peer.None? {
          n, stop := 0, NoRoom;
        } else {
          var sent := rest.(pending := s.pending[peer.value := s.pending[peer.value] + [request]]);
          assert sent.pending.Keys == s.pending.Keys;
          n, stop := DispatchHasShape(sent, batchSize, order);
          var (t, outcome) := Dispatched(sent, batchSize, order);
          ShapeExtends(s, sent, t, outcome, batchSize, n, stop);
          forall r
            ensures InFlight(sent.pending, r) == InFlight(s.pending, r) + (if request == r then 1 else 0)
          {
            SendCounts(s.pending, peer.value, request, r);
          }
          MovesExtend(s, sent, t, n);
          n := n + 1;
        }
      }
    }
  }

  /** Sending one request adds one copy in flight. */
  lemma SendCounts(pending: InFlightLists, peer: PeerId, request: Request, r: Request)
    requires peer in pending
    ensures InFlight(pending[peer := pending[peer] + [request]], r)
         == InFlight(pending, r) + (if request == r then 1 else 0)
  {
    InFlightUpdate(pending, peer, pending[peer] + [request], r);
    CopiesAppend(pending[peer], [request], r);
  }

  lemma ShapeExtends(s: State, next: State, t: State, outcome: Outcome, batchSize: nat, m: nat, stop: Stop)
    requires s.queue != [] && next == s.(queue := s.queue[1..], pending := next.pending)
    requires next.pending.Keys == s.pending.Keys
    requires s.queue[0] in s.completed || Failures(s.failed, s.queue[0]) < RETRY_LIMIT
    requires DispatchShape(next, t, outcome, batchSize, m, stop)
    ensures DispatchShape(s, t, outcome, batchSize, m + 1, stop)
  {
    assert forall i | 0 < i <= m :: s.queue[i] == next.queue[i - 1];
  }

  lemma MovesExtend(s: State, next: State, t: State, m: nat)
    requires s.queue != [] && next.queue == s.queue[1..] && next.completed == s.completed && m <= |next.queue|
    requires DispatchMoves(next, t, m)
    requires forall r :: InFlight(next.pending, r)
                      == InFlight(s.pending, r) + (if s.queue[0] !in s.completed && s.queue[0] == r then 1 else 0)
    ensures DispatchMoves(s, t, m + 1)
  {
    assert s.queue[..m + 1][1..] == next.queue[..m];
    forall r
      ensures InFlight(t.pending, r) == InFlight(s.pending, r) + Copies(Incomplete(s.queue[..m + 1], s.completed), r)
    {
      CopiesAppend(if s.queue[0] in s.completed then [] else [s.queue[0]], Incomplete(next.queue[..m], s.completed), r);
    }
  }

  lemma {:induction false} IncompleteCount(rs: seq<Request>, completed: set<Request>, r: Request)
    ensures Copies(Incomplete(rs, completed), r) == if r in completed then 0 else Copies(rs, r)
  {
    if rs != [] {
      IncompleteCount(rs[1..], completed, r);
      CopiesAppend(if rs[0] in completed then [] else [rs[0]], Incomplete(rs[1..], completed), r);
    }
  }

  /** Copies of `r` in a queue cut at n. */
  lemma CutCounts(queue: seq<Request>, n: nat, r: Request)
    requires n <= |queue|
    ensures Copies(queue, r) == Copies(queue[..n], r) + Copies(queue[n..], r)
    ensures n < |queue| ==> Copies(queue[n..], r) == Copies(queue[n + 1..], r) + (if queue[n] == r then 1 else 0)
    ensures Copies(queue[..n], r) > 0 ==> exists i :: 0 <= i < n && queue[i] == r
  {
    assert queue == queue[..n] + queue[n..];
    CopiesAppend(queue[..n], queue[n..], r);
    CopiesMember(queue[..n], r);
    if n < |queue| {
      assert queue[n..][1..] == queue[n + 1..];
    }
  }

  /** What dispatching does to the copies of one request. */
  lemma DispatchCounts(s: State, t: State, outcome: Outcome, batchSize: nat, n: nat, stop: Stop, r: Request)
    requires DispatchShape(s, t, outcome, batchSize, n, stop) && DispatchMoves(s, t, n)
    ensures Live(t, r) <= Live(s, r)
    ensures !MayRetire(s, r) ==> Live(t, r) == Live(s, r)
    ensures InFlight(t.pending, r) >= InFlight(s.pending, r)
    ensures MayRetire(s, r) ==> InFlight(t.pending, r) == InFlight(s.pending, r)
  {
    var queue := s.queue;
    IncompleteCount(queue[..n], s.completed, r);
    CutCounts(queue, n, r);
    if stop.NoRoom? {
      CopiesAppend(queue[n + 1..], [queue[n]], r);
    }
  }

  /** Dispatching fills no peer beyond the batch size and sends nothing already completed. */
  lemma {:induction false} DispatchIsBounded(s: State, batchSize: nat, order: seq<PeerId>)
    requires forall p | p in order :: p in s.pending
    requires Bounded(s, batchSize)
    ensures Bounded(Dispatched(s, batchSize, order).0, batchSize)
    decreases |s.queue|
  {
    if s.queue != [] && s.queue[0] in s.completed {
      DispatchIsBounded(s.(queue := s.queue[1..]), batchSize, order);
    } else if s.queue != [] && Failures(s.failed, s.queue[0]) < RETRY_LIMIT {
      var peer := FirstAvailable(s.pending, batchSize, order);
      if peer.Some? {
        DispatchIsBounded(
          s.(queue := s.queue[1..], pending := s.pending[peer.value := s.pending[peer.value] + [s.queue[0]]]),
          batchSize, order);
      }
    }
  }

  /** No peer holds more than a batch, and nothing in flight has been answered. */
  ghost predicate Bounded(s: State, batchSize: nat) {
    forall p | p in s.pending ::
      |s.pending[p]| <= batchSize && forall r | r in s.pending[p] :: r !in s.completed
  }

  // ---------- Responses and disconnections ----------

  lemma {:induction false} WithoutCounts(rs: seq<Request>, gone: Request, r: Request)
    ensures Copies(Without(rs, gone), r) == if r == gone then 0 else Copies(rs, r)
  {
    if rs != [] {
      WithoutCounts(rs[1..], gone, r);
      CopiesAppend(if rs[0] == gone then [] else [rs[0]], Without(rs[1..], gone), r);
    }
  }

  lemma {:induction false} WithoutIsPart(rs: seq<Request>, gone: Request)
    ensures |Without(rs, gone)| <= |rs|
    ensures forall r | r in Without(rs, gone) :: r in rs && r != gone
  {
    if rs != [] {
      WithoutIsPart(rs[1..], gone);
    }
  }

  lemma InFlightWithout(pending: InFlightLists, gone: Request, r: Request)
    ensures InFlight(AllWithout(pending, gone), r) == if r == gone then 0 else InFlight(pending, r)
  {
    var kept := AllWithout(pending, gone);
    assert kept.Keys == pending.Keys;
    forall p | p in pending
      ensures Copies(kept[p], r) == if r == gone then 0 else Copies(pending[p], r)
    {
      WithoutCounts(pending[p], gone, r);
    }
    if r == gone {
      forall p | p in kept ensures r !in kept[p] {
        CopiesMember(kept[p], r);
      }
      HeldNowhere(kept, kept.Keys, r);
    } else {
      HeldFrame(kept, pending, pending.Keys, r);
    }
  }

  /** A disconnection moves the peer's requests to the queue and loses nothing. */
  lemma DisconnectConserves(s: State, peer: PeerId, r: Request)
    ensures var t := Disconnected(s, peer);
            && Live(t, r) == Live(s, r)
            && InFlight(t.pending, r) <= InFlight(s.pending, r)
            && t.completed == s.completed && t.failed == s.failed
  {
    if peer in s.pending {
      InFlightRemove(s.pending, peer, r);
      CopiesAppend(s.queue, s.pending[peer], r);
    }
  }

  lemma StartConserves(s: State, peer: PeerId, now: int, r: Request)
    ensures var t := SyncStarted(s, peer, now);
            && Live(t, r) == Live(s, r) && InFlight(t.pending, r) == InFlight(s.pending, r)
            && t.completed == s.completed && t.failed == s.failed
  {
    InFlightUpdate(s.pending, peer, [], r);
  }

  // ---------- One step ----------

  function SubmittedBy(e: Event, r: Request): nat {
    if e.HandleRequest? && e.request == r then 1 else 0
  }

  /** What processing the queue does to the copies of one request. */
  lemma ProcessCounts(s: State, batchSize: nat, order: seq<PeerId>, now: int, r: Request)
    requires Enumerates(order, s.pending.Keys)
    ensures forall p | p in order :: p in s.pending
    ensures var t := QueueProcessed(s, batchSize, order, now).0;
            && Live(t, r) <= Live(s, r)
            && (!MayRetire(t, r) ==> Live(t, r) == Live(s, r))
            && t.completed == s.completed
            && Failures(t.failed, r) >= Failures(s.failed, r)
            && (|| Failures(t.failed, r) + InFlight(t.pending, r) == Failures(s.failed, r) + InFlight(s.pending, r)
                || !MayRetire(t, r))
  {
    EnumeratedPeers(order, s.pending);
    TimeoutsConserve(s, order, now, r);
    var s1 := TimeoutsChecked(s, order, now);
    var n, stop := DispatchHasShape(s1, batchSize, order);
    var (t, outcome) := Dispatched(s1, batchSize, order);
    DispatchCounts(s1, t, outcome, batchSize, n, stop, r);
  }

  /** What one event does to the copies and the retry potential of one request. */
  lemma StepCounts(s: State, batchSize: nat, e: Event, r: Request)
    requires Legal(s, e)
    ensures var t := Step(s, batchSize, e).0;
            && Live(t, r) <= Live(s, r) + SubmittedBy(e, r)
            && (!MayRetire(t, r) ==> Live(t, r) == Live(s, r) + SubmittedBy(e, r))
            && (MayRetire(s, r) ==> MayRetire(t, r))
            && (|| Failures(t.failed, r) + InFlight(t.pending, r) <= Failures(s.failed, r) + InFlight(s.pending, r)
                || !MayRetire(t, r))
  {
    match e
    case StartSync(peer, now) => StartConserves(s, peer, now, r);
    case HandleRequest(request, order, now) =>
      CopiesAppend(s.queue, [request], r);
      ProcessCounts(s.(queue := s.queue + [request]), batchSize, order, now, r);
    case HandleResponse(response, stamp, order, now) => ResponseCounts(s, batchSize, e, r);
    case PeerDisconnected(peer) => DisconnectConserves(s, peer, r);
  }

  lemma ResponseCounts(s: State, batchSize: nat, e: Event, r: Request)
    requires Legal(s, e) && e.HandleResponse?
    ensures var t := Step(s, batchSize, e).0;
            && Live(t, r) <= Live(s, r)
            && (!MayRetire(t, r) ==> Live(t, r) == Live(s, r))
            && (MayRetire(s, r) ==> MayRetire(t, r))
            && (|| Failures(t.failed, r) + InFlight(t.pending, r) <= Failures(s.failed, r) + InFlight(s.pending, r)
                || !MayRetire(t, r))
  {
    var recorded := ResponseRecorded(s, e.response, e.stamp, e.now);
    InFlightWithout(s.pending, Answered(e.response, e.stamp), r);
    ProcessCounts(recorded, batchSize, e.order, e.now, r);
  }

  /** When failures are counted: a request or response handled at `now` charges a request one failure
      for each of its copies in flight that is older than 30 seconds, unless it is the one the
      response answers; nothing else charges any, and none is ever forgotten. */
  lemma FailuresExactly(s: State, batchSize: nat, e: Event, r: Request)
    requires Legal(s, e)
    ensures Failures(Step(s, batchSize, e).0.failed, r)
         == Failures(s.failed, r)
            + if (e.HandleRequest? || (e.HandleResponse? && r != Answered(e.response, e.stamp)))
                 && e.now - r.timestamp > 30_000
              then InFlight(s.pending, r) else 0
  {
    if e.HandleRequest? || e.HandleResponse? {
      var s0 := if e.HandleRequest? then s.(queue := s.queue + [e.request])
                else ResponseRecorded(s, e.response, e.stamp, e.now);
      if e.HandleResponse? {
        InFlightWithout(s.pending, Answered(e.response, e.stamp), r);
      }
      assert s0.failed == s.failed && s0.pending.Keys == s.pending.Keys;
      TimeoutsExactly(s0, e.order, e.now, r);
      var s1 := TimeoutsChecked(s0, e.order, e.now);
      var n, stop := DispatchHasShape(s1, batchSize, e.order);
      assert Step(s, batchSize, e).0.failed == s1.failed;
    }
  }

  // ---------- Whole runs ----------

  /** `states` is a run of the scheduler on `es`, from its construction. */
  ghost predicate IsRun(batchSize: nat, states: seq<State>, es: seq<Event>) {
    && |states| == |es| + 1
    && (exists now :: states[0] == Initial(now))
    && forall i | 0 <= i < |es| ::
         Legal(states[i], es[i]) && states[i + 1] == Step(states[i], batchSize, es[i]).0
  }

  /** How often `r` was handed to handle_request. */
  function Submissions(es: seq<Event>, r: Request): nat {
    if es == [] then 0 else Submissions(es[..|es| - 1], r) + SubmittedBy(es[|es| - 1], r)
  }

  lemma RunPrefix(batchSize: nat, states: seq<State>, es: seq<Event>)
    requires IsRun(batchSize, states, es) && es != []
    ensures IsRun(batchSize, states[..|es|], es[..|es| - 1])
    ensures var s := states[|es| - 1];
            Legal(s, es[|es| - 1]) && states[|es|] == Step(s, batchSize, es[|es| - 1]).0
  {
  }

  /** Request conservation: nothing is invented, and every submitted copy is still queued or in
      flight unless its request was answered or has used up its retries. */
  lemma {:induction false} Conservation(batchSize: nat, states: seq<State>, es: seq<Event>, r: Request)
    requires IsRun(batchSize, states, es)
    ensures Live(states[|es|], r) <= Submissions(es, r)
    ensures !MayRetire(states[|es|], r) ==> Live(states[|es|], r) == Submissions(es, r)
  {
    if es != [] {
      RunPrefix(batchSize, states, es);
      Conservation(batchSize, states[..|es|], es[..|es| - 1], r);
      StepCounts(states[|es| - 1], batchSize, es[|es| - 1], r);
    }
  }

  /** Retry budget: timeouts so far plus copies still in flight stay within two plus the number of
      submissions. */
  lemma {:induction false} RetryBudget(batchSize: nat, states: seq<State>, es: seq<Event>, r: Request)
    requires IsRun(batchSize, states, es)
    ensures var s := states[|es|];
            Failures(s.failed, r) + InFlight(s.pending, r) <= 2 + Submissions(es, r)
  {
    if es != [] {
      RunPrefix(batchSize, states, es);
      RetryBudget(batchSize, states[..|es|], es[..|es| - 1], r);
      StepCounts(states[|es| - 1], batchSize, es[|es| - 1], r);
      Conservation(batchSize, states, es, r);
    }
  }

  /** So a request submitted once times out at most three times, in any run. */
  lemma SubmittedOnceTimesOutAtMostLimit(batchSize: nat, states: seq<State>, es: seq<Event>, r: Request)
    requires IsRun(batchSize, states, es) && Submissions(es, r) <= 1
    ensures Failures(states[|es|].failed, r) <= 3
  {
    RetryBudget(batchSize, states, es, r);
  }

  lemma StepIsBounded(s: State, batchSize: nat, e: Event)
    requires Legal(s, e) && Bounded(s, batchSize)
    ensures Bounded(Step(s, batchSize, e).0, batchSize)
  {
    match e
    case StartSync(peer, now) =>
    case PeerDisconnected(peer) =>
    case HandleRequest(request, order, now) =>
      ProcessIsBounded(s.(queue := s.queue + [request]), batchSize, order, now);
    case HandleResponse(response, stamp, order, now) =>
      ResponseIsBounded(s, batchSize, response, stamp, now);
      ProcessIsBounded(ResponseRecorded(s, response, stamp, now), batchSize, order, now);
  }

  lemma ResponseIsBounded(s: State, batchSize: nat, response: Response, stamp: int, now: int)
    requires Bounded(s, batchSize)
    ensures Bounded(ResponseRecorded(s, response, stamp, now), batchSize)
  {
    forall p | p in s.pending {
      WithoutIsPart(s.pending[p], Answered(response, stamp));
    }
  }

  lemma ProcessIsBounded(s: State, batchSize: nat, order: seq<PeerId>, now: int)
    requires Enumerates(order, s.pending.Keys) && Bounded(s, batchSize)
    ensures forall p | p in order :: p in s.pending
    ensures Bounded(QueueProcessed(s, batchSize, order, now).0, batchSize)
  {
    EnumeratedPeers(order, s.pending);
    TimeoutsAreBounded(s, batchSize, order, now);
    DispatchIsBounded(TimeoutsChecked(s, order, now), batchSize, order);
  }

  lemma {:induction false} TimeoutsAreBounded(s: State, batchSize: nat, order: seq<PeerId>, now: int)
    requires forall p | p in order :: p in s.pending
    requires Bounded(s, batchSize)
    ensures Bounded(TimeoutsChecked(s, order, now), batchSize)
    decreases |order|
  {
    if order != [] {
      UnexpiredIsPart(s.pending[order[0]], now);
      TimeoutsAreBounded(PeerTimedOut(s, order[0], now), batchSize, order[1..], now);
    }
  }

  lemma {:induction false} RunIsBounded(batchSize: nat, states: seq<State>, es: seq<Event>)
    requires IsRun(batchSize, states, es)
    ensures Bounded(states[|es|], batchSize)
  {
    if es != [] {
      RunPrefix(batchSize, states, es);
      RunIsBounded(batchSize, states[..|es|], es[..|es| - 1]);
      StepIsBounded(states[|es| - 1], batchSize, es[|es| - 1]);
    }
  }

  /** Work conservation: whenever a reachable scheduler processes its queue successfully,
      afterwards the queue is empty or every peer holds exactly a full batch. */
  lemma WorkConserving(batchSize: nat, states: seq<State>, es: seq<Event>, e: Event)
    requires IsRun(batchSize, states, es)
    requires (e.HandleRequest? || e.HandleResponse?) && Legal(states[|es|], e)
    requires Step(states[|es|], batchSize, e).1.Ok?
    ensures var t := Step(states[|es|], batchSize, e).0;
            t.queue == [] || forall p | p in t.pending :: |t.pending[p]| == batchSize
  {
    RunIsBounded(batchSize, states, es);
    var s := states[|es|];
    StepIsBounded(s, batchSize, e);
    var s0 := if e.HandleRequest? then s.(queue := s.queue + [e.request])
              else ResponseRecorded(s, e.response, e.stamp, e.now);
    EnumeratedPeers(e.order, s.pending);
    var n, stop := DispatchHasShape(TimeoutsChecked(s0, e.order, e.now), batchSize, e.order);
  }

  // ---------- Status ----------

  lemma LiveMember(s: State, r: Request)
    ensures Live(s, r) == 0 <==> r !in s.queue && forall p | p in s.pending :: r !in s.pending[p]
  {
    CopiesMember(s.queue, r);
    HeldNowhere(s.pending, s.pending.Keys, r);
  }

  lemma NothingLive(s: State)
    ensures (forall r :: Live(s, r) == 0) <==> s.queue == [] && NothingInFlight(s.pending)
  {
    forall r
      ensures Live(s, r) == 0 <==> r !in s.queue && forall p | p in s.pending :: r !in s.pending[p]
    {
      LiveMember(s, r);
    }
    if s.queue != [] {
      assert Live(s, s.queue[0]) != 0;
    }
    if p :| p in s.pending && s.pending[p] != [] {
      var r := s.pending[p][0];
      assert r in s.pending[p];
      assert Live(s, r) != 0;
    }
  }

  /** After a handler has processed the queue, the scheduler is idle exactly when it succeeded and
      left nothing to do, or was idle before. */
  lemma ProcessIdlesExactly(s: State, batchSize: nat, order: seq<PeerId>, now: int)
    requires Enumerates(order, s.pending.Keys)
    ensures forall p | p in order :: p in s.pending
    ensures var (t, outcome) := QueueProcessed(s, batchSize, order, now);
            t.status.Idle? <==> (outcome.Ok? && forall r :: Live(t, r) == 0) || s.status.Idle?
  {
    EnumeratedPeers(order, s.pending);
    var s1 := TimeoutsChecked(s, order, now);
    TimeoutsConserve(s, order, now, Request(0, "", [], 0));
    var n, stop := DispatchHasShape(s1, batchSize, order);
    NothingLive(QueueProcessed(s, batchSize, order, now).0);
  }

  lemma IdleExactly(s: State, batchSize: nat, e: Event)
    requires Legal(s, e)
    ensures var (t, outcome) := Step(s, batchSize, e);
            t.status.Idle? <==>
              || ((e.HandleRequest? || e.HandleResponse?) && outcome.Ok? && forall r :: Live(t, r) == 0)
              || (s.status.Idle? && !e.StartSync?)
  {
    match e
    case HandleRequest(request, order, now) =>
      ProcessIdlesExactly(s.(queue := s.queue + [request]), batchSize, order, now);
    case HandleResponse(response, stamp, order, now) =>
      ProcessIdlesExactly(ResponseRecorded(s, response, stamp, now), batchSize, order, now);
    case _ =>
  }

  /** While syncing goes on, the current block is the highest answered so far, the peer count falls
      by one per disconnection, and nothing else moves either. */
  lemma ProgressExactly(s: State, batchSize: nat, e: Event)
    requires Legal(s, e) && s.status.Syncing? && Step(s, batchSize, e).0.status.Syncing?
    ensures var was, now := s.status, Step(s, batchSize, e).0.status;
            && now.currentBlock == (if e.HandleResponse? && e.response.blockNumber > was.currentBlock
                                   then e.response.blockNumber else was.currentBlock)
            && now.peers == (if e.PeerDisconnected? && was.peers > 0 then was.peers - 1 else was.peers)
            && now.targetBlock == was.targetBlock
  {
    if e.HandleRequest? || e.HandleResponse? {
      var s0 := if e.HandleRequest? then s.(queue := s.queue + [e.request])
                else ResponseRecorded(s, e.response, e.stamp, e.now);
      ProcessStatus(s0, batchSize, e.order, e.now);
    }
  }

  /** Processing the queue leaves the status, turns a stalled sync into an error, or ends idle. */
  lemma ProcessStatus(s: State, batchSize: nat, order: seq<PeerId>, now: int)
    requires Enumerates(order, s.pending.Keys)
    ensures forall p | p in order :: p in s.pending
    ensures var (t, outcome) := QueueProcessed(s, batchSize, order, now);
            var stalled := s.status.Syncing? && now - s.lastProgress > STALL_MS;
            && t.status == (if outcome.Ok? && t.queue == [] && NothingInFlight(t.pending) then Idle
                            else if stalled then Error else s.status)
            && t.lastProgress == s.lastProgress
            && t.pending.Keys == s.pending.Keys
  {
    EnumeratedPeers(order, s.pending);
    TimeoutsConserve(s, order, now, Request(0, "", [], 0));
    TimeoutsKeepProgress(s, order, now);
    var n, stop := DispatchHasShape(TimeoutsChecked(s, order, now), batchSize, order);
  }

  lemma {:induction false} TimeoutsKeepProgress(s: State, order: seq<PeerId>, now: int)
    requires forall p | p in order :: p in s.pending
    ensures TimeoutsChecked(s, order, now).lastProgress == s.lastProgress
    decreases |order|
  {
    if order != [] {
      var s1 := PeerTimedOut(s, order[0], now);
      TimeoutsKeepProgress(s1, order[1..], now);
      assert PeersTimedOut(s, order, now) == PeersTimedOut(s1, order[1..], now);
    }
  }

  /** A sync that makes no progress for five minutes is reported as an error by the next request or
      response handled, unless that handler makes progress itself or also finishes the work. */
  lemma StallIsReported(s: State, batchSize: nat, e: Event)
    requires Legal(s, e) && s.status.Syncing? && (e.HandleRequest? || e.HandleResponse?)
    ensures var (t, outcome) := Step(s, batchSize, e);
            && t.lastProgress == (if e.HandleResponse? && e.response.blockNumber > s.status.currentBlock then e.now
                                  else s.lastProgress)
            && (t.status.Error?
                <==> e.now - t.lastProgress > 300_000 && !(outcome.Ok? && forall r :: Live(t, r) == 0))
  {
    var s0 := if e.HandleRequest? then s.(queue := s.queue + [e.request])
              else ResponseRecorded(s, e.response, e.stamp, e.now);
    ProcessStatus(s0, batchSize, e.order, e.now);
    NothingLive(QueueProcessed(s0, batchSize, e.order, e.now).0);
  }

  /** Becoming idle therefore means nothing is queued or in flight. */
  lemma BecomesIdleWhenDone(s: State, batchSize: nat, e: Event)
    requires Legal(s, e)
    requires !s.status.Idle? && Step(s, batchSize, e).0.status.Idle?
    ensures forall r :: Live(Step(s, batchSize, e).0, r) == 0
  {
    IdleExactly(s, batchSize, e);
  }

  lemma {:induction false} NothingTimesOut(s: State, order: seq<PeerId>, now: int)
    requires forall p | p in order :: p in s.pending
    requires NothingInFlight(s.pending)
    ensures PeersTimedOut(s, order, now) == s
    decreases |order|
  {
    if order != [] {
      assert s.pending[order[0] := []] == s.pending;
      assert s.(pending := s.pending, failed := s.failed, queue := s.queue + []) == s;
      NothingTimesOut(s, order[1..], now);
    }
  }

  /** A request that may be retired is dropped by a scheduler with nothing else to do. */
  lemma RetiredIsDropped(s: State, batchSize: nat, r: Request, order: seq<PeerId>, now: int)
    requires Enumerates(order, s.pending.Keys)
    requires s.queue == [] && NothingInFlight(s.pending) && MayRetire(s, r)
    ensures forall p | p in order :: p in s.pending
    ensures forall q :: Live(QueueProcessed(s.(queue := [r]), batchSize, order, now).0, q) == 0
  {
    EnumeratedPeers(order, s.pending);
    var s0 := s.(queue := [r]);
    NothingTimesOut(s0, order, now);
    var s1 := TimeoutsChecked(s0, order, now);
    var rest := s1.(queue := []);
    assert s1.queue[0] == r && s1.(queue := s1.queue[1..]) == rest;
    assert Dispatched(rest, batchSize, order) == (rest, Ok);
    assert Dispatched(s1, batchSize, order).0 == rest;
    NothingLive(QueueProcessed(s0, batchSize, order, now).0);
  }

  /** Idle means done until the next request, and no longer: an idle scheduler with nothing to do
      stays idle whatever happens short of a start, and has nothing to do afterwards exactly when
      it was not just handed a request that was still to be answered and had retries left. */
  lemma IdleMeansDoneExactly(s: State, batchSize: nat, e: Event)
    requires Legal(s, e) && !e.StartSync?
    requires s.status.Idle? && forall q :: Live(s, q) == 0
    ensures var t := Step(s, batchSize, e).0;
            t.status.Idle? && ((forall q :: Live(t, q) == 0) <==> (e.HandleRequest? ==> MayRetire(s, e.request)))
  {
    IdleExactly(s, batchSize, e);
    NothingLive(s);
    var t := Step(s, batchSize, e).0;
    forall q
      ensures Live(t, q) <= SubmittedBy(e, q)
      ensures !MayRetire(t, q) ==> Live(t, q) == SubmittedBy(e, q)
    {
      StepCounts(s, batchSize, e, q);
    }
    if e.HandleRequest? {
      if MayRetire(s, e.request) {
        assert s.queue + [e.request] == [e.request];
        RetiredIsDropped(s, batchSize, e.request, e.order, e.now);
      } else {
        RequestStays(s, batchSize, e.request, e.order, e.now);
      }
    }
  }

  /** A request handed to a scheduler with nothing to do stays with it unless it may be retired. */
  lemma RequestStays(s: State, batchSize: nat, r: Request, order: seq<PeerId>, now: int)
    requires Legal(s, HandleRequest(r, order, now))
    requires s.queue == [] && NothingInFlight(s.pending) && !MayRetire(s, r)
    ensures Live(Step(s, batchSize, HandleRequest(r, order, now)).0, r) == 1
  {
    EnumeratedPeers(order, s.pending);
    var s0 := s.(queue := s.queue + [r]);
    NothingLive(s);
    CopiesAppend(s.queue, [r], r);
    assert Live(s0, r) == Live(s, r) + 1 == 1;
    NothingTimesOut(s0, order, now);
    var s1 := TimeoutsChecked(s0, order, now);
    assert s1 == s0.(status := s1.status);
    assert Live(s1, r) == Live(s0, r) && !MayRetire(s1, r);
    DispatchKeeps(s1, batchSize, order, r);
    var t := Dispatched(s1, batchSize, order).0;
    assert Live(QueueProcessed(s0, batchSize, order, now).0, r) == Live(t, r);
  }

  lemma DispatchKeeps(s: State, batchSize: nat, order: seq<PeerId>, r: Request)
    requires Enumerates(order, s.pending.Keys) && !MayRetire(s, r)
    ensures forall p | p in order :: p in s.pending
    ensures Live(Dispatched(s, batchSize, order).0, r) == Live(s, r)
  {
    EnumeratedPeers(order, s.pending);
    var n, stop := DispatchHasShape(s, batchSize, order);
    var (t, outcome) := Dispatched(s, batchSize, order);
    DispatchCounts(s, t, outcome, batchSize, n, stop, r);
  }

  /** Over any run: once idle, the scheduler stays idle, and so reports no stall, until it is started. */
  lemma {:induction false} IdleUntilStarted(batchSize: nat, states: seq<State>, es: seq<Event>, i: nat, j: nat)
    requires IsRun(batchSize, states, es) && i <= j <= |es|
    requires states[i].status.Idle? && forall k | i <= k < j :: !es[k].StartSync?
    ensures states[j].status.Idle?
    decreases j
  {
    if i < j {
      IdleUntilStarted(batchSize, states, es, i, j - 1);
      IdleExactly(states[j - 1], batchSize, es[j - 1]);
    }
  }

  /** For instance a request taken before any peer waits in the queue of an idle scheduler. */
  lemma IdleWithWorkWaiting(r: Request, now: int)
    ensures var (t, outcome) := Step(Initial(now), 1, HandleRequest(r, [], now));
            t.status.Idle? && outcome.Ok? && t.queue == [r]
  {
    var s := Initial(now).(queue := Initial(now).queue + [r]);
    assert s.queue == [r];
    assert FirstAvailable(s.pending, 1, []) == None;
    assert s.queue[1..] + [r] == [r];
  }

  // ---------- Peers ----------

  /** The peers started and not disconnected since. */
  function Connected(es: seq<Event>): set<PeerId> {
    if es == [] then {}
    else
      var before := Connected(es[..|es| - 1]);
      match es[|es| - 1]
      case StartSync(peer, _) => before + {peer}
      case PeerDisconnected(peer) => before - {peer}
      case _ => before
  }

  lemma HandlersKeepPeers(s: State, batchSize: nat, e: Event)
    requires Legal(s, e) && (e.HandleRequest? || e.HandleResponse?)
    ensures Step(s, batchSize, e).0.pending.Keys == s.pending.Keys
  {
    var s0 := if e.HandleRequest? then s.(queue := s.queue + [e.request])
              else ResponseRecorded(s, e.response, e.stamp, e.now);
    assert s0.pending.Keys == s.pending.Keys;
    ProcessStatus(s0, batchSize, e.order, e.now);
  }

  /** In any run requests can be sent to exactly the peers started and not disconnected since. */
  lemma {:induction false} PeersExactly(batchSize: nat, states: seq<State>, es: seq<Event>)
    requires IsRun(batchSize, states, es)
    ensures states[|es|].pending.Keys == Connected(es)
  {
    if es != [] {
      RunPrefix(batchSize, states, es);
      PeersExactly(batchSize, states[..|es|], es[..|es| - 1]);
      var s, e := states[|es| - 1], es[|es| - 1];
      if e.HandleRequest? || e.HandleResponse? {
        HandlersKeepPeers(s, batchSize, e);
      }
    }
  }

  /** Starting a peer begins a sync only from idle, with one peer, at block zero, on the clock of the
      start; and it neither sends, queues nor drops anything. Disconnecting one takes its requests
      out of flight and lowers the peer count, whether the peer was known or not. */
  lemma StartAndDisconnect(s: State, batchSize: nat, peer: PeerId, now: int)
    ensures var t := Step(s, batchSize, StartSync(peer, now)).0;
            && t.status == (if s.status.Idle? then Syncing(0, 0, 1) else s.status)
            && t.lastProgress == (if s.status.Idle? then now else s.lastProgress)
            && t.queue == s.queue
            && peer in t.pending && t.pending[peer] == (if peer in s.pending then s.pending[peer] else [])
            && t.pending - {peer} == s.pending - {peer}
    ensures var t := Step(s, batchSize, PeerDisconnected(peer)).0;
            && t.pending == s.pending - {peer}
            && t.queue == s.queue + (if peer in s.pending then s.pending[peer] else [])
            && t.lastProgress == s.lastProgress
            && (s.status.Syncing? ==>
                  t.status == s.status.(peers := if s.status.peers == 0 then 0 else s.status.peers - 1))
            && (!s.status.Syncing? ==> t.status == s.status)
  {
    if peer !in s.pending {
      assert s.pending - {peer} == s.pending;
    }
  }

  /** Only the start that leaves idle counts its peer, so the peer count of a sync never exceeds one,
      however many peers are connected; and its target block is never set. */
  lemma {:induction false} PeerCountIsAtMostOne(batchSize: nat, states: seq<State>, es: seq<Event>)
    requires IsRun(batchSize, states, es)
    ensures var status := states[|es|].status;
            status.Syncing? ==> status.peers <= 1 && status.targetBlock == 0
  {
    if es != [] {
      RunPrefix(batchSize, states, es);
      PeerCountIsAtMostOne(batchSize, states[..|es|], es[..|es| - 1]);
      var s, e := states[|es| - 1], es[|es| - 1];
      if s.status.Syncing? && states[|es|].status.Syncing? {
        ProgressExactly(s, batchSize, e);
      } else if e.HandleRequest? || e.HandleResponse? {
        var s0 := if e.HandleRequest? then s.(queue := s.queue + [e.request])
                  else ResponseRecorded(s, e.response, e.stamp, e.now);
        ProcessStatus(s0, batchSize, e.order, e.now);
      }
    }
  }

  // ---------- Responses at their instant ----------

  /** A response takes the in-flight copies of `r` out of flight exactly when it names `r` and arrives
      at the very clock reading `r` was stamped with; otherwise every copy stays in flight. */
  lemma ResponseAnswersOnlyItsInstant(s: State, response: Response, stamp: int, now: int, r: Request)
    ensures InFlight(ResponseRecorded(s, response, stamp, now).pending, r)
         == if r == Request(response.blockNumber, response.account, response.storageKeys, stamp)
            then 0 else InFlight(s.pending, r)
  {
    InFlightWithout(s.pending, Answered(response, stamp), r);
  }
}
