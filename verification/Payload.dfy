/** Payload resolution: a block names batches of transactions by proof of availability, and execution and
    commit must see the same transactions whatever happens to the fetches in between. */
module PayloadModel {
  import opened Common
  import opened ConsensusTypes

  type Txn = nat

  /** Batch contents by digest. */
  type Batches = HashValue -> seq<Txn>

  datatype LogicalTime = LogicalTime(epoch: Epoch, round: Round)
  {
    predicate Le(other: LogicalTime)
    {
      epoch < other.epoch || (epoch == other.epoch && round <= other.round)
    }
  }

  datatype ProofOfStore = ProofOfStore(digest: HashValue, expiration: LogicalTime)

  datatype Error = DataNotFound(digest: HashValue) | BatchError(code: nat) | ExecutorError | EmptyBlocks

  datatype Outcome<+T> = Success(value: T) | Failure(error: Error) | Panicked

  /** What awaiting a receiver yields. */
  datatype Reply = Dropped | Failed(error: Error) | Delivered(txns: seq<Txn>)

  datatype DataStatus = Requested(receivers: seq<HashValue>) | Cached(txns: seq<Txn>)

  /** A receiver nobody answers is dropped. */
  function ReplyAt(replies: seq<Reply>, i: nat): Reply
  {
    if i < |replies| then replies[i] else Dropped
  }

  // ------------------------------------------------------------ specification

  /** The digests that are requested: proofs not expired at the block's time, in order. */
  function Unexpired(time: LogicalTime, proofs: seq<ProofOfStore>): seq<HashValue>
  {
    if proofs == [] then []
    else
      var p := proofs[|proofs| - 1];
      Unexpired(time, proofs[..|proofs| - 1]) + if time.Le(p.expiration) then [p.digest] else []
  }

  function Contents(batches: Batches, digests: seq<HashValue>): seq<Txn>
  {
    if digests == [] then []
    else Contents(batches, digests[..|digests| - 1]) + batches(digests[|digests| - 1])
  }

  /** The transactions a block stands for. */
  function Expected(batches: Batches, time: LogicalTime, proofs: seq<ProofOfStore>): seq<Txn>
  {
    Contents(batches, Unexpired(time, proofs))
  }

  /** Where the first of `n` replies that is not data sits, or `n`. */
  function FirstFailure(replies: seq<Reply>, n: nat): (k: nat)
    ensures k <= n && (forall i :: 0 <= i < k ==> ReplyAt(replies, i).Delivered?)
    ensures k < n ==> !ReplyAt(replies, k).Delivered?
  {
    if n == 0 then 0
    else
      var k := FirstFailure(replies, n - 1);
      if k < n - 1 || !ReplyAt(replies, k).Delivered? then k else n
  }

  function Join(replies: seq<Reply>, n: nat): seq<Txn>
    requires forall i :: 0 <= i < n ==> ReplyAt(replies, i).Delivered?
  {
    if n == 0 then [] else Join(replies, n - 1) + ReplyAt(replies, n - 1).txns
  }

  datatype Event = Prefetch | Get(replies: seq<Reply>)

  /** One call on the status cell.  Reading a cell that was never filled in is a panic. */
  function Call(time: LogicalTime, proofs: seq<ProofOfStore>, s: Option<DataStatus>, e: Event)
    : (Option<DataStatus>, Outcome<seq<Txn>>)
  {
    match e
    case Prefetch => (if s.None? then Some(Requested(Unexpired(time, proofs))) else s, Success([]))
    case Get(replies) =>
      if s.None? then (None, Panicked)
      else if s.value.Cached? then (s, Success(s.value.txns))
      else
        var n := |s.value.receivers|;
        var k := FirstFailure(replies, n);
        if k == n then (Some(Cached(Join(replies, n))), Success(Join(replies, n)))
        else
          var error := if ReplyAt(replies, k).Dropped? then DataNotFound(s.value.receivers[k]) else ReplyAt(replies, k).error;
          (Some(Requested(Unexpired(time, proofs))), Failure(error))
  }

  function StatusAfter(time: LogicalTime, proofs: seq<ProofOfStore>, s: Option<DataStatus>, events: seq<Event>)
    : Option<DataStatus>
  {
    if events == [] then s
    else Call(time, proofs, StatusAfter(time, proofs, s, events[..|events| - 1]), events[|events| - 1]).0
  }

  function ResultAt(time: LogicalTime, proofs: seq<ProofOfStore>, s: Option<DataStatus>, events: seq<Event>, i: nat)
    : Outcome<seq<Txn>>
    requires i < |events|
  {
    Call(time, proofs, StatusAfter(time, proofs, s, events[..i]), events[i]).1
  }

  // --------------------------------------------------------------- the class

  /** The status cell a block carries with its proofs. */
  class ProofWithStatus {
    const proofs: seq<ProofOfStore>
    var status: Option<DataStatus>

    constructor (proofs: seq<ProofOfStore>)
      ensures this.proofs == proofs && status == None
    {
      this.proofs := proofs;
      status := None;
    }

    method Prefetch(time: LogicalTime)
      modifies this
      ensures status == Call(time, proofs, old(status), Event.Prefetch).0
    {
      if status.None? {
        var receivers := RequestTransactions(proofs, time);
        status := Some(Requested(receivers));
      }
    }

    method GetTransactions(time: LogicalTime, replies: seq<Reply>) returns (r: Outcome<seq<Txn>>)
      requires status.Some?
      modifies this
      ensures (status, r) == Call(time, proofs, old(status), Get(replies))
    {
      var taken := status.value;
      status := None;
      match taken
      case Cached(data) =>
        status := Some(Cached(data));
        return Success(data);
      case Requested(receivers) =>
        var collected: seq<seq<Txn>> := [];
        var i := 0;
        while i < |receivers|
          invariant i <= |receivers| && FirstFailure(replies, i) == i
          invariant |collected| == i
          invariant forall j :: 0 <= j < i ==> ReplyAt(replies, j).Delivered? && collected[j] == ReplyAt(replies, j).txns
          invariant status == None
        {
          var reply := ReplyAt(replies, i);
          if !reply.Delivered? {
            FirstFailureStable(replies, i, |receivers|);
            var again := RequestTransactions(proofs, time);
            status := Some(Requested(again));
            return Failure(if reply.Dropped? then DataNotFound(receivers[i]) else reply.error);
          }
          collected := collected + [reply.txns];
          i := i + 1;
        }
        var data := Flatten(collected, replies);
        status := Some(Cached(data));
        return Success(data);
    }
  }

  lemma {:induction false} FirstFailureStable(replies: seq<Reply>, k: nat, n: nat)
    requires k < n && FirstFailure(replies, k) == k && !ReplyAt(replies, k).Delivered?
    ensures FirstFailure(replies, n) == k
    decreases n
  {
    if k + 1 < n {
      FirstFailureStable(replies, k, n - 1);
    }
  }

  method Flatten(parts: seq<seq<Txn>>, ghost replies: seq<Reply>) returns (r: seq<Txn>)
    requires forall j :: 0 <= j < |parts| ==> ReplyAt(replies, j).Delivered? && parts[j] == ReplyAt(replies, j).txns
    ensures r == Join(replies, |parts|)
  {
    r := [];
    for i := 0 to |parts|
      invariant r == Join(replies, i)
    {
      r := r + parts[i];
    }
  }

  method RequestTransactions(proofs: seq<ProofOfStore>, time: LogicalTime) returns (receivers: seq<HashValue>)
    ensures receivers == Unexpired(time, proofs)
  {
    receivers := [];
    for i := 0 to |proofs|
      invariant receivers == Unexpired(time, proofs[..i])
    {
      assert proofs[..i + 1][..i] == proofs[..i];
      if time.Le(proofs[i].expiration) {
        receivers := receivers + [proofs[i].digest];
      }
    }
    assert proofs[..|proofs|] == proofs;
  }

  // -------------------------------------------------------------- determinism

  /** The batch reader hands out only data that hashes to the digest asked for. */
  ghost predicate Genuine(batches: Batches, digests: seq<HashValue>, replies: seq<Reply>)
  {
    forall i :: 0 <= i < |digests| && ReplyAt(replies, i).Delivered? ==> ReplyAt(replies, i).txns == batches(digests[i])
  }

  /** A filled cell either awaits the block's batches or holds the block's transactions. */
  ghost predicate Settled(batches: Batches, time: LogicalTime, proofs: seq<ProofOfStore>, s: Option<DataStatus>)
  {
    && s.Some?
    && (s.value.Requested? ==> s.value.receivers == Unexpired(time, proofs))
    && (s.value.Cached? ==> s.value.txns == Expected(batches, time, proofs))
  }

  lemma {:induction false} JoinIsContents(batches: Batches, digests: seq<HashValue>, replies: seq<Reply>, n: nat)
    requires n <= |digests| && Genuine(batches, digests, replies)
    requires forall i :: 0 <= i < n ==> ReplyAt(replies, i).Delivered?
    ensures Join(replies, n) == Contents(batches, digests[..n])
  {
    if n > 0 {
      JoinIsContents(batches, digests, replies, n - 1);
      assert digests[..n][..n - 1] == digests[..n - 1];
    }
  }

  lemma CallSettles(batches: Batches, time: LogicalTime, proofs: seq<ProofOfStore>, s: Option<DataStatus>, e: Event)
    requires e.Get? ==> Genuine(batches, Unexpired(time, proofs), e.replies)
    requires Settled(batches, time, proofs, s)
    ensures var (s', r) := Call(time, proofs, s, e);
            && Settled(batches, time, proofs, s')
            && r != Panicked
            && (e.Get? && r.Success? ==> r.value == Expected(batches, time, proofs) && s'.value.Cached?)
            && (s.value.Cached? ==> s' == s && r.Success?)
  {
    if e.Get? && s.value.Requested? {
      var digests := Unexpired(time, proofs);
      if FirstFailure(e.replies, |digests|) == |digests| {
        JoinIsContents(batches, digests, e.replies, |digests|);
        assert digests[..|digests|] == digests;
      }
    }
  }

  /** Runs in which a prefetch came first. */
  ghost predicate PrefetchedRun(batches: Batches, time: LogicalTime, proofs: seq<ProofOfStore>, events: seq<Event>)
  {
    && events != [] && events[0] == Prefetch
    && forall i :: 0 <= i < |events| && events[i].Get? ==> Genuine(batches, Unexpired(time, proofs), events[i].replies)
  }

  lemma {:induction false} RunSettles(batches: Batches, time: LogicalTime, proofs: seq<ProofOfStore>, events: seq<Event>, n: nat)
    requires PrefetchedRun(batches, time, proofs, events) && 0 < n <= |events|
    ensures Settled(batches, time, proofs, StatusAfter(time, proofs, None, events[..n]))
  {
    var front := events[..n];
    assert front[..n - 1] == events[..n - 1];
    if n > 1 {
      RunSettles(batches, time, proofs, events, n - 1);
      CallSettles(batches, time, proofs, StatusAfter(time, proofs, None, events[..n - 1]), events[n - 1]);
    }
  }

  /** Through any drops, errors and retries, the cell is filled between calls, no call panics, and all
      successful reads agree on the batches unexpired at the block's time, in proof order. */
  lemma PayloadDeterministic(batches: Batches, time: LogicalTime, proofs: seq<ProofOfStore>, events: seq<Event>, i: nat)
    requires PrefetchedRun(batches, time, proofs, events) && i < |events|
    ensures StatusAfter(time, proofs, None, events[..i + 1]).Some?
    ensures ResultAt(time, proofs, None, events, i) != Panicked
    ensures events[i].Get? && ResultAt(time, proofs, None, events, i).Success? ==>
              ResultAt(time, proofs, None, events, i).value == Expected(batches, time, proofs)
  {
    RunSettles(batches, time, proofs, events, i + 1);
    if i > 0 {
      RunSettles(batches, time, proofs, events, i);
      CallSettles(batches, time, proofs, StatusAfter(time, proofs, None, events[..i]), events[i]);
    }
  }

  /** Once a read succeeded every later one does, whatever the network answers. */
  lemma {:induction false} SuccessIsLasting(batches: Batches, time: LogicalTime, proofs: seq<ProofOfStore>,
                                            events: seq<Event>, i: nat, j: nat)
    requires PrefetchedRun(batches, time, proofs, events) && i < j < |events|
    requires events[i].Get? && ResultAt(time, proofs, None, events, i).Success?
    ensures StatusAfter(time, proofs, None, events[..j]) == Some(Cached(Expected(batches, time, proofs)))
    ensures ResultAt(time, proofs, None, events, j).Success?
    decreases j
  {
    var before := StatusAfter(time, proofs, None, events[..j - 1]);
    assert events[..j][..j - 1] == events[..j - 1];
    if j == i + 1 {
      RunSettles(batches, time, proofs, events, i);
      CallSettles(batches, time, proofs, before, events[i]);
    } else {
      SuccessIsLasting(batches, time, proofs, events, i, j - 1);
    }
  }

  /** The prefetch is what it takes: a run is free of panics exactly when it does not start with a read. */
  lemma NeverPanicsExactly(batches: Batches, time: LogicalTime, proofs: seq<ProofOfStore>, events: seq<Event>)
    requires forall i :: 0 <= i < |events| && events[i].Get? ==> Genuine(batches, Unexpired(time, proofs), events[i].replies)
    ensures (forall i :: 0 <= i < |events| ==> ResultAt(time, proofs, None, events, i) != Panicked)
            <==> (events == [] || events[0] == Prefetch)
  {
    if events != [] && events[0] != Prefetch {
      assert ResultAt(time, proofs, None, events, 0) == Panicked;
    } else {
      forall i | 0 <= i < |events|
        ensures ResultAt(time, proofs, None, events, i) != Panicked
      {
        PayloadDeterministic(batches, time, proofs, events, i);
      }
    }
  }

  // ------------------------------------------------- when a read succeeds, exactly

  /** Proof by proof, a digest is asked for if its expiration is not before the block's epoch and round ... */
  lemma UnexpiredOne(time: LogicalTime, p: ProofOfStore)
    ensures Unexpired(time, [p]) ==
              if p.expiration.epoch < time.epoch || (p.expiration.epoch == time.epoch && p.expiration.round < time.round)
              then [] else [p.digest]
  {
    assert [p][..0] == [];
  }

  /** ... and those that are keep their order. */
  lemma {:induction false} UnexpiredSplit(time: LogicalTime, front: seq<ProofOfStore>, back: seq<ProofOfStore>)
    ensures Unexpired(time, front + back) == Unexpired(time, front) + Unexpired(time, back)
    decreases |back|
  {
    if back == [] {
      assert front + back == front;
    } else {
      var n := |back| - 1;
      UnexpiredSplit(time, front, back[..n]);
      assert (front + back)[..|front| + n] == front + back[..n];
    }
  }

  lemma ContentsOne(batches: Batches, digest: HashValue)
    ensures Contents(batches, [digest]) == batches(digest)
  {
    assert [digest][..0] == [];
  }

  lemma ContentsSnoc(batches: Batches, digests: seq<HashValue>, last: HashValue)
    ensures Contents(batches, digests + [last]) == Contents(batches, digests) + batches(last)
  {
    assert (digests + [last])[..|digests|] == digests;
  }

  /** Batches follow one another in the order they are named. */
  lemma {:induction false} ContentsSplit(batches: Batches, front: seq<HashValue>, back: seq<HashValue>)
    ensures Contents(batches, front + back) == Contents(batches, front) + Contents(batches, back)
    decreases |back|
  {
    if back == [] {
      assert front + back == front;
    } else {
      var rest, last := back[..|back| - 1], back[|back| - 1];
      assert back == rest + [last] && front + back == front + rest + [last];
      ContentsSplit(batches, front, rest);
      ContentsSnoc(batches, rest, last);
      ContentsSnoc(batches, front + rest, last);
    }
  }

  /** Every batch still asked for arrived. */
  ghost predicate AllDelivered(time: LogicalTime, proofs: seq<ProofOfStore>, replies: seq<Reply>)
  {
    forall i :: 0 <= i < |Unexpired(time, proofs)| ==> i < |replies| && replies[i].Delivered?
  }

  /** The error of a read is that of the first batch that did not arrive. */
  ghost predicate FirstMissing(time: LogicalTime, proofs: seq<ProofOfStore>, replies: seq<Reply>, error: Error)
  {
    exists k: nat :: k < |Unexpired(time, proofs)| && (forall i :: 0 <= i < k ==> ReplyAt(replies, i).Delivered?)
      && (match ReplyAt(replies, k)
          case Dropped => error == DataNotFound(Unexpired(time, proofs)[k])
          case Failed(e) => error == e
          case Delivered(_) => false)
  }

  /** One read of a filled cell. */
  lemma ReadExactly(batches: Batches, time: LogicalTime, proofs: seq<ProofOfStore>, s: Option<DataStatus>, replies: seq<Reply>)
    requires Settled(batches, time, proofs, s)
    ensures var (s', r) := Call(time, proofs, s, Get(replies));
            && (r.Success? <==> s.value.Cached? || AllDelivered(time, proofs, replies))
            && (s'.Some? && (s'.value.Cached? <==> r.Success?))
            && (r.Failure? ==> FirstMissing(time, proofs, replies, r.error))
  {
    if s.value.Requested? {
      var n := |Unexpired(time, proofs)|;
      var k := FirstFailure(replies, n);
      assert forall i :: 0 <= i < k ==> ReplyAt(replies, i).Delivered?;
      if k == n {
        forall i | 0 <= i < n
          ensures i < |replies| && replies[i].Delivered?
        {
          assert ReplyAt(replies, i).Delivered?;
        }
      } else {
        assert FirstMissing(time, proofs, replies, Call(time, proofs, s, Get(replies)).1.error);
      }
    }
  }

  ghost predicate DeliveredBy(time: LogicalTime, proofs: seq<ProofOfStore>, events: seq<Event>, n: nat)
  {
    exists j :: 0 <= j < n && j < |events| && events[j].Get? && AllDelivered(time, proofs, events[j].replies)
  }

  lemma {:induction false} CachedExactly(batches: Batches, time: LogicalTime, proofs: seq<ProofOfStore>, events: seq<Event>, n: nat)
    requires PrefetchedRun(batches, time, proofs, events) && 0 < n <= |events|
    ensures var s := StatusAfter(time, proofs, None, events[..n]);
            s.Some? && (s.value.Cached? <==> DeliveredBy(time, proofs, events, n))
  {
    assert events[..n][..n - 1] == events[..n - 1];
    if n > 1 {
      CachedExactly(batches, time, proofs, events, n - 1);
      RunSettles(batches, time, proofs, events, n - 1);
      var before := StatusAfter(time, proofs, None, events[..n - 1]);
      if events[n - 1].Get? {
        ReadExactly(batches, time, proofs, before, events[n - 1].replies);
      }
    }
  }

  /** In every run a read succeeds if and only if it, or some read before it, had every batch that is asked for
      delivered; otherwise its error is that of the first batch that is missing. */
  lemma ReadSucceedsExactly(batches: Batches, time: LogicalTime, proofs: seq<ProofOfStore>, events: seq<Event>, i: nat)
    requires PrefetchedRun(batches, time, proofs, events) && 0 < i < |events| && events[i].Get?
    ensures var r := ResultAt(time, proofs, None, events, i);
            && (r.Success? <==> DeliveredBy(time, proofs, events, i + 1))
            && (r.Failure? ==> FirstMissing(time, proofs, events[i].replies, r.error))
  {
    CachedExactly(batches, time, proofs, events, i);
    RunSettles(batches, time, proofs, events, i);
    ReadExactly(batches, time, proofs, StatusAfter(time, proofs, None, events[..i]), events[i].replies);
  }
}
