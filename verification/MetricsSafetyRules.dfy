/** Catching up and retrying around the safety rules. */
module MetricsSafetyRulesModel {
  import opened Common
  import opened ConsensusTypes
  import opened SafetyRulesModel
  import opened SigningExact

  /** The storage a validator initialises from, which may answer differently at each attempt: `retrieve` is the
      epoch change proof from a version on, `None` on a storage error; no proof reaches past `latest`.
      `stateReadable` is whether the consensus state can be read to begin with. */
  datatype Storage = Storage(
    stateReadable: bool,
    retrieve: (nat, nat) -> Option<EpochChangeProof>,
    latest: nat,
    keyCurrent: (nat, Epoch) -> bool,
    keyFound: (nat, Epoch) -> bool,
    writes: nat -> bool)

  ghost predicate Bounded(st: Storage)
  {
    forall k, v :: st.retrieve(k, v).Some? && st.retrieve(k, v).value.last.Some? ==>
      st.retrieve(k, v).value.last.value.version <= st.latest
  }

  function NextEpoch(proof: EpochChangeProof): Epoch
  {
    if proof.last.Some? && proof.last.value.nextEpochState.Some? then proof.last.value.nextEpochState.value.epoch else 0
  }

  /** The `k`th round of fetching a proof from the waypoint on and initialising with it. */
  function Attempt(st: Storage, k: nat, s: SafetyState): (SafetyState, Result<(), Error>)
  {
    var proof := st.retrieve(k, s.waypointVersion);
    if proof.None? then (s, Err(InternalError))
    else
      var epoch := NextEpoch(proof.value);
      Initialize(s, proof.value, st.keyCurrent(k, epoch), st.keyFound(k, epoch), st.writes(k))
  }

  predicate Advanced(r: Result<(), Error>)
  {
    r.Err? && r.error.WaypointOutOfDate? && r.error.prevVersion < r.error.currVersion
  }

  /** The safety rules after `n` attempts. */
  function AfterAttempts(st: Storage, s: SafetyState, n: nat): SafetyState
  {
    if n == 0 then s else Attempt(st, n - 1, AfterAttempts(st, s, n - 1)).0
  }

  /** The first `n` attempts ended with the waypoint moved but not far enough. */
  ghost predicate AllAdvanced(st: Storage, s: SafetyState, n: nat)
  {
    n > 0 ==> AllAdvanced(st, s, n - 1) && Advanced(Attempt(st, n - 1, AfterAttempts(st, s, n - 1)).1)
  }

  /** After `n` such attempts the next one decides. */
  ghost predicate Decides(st: Storage, s: SafetyState, n: nat)
  {
    AllAdvanced(st, s, n) && !Advanced(Attempt(st, n, AfterAttempts(st, s, n)).1)
  }

  lemma AdvancedMovesWaypoint(st: Storage, k: nat, s: SafetyState)
    requires Bounded(st) && Advanced(Attempt(st, k, s).1)
    ensures s.waypointVersion < Attempt(st, k, s).0.waypointVersion <= st.latest
    ensures Attempt(st, k, s).0 == s.(waypointVersion := Attempt(st, k, s).1.error.currVersion)
  {
  }

  /** While the waypoint moves, the voting history does not. */
  lemma {:induction false} AttemptsMoveWaypointOnly(st: Storage, s: SafetyState, n: nat)
    requires Bounded(st) && AllAdvanced(st, s, n)
    ensures AfterAttempts(st, s, n) == s.(waypointVersion := AfterAttempts(st, s, n).waypointVersion)
    ensures n > 0 ==> s.waypointVersion + n <= AfterAttempts(st, s, n).waypointVersion <= st.latest
  {
    if n > 0 {
      AttemptsMoveWaypointOnly(st, s, n - 1);
      AdvancedMovesWaypoint(st, n - 1, AfterAttempts(st, s, n - 1));
    }
  }

  /** The versions asked for, one per attempt, strictly increase and stay within the ledger, so there are no
      more attempts than versions the waypoint is behind. */
  lemma QueriesIncrease(st: Storage, s: SafetyState, n: nat, i: nat, j: nat)
    requires Bounded(st) && Decides(st, s, n) && i < j <= n
    ensures AfterAttempts(st, s, i).waypointVersion < AfterAttempts(st, s, j).waypointVersion <= st.latest
    ensures n <= st.latest - s.waypointVersion
  {
    AttemptsMoveWaypointOnly(st, s, n);
    AllAdvancedBefore(st, s, j, n);
    QueriesIncreaseFrom(st, s, i, j);
  }

  lemma {:induction false} AllAdvancedBefore(st: Storage, s: SafetyState, j: nat, n: nat)
    requires j <= n && AllAdvanced(st, s, n)
    ensures AllAdvanced(st, s, j)
    decreases n
  {
    if j < n {
      AllAdvancedBefore(st, s, j, n - 1);
    }
  }

  lemma {:induction false} QueriesIncreaseFrom(st: Storage, s: SafetyState, i: nat, j: nat)
    requires Bounded(st) && i < j && AllAdvanced(st, s, j)
    ensures AfterAttempts(st, s, i).waypointVersion < AfterAttempts(st, s, j).waypointVersion <= st.latest
  {
    AdvancedMovesWaypoint(st, j - 1, AfterAttempts(st, s, j - 1));
    if i + 1 < j {
      QueriesIncreaseFrom(st, s, i, j - 1);
    }
  }

  class MetricsSafetyRules {
    const storage: Storage
    var inner: SafetyState

    constructor (storage: Storage, inner: SafetyState)
      ensures this.storage == storage && this.inner == inner
    {
      this.storage, this.inner := storage, inner;
    }

    method InitializeFrom(k: nat, version: nat) returns (r: Result<(), Error>)
      requires version == inner.waypointVersion && Bounded(storage)
      modifies this
      ensures (inner, r) == Attempt(storage, k, old(inner))
      ensures Advanced(r) ==> version < inner.waypointVersion <= storage.latest && r.error.currVersion == inner.waypointVersion
    {
      var proof := storage.retrieve(k, version);
      if proof.None? {
        return Err(InternalError);
      }
      var epoch := NextEpoch(proof.value);
      var (next, result) := Initialize(
        inner, proof.value, storage.keyCurrent(k, epoch), storage.keyFound(k, epoch), storage.writes(k));
      inner := next;
      return result;
    }

    /** Terminates with the first answer other than "moved, but still behind"; `moved` attempts came before it. */
    method PerformInitialize() returns (r: Result<(), Error>, ghost moved: nat)
      requires Bounded(storage)
      modifies this
      ensures !storage.stateReadable ==> r == Err(SecureStorageError) && inner == old(inner)
      ensures storage.stateReadable ==>
                && Decides(storage, old(inner), moved)
                && (inner, r) == Attempt(storage, moved, AfterAttempts(storage, old(inner), moved))
    {
      moved := 0;
      if !storage.stateReadable {
        return Err(SecureStorageError), moved;
      }
      var version, k := inner.waypointVersion, 0;
      while true
        invariant moved == k
        invariant inner == AfterAttempts(storage, old(inner), moved) && version == inner.waypointVersion
        invariant AllAdvanced(storage, old(inner), k)
        decreases storage.latest - version
      {
        r := InitializeFrom(k, version);
        if !Advanced(r) {
          return;
        }
        version := r.error.currVersion;
        moved, k := moved + 1, k + 1;
      }
    }

    /** Run the action; if it fails for want of initialisation, initialise and run it once more. */
    method Retry<T>(f: SafetyState -> (SafetyState, Result<T, Error>)) returns (r: Result<T, Error>, ghost calls: nat)
      requires Bounded(storage)
      modifies this
      ensures calls == 1 || calls == 2
      ensures var (s1, r1) := f(old(inner));
              if r1.Ok? || !(r1.error.NotInitialized? || r1.error.IncorrectEpoch? || r1.error.WaypointOutOfDate?)
              then calls == 1 && (inner, r) == (s1, r1)
              else if !storage.stateReadable then calls == 1 && (inner, r) == (s1, Err(SecureStorageError))
              else exists n :: Decides(storage, s1, n) &&
                     var (s2, r2) := Attempt(storage, n, AfterAttempts(storage, s1, n));
                     if r2.Err? then calls == 1 && inner == s2 && r == Err(r2.error)
                     else calls == 2 && (inner, r) == f(s2)
    {
      calls := 1;
      var (s1, r1) := f(inner);
      inner := s1;
      if !NeedsInitialize(r1) {
        return r1, calls;
      }
      var initialised;
      ghost var moved;
      initialised, moved := PerformInitialize();
      assert storage.stateReadable ==> Decides(storage, s1, moved);
      if initialised.Err? {
        return Err(initialised.error), calls;
      }
      calls := 2;
      var (s2, r2) := f(inner);
      inner := s2;
      return r2, calls;
    }
  }

  predicate NeedsInitialize<T>(r: Result<T, Error>)
  {
    r.Err? && (r.error.NotInitialized? || r.error.IncorrectEpoch? || r.error.WaypointOutOfDate?)
  }

  // ---------------------------------------------------- what catching up means

  /** Catching up keeps the voting history, unless it enters a later epoch, which starts with none. */
  lemma CatchUpKeepsHistory(st: Storage, s: SafetyState, n: nat)
    requires Bounded(st) && Decides(st, s, n)
    ensures var s' := Attempt(st, n, AfterAttempts(st, s, n)).0;
            && s.waypointVersion <= s'.waypointVersion && s'.author == s.author
            && (s'.data == s.data || (s'.data.epoch > s.data.epoch && s'.data == SafetyData(s'.data.epoch, 0, 0, 0, None)))
  {
    AttemptsMoveWaypointOnly(st, s, n);
  }

  /** After a successful catch-up the safety rules can sign, in the epoch of their safety data. */
  lemma CatchUpReady(st: Storage, s: SafetyState, n: nat)
    requires Bounded(st) && Decides(st, s, n) && Attempt(st, n, AfterAttempts(st, s, n)).1.Ok?
    ensures var s' := Attempt(st, n, AfterAttempts(st, s, n)).0;
            && s'.signer == Some(s.author) && s'.epochState.Some? && s'.epochState.value.epoch == s'.data.epoch
            && s.author in s'.epochState.value.verifier.powers
  {
    AttemptsMoveWaypointOnly(st, s, n);
  }

  /** Catching up succeeds if and only if the deciding attempt gets a proof that leads to the safety rules' epoch or a
      later one, what changes can be saved, the validator belongs to that epoch and its key is there. */
  lemma CatchUpSucceedsExactly(st: Storage, s: SafetyState, n: nat)
    requires Bounded(st) && Decides(st, s, n)
    ensures var before, (s', r) := AfterAttempts(st, s, n), Attempt(st, n, AfterAttempts(st, s, n));
            var proof := st.retrieve(n, before.waypointVersion);
            && (proof.None? ==> s' == before && r == Err(InternalError))
            && (r.Ok? <==>
                 && proof.Some? && Leads(before, proof.value)
                 && var next, version := proof.value.last.value.nextEpochState.value, proof.value.last.value.version;
                    && s.data.epoch <= next.epoch && s.author in next.verifier.powers
                    && ((version == before.waypointVersion && s.data.epoch == next.epoch) || st.writes(n))
                    && ((s.signer.Some? && st.keyCurrent(n, next.epoch)) || st.keyFound(n, next.epoch)))
  {
    AttemptsMoveWaypointOnly(st, s, n);
    var before := AfterAttempts(st, s, n);
    var proof := st.retrieve(n, before.waypointVersion);
    if proof.Some? {
      var epoch := NextEpoch(proof.value);
      InitializeExactly(before, proof.value, st.keyCurrent(n, epoch), st.keyFound(n, epoch), st.writes(n));
    }
  }

  /** Storage that always has a proof leading further, as long as the waypoint is behind `epoch`. */
  ghost predicate Serves(st: Storage, epoch: Epoch)
  {
    forall k: nat, v: nat :: st.retrieve(k, v).Some? ==>
      || NextEpoch(st.retrieve(k, v).value) >= epoch
      || (st.retrieve(k, v).value.last.Some? && v < st.retrieve(k, v).value.last.value.version)
  }

  /** With such storage the safety rules never end up behind their own epoch. */
  lemma CatchUpNotBehind(st: Storage, s: SafetyState, n: nat)
    requires Bounded(st) && Serves(st, s.data.epoch) && Decides(st, s, n)
    ensures var r := Attempt(st, n, AfterAttempts(st, s, n)).1; r.Err? ==> !r.error.WaypointOutOfDate?
  {
    AttemptsMoveWaypointOnly(st, s, n);
    var before := AfterAttempts(st, s, n);
    var proof := st.retrieve(n, before.waypointVersion);
    if proof.Some? {
      assert NextEpoch(proof.value) >= s.data.epoch || (proof.value.last.Some? && before.waypointVersion < proof.value.last.value.version);
    }
  }

  /** A retried vote is never refused as uninitialised, and refused for its epoch only when the block is not
      of the epoch the safety rules are then in. */
  lemma RetriedVoteAnswered(st: Storage, s: SafetyState, n: nat, p: VoteProposal, tc: Option<TimeoutCert>, now: nat, ok: bool)
    requires Bounded(st) && Decides(st, s, n) && Attempt(st, n, AfterAttempts(st, s, n)).1.Ok?
    ensures var s' := Attempt(st, n, AfterAttempts(st, s, n)).0;
            var r := SignVote(s', p, tc, now, ok).1;
            && r != Err(NotInitialized)
            && (r.Err? && r.error.IncorrectEpoch? <==> p.block.epoch != s'.epochState.value.epoch)
  {
    CatchUpReady(st, s, n);
    ReadyVoteAnswered(Attempt(st, n, AfterAttempts(st, s, n)).0, p, tc, now, ok);
  }

  lemma ReadyVoteAnswered(s: SafetyState, p: VoteProposal, tc: Option<TimeoutCert>, now: nat, ok: bool)
    requires s.signer.Some? && s.epochState.Some? && s.epochState.value.epoch == s.data.epoch
    ensures var r := SignVote(s, p, tc, now, ok).1;
            && r != Err(NotInitialized)
            && (r.Err? && r.error.IncorrectEpoch? <==> p.block.epoch != s.epochState.value.epoch)
  {
  }
}
