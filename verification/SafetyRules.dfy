/** The voting rules of the 2-chain protocol: what one validator signs and what it remembers.

    `SafetyState` is the abstract state of a `SafetyRules` instance; only `data` and
    `waypointVersion` survive a crash.  Each signing request is a function from the state to the
    next state and an answer; the methods of class `SafetyRules` compute exactly these. */
module SafetyRulesModel {
  import opened Common
  import opened Quorum
  import opened ConsensusTypes

  datatype Error =
    | NotInitialized
    | IncorrectEpoch(given: Epoch, expected: Epoch)
    | IncorrectRound(round: Round)
    | IncorrectLastVotedRound(given: Round, last: Round)
    | InvalidQuorumCertificate
    | InvalidProposal
    | InvalidAccumulatorExtension
    | InvalidTimeout
    | InvalidTimeoutCertificate
    | NotSafeToTimeout(round: Round, qcRound: Round, tcRound: Round, oneChainRound: Round)
    | NotSafeToVote(round: Round, qcRound: Round, tcRound: Round, hqcRound: Round)
    | InvalidOrderedLedgerInfo
    | InconsistentExecutionResult
    | SecureStorageError
    | InvalidEpochChangeProof
    | InvalidLedgerInfo
    | WaypointOutOfDate(prevVersion: nat, currVersion: nat, currentEpoch: Epoch, providedEpoch: Epoch)
    | ValidatorNotInSet
    | ValidatorKeyNotFound
    | InternalError

  /** Persisted before any signature is released. */
  datatype SafetyData = SafetyData(
    epoch: Epoch,
    lastVotedRound: Round,
    preferredRound: Round,
    oneChainRound: Round,
    lastVote: Option<Vote>)

  datatype SafetyState = SafetyState(
    data: SafetyData,
    waypointVersion: nat,
    author: Author,
    signer: Option<Author>,
    epochState: Option<EpochState>)

  /** A block to vote on; `extension` is the root hash and version its execution proof yields,
      `None` if the proof does not verify. */
  datatype VoteProposal = VoteProposal(
    block: Block,
    decoupledExecution: bool,
    extension: Option<(HashValue, nat)>,
    nextEpoch: Option<Epoch>)

  /** An ordered ledger info and the validators whose signatures accompany it. */
  datatype SignedLedgerInfo = SignedLedgerInfo(ledgerInfo: LedgerInfo, signers: set<Author>)

  /** The last ledger info of an epoch: the version it ends at and the validators it hands over to. */
  datatype EpochEnding = EpochEnding(version: nat, nextEpochState: Option<EpochState>)

  /** `chained` says that every link from the waypoint to the last entry carries valid signatures. */
  datatype EpochChangeProof = EpochChangeProof(last: Option<EpochEnding>, chained: bool)

  // ---------------------------------------------------------------- rules

  function NextRound(r: Round): (n: Result<Round, Error>)
    ensures n.Ok? <==> r != U64_MAX
    ensures n.Ok? ==> n.value == r + 1
  {
    if r == U64_MAX then Err(IncorrectRound(r)) else Ok(r + 1)
  }

  function TcRound(tc: Option<TimeoutCert>): Round
  {
    if tc.Some? then tc.value.timeout.round else 0
  }

  function TcHqcRound(tc: Option<TimeoutCert>): Round
  {
    if tc.Some? then tc.value.timeout.HqcRound() else 0
  }

  /** Voting rule: extend the previous round directly, or after a timeout of the previous round
      extend something at least as high as anything the timed-out quorum had seen certified. */
  function SafeToVote(block: Block, tc: Option<TimeoutCert>): (r: Result<(), Error>)
    ensures r.Ok? <==>
              && block.quorumCert.Round() != U64_MAX
              && (|| block.round == block.quorumCert.Round() + 1
                  || (TcRound(tc) != U64_MAX && block.round == TcRound(tc) + 1 && block.quorumCert.Round() >= TcHqcRound(tc)))
  {
    var qcRound := block.quorumCert.Round();
    var afterQc := NextRound(qcRound);
    if afterQc.Err? then Err(afterQc.error)
    else if block.round == afterQc.value then Ok(())
    else
      var afterTc := NextRound(TcRound(tc));
      if afterTc.Err? then Err(afterTc.error)
      else if block.round == afterTc.value && qcRound >= TcHqcRound(tc) then Ok(())
      else Err(NotSafeToVote(block.round, qcRound, TcRound(tc), TcHqcRound(tc)))
  }

  /** Timeout rule: only the round after a certificate, and never below the highest certified
      round this validator has voted on top of. */
  function SafeToTimeout(timeout: TwoChainTimeout, tc: Option<TimeoutCert>, data: SafetyData): (r: Result<(), Error>)
    ensures r.Ok? <==>
              && timeout.HqcRound() != U64_MAX && timeout.HqcRound() >= data.oneChainRound
              && (timeout.round == timeout.HqcRound() + 1 || (TcRound(tc) != U64_MAX && timeout.round == TcRound(tc) + 1))
  {
    var qcRound := timeout.HqcRound();
    var afterQc := NextRound(qcRound);
    if afterQc.Err? then Err(afterQc.error)
    else
      var afterTc := NextRound(TcRound(tc));
      if timeout.round != afterQc.value && afterTc.Err? then Err(afterTc.error)
      else if (timeout.round == afterQc.value || timeout.round == afterTc.value) && qcRound >= data.oneChainRound
      then Ok(())
      else Err(NotSafeToTimeout(timeout.round, qcRound, TcRound(tc), data.oneChainRound))
  }

  /** The block a certificate on `vd` commits: the parent, if it is from the round just before. */
  function CommitOf(vd: VoteData): BlockInfo
  {
    if vd.parent.round + 1 == vd.proposed.round then vd.parent else EMPTY_BLOCK_INFO
  }

  function ObserveQc(qc: QuorumCert, data: SafetyData): (d: SafetyData)
    ensures d.oneChainRound >= data.oneChainRound && d.oneChainRound >= qc.Round()
    ensures d.oneChainRound == data.oneChainRound || d.oneChainRound == qc.Round()
    ensures d.preferredRound >= data.preferredRound && d.preferredRound >= qc.voteData.parent.round
    ensures d.preferredRound == data.preferredRound || d.preferredRound == qc.voteData.parent.round
    ensures d.epoch == data.epoch && d.lastVotedRound == data.lastVotedRound && d.lastVote == data.lastVote
  {
    var twoChain := qc.voteData.parent.round;
    data.(oneChainRound := if qc.Round() > data.oneChainRound then qc.Round() else data.oneChainRound,
          preferredRound := if twoChain > data.preferredRound then twoChain else data.preferredRound)
  }

  function GenVoteData(p: VoteProposal): (r: Result<VoteData, Error>)
    ensures r.Ok? ==> r.value.parent == p.block.quorumCert.voteData.proposed
    ensures r.Ok? ==> r.value.proposed.epoch == p.block.epoch && r.value.proposed.round == p.block.round
    ensures r.Ok? ==> r.value.proposed.id == p.block.id
  {
    var b := p.block;
    if p.decoupledExecution then
      Ok(VoteData(BlockInfo(b.epoch, b.round, b.id, PLACEHOLDER_HASH, 0, b.timestamp, p.nextEpoch),
                  b.quorumCert.voteData.proposed))
    else if p.extension.None? then Err(InvalidAccumulatorExtension)
    else
      Ok(VoteData(BlockInfo(b.epoch, b.round, b.id, p.extension.value.0, p.extension.value.1, b.timestamp, p.nextEpoch),
                  b.quorumCert.voteData.proposed))
  }

  // ------------------------------------------------- requests as functions

  ghost function VerifyProposal(s: SafetyState, p: VoteProposal, now: nat): (r: Result<VoteData, Error>)
    ensures r.Ok? ==> s.epochState.Some? && p.block.epoch == s.data.epoch
    ensures r.Ok? ==> p.block.quorumCert.Verify(s.epochState.value.verifier) && p.block.WellFormed(now)
    ensures r.Ok? ==> r == GenVoteData(p)
  {
    if p.block.epoch != s.data.epoch then Err(IncorrectEpoch(p.block.epoch, s.data.epoch))
    else if s.epochState.None? then Err(NotInitialized)
    else if !p.block.quorumCert.Verify(s.epochState.value.verifier) then Err(InvalidQuorumCertificate)
    else if !p.block.ValidateSignature(s.epochState.value.verifier) then Err(InvalidProposal)
    else if !p.block.WellFormed(now) then Err(InvalidProposal)
    else GenVoteData(p)
  }

  /** Vote on a block.  `storageOk` is whether the write of the safety data succeeds. */
  ghost function SignVote(s: SafetyState, p: VoteProposal, tc: Option<TimeoutCert>, now: nat, storageOk: bool)
    : (SafetyState, Result<Vote, Error>)
  {
    if s.signer.None? then (s, Err(NotInitialized))
    else
      var voteData := VerifyProposal(s, p, now);
      if voteData.Err? then (s, Err(voteData.error))
      else if tc.Some? && !tc.value.Verify(s.epochState.value.verifier) then (s, Err(InvalidTimeoutCertificate))
      else if s.data.lastVote.Some? && s.data.lastVote.value.Round() == p.block.round then (s, Ok(s.data.lastVote.value))
      else if p.block.round <= s.data.lastVotedRound then
        (s, Err(IncorrectLastVotedRound(p.block.round, s.data.lastVotedRound)))
      else if SafeToVote(p.block, tc).Err? then (s, Err(SafeToVote(p.block, tc).error))
      else
        var vote := Vote(voteData.value, s.signer.value, LedgerInfo(CommitOf(voteData.value), voteData.value), None);
        var data := ObserveQc(p.block.quorumCert, s.data.(lastVotedRound := p.block.round)).(lastVote := Some(vote));
        if storageOk then (s.(data := data), Ok(vote)) else (s, Err(SecureStorageError))
  }

  /** What a timeout signature covers. */
  datatype TimeoutSigning = TimeoutSigning(epoch: Epoch, round: Round, hqcRound: Round)

  ghost function SignTimeout(s: SafetyState, timeout: TwoChainTimeout, tc: Option<TimeoutCert>, storageOk: bool)
    : (SafetyState, Result<TimeoutSigning, Error>)
  {
    if s.signer.None? then (s, Err(NotInitialized))
    else if timeout.epoch != s.data.epoch then (s, Err(IncorrectEpoch(timeout.epoch, s.data.epoch)))
    else if s.epochState.None? then (s, Err(NotInitialized))
    else if !timeout.Verify(s.epochState.value.verifier) then (s, Err(InvalidTimeout))
    else if tc.Some? && !tc.value.Verify(s.epochState.value.verifier) then (s, Err(InvalidTimeoutCertificate))
    else if SafeToTimeout(timeout, tc, s.data).Err? then (s, Err(SafeToTimeout(timeout, tc, s.data).error))
    else if timeout.round < s.data.lastVotedRound then
      (s, Err(IncorrectLastVotedRound(timeout.round, s.data.lastVotedRound)))
    else
      var signing := TimeoutSigning(timeout.epoch, timeout.round, timeout.HqcRound());
      if timeout.round == s.data.lastVotedRound then (s, Ok(signing))
      else if storageOk then (s.(data := s.data.(lastVotedRound := timeout.round)), Ok(signing))
      else (s, Err(SecureStorageError))
  }

  /** Sign the executed version of an ordered, quorum-signed ledger info. */
  ghost function SignCommitVote(s: SafetyState, ordered: SignedLedgerInfo, executed: LedgerInfo): Result<LedgerInfo, Error>
  {
    if s.signer.None? then Err(NotInitialized)
    else if !ordered.ledgerInfo.commitInfo.IsOrderedOnly() then Err(InvalidOrderedLedgerInfo)
    else if !ordered.ledgerInfo.commitInfo.MatchOrderedOnly(executed.commitInfo) then Err(InconsistentExecutionResult)
    else if s.epochState.None? then Err(NotInitialized)
    else if ordered.signers == {} || !IsQuorum(s.epochState.value.verifier, ordered.signers) then Err(InvalidQuorumCertificate)
    else Ok(executed)
  }

  /** Move to the epoch a proof leads to.  `keyCurrent` is whether a loaded signer already holds the
      key the new epoch expects, `keyFound` whether that key is in storage. */
  function Initialize(s: SafetyState, proof: EpochChangeProof, keyCurrent: bool, keyFound: bool, storageOk: bool)
    : (SafetyState, Result<(), Error>)
  {
    if proof.last.None? || proof.last.value.version < s.waypointVersion || !proof.chained then
      (s, Err(InvalidEpochChangeProof))
    else if proof.last.value.nextEpochState.None? then (s, Err(InvalidLedgerInfo))
    else
      var next := proof.last.value.nextEpochState.value;
      var version := proof.last.value.version;
      if version > s.waypointVersion && !storageOk then (s, Err(SecureStorageError))
      else
        var s1 := s.(waypointVersion := version);
        if s.data.epoch > next.epoch then
          (s1, Err(WaypointOutOfDate(s.waypointVersion, version, s.data.epoch, next.epoch)))
        else if s.data.epoch < next.epoch && !storageOk then (s1, Err(SecureStorageError))
        else
          var data := if s.data.epoch < next.epoch then SafetyData(next.epoch, 0, 0, 0, None) else s.data;
          var s2 := s1.(data := data, epochState := Some(next));
          if s.author !in next.verifier.powers then (s2.(signer := None), Err(ValidatorNotInSet))
          else if (s2.signer.Some? && keyCurrent) || keyFound then (s2.(signer := Some(s.author)), Ok(()))
          else (s2.(signer := None), Err(ValidatorKeyNotFound))
  }

  /** A crash loses everything but the persisted part. */
  function Restart(s: SafetyState): SafetyState
  {
    s.(signer := None, epochState := None)
  }

  /** Whatever the safety rules answer to a request to vote is a vote of the block's round. */
  lemma SignedVoteIsOfBlockRound(s: SafetyState, p: VoteProposal, tc: Option<TimeoutCert>, now: nat, storageOk: bool)
    ensures SignVote(s, p, tc, now, storageOk).1.Ok? ==> SignVote(s, p, tc, now, storageOk).1.value.Round() == p.block.round
  {
  }

  // ---------------------------------------------- executable verification

  method VerifyQuorumCert(qc: QuorumCert, v: ValidatorVerifier) returns (ok: bool)
    ensures ok == qc.Verify(v)
  {
    if qc.ledgerInfo.consensusData != qc.voteData {
      return false;
    }
    if qc.voteData.proposed.round == 0 {
      return qc.voteData.parent == qc.voteData.proposed && qc.voteData.proposed == qc.ledgerInfo.commitInfo && qc.signers == {};
    }
    var power := CheckVotingPower(v, qc.signers);
    return qc.signers != {} && power == QuorumReached && qc.voteData.Verify();
  }

  method VerifyTimeout(t: TwoChainTimeout, v: ValidatorVerifier) returns (ok: bool)
    ensures ok == t.Verify(v)
  {
    ok := VerifyQuorumCert(t.quorumCert, v);
    ok := ok && t.HqcRound() < t.round;
  }

  /** Checks the quorum and that the carried certificate is the highest any signer attested. */
  method VerifyTimeoutCert(tc: TimeoutCert, v: ValidatorVerifier) returns (ok: bool)
    ensures ok == tc.Verify(v)
  {
    var timeoutOk := VerifyTimeout(tc.timeout, v);
    var power := CheckVotingPower(v, tc.signedRounds.Keys);
    if !timeoutOk || power != QuorumReached || tc.signedRounds.Keys == {} {
      return false;
    }
    var rest := tc.signedRounds.Keys;
    var first :| first in rest;
    var highest := tc.signedRounds[first];
    while rest != {}
      invariant rest <= tc.signedRounds.Keys
      invariant forall a :: a in tc.signedRounds && a !in rest ==> tc.signedRounds[a] <= highest
      invariant exists a :: a in tc.signedRounds && tc.signedRounds[a] == highest
      decreases rest
    {
      var a :| a in rest;
      if tc.signedRounds[a] > highest {
        highest := tc.signedRounds[a];
      }
      rest := rest - {a};
    }
    return highest == tc.timeout.HqcRound();
  }

  // ------------------------------------------------------------ the class

  class SafetyRules {
    var data: SafetyData
    var waypointVersion: nat
    const author: Author
    var signer: Option<Author>
    var epochState: Option<EpochState>

    ghost function State(): SafetyState
      reads this
    {
      SafetyState(data, waypointVersion, author, signer, epochState)
    }

    constructor (data: SafetyData, waypointVersion: nat, author: Author)
      ensures State() == SafetyState(data, waypointVersion, author, None, None)
    {
      this.data := data;
      this.waypointVersion := waypointVersion;
      this.author := author;
      this.signer := None;
      this.epochState := None;
    }

    method VerifyTc(tc: Option<TimeoutCert>) returns (ok: bool)
      requires epochState.Some?
      ensures ok == (tc.Some? ==> tc.value.Verify(epochState.value.verifier))
    {
      ok := true;
      if tc.Some? {
        ok := VerifyTimeoutCert(tc.value, epochState.value.verifier);
      }
    }

    method CheckProposal(p: VoteProposal, now: nat) returns (r: Result<VoteData, Error>)
      ensures r == VerifyProposal(State(), p, now)
    {
      if p.block.epoch != data.epoch {
        return Err(IncorrectEpoch(p.block.epoch, data.epoch));
      }
      if epochState.None? {
        return Err(NotInitialized);
      }
      var v := epochState.value.verifier;
      var qcOk := VerifyQuorumCert(p.block.quorumCert, v);
      if !qcOk {
        return Err(InvalidQuorumCertificate);
      }
      var signatureOk := match p.block.blockType
        case Genesis => false
        case NilBlock(_) => true
        case Proposal(author, _, signed) => signed && author in v.powers;
      if !signatureOk || !p.block.WellFormed(now) {
        return Err(InvalidProposal);
      }
      return GenVoteData(p);
    }

    method ConstructAndSignVoteTwoChain(p: VoteProposal, tc: Option<TimeoutCert>, now: nat, storageOk: bool)
      returns (r: Result<Vote, Error>)
      modifies this`data
      ensures (State(), r) == SignVote(old(State()), p, tc, now, storageOk)
    {
      if signer.None? {
        return Err(NotInitialized);
      }
      var voteData := CheckProposal(p, now);
      if voteData.Err? {
        return Err(voteData.error);
      }
      var tcOk := VerifyTc(tc);
      if !tcOk {
        return Err(InvalidTimeoutCertificate);
      }
      // Already voted in this round: answer with the same vote.
      if data.lastVote.Some? && data.lastVote.value.Round() == p.block.round {
        return Ok(data.lastVote.value);
      }
      if p.block.round <= data.lastVotedRound {
        return Err(IncorrectLastVotedRound(p.block.round, data.lastVotedRound));
      }
      var next := data.(lastVotedRound := p.block.round);
      var safe := SafeToVote(p.block, tc);
      if safe.Err? {
        return Err(safe.error);
      }
      next := ObserveQc(p.block.quorumCert, next);
      var vote := Vote(voteData.value, signer.value, LedgerInfo(CommitOf(voteData.value), voteData.value), None);
      next := next.(lastVote := Some(vote));
      if !storageOk {
        return Err(SecureStorageError);
      }
      data := next;
      return Ok(vote);
    }

    method SignTimeoutWithQc(timeout: TwoChainTimeout, tc: Option<TimeoutCert>, storageOk: bool)
      returns (r: Result<TimeoutSigning, Error>)
      modifies this`data
      ensures (State(), r) == SignTimeout(old(State()), timeout, tc, storageOk)
    {
      if signer.None? {
        return Err(NotInitialized);
      }
      if timeout.epoch != data.epoch {
        return Err(IncorrectEpoch(timeout.epoch, data.epoch));
      }
      if epochState.None? {
        return Err(NotInitialized);
      }
      var timeoutOk := VerifyTimeout(timeout, epochState.value.verifier);
      if !timeoutOk {
        return Err(InvalidTimeout);
      }
      var tcOk := VerifyTc(tc);
      if !tcOk {
        return Err(InvalidTimeoutCertificate);
      }
      var safe := SafeToTimeout(timeout, tc, data);
      if safe.Err? {
        return Err(safe.error);
      }
      if timeout.round < data.lastVotedRound {
        return Err(IncorrectLastVotedRound(timeout.round, data.lastVotedRound));
      }
      if timeout.round > data.lastVotedRound {
        if !storageOk {
          return Err(SecureStorageError);
        }
        data := data.(lastVotedRound := timeout.round);
      }
      return Ok(TimeoutSigning(timeout.epoch, timeout.round, timeout.HqcRound()));
    }

    method SignCommit(ordered: SignedLedgerInfo, executed: LedgerInfo) returns (r: Result<LedgerInfo, Error>)
      ensures r == SignCommitVote(State(), ordered, executed)
    {
      if signer.None? {
        return Err(NotInitialized);
      }
      if !ordered.ledgerInfo.commitInfo.IsOrderedOnly() {
        return Err(InvalidOrderedLedgerInfo);
      }
      if !ordered.ledgerInfo.commitInfo.MatchOrderedOnly(executed.commitInfo) {
        return Err(InconsistentExecutionResult);
      }
      if epochState.None? {
        return Err(NotInitialized);
      }
      var power := CheckVotingPower(epochState.value.verifier, ordered.signers);
      if ordered.signers == {} || power != QuorumReached {
        return Err(InvalidQuorumCertificate);
      }
      return Ok(executed);
    }

    method InitializeWith(proof: EpochChangeProof, keyCurrent: bool, keyFound: bool, storageOk: bool)
      returns (r: Result<(), Error>)
      modifies this
      ensures (State(), r) == Initialize(old(State()), proof, keyCurrent, keyFound, storageOk)
    {
      if proof.last.None? || proof.last.value.version < waypointVersion || !proof.chained {
        return Err(InvalidEpochChangeProof);
      }
      if proof.last.value.nextEpochState.None? {
        return Err(InvalidLedgerInfo);
      }
      var next := proof.last.value.nextEpochState.value;
      var prevVersion := waypointVersion;
      if proof.last.value.version > waypointVersion {
        if !storageOk {
          return Err(SecureStorageError);
        }
        waypointVersion := proof.last.value.version;
      }
      if data.epoch > next.epoch {
        return Err(WaypointOutOfDate(prevVersion, waypointVersion, data.epoch, next.epoch));
      }
      if data.epoch < next.epoch {
        if !storageOk {
          return Err(SecureStorageError);
        }
        data := SafetyData(next.epoch, 0, 0, 0, None);
      }
      epochState := Some(next);
      if author !in next.verifier.powers {
        signer := None;
        return Err(ValidatorNotInSet);
      }
      if !(signer.Some? && keyCurrent) && !keyFound {
        signer := None;
        return Err(ValidatorKeyNotFound);
      }
      signer := Some(author);
      return Ok(());
    }
  }
}
