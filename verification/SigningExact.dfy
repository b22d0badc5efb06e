/** What the safety rules must sign, and must refuse, in terms of the request and the stored history alone. */
module SigningExact {
  import opened Common
  import opened Quorum
  import opened ConsensusTypes
  import opened SafetyRulesModel

  // ---------------------------------------------------------- proposals

  /** Failed authors in strictly ascending order of their rounds. */
  ghost predicate Ascending(failed: seq<(Round, Author)>)
  {
    forall i, j :: 0 <= i < j < |failed| ==> failed[i].0 < failed[j].0
  }

  lemma {:induction false} InOrderAscends(b: Block, parent: BlockInfo, i: nat, j: nat)
    requires !b.blockType.Genesis? && parent.round < b.round && b.FailedAuthorsInOrder(parent)
    requires i < j <= |b.blockType.failedAuthors|
    ensures b.PrecedingRound(parent, i) < b.PrecedingRound(parent, j)
    decreases j
  {
    assert b.PrecedingRound(parent, j - 1) < b.blockType.failedAuthors[j - 1].0;
    if i + 1 < j {
      InOrderAscends(b, parent, i, j - 1);
    }
  }

  lemma {:induction false} AscendingLeavesRoom(failed: seq<(Round, Author)>, low: Round, i: nat)
    requires Ascending(failed) && (forall k :: 0 <= k < |failed| ==> low < failed[k].0) && i < |failed|
    ensures low + i < failed[i].0
  {
    if i > 0 {
      AscendingLeavesRoom(failed, low, i - 1);
    }
  }

  /** Rounds strictly ascending after the parent's and before the block's own, a NIL block's own included. */
  ghost predicate SkippedRounds(b: Block, parent: Round)
    requires !b.blockType.Genesis?
  {
    var failed := b.blockType.failedAuthors;
    && Ascending(failed)
    && forall i :: 0 <= i < |failed| ==> parent < failed[i].0 && (failed[i].0 < b.round || (failed[i].0 == b.round && b.blockType.NilBlock?))
  }

  lemma InOrderSkips(b: Block, parent: BlockInfo)
    requires !b.blockType.Genesis? && parent.round < b.round && b.FailedAuthorsInOrder(parent)
    ensures SkippedRounds(b, parent.round)
  {
    var failed := b.blockType.failedAuthors;
    forall i, j | 0 <= i < j < |failed|
      ensures failed[i].0 < failed[j].0
    {
      InOrderAscends(b, parent, i + 1, j + 1);
    }
    forall i | 0 <= i < |failed|
      ensures parent.round < failed[i].0 && (failed[i].0 < b.round || (failed[i].0 == b.round && b.blockType.NilBlock?))
    {
      InOrderAscends(b, parent, 0, i + 1);
      assert b.PrecedingRound(parent, i) < failed[i].0;
    }
  }

  lemma SkipsInOrder(b: Block, parent: BlockInfo)
    requires !b.blockType.Genesis? && parent.round < b.round && SkippedRounds(b, parent.round)
    ensures b.FailedAuthorsInOrder(parent)
  {
    if b.blockType.failedAuthors != [] {
      AscendingLeavesRoom(b.blockType.failedAuthors, parent.round, |b.blockType.failedAuthors| - 1);
    }
  }

  /** Which blocks are well formed: one rule for each kind. */
  lemma WellFormedExactly(b: Block, now: nat)
    ensures b.blockType.Genesis? ==> !b.WellFormed(now)
    ensures !b.blockType.Genesis? ==>
              var parent := b.quorumCert.voteData.proposed;
              (b.WellFormed(now) <==>
                && parent.round < b.round && parent.epoch == b.epoch && b.quorumCert.ledgerInfo.commitInfo.nextEpoch == None
                && SkippedRounds(b, parent.round)
                && (parent.nextEpoch.Some? ==> b.payloadIsEmpty && b.timestamp == parent.timestamp)
                && (parent.nextEpoch.None? && b.blockType.NilBlock? ==> b.timestamp == parent.timestamp)
                && (parent.nextEpoch.None? && b.blockType.Proposal? ==>
                      parent.timestamp < b.timestamp <= Min(now + 300_000_000, 0xffff_ffff_ffff_ffff)))
  {
    var parent := b.quorumCert.voteData.proposed;
    if !b.blockType.Genesis? && parent.round < b.round {
      if b.FailedAuthorsInOrder(parent) {
        InOrderSkips(b, parent);
      }
      if SkippedRounds(b, parent.round) {
        SkipsInOrder(b, parent);
      }
    }
  }

  /** Which certificates hold: the unsigned one of a first block, or a non-empty quorum behind a link forward. */
  lemma CertificateExactly(qc: QuorumCert, v: ValidatorVerifier)
    ensures qc.Verify(v) <==>
            && qc.ledgerInfo.consensusData == qc.voteData
            && (qc.voteData.proposed.round == 0 ==>
                  qc.signers == {} && qc.voteData.parent == qc.voteData.proposed == qc.ledgerInfo.commitInfo)
            && (qc.voteData.proposed.round > 0 ==>
                  && qc.signers != {} && qc.signers <= v.powers.Keys && Power(v, qc.signers) >= v.quorumPower
                  && qc.voteData.parent.epoch == qc.voteData.proposed.epoch
                  && qc.voteData.parent.round < qc.voteData.proposed.round
                  && qc.voteData.parent.timestamp <= qc.voteData.proposed.timestamp
                  && (qc.voteData.proposed.version > 0 ==> qc.voteData.parent.version <= qc.voteData.proposed.version))
  {
  }

  lemma TimeoutCertExactly(tc: TimeoutCert, v: ValidatorVerifier)
    ensures tc.Verify(v) <==>
            && tc.timeout.quorumCert.Verify(v) && tc.timeout.quorumCert.Round() < tc.timeout.round
            && tc.signedRounds.Keys <= v.powers.Keys && Power(v, tc.signedRounds.Keys) >= v.quorumPower
            && (forall a :: a in tc.signedRounds ==> tc.signedRounds[a] <= tc.timeout.quorumCert.Round())
            && tc.timeout.quorumCert.Round() in tc.signedRounds.Values
  {
  }

  // -------------------------------------------------------------- votes

  /** The proposal is one the safety rules consider at all. */
  ghost predicate Considered(s: SafetyState, p: VoteProposal, tc: Option<TimeoutCert>, now: nat)
  {
    && s.signer.Some? && s.epochState.Some? && p.block.epoch == s.data.epoch
    && p.block.quorumCert.Verify(s.epochState.value.verifier) && p.block.WellFormed(now)
    && (p.block.blockType.Proposal? ==> p.block.blockType.signed && p.block.blockType.author in s.epochState.value.verifier.powers)
    && (p.decoupledExecution || p.extension.Some?)
    && (tc.Some? ==> tc.value.Verify(s.epochState.value.verifier))
  }

  ghost predicate VotedIn(s: SafetyState, round: Round)
  {
    s.data.lastVote.Some? && s.data.lastVote.value.voteData.proposed.round == round
  }

  /** The block follows its certificate directly, or a timeout of the round before that saw nothing higher. */
  ghost predicate Follows(b: Block, tc: Option<TimeoutCert>)
  {
    var qcRound := b.quorumCert.voteData.proposed.round;
    && qcRound != U64_MAX
    && (|| b.round == qcRound + 1
        || (tc.Some? && tc.value.timeout.round != U64_MAX && b.round == tc.value.timeout.round + 1
            && tc.value.timeout.quorumCert.voteData.proposed.round <= qcRound)
        || (tc.None? && b.round == 1))
  }

  /** A vote is given if and only if the proposal is considered and it repeats the vote of the round, or the round is
      a new one that follows and the history can be saved. */
  lemma VoteExactly(s: SafetyState, p: VoteProposal, tc: Option<TimeoutCert>, now: nat, storageOk: bool)
    ensures SignVote(s, p, tc, now, storageOk).1.Ok? <==>
            && Considered(s, p, tc, now)
            && (VotedIn(s, p.block.round) || (p.block.round > s.data.lastVotedRound && Follows(p.block, tc) && storageOk))
    ensures SignVote(s, p, tc, now, storageOk).1.Err? ==> SignVote(s, p, tc, now, storageOk).0 == s
    ensures s.signer.None? ==> SignVote(s, p, tc, now, storageOk).1 == Err(NotInitialized)
    ensures s.signer.Some? && p.block.epoch != s.data.epoch ==>
              SignVote(s, p, tc, now, storageOk).1 == Err(IncorrectEpoch(p.block.epoch, s.data.epoch))
  {
  }

  /** Asked again in a round, the same vote comes back and nothing is written. */
  lemma RepeatedVote(s: SafetyState, p: VoteProposal, tc: Option<TimeoutCert>, now: nat, storageOk: bool)
    requires Considered(s, p, tc, now) && VotedIn(s, p.block.round)
    ensures SignVote(s, p, tc, now, storageOk) == (s, Ok(s.data.lastVote.value))
  {
  }

  /** A new vote is for the block on top of its certificate, commits the certified block if it is of the round just
      before and nothing otherwise, and is remembered with the rounds the certificate shows. */
  lemma NewVote(s: SafetyState, p: VoteProposal, tc: Option<TimeoutCert>, now: nat)
    requires Considered(s, p, tc, now) && !VotedIn(s, p.block.round)
    requires p.block.round > s.data.lastVotedRound && Follows(p.block, tc)
    ensures var b, (s', r) := p.block, SignVote(s, p, tc, now, true);
            && r.Ok?
            && var vote, info := r.value, r.value.voteData.proposed;
               && info.epoch == b.epoch && info.round == b.round && info.id == b.id && info.timestamp == b.timestamp
               && info.nextEpoch == p.nextEpoch
               && (p.decoupledExecution ==> info.executedStateId == PLACEHOLDER_HASH && info.version == 0)
               && (!p.decoupledExecution ==> p.extension == Some((info.executedStateId, info.version)))
               && vote.voteData.parent == b.quorumCert.voteData.proposed
               && vote.ledgerInfo.consensusData == vote.voteData
               && vote.ledgerInfo.commitInfo ==
                    (if b.round == b.quorumCert.voteData.proposed.round + 1 then b.quorumCert.voteData.proposed else EMPTY_BLOCK_INFO)
               && vote.author == s.signer.value && vote.twoChainTimeout == None
               && s' == s.(data := SafetyData(s.data.epoch, b.round,
                                              Max(s.data.preferredRound, b.quorumCert.voteData.parent.round),
                                              Max(s.data.oneChainRound, b.quorumCert.voteData.proposed.round), Some(vote)))
  {
  }

  // ------------------------------------------------------------ timeouts

  /** A timeout is signed if and only if it is a valid one of the epoch, not below the last voted round, follows its
      certificate or the timeout certificate, and shows at least what earlier votes were based on. */
  lemma TimeoutExactly(s: SafetyState, t: TwoChainTimeout, tc: Option<TimeoutCert>, storageOk: bool)
    ensures var (s', r) := SignTimeout(s, t, tc, storageOk);
            var hqc := t.quorumCert.voteData.proposed.round;
            && (r.Ok? <==>
                 && s.signer.Some? && s.epochState.Some? && t.epoch == s.data.epoch
                 && hqc < t.round && t.quorumCert.Verify(s.epochState.value.verifier)
                 && (tc.Some? ==> tc.value.Verify(s.epochState.value.verifier))
                 && s.data.oneChainRound <= hqc && hqc != U64_MAX
                 && (|| t.round == hqc + 1
                     || (tc.Some? && tc.value.timeout.round != U64_MAX && t.round == tc.value.timeout.round + 1)
                     || (tc.None? && t.round == 1))
                 && t.round >= s.data.lastVotedRound && (t.round == s.data.lastVotedRound || storageOk))
            && (r.Ok? ==> r.value == TimeoutSigning(t.epoch, t.round, hqc))
            && s' == s.(data := s.data.(lastVotedRound := if r.Ok? then t.round else s.data.lastVotedRound))
  {
  }

  /** In the very round just voted in, a timeout on the certificate the vote was based on, or a higher one, is signed
      without a write. */
  lemma TimeoutAfterVote(s: SafetyState, p: VoteProposal, tc: Option<TimeoutCert>, now: nat, t: TwoChainTimeout, tc': Option<TimeoutCert>)
    requires Considered(s, p, tc, now) && !VotedIn(s, p.block.round)
    requires p.block.round > s.data.lastVotedRound && Follows(p.block, tc)
    requires t.epoch == p.block.epoch && t.round == p.block.round
    requires t.quorumCert.Verify(s.epochState.value.verifier) && (tc'.Some? ==> tc'.value.Verify(s.epochState.value.verifier))
    requires Max(s.data.oneChainRound, p.block.quorumCert.voteData.proposed.round) <= t.quorumCert.voteData.proposed.round < t.round
    requires t.round < U64_MAX
    requires t.round == t.quorumCert.voteData.proposed.round + 1
          || (tc'.Some? && tc'.value.timeout.round != U64_MAX && t.round == tc'.value.timeout.round + 1)
    ensures var after := SignVote(s, p, tc, now, true).0;
            SignTimeout(after, t, tc', false) == (after, Ok(TimeoutSigning(t.epoch, t.round, t.quorumCert.voteData.proposed.round)))
  {
    NewVote(s, p, tc, now);
    TimeoutExactly(SignVote(s, p, tc, now, true).0, t, tc', false);
  }

  // --------------------------------------------------------- commit votes

  /** A commit vote is given if and only if the ordered ledger info only orders, a quorum signed it, and the executed
      one is of the same epoch, round and id, with the same timestamp or, ending an epoch, an earlier one. */
  lemma CommitVoteExactly(s: SafetyState, ordered: SignedLedgerInfo, executed: LedgerInfo)
    ensures var o, x := ordered.ledgerInfo.commitInfo, executed.commitInfo;
            SignCommitVote(s, ordered, executed).Ok? <==>
              && s.signer.Some? && s.epochState.Some?
              && o.nextEpoch == None && o.executedStateId == PLACEHOLDER_HASH && o.version == 0
              && o.epoch == x.epoch && o.round == x.round && o.id == x.id
              && (o.timestamp == x.timestamp || (o.timestamp > x.timestamp && x.nextEpoch.Some?))
              && ordered.signers != {} && ordered.signers <= s.epochState.value.verifier.powers.Keys
              && Power(s.epochState.value.verifier, ordered.signers) >= s.epochState.value.verifier.quorumPower
    ensures SignCommitVote(s, ordered, executed).Ok? ==> SignCommitVote(s, ordered, executed).value == executed
  {
  }

  // -------------------------------------------------------- initialisation

  /** A proof that leads at least to the waypoint and ends an epoch. */
  ghost predicate Leads(s: SafetyState, proof: EpochChangeProof)
  {
    && proof.chained && proof.last.Some? && s.waypointVersion <= proof.last.value.version
    && proof.last.value.nextEpochState.Some?
  }

  /** Initialisation succeeds if and only if the proof leads to this epoch or a later one, what changes can be saved,
      the validator belongs to it and has the key; behind, it reports how far the waypoint moved. */
  lemma InitializeExactly(s: SafetyState, proof: EpochChangeProof, keyCurrent: bool, keyFound: bool, storageOk: bool)
    ensures var (s', r) := Initialize(s, proof, keyCurrent, keyFound, storageOk);
            && (r.Ok? <==>
                 && Leads(s, proof)
                 && var next, version := proof.last.value.nextEpochState.value, proof.last.value.version;
                    && s.data.epoch <= next.epoch && ((version == s.waypointVersion && s.data.epoch == next.epoch) || storageOk)
                    && s.author in next.verifier.powers && ((s.signer.Some? && keyCurrent) || keyFound))
            && (r.Err? && r.error.WaypointOutOfDate? <==>
                 && Leads(s, proof) && proof.last.value.nextEpochState.value.epoch < s.data.epoch
                 && (proof.last.value.version == s.waypointVersion || storageOk))
            && (r.Err? && r.error.WaypointOutOfDate? ==>
                 && r.error.prevVersion == s.waypointVersion && r.error.currVersion == proof.last.value.version
                 && s' == s.(waypointVersion := proof.last.value.version))
            && (r.Ok? ==>
                 var next := proof.last.value.nextEpochState.value;
                 && s'.waypointVersion == proof.last.value.version && s'.author == s.author
                 && s'.signer == Some(s.author) && s'.epochState == Some(next)
                 && (s.data.epoch == next.epoch ==> s'.data == s.data)
                 && (s.data.epoch < next.epoch ==> s'.data == SafetyData(next.epoch, 0, 0, 0, None)))
  {
  }

  /** A validator that starts afresh in its epoch with its key in storage can sign at once, with its history. */
  lemma FreshStartSigns(s: SafetyState, es: EpochState, version: nat, storageOk: bool)
    requires s.author in es.verifier.powers && es.epoch == s.data.epoch && version == s.waypointVersion
    ensures var proof := EpochChangeProof(Some(EpochEnding(version, Some(es))), true);
            Initialize(Restart(s), proof, false, true, storageOk)
              == (s.(signer := Some(s.author), epochState := Some(es)), Ok(()))
  {
  }
}
