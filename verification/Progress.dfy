/** The safety rules leave room to go on: what a quorum of honest validators is asked to sign in a good round, it
    signs, and the block before becomes committed.  Stated for every state of every run, whatever happened before. */
module Progress {
  import opened Common
  import opened Quorum
  import opened ConsensusTypes
  import opened SafetyRulesModel
  import opened Network
  import opened NetworkInvariant
  import opened CommitSafety
  import opened SigningExact

  /** A proposal a validator of its epoch finds nothing wrong with, shown with certificates that exist. */
  ghost predicate Sound(c: Config, s: State, p: VoteProposal, tc: Option<TimeoutCert>, now: nat)
  {
    var b, v := p.block, c.verifiers(p.block.epoch);
    && Genuine(c, b) && AllSigned(c, s, b.quorumCert.signers, b.quorumCert.ledgerInfo)
    && b.quorumCert.Verify(v) && b.WellFormed(now) && Follows(b, tc)
    && (b.blockType.Proposal? ==> b.blockType.signed && b.blockType.author in v.powers)
    && (p.decoupledExecution || p.extension.Some?)
    && (tc.Some? ==> tc.value.Verify(v) && TcAvailable(c, s, tc.value) && tc.value.timeout.epoch == b.epoch)
  }

  /** The validator is initialised in the epoch and has signed nothing as high as the round. */
  ghost predicate Ready(s: State, a: Author, epoch: Epoch, round: Round)
  {
    && a in s.nodes
    && s.nodes[a].signer.Some? && s.nodes[a].epochState.Some?
    && s.nodes[a].data.epoch == epoch && s.nodes[a].data.lastVotedRound < round
  }

  /** A stretch of a run: steps of the network from `s` on. */
  ghost predicate Stretch(c: Config, s: State, run: seq<State>)
  {
    && |run| > 0 && run[0] == s
    && (forall k :: 0 <= k < |run| - 1 ==> Step(c, run[k], run[k + 1]))
  }

  ghost function VoteDataOf(p: VoteProposal): VoteData
    requires p.decoupledExecution || p.extension.Some?
  {
    var b := p.block;
    var (root, version) := if p.decoupledExecution then (PLACEHOLDER_HASH, 0) else p.extension.value;
    VoteData(BlockInfo(b.epoch, b.round, b.id, root, version, b.timestamp, p.nextEpoch), b.quorumCert.voteData.proposed)
  }

  ghost function LedgerInfoOf(p: VoteProposal): LedgerInfo
    requires p.decoupledExecution || p.extension.Some?
  {
    var parent := p.block.quorumCert.voteData.proposed;
    LedgerInfo(if p.block.round == parent.round + 1 then parent else EMPTY_BLOCK_INFO, VoteDataOf(p))
  }

  lemma ReadyVotes(c: Config, s: State, p: VoteProposal, tc: Option<TimeoutCert>, now: nat, a: Author)
    requires Inv(c, s) && Sound(c, s, p, tc, now) && Ready(s, a, p.block.epoch, p.block.round)
    ensures SignVote(s.nodes[a], p, tc, now, true).1.Ok?
    ensures SignVote(s.nodes[a], p, tc, now, true).1.value.ledgerInfo == LedgerInfoOf(p)
  {
    var n := s.nodes[a];
    assert NodeInv(c, s, a);
    if n.data.lastVote.Some? {
      assert VoteInv(c, s, a, n.data.lastVote.value.ledgerInfo);
    }
    NewVote(n, p, tc, now);
  }

  lemma SoundGrows(c: Config, s: State, s': State, p: VoteProposal, tc: Option<TimeoutCert>, now: nat)
    requires Sound(c, s, p, tc, now) && Grows(s, s')
    ensures Sound(c, s', p, tc, now)
  {
    SignedGrows(c, s, s', p.block.quorumCert.signers, p.block.quorumCert.ledgerInfo);
    if tc.Some? {
      forall a | a in tc.value.signedRounds
        ensures TimeoutSigned(c, s', a, TimeoutSigning(tc.value.timeout.epoch, tc.value.timeout.round, tc.value.signedRounds[a]))
      {
        assert TimeoutSigned(c, s, a, TimeoutSigning(tc.value.timeout.epoch, tc.value.timeout.round, tc.value.signedRounds[a]));
      }
    }
  }

  /** The vote of one ready validator: the others stay ready. */
  lemma VoteStep(c: Config, s: State, p: VoteProposal, tc: Option<TimeoutCert>, now: nat, a: Author) returns (s': State)
    requires Inv(c, s) && Sound(c, s, p, tc, now) && Ready(s, a, p.block.epoch, p.block.round)
    ensures var act := VoteOn(a, p, tc, now, true); Enabled(c, s, act) && s' == Apply(s, act)
    ensures (a, LedgerInfoOf(p)) in s'.votes
    ensures forall b :: b != a && Ready(s, b, p.block.epoch, p.block.round) ==> Ready(s', b, p.block.epoch, p.block.round)
  {
    ReadyVotes(c, s, p, tc, now, a);
    s' := Apply(s, VoteOn(a, p, tc, now, true));
  }

  lemma StretchPrepend(c: Config, s: State, s': State, run: seq<State>)
    requires Step(c, s, s') && Stretch(c, s', run)
    ensures Stretch(c, s, [s] + run)
  {
    forall k | 0 <= k < |run|
      ensures Step(c, ([s] + run)[k], ([s] + run)[k + 1])
    {
      assert k > 0 ==> Step(c, run[k - 1], run[k - 1 + 1]);
    }
  }

  /** One after the other, all validators that are ready vote for a sound proposal. */
  lemma {:induction false} AllVote(c: Config, s: State, p: VoteProposal, tc: Option<TimeoutCert>, now: nat, q: set<Author>)
    returns (run: seq<State>)
    requires Inv(c, s) && ResilientConfig(c) && Sound(c, s, p, tc, now)
    requires forall a :: a in q ==> Ready(s, a, p.block.epoch, p.block.round)
    ensures Stretch(c, s, run) && Grows(s, run[|run| - 1])
    ensures forall a :: a in q ==> (a, LedgerInfoOf(p)) in run[|run| - 1].votes
    decreases q
  {
    if q == {} {
      run := [s];
    } else {
      var a :| a in q;
      var s' := VoteStep(c, s, p, tc, now, a);
      StepKeepsInv(c, s, VoteOn(a, p, tc, now, true));
      StepGrows(c, s, VoteOn(a, p, tc, now, true));
      SoundGrows(c, s, s', p, tc, now);
      var rest := AllVote(c, s', p, tc, now, q - {a});
      StretchPrepend(c, s, s', rest);
      run := [s] + rest;
      assert run[|run| - 1] == rest[|rest| - 1];
    }
  }

  lemma RunContinues(c: Config, past: seq<State>, more: seq<State>)
    requires IsRun(c, past) && Stretch(c, past[|past| - 1], more)
    ensures IsRun(c, past + more[1..])
  {
    var run := past + more[1..];
    forall k | 0 <= k < |run| - 1
      ensures Step(c, run[k], run[k + 1])
    {
      if k < |past| - 1 {
        assert Step(c, past[k], past[k + 1]);
      } else {
        var j := k - (|past| - 1);
        assert run[k] == more[j] && run[k + 1] == more[j + 1];
        assert Step(c, more[j], more[j + 1]);
      }
    }
  }

  /** A round that goes well is certified, and commits the block of the round just before, whatever happened earlier
      in the run: nothing the validators have signed stands in the way. */
  lemma GoodRoundCommits(c: Config, past: seq<State>, p: VoteProposal, tc: Option<TimeoutCert>, now: nat, q: set<Author>)
    returns (run: seq<State>)
    requires IsRun(c, past) && ResilientConfig(c) && IsQuorum(c.verifiers(p.block.epoch), q)
    requires Sound(c, past[|past| - 1], p, tc, now)
    requires forall a :: a in q ==> Ready(past[|past| - 1], a, p.block.epoch, p.block.round)
    ensures IsRun(c, run) && past <= run && Certified(c, run[|run| - 1], VoteDataOf(p))
    ensures var parent := p.block.quorumCert.voteData.proposed;
            parent.round > 0 && p.block.round == parent.round + 1 ==>
              CommitProof(c, run[|run| - 1], LedgerInfo(parent, VoteDataOf(p)), q)
  {
    RunKeepsInv(c, past, 0, |past| - 1);
    var more := AllVote(c, past[|past| - 1], p, tc, now, q);
    RunContinues(c, past, more);
    run := past + more[1..];
    assert run[|run| - 1] == more[|more| - 1];
    assert VoteQuorum(c, run[|run| - 1], VoteDataOf(p), q);
    assert AllSigned(c, run[|run| - 1], q, LedgerInfoOf(p));
  }
}
