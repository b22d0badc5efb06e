/** Every step of the network keeps the invariant of module `Network`. */
module NetworkInvariant {
  import opened Common
  import opened Quorum
  import opened ConsensusTypes
  import opened SafetyRulesModel
  import opened Network

  lemma InitEstablishesInv(c: Config, s: State)
    requires Init(c, s)
    ensures Inv(c, s)
  {
  }

  /** A step that changes no signature and moves one node forward keeps the invariant. */
  lemma QuietStepKeepsInv(c: Config, s: State, s': State, a: Author)
    requires Inv(c, s) && a in s.nodes
    requires s'.votes == s.votes && s'.commitVotes == s.commitVotes && s'.timeouts == s.timeouts
    requires s'.nodes.Keys == s.nodes.Keys && (forall b :: b in s.nodes && b != a ==> s'.nodes[b] == s.nodes[b])
    requires NodeInv(c, s', a)
    requires s'.nodes[a].data == s.nodes[a].data || s'.nodes[a].data.epoch > s.nodes[a].data.epoch
    ensures Inv(c, s')
  {
    forall b | b in s'.nodes
      ensures NodeInv(c, s', b)
    {
      assert NodeInv(c, s, b);
    }
    forall b, li | (b, li) in s'.votes
      ensures VoteInv(c, s', b, li)
    {
      assert VoteInv(c, s, b, li);
      JustifiedGrows(c, s, s', li.consensusData);
    }
    forall b, t | (b, t) in s'.timeouts
      ensures TimeoutInv(s', b, t)
    {
      assert TimeoutInv(s, b, t);
    }
    CommitsGrow(c, s, s');
  }

  /** The certificate in a verified block justifies the vote on it. */
  lemma BlockJustifiesVote(c: Config, s: State, act: Action, vd: VoteData)
    requires Inv(c, s) && act.VoteOn? && Enabled(c, s, act)
    requires VerifyProposal(s.nodes[act.node], act.proposal, act.now) == Ok(vd)
    requires act.tc.Some? ==> act.tc.value.Verify(s.nodes[act.node].epochState.value.verifier)
    requires SafeToVote(act.proposal.block, act.tc).Ok?
    ensures Justified(c, s, vd)
  {
    var n := s.nodes[act.node];
    var block := act.proposal.block;
    var qc := block.quorumCert;
    assert NodeInv(c, s, act.node);
    if vd.parent.round > 0 {
      QuorumSignedIsCertified(c, s, qc.ledgerInfo, qc.signers);
    }
    if vd.parent.round + 1 != vd.proposed.round {
      assert act.tc.Some?;
      assert TimeoutQuorum(c, s, vd, act.tc.value.signedRounds);
    }
  }

  /** Node `a` moves from `data` to `next` within its epoch, forgetting nothing it must remember. */
  ghost predicate Advances(data: SafetyData, next: SafetyData)
  {
    && next.epoch == data.epoch
    && next.lastVotedRound >= data.lastVotedRound
    && next.oneChainRound >= data.oneChainRound
  }

  /** `s'` is `s` with node `a` advanced to `next`. */
  ghost predicate NodeAdvanced(s: State, s': State, a: Author, next: SafetyData)
  {
    && a in s.nodes
    && Advances(s.nodes[a].data, next)
    && s'.nodes == s.nodes[a := s.nodes[a].(data := next)]
    && s'.commitVotes == s.commitVotes
    && Grows(s, s')
  }

  /** Old votes and timeouts stay in order when a node advances. */
  lemma AdvanceKeepsRecords(c: Config, s: State, s': State, a: Author, next: SafetyData)
    requires Inv(c, s) && NodeAdvanced(s, s', a, next)
    ensures forall b, li :: (b, li) in s.votes ==> VoteInv(c, s', b, li)
    ensures forall b, t :: (b, t) in s.timeouts ==> TimeoutInv(s', b, t)
    ensures CommitsInv(c, s')
  {
    forall b, li | (b, li) in s.votes
      ensures VoteInv(c, s', b, li)
    {
      assert VoteInv(c, s, b, li);
      JustifiedGrows(c, s, s', li.consensusData);
    }
    forall b, t | (b, t) in s.timeouts
      ensures TimeoutInv(s', b, t)
    {
      assert TimeoutInv(s, b, t);
    }
    CommitsGrow(c, s, s');
  }

  lemma AdvanceKeepsNodes(c: Config, s: State, s': State, a: Author, next: SafetyData)
    requires NodesInv(c, s) && NodeAdvanced(s, s', a, next)
    requires next.lastVote.Some? ==>
               && (a, next.lastVote.value.ledgerInfo) in s'.votes
               && next.lastVote.value.Epoch() == next.epoch
               && next.lastVote.value.ledgerInfo.consensusData == next.lastVote.value.voteData
    ensures NodesInv(c, s')
  {
    forall b | b in s'.nodes
      ensures NodeInv(c, s', b)
    {
      assert NodeInv(c, s, b);
    }
  }

  /** A fresh round vote, above every round the validator has signed in before. */
  lemma VoteAdded(c: Config, s: State, s': State, a: Author, next: SafetyData, vd: VoteData)
    requires Inv(c, s) && NodeAdvanced(s, s', a, next) && Justified(c, s, vd)
    requires s'.votes == s.votes + {(a, LedgerInfo(CommitOf(vd), vd))} && s'.timeouts == s.timeouts
    requires vd.parent.epoch == vd.proposed.epoch == next.epoch && vd.parent.round < vd.proposed.round
    requires c.links(vd.proposed.id) == BlockLink(vd.proposed.epoch, vd.proposed.round, vd.parent)
    requires next.lastVotedRound == vd.proposed.round > s.nodes[a].data.lastVotedRound
    requires next.oneChainRound >= vd.parent.round
    requires next.lastVote == Some(Vote(vd, a, LedgerInfo(CommitOf(vd), vd), None))
    ensures Inv(c, s')
  {
    var li := LedgerInfo(CommitOf(vd), vd);
    AdvanceKeepsRecords(c, s, s', a, next);
    AdvanceKeepsNodes(c, s, s', a, next);
    JustifiedGrows(c, s, s', vd);
    assert VoteInv(c, s', a, li);
    forall b, l1, l2 | (b, l1) in s'.votes && (b, l2) in s'.votes && SameRoundVote(l1, l2)
      ensures l1 == l2
    {
      assert (b, l1) in s.votes ==> VoteInv(c, s, b, l1);
      assert (b, l2) in s.votes ==> VoteInv(c, s, b, l2);
    }
    forall b, l, t | (b, l) in s'.votes && (b, t) in s'.timeouts
      ensures Locked(l, t)
    {
      assert TimeoutInv(s, b, t);
    }
  }

  /** A timeout, attesting at least the highest round the validator has voted on top of. */
  lemma TimeoutAdded(c: Config, s: State, s': State, a: Author, next: SafetyData, t: TimeoutSigning)
    requires Inv(c, s) && NodeAdvanced(s, s', a, next)
    requires s'.votes == s.votes && s'.timeouts == s.timeouts + {(a, t)}
    requires t.epoch == next.epoch && t.round == next.lastVotedRound
    requires next.oneChainRound == s.nodes[a].data.oneChainRound <= t.hqcRound
    requires next.lastVote == s.nodes[a].data.lastVote
    ensures Inv(c, s')
  {
    assert NodeInv(c, s, a);
    AdvanceKeepsRecords(c, s, s', a, next);
    AdvanceKeepsNodes(c, s, s', a, next);
    assert TimeoutInv(s', a, t);
    forall b, l, u | (b, l) in s'.votes && (b, u) in s'.timeouts
      ensures Locked(l, u)
    {
      assert VoteInv(c, s, b, l);
    }
  }

  lemma VoteStepKeepsInv(c: Config, s: State, act: Action)
    requires Inv(c, s) && act.VoteOn? && Enabled(c, s, act)
    ensures Inv(c, Apply(s, act))
  {
    var a := act.node;
    var n := s.nodes[a];
    var s' := Apply(s, act);
    assert NodeInv(c, s, a);
    var r := SignVote(n, act.proposal, act.tc, act.now, act.storageOk);
    if r.0 == n {
      assert s'.nodes == s.nodes && s'.votes == s.votes;
      assert s' == s;
    } else {
      var vd := VerifyProposal(n, act.proposal, act.now).value;
      BlockJustifiesVote(c, s, act, vd);
      VoteAdded(c, s, s', a, r.0.data, vd);
    }
  }

  lemma TimeoutStepKeepsInv(c: Config, s: State, act: Action)
    requires Inv(c, s) && act.TimeOut? && Enabled(c, s, act)
    ensures Inv(c, Apply(s, act))
  {
    var a := act.node;
    var s' := Apply(s, act);
    var r := SignTimeout(s.nodes[a], act.timeout, act.tc, act.storageOk);
    if r.1.Err? {
      assert s'.nodes == s.nodes;
      assert s' == s;
    } else {
      TimeoutAdded(c, s, s', a, r.0.data, r.1.value);
    }
  }

  lemma CommitVoteAdded(c: Config, s: State, s': State, a: Author, li: LedgerInfo)
    requires Inv(c, s) && CommitInv(c, s, li) && s' == s.(commitVotes := s.commitVotes + {(a, li)})
    ensures Inv(c, s')
  {
    forall b | b in s'.nodes
      ensures NodeInv(c, s', b)
    {
      assert NodeInv(c, s, b);
    }
    forall b, l | (b, l) in s'.votes
      ensures VoteInv(c, s', b, l)
    {
      assert VoteInv(c, s, b, l);
      JustifiedGrows(c, s, s', l.consensusData);
    }
    forall b, t | (b, t) in s'.timeouts
      ensures TimeoutInv(s', b, t)
    {
      assert TimeoutInv(s, b, t);
    }
    forall b, l | (b, l) in s'.commitVotes
      ensures CommitInv(c, s', l)
    {
      assert (b, l) in s.commitVotes ==> CommitInv(c, s, l);
      CertifiedGrows(c, s, s', l.consensusData);
    }
  }

  lemma CommitStepKeepsInv(c: Config, s: State, act: Action)
    requires Inv(c, s) && ResilientConfig(c) && act.VoteCommit? && Enabled(c, s, act)
    ensures Inv(c, Apply(s, act))
  {
    var s' := Apply(s, act);
    assert NodeInv(c, s, act.node);
    if SignCommitVote(s.nodes[act.node], act.ordered, act.executed).Ok? {
      QuorumSignedIsCertified(c, s, act.ordered.ledgerInfo, act.ordered.signers);
      QuorumSignedCommits(c, s, act.ordered.ledgerInfo, act.ordered.signers);
      CommitVoteAdded(c, s, s', act.node, act.executed);
    }
  }

  lemma EpochNodeInv(c: Config, s: State, act: Action)
    requires NodesInv(c, s) && (act.ChangeEpoch? || act.Crash?) && Enabled(c, s, act)
    ensures NodeInv(c, Apply(s, act), act.node)
    ensures var data, next := s.nodes[act.node].data, Apply(s, act).nodes[act.node].data;
            next == data || next.epoch > data.epoch
  {
    assert NodeInv(c, s, act.node);
  }

  lemma EpochStepKeepsInv(c: Config, s: State, act: Action)
    requires Inv(c, s) && (act.ChangeEpoch? || act.Crash?) && Enabled(c, s, act)
    ensures Inv(c, Apply(s, act))
  {
    EpochNodeInv(c, s, act);
    QuietStepKeepsInv(c, s, Apply(s, act), act.node);
  }

  lemma StepGrows(c: Config, s: State, act: Action)
    requires Enabled(c, s, act)
    ensures Grows(s, Apply(s, act))
  {
  }

  lemma StepKeepsInv(c: Config, s: State, act: Action)
    requires Inv(c, s) && ResilientConfig(c) && Enabled(c, s, act)
    ensures Inv(c, Apply(s, act))
  {
    if act.VoteOn? {
      VoteStepKeepsInv(c, s, act);
    } else if act.TimeOut? {
      TimeoutStepKeepsInv(c, s, act);
    } else if act.VoteCommit? {
      CommitStepKeepsInv(c, s, act);
    } else {
      EpochStepKeepsInv(c, s, act);
    }
  }

  /** The invariant holds all along every run, and no signature is ever lost. */
  lemma {:induction false} RunKeepsInv(c: Config, run: seq<State>, i: nat, j: nat)
    requires IsRun(c, run) && ResilientConfig(c) && i <= j < |run|
    ensures Inv(c, run[j]) && Grows(run[i], run[j])
    decreases j
  {
    if j == 0 {
      InitEstablishesInv(c, run[0]);
    } else {
      RunKeepsInv(c, run, if i == j then j - 1 else i, j - 1);
      assert Step(c, run[j - 1], run[j - 1 + 1]);
      var act :| Enabled(c, run[j - 1], act) && run[j] == Apply(run[j - 1], act);
      StepKeepsInv(c, run[j - 1], act);
      StepGrows(c, run[j - 1], act);
    }
  }
}
