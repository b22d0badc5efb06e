/** The safety theorems of AptosBFT, for every run of the network:
    one certified proposal per round, every certified proposal above a commit extends the committed
    block, and any two commits of an epoch lie on one chain. */
module CommitSafety {
  import opened Quorum
  import opened ConsensusTypes
  import opened SafetyRulesModel
  import opened Network
  import opened NetworkInvariant

  /** At most one vote data per epoch and round can be certified. */
  lemma CertifiedUnique(c: Config, s: State, v1: VoteData, v2: VoteData)
    requires Inv(c, s) && ResilientConfig(c) && Certified(c, s, v1) && Certified(c, s, v2)
    requires v1.proposed.epoch == v2.proposed.epoch && v1.proposed.round == v2.proposed.round
    ensures v1 == v2
  {
    var q1 :| VoteQuorum(c, s, v1, q1);
    var q2 :| VoteQuorum(c, s, v2, q2);
    var v := c.verifiers(v1.proposed.epoch);
    assert Resilient(v, c.byzantine);
    var a := QuorumsShareHonest(v, c.byzantine, q1, q2);
    var l1, l2 := LedgerInfo(CommitOf(v1), v1), LedgerInfo(CommitOf(v2), v2);
    assert SameRoundVote(l1, l2);
  }

  /** Certified vote data was cast by some honest validator, so it carries that vote's reasons. */
  lemma CertifiedJustified(c: Config, s: State, vd: VoteData)
    requires Inv(c, s) && ResilientConfig(c) && Certified(c, s, vd)
    ensures vd.parent.epoch == vd.proposed.epoch && vd.parent.round < vd.proposed.round
    ensures c.links(vd.proposed.id) == BlockLink(vd.proposed.epoch, vd.proposed.round, vd.parent)
    ensures Justified(c, s, vd)
  {
    var q :| VoteQuorum(c, s, vd, q);
    var v := c.verifiers(vd.proposed.epoch);
    assert Resilient(v, c.byzantine);
    var a := QuorumsShareHonest(v, c.byzantine, q, q);
    assert VoteInv(c, s, a, LedgerInfo(CommitOf(vd), vd));
  }

  /** Certified in consecutive rounds, so a certificate on it commits its parent. */
  ghost predicate CommitsParent(c: Config, s: State, vd: VoteData)
  {
    Certified(c, s, vd) && vd.parent.round + 1 == vd.proposed.round
  }

  /** A quorum that timed out shares an honest member with the quorum that certified the commit,
      and that member's timeout attests at least the committed round. */
  lemma TimeoutsRespectLocks(c: Config, s: State, commit: VoteData, vd: VoteData)
    requires LocksInv(s) && Resilient(c.verifiers(vd.proposed.epoch), c.byzantine)
    requires Certified(c, s, commit) && RoundSkipped(c, s, vd)
    requires vd.proposed.epoch == commit.proposed.epoch && vd.proposed.round > commit.proposed.round
    ensures vd.parent.round >= commit.parent.round
  {
    var timedOut :| TimeoutQuorum(c, s, vd, timedOut);
    var voted :| VoteQuorum(c, s, commit, voted);
    var a := QuorumsShareHonest(c.verifiers(vd.proposed.epoch), c.byzantine, timedOut.Keys, voted);
    var t := TimeoutSigning(vd.proposed.epoch, vd.proposed.round - 1, timedOut[a]);
    assert TimeoutSigned(c, s, a, t);
    assert Locked(LedgerInfo(CommitOf(commit), commit), t);
  }

  /** Once a block is committed, no later proposal can be certified on top of an earlier round. */
  lemma NoCertificateBelowCommit(c: Config, s: State, commit: VoteData, vd: VoteData)
    requires Inv(c, s) && ResilientConfig(c) && CommitsParent(c, s, commit) && Certified(c, s, vd)
    requires vd.proposed.epoch == commit.proposed.epoch && vd.proposed.round > commit.parent.round
    ensures vd.parent.round >= commit.parent.round
  {
    if vd.proposed.round == commit.proposed.round {
      CertifiedUnique(c, s, commit, vd);
    } else {
      CertifiedJustified(c, s, vd);
      if vd.parent.round + 1 != vd.proposed.round {
        TimeoutsRespectLocks(c, s, commit, vd);
      }
    }
  }

  /** `path` lists certified vote data leading from block `a` to block `b` by parent links. */
  ghost predicate Chain(c: Config, s: State, a: BlockInfo, b: BlockInfo, path: seq<VoteData>)
    decreases |path|
  {
    if path == [] then a == b
    else
      var last := path[|path| - 1];
      Certified(c, s, last) && last.proposed == b && Chain(c, s, a, last.parent, path[..|path| - 1])
  }

  ghost predicate Extends(c: Config, s: State, a: BlockInfo, b: BlockInfo)
  {
    exists path :: Chain(c, s, a, b, path)
  }

  /** Every certified proposal from the committed round on extends the committed block. */
  lemma {:induction false} CertifiedExtendsCommit(c: Config, s: State, commit: VoteData, vd: VoteData)
    requires Inv(c, s) && ResilientConfig(c) && CommitsParent(c, s, commit) && commit.parent.round > 0
    requires Certified(c, s, vd) && vd.proposed.epoch == commit.proposed.epoch
    requires vd.proposed.round >= commit.parent.round
    ensures Extends(c, s, commit.parent, vd.proposed)
    decreases vd.proposed.round
  {
    CertifiedJustified(c, s, vd);
    if vd.proposed.round == commit.parent.round {
      CertifiedJustified(c, s, commit);
      var vp :| Certified(c, s, vp) && vp.proposed == commit.parent;
      CertifiedUnique(c, s, vp, vd);
      assert Chain(c, s, commit.parent, vd.proposed, []);
    } else {
      NoCertificateBelowCommit(c, s, commit, vd);
      var vp :| Certified(c, s, vp) && vp.proposed == vd.parent;
      CertifiedExtendsCommit(c, s, commit, vp);
      var path :| Chain(c, s, commit.parent, vd.parent, path);
      assert (path + [vd])[..|path|] == path;
      assert Chain(c, s, commit.parent, vd.proposed, path + [vd]);
    }
  }

  /** A commit proof: a ledger info that names a block to commit and carries a quorum of signatures. */
  ghost predicate CommitProof(c: Config, s: State, li: LedgerInfo, signers: set<Author>)
  {
    && IsQuorum(c.verifiers(li.consensusData.proposed.epoch), signers)
    && AllSigned(c, s, signers, li)
    && li.commitInfo.round > 0
  }

  /** A commit proof commits the parent of its certified vote data, which is itself certified. */
  lemma CommitProofCommits(c: Config, s: State, li: LedgerInfo, signers: set<Author>) returns (vp: VoteData)
    requires Inv(c, s) && ResilientConfig(c) && CommitProof(c, s, li, signers)
    ensures CommitsParent(c, s, li.consensusData)
    ensures SameBlock(li.commitInfo, li.consensusData.parent)
    ensures Certified(c, s, vp) && vp.proposed == li.consensusData.parent
    ensures li.consensusData.parent.epoch == li.consensusData.proposed.epoch
  {
    QuorumSignedIsCertified(c, s, li, signers);
    QuorumSignedCommits(c, s, li, signers);
    CertifiedJustified(c, s, li.consensusData);
    vp :| Certified(c, s, vp) && vp.proposed == li.consensusData.parent;
  }

  /** The converse: two certified blocks of consecutive rounds in a row are a commit proof for the first. */
  lemma CertifiedCommits(c: Config, s: State, vd: VoteData)
    requires Certified(c, s, vd) && vd.parent.round + 1 == vd.proposed.round && vd.parent.round > 0
    ensures exists q :: CommitProof(c, s, LedgerInfo(vd.parent, vd), q)
  {
    var q :| VoteQuorum(c, s, vd, q);
    assert AllSigned(c, s, q, LedgerInfo(vd.parent, vd));
    assert CommitProof(c, s, LedgerInfo(vd.parent, vd), q);
  }

  /** Exactly the certified blocks with a certified child in the very next round can be proved committed. */
  lemma CommittedExactly(c: Config, s: State, vd: VoteData)
    requires Inv(c, s) && ResilientConfig(c)
    ensures (exists li, q :: CommitProof(c, s, li, q) && li.consensusData == vd) <==>
            Certified(c, s, vd) && vd.parent.round + 1 == vd.proposed.round && vd.parent.round > 0
  {
    if li, q :| CommitProof(c, s, li, q) && li.consensusData == vd {
      var _ := CommitProofCommits(c, s, li, q);
    }
    if Certified(c, s, vd) && vd.parent.round + 1 == vd.proposed.round && vd.parent.round > 0 {
      CertifiedCommits(c, s, vd);
      var q :| CommitProof(c, s, LedgerInfo(vd.parent, vd), q);
    }
  }

  /** Any two committed blocks of an epoch lie on one chain of certified blocks. */
  lemma CommitsOnOneChain(c: Config, s: State, l1: LedgerInfo, q1: set<Author>, l2: LedgerInfo, q2: set<Author>)
    requires Inv(c, s) && ResilientConfig(c) && CommitProof(c, s, l1, q1) && CommitProof(c, s, l2, q2)
    requires l1.consensusData.proposed.epoch == l2.consensusData.proposed.epoch
    requires l1.commitInfo.round <= l2.commitInfo.round
    ensures Extends(c, s, l1.consensusData.parent, l2.consensusData.parent)
  {
    var v1 := CommitProofCommits(c, s, l1, q1);
    var v2 := CommitProofCommits(c, s, l2, q2);
    CertifiedExtendsCommit(c, s, l1.consensusData, v2);
  }

  // ------------------------------------------------------- over whole runs

  lemma SignedGrows(c: Config, s: State, s': State, q: set<Author>, li: LedgerInfo)
    requires Grows(s, s') && AllSigned(c, s, q, li)
    ensures AllSigned(c, s', q, li)
  {
    forall a | a in q
      ensures Signed(c, s', a, li)
    {
      assert Signed(c, s, a, li);
    }
  }

  /** Agreement: in every run, certificates that appear at any two moments and commit blocks of the
      same epoch commit blocks of one chain; committed blocks of the same round are the same block. */
  lemma Agreement(c: Config, run: seq<State>, i: nat, j: nat,
                  l1: LedgerInfo, q1: set<Author>, l2: LedgerInfo, q2: set<Author>)
    requires IsRun(c, run) && ResilientConfig(c) && i < |run| && j < |run|
    requires CommitProof(c, run[i], l1, q1) && CommitProof(c, run[j], l2, q2)
    requires l1.consensusData.proposed.epoch == l2.consensusData.proposed.epoch
    ensures var b1, b2, s := l1.consensusData.parent, l2.consensusData.parent, run[|run| - 1];
            && SameBlock(l1.commitInfo, b1) && SameBlock(l2.commitInfo, b2)
            && (Extends(c, s, b1, b2) || Extends(c, s, b2, b1))
            && (l1.commitInfo.round == l2.commitInfo.round ==> b1 == b2)
  {
    var last := |run| - 1;
    var s := run[last];
    RunKeepsInv(c, run, i, last);
    RunKeepsInv(c, run, j, last);
    SignedGrows(c, run[i], s, q1, l1);
    SignedGrows(c, run[j], s, q2, l2);
    var v1 := CommitProofCommits(c, s, l1, q1);
    var v2 := CommitProofCommits(c, s, l2, q2);
    if l1.commitInfo.round <= l2.commitInfo.round {
      CommitsOnOneChain(c, s, l1, q1, l2, q2);
    } else {
      CommitsOnOneChain(c, s, l2, q2, l1, q1);
    }
    if l1.commitInfo.round == l2.commitInfo.round {
      CertifiedUnique(c, s, v1, v2);
    }
  }

  /** No honest validator has signed `li` as a commit vote. */
  ghost predicate NoCommitVote(s: State, li: LedgerInfo)
  {
    forall a :: (a, li) !in s.commitVotes
  }

  lemma RoundVotesFixLedgerInfo(c: Config, s: State, li: LedgerInfo, q: set<Author>)
    requires Inv(c, s) && ResilientConfig(c) && NoCommitVote(s, li)
    requires IsQuorum(c.verifiers(li.consensusData.proposed.epoch), q) && AllSigned(c, s, q, li)
    ensures li.commitInfo == CommitOf(li.consensusData)
  {
    var v := c.verifiers(li.consensusData.proposed.epoch);
    assert Resilient(v, c.byzantine);
    var a := QuorumsShareHonest(v, c.byzantine, q, q);
    assert Signed(c, s, a, li);
    assert VoteInv(c, s, a, li);
  }

  /** In every run, quorum certificates that appear at any two moments for the same epoch and round
      certify the same proposal and commit the same block; made of round votes alone, they agree on
      the whole ledger info. */
  lemma CertificateUniqueness(c: Config, run: seq<State>, i: nat, j: nat, qc1: QuorumCert, qc2: QuorumCert)
    requires IsRun(c, run) && ResilientConfig(c) && i < |run| && j < |run|
    requires qc1.Verify(c.verifiers(qc1.voteData.proposed.epoch)) && qc2.Verify(c.verifiers(qc2.voteData.proposed.epoch))
    requires AllSigned(c, run[i], qc1.signers, qc1.ledgerInfo) && AllSigned(c, run[j], qc2.signers, qc2.ledgerInfo)
    requires qc1.voteData.proposed.epoch == qc2.voteData.proposed.epoch
    requires qc1.Round() == qc2.Round() > 0
    ensures qc1.voteData == qc2.voteData
    ensures SameBlock(qc1.ledgerInfo.commitInfo, qc2.ledgerInfo.commitInfo)
    ensures NoCommitVote(run[|run| - 1], qc1.ledgerInfo) && NoCommitVote(run[|run| - 1], qc2.ledgerInfo)
            ==> qc1.ledgerInfo == qc2.ledgerInfo
  {
    var last := |run| - 1;
    var s := run[last];
    RunKeepsInv(c, run, i, last);
    RunKeepsInv(c, run, j, last);
    SignedGrows(c, run[i], s, qc1.signers, qc1.ledgerInfo);
    SignedGrows(c, run[j], s, qc2.signers, qc2.ledgerInfo);
    QuorumSignedIsCertified(c, s, qc1.ledgerInfo, qc1.signers);
    QuorumSignedIsCertified(c, s, qc2.ledgerInfo, qc2.signers);
    CertifiedUnique(c, s, qc1.voteData, qc2.voteData);
    QuorumSignedCommits(c, s, qc1.ledgerInfo, qc1.signers);
    QuorumSignedCommits(c, s, qc2.ledgerInfo, qc2.signers);
    if NoCommitVote(s, qc1.ledgerInfo) && NoCommitVote(s, qc2.ledgerInfo) {
      RoundVotesFixLedgerInfo(c, s, qc1.ledgerInfo, qc1.signers);
      RoundVotesFixLedgerInfo(c, s, qc2.ledgerInfo, qc2.signers);
    }
  }
}
