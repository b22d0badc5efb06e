/** A network of validators.  Honest ones sign only through `SafetyRulesModel`, driven by arbitrary
    requests in any interleaving, with crashes, failing writes and epoch changes; Byzantine ones
    sign anything at any time.  The network is the growing set of signatures honest validators have
    produced: any certificate shown to an honest validator is made of those and Byzantine ones. */
module Network {
  import opened Common
  import opened Quorum
  import opened ConsensusTypes
  import opened SafetyRulesModel

  /** The part of a block's contents its id, being a hash of them, pins down. */
  datatype BlockLink = BlockLink(epoch: Epoch, round: Round, parent: BlockInfo)

  /** `links` inverts the block hash: what a block with a given id contains. */
  datatype Config = Config(
    verifiers: Epoch -> ValidatorVerifier,
    byzantine: set<Author>,
    links: HashValue -> BlockLink)

  datatype State = State(
    nodes: map<Author, SafetyState>,
    votes: set<(Author, LedgerInfo)>,
    commitVotes: set<(Author, LedgerInfo)>,
    timeouts: set<(Author, TimeoutSigning)>)

  datatype Action =
    | VoteOn(node: Author, proposal: VoteProposal, tc: Option<TimeoutCert>, now: nat, storageOk: bool)
    | TimeOut(node: Author, timeout: TwoChainTimeout, tc: Option<TimeoutCert>, storageOk: bool)
    | VoteCommit(node: Author, ordered: SignedLedgerInfo, executed: LedgerInfo)
    | ChangeEpoch(node: Author, proof: EpochChangeProof, keyCurrent: bool, keyFound: bool, storageOk: bool)
    | Crash(node: Author)

  /** Fewer than a third of the votes are Byzantine, in every epoch. */
  ghost predicate ResilientConfig(c: Config)
  {
    forall e: Epoch :: Resilient(c.verifiers(e), c.byzantine)
  }

  // ------------------------------------------------------ what can be shown

  ghost predicate Signed(c: Config, s: State, a: Author, li: LedgerInfo)
  {
    a in c.byzantine || (a, li) in s.votes || (a, li) in s.commitVotes
  }

  /** Every signature in the set exists. */
  ghost predicate AllSigned(c: Config, s: State, signers: set<Author>, li: LedgerInfo)
  {
    forall a :: a in signers ==> Signed(c, s, a, li)
  }

  ghost predicate TimeoutSigned(c: Config, s: State, a: Author, t: TimeoutSigning)
  {
    a in c.byzantine || (a, t) in s.timeouts
  }

  ghost predicate TcAvailable(c: Config, s: State, tc: TimeoutCert)
  {
    forall a :: a in tc.signedRounds ==>
      TimeoutSigned(c, s, a, TimeoutSigning(tc.timeout.epoch, tc.timeout.round, tc.signedRounds[a]))
  }

  /** The block's id is the hash of its contents, as recomputed whenever a block is received. */
  ghost predicate Genuine(c: Config, b: Block)
  {
    c.links(b.id) == BlockLink(b.epoch, b.round, b.quorumCert.voteData.proposed)
  }

  // ------------------------------------------------------------------ steps

  ghost predicate Init(c: Config, s: State)
  {
    && s.votes == {} && s.commitVotes == {} && s.timeouts == {}
    && s.nodes.Keys !! c.byzantine
    && (forall a :: a in s.nodes ==>
          && s.nodes[a].author == a
          && s.nodes[a].signer == None && s.nodes[a].epochState == None
          && s.nodes[a].data.lastVote == None)
  }

  /** What the environment guarantees about a request: signatures cannot be forged, hashes do not
      collide, the caller's timeout certificate is of the block's epoch, a commit vote repeats the ordered consensus data
      of the current epoch, and a verified epoch-change proof names the epoch's validators. */
  ghost predicate Enabled(c: Config, s: State, act: Action)
  {
    && act.node in s.nodes
    && match act
       case VoteOn(_, p, tc, _, _) =>
         && Genuine(c, p.block)
         && AllSigned(c, s, p.block.quorumCert.signers, p.block.quorumCert.ledgerInfo)
         && (tc.Some? ==> TcAvailable(c, s, tc.value) && tc.value.timeout.epoch == p.block.epoch)
       case TimeOut(_, _, _, _) => true
       case VoteCommit(n, ordered, executed) =>
         && AllSigned(c, s, ordered.signers, ordered.ledgerInfo)
         && executed.consensusData == ordered.ledgerInfo.consensusData
         && executed.consensusData.proposed.epoch == s.nodes[n].data.epoch
       case ChangeEpoch(_, proof, _, _, _) =>
         proof.last.Some? && proof.last.value.nextEpochState.Some? ==>
           var next := proof.last.value.nextEpochState.value;
           next.verifier == c.verifiers(next.epoch)
       case Crash(_) => true
  }

  ghost function Apply(s: State, act: Action): State
    requires act.node in s.nodes
  {
    var n := s.nodes[act.node];
    match act
    case VoteOn(a, p, tc, now, storageOk) =>
      var (n', r) := SignVote(n, p, tc, now, storageOk);
      s.(nodes := s.nodes[a := n'],
         votes := if r.Ok? then s.votes + {(a, r.value.ledgerInfo)} else s.votes)
    case TimeOut(a, timeout, tc, storageOk) =>
      var (n', r) := SignTimeout(n, timeout, tc, storageOk);
      s.(nodes := s.nodes[a := n'],
         timeouts := if r.Ok? then s.timeouts + {(a, r.value)} else s.timeouts)
    case VoteCommit(a, ordered, executed) =>
      if SignCommitVote(n, ordered, executed).Ok? then s.(commitVotes := s.commitVotes + {(a, executed)}) else s
    case ChangeEpoch(a, proof, keyCurrent, keyFound, storageOk) =>
      s.(nodes := s.nodes[a := Initialize(n, proof, keyCurrent, keyFound, storageOk).0])
    case Crash(a) =>
      s.(nodes := s.nodes[a := Restart(n)])
  }

  ghost predicate Step(c: Config, s: State, s': State)
  {
    exists act :: Enabled(c, s, act) && s' == Apply(s, act)
  }

  /** A finite run from an initial state. */
  ghost predicate IsRun(c: Config, run: seq<State>)
  {
    && |run| > 0
    && Init(c, run[0])
    && (forall k :: 0 <= k < |run| - 1 ==> Step(c, run[k], run[k + 1]))
  }

  // ------------------------------------------------------ certified vote data

  /** `q` is a quorum whose honest members all cast their round vote for `vd`. */
  ghost predicate VoteQuorum(c: Config, s: State, vd: VoteData, q: set<Author>)
  {
    && IsQuorum(c.verifiers(vd.proposed.epoch), q)
    && (forall a :: a in q && a !in c.byzantine ==> (a, LedgerInfo(CommitOf(vd), vd)) in s.votes)
  }

  ghost predicate Certified(c: Config, s: State, vd: VoteData)
  {
    exists q :: VoteQuorum(c, s, vd, q)
  }

  ghost predicate ParentCertified(c: Config, s: State, vd: VoteData)
  {
    exists vp :: Certified(c, s, vp) && vp.proposed == vd.parent
  }

  /** A quorum timed out in the round before `vd`, nobody in it having signed above `vd`'s parent. */
  ghost predicate TimeoutQuorum(c: Config, s: State, vd: VoteData, q: map<Author, Round>)
  {
    && vd.proposed.round > 0
    && IsQuorum(c.verifiers(vd.proposed.epoch), q.Keys)
    && (forall a :: a in q ==>
          && q[a] <= vd.parent.round
          && TimeoutSigned(c, s, a, TimeoutSigning(vd.proposed.epoch, vd.proposed.round - 1, q[a])))
  }

  ghost predicate RoundSkipped(c: Config, s: State, vd: VoteData)
  {
    exists q :: TimeoutQuorum(c, s, vd, q)
  }

  /** The reasons an honest validator needs before voting for `vd`. */
  ghost predicate Justified(c: Config, s: State, vd: VoteData)
  {
    && (vd.parent.round > 0 ==> ParentCertified(c, s, vd))
    && (vd.parent.round + 1 == vd.proposed.round || RoundSkipped(c, s, vd))
  }

  // -------------------------------------------------------------- invariant

  ghost predicate NodeInv(c: Config, s: State, a: Author)
    requires a in s.nodes
  {
    var n := s.nodes[a];
    && n.author == a
    && (n.signer.Some? ==> n.signer.value == a)
    && (n.epochState.Some? ==> n.epochState.value == EpochState(n.data.epoch, c.verifiers(n.data.epoch)))
    && (n.data.lastVote.Some? ==>
          && (a, n.data.lastVote.value.ledgerInfo) in s.votes
          && n.data.lastVote.value.Epoch() == n.data.epoch
          && n.data.lastVote.value.ledgerInfo.consensusData == n.data.lastVote.value.voteData)
  }

  ghost predicate VoteInv(c: Config, s: State, a: Author, li: LedgerInfo)
  {
    var vd := li.consensusData;
    && a in s.nodes
    && li.commitInfo == CommitOf(vd)
    && vd.parent.epoch == vd.proposed.epoch && vd.parent.round < vd.proposed.round
    && c.links(vd.proposed.id) == BlockLink(vd.proposed.epoch, vd.proposed.round, vd.parent)
    && vd.proposed.epoch <= s.nodes[a].data.epoch
    && (vd.proposed.epoch == s.nodes[a].data.epoch ==>
          vd.proposed.round <= s.nodes[a].data.lastVotedRound && vd.parent.round <= s.nodes[a].data.oneChainRound)
    && Justified(c, s, vd)
  }

  ghost predicate TimeoutInv(s: State, a: Author, t: TimeoutSigning)
  {
    && a in s.nodes
    && t.epoch <= s.nodes[a].data.epoch
    && (t.epoch == s.nodes[a].data.epoch ==> t.round <= s.nodes[a].data.lastVotedRound)
  }

  /** After voting on top of round r, an honest validator's timeouts never attest less than r. */
  ghost predicate Locked(li: LedgerInfo, t: TimeoutSigning)
  {
    var vd := li.consensusData;
    t.epoch == vd.proposed.epoch && t.round >= vd.proposed.round ==> t.hqcRound >= vd.parent.round
  }

  ghost predicate SameRoundVote(l1: LedgerInfo, l2: LedgerInfo)
  {
    && l1.consensusData.proposed.epoch == l2.consensusData.proposed.epoch
    && l1.consensusData.proposed.round == l2.consensusData.proposed.round
  }

  ghost predicate SameBlock(b1: BlockInfo, b2: BlockInfo)
  {
    b1.epoch == b2.epoch && b1.round == b2.round && b1.id == b2.id
  }

  ghost predicate CommitInv(c: Config, s: State, li: LedgerInfo)
  {
    Certified(c, s, li.consensusData) && SameBlock(li.commitInfo, CommitOf(li.consensusData))
  }

  ghost predicate NodesInv(c: Config, s: State)
  {
    s.nodes.Keys !! c.byzantine && (forall a :: a in s.nodes ==> NodeInv(c, s, a))
  }

  ghost predicate VotesInv(c: Config, s: State)
  {
    forall a, li :: (a, li) in s.votes ==> VoteInv(c, s, a, li)
  }

  ghost predicate OneVotePerRound(s: State)
  {
    forall a, l1, l2 :: (a, l1) in s.votes && (a, l2) in s.votes && SameRoundVote(l1, l2) ==> l1 == l2
  }

  ghost predicate TimeoutsInv(s: State)
  {
    forall a, t :: (a, t) in s.timeouts ==> TimeoutInv(s, a, t)
  }

  ghost predicate LocksInv(s: State)
  {
    forall a, li, t :: (a, li) in s.votes && (a, t) in s.timeouts ==> Locked(li, t)
  }

  ghost predicate CommitsInv(c: Config, s: State)
  {
    forall a, li :: (a, li) in s.commitVotes ==> CommitInv(c, s, li)
  }

  ghost predicate Inv(c: Config, s: State)
  {
    && NodesInv(c, s)
    && VotesInv(c, s)
    && OneVotePerRound(s)
    && TimeoutsInv(s)
    && LocksInv(s)
    && CommitsInv(c, s)
  }

  // ---------------------------------------------------------- monotonicity

  ghost predicate Grows(s: State, s': State)
  {
    s.votes <= s'.votes && s.commitVotes <= s'.commitVotes && s.timeouts <= s'.timeouts
  }

  lemma CertifiedGrows(c: Config, s: State, s': State, vd: VoteData)
    requires Grows(s, s') && Certified(c, s, vd)
    ensures Certified(c, s', vd)
  {
    var q :| VoteQuorum(c, s, vd, q);
    assert VoteQuorum(c, s', vd, q);
  }

  lemma JustifiedGrows(c: Config, s: State, s': State, vd: VoteData)
    requires Grows(s, s') && Justified(c, s, vd)
    ensures Justified(c, s', vd)
  {
    if vd.parent.round > 0 {
      var vp :| Certified(c, s, vp) && vp.proposed == vd.parent;
      CertifiedGrows(c, s, s', vp);
    }
    if vd.parent.round + 1 != vd.proposed.round {
      var q :| TimeoutQuorum(c, s, vd, q);
      assert TimeoutQuorum(c, s', vd, q);
    }
  }

  lemma CommitsGrow(c: Config, s: State, s': State)
    requires Grows(s, s') && s'.commitVotes == s.commitVotes && CommitsInv(c, s)
    ensures CommitsInv(c, s')
  {
    forall a, li | (a, li) in s'.commitVotes
      ensures CommitInv(c, s', li)
    {
      assert CommitInv(c, s, li);
      CertifiedGrows(c, s, s', li.consensusData);
    }
  }

  // ------------------------------------------------------ from quorum to votes

  /** Whatever a quorum signed, be it as round votes or as commit votes, was certified by round votes. */
  lemma QuorumSignedIsCertified(c: Config, s: State, li: LedgerInfo, q: set<Author>)
    requires Inv(c, s) && IsQuorum(c.verifiers(li.consensusData.proposed.epoch), q) && AllSigned(c, s, q, li)
    ensures Certified(c, s, li.consensusData)
  {
    var vd := li.consensusData;
    if a :| a in q && a !in c.byzantine && (a, li) !in s.votes {
      assert Signed(c, s, a, li);
      assert CommitInv(c, s, li);
    } else {
      forall a | a in q && a !in c.byzantine
        ensures (a, LedgerInfo(CommitOf(vd), vd)) in s.votes
      {
        assert VoteInv(c, s, a, li);
      }
      assert VoteQuorum(c, s, vd, q);
    }
  }

  /** ... and the block it commits is the one its vote data determines. */
  lemma QuorumSignedCommits(c: Config, s: State, li: LedgerInfo, q: set<Author>)
    requires Inv(c, s) && ResilientConfig(c)
    requires IsQuorum(c.verifiers(li.consensusData.proposed.epoch), q) && AllSigned(c, s, q, li)
    ensures SameBlock(li.commitInfo, CommitOf(li.consensusData))
  {
    var v := c.verifiers(li.consensusData.proposed.epoch);
    assert Resilient(v, c.byzantine);
    var a := QuorumsShareHonest(v, c.byzantine, q, q);
    assert Signed(c, s, a, li);
    if (a, li) in s.votes {
      assert VoteInv(c, s, a, li);
    } else {
      assert CommitInv(c, s, li);
    }
  }
}
