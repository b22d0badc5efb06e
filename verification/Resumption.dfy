/** A restart never resumes below the persisted vote's round.

    One validator in one epoch: what its consensus database holds, the blocks in its in-memory tree, some of
    which may have been pruned from the database, and the highest round it has a certificate for.  Certificates are saved before they count, votes are cast in the
    round after the highest certificate, and committing prunes what does not descend from the new root. */
module Resumption {
  import opened Common
  import opened Quorum
  import opened ConsensusTypes
  import opened SafetyRulesModel
  import opened Network
  import opened NetworkInvariant
  import opened CommitSafety
  import opened BlockStoreModel
  import opened Replication
  import Recovery
  import RoundManagerModel
  import VotingNetwork

  /** `rootId` is the block the ledger committed last, or the first block of the epoch. */
  datatype Disk = Disk(tree: Tree, qcs: set<QuorumCert>, tc: Option<TimeoutCert>, vote: Option<Vote>, rootId: HashValue)

  datatype Node = Node(net: State, disk: Disk, memory: Tree, known: Round)

  datatype NodeAction =
    | NetworkStep(act: Action)
    | InsertBlock(block: Block)
    | InsertQc(qc: QuorumCert)
    | InsertTc(tc: TimeoutCert)
    | CastVote(vote: Vote)
    // Blocks and certificates saved ahead of a state synchronisation.
    | Download(tree: Tree, qcs: set<QuorumCert>)
    // Commit locally or by state synchronisation, and delete what has been pruned, if deletion succeeds.
    | MoveRoot(li: LedgerInfo, signers: set<Author>, tree: Tree, qcs: set<QuorumCert>, memory: Tree)
    | Restart(highest: Round)

  /** The epoch and its first block. */
  datatype Setting = Setting(epoch: Epoch, genesisId: HashValue)

  ghost predicate SubTree(small: Tree, large: Tree)
  {
    forall id :: id in small ==> id in large && large[id] == small[id]
  }

  /** Hanging off the root. */
  ghost predicate Linked(tree: Tree, id: HashValue, rootId: HashValue)
    requires WellLinked(tree) && rootId in tree
  {
    Path(tree, id, rootId, tree[rootId].round).Some?
  }

  /** A certificate that survives recovery: of the root or of a block hanging off it. */
  ghost predicate Counts(d: Disk, qc: QuorumCert)
    requires WellLinked(d.tree) && d.rootId in d.tree
  {
    qc in d.qcs && Linked(d.tree, qc.voteData.proposed.id, d.rootId)
  }

  /** `r` is the highest round of the certificates that survive recovery. */
  ghost predicate IsHighest(d: Disk, r: Round)
    requires WellLinked(d.tree) && d.rootId in d.tree
  {
    && TcRound(d.tc) <= r && (forall qc :: Counts(d, qc) ==> qc.Round() <= r)
    && (r == TcRound(d.tc) || exists qc :: Counts(d, qc) && qc.Round() == r)
  }

  /** Stored blocks are genuine, of the epoch, and only the first has round 0. */
  ghost predicate SoundTree(c: Config, g: Setting, tree: Tree)
  {
    && GenuineTree(c, tree)
    && (forall id :: id in tree ==> tree[id].epoch == g.epoch && (tree[id].round == 0 ==> id == g.genesisId))
  }

  /** Certificates are genuine ones of the epoch, and name the round of the block they certify. */
  ghost predicate SoundQcs(c: Config, g: Setting, net: State, tree: Tree, qcs: set<QuorumCert>)
  {
    forall qc :: qc in qcs ==>
      && (qc.voteData.proposed.id in tree ==> qc.Round() == tree[qc.voteData.proposed.id].round)
      && (qc.Round() > 0 ==> Certified(c, net, qc.voteData) && qc.voteData.proposed.epoch == g.epoch)
  }

  ghost predicate NodeStep(c: Config, g: Setting, n: Node, n': Node, action: NodeAction)
    requires WellLinked(n.disk.tree) && n.disk.rootId in n.disk.tree
  {
    var d := n.disk;
    match action
    case NetworkStep(act) => Enabled(c, n.net, act) && n' == n.(net := Apply(n.net, act))
    case InsertBlock(b) =>
      && b.ParentId() in n.memory && b.round > d.tree[d.rootId].round
      && (b.id in d.tree ==> d.tree[b.id] == b) && SoundTree(c, g, d.tree[b.id := b]) && SoundQcs(c, g, n.net, d.tree[b.id := b], d.qcs)
      && (b.id in n.memory ==> n.memory[b.id] == b) && SoundTree(c, g, n.memory[b.id := b])
      && n' == n.(disk := d.(tree := d.tree[b.id := b]), memory := n.memory[b.id := b])
    case InsertQc(qc) =>
      && qc.voteData.proposed.id in n.memory && SoundQcs(c, g, n.net, d.tree, d.qcs + {qc})
      && n' == n.(disk := d.(qcs := d.qcs + {qc}), known := Max(n.known, qc.Round()))
    case InsertTc(tc) =>
      && tc.timeout.epoch == g.epoch && tc.timeout.round > TcRound(d.tc)
      && n' == n.(disk := d.(tc := Some(tc)), known := Max(n.known, tc.timeout.round))
    case CastVote(vote) =>
      && vote.Epoch() == g.epoch && vote.Round() <= n.known + 1
      && n' == n.(disk := d.(vote := Some(vote)))
    case Download(tree, qcs) =>
      && SubTree(d.tree, tree) && d.qcs <= qcs && SoundTree(c, g, tree) && SoundQcs(c, g, n.net, tree, qcs)
      && n' == n.(disk := d.(tree := tree, qcs := qcs))
    case MoveRoot(li, signers, tree, qcs, memory) =>
      && ProofInEpoch(c, n.net, g.epoch, li, signers)
      && var id := li.commitInfo.id;
         && id in d.tree && d.tree[id].round > d.tree[d.rootId].round
         && SubTree(tree, d.tree) && WellLinked(tree) && id in tree && qcs <= d.qcs
         && (forall x :: x in d.tree && Linked(d.tree, x, id) ==> x in tree)
         && (forall qc :: qc in d.qcs && Linked(d.tree, qc.voteData.proposed.id, id) ==> qc in qcs)
         && (exists qc :: qc in qcs && qc.voteData.proposed.id == id)
         && SoundTree(c, g, memory) && id in memory && (forall x :: x in memory ==> x in n.memory || Linked(tree, x, id))
         && n' == n.(disk := d.(tree := tree, qcs := qcs, rootId := id), memory := memory)
    case Restart(highest) =>
      && IsHighest(d, highest)
      && n' == n.(memory := (map x | x in d.tree && Linked(d.tree, x, d.rootId) :: d.tree[x]), known := highest)
  }

  // ----------------------------------------------------------------- invariant

  ghost predicate Sound(c: Config, g: Setting, n: Node)
  {
    && Inv(c, n.net) && c.links(g.genesisId).round == 0
    && SoundTree(c, g, n.disk.tree) && SoundQcs(c, g, n.net, n.disk.tree, n.disk.qcs)
    && n.disk.rootId in n.disk.tree && RootProven(c, n.net, g.epoch, g.genesisId, n.disk.rootId)
    && (exists qc :: qc in n.disk.qcs && qc.voteData.proposed.id == n.disk.rootId)
    && (n.disk.tc.Some? ==> n.disk.tc.value.timeout.epoch == g.epoch)
    && (n.disk.vote.Some? ==> n.disk.vote.value.Epoch() == g.epoch)
  }

  /** A block in the in-memory tree that descends from the root by its ids does so through stored blocks. */
  ghost predicate MemoryLinked(c: Config, g: Setting, d: Disk, memory: Tree)
    requires WellLinked(d.tree) && d.rootId in d.tree
  {
    && SoundTree(c, g, memory)
    && forall x :: x in memory && (d.rootId == g.genesisId || d.rootId in Ancestors(c, x)) ==> Linked(d.tree, x, d.rootId)
  }

  /** The rounds the validator has moved through are covered by what recovery will find. */
  ghost predicate Covered(d: Disk, known: Round)
    requires WellLinked(d.tree) && d.rootId in d.tree
  {
    || known <= TcRound(d.tc)
    || known <= d.tree[d.rootId].round
    || exists qc :: Counts(d, qc) && known <= qc.Round()
  }

  ghost predicate NodeInv(c: Config, g: Setting, n: Node)
  {
    && Sound(c, g, n)
    && MemoryLinked(c, g, n.disk, n.memory)
    && Covered(n.disk, n.known)
    && (n.disk.vote.Some? ==> n.disk.vote.value.Round() <= n.known + 1)
  }

  // ------------------------------------------------------ paths and ancestors

  lemma {:induction false} PathGrows(small: Tree, large: Tree, x: HashValue, rootId: HashValue, r: Round)
    requires WellLinked(small) && WellLinked(large) && SubTree(small, large) && Path(small, x, rootId, r).Some?
    ensures Path(large, x, rootId, r).Some?
    decreases if x in small then small[x].round + 1 else 0
  {
    if small[x].round > r {
      PathGrows(small, large, small[x].ParentId(), rootId, r);
    }
  }

  /** Ids earlier on the way to a block are of earlier rounds. */
  lemma {:induction false} AncestorsEarlier(c: Config, x: HashValue, y: HashValue)
    requires y in Ancestors(c, x) && y != x
    ensures c.links(y).round < c.links(x).round
    decreases c.links(x).round
  {
    var parent := c.links(x).parent.id;
    if y != parent {
      AncestorsEarlier(c, parent, y);
    }
  }

  lemma StoredParent(c: Config, tree: Tree, x: HashValue)
    requires GenuineTree(c, tree) && x in tree && tree[x].ParentId() in tree && tree[x].round > 0
    ensures Ancestors(c, x) == Ancestors(c, tree[x].ParentId()) + [x]
    ensures c.links(x).round == tree[x].round && c.links(tree[x].ParentId()).round == tree[tree[x].ParentId()].round
  {
    assert Genuine(c, tree[x]) && Genuine(c, tree[tree[x].ParentId()]);
  }

  /** A walk to a lower root that passes the id of a higher one stops there. */
  lemma {:induction false} PathThrough(c: Config, tree: Tree, x: HashValue, rootId: HashValue, r: Round, id: HashValue)
    requires GenuineTree(c, tree) && Path(tree, x, rootId, r).Some? && id in tree && r < tree[id].round
    requires id in Ancestors(c, x)
    ensures Linked(tree, x, id)
    decreases if x in tree then tree[x].round + 1 else 0
  {
    assert Genuine(c, tree[id]) && Genuine(c, tree[x]);
    if x != id {
      AncestorsEarlier(c, x, id);
      StoredParent(c, tree, x);
      PathThrough(c, tree, tree[x].ParentId(), rootId, r, id);
    }
  }

  /** A tree that keeps everything linked to `id` keeps the links. */
  lemma {:induction false} PathKept(large: Tree, small: Tree, x: HashValue, id: HashValue)
    requires WellLinked(large) && WellLinked(small) && SubTree(small, large) && id in small && id in large
    requires forall y :: y in large && Linked(large, y, id) ==> y in small
    requires Linked(large, x, id)
    ensures Linked(small, x, id)
    decreases if x in large then large[x].round + 1 else 0
  {
    assert x in large && x in small;
    if large[x].round > large[id].round {
      PathKept(large, small, large[x].ParentId(), id);
    }
  }

  // ------------------------------------------------------------------- steps

  /** Safety: a certified block above the root descends from it. */
  lemma CertifiedDescends(c: Config, g: Setting, net: State, root: HashValue, vd: VoteData)
    requires Inv(c, net) && ResilientConfig(c) && RootProven(c, net, g.epoch, g.genesisId, root) && root != g.genesisId
    requires Certified(c, net, vd) && vd.proposed.epoch == g.epoch && vd.proposed.round >= c.links(root).round
    ensures root in Ancestors(c, vd.proposed.id)
  {
    var li, q :| ProofInEpoch(c, net, g.epoch, li, q) && li.commitInfo.id == root;
    var vp := CommitProofCommits(c, net, li, q);
    CertifiedJustified(c, net, vp);
    CertifiedExtendsCommit(c, net, li.consensusData, vd);
    var path :| Chain(c, net, li.consensusData.parent, vd.proposed, path);
    ChainAncestors(c, net, li.consensusData.parent, vd.proposed, path);
    assert Ancestors(c, root)[|Ancestors(c, root)| - 1] == root;
  }

  /** So a certificate of a block in the in-memory tree either counts or is not above the root. */
  lemma InMemoryCounts(c: Config, g: Setting, n: Node, qc: QuorumCert)
    requires ResilientConfig(c) && Sound(c, g, n) && MemoryLinked(c, g, n.disk, n.memory)
    requires qc in n.disk.qcs && qc.voteData.proposed.id in n.memory
    ensures qc.Round() <= n.disk.tree[n.disk.rootId].round || Counts(n.disk, qc)
  {
    var d := n.disk;
    if qc.Round() > d.tree[d.rootId].round && d.rootId != g.genesisId {
      assert Genuine(c, d.tree[d.rootId]);
      CertifiedDescends(c, g, n.net, d.rootId, qc.voteData);
    }
  }

  lemma CountsGrows(d: Disk, d': Disk, qc: QuorumCert)
    requires WellLinked(d.tree) && WellLinked(d'.tree) && SubTree(d.tree, d'.tree) && d.qcs <= d'.qcs
    requires d.rootId == d'.rootId && d.rootId in d.tree && Counts(d, qc)
    ensures Counts(d', qc)
  {
    PathGrows(d.tree, d'.tree, qc.voteData.proposed.id, d.rootId, d.tree[d.rootId].round);
  }

  lemma CoveredGrows(d: Disk, d': Disk, known: Round)
    requires WellLinked(d.tree) && WellLinked(d'.tree) && SubTree(d.tree, d'.tree) && d.qcs <= d'.qcs
    requires d.rootId == d'.rootId && d.rootId in d.tree && Covered(d, known) && TcRound(d.tc) <= TcRound(d'.tc)
    ensures Covered(d', known)
  {
    if !(known <= TcRound(d.tc) || known <= d.tree[d.rootId].round) {
      var qc :| Counts(d, qc) && known <= qc.Round();
      CountsGrows(d, d', qc);
    }
  }

  lemma MemoryGrows(c: Config, g: Setting, d: Disk, d': Disk, memory: Tree)
    requires WellLinked(d.tree) && WellLinked(d'.tree) && SubTree(d.tree, d'.tree)
    requires d.rootId == d'.rootId && d.rootId in d.tree && MemoryLinked(c, g, d, memory)
    ensures MemoryLinked(c, g, d', memory)
  {
    forall x | x in memory && (d.rootId == g.genesisId || d.rootId in Ancestors(c, x))
      ensures Linked(d'.tree, x, d.rootId)
    {
      PathGrows(d.tree, d'.tree, x, d.rootId, d.tree[d.rootId].round);
    }
  }

  lemma NetworkKeepsInv(c: Config, g: Setting, n: Node, act: Action)
    requires ResilientConfig(c) && NodeInv(c, g, n) && Enabled(c, n.net, act)
    ensures NodeInv(c, g, n.(net := Apply(n.net, act)))
  {
    var net' := Apply(n.net, act);
    StepKeepsInv(c, n.net, act);
    StepGrows(c, n.net, act);
    RootProvenGrows(c, n.net, net', g.epoch, g.genesisId, n.disk.rootId);
    forall qc | qc in n.disk.qcs && qc.Round() > 0
      ensures Certified(c, net', qc.voteData)
    {
      CertifiedGrows(c, n.net, net', qc.voteData);
    }
  }

  /** A block inserted under a block of the in-memory tree. */
  lemma InsertedLinked(c: Config, g: Setting, tree: Tree, memory: Tree, b: Block, rootId: HashValue)
    requires SoundTree(c, g, tree) && b.id in tree && tree[b.id] == b && rootId in tree && b.round > tree[rootId].round
    requires SoundTree(c, g, memory) && b.id in memory && memory[b.id] == b && b.ParentId() in memory
    requires rootId == g.genesisId || rootId in Ancestors(c, b.ParentId()) ==> Linked(tree, b.ParentId(), rootId)
    requires rootId == g.genesisId || rootId in Ancestors(c, b.id)
    ensures Linked(tree, b.id, rootId)
  {
    StoredParent(c, memory, b.id);
    assert rootId != b.id;
  }

  lemma InsertBlockKeepsInv(c: Config, g: Setting, n: Node, n': Node, b: Block)
    requires ResilientConfig(c) && NodeInv(c, g, n) && NodeStep(c, g, n, n', InsertBlock(b))
    ensures NodeInv(c, g, n')
  {
    var d, d' := n.disk, n'.disk;
    CoveredGrows(d, d', n.known);
    MemoryGrows(c, g, d, d', n.memory);
    if d.rootId == g.genesisId || d.rootId in Ancestors(c, b.id) {
      InsertedLinked(c, g, d'.tree, n'.memory, b, d.rootId);
    }
  }

  lemma InsertQcKeepsInv(c: Config, g: Setting, n: Node, n': Node, qc: QuorumCert)
    requires ResilientConfig(c) && NodeInv(c, g, n) && NodeStep(c, g, n, n', InsertQc(qc))
    ensures NodeInv(c, g, n')
  {
    CoveredGrows(n.disk, n'.disk, n.known);
    MemoryGrows(c, g, n.disk, n'.disk, n.memory);
    InMemoryCounts(c, g, n', qc);
  }

  lemma RestartKeepsInv(c: Config, g: Setting, n: Node, n': Node, highest: Round)
    requires NodeInv(c, g, n) && NodeStep(c, g, n, n', Restart(highest))
    ensures NodeInv(c, g, n') && n.known <= highest
  {
    var d := n.disk;
    var qc :| qc in d.qcs && qc.voteData.proposed.id == d.rootId;
    assert Counts(d, qc) && qc.Round() == d.tree[d.rootId].round;
  }

  lemma {:induction false} AncestorsTransitive(c: Config, x: HashValue, id: HashValue, y: HashValue)
    requires id in Ancestors(c, x) && y in Ancestors(c, id)
    ensures y in Ancestors(c, x)
    decreases c.links(x).round
  {
    if id != x {
      AncestorsTransitive(c, c.links(x).parent.id, id, y);
    }
  }

  lemma NewRootDescends(c: Config, g: Setting, n: Node, li: LedgerInfo, q: set<Author>)
    requires ResilientConfig(c) && Sound(c, g, n) && ProofInEpoch(c, n.net, g.epoch, li, q)
    requires li.commitInfo.id in n.disk.tree && n.disk.tree[li.commitInfo.id].round > n.disk.tree[n.disk.rootId].round
    requires n.disk.rootId != g.genesisId
    ensures n.disk.rootId in Ancestors(c, li.commitInfo.id)
  {
    var d := n.disk;
    assert Genuine(c, d.tree[d.rootId]) && Genuine(c, d.tree[li.commitInfo.id]);
    var vp := CommitProofCommits(c, n.net, li, q);
    CertifiedJustified(c, n.net, vp);
    CertifiedDescends(c, g, n.net, d.rootId, vp);
  }

  /** What descends from the new root and was linked to the old one is linked to the new one, and kept. */
  lemma MovedLinked(c: Config, g: Setting, d: Disk, tree: Tree, id: HashValue, x: HashValue)
    requires SoundTree(c, g, d.tree) && d.rootId in d.tree && id in d.tree && d.tree[id].round > d.tree[d.rootId].round
    requires SubTree(tree, d.tree) && WellLinked(tree) && id in tree
    requires forall y :: y in d.tree && Linked(d.tree, y, id) ==> y in tree
    requires Linked(d.tree, x, d.rootId) && id in Ancestors(c, x)
    ensures Linked(d.tree, x, id) && Linked(tree, x, id)
  {
    PathThrough(c, d.tree, x, d.rootId, d.tree[d.rootId].round, id);
    PathKept(d.tree, tree, x, id);
  }

  lemma MovedMemory(c: Config, g: Setting, n: Node, n': Node, action: NodeAction)
    requires ResilientConfig(c) && NodeInv(c, g, n) && NodeStep(c, g, n, n', action) && action.MoveRoot?
    ensures MemoryLinked(c, g, n'.disk, n'.memory)
  {
    var d, id := n.disk, action.li.commitInfo.id;
    forall x | x in n'.memory && (id == g.genesisId || id in Ancestors(c, x))
      ensures Linked(n'.disk.tree, x, id)
    {
      assert Genuine(c, d.tree[id]);
      if id in Ancestors(c, x) && !Linked(action.tree, x, id) {
        if d.rootId != g.genesisId {
          NewRootDescends(c, g, n, action.li, action.signers);
          AncestorsTransitive(c, x, id, d.rootId);
        }
        MovedLinked(c, g, d, action.tree, id, x);
      }
    }
  }

  lemma MovedCovered(c: Config, g: Setting, n: Node, n': Node, action: NodeAction)
    requires ResilientConfig(c) && NodeInv(c, g, n) && NodeStep(c, g, n, n', action) && action.MoveRoot?
    ensures Covered(n'.disk, n.known)
  {
    var d, id := n.disk, action.li.commitInfo.id;
    if !(n.known <= TcRound(d.tc) || n.known <= d.tree[id].round) {
      var qc :| Counts(d, qc) && n.known <= qc.Round();
      assert Genuine(c, d.tree[id]) && RootProven(c, n.net, g.epoch, g.genesisId, id);
      CertifiedDescends(c, g, n.net, id, qc.voteData);
      MovedLinked(c, g, d, action.tree, id, qc.voteData.proposed.id);
      assert Counts(n'.disk, qc);
    }
  }

  lemma MovedSound(c: Config, g: Setting, n: Node, n': Node, action: NodeAction)
    requires ResilientConfig(c) && NodeInv(c, g, n) && NodeStep(c, g, n, n', action) && action.MoveRoot?
    ensures Sound(c, g, n')
  {
    assert RootProven(c, n.net, g.epoch, g.genesisId, action.li.commitInfo.id);
  }

  lemma NodeStepKeepsInv(c: Config, g: Setting, n: Node, n': Node, action: NodeAction)
    requires ResilientConfig(c) && NodeInv(c, g, n) && NodeStep(c, g, n, n', action)
    ensures NodeInv(c, g, n')
  {
    match action
    case NetworkStep(act) => NetworkKeepsInv(c, g, n, act);
    case InsertBlock(b) => InsertBlockKeepsInv(c, g, n, n', b);
    case InsertQc(qc) => InsertQcKeepsInv(c, g, n, n', qc);
    case InsertTc(tc) => CertificateKeepsInv(c, g, n, n', action);
    case CastVote(_) =>
    case Download(_, _) => CertificateKeepsInv(c, g, n, n', action);
    case MoveRoot(_, _, _, _, _) =>
      MovedMemory(c, g, n, n', action);
      MovedCovered(c, g, n, n', action);
      MovedSound(c, g, n, n', action);
    case Restart(highest) => RestartKeepsInv(c, g, n, n', highest);
  }

  lemma CertificateKeepsInv(c: Config, g: Setting, n: Node, n': Node, action: NodeAction)
    requires NodeInv(c, g, n) && NodeStep(c, g, n, n', action) && (action.InsertTc? || action.Download?)
    ensures NodeInv(c, g, n')
  {
    CoveredGrows(n.disk, n'.disk, n.known);
    MemoryGrows(c, g, n.disk, n'.disk, n.memory);
  }

  /** The epoch begins with its first block, in whatever state the network has reached. */
  ghost predicate NodeInit(c: Config, g: Setting, n: Node)
  {
    && Inv(c, n.net) && c.links(g.genesisId).round == 0
    && n.disk.tree.Keys == {g.genesisId} && SoundTree(c, g, n.disk.tree) && n.disk.rootId == g.genesisId
    && (exists qc :: n.disk.qcs == {qc} && qc.voteData.proposed.id == g.genesisId && qc.Round() == 0)
    && n.disk.tc == None && n.disk.vote == None && n.memory == n.disk.tree && n.known == 0
  }

  ghost predicate Next(c: Config, g: Setting, n: Node, n': Node)
  {
    && WellLinked(n.disk.tree) && n.disk.rootId in n.disk.tree
    && exists action :: NodeStep(c, g, n, n', action)
  }

  /** Some run of the validator leads to `run`'s last state. */
  ghost predicate IsNodeRun(c: Config, g: Setting, run: seq<Node>)
  {
    && run != []
    && if |run| == 1 then NodeInit(c, g, run[0])
       else IsNodeRun(c, g, run[..|run| - 1]) && Next(c, g, run[|run| - 2], run[|run| - 1])
  }

  lemma InitKeepsInv(c: Config, g: Setting, n: Node)
    requires NodeInit(c, g, n)
    ensures NodeInv(c, g, n)
  {
    assert Genuine(c, n.disk.tree[g.genesisId]);
  }

  lemma NextKeepsInv(c: Config, g: Setting, n: Node, n': Node)
    requires ResilientConfig(c) && NodeInv(c, g, n) && Next(c, g, n, n')
    ensures NodeInv(c, g, n')
  {
    var action :| NodeStep(c, g, n, n', action);
    NodeStepKeepsInv(c, g, n, n', action);
  }

  lemma {:induction false} NodeRunKeepsInv(c: Config, g: Setting, run: seq<Node>)
    requires ResilientConfig(c) && IsNodeRun(c, g, run)
    ensures NodeInv(c, g, run[|run| - 1])
  {
    if |run| == 1 {
      InitKeepsInv(c, g, run[0]);
    } else {
      NodeRunKeepsInv(c, g, run[..|run| - 1]);
      NextKeepsInv(c, g, run[|run| - 2], run[|run| - 1]);
    }
  }

  // ------------------------------------------------------------------ recovery

  /** The highest certified round among what recovery hands to the new block tree. */
  function HighestRound(qcs: seq<QuorumCert>): Round
  {
    if qcs == [] then 0 else Max(HighestRound(qcs[..|qcs| - 1]), qcs[|qcs| - 1].Round())
  }

  /** The round a restarted validator begins in: the one after its highest certificate. */
  function ResumeRound(d: Recovery.RecoveryData): Round
  {
    Max(HighestRound([d.root.quorumCert] + d.quorumCerts), TcRound(d.highestTimeoutCert)) + 1
  }

  lemma {:induction false} HighestRoundBounds(qcs: seq<QuorumCert>, qc: QuorumCert)
    requires qc in qcs
    ensures qc.Round() <= HighestRound(qcs)
  {
    if qc != qcs[|qcs| - 1] {
      HighestRoundBounds(qcs[..|qcs| - 1], qc);
    }
  }

  lemma {:induction false} HighestRoundAttained(qcs: seq<QuorumCert>) returns (qc: QuorumCert)
    requires qcs != []
    ensures qc in qcs && qc.Round() == HighestRound(qcs)
  {
    var last := qcs[|qcs| - 1];
    qc := last;
    if |qcs| > 1 && HighestRound(qcs[..|qcs| - 1]) > last.Round() {
      qc := HighestRoundAttained(qcs[..|qcs| - 1]);
    }
  }

  /** Recovery resumes in the round right after a certificate it has, and has none of a later round. */
  lemma ResumesAfterHighest(d: Recovery.RecoveryData)
    ensures (exists qc :: (qc == d.root.quorumCert || qc in d.quorumCerts) && qc.voteData.proposed.round + 1 == ResumeRound(d))
         || (d.highestTimeoutCert.Some? && d.highestTimeoutCert.value.timeout.round + 1 == ResumeRound(d))
    ensures forall qc :: qc == d.root.quorumCert || qc in d.quorumCerts ==> qc.voteData.proposed.round < ResumeRound(d)
    ensures d.highestTimeoutCert.Some? ==> d.highestTimeoutCert.value.timeout.round < ResumeRound(d)
  {
    var found := [d.root.quorumCert] + d.quorumCerts;
    var highest := HighestRoundAttained(found);
    assert highest == d.root.quorumCert || highest in d.quorumCerts;
    forall qc | qc == d.root.quorumCert || qc in d.quorumCerts
      ensures qc.voteData.proposed.round < ResumeRound(d)
    {
      assert qc in found;
      HighestRoundBounds(found, qc);
    }
  }

  /** `all` and `certs` list what the disk holds, the virtual first block of the epoch included. */
  ghost predicate Lists(disk: Disk, all: seq<Block>, certs: seq<QuorumCert>)
  {
    && (forall b :: b in all <==> b.id in disk.tree && disk.tree[b.id] == b)
    && (forall qc :: qc in certs <==> qc in disk.qcs)
  }

  /** What `Recovery.Recover` promises of its result. */
  ghost predicate RecoveredDisk(disk: Disk, d: Recovery.RecoveryData, rest: seq<Block>, all: seq<Block>, certs: seq<QuorumCert>)
  {
    && Lists(disk, all, certs) && Recovery.RecoveredFrom(d, rest, all, certs)
    && d.root.block.id == disk.rootId && d.root.quorumCert in certs && d.root.quorumCert.voteData.proposed.id == disk.rootId
    && (d.lastVote.Some? ==> d.lastVote == disk.vote)
    && (disk.tc.Some? && disk.tc.value.timeout.epoch == d.root.block.epoch ==> d.highestTimeoutCert == disk.tc)
  }

  lemma StoredParentsEarlier(c: Config, g: Setting, disk: Disk, all: seq<Block>, certs: seq<QuorumCert>)
    requires SoundTree(c, g, disk.tree) && Lists(disk, all, certs)
    ensures Recovery.ParentsEarlier(all)
  {
    forall a, b | a in all && b in all && b.ParentId() == a.id
      ensures Recovery.KeyLt(a, b)
    {
      assert disk.tree[a.id] == a && disk.tree[b.id] == b;
    }
  }

  /** A path in the tree is a descent through the stored blocks. */
  lemma {:induction false} PathIsDescent(tree: Tree, rest: seq<Block>, id: HashValue, rootId: HashValue) returns (path: seq<Block>)
    requires WellLinked(tree) && rootId in tree && Linked(tree, id, rootId) && tree[id].round > tree[rootId].round
    requires forall b: Block :: b.id in tree && tree[b.id] == b && b.id != rootId ==> b in rest
    ensures Recovery.IsDescent(rest, rootId, path) && path[|path| - 1] == tree[id]
    decreases tree[id].round
  {
    var parent := tree[id].ParentId();
    assert Path(tree, parent, rootId, tree[rootId].round).Some?;
    assert tree[id] in rest;
    if tree[parent].round <= tree[rootId].round {
      path := [tree[id]];
    } else {
      var below := PathIsDescent(tree, rest, parent, rootId);
      path := below + [tree[id]];
      assert forall k :: 0 <= k < |below| ==> path[k] == below[k];
    }
  }

  lemma RestHolds(rest: seq<Block>, root: Block, all: seq<Block>, b: Block)
    requires multiset(rest) + multiset{root} == multiset(all) && b in all && b != root
    ensures b in rest
  {
    assert b in multiset(all);
  }

  /** A certificate that counts is handed to the new block tree. */
  lemma CountedIsRecovered(c: Config, g: Setting, disk: Disk, d: Recovery.RecoveryData, rest: seq<Block>, all: seq<Block>,
                           certs: seq<QuorumCert>, qc: QuorumCert)
    requires SoundTree(c, g, disk.tree) && disk.rootId in disk.tree && Counts(disk, qc)
    requires RecoveredDisk(disk, d, rest, all, certs)
    ensures qc in d.quorumCerts
  {
    var id := qc.voteData.proposed.id;
    if id != disk.rootId {
      assert disk.tree[id].round > disk.tree[disk.rootId].round;
      assert d.root.block in multiset(all);
      forall b: Block | b.id in disk.tree && disk.tree[b.id] == b && b.id != disk.rootId
        ensures b in rest
      {
        RestHolds(rest, d.root.block, all, b);
      }
      var path := PathIsDescent(disk.tree, rest, id, disk.rootId);
      StoredParentsEarlier(c, g, disk, all, certs);
      assert Recovery.Descendant(rest, disk.rootId, disk.tree[id]);
      assert disk.tree[id] in d.blocks && disk.tree[id].id == Recovery.Names(qc, false);
    }
  }

  /** In every run of a validator, with any crashes before, recovering from its disk resumes at a round no lower
      than the persisted vote's: exactly what the round manager needs never to contradict itself. */
  lemma RecoveryResumesAtPersisted(c: Config, g: Setting, run: seq<Node>, d: Recovery.RecoveryData, rest: seq<Block>,
                                   all: seq<Block>, certs: seq<QuorumCert>)
    requires ResilientConfig(c) && IsNodeRun(c, g, run)
    requires RecoveredDisk(run[|run| - 1].disk, d, rest, all, certs)
    ensures RoundManagerModel.AtPersisted(d.lastVote, ResumeRound(d))
  {
    NodeRunKeepsInv(c, g, run);
    var n := run[|run| - 1];
    KnownBelowResume(c, g, n, d, rest, all, certs);
  }

  /** So the restart is one the voting network admits, and its certificates stay unique. */
  lemma RecoveredRestartEnabled(c: Config, g: Setting, run: seq<Node>, d: Recovery.RecoveryData, rest: seq<Block>,
                                all: seq<Block>, certs: seq<QuorumCert>, v: VotingNetwork.Config, s: VotingNetwork.Net, node: Author)
    requires ResilientConfig(c) && IsNodeRun(c, g, run)
    requires RecoveredDisk(run[|run| - 1].disk, d, rest, all, certs)
    requires VotingNetwork.Inv(v, s) && node in s.managers && node !in v.byzantine && s.managers[node].lastVote == d.lastVote
    ensures VotingNetwork.Enabled(v, s, VotingNetwork.Process(node, RoundManagerModel.Resume(ResumeRound(d))))
  {
    RecoveryResumesAtPersisted(c, g, run, d, rest, all, certs);
    VotingNetwork.RestartEnabled(v, s, node, ResumeRound(d));
  }

  lemma KnownBelowResume(c: Config, g: Setting, n: Node, d: Recovery.RecoveryData, rest: seq<Block>, all: seq<Block>,
                         certs: seq<QuorumCert>)
    requires NodeInv(c, g, n) && RecoveredDisk(n.disk, d, rest, all, certs)
    ensures n.known + 1 <= ResumeRound(d)
  {
    var disk := n.disk;
    var found := [d.root.quorumCert] + d.quorumCerts;
    HighestRoundBounds(found, d.root.quorumCert);
    RestRoot(rest, d.root.block, all);
    if !(n.known <= TcRound(disk.tc) || n.known <= disk.tree[disk.rootId].round) {
      var qc :| Counts(disk, qc) && n.known <= qc.Round();
      CountedIsRecovered(c, g, disk, d, rest, all, certs, qc);
      HighestRoundBounds(found, qc);
    }
  }

  lemma RestRoot(rest: seq<Block>, root: Block, all: seq<Block>)
    requires multiset(rest) + multiset{root} == multiset(all)
    ensures root in all
  {
    assert root in multiset(all);
  }

  /** Insert certificates one by one, keeping the highest. */
  method InsertCertificates(qcs: seq<QuorumCert>) returns (highest: Round)
    ensures highest == HighestRound(qcs)
  {
    highest := 0;
    for i := 0 to |qcs|
      invariant highest == HighestRound(qcs[..i])
    {
      assert qcs[..i + 1][..i] == qcs[..i];
      if qcs[i].Round() > highest {
        highest := qcs[i].Round();
      }
    }
    assert qcs[..|qcs|] == qcs;
  }

  /** Restart from the database: recover, insert the certificates, and begin in the round after the highest.
      The persisted vote is never of a later round. */
  method RestartFrom(ghost c: Config, ghost g: Setting, ghost run: seq<Node>, lastVote: Option<Vote>,
                     ledger: Recovery.StorageLedger, genesisId: HashValue, blocks: seq<Block>, qcs: seq<QuorumCert>,
                     highestTc: Option<TimeoutCert>) returns (r: Recovery.RecoveryResult, round: Round)
    requires ResilientConfig(c) && IsNodeRun(c, g, run)
    requires var disk := run[|run| - 1].disk;
             && Lists(disk, Recovery.AllBlocks(ledger, genesisId, blocks), Recovery.AllQcs(ledger, genesisId, qcs))
             && disk.rootId == Recovery.RootId(ledger, genesisId) && disk.vote == lastVote && disk.tc == highestTc
    ensures r.Recovered? <==> Recovery.RootAvailable(ledger, genesisId, blocks, qcs)
    ensures r.Recovered? ==> round == ResumeRound(r.data) && RoundManagerModel.AtPersisted(r.data.lastVote, round)
  {
    ghost var disk := run[|run| - 1].disk;
    r := Recovery.Recover(lastVote, ledger, genesisId, blocks, qcs, highestTc);
    round := 0;
    if r.Recovered? {
      var d := r.data;
      ghost var all := Recovery.AllBlocks(ledger, genesisId, blocks);
      ghost var certs := Recovery.AllQcs(ledger, genesisId, qcs);
      ghost var rest :| Recovery.RecoveredFrom(d, rest, all, certs);
      assert RoundManagerModel.AtPersisted(d.lastVote, ResumeRound(d)) by {
        assert RecoveredDisk(disk, d, rest, all, certs);
        RecoveryResumesAtPersisted(c, g, run, d, rest, all, certs);
      }
      var highest := InsertCertificates([d.root.quorumCert] + d.quorumCerts);
      round := Max(highest, TcRound(d.highestTimeoutCert)) + 1;
    }
  }
}
