/** Crash recovery: find the last committed block among what consensus storage holds, and prune
    everything that does not descend from it in one pass over the sorted blocks. */
module Recovery {
  import opened Common
  import opened Quorum
  import opened ConsensusTypes
  import opened Sorting

  datatype RootInfo = RootInfo(block: Block, quorumCert: QuorumCert, orderedCert: QuorumCert, commitCert: QuorumCert)

  /** `InconsistentCommitProof` is the failed expectation that the stored proof matches the root. */
  datatype RootError = RootNotFound | NoQcForRoot | NoLedgerInfoForRoot | InconsistentCommitProof

  datatype RootResult = Found(root: RootInfo) | Failed(error: RootError)

  datatype StorageLedger = StorageLedger(ledgerInfo: LedgerInfo, signers: set<Author>)

  // ------------------------------------------------------------------ sorting

  predicate KeyLe(a: Block, b: Block)
  {
    a.epoch < b.epoch || (a.epoch == b.epoch && a.round <= b.round)
  }

  predicate KeyLt(a: Block, b: Block)
  {
    a.epoch < b.epoch || (a.epoch == b.epoch && a.round < b.round)
  }

  predicate InOrder(blocks: seq<Block>)
  {
    Sorted(blocks, KeyLe)
  }

  function SortByKey(blocks: seq<Block>): (r: seq<Block>)
    ensures multiset(r) == multiset(blocks) && InOrder(r)
  {
    Sort(blocks, KeyLe)
  }

  // ---------------------------------------------------------------- find root

  /** The first block of the epoch after `li`, whose hash is `id`; its own parent id is the zero hash. */
  function GenesisBlock(li: LedgerInfo, id: HashValue): Block
  {
    var c := li.commitInfo;
    var ancestor := BlockInfo(c.epoch, 0, 0, c.executedStateId, c.version, c.timestamp, None);
    var zero := VoteData(EMPTY_BLOCK_INFO, EMPTY_BLOCK_INFO);
    Block(id, c.epoch + 1, 0, c.timestamp, Genesis, true,
          QuorumCert(VoteData(ancestor, ancestor), LedgerInfo(ancestor, zero), {}))
  }

  function GenesisQc(li: LedgerInfo, id: HashValue): QuorumCert
  {
    var c := li.commitInfo;
    var ancestor := BlockInfo(c.epoch + 1, 0, id, c.executedStateId, c.version, c.timestamp, None);
    QuorumCert(VoteData(ancestor, ancestor), LedgerInfo(ancestor, VoteData(ancestor, ancestor)), {})
  }

  function RootId(ledger: StorageLedger, genesisId: HashValue): HashValue
  {
    if ledger.ledgerInfo.commitInfo.nextEpoch.Some? then genesisId else ledger.ledgerInfo.commitInfo.id
  }

  /** The proof of the last commit: the stored one, or the virtual genesis's at an epoch boundary. */
  function LatestCommit(ledger: StorageLedger, genesisId: HashValue): StorageLedger
  {
    if ledger.ledgerInfo.commitInfo.nextEpoch.Some?
    then StorageLedger(GenesisQc(ledger.ledgerInfo, genesisId).ledgerInfo, {})
    else ledger
  }

  /** Storage contents, with the virtual genesis block added at an epoch boundary. */
  function AllBlocks(ledger: StorageLedger, genesisId: HashValue, blocks: seq<Block>): seq<Block>
  {
    if ledger.ledgerInfo.commitInfo.nextEpoch.Some? then blocks + [GenesisBlock(ledger.ledgerInfo, genesisId)] else blocks
  }

  function AllQcs(ledger: StorageLedger, genesisId: HashValue, qcs: seq<QuorumCert>): seq<QuorumCert>
  {
    if ledger.ledgerInfo.commitInfo.nextEpoch.Some? then qcs + [GenesisQc(ledger.ledgerInfo, genesisId)] else qcs
  }

  // -------------------------------------------- which root there is, field by field

  /** The first stored certificate for the block. */
  ghost predicate FirstCertifying(certs: seq<QuorumCert>, id: HashValue, i: int)
  {
    && 0 <= i < |certs| && certs[i].voteData.proposed.id == id
    && forall j :: 0 <= j < i ==> certs[j].voteData.proposed.id != id
  }

  /** The first stored certificate that commits the block. */
  ghost predicate FirstCommitting(certs: seq<QuorumCert>, id: HashValue, i: int)
  {
    && 0 <= i < |certs| && certs[i].ledgerInfo.commitInfo.id == id
    && forall j :: 0 <= j < i ==> certs[j].ledgerInfo.commitInfo.id != id
  }

  /** The block a certificate orders is the one the stored proof commits; a reconfiguration may have moved its time. */
  ghost predicate Agrees(ordered: BlockInfo, committed: BlockInfo)
  {
    && ordered.epoch == committed.epoch && ordered.round == committed.round && ordered.id == committed.id
    && (|| ordered.timestamp == committed.timestamp
        || (committed.nextEpoch.Some? && committed.timestamp < ordered.timestamp))
  }

  ghost predicate Proved(certs: seq<QuorumCert>, id: HashValue, latest: StorageLedger, i: int, j: int)
  {
    && FirstCertifying(certs, id, i) && FirstCommitting(certs, id, j)
    && Agrees(certs[j].ledgerInfo.commitInfo, latest.ledgerInfo.commitInfo)
  }

  /** The one right result for a block chosen as root. */
  ghost predicate RightRoot(r: RootResult, root: Block, certs: seq<QuorumCert>, latest: StorageLedger)
  {
    && (r == Failed(NoQcForRoot) <==> !exists i :: FirstCertifying(certs, root.id, i))
    && (r == Failed(NoLedgerInfoForRoot) <==>
          (exists i :: FirstCertifying(certs, root.id, i)) && !exists j :: FirstCommitting(certs, root.id, j))
    && (r.Found? <==> exists i, j :: Proved(certs, root.id, latest, i, j))
    && (forall i, j :: r.Found? && Proved(certs, root.id, latest, i, j) ==>
          r.root == RootInfo(root, certs[i], certs[j], QuorumCert(certs[j].voteData, latest.ledgerInfo, latest.signers)))
    && r != Failed(RootNotFound)
  }

  /** Storage holds the last committed block, a certificate for it, and one that commits it as storage says. */
  ghost predicate RootAvailable(ledger: StorageLedger, genesisId: HashValue, blocks: seq<Block>, qcs: seq<QuorumCert>)
  {
    && (exists b :: b in AllBlocks(ledger, genesisId, blocks) && b.id == RootId(ledger, genesisId))
    && (exists i, j :: Proved(AllQcs(ledger, genesisId, qcs), RootId(ledger, genesisId), LatestCommit(ledger, genesisId), i, j))
  }

  ghost predicate IsRoot(r: RootResult, ledger: StorageLedger, genesisId: HashValue, blocks: seq<Block>, qcs: seq<QuorumCert>)
  {
    exists root :: root in AllBlocks(ledger, genesisId, blocks) && root.id == RootId(ledger, genesisId)
      && RightRoot(r, root, AllQcs(ledger, genesisId, qcs), LatestCommit(ledger, genesisId))
  }

  lemma {:induction false} SomeCertificate(certs: seq<QuorumCert>, id: HashValue)
    ensures (exists i :: FirstCertifying(certs, id, i)) <==> exists i :: 0 <= i < |certs| && certs[i].voteData.proposed.id == id
    ensures (exists i :: FirstCommitting(certs, id, i)) <==> exists i :: 0 <= i < |certs| && certs[i].ledgerInfo.commitInfo.id == id
  {
    if certs != [] {
      var before, last := certs[..|certs| - 1], |certs| - 1;
      SomeCertificate(before, id);
      if i :| FirstCertifying(before, id, i) {
        assert FirstCertifying(certs, id, i);
      } else if certs[last].voteData.proposed.id == id {
        assert forall j :: 0 <= j < last ==> before[j] == certs[j];
        assert FirstCertifying(certs, id, last);
      }
      if i :| FirstCommitting(before, id, i) {
        assert FirstCommitting(certs, id, i);
      } else if certs[last].ledgerInfo.commitInfo.id == id {
        assert forall j :: 0 <= j < last ==> before[j] == certs[j];
        assert FirstCommitting(certs, id, last);
      }
    }
  }

  lemma RightRootAvailable(r: RootResult, root: Block, ledger: StorageLedger, genesisId: HashValue, blocks: seq<Block>, qcs: seq<QuorumCert>)
    requires root in AllBlocks(ledger, genesisId, blocks) && root.id == RootId(ledger, genesisId)
    requires RightRoot(r, root, AllQcs(ledger, genesisId, qcs), LatestCommit(ledger, genesisId))
    ensures IsRoot(r, ledger, genesisId, blocks, qcs) && (r.Found? <==> RootAvailable(ledger, genesisId, blocks, qcs))
  {
  }

  /** At an epoch boundary the root is the first block of the next epoch, and it is always there: it and its certificate
      are made from the stored proof, unless storage already holds a certificate with the id it hashes to. */
  lemma BoundaryRootAvailable(ledger: StorageLedger, genesisId: HashValue, blocks: seq<Block>, qcs: seq<QuorumCert>)
    requires ledger.ledgerInfo.commitInfo.nextEpoch.Some?
    requires forall i :: 0 <= i < |qcs| ==> qcs[i].voteData.proposed.id != genesisId && qcs[i].ledgerInfo.commitInfo.id != genesisId
    ensures RootAvailable(ledger, genesisId, blocks, qcs) && RootId(ledger, genesisId) == genesisId
    ensures var c := ledger.ledgerInfo.commitInfo;
            exists b :: b in AllBlocks(ledger, genesisId, blocks) && b.id == genesisId && b.blockType == Genesis
              && b.epoch == c.epoch + 1 && b.round == 0 && b.timestamp == c.timestamp
    ensures var latest := LatestCommit(ledger, genesisId);
            latest.ledgerInfo.commitInfo.id == genesisId && latest.ledgerInfo.commitInfo.version == ledger.ledgerInfo.commitInfo.version
  {
    var genesis := GenesisBlock(ledger.ledgerInfo, genesisId);
    assert (blocks + [genesis])[|blocks|] == genesis;
    assert genesis in AllBlocks(ledger, genesisId, blocks);
    assert Proved(AllQcs(ledger, genesisId, qcs), genesisId, LatestCommit(ledger, genesisId), |qcs|, |qcs|);
  }

  /** Within an epoch it depends on storage alone. */
  lemma StoredRootAvailable(ledger: StorageLedger, genesisId: HashValue, blocks: seq<Block>, qcs: seq<QuorumCert>)
    requires ledger.ledgerInfo.commitInfo.nextEpoch.None?
    ensures var id := ledger.ledgerInfo.commitInfo.id;
            RootAvailable(ledger, genesisId, blocks, qcs) <==>
              && (exists b :: b in blocks && b.id == id)
              && (exists i :: 0 <= i < |qcs| && qcs[i].voteData.proposed.id == id)
              && (exists j :: FirstCommitting(qcs, id, j) && Agrees(qcs[j].ledgerInfo.commitInfo, ledger.ledgerInfo.commitInfo))
  {
    var id := ledger.ledgerInfo.commitInfo.id;
    SomeCertificate(qcs, id);
    assert AllQcs(ledger, genesisId, qcs) == qcs && RootId(ledger, genesisId) == id && LatestCommit(ledger, genesisId) == ledger;
    if j :| FirstCommitting(qcs, id, j) && Agrees(qcs[j].ledgerInfo.commitInfo, ledger.ledgerInfo.commitInfo) {
      if i :| FirstCertifying(qcs, id, i) {
        assert Proved(qcs, id, ledger, i, j);
        assert Proved(AllQcs(ledger, genesisId, qcs), RootId(ledger, genesisId), LatestCommit(ledger, genesisId), i, j);
      }
    }
  }

  method PositionOf(blocks: seq<Block>, id: HashValue) returns (i: nat)
    ensures i <= |blocks| && (forall j :: 0 <= j < i ==> blocks[j].id != id)
    ensures i < |blocks| ==> blocks[i].id == id
  {
    i := 0;
    while i < |blocks| && blocks[i].id != id
      invariant i <= |blocks| && forall j :: 0 <= j < i ==> blocks[j].id != id
    {
      i := i + 1;
    }
  }

  method FindQc(qcs: seq<QuorumCert>, id: HashValue, byCommit: bool) returns (r: Option<QuorumCert>)
    ensures r.Some? && !byCommit ==> exists i :: FirstCertifying(qcs, id, i) && r.value == qcs[i]
    ensures r.Some? && byCommit ==> exists i :: FirstCommitting(qcs, id, i) && r.value == qcs[i]
    ensures r.None? && !byCommit ==> forall i :: !FirstCertifying(qcs, id, i)
    ensures r.None? && byCommit ==> forall i :: !FirstCommitting(qcs, id, i)
  {
    for i := 0 to |qcs|
      invariant forall j :: 0 <= j < i ==> Names(qcs[j], byCommit) != id
    {
      if Names(qcs[i], byCommit) == id {
        assert !byCommit ==> FirstCertifying(qcs, id, i);
        assert byCommit ==> FirstCommitting(qcs, id, i);
        return Some(qcs[i]);
      }
    }
    return None;
  }

  /** The block a certificate certifies, or the one it commits. */
  function Names(qc: QuorumCert, byCommit: bool): HashValue
  {
    if byCommit then qc.ledgerInfo.commitInfo.id else qc.voteData.proposed.id
  }

  /** The root is the block storage committed last, taken out of the sorted blocks, with a certificate
      for it and one that commits it. */
  method FindRoot(ledger: StorageLedger, genesisId: HashValue, blocks: seq<Block>, qcs: seq<QuorumCert>)
    returns (r: RootResult, rest: seq<Block>, certs: seq<QuorumCert>)
    ensures certs == AllQcs(ledger, genesisId, qcs) && InOrder(rest)
    ensures r == Failed(RootNotFound) <==>
            (forall b :: b in AllBlocks(ledger, genesisId, blocks) ==> b.id != RootId(ledger, genesisId))
    ensures r != Failed(RootNotFound) ==> IsRoot(r, ledger, genesisId, blocks, qcs)
    ensures r.Found? <==> RootAvailable(ledger, genesisId, blocks, qcs)
    ensures r.Found? ==>
              && r.root.block.id == RootId(ledger, genesisId)
              && multiset(rest) + multiset{r.root.block} == multiset(AllBlocks(ledger, genesisId, blocks))
    ensures r.Found? ==> RootCertified(r.root, certs, LatestCommit(ledger, genesisId))
  {
    certs := AllQcs(ledger, genesisId, qcs);
    var rootId := RootId(ledger, genesisId);
    var sorted := SortByKey(AllBlocks(ledger, genesisId, blocks));
    SameElements(AllBlocks(ledger, genesisId, blocks), sorted);
    var i := PositionOf(sorted, rootId);
    if i == |sorted| {
      NoRoot(ledger, genesisId, blocks, qcs);
      return Failed(RootNotFound), sorted, certs;
    }
    rest := sorted[..i] + sorted[i + 1..];
    WithoutOne(sorted, i);
    r := Certify(sorted[i], certs, LatestCommit(ledger, genesisId));
    RightRootAvailable(r, sorted[i], ledger, genesisId, blocks, qcs);
  }

  lemma NoRoot(ledger: StorageLedger, genesisId: HashValue, blocks: seq<Block>, qcs: seq<QuorumCert>)
    requires forall b :: b in AllBlocks(ledger, genesisId, blocks) ==> b.id != RootId(ledger, genesisId)
    ensures !RootAvailable(ledger, genesisId, blocks, qcs)
  {
  }

  lemma WithoutOne(blocks: seq<Block>, i: nat)
    requires InOrder(blocks) && i < |blocks|
    ensures InOrder(blocks[..i] + blocks[i + 1..])
    ensures multiset(blocks[..i] + blocks[i + 1..]) + multiset{blocks[i]} == multiset(blocks)
  {
    assert blocks == blocks[..i] + [blocks[i]] + blocks[i + 1..];
  }

  ghost predicate RootCertified(root: RootInfo, certs: seq<QuorumCert>, latest: StorageLedger)
  {
    && root.quorumCert in certs && Names(root.quorumCert, false) == root.block.id
    && root.orderedCert in certs && Names(root.orderedCert, true) == root.block.id
    && root.commitCert == QuorumCert(root.orderedCert.voteData, latest.ledgerInfo, latest.signers)
    && root.orderedCert.ledgerInfo.commitInfo.MatchOrderedOnly(root.commitCert.ledgerInfo.commitInfo)
  }

  method Certify(root: Block, certs: seq<QuorumCert>, latest: StorageLedger) returns (r: RootResult)
    ensures r.Found? ==> r.root.block == root && RootCertified(r.root, certs, latest)
    ensures RightRoot(r, root, certs, latest)
  {
    var qc := FindQc(certs, root.id, false);
    if qc.None? {
      return Failed(NoQcForRoot);
    }
    var ordered := FindQc(certs, root.id, true);
    if ordered.None? {
      return Failed(NoLedgerInfoForRoot);
    }
    if !ordered.value.ledgerInfo.commitInfo.MatchOrderedOnly(latest.ledgerInfo.commitInfo) {
      return Failed(InconsistentCommitProof);
    }
    var commitCert := QuorumCert(ordered.value.voteData, latest.ledgerInfo, latest.signers);
    ghost var i :| FirstCertifying(certs, root.id, i) && certs[i] == qc.value;
    ghost var j :| FirstCommitting(certs, root.id, j) && certs[j] == ordered.value;
    assert Proved(certs, root.id, latest, i, j);
    return Found(RootInfo(root, qc.value, ordered.value, commitCert));
  }

  // ------------------------------------------------------------------ pruning

  /** Ids collected while passing over `blocks`: the root and every block hanging off a collected id. */
  function TreeOf(rootId: HashValue, blocks: seq<Block>): set<HashValue>
  {
    if blocks == [] then {rootId}
    else
      var tree := TreeOf(rootId, blocks[..|blocks| - 1]);
      var b := blocks[|blocks| - 1];
      if b.ParentId() in tree then tree + {b.id} else tree
  }

  function Kept(rootId: HashValue, blocks: seq<Block>): seq<Block>
  {
    if blocks == [] then []
    else
      var before, b := blocks[..|blocks| - 1], blocks[|blocks| - 1];
      Kept(rootId, before) + if b.ParentId() in TreeOf(rootId, before) then [b] else []
  }

  function Pruned(rootId: HashValue, blocks: seq<Block>): set<HashValue>
  {
    if blocks == [] then {}
    else
      var before, b := blocks[..|blocks| - 1], blocks[|blocks| - 1];
      Pruned(rootId, before) + if b.ParentId() in TreeOf(rootId, before) then {} else {b.id}
  }

  function KeptQcs(tree: set<HashValue>, qcs: seq<QuorumCert>): seq<QuorumCert>
  {
    if qcs == [] then []
    else
      var qc := qcs[|qcs| - 1];
      KeptQcs(tree, qcs[..|qcs| - 1]) + if qc.voteData.proposed.id in tree then [qc] else []
  }

  function PrunedQcs(tree: set<HashValue>, qcs: seq<QuorumCert>): set<HashValue>
  {
    set i | 0 <= i < |qcs| && qcs[i].voteData.proposed.id !in tree :: qcs[i].voteData.proposed.id
  }

  /** Two retain passes: over the blocks, growing the tree as it goes, then over the certificates. */
  method FindBlocksToPrune(rootId: HashValue, blocks: seq<Block>, qcs: seq<QuorumCert>)
    returns (toRemove: set<HashValue>, keptBlocks: seq<Block>, keptQcs: seq<QuorumCert>)
    ensures keptBlocks == Kept(rootId, blocks)
    ensures keptQcs == KeptQcs(TreeOf(rootId, blocks), qcs)
    ensures toRemove == Pruned(rootId, blocks) + PrunedQcs(TreeOf(rootId, blocks), qcs)
  {
    var tree := {rootId};
    toRemove, keptBlocks, keptQcs := {}, [], [];
    for i := 0 to |blocks|
      invariant tree == TreeOf(rootId, blocks[..i])
      invariant keptBlocks == Kept(rootId, blocks[..i]) && toRemove == Pruned(rootId, blocks[..i])
    {
      assert blocks[..i + 1][..i] == blocks[..i];
      if blocks[i].ParentId() in tree {
        tree := tree + {blocks[i].id};
        keptBlocks := keptBlocks + [blocks[i]];
      } else {
        toRemove := toRemove + {blocks[i].id};
      }
    }
    assert blocks[..|blocks|] == blocks;
    for i := 0 to |qcs|
      invariant keptQcs == KeptQcs(tree, qcs[..i])
      invariant toRemove == Pruned(rootId, blocks) + PrunedQcs(tree, qcs[..i])
    {
      assert qcs[..i + 1][..i] == qcs[..i];
      var id := qcs[i].voteData.proposed.id;
      assert PrunedQcs(tree, qcs[..i + 1]) == PrunedQcs(tree, qcs[..i]) + if id in tree then {} else {id} by {
        PrunedQcsStep(tree, qcs, i);
      }
      if id in tree {
        keptQcs := keptQcs + [qcs[i]];
      } else {
        toRemove := toRemove + {id};
      }
    }
    assert qcs[..|qcs|] == qcs;
  }

  lemma PrunedQcsStep(tree: set<HashValue>, qcs: seq<QuorumCert>, i: nat)
    requires i < |qcs|
    ensures PrunedQcs(tree, qcs[..i + 1])
         == PrunedQcs(tree, qcs[..i]) + if qcs[i].voteData.proposed.id in tree then {} else {qcs[i].voteData.proposed.id}
  {
    var s := qcs[..i + 1];
    forall id | id in PrunedQcs(tree, s)
      ensures id in PrunedQcs(tree, qcs[..i]) || (id == qcs[i].voteData.proposed.id && id !in tree)
    {
      var j :| 0 <= j < |s| && s[j].voteData.proposed.id !in tree && s[j].voteData.proposed.id == id;
      if j < i {
        assert qcs[..i][j] == s[j];
      }
    }
    forall id | id in PrunedQcs(tree, qcs[..i])
      ensures id in PrunedQcs(tree, s)
    {
      var j :| 0 <= j < i && qcs[..i][j].voteData.proposed.id !in tree && qcs[..i][j].voteData.proposed.id == id;
      assert s[j] == qcs[..i][j];
    }
    assert s[i] == qcs[i];
  }

  // --------------------------------------------------------- what pruning keeps

  /** One step of the block pass. */
  lemma KeptStep(rootId: HashValue, before: seq<Block>, b: Block)
    ensures Kept(rootId, before + [b]) == Kept(rootId, before) + if b.ParentId() in TreeOf(rootId, before) then [b] else []
    ensures TreeOf(rootId, before + [b]) == TreeOf(rootId, before) + if b.ParentId() in TreeOf(rootId, before) then {b.id} else {}
    ensures Pruned(rootId, before + [b]) == Pruned(rootId, before) + if b.ParentId() in TreeOf(rootId, before) then {} else {b.id}
  {
    assert (before + [b])[..|before|] == before;
  }

  predicate KeptAt(rootId: HashValue, blocks: seq<Block>, i: nat)
    requires i < |blocks|
  {
    blocks[i].ParentId() in TreeOf(rootId, blocks[..i])
  }

  lemma {:induction false} KeptMember(rootId: HashValue, blocks: seq<Block>, b: Block)
    ensures b in Kept(rootId, blocks) <==> exists i :: 0 <= i < |blocks| && KeptAt(rootId, blocks, i) && blocks[i] == b
  {
    if blocks != [] {
      var before := blocks[..|blocks| - 1];
      KeptMember(rootId, before, b);
      assert forall i :: 0 <= i < |before| ==> before[..i] == blocks[..i];
      assert forall i :: 0 <= i < |before| ==> KeptAt(rootId, before, i) == KeptAt(rootId, blocks, i);
      assert KeptAt(rootId, blocks, |before|) == (blocks[|before|].ParentId() in TreeOf(rootId, before));
    }
  }

  lemma {:induction false} TreeMember(rootId: HashValue, blocks: seq<Block>, id: HashValue)
    ensures id in TreeOf(rootId, blocks) <==> id == rootId || exists b :: b in Kept(rootId, blocks) && b.id == id
  {
    if blocks != [] {
      TreeMember(rootId, blocks[..|blocks| - 1], id);
    }
  }

  /** A parent-linked run of stored blocks hanging off the root. */
  ghost predicate IsDescent(blocks: seq<Block>, rootId: HashValue, path: seq<Block>)
  {
    && path != []
    && (forall k :: 0 <= k < |path| ==> path[k] in blocks)
    && path[0].ParentId() == rootId
    && forall k :: 0 < k < |path| ==> path[k].ParentId() == path[k - 1].id
  }

  ghost predicate Descendant(blocks: seq<Block>, rootId: HashValue, b: Block)
  {
    exists path :: IsDescent(blocks, rootId, path) && path[|path| - 1] == b
  }

  /** Every stored parent has a smaller (epoch, round) than its child. */
  ghost predicate ParentsEarlier(blocks: seq<Block>)
  {
    forall a, b :: a in blocks && b in blocks && b.ParentId() == a.id ==> KeyLt(a, b)
  }

  lemma ExtendDescent(blocks: seq<Block>, rootId: HashValue, a: Block, b: Block)
    requires Descendant(blocks, rootId, a) && b.ParentId() == a.id
    ensures Descendant(blocks + [b], rootId, b)
  {
    var path :| IsDescent(blocks, rootId, path) && path[|path| - 1] == a;
    var longer := path + [b];
    assert forall k :: 0 <= k < |path| ==> longer[k] == path[k];
    assert IsDescent(blocks + [b], rootId, longer);
  }

  lemma WidenDescent(blocks: seq<Block>, rootId: HashValue, a: Block, b: Block)
    requires Descendant(blocks, rootId, a)
    ensures Descendant(blocks + [b], rootId, a)
  {
    var path :| IsDescent(blocks, rootId, path) && path[|path| - 1] == a;
    assert IsDescent(blocks + [b], rootId, path);
  }

  lemma {:induction false} KeptDescends(rootId: HashValue, blocks: seq<Block>, b: Block)
    requires b in Kept(rootId, blocks)
    ensures Descendant(blocks, rootId, b)
    decreases |blocks|
  {
    var before, last := blocks[..|blocks| - 1], blocks[|blocks| - 1];
    assert blocks == before + [last];
    if b in Kept(rootId, before) {
      KeptDescends(rootId, before, b);
      WidenDescent(before, rootId, b, last);
    } else if b.ParentId() == rootId {
      assert IsDescent(blocks, rootId, [b]);
    } else {
      TreeMember(rootId, before, b.ParentId());
      var a :| a in Kept(rootId, before) && a.id == b.ParentId();
      KeptDescends(rootId, before, a);
      ExtendDescent(before, rootId, a, b);
    }
  }

  lemma ParentIsBefore(blocks: seq<Block>, i: nat, j: nat)
    requires InOrder(blocks) && ParentsEarlier(blocks)
    requires i < |blocks| && j < |blocks| && blocks[j].ParentId() == blocks[i].id
    ensures i < j
  {
    assert KeyLt(blocks[i], blocks[j]);
    assert !KeyLe(blocks[j], blocks[i]);
  }

  lemma {:induction false} DescentKept(rootId: HashValue, blocks: seq<Block>, path: seq<Block>)
    requires InOrder(blocks) && ParentsEarlier(blocks) && IsDescent(blocks, rootId, path)
    ensures path[|path| - 1] in Kept(rootId, blocks)
    decreases |path|
  {
    var b := path[|path| - 1];
    var j :| 0 <= j < |blocks| && blocks[j] == b;
    if |path| == 1 {
      TreeMember(rootId, blocks[..j], rootId);
    } else {
      var front := path[..|path| - 1];
      DescentKept(rootId, blocks, front);
      var a := front[|front| - 1];
      KeptMember(rootId, blocks, a);
      var i: nat :| i < |blocks| && KeptAt(rootId, blocks, i) && blocks[i] == a;
      ParentIsBefore(blocks, i, j);
      assert blocks[..j][..i] == blocks[..i];
      assert KeptAt(rootId, blocks[..j], i);
      KeptMember(rootId, blocks[..j], a);
      TreeMember(rootId, blocks[..j], a.id);
    }
    assert KeptAt(rootId, blocks, j);
    KeptMember(rootId, blocks, b);
  }

  /** One pass over the sorted blocks keeps exactly the descendants of the root. */
  lemma PruningExact(rootId: HashValue, blocks: seq<Block>)
    requires InOrder(blocks) && ParentsEarlier(blocks)
    ensures forall b :: b in Kept(rootId, blocks) <==> Descendant(blocks, rootId, b)
  {
    forall b
      ensures b in Kept(rootId, blocks) <==> Descendant(blocks, rootId, b)
    {
      if b in Kept(rootId, blocks) {
        KeptDescends(rootId, blocks, b);
      }
      if Descendant(blocks, rootId, b) {
        var path :| IsDescent(blocks, rootId, path) && path[|path| - 1] == b;
        DescentKept(rootId, blocks, path);
      }
    }
  }

  /** The order of the input is not a detail: the same two blocks, child first, lose the child. */
  lemma UnsortedPruningLosesDescendants(rootId: HashValue, parent: Block, child: Block)
    requires parent.ParentId() == rootId && child.ParentId() == parent.id && parent.id != rootId
    ensures Kept(rootId, [parent, child]) == [parent, child]
    ensures Descendant([child, parent], rootId, child) && child !in Kept(rootId, [child, parent])
  {
    KeptStep(rootId, [], parent);
    KeptStep(rootId, [parent], child);
    KeptStep(rootId, [], child);
    KeptStep(rootId, [child], parent);
    assert [] + [parent] == [parent] && [] + [child] == [child];
    assert [parent] + [child] == [parent, child] && [child] + [parent] == [child, parent];
    assert IsDescent([child, parent], rootId, [parent, child]);
  }

  lemma {:induction false} KeptQcMember(tree: set<HashValue>, qcs: seq<QuorumCert>, qc: QuorumCert)
    ensures qc in KeptQcs(tree, qcs) <==> qc in qcs && qc.voteData.proposed.id in tree
  {
    if qcs != [] {
      KeptQcMember(tree, qcs[..|qcs| - 1], qc);
      assert qcs == qcs[..|qcs| - 1] + [qcs[|qcs| - 1]];
    }
  }

  /** A certificate survives exactly when the block it certifies does, the root included. */
  lemma QcPruningExact(rootId: HashValue, blocks: seq<Block>, qcs: seq<QuorumCert>, qc: QuorumCert)
    requires InOrder(blocks) && ParentsEarlier(blocks)
    ensures qc in KeptQcs(TreeOf(rootId, blocks), qcs) <==>
            && qc in qcs
            && (Names(qc, false) == rootId || exists b :: Descendant(blocks, rootId, b) && b.id == Names(qc, false))
  {
    KeptQcMember(TreeOf(rootId, blocks), qcs, qc);
    TreeMember(rootId, blocks, Names(qc, false));
    PruningExact(rootId, blocks);
  }

  ghost predicate PlacedAfterParent(rootId: HashValue, blocks: seq<Block>, k: int)
    requires 0 <= k < |blocks|
  {
    blocks[k].ParentId() == rootId || exists m :: 0 <= m < k && blocks[m].id == blocks[k].ParentId()
  }

  /** What is kept can be inserted front to back: each block comes after its parent. */
  lemma {:induction false} KeptInInsertionOrder(rootId: HashValue, blocks: seq<Block>, k: nat)
    requires k < |Kept(rootId, blocks)|
    ensures PlacedAfterParent(rootId, Kept(rootId, blocks), k)
    decreases |blocks|
  {
    var before, b := blocks[..|blocks| - 1], blocks[|blocks| - 1];
    assert blocks == before + [b];
    KeptStep(rootId, before, b);
    var kept := Kept(rootId, before);
    if k < |kept| {
      KeptInInsertionOrder(rootId, before, k);
      if kept[k].ParentId() != rootId {
        var m :| 0 <= m < k && kept[m].id == kept[k].ParentId();
        assert Kept(rootId, blocks)[m] == kept[m];
      }
    } else if b.ParentId() != rootId {
      TreeMember(rootId, before, b.ParentId());
      var a :| a in kept && a.id == b.ParentId();
      var m :| 0 <= m < |kept| && kept[m] == a;
      assert Kept(rootId, blocks)[m] == a;
    }
  }

  /** Block ids are unique among `blocks`, as they are in a store keyed by id. */
  ghost predicate UniqueIds(blocks: seq<Block>)
  {
    forall i, j :: 0 <= i < j < |blocks| ==> blocks[i].id != blocks[j].id
  }

  lemma {:induction false} PrunedMember(rootId: HashValue, blocks: seq<Block>, id: HashValue)
    ensures id in Pruned(rootId, blocks) <==>
            exists i :: 0 <= i < |blocks| && !KeptAt(rootId, blocks, i) && blocks[i].id == id
  {
    if blocks != [] {
      var before := blocks[..|blocks| - 1];
      PrunedMember(rootId, before, id);
      assert forall i :: 0 <= i < |before| ==> before[..i] == blocks[..i];
      assert forall i :: 0 <= i < |before| ==> KeptAt(rootId, before, i) == KeptAt(rootId, blocks, i);
      assert KeptAt(rootId, blocks, |before|) == (blocks[|before|].ParentId() in TreeOf(rootId, before));
    }
  }

  /** Every stored block is kept or pruned, never both, and no pruned id is in the tree. */
  lemma PruningPartitions(rootId: HashValue, blocks: seq<Block>, qcs: seq<QuorumCert>)
    requires UniqueIds(blocks) && forall b :: b in blocks ==> b.id != rootId
    ensures forall b :: b in blocks ==> (b in Kept(rootId, blocks) <==> b.id !in Pruned(rootId, blocks))
    ensures TreeOf(rootId, blocks) !! (Pruned(rootId, blocks) + PrunedQcs(TreeOf(rootId, blocks), qcs))
  {
    forall b | b in blocks
      ensures b in Kept(rootId, blocks) <==> b.id !in Pruned(rootId, blocks)
    {
      KeptMember(rootId, blocks, b);
      PrunedMember(rootId, blocks, b.id);
    }
    forall id | id in TreeOf(rootId, blocks)
      ensures id !in Pruned(rootId, blocks)
    {
      TreeMember(rootId, blocks, id);
      PrunedMember(rootId, blocks, id);
      if id != rootId {
        var b :| b in Kept(rootId, blocks) && b.id == id;
        KeptMember(rootId, blocks, b);
      }
    }
  }

  /** Pruning what was pruned changes nothing. */
  lemma {:induction false} PruningIdempotent(rootId: HashValue, blocks: seq<Block>)
    ensures Kept(rootId, Kept(rootId, blocks)) == Kept(rootId, blocks)
    ensures TreeOf(rootId, Kept(rootId, blocks)) == TreeOf(rootId, blocks)
    ensures Pruned(rootId, Kept(rootId, blocks)) == {}
  {
    if blocks != [] {
      var before, b := blocks[..|blocks| - 1], blocks[|blocks| - 1];
      assert blocks == before + [b];
      PruningIdempotent(rootId, before);
      KeptStep(rootId, before, b);
      if b.ParentId() in TreeOf(rootId, before) {
        KeptStep(rootId, Kept(rootId, before), b);
      } else {
        assert Kept(rootId, blocks) == Kept(rootId, before);
      }
    }
  }

  lemma {:induction false} QcPruningIdempotent(tree: set<HashValue>, qcs: seq<QuorumCert>)
    ensures KeptQcs(tree, KeptQcs(tree, qcs)) == KeptQcs(tree, qcs)
    ensures PrunedQcs(tree, KeptQcs(tree, qcs)) == {}
  {
    var kept := KeptQcs(tree, qcs);
    if qcs != [] {
      var before, qc := qcs[..|qcs| - 1], qcs[|qcs| - 1];
      QcPruningIdempotent(tree, before);
      if qc.voteData.proposed.id in tree {
        assert kept == KeptQcs(tree, before) + [qc] && kept[..|kept| - 1] == KeptQcs(tree, before);
      } else {
        assert kept == KeptQcs(tree, before);
      }
    }
    forall i | 0 <= i < |kept|
      ensures kept[i].voteData.proposed.id in tree
    {
      KeptQcMember(tree, qcs, kept[i]);
    }
  }

  // ------------------------------------------------------------ recovery as a whole

  datatype RecoveryData = RecoveryData(
    lastVote: Option<Vote>,
    root: RootInfo,
    blocks: seq<Block>,
    quorumCerts: seq<QuorumCert>,
    blocksToPrune: set<HashValue>,
    highestTimeoutCert: Option<TimeoutCert>)

  datatype RecoveryResult = Recovered(data: RecoveryData) | RecoveryFailed(error: RootError)

  /** `rest` are the stored blocks but for the root; what is kept of them and of the certificates descends from
      the root, the other ids are to be deleted. */
  ghost predicate RecoveredFrom(d: RecoveryData, rest: seq<Block>, all: seq<Block>, certs: seq<QuorumCert>)
  {
    var rootId := d.root.block.id;
    && multiset(rest) + multiset{d.root.block} == multiset(all)
    && (ParentsEarlier(all) ==> forall b :: b in d.blocks <==> Descendant(rest, rootId, b))
    && (forall qc :: qc in d.quorumCerts <==>
          qc in certs && (Names(qc, false) == rootId || exists b :: b in d.blocks && b.id == Names(qc, false)))
    && (UniqueIds(rest) && (forall b :: b in rest ==> b.id != rootId) ==>
          && (forall b :: b in rest ==> (b in d.blocks <==> b.id !in d.blocksToPrune))
          && (forall qc :: qc in certs ==> (qc in d.quorumCerts <==> Names(qc, false) !in d.blocksToPrune))
          && rootId !in d.blocksToPrune)
  }

  lemma PrunedIsRecovered(d: RecoveryData, rest: seq<Block>, all: seq<Block>, certs: seq<QuorumCert>)
    requires InOrder(rest) && multiset(rest) + multiset{d.root.block} == multiset(all)
    requires d.blocks == Kept(d.root.block.id, rest)
    requires d.quorumCerts == KeptQcs(TreeOf(d.root.block.id, rest), certs)
    requires d.blocksToPrune == Pruned(d.root.block.id, rest) + PrunedQcs(TreeOf(d.root.block.id, rest), certs)
    ensures RecoveredFrom(d, rest, all, certs)
  {
    var rootId := d.root.block.id;
    var tree := TreeOf(rootId, rest);
    if ParentsEarlier(all) {
      RestElements(rest, d.root.block, all);
      PruningExact(rootId, rest);
    }
    forall qc
      ensures qc in d.quorumCerts <==>
              qc in certs && (Names(qc, false) == rootId || exists b :: b in d.blocks && b.id == Names(qc, false))
    {
      KeptQcMember(tree, certs, qc);
      TreeMember(rootId, rest, Names(qc, false));
    }
    if UniqueIds(rest) && forall b :: b in rest ==> b.id != rootId {
      PruningPartitions(rootId, rest, certs);
      TreeMember(rootId, rest, rootId);
      forall b | b in rest
        ensures b in d.blocks <==> b.id !in d.blocksToPrune
      {
        TreeMember(rootId, rest, b.id);
      }
      forall qc | qc in certs
        ensures qc in d.quorumCerts <==> Names(qc, false) !in d.blocksToPrune
      {
        KeptQcMember(tree, certs, qc);
        var i :| 0 <= i < |certs| && certs[i] == qc;
      }
    }
  }

  /** What a restarting validator resumes from: the committed root, exactly its stored descendants in an
      order they can be inserted in, their certificates, and liveness data of the root's epoch only. */
  method Recover(lastVote: Option<Vote>, ledger: StorageLedger, genesisId: HashValue, blocks: seq<Block>,
                 qcs: seq<QuorumCert>, highestTc: Option<TimeoutCert>) returns (r: RecoveryResult)
    ensures r.Recovered? ==>
              && r.data.root.block.id == RootId(ledger, genesisId)
              && RootCertified(r.data.root, AllQcs(ledger, genesisId, qcs), LatestCommit(ledger, genesisId))
    ensures r.Recovered? ==>
              var d := r.data;
              && (d.lastVote.Some? <==> lastVote.Some? && lastVote.value.voteData.proposed.epoch == d.root.block.epoch)
              && (d.lastVote.Some? ==> d.lastVote == lastVote)
              && (d.highestTimeoutCert.Some? <==> highestTc.Some? && highestTc.value.timeout.epoch == d.root.block.epoch)
              && (d.highestTimeoutCert.Some? ==> d.highestTimeoutCert == highestTc)
    ensures r.Recovered? <==> RootAvailable(ledger, genesisId, blocks, qcs)
    ensures r.Recovered? ==> IsRoot(Found(r.data.root), ledger, genesisId, blocks, qcs)
    ensures r.RecoveryFailed? && r.error != RootNotFound ==> IsRoot(Failed(r.error), ledger, genesisId, blocks, qcs)
    ensures r == RecoveryFailed(RootNotFound) <==>
            (forall b :: b in AllBlocks(ledger, genesisId, blocks) ==> b.id != RootId(ledger, genesisId))
    ensures r.Recovered? ==>
              exists rest :: RecoveredFrom(r.data, rest, AllBlocks(ledger, genesisId, blocks), AllQcs(ledger, genesisId, qcs))
    ensures r.Recovered? ==>
              forall k :: 0 <= k < |r.data.blocks| ==> PlacedAfterParent(r.data.root.block.id, r.data.blocks, k)
  {
    var found, rest, certs := FindRoot(ledger, genesisId, blocks, qcs);
    if found.Failed? {
      return RecoveryFailed(found.error);
    }
    var root := found.root;
    var toRemove, keptBlocks, keptQcs := FindBlocksToPrune(root.block.id, rest, certs);
    var vote := if lastVote.Some? && lastVote.value.voteData.proposed.epoch == root.block.epoch then lastVote else None;
    var tc := if highestTc.Some? && highestTc.value.timeout.epoch == root.block.epoch then highestTc else None;
    r := Recovered(RecoveryData(vote, root, keptBlocks, keptQcs, toRemove, tc));
    forall k | 0 <= k < |keptBlocks|
      ensures PlacedAfterParent(root.block.id, keptBlocks, k)
    {
      KeptInInsertionOrder(root.block.id, rest, k);
    }
    PrunedIsRecovered(r.data, rest, AllBlocks(ledger, genesisId, blocks), certs);
  }

  lemma RestElements(rest: seq<Block>, root: Block, all: seq<Block>)
    requires multiset(rest) + multiset{root} == multiset(all)
    ensures forall b :: b in rest ==> b in all
  {
    assert forall b :: b in rest ==> b in multiset(rest) + multiset{root};
  }
}
