/** State machine replication, across epochs: what any two honest validators have committed never diverges. */
module Replication {
  import opened Common
  import opened Quorum
  import opened ConsensusTypes
  import opened SafetyRulesModel
  import opened Network
  import opened NetworkInvariant
  import opened CommitSafety
  import opened BlockStoreModel

  /** The first block of each epoch, and which blocks change the validator set when executed.  A block's id
      fixes its ancestors, so it fixes what executing it does. */
  datatype Plan = Plan(genesis: Epoch -> HashValue, reconfigures: HashValue -> bool)

  /** The epoch a validator is in, its ordered root and the blocks committed in that epoch so far, and what
      earlier epochs contributed. */
  datatype Replica = Replica(epoch: Epoch, rootId: HashValue, ledger: seq<HashValue>, closed: seq<seq<HashValue>>)

  /** The network together with the replicas. */
  datatype System = System(net: State, replicas: map<Author, Replica>)

  datatype ReplicaAction =
    | NetworkAction(act: Action)
    // Commit along the local block tree.
    | CommitBlocks(node: Author, tree: Tree, li: LedgerInfo, signers: set<Author>)
    // Jump to a committed block by state synchronisation, or resume from one after a restart.
    | SyncTo(node: Author, li: LedgerInfo, signers: set<Author>)
    // Leave the epoch with a ledger info that ends it.
    | EnterEpoch(node: Author, li: LedgerInfo, signers: set<Author>)

  /** Blocks after the one that reconfigures execute nothing: they count up to and including that one. */
  function Effective(plan: Plan, ids: seq<HashValue>): seq<HashValue>
  {
    if ids == [] then []
    else [ids[0]] + if plan.reconfigures(ids[0]) then [] else Effective(plan, ids[1..])
  }

  predicate Reconfigured(plan: Plan, ids: seq<HashValue>)
  {
    exists i :: 0 <= i < |ids| && plan.reconfigures(ids[i])
  }

  function Flatten(parts: seq<seq<HashValue>>): seq<HashValue>
  {
    if parts == [] then [] else Flatten(parts[..|parts| - 1]) + parts[|parts| - 1]
  }

  /** Everything a replica has committed that executes something, from the first epoch on. */
  function WholeLedger(plan: Plan, r: Replica): seq<HashValue>
  {
    Flatten(r.closed) + Effective(plan, r.ledger)
  }

  ghost predicate GenuineTree(c: Config, tree: Tree)
  {
    WellLinked(tree) && (forall id :: id in tree ==> Genuine(c, tree[id]))
  }

  /** Ids on the way from the first block of the epoch to block `id`, by parent links. */
  ghost function Ancestors(c: Config, id: HashValue): seq<HashValue>
    decreases c.links(id).round
  {
    var link := c.links(id);
    if link.round == 0 then []
    else if c.links(link.parent.id).round >= link.round then [id]
    else Ancestors(c, link.parent.id) + [id]
  }

  ghost predicate SystemInit(c: Config, plan: Plan, first: Epoch, y: System)
  {
    && Init(c, y.net)
    && (forall n :: n in y.replicas ==> y.replicas[n] == Replica(first, plan.genesis(first), [], []))
  }

  ghost predicate ProofInEpoch(c: Config, s: State, e: Epoch, li: LedgerInfo, signers: set<Author>)
  {
    CommitProof(c, s, li, signers) && li.consensusData.proposed.epoch == e
  }

  ghost predicate ReplicaStep(c: Config, plan: Plan, y: System, y': System, action: ReplicaAction)
  {
    match action
    case NetworkAction(act) =>
      Enabled(c, y.net, act) && y' == y.(net := Apply(y.net, act))
    case CommitBlocks(n, tree, li, signers) =>
      && n in y.replicas
      && var r := y.replicas[n];
         && GenuineTree(c, tree) && r.rootId in tree
         && ProofInEpoch(c, y.net, r.epoch, li, signers)
         && var outcome := CommitOutcome(tree, r.rootId, li.commitInfo.id);
            && outcome.Committed?
            && y' == y.(replicas := y.replicas[n := r.(rootId := li.commitInfo.id, ledger := r.ledger + Ids(outcome.blocks))])
    case SyncTo(n, li, signers) =>
      && n in y.replicas
      && var r := y.replicas[n];
         && ProofInEpoch(c, y.net, r.epoch, li, signers)
         && y' == y.(replicas := y.replicas[n := r.(rootId := li.commitInfo.id, ledger := Ancestors(c, li.commitInfo.id))])
    case EnterEpoch(n, li, signers) =>
      && n in y.replicas
      && var r := y.replicas[n];
         && EpochEnd(c, plan, y.net, r.epoch, li, signers)
         && y' == y.(replicas := y.replicas[n := Replica(r.epoch + 1, plan.genesis(r.epoch + 1), [],
                                                         r.closed + [Effective(plan, Ancestors(c, li.commitInfo.id))])])
  }

  /** A ledger info ends its epoch when the block it commits is, or follows, one that reconfigures. */
  ghost predicate EpochEnd(c: Config, plan: Plan, s: State, e: Epoch, li: LedgerInfo, signers: set<Author>)
  {
    ProofInEpoch(c, s, e, li, signers) && Reconfigured(plan, Ancestors(c, li.commitInfo.id))
  }

  ghost predicate SystemStep(c: Config, plan: Plan, y: System, y': System)
  {
    exists action :: ReplicaStep(c, plan, y, y', action)
  }

  ghost predicate WellPlanned(c: Config, plan: Plan)
  {
    forall e: Epoch :: c.links(plan.genesis(e)).round == 0
  }

  ghost predicate IsSystemRun(c: Config, plan: Plan, first: Epoch, run: seq<System>)
  {
    && |run| > 0
    && WellPlanned(c, plan)
    && SystemInit(c, plan, first, run[0])
    && (forall k :: 0 <= k < |run| - 1 ==> SystemStep(c, plan, run[k], run[k + 1]))
  }

  // -------------------------------------------------------------- invariant

  /** The replica's root is the epoch's genesis or carries a commit proof. */
  ghost predicate RootProven(c: Config, s: State, e: Epoch, genesisId: HashValue, rootId: HashValue)
  {
    rootId == genesisId || exists li, q :: ProofInEpoch(c, s, e, li, q) && li.commitInfo.id == rootId
  }

  /** What an epoch contributed comes from a ledger info that ended it. */
  ghost predicate ClosedProven(c: Config, plan: Plan, s: State, e: Epoch, ids: seq<HashValue>)
  {
    exists li, q :: EpochEnd(c, plan, s, e, li, q) && ids == Effective(plan, Ancestors(c, li.commitInfo.id))
  }

  ghost predicate ReplicaInv(c: Config, plan: Plan, first: Epoch, s: State, r: Replica)
  {
    && r.ledger == Ancestors(c, r.rootId) && RootProven(c, s, r.epoch, plan.genesis(r.epoch), r.rootId)
    && r.epoch == first + |r.closed|
    && AllClosedProven(c, plan, first, s, r.closed)
  }

  ghost predicate AllClosedProven(c: Config, plan: Plan, first: Epoch, s: State, closed: seq<seq<HashValue>>)
  {
    Each(ProvenAt(c, plan, first, s), closed)
  }

  ghost function ProvenAt(c: Config, plan: Plan, first: Epoch, s: State): (nat, seq<HashValue>) -> bool
  {
    (k: nat, ids) => ClosedProven(c, plan, s, first + k, ids)
  }

  ghost predicate Each(p: (nat, seq<HashValue>) -> bool, parts: seq<seq<HashValue>>)
  {
    forall k :: 0 <= k < |parts| ==> p(k, parts[k])
  }

  ghost predicate ReplicasInv(c: Config, plan: Plan, first: Epoch, y: System)
  {
    forall n :: n in y.replicas ==> ReplicaInv(c, plan, first, y.net, y.replicas[n])
  }

  lemma ProofGrows(c: Config, s: State, s': State, e: Epoch, li: LedgerInfo, q: set<Author>)
    requires Grows(s, s') && ProofInEpoch(c, s, e, li, q)
    ensures ProofInEpoch(c, s', e, li, q)
  {
    SignedGrows(c, s, s', q, li);
  }

  lemma RootProvenGrows(c: Config, s: State, s': State, e: Epoch, genesisId: HashValue, rootId: HashValue)
    requires Grows(s, s') && RootProven(c, s, e, genesisId, rootId)
    ensures RootProven(c, s', e, genesisId, rootId)
  {
    if rootId != genesisId {
      var li, q :| ProofInEpoch(c, s, e, li, q) && li.commitInfo.id == rootId;
      ProofGrows(c, s, s', e, li, q);
    }
  }

  lemma ClosedProvenGrows(c: Config, plan: Plan, s: State, s': State, e: Epoch, ids: seq<HashValue>)
    requires Grows(s, s') && ClosedProven(c, plan, s, e, ids)
    ensures ClosedProven(c, plan, s', e, ids)
  {
    var li, q :| EpochEnd(c, plan, s, e, li, q) && ids == Effective(plan, Ancestors(c, li.commitInfo.id));
    ProofGrows(c, s, s', e, li, q);
    assert EpochEnd(c, plan, s', e, li, q);
  }

  lemma ReplicaInvGrows(c: Config, plan: Plan, first: Epoch, s: State, s': State, r: Replica)
    requires Grows(s, s') && ReplicaInv(c, plan, first, s, r)
    ensures ReplicaInv(c, plan, first, s', r)
  {
    RootProvenGrows(c, s, s', r.epoch, plan.genesis(r.epoch), r.rootId);
    AllClosedProvenGrows(c, plan, first, s, s', r.closed);
  }

  lemma AllClosedProvenGrows(c: Config, plan: Plan, first: Epoch, s: State, s': State, closed: seq<seq<HashValue>>)
    requires Grows(s, s') && AllClosedProven(c, plan, first, s, closed)
    ensures AllClosedProven(c, plan, first, s', closed)
  {
    forall k | 0 <= k < |closed|
      ensures ProvenAt(c, plan, first, s')(k, closed[k])
    {
      assert ProvenAt(c, plan, first, s)(k, closed[k]);
      ClosedProvenGrows(c, plan, s, s', first + k, closed[k]);
    }
  }

  /** A path in a genuine tree lists exactly the ancestors between the root and the block. */
  lemma {:induction false} PathListsAncestors(c: Config, tree: Tree, id: HashValue, rootId: HashValue, rootRound: Round)
    requires GenuineTree(c, tree) && Path(tree, id, rootId, rootRound).Some?
    ensures Ancestors(c, id) == Ancestors(c, rootId) + Ids(Path(tree, id, rootId, rootRound).value)
    decreases if id in tree then tree[id].round + 1 else 0
  {
    assert Genuine(c, tree[id]);
    var path := Path(tree, id, rootId, rootRound).value;
    if tree[id].round <= rootRound {
      assert Ids(path) == [];
    } else {
      var parent := tree[id].ParentId();
      var below := Path(tree, parent, rootId, rootRound).value;
      PathListsAncestors(c, tree, parent, rootId, rootRound);
      assert Genuine(c, tree[parent]);
      assert Ids(path) == Ids(below) + [id];
      assert Ancestors(c, id) == Ancestors(c, parent) + [id];
    }
  }

  lemma CommitKeepsInv(c: Config, plan: Plan, first: Epoch, s: State, r: Replica, tree: Tree, li: LedgerInfo, q: set<Author>)
    requires ReplicaInv(c, plan, first, s, r) && GenuineTree(c, tree) && r.rootId in tree
    requires ProofInEpoch(c, s, r.epoch, li, q) && CommitOutcome(tree, r.rootId, li.commitInfo.id).Committed?
    ensures var blocks := CommitOutcome(tree, r.rootId, li.commitInfo.id).blocks;
            ReplicaInv(c, plan, first, s, r.(rootId := li.commitInfo.id, ledger := r.ledger + Ids(blocks)))
  {
    PathListsAncestors(c, tree, li.commitInfo.id, r.rootId, tree[r.rootId].round);
  }

  lemma EachAppend(p: (nat, seq<HashValue>) -> bool, parts: seq<seq<HashValue>>, ids: seq<HashValue>)
    requires Each(p, parts) && p(|parts|, ids)
    ensures Each(p, parts + [ids])
  {
  }

  lemma EnterEpochKeepsInv(c: Config, plan: Plan, first: Epoch, s: State, r: Replica, li: LedgerInfo, q: set<Author>)
    requires ReplicaInv(c, plan, first, s, r) && EpochEnd(c, plan, s, r.epoch, li, q) && WellPlanned(c, plan)
    ensures ReplicaInv(c, plan, first, s, Replica(r.epoch + 1, plan.genesis(r.epoch + 1), [],
                                                  r.closed + [Effective(plan, Ancestors(c, li.commitInfo.id))]))
  {
    assert ClosedProven(c, plan, s, r.epoch, Effective(plan, Ancestors(c, li.commitInfo.id)));
    EachAppend(ProvenAt(c, plan, first, s), r.closed, Effective(plan, Ancestors(c, li.commitInfo.id)));
    assert Ancestors(c, plan.genesis(r.epoch + 1)) == [];
  }

  lemma ReplicaStepKeepsInv(c: Config, plan: Plan, first: Epoch, y: System, y': System, action: ReplicaAction)
    requires WellPlanned(c, plan) && ReplicasInv(c, plan, first, y) && ReplicaStep(c, plan, y, y', action)
    ensures ReplicasInv(c, plan, first, y') && Grows(y.net, y'.net)
  {
    if action.NetworkAction? {
      StepGrows(c, y.net, action.act);
    }
    forall n | n in y'.replicas
      ensures ReplicaInv(c, plan, first, y'.net, y'.replicas[n])
    {
      assert ReplicaInv(c, plan, first, y.net, y.replicas[n]);
      match action
      case NetworkAction(_) => ReplicaInvGrows(c, plan, first, y.net, y'.net, y.replicas[n]);
      case CommitBlocks(node, tree, li, q) =>
        if node == n {
          CommitKeepsInv(c, plan, first, y.net, y.replicas[n], tree, li, q);
        }
      case SyncTo(_, _, _) =>
      case EnterEpoch(node, li, q) =>
        if node == n {
          EnterEpochKeepsInv(c, plan, first, y.net, y.replicas[n], li, q);
        }
    }
  }

  lemma SystemInitInv(c: Config, plan: Plan, first: Epoch, y: System)
    requires WellPlanned(c, plan) && SystemInit(c, plan, first, y)
    ensures Inv(c, y.net) && ReplicasInv(c, plan, first, y)
  {
    InitEstablishesInv(c, y.net);
    assert Ancestors(c, plan.genesis(first)) == [];
  }

  lemma SystemStepKeepsInv(c: Config, plan: Plan, first: Epoch, y: System, y': System)
    requires WellPlanned(c, plan) && ResilientConfig(c)
    requires Inv(c, y.net) && ReplicasInv(c, plan, first, y) && SystemStep(c, plan, y, y')
    ensures Inv(c, y'.net) && ReplicasInv(c, plan, first, y') && Grows(y.net, y'.net)
  {
    var action :| ReplicaStep(c, plan, y, y', action);
    ReplicaStepKeepsInv(c, plan, first, y, y', action);
    if action.NetworkAction? {
      StepKeepsInv(c, y.net, action.act);
    }
  }

  lemma {:induction false} SystemRunKeepsInv(c: Config, plan: Plan, first: Epoch, run: seq<System>, i: nat, j: nat)
    requires IsSystemRun(c, plan, first, run) && ResilientConfig(c) && i <= j < |run|
    ensures Inv(c, run[j].net) && ReplicasInv(c, plan, first, run[j]) && Grows(run[i].net, run[j].net)
    decreases j
  {
    if j == 0 {
      SystemInitInv(c, plan, first, run[0]);
    } else {
      SystemRunKeepsInv(c, plan, first, run, if i == j then j - 1 else i, j - 1);
      assert SystemStep(c, plan, run[j - 1], run[j - 1 + 1]);
      SystemStepKeepsInv(c, plan, first, run[j - 1], run[j]);
    }
  }

  // --------------------------------------------------------------- agreement

  /** Along a chain of certified blocks, the ancestors of the lower block start those of the upper. */
  lemma {:induction false} ChainAncestors(c: Config, s: State, a: BlockInfo, b: BlockInfo, path: seq<VoteData>)
    requires Inv(c, s) && ResilientConfig(c) && Chain(c, s, a, b, path) && a.round > 0
    ensures a.round <= b.round && Ancestors(c, a.id) <= Ancestors(c, b.id)
    decreases |path|
  {
    if path != [] {
      var vd := path[|path| - 1];
      ChainAncestors(c, s, a, vd.parent, path[..|path| - 1]);
      CertifiedJustified(c, s, vd);
      var vp :| Certified(c, s, vp) && vp.proposed == vd.parent;
      CertifiedJustified(c, s, vp);
      assert Ancestors(c, b.id) == Ancestors(c, vd.parent.id) + [b.id];
    }
  }

  ghost predicate Comparable(l1: seq<HashValue>, l2: seq<HashValue>)
  {
    l1 <= l2 || l2 <= l1
  }

  lemma ProvenRootsComparable(c: Config, s: State, e: Epoch, genesisId: HashValue, r1: HashValue, r2: HashValue)
    requires Inv(c, s) && ResilientConfig(c) && c.links(genesisId).round == 0
    requires RootProven(c, s, e, genesisId, r1) && RootProven(c, s, e, genesisId, r2)
    ensures Comparable(Ancestors(c, r1), Ancestors(c, r2))
  {
    if r1 != genesisId && r2 != genesisId {
      var l1, q1 :| ProofInEpoch(c, s, e, l1, q1) && l1.commitInfo.id == r1;
      var l2, q2 :| ProofInEpoch(c, s, e, l2, q2) && l2.commitInfo.id == r2;
      CommitProofsComparable(c, s, l1, q1, l2, q2);
    }
  }

  lemma CommitProofsComparable(c: Config, s: State, l1: LedgerInfo, q1: set<Author>, l2: LedgerInfo, q2: set<Author>)
    requires Inv(c, s) && ResilientConfig(c) && CommitProof(c, s, l1, q1) && CommitProof(c, s, l2, q2)
    requires l1.consensusData.proposed.epoch == l2.consensusData.proposed.epoch
    ensures Comparable(Ancestors(c, l1.commitInfo.id), Ancestors(c, l2.commitInfo.id))
  {
    var b1, b2 := l1.consensusData.parent, l2.consensusData.parent;
    var v1 := CommitProofCommits(c, s, l1, q1);
    var v2 := CommitProofCommits(c, s, l2, q2);
    if l1.commitInfo.round <= l2.commitInfo.round {
      CommitsOnOneChain(c, s, l1, q1, l2, q2);
      var path :| Chain(c, s, b1, b2, path);
      ChainAncestors(c, s, b1, b2, path);
    } else {
      CommitsOnOneChain(c, s, l2, q2, l1, q1);
      var path :| Chain(c, s, b2, b1, path);
      ChainAncestors(c, s, b2, b1, path);
    }
  }

  // --------------------------------------------------------- epoch boundaries

  /** Cut off at the reconfiguration, comparable sequences stay comparable, and one that is not cut short by
      the other contains it. */
  lemma {:induction false} EffectivePrefix(plan: Plan, a: seq<HashValue>, b: seq<HashValue>)
    requires a <= b
    ensures Effective(plan, a) <= Effective(plan, b)
    ensures Reconfigured(plan, a) ==> Effective(plan, a) == Effective(plan, b)
  {
    if a != [] {
      assert a[1..] <= b[1..] && a[0] == b[0];
      EffectivePrefix(plan, a[1..], b[1..]);
      if Reconfigured(plan, a) && !plan.reconfigures(a[0]) {
        var i :| 0 <= i < |a| && plan.reconfigures(a[i]);
        assert plan.reconfigures(a[1..][i - 1]);
      }
    }
  }

  lemma EffectiveComparable(plan: Plan, a: seq<HashValue>, b: seq<HashValue>)
    requires Comparable(a, b)
    ensures Comparable(Effective(plan, a), Effective(plan, b))
    ensures Reconfigured(plan, b) ==> Effective(plan, a) <= Effective(plan, b)
    ensures Reconfigured(plan, a) && Reconfigured(plan, b) ==> Effective(plan, a) == Effective(plan, b)
  {
    if a <= b {
      EffectivePrefix(plan, a, b);
    } else {
      EffectivePrefix(plan, b, a);
    }
  }

  /** An epoch contributes the same blocks for everyone who has left it. */
  lemma ClosedUnique(c: Config, plan: Plan, s: State, e: Epoch, ids1: seq<HashValue>, ids2: seq<HashValue>)
    requires Inv(c, s) && ResilientConfig(c) && ClosedProven(c, plan, s, e, ids1) && ClosedProven(c, plan, s, e, ids2)
    ensures ids1 == ids2
  {
    var l1, q1 :| EpochEnd(c, plan, s, e, l1, q1) && ids1 == Effective(plan, Ancestors(c, l1.commitInfo.id));
    var l2, q2 :| EpochEnd(c, plan, s, e, l2, q2) && ids2 == Effective(plan, Ancestors(c, l2.commitInfo.id));
    CommitProofsComparable(c, s, l1, q1, l2, q2);
    EffectiveComparable(plan, Ancestors(c, l1.commitInfo.id), Ancestors(c, l2.commitInfo.id));
  }

  /** And whoever is still in it has committed a part of that. */
  lemma OpenWithinClosed(c: Config, plan: Plan, s: State, e: Epoch, rootId: HashValue, ids: seq<HashValue>)
    requires Inv(c, s) && ResilientConfig(c) && WellPlanned(c, plan)
    requires RootProven(c, s, e, plan.genesis(e), rootId) && ClosedProven(c, plan, s, e, ids)
    ensures Effective(plan, Ancestors(c, rootId)) <= ids
  {
    var li, q :| EpochEnd(c, plan, s, e, li, q) && ids == Effective(plan, Ancestors(c, li.commitInfo.id));
    assert RootProven(c, s, e, plan.genesis(e), li.commitInfo.id);
    ProvenRootsComparable(c, s, e, plan.genesis(e), rootId, li.commitInfo.id);
    EffectiveComparable(plan, Ancestors(c, rootId), Ancestors(c, li.commitInfo.id));
  }

  lemma {:induction false} FlattenPrefix(parts: seq<seq<HashValue>>, k: nat)
    requires k <= |parts|
    ensures Flatten(parts[..k]) <= Flatten(parts)
    ensures k < |parts| ==> Flatten(parts[..k]) + parts[k] <= Flatten(parts)
    decreases |parts|
  {
    if k < |parts| {
      var n := |parts| - 1;
      assert parts[..n][..k] == parts[..k];
      FlattenPrefix(parts[..n], k);
    } else {
      assert parts[..k] == parts;
    }
  }

  ghost predicate Functional(p: (nat, seq<HashValue>) -> bool)
  {
    forall k, x, y :: p(k, x) && p(k, y) ==> x == y
  }

  lemma EachAgree(p: (nat, seq<HashValue>) -> bool, parts1: seq<seq<HashValue>>, parts2: seq<seq<HashValue>>)
    requires Functional(p) && Each(p, parts1) && Each(p, parts2) && |parts1| <= |parts2|
    ensures parts1 == parts2[..|parts1|]
  {
  }

  lemma ProvenFunctional(c: Config, plan: Plan, first: Epoch, s: State)
    requires Inv(c, s) && ResilientConfig(c)
    ensures Functional(ProvenAt(c, plan, first, s))
  {
    forall k, x, y | ProvenAt(c, plan, first, s)(k, x) && ProvenAt(c, plan, first, s)(k, y)
      ensures x == y
    {
      ClosedUnique(c, plan, s, first + k, x, y);
    }
  }

  lemma LaterEpochContains(c: Config, plan: Plan, first: Epoch, s: State, r1: Replica, r2: Replica)
    requires Inv(c, s) && ResilientConfig(c) && WellPlanned(c, plan)
    requires ReplicaInv(c, plan, first, s, r1) && ReplicaInv(c, plan, first, s, r2) && r1.epoch < r2.epoch
    ensures Effective(plan, r1.ledger) <= r2.closed[|r1.closed|]
  {
    var k := |r1.closed|;
    assert ProvenAt(c, plan, first, s)(k, r2.closed[k]);
    OpenWithinClosed(c, plan, s, r1.epoch, r1.rootId, r2.closed[k]);
  }

  lemma SameEpochComparable(plan: Plan, r1: Replica, r2: Replica)
    requires r1.closed == r2.closed && Comparable(r1.ledger, r2.ledger)
    ensures Comparable(WholeLedger(plan, r1), WholeLedger(plan, r2))
  {
    EffectiveComparable(plan, r1.ledger, r2.ledger);
    if Effective(plan, r1.ledger) <= Effective(plan, r2.ledger) {
      assert WholeLedger(plan, r1) <= WholeLedger(plan, r2);
    } else {
      assert WholeLedger(plan, r2) <= WholeLedger(plan, r1);
    }
  }

  lemma ContinuedLedger(plan: Plan, r1: Replica, r2: Replica)
    requires |r1.closed| < |r2.closed| && r1.closed == r2.closed[..|r1.closed|]
    requires Effective(plan, r1.ledger) <= r2.closed[|r1.closed|]
    ensures WholeLedger(plan, r1) <= WholeLedger(plan, r2)
  {
    var k := |r1.closed|;
    FlattenPrefix(r2.closed, k);
    PrefixChain(Flatten(r1.closed), Effective(plan, r1.ledger), r2.closed[k], Flatten(r2.closed), Effective(plan, r2.ledger));
  }

  lemma WholeLedgersComparable(plan: Plan, p: (nat, seq<HashValue>) -> bool, r1: Replica, r2: Replica)
    requires Functional(p) && Each(p, r1.closed) && Each(p, r2.closed) && |r1.closed| <= |r2.closed|
    requires |r1.closed| == |r2.closed| ==> Comparable(r1.ledger, r2.ledger)
    requires |r1.closed| < |r2.closed| ==> Effective(plan, r1.ledger) <= r2.closed[|r1.closed|]
    ensures Comparable(WholeLedger(plan, r1), WholeLedger(plan, r2))
  {
    EachAgree(p, r1.closed, r2.closed);
    if |r1.closed| == |r2.closed| {
      assert r2.closed[..|r1.closed|] == r2.closed;
      SameEpochComparable(plan, r1, r2);
    } else {
      ContinuedLedger(plan, r1, r2);
    }
  }

  /** Two replicas at one moment. */
  lemma ReplicasAgree(c: Config, plan: Plan, first: Epoch, s: State, r1: Replica, r2: Replica)
    requires Inv(c, s) && ResilientConfig(c) && WellPlanned(c, plan)
    requires ReplicaInv(c, plan, first, s, r1) && ReplicaInv(c, plan, first, s, r2) && r1.epoch <= r2.epoch
    ensures Comparable(WholeLedger(plan, r1), WholeLedger(plan, r2))
    ensures r1.epoch == r2.epoch ==> Comparable(r1.ledger, r2.ledger)
  {
    ProvenFunctional(c, plan, first, s);
    if r1.epoch == r2.epoch {
      ProvenRootsComparable(c, s, r1.epoch, plan.genesis(r1.epoch), r1.rootId, r2.rootId);
    } else {
      LaterEpochContains(c, plan, first, s, r1, r2);
    }
    WholeLedgersComparable(plan, ProvenAt(c, plan, first, s), r1, r2);
  }

  lemma PrefixChain(front: seq<HashValue>, a: seq<HashValue>, b: seq<HashValue>, whole: seq<HashValue>, more: seq<HashValue>)
    requires a <= b && front + b <= whole
    ensures front + a <= whole + more
  {
    assert front + a <= front + b;
  }

  /** In every run, whatever any two validators have committed, taken at any two moments and in whatever epochs
      they are, never diverges; within an epoch this holds block by block. */
  lemma LedgersNeverDiverge(c: Config, plan: Plan, first: Epoch, run: seq<System>, i: nat, j: nat, n: Author, m: Author)
    requires IsSystemRun(c, plan, first, run) && ResilientConfig(c)
    requires i < |run| && j < |run| && n in run[i].replicas && m in run[j].replicas
    ensures Comparable(WholeLedger(plan, run[i].replicas[n]), WholeLedger(plan, run[j].replicas[m]))
    ensures run[i].replicas[n].epoch == run[j].replicas[m].epoch ==>
              Comparable(run[i].replicas[n].ledger, run[j].replicas[m].ledger)
  {
    var last := |run| - 1;
    var s := run[last].net;
    SystemRunKeepsInv(c, plan, first, run, i, i);
    SystemRunKeepsInv(c, plan, first, run, j, j);
    SystemRunKeepsInv(c, plan, first, run, i, last);
    SystemRunKeepsInv(c, plan, first, run, j, last);
    var r1, r2 := run[i].replicas[n], run[j].replicas[m];
    ReplicaInvGrows(c, plan, first, run[i].net, s, r1);
    ReplicaInvGrows(c, plan, first, run[j].net, s, r2);
    if r1.epoch <= r2.epoch {
      ReplicasAgree(c, plan, first, s, r1, r2);
    } else {
      ReplicasAgree(c, plan, first, s, r2, r1);
    }
  }

  // --------------------------------------------- commits always find a path

  /** The block and its ancestors down to the root's round are stored, as they are from its insertion until it
      or one of them is pruned. */
  ghost predicate AncestorsStored(tree: Tree, id: HashValue, rootRound: Round)
    requires WellLinked(tree)
    decreases if id in tree then tree[id].round + 1 else 0
  {
    id in tree && (tree[id].round > rootRound ==> AncestorsStored(tree, tree[id].ParentId(), rootRound))
  }

  lemma {:induction false} ChainIsPath(c: Config, s: State, tree: Tree, a: BlockInfo, b: BlockInfo, path: seq<VoteData>)
    requires Inv(c, s) && ResilientConfig(c) && Chain(c, s, a, b, path) && a.round > 0
    requires GenuineTree(c, tree) && AncestorsStored(tree, b.id, a.round) && c.links(a.id).round == a.round
    ensures a.round <= b.round && Path(tree, b.id, a.id, a.round).Some?
    decreases |path|
  {
    assert Genuine(c, tree[b.id]);
    ChainAncestors(c, s, a, b, path);
    if path != [] {
      var vd := path[|path| - 1];
      CertifiedJustified(c, s, vd);
      ChainAncestors(c, s, a, vd.parent, path[..|path| - 1]);
      ChainIsPath(c, s, tree, a, vd.parent, path[..|path| - 1]);
    }
  }

  lemma {:induction false} StoredReachesGenesis(tree: Tree, genesisId: HashValue, id: HashValue)
    requires WellLinked(tree) && AncestorsStored(tree, id, 0)
    requires forall b :: b in tree && tree[b].round == 0 ==> b == genesisId
    ensures Path(tree, id, genesisId, 0).Some?
    decreases if id in tree then tree[id].round + 1 else 0
  {
    if tree[id].round > 0 {
      StoredReachesGenesis(tree, genesisId, tree[id].ParentId());
    }
  }

  /** From a committed block to any later certified block of the epoch there is a path in the tree. */
  lemma CertifiedBlockHasPath(c: Config, s: State, tree: Tree, li: LedgerInfo, q: set<Author>, vd: VoteData)
    requires Inv(c, s) && ResilientConfig(c) && CommitProof(c, s, li, q) && Certified(c, s, vd)
    requires li.consensusData.proposed.epoch == vd.proposed.epoch
    requires GenuineTree(c, tree) && li.commitInfo.id in tree
    requires AncestorsStored(tree, vd.proposed.id, tree[li.commitInfo.id].round)
    requires tree[li.commitInfo.id].round < tree[vd.proposed.id].round
    ensures Path(tree, vd.proposed.id, li.commitInfo.id, tree[li.commitInfo.id].round).Some?
  {
    var v1 := CommitProofCommits(c, s, li, q);
    CertifiedJustified(c, s, v1);
    CertifiedJustified(c, s, vd);
    assert Genuine(c, tree[li.commitInfo.id]) && Genuine(c, tree[vd.proposed.id]);
    CertifiedExtendsCommit(c, s, li.consensusData, vd);
    var path :| Chain(c, s, v1.proposed, vd.proposed, path);
    ChainIsPath(c, s, tree, v1.proposed, vd.proposed, path);
  }

  /** A proven root has a path to every stored committed block above it. */
  lemma ProvenCommitHasPath(c: Config, s: State, e: Epoch, genesisId: HashValue, tree: Tree, rootId: HashValue,
                            li: LedgerInfo, signers: set<Author>)
    requires Inv(c, s) && ResilientConfig(c) && c.links(genesisId).round == 0 && RootProven(c, s, e, genesisId, rootId)
    requires GenuineTree(c, tree) && rootId in tree && ProofInEpoch(c, s, e, li, signers)
    requires AncestorsStored(tree, li.commitInfo.id, tree[rootId].round)
    requires rootId == genesisId ==> forall b :: b in tree && tree[b].round == 0 ==> b == genesisId
    requires tree[li.commitInfo.id].round > tree[rootId].round
    ensures Path(tree, li.commitInfo.id, rootId, tree[rootId].round).Some?
  {
    assert Genuine(c, tree[rootId]);
    if rootId == genesisId {
      StoredReachesGenesis(tree, genesisId, li.commitInfo.id);
    } else {
      var l1, q1 :| ProofInEpoch(c, s, e, l1, q1) && l1.commitInfo.id == rootId;
      var v2 := CommitProofCommits(c, s, li, signers);
      CertifiedBlockHasPath(c, s, tree, l1, q1, v2);
    }
  }

  /** In every run the assertion inside commit never fails: a proven block that is stored with its ancestors
      descends from the validator's ordered root.  A tree has no block of round 0 but the first. */
  lemma CommitNeverInconsistent(c: Config, plan: Plan, first: Epoch, run: seq<System>, i: nat, n: Author, tree: Tree,
                                li: LedgerInfo, signers: set<Author>)
    requires IsSystemRun(c, plan, first, run) && ResilientConfig(c) && i < |run| && n in run[i].replicas
    requires GenuineTree(c, tree) && run[i].replicas[n].rootId in tree
    requires forall b :: b in tree && tree[b].round == 0 ==> b == plan.genesis(run[i].replicas[n].epoch)
    requires ProofInEpoch(c, run[i].net, run[i].replicas[n].epoch, li, signers)
    requires li.commitInfo.id in tree ==> AncestorsStored(tree, li.commitInfo.id, tree[run[i].replicas[n].rootId].round)
    ensures CommitOutcome(tree, run[i].replicas[n].rootId, li.commitInfo.id) != Inconsistent
  {
    SystemRunKeepsInv(c, plan, first, run, i, i);
    var r := run[i].replicas[n];
    assert ReplicaInv(c, plan, first, run[i].net, r);
    if li.commitInfo.id in tree && tree[li.commitInfo.id].round > tree[r.rootId].round {
      ProvenCommitHasPath(c, run[i].net, r.epoch, plan.genesis(r.epoch), tree, r.rootId, li, signers);
    }
  }
}
