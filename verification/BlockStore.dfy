/** The block tree of one validator: walking parent links down to the ordered root, and committing. */
module BlockStoreModel {
  import opened Common
  import opened ConsensusTypes

  type Tree = map<HashValue, Block>

  /** Blocks are filed under their own id and a stored parent is of an earlier round. */
  ghost predicate WellLinked(tree: Tree)
  {
    forall id :: id in tree ==>
      && tree[id].id == id
      && (tree[id].ParentId() in tree ==> tree[tree[id].ParentId()].round < tree[id].round)
  }

  /** `path` leads from just above the root to block `id`, every round above the root's. */
  ghost predicate IsPath(tree: Tree, id: HashValue, rootId: HashValue, rootRound: Round, path: seq<Block>)
    decreases |path|
  {
    && id in tree
    && if path == [] then id == rootId && tree[id].round <= rootRound
       else
         && path[|path| - 1] == tree[id] && tree[id].round > rootRound
         && IsPath(tree, tree[id].ParentId(), rootId, rootRound, path[..|path| - 1])
  }

  /** The path from the root to a block, if the block descends from the root. */
  function Path(tree: Tree, id: HashValue, rootId: HashValue, rootRound: Round): (r: Option<seq<Block>>)
    requires WellLinked(tree)
    decreases if id in tree then tree[id].round + 1 else 0
  {
    if id !in tree then None
    else if tree[id].round <= rootRound then (if id == rootId then Some([]) else None)
    else
      var below := Path(tree, tree[id].ParentId(), rootId, rootRound);
      if below.None? then None else Some(below.value + [tree[id]])
  }

  /** `Path` finds the path exactly when there is one, and there is at most one. */
  lemma {:induction false} PathExact(tree: Tree, id: HashValue, rootId: HashValue, rootRound: Round, path: seq<Block>)
    requires WellLinked(tree)
    ensures Path(tree, id, rootId, rootRound) == Some(path) <==> IsPath(tree, id, rootId, rootRound, path)
    decreases if id in tree then tree[id].round + 1 else 0
  {
    if id in tree && tree[id].round > rootRound {
      var parent := tree[id].ParentId();
      var below := Path(tree, parent, rootId, rootRound);
      if path != [] {
        PathExact(tree, parent, rootId, rootRound, path[..|path| - 1]);
        assert path == path[..|path| - 1] + [path[|path| - 1]];
      }
      if below.Some? {
        assert (below.value + [tree[id]])[..|below.value|] == below.value;
      }
    }
  }

  function Reversed<T>(s: seq<T>): (r: seq<T>)
  {
    seq(|s|, i requires 0 <= i < |s| => s[|s| - 1 - i])
  }

  function AppendTo(below: Option<seq<Block>>, above: seq<Block>): Option<seq<Block>>
  {
    if below.None? then None else Some(below.value + above)
  }

  lemma AppendToEmpty(below: Option<seq<Block>>)
    ensures AppendTo(below, []) == below
  {
    if below.Some? {
      assert below.value + [] == below.value;
    }
  }

  lemma AppendToAssociates(below: Option<seq<Block>>, b: Block, above: seq<Block>)
    ensures AppendTo(AppendTo(below, [b]), above) == AppendTo(below, [b] + above)
  {
    if below.Some? {
      assert below.value + [b] + above == below.value + ([b] + above);
    }
  }

  /** Collects blocks from `blockId` downwards until the root's round, then reverses them. */
  method PathFromRootToBlock(tree: Tree, blockId: HashValue, rootId: HashValue, rootRound: Round)
    returns (r: Option<seq<Block>>)
    requires WellLinked(tree)
    ensures r == Path(tree, blockId, rootId, rootRound)
  {
    var res := [];
    var cur := blockId;
    assert Reversed(res) == [];
    AppendToEmpty(Path(tree, blockId, rootId, rootRound));
    while true
      invariant Path(tree, blockId, rootId, rootRound)
             == AppendTo(Path(tree, cur, rootId, rootRound), Reversed(res))
      decreases if cur in tree then tree[cur].round + 1 else 0
    {
      if cur !in tree {
        return None;
      }
      var block := tree[cur];
      if block.round <= rootRound {
        break;
      }
      assert Reversed(res + [block]) == [block] + Reversed(res);
      AppendToAssociates(Path(tree, block.ParentId(), rootId, rootRound), block, Reversed(res));
      res := res + [block];
      cur := block.ParentId();
    }
    if cur != rootId {
      return None;
    }
    assert [] + Reversed(res) == Reversed(res);
    return Some(Reversed(res));
  }

  /** `Inconsistent` is the failed assertion that the block descends from the ordered root. */
  datatype CommitResult = Committed(blocks: seq<Block>) | BlockNotFound | StaleCommit | Inconsistent

  ghost function CommitOutcome(tree: Tree, rootId: HashValue, id: HashValue): CommitResult
    requires WellLinked(tree) && rootId in tree
  {
    if id !in tree then BlockNotFound
    else if tree[id].round <= tree[rootId].round then StaleCommit
    else
      var path := Path(tree, id, rootId, tree[rootId].round);
      if path.None? || path.value == [] then Inconsistent else Committed(path.value)
  }

  /** Where a path ends: at its last block, or at the root if it is empty. */
  function End(path: seq<Block>, rootId: HashValue): HashValue
  {
    if path == [] then rootId else path[|path| - 1].id
  }

  /** Block by block: `path` consists of stored blocks above the root's round, the first on top of the root, each other on
      top of the one before, and ends at `id`. */
  ghost predicate Linked(tree: Tree, id: HashValue, rootId: HashValue, rootRound: Round, path: seq<Block>)
  {
    && rootId in tree && tree[rootId].round <= rootRound && End(path, rootId) == id
    && forall i :: 0 <= i < |path| ==>
         && path[i].id in tree && tree[path[i].id] == path[i] && path[i].round > rootRound
         && path[i].ParentId() == End(path[..i], rootId)
  }

  lemma {:induction false} PathLinked(tree: Tree, id: HashValue, rootId: HashValue, rootRound: Round, path: seq<Block>)
    requires WellLinked(tree)
    ensures IsPath(tree, id, rootId, rootRound, path) <==> Linked(tree, id, rootId, rootRound, path)
    decreases |path|
  {
    if path != [] {
      var n := |path| - 1;
      var front := path[..n];
      if id in tree {
        PathLinked(tree, tree[id].ParentId(), rootId, rootRound, front);
      }
      assert forall i :: 0 <= i < n ==> front[i] == path[i] && front[..i] == path[..i];
      assert Linked(tree, id, rootId, rootRound, path) ==> path[n].id == id;
    }
  }

  /** Every commit request gets the one right answer: unknown, not above the root, the blocks of the one chain from the root
      up to it, or inconsistent if there is none. */
  lemma CommitExactly(tree: Tree, rootId: HashValue, id: HashValue)
    requires WellLinked(tree) && rootId in tree
    ensures var r, above := CommitOutcome(tree, rootId, id), id in tree && tree[id].round > tree[rootId].round;
            && (r == BlockNotFound <==> id !in tree)
            && (r == StaleCommit <==> id in tree && !above)
            && (forall path :: r == Committed(path) <==> above && Linked(tree, id, rootId, tree[rootId].round, path))
            && (r == Inconsistent <==> above && forall path :: !Linked(tree, id, rootId, tree[rootId].round, path))
  {
    var r, rootRound := CommitOutcome(tree, rootId, id), tree[rootId].round;
    forall path
      ensures Path(tree, id, rootId, rootRound) == Some(path) <==> Linked(tree, id, rootId, rootRound, path)
    {
      PathExact(tree, id, rootId, rootRound, path);
      PathLinked(tree, id, rootId, rootRound, path);
    }
    if Path(tree, id, rootId, rootRound).Some? {
      assert Linked(tree, id, rootId, rootRound, Path(tree, id, rootId, rootRound).value);
    }
  }

  class BlockStore {
    var tree: Tree
    var orderedRootId: HashValue
    /** Ids of the blocks handed to execution, in order. */
    var ordered: seq<HashValue>

    ghost predicate Valid()
      reads this
    {
      WellLinked(tree) && orderedRootId in tree
    }

    constructor (root: Block)
      requires root.ParentId() != root.id
      ensures Valid() && tree == map[root.id := root] && orderedRootId == root.id && ordered == []
    {
      tree := map[root.id := root];
      orderedRootId := root.id;
      ordered := [];
    }

    /** Hand over the blocks between the ordered root and the committed block, and move the root. */
    method Commit(blockId: HashValue) returns (r: CommitResult)
      requires Valid()
      modifies this`orderedRootId, this`ordered
      ensures Valid()
      ensures r == CommitOutcome(tree, old(orderedRootId), blockId)
      ensures r.Committed? ==> orderedRootId == blockId && ordered == old(ordered) + Ids(r.blocks)
      ensures !r.Committed? ==> orderedRootId == old(orderedRootId) && ordered == old(ordered)
    {
      if blockId !in tree {
        return BlockNotFound;
      }
      if tree[blockId].round <= tree[orderedRootId].round {
        return StaleCommit;
      }
      var path := PathFromRootToBlock(tree, blockId, orderedRootId, tree[orderedRootId].round);
      if path.None? || path.value == [] {
        return Inconsistent;
      }
      ordered := ordered + Ids(path.value);
      orderedRootId := blockId;
      return Committed(path.value);
    }
  }

  function Ids(blocks: seq<Block>): (ids: seq<HashValue>)
    ensures |ids| == |blocks| && forall i :: 0 <= i < |blocks| ==> ids[i] == blocks[i].id
  {
    seq(|blocks|, i requires 0 <= i < |blocks| => blocks[i].id)
  }
}
