/** Handing ordered blocks to the executor: what was executed for a block is what is committed for it. */
module StateComputer {
  import opened Common
  import opened ConsensusTypes
  import opened PayloadModel

  datatype Transaction = BlockMetadata(block: HashValue) | UserTransaction(txn: Txn) | StateCheckpoint(id: HashValue)

  datatype TransactionStatus = Keep | Discard | Retry

  /** Transactions with the hints that go with them: an estimate of each one's gas, and for each one the positions
      of those it depends on. */
  datatype Register<+T> = Register(txns: seq<T>, gasEstimates: seq<nat>, dependencies: seq<seq<nat>>)

  datatype Payload = NoPayload | DirectMempool(register: Register<Txn>) | InQuorumStore(data: ProofWithStatus)

  datatype Block = Block(id: HashValue, parentId: HashValue, epoch: Epoch, round: Round, payload: Payload)
  {
    function Time(): LogicalTime { LogicalTime(epoch, round) }

    function Cell(): set<ProofWithStatus> { if payload.InQuorumStore? then {payload.data} else {} }

    /** The signed transactions the block stands for. */
    ghost function Transactions(batches: Batches): seq<Txn>
    {
      match payload
      case NoPayload => []
      case DirectMempool(register) => register.txns
      case InQuorumStore(data) => Expected(batches, Time(), data.proofs)
    }

    ghost predicate Settled(batches: Batches)
      reads Cell()
    {
      payload.InQuorumStore? ==> PayloadModel.Settled(batches, Time(), payload.data.proofs, payload.data.status)
    }

    ghost predicate Fetched()
      reads Cell()
    {
      payload.InQuorumStore? ==> payload.data.status.Some? && payload.data.status.value.Cached?
    }

    /** The block's data is there already, or arrives now. */
    ghost predicate AtHand(replies: seq<Reply>)
      reads Cell()
    {
      Fetched() || AllDelivered(Time(), payload.data.proofs, replies)
    }

    /** A payload of the configured kind. */
    predicate KindMatches(quorumStore: bool)
    {
      (payload.DirectMempool? ==> !quorumStore) && (payload.InQuorumStore? ==> quorumStore)
    }
  }

  datatype ComputeResult = ComputeResult(computeStatus: seq<TransactionStatus>, hasReconfiguration: bool)
  {
    predicate IsReconfigurationSuffix() { hasReconfiguration && computeStatus == [] }
  }

  /** An ordered block together with the execution result it carries. */
  datatype ExecutedBlock = ExecutedBlock(block: Block, result: ComputeResult)

  /** Execution of a block's transactions on its parent's state, `None` on an error. */
  type Executor = (HashValue, HashValue, Register<Transaction>) -> Option<ComputeResult>

  /** The executor gives each transaction a status, or none to a block that follows a reconfiguration. */
  ghost predicate StatusPerTransaction(execute: Executor)
  {
    forall id, parent, register :: execute(id, parent, register).Some? ==>
      var r := execute(id, parent, register).value;
      r.IsReconfigurationSuffix() || |r.computeStatus| == |register.txns|
  }

  function UserTransactions(txns: seq<Txn>): seq<Transaction>
  {
    seq(|txns|, i requires 0 <= i < |txns| => UserTransaction(txns[i]))
  }

  /** The hints a payload comes with: none unless it carries its transactions itself. */
  function Hints(payload: Payload): Register<Txn>
  {
    if payload.DirectMempool? then payload.register else Register([], [], [])
  }

  /** One more transaction in front, which everything depends on. */
  function Shifted(dependencies: seq<seq<nat>>): seq<seq<nat>>
  {
    seq(|dependencies|, i requires 0 <= i < |dependencies| =>
      seq(|dependencies[i]|, j requires 0 <= j < |dependencies[i]| => dependencies[i][j] + 1) + [0])
  }

  /** What the executor is handed for a block. */
  function ToExecute(block: Block, txns: seq<Txn>): Register<Transaction>
  {
    var hints := Hints(block.payload);
    Register(
      [BlockMetadata(block.id)] + UserTransactions(txns) + [StateCheckpoint(block.id)],
      [10] + hints.gasEstimates + [10],
      [[]] + Shifted(hints.dependencies) + [[0]])
  }

  /** The register, position by position: the block's metadata first, its transactions, a checkpoint last; everything in
      between depends on the metadata and, one further on, on what it depended on before. */
  lemma RegisterExactly(block: Block, txns: seq<Txn>)
    ensures var r, hints, n := ToExecute(block, txns), Hints(block.payload), |txns|;
            && |r.txns| == n + 2 && r.txns[0] == BlockMetadata(block.id) && r.txns[n + 1] == StateCheckpoint(block.id)
            && (forall i :: 0 <= i < n ==> r.txns[i + 1] == UserTransaction(txns[i]))
            && |r.gasEstimates| == |hints.gasEstimates| + 2 && r.gasEstimates[0] == r.gasEstimates[|hints.gasEstimates| + 1] == 10
            && (forall i :: 0 <= i < |hints.gasEstimates| ==> r.gasEstimates[i + 1] == hints.gasEstimates[i])
            && |r.dependencies| == |hints.dependencies| + 2 && r.dependencies[0] == [] && r.dependencies[|hints.dependencies| + 1] == [0]
            && (forall i :: 0 <= i < |hints.dependencies| ==> OneFurther(hints.dependencies[i], r.dependencies[i + 1]))
    ensures block.payload.DirectMempool? ==> Hints(block.payload) == block.payload.register
    ensures !block.payload.DirectMempool? ==> Hints(block.payload) == Register([], [], [])
  {
    var r, hints := ToExecute(block, txns), Hints(block.payload);
    forall i | 0 <= i < |hints.dependencies|
      ensures OneFurther(hints.dependencies[i], r.dependencies[i + 1])
    {
      ShiftedExactly(hints.dependencies, i);
    }
  }

  /** The dependencies `before`, each one position further on, and the very first transaction. */
  ghost predicate OneFurther(before: seq<nat>, after: seq<nat>)
  {
    forall k: nat :: k in after <==> k == 0 || k - 1 in before
  }

  lemma ShiftedExactly(dependencies: seq<seq<nat>>, i: nat)
    requires i < |dependencies|
    ensures OneFurther(dependencies[i], Shifted(dependencies)[i])
  {
    var before, after := dependencies[i], Shifted(dependencies)[i];
    forall k: nat
      ensures k in after <==> k == 0 || k - 1 in before
    {
      assert after[|before|] == 0;
      if k > 0 && k - 1 in before {
        var j :| 0 <= j < |before| && before[j] == k - 1;
        assert after[j] == k;
      }
    }
  }

  /** Every transaction has its hints. */
  predicate Aligned<T>(r: Register<T>)
  {
    |r.gasEstimates| == |r.txns| && |r.dependencies| == |r.txns|
  }

  /** Transactions depend on earlier ones only. */
  ghost predicate DependsBackwards(dependencies: seq<seq<nat>>)
  {
    forall i, k :: 0 <= i < |dependencies| && k in dependencies[i] ==> k < i
  }

  /** For a payload that carries its transactions the hints stay aligned, and dependencies stay well founded;
      every other transaction then depends on the block metadata. */
  lemma DirectRegister(block: Block)
    requires block.payload.DirectMempool?
    ensures var hints, r := block.payload.register, ToExecute(block, block.payload.register.txns);
            && (Aligned(r) <==> Aligned(hints))
            && (DependsBackwards(hints.dependencies) ==> DependsBackwards(r.dependencies))
            && (forall i :: 0 < i < |r.dependencies| ==> 0 in r.dependencies[i])
  {
    var hints, r := block.payload.register, ToExecute(block, block.payload.register.txns);
    var d := r.dependencies;
    forall i | 0 < i < |d|
      ensures 0 in d[i]
    {
      assert d[i][|d[i]| - 1] == 0;
    }
    if DependsBackwards(hints.dependencies) {
      forall i, k | 0 <= i < |d| && k in d[i]
        ensures k < i
      {
        if 0 < i < |d| - 1 && k != 0 {
          var j :| 0 <= j < |d[i]| && d[i][j] == k;
          assert hints.dependencies[i - 1][j] in hints.dependencies[i - 1];
        }
      }
    }
  }

  /** For a quorum store payload the register has two hints, whatever the transactions: it is aligned if and only
      if there are none. */
  lemma QuorumStoreRegisterExactly(block: Block, txns: seq<Txn>)
    requires !block.payload.DirectMempool?
    ensures |ToExecute(block, txns).gasEstimates| == |ToExecute(block, txns).dependencies| == 2
    ensures Aligned(ToExecute(block, txns)) <==> txns == []
  {
  }

  function KeepOnly(txns: seq<Transaction>, statuses: seq<TransactionStatus>): seq<Transaction>
    requires |txns| == |statuses|
  {
    if txns == [] then []
    else
      var n := |txns| - 1;
      KeepOnly(txns[..n], statuses[..n]) + if statuses[n].Keep? then [txns[n]] else []
  }

  lemma KeepOnlyOne(txn: Transaction, status: TransactionStatus)
    ensures KeepOnly([txn], [status]) == if status == Keep then [txn] else []
  {
    assert [txn][..0] == [] && [status][..0] == [];
  }

  /** What is kept of a list is what is kept of its parts, in order. */
  lemma {:induction false} KeepOnlySplit(txns1: seq<Transaction>, statuses1: seq<TransactionStatus>,
                                         txns2: seq<Transaction>, statuses2: seq<TransactionStatus>)
    requires |txns1| == |statuses1| && |txns2| == |statuses2|
    ensures KeepOnly(txns1 + txns2, statuses1 + statuses2) == KeepOnly(txns1, statuses1) + KeepOnly(txns2, statuses2)
    decreases |txns2|
  {
    if txns2 == [] {
      assert txns1 + txns2 == txns1 && statuses1 + statuses2 == statuses1;
    } else {
      var n := |txns2| - 1;
      KeepOnlySplit(txns1, statuses1, txns2[..n], statuses2[..n]);
      assert (txns1 + txns2)[..|txns1| + n] == txns1 + txns2[..n];
      assert (statuses1 + statuses2)[..|txns1| + n] == statuses1 + statuses2[..n];
    }
  }

  /** Pairing statuses with a list of another length would panic. */
  predicate StatusesMatch(b: ExecutedBlock, txns: seq<Txn>)
  {
    b.result.IsReconfigurationSuffix() || |b.result.computeStatus| == |ToExecute(b.block, txns).txns|
  }

  function ToCommit(b: ExecutedBlock, txns: seq<Txn>): seq<Transaction>
    requires StatusesMatch(b, txns)
  {
    if b.result.IsReconfigurationSuffix() then [] else KeepOnly(ToExecute(b.block, txns).txns, b.result.computeStatus)
  }

  /** The result is that of executing exactly the transactions the block stands for. */
  ghost predicate Executed(batches: Batches, execute: Executor, b: ExecutedBlock)
  {
    Some(b.result) == execute(b.block.id, b.block.parentId, ToExecute(b.block, b.block.Transactions(batches)))
  }

  ghost predicate Executes(batches: Batches, execute: Executor, block: Block)
  {
    execute(block.id, block.parentId, ToExecute(block, block.Transactions(batches))).Some?
  }

  lemma ExecutedMatches(batches: Batches, execute: Executor, b: ExecutedBlock)
    requires StatusPerTransaction(execute) && Executed(batches, execute, b)
    ensures StatusesMatch(b, b.block.Transactions(batches))
  {
  }

  ghost predicate AllExecuted(batches: Batches, execute: Executor, blocks: seq<ExecutedBlock>)
  {
    StatusPerTransaction(execute) && forall i :: 0 <= i < |blocks| ==> Executed(batches, execute, blocks[i])
  }

  /** What execution kept of every block's transactions, in block order. */
  ghost function AllToCommit(batches: Batches, execute: Executor, blocks: seq<ExecutedBlock>): seq<Transaction>
    requires AllExecuted(batches, execute, blocks)
  {
    if blocks == [] then []
    else
      var b := blocks[|blocks| - 1];
      ExecutedMatches(batches, execute, b);
      AllToCommit(batches, execute, blocks[..|blocks| - 1]) + ToCommit(b, b.block.Transactions(batches))
  }

  function Digests(proofs: seq<ProofOfStore>): seq<HashValue>
  {
    seq(|proofs|, i requires 0 <= i < |proofs| => proofs[i].digest)
  }

  function AllDigests(blocks: seq<ExecutedBlock>): seq<HashValue>
  {
    if blocks == [] then []
    else
      var b := blocks[|blocks| - 1];
      AllDigests(blocks[..|blocks| - 1]) + if b.block.payload.InQuorumStore? then Digests(b.block.payload.data.proofs) else []
  }

  function Ids(blocks: seq<ExecutedBlock>): (ids: seq<HashValue>)
    ensures |ids| == |blocks| && forall i :: 0 <= i < |blocks| ==> ids[i] == blocks[i].block.id
  {
    seq(|blocks|, i requires 0 <= i < |blocks| => blocks[i].block.id)
  }

  /** Each block owns its payload. */
  predicate OwnPayloads(blocks: seq<ExecutedBlock>)
  {
    forall i, j :: 0 <= i < j < |blocks| ==> blocks[i].block.Cell() !! blocks[j].block.Cell()
  }

  function Cells(blocks: seq<ExecutedBlock>): set<ProofWithStatus>
  {
    set i, c | 0 <= i < |blocks| && c in blocks[i].block.Cell() :: c
  }

  datatype Notice = Notice(time: LogicalTime, digests: seq<HashValue>)

  /** The time told to the quorum store covers every committed block. */
  predicate Covers(time: LogicalTime, blocks: seq<ExecutedBlock>)
  {
    forall i :: 0 <= i < |blocks| ==> blocks[i].block.Time().Le(time)
  }

  predicate OneEpochIncreasing(blocks: seq<ExecutedBlock>)
  {
    forall i, j :: 0 <= i < j < |blocks| ==> blocks[i].block.epoch == blocks[j].block.epoch && blocks[i].block.round < blocks[j].block.round
  }

  /** Componentwise maximum, as the commit loop accumulates it. */
  function LatestTime(blocks: seq<ExecutedBlock>): LogicalTime
  {
    if blocks == [] then LogicalTime(0, 0)
    else
      var t, b := LatestTime(blocks[..|blocks| - 1]), blocks[|blocks| - 1];
      LogicalTime(Max(t.epoch, b.block.epoch), Max(t.round, b.block.round))
  }

  /** The accumulated time is the last block's exactly when that block has the largest epoch and the largest
      round of all; it covers every block in any case. */
  lemma {:induction false} LatestTimeExact(blocks: seq<ExecutedBlock>)
    ensures Covers(LatestTime(blocks), blocks)
    ensures forall i :: 0 <= i < |blocks| ==> blocks[i].block.epoch <= LatestTime(blocks).epoch && blocks[i].block.round <= LatestTime(blocks).round
    ensures blocks != [] ==> exists i, j :: 0 <= i < |blocks| && 0 <= j < |blocks|
                               && LatestTime(blocks) == LogicalTime(blocks[i].block.epoch, blocks[j].block.round)
    ensures blocks != [] ==>
              var last := blocks[|blocks| - 1];
              (LatestTime(blocks) == last.block.Time() <==>
                (forall i :: 0 <= i < |blocks| ==> blocks[i].block.epoch <= last.block.epoch && blocks[i].block.round <= last.block.round))
  {
    if blocks != [] {
      var before := blocks[..|blocks| - 1];
      LatestTimeExact(before);
      assert forall i :: 0 <= i < |before| ==> blocks[i] == before[i];
      if before != [] {
        var i, j :| 0 <= i < |before| && 0 <= j < |before| && LatestTime(before) == LogicalTime(before[i].block.epoch, before[j].block.round);
        var t, last := LatestTime(before), |blocks| - 1;
        var i' := if t.epoch < blocks[last].block.epoch then last else i;
        var j' := if t.round < blocks[last].block.round then last else j;
        assert LatestTime(blocks) == LogicalTime(blocks[i'].block.epoch, blocks[j'].block.round);
      } else {
        assert LatestTime(blocks) == LogicalTime(blocks[0].block.epoch, blocks[0].block.round);
      }
    }
  }

  lemma LatestTimeIsLast(blocks: seq<ExecutedBlock>)
    requires blocks != [] && OneEpochIncreasing(blocks)
    ensures LatestTime(blocks) == blocks[|blocks| - 1].block.Time()
  {
    LatestTimeExact(blocks);
  }

  datatype Gathered = Gathered(blockIds: seq<HashValue>, txns: seq<Transaction>, latest: LogicalTime, digests: seq<HashValue>)

  ghost function Whole(batches: Batches, execute: Executor, blocks: seq<ExecutedBlock>): Gathered
    requires AllExecuted(batches, execute, blocks)
  {
    Gathered(Ids(blocks), AllToCommit(batches, execute, blocks), LatestTime(blocks), AllDigests(blocks))
  }

  lemma WholeStep(batches: Batches, execute: Executor, blocks: seq<ExecutedBlock>, i: nat)
    requires i < |blocks| && AllExecuted(batches, execute, blocks)
    ensures StatusesMatch(blocks[i], blocks[i].block.Transactions(batches))
    ensures var g, b := Whole(batches, execute, blocks[..i]), blocks[i];
            Whole(batches, execute, blocks[..i + 1]) == Gathered(
              g.blockIds + [b.block.id],
              g.txns + ToCommit(b, b.block.Transactions(batches)),
              LogicalTime(Max(g.latest.epoch, b.block.epoch), Max(g.latest.round, b.block.round)),
              g.digests + if b.block.payload.InQuorumStore? then Digests(b.block.payload.data.proofs) else [])
  {
    ExecutedMatches(batches, execute, blocks[i]);
    assert blocks[..i + 1][..i] == blocks[..i];
  }

  /** Nothing is kept of a reconfiguration suffix, and of any other block what has the status to keep. */
  lemma ToCommitExactly(b: ExecutedBlock, txns: seq<Txn>)
    requires StatusesMatch(b, txns)
    ensures b.result.hasReconfiguration && b.result.computeStatus == [] ==> ToCommit(b, txns) == []
    ensures !(b.result.hasReconfiguration && b.result.computeStatus == []) ==>
              var all := ToExecute(b.block, txns).txns;
              |b.result.computeStatus| == |all| && ToCommit(b, txns) == KeepOnly(all, b.result.computeStatus)
  {
  }

  /** One more block reports what is kept of it, after everything before. */
  lemma AllToCommitSnoc(batches: Batches, execute: Executor, front: seq<ExecutedBlock>, last: ExecutedBlock)
    requires AllExecuted(batches, execute, front + [last]) && AllExecuted(batches, execute, front)
    requires StatusesMatch(last, last.block.Transactions(batches))
    ensures AllToCommit(batches, execute, front + [last]) ==
            AllToCommit(batches, execute, front) + ToCommit(last, last.block.Transactions(batches))
  {
    assert (front + [last])[..|front|] == front;
  }

  /** A block's digests are those of all its proofs, expired ones included ... */
  lemma AllDigestsOne(b: ExecutedBlock)
    ensures !b.block.payload.InQuorumStore? ==> AllDigests([b]) == []
    ensures b.block.payload.InQuorumStore? ==>
              && |AllDigests([b])| == |b.block.payload.data.proofs|
              && forall i :: 0 <= i < |AllDigests([b])| ==> AllDigests([b])[i] == b.block.payload.data.proofs[i].digest
  {
    assert [b][..0] == [];
  }

  lemma AllDigestsSnoc(front: seq<ExecutedBlock>, last: ExecutedBlock)
    ensures AllDigests(front + [last]) == AllDigests(front) + AllDigests([last])
  {
    assert (front + [last])[..|front|] == front && [last][..0] == [];
  }

  /** ... and those of a list of blocks follow one another in block order. */
  lemma {:induction false} AllDigestsSplit(front: seq<ExecutedBlock>, back: seq<ExecutedBlock>)
    ensures AllDigests(front + back) == AllDigests(front) + AllDigests(back)
    decreases |back|
  {
    if back == [] {
      assert front + back == front;
    } else {
      var rest, last := back[..|back| - 1], back[|back| - 1];
      assert back == rest + [last] && front + back == front + rest + [last];
      AllDigestsSplit(front, rest);
      AllDigestsSnoc(rest, last);
      AllDigestsSnoc(front + rest, last);
    }
  }

  ghost predicate Answered(batches: Batches, block: Block, replies: seq<Reply>)
  {
    block.payload.InQuorumStore? ==> Genuine(batches, Unexpired(block.Time(), block.payload.data.proofs), replies)
  }

  function CellsOf(blocks: seq<Block>): set<ProofWithStatus>
  {
    set i, c | 0 <= i < |blocks| && c in blocks[i].Cell() :: c
  }

  class ExecutionProxy {
    const quorumStore: bool
    const execute: Executor
    var committed: seq<seq<HashValue>>      // block lists committed by the executor
    var synced: seq<seq<Transaction>>       // transactions reported to state sync
    var notices: seq<Notice>                // commit notifications to the quorum store

    constructor (quorumStore: bool, execute: Executor)
      ensures this.quorumStore == quorumStore && this.execute == execute
      ensures committed == [] && synced == [] && notices == []
    {
      this.quorumStore, this.execute := quorumStore, execute;
      committed, synced, notices := [], [], [];
    }

    method GetTransactions(block: Block, replies: seq<Reply>, ghost batches: Batches) returns (r: Outcome<seq<Txn>>)
      requires block.KindMatches(quorumStore) && block.Settled(batches) && Answered(batches, block, replies)
      modifies block.Cell()
      ensures block.Settled(batches) && r != Panicked
      ensures r.Success? ==> r.value == block.Transactions(batches)
      ensures r.Success? <==> old(block.AtHand(replies))
      ensures r.Success? <==> block.Fetched()
      ensures r.Failure? ==> block.payload.InQuorumStore? && FirstMissing(block.Time(), block.payload.data.proofs, replies, r.error)
    {
      match block.payload
      case NoPayload => return Success([]);
      case DirectMempool(register) => return Success(register.txns);
      case InQuorumStore(data) =>
        CallSettles(batches, block.Time(), data.proofs, data.status, Get(replies));
        ReadExactly(batches, block.Time(), data.proofs, data.status, replies);
        r := data.GetTransactions(block.Time(), replies);
    }

    /** Execute a block on the transactions it stands for; once this succeeded its data is at hand for good. */
    method Compute(block: Block, replies: seq<Reply>, ghost batches: Batches) returns (r: Outcome<ComputeResult>)
      requires block.KindMatches(quorumStore) && block.Settled(batches) && Answered(batches, block, replies)
      modifies block.Cell()
      ensures block.Settled(batches) && r != Panicked
      ensures r.Success? ==> Executed(batches, execute, ExecutedBlock(block, r.value)) && block.Fetched()
      ensures r.Success? <==> old(block.AtHand(replies)) && Executes(batches, execute, block)
    {
      var txns := GetTransactions(block, replies, batches);
      if !txns.Success? {
        return Failure(txns.error);
      }
      var result := execute(block.id, block.parentId, ToExecute(block, txns.value));
      return if result.None? then Failure(ExecutorError) else Success(result.value);
    }

    /** Executing one block leaves the others as they were. */
    method ComputeAt(blocks: seq<Block>, i: nat, replies: seq<Reply>, ghost batches: Batches) returns (r: Outcome<ComputeResult>)
      requires i < |blocks| && blocks[i].KindMatches(quorumStore) && Answered(batches, blocks[i], replies)
      requires forall j, k :: 0 <= j < k < |blocks| ==> blocks[j].Cell() !! blocks[k].Cell()
      requires forall j :: 0 <= j < |blocks| ==> blocks[j].Settled(batches)
      modifies blocks[i].Cell()
      ensures forall j :: 0 <= j < |blocks| ==> blocks[j].Settled(batches)
      ensures forall j :: 0 <= j < |blocks| && j != i ==> blocks[j].Fetched() == old(blocks[j].Fetched())
      ensures r != Panicked
      ensures r.Success? ==> Executed(batches, execute, ExecutedBlock(blocks[i], r.value)) && blocks[i].Fetched()
      ensures r.Success? <==> old(blocks[i].AtHand(replies)) && Executes(batches, execute, blocks[i])
    {
      r := Compute(blocks[i], replies, batches);
      assert forall j :: 0 <= j < |blocks| && j != i ==> blocks[j].Cell() !! blocks[i].Cell();
    }

    /** The execution phase: execute a batch of ordered blocks, or stop at the first error. */
    method ExecuteAll(blocks: seq<Block>, replies: seq<seq<Reply>>, ghost batches: Batches)
      returns (r: Outcome<seq<ExecutedBlock>>)
      requires |replies| == |blocks| && forall i, j :: 0 <= i < j < |blocks| ==> blocks[i].Cell() !! blocks[j].Cell()
      requires forall i :: 0 <= i < |blocks| ==> blocks[i].KindMatches(quorumStore) && blocks[i].Settled(batches)
      requires forall i :: 0 <= i < |blocks| ==> Answered(batches, blocks[i], replies[i])
      modifies CellsOf(blocks)
      ensures forall i :: 0 <= i < |blocks| ==> blocks[i].Settled(batches)
      ensures r != Panicked
      ensures r.Success? ==> |r.value| == |blocks|
      ensures r.Success? <==>
              blocks != [] && forall i :: 0 <= i < |blocks| ==> old(blocks[i].AtHand(replies[i])) && Executes(batches, execute, blocks[i])
      ensures r.Success? ==> forall i :: 0 <= i < |blocks| ==>
                r.value[i].block == blocks[i] && Executed(batches, execute, r.value[i]) && blocks[i].Fetched()
    {
      if blocks == [] {
        return Failure(EmptyBlocks);
      }
      var done: seq<ExecutedBlock> := [];
      for i := 0 to |blocks|
        invariant |done| == i
        invariant forall j :: 0 <= j < |blocks| ==> blocks[j].Settled(batches)
        invariant forall j :: 0 <= j < i ==> done[j].block == blocks[j] && Executed(batches, execute, done[j])
        invariant forall j :: 0 <= j < i ==> blocks[j].Fetched()
        invariant forall j :: 0 <= j < i ==> old(blocks[j].AtHand(replies[j])) && Executes(batches, execute, blocks[j])
        invariant forall j :: i <= j < |blocks| ==> blocks[j].Fetched() == old(blocks[j].Fetched())
      {
        var block := blocks[i];
        assert forall c :: c in block.Cell() ==> c in CellsOf(blocks);
        var result := ComputeAt(blocks, i, replies[i], batches);
        if !result.Success? {
          return Failure(result.error);
        }
        done := done + [ExecutedBlock(block, result.value)];
      }
      return Success(done);
    }

    /** Fetching for one block leaves the others as they were. */
    method GetTransactionsAt(blocks: seq<ExecutedBlock>, i: nat, replies: seq<Reply>, ghost batches: Batches)
      returns (r: Outcome<seq<Txn>>)
      requires i < |blocks| && OwnPayloads(blocks) && blocks[i].block.KindMatches(quorumStore)
      requires Answered(batches, blocks[i].block, replies)
      requires forall j :: 0 <= j < |blocks| ==> blocks[j].block.Settled(batches)
      modifies blocks[i].block.Cell()
      ensures forall j :: 0 <= j < |blocks| ==> blocks[j].block.Settled(batches)
      ensures forall j :: 0 <= j < |blocks| && j != i ==> blocks[j].block.Fetched() == old(blocks[j].block.Fetched())
      ensures r != Panicked && (r.Success? ==> r.value == blocks[i].block.Transactions(batches))
      ensures r.Success? <==> old(blocks[i].block.AtHand(replies))
    {
      r := GetTransactions(blocks[i].block, replies, batches);
      assert forall j :: 0 <= j < |blocks| && j != i ==> blocks[j].block.Cell() !! blocks[i].block.Cell();
    }

    /** The commit loop: ids, kept transactions, time and digests, block by block in order. */
    method Gather(blocks: seq<ExecutedBlock>, replies: seq<seq<Reply>>, ghost batches: Batches) returns (r: Outcome<Gathered>)
      requires |replies| == |blocks| && OwnPayloads(blocks) && AllExecuted(batches, execute, blocks)
      requires forall i :: 0 <= i < |blocks| ==> blocks[i].block.KindMatches(quorumStore) && blocks[i].block.Settled(batches)
      requires forall i :: 0 <= i < |blocks| ==> Answered(batches, blocks[i].block, replies[i])
      modifies Cells(blocks)
      ensures forall i :: 0 <= i < |blocks| ==> blocks[i].block.Settled(batches)
      ensures r != Panicked && (r.Success? <==> forall i :: 0 <= i < |blocks| ==> old(blocks[i].block.AtHand(replies[i])))
      ensures r.Success? ==> r.value == Whole(batches, execute, blocks)
    {
      var g := Gathered([], [], LogicalTime(0, 0), []);
      for i := 0 to |blocks|
        invariant g == Whole(batches, execute, blocks[..i])
        invariant forall j :: 0 <= j < |blocks| ==> blocks[j].block.Settled(batches)
        invariant forall j :: i <= j < |blocks| ==> blocks[j].block.Fetched() == old(blocks[j].block.Fetched())
        invariant forall j :: 0 <= j < i ==> old(blocks[j].block.AtHand(replies[j]))
      {
        var block := blocks[i].block;
        assert forall c :: c in block.Cell() ==> c in Cells(blocks);
        var signed := GetTransactionsAt(blocks, i, replies[i], batches);
        if !signed.Success? {
          return Failure(signed.error);
        }
        WholeStep(batches, execute, blocks, i);
        g := Gathered(
          g.blockIds + [block.id],
          g.txns + ToCommit(blocks[i], signed.value),
          LogicalTime(Max(g.latest.epoch, block.epoch), Max(g.latest.round, block.round)),
          g.digests + if block.payload.InQuorumStore? then Digests(block.payload.data.proofs) else []);
      }
      assert blocks[..|blocks|] == blocks;
      return Success(g);
    }

    /** Commit reports, block by block in order, what execution kept of the very transactions it ran, and
        tells the quorum store a time no committed block exceeds.  Nothing is committed on an error, and
        there is none when execution has fetched every block's data. */
    method Commit(blocks: seq<ExecutedBlock>, replies: seq<seq<Reply>>, ghost batches: Batches) returns (r: Outcome<()>)
      requires |replies| == |blocks| && OwnPayloads(blocks) && AllExecuted(batches, execute, blocks)
      requires forall i :: 0 <= i < |blocks| ==> blocks[i].block.KindMatches(quorumStore) && blocks[i].block.Settled(batches)
      requires forall i :: 0 <= i < |blocks| ==> Answered(batches, blocks[i].block, replies[i])
      modifies this, Cells(blocks)
      ensures forall i :: 0 <= i < |blocks| ==> blocks[i].block.Settled(batches)
      ensures r != Panicked && (r.Success? <==> forall i :: 0 <= i < |blocks| ==> old(blocks[i].block.AtHand(replies[i])))
      ensures !r.Success? ==> committed == old(committed) && synced == old(synced) && notices == old(notices)
      ensures r.Success? ==> committed == old(committed) + [Ids(blocks)]
      ensures r.Success? ==> synced == old(synced) + [AllToCommit(batches, execute, blocks)]
      ensures r.Success? && (blocks == [] || !quorumStore) ==> notices == old(notices)
      ensures r.Success? && blocks != [] && quorumStore ==> notices == old(notices) + [Notice(LatestTime(blocks), AllDigests(blocks))]
    {
      var gathered := Gather(blocks, replies, batches);
      if !gathered.Success? {
        return Failure(gathered.error);
      }
      var g := gathered.value;
      committed := committed + [g.blockIds];
      synced := synced + [g.txns];
      if blocks != [] && quorumStore {
        notices := notices + [Notice(g.latest, g.digests)];
      }
      return Success(());
    }

    /** Execution phase, then persisting phase: a batch that got through execution is committed without an
        error or a panic, whatever the network answers meanwhile. */
    method ExecuteAndPersist(blocks: seq<Block>, replies: seq<seq<Reply>>, later: seq<seq<Reply>>, ghost batches: Batches)
      returns (executed: Outcome<seq<ExecutedBlock>>, r: Outcome<()>)
      requires StatusPerTransaction(execute) && |replies| == |blocks| && |later| == |blocks|
      requires forall i, j :: 0 <= i < j < |blocks| ==> blocks[i].Cell() !! blocks[j].Cell()
      requires forall i :: 0 <= i < |blocks| ==> blocks[i].KindMatches(quorumStore) && blocks[i].Settled(batches)
      requires forall i :: 0 <= i < |blocks| ==> Answered(batches, blocks[i], replies[i]) && Answered(batches, blocks[i], later[i])
      modifies this, CellsOf(blocks)
      ensures executed.Success? <==>
              blocks != [] && forall i :: 0 <= i < |blocks| ==> old(blocks[i].AtHand(replies[i])) && Executes(batches, execute, blocks[i])
      ensures executed.Success? ==> r.Success? && AllExecuted(batches, execute, executed.value)
      ensures executed.Success? ==> synced == old(synced) + [AllToCommit(batches, execute, executed.value)]
      ensures !executed.Success? ==> committed == old(committed) && synced == old(synced) && notices == old(notices)
    {
      executed := ExecuteAll(blocks, replies, batches);
      if !executed.Success? {
        return executed, Failure(EmptyBlocks);
      }
      SameCells(blocks, executed.value);
      r := Commit(executed.value, later, batches);
    }
  }

  lemma SameCells(blocks: seq<Block>, executed: seq<ExecutedBlock>)
    requires |executed| == |blocks| && forall i :: 0 <= i < |blocks| ==> executed[i].block == blocks[i]
    ensures Cells(executed) == CellsOf(blocks)
  {
    forall c | c in Cells(executed)
      ensures c in CellsOf(blocks)
    {
      var i :| 0 <= i < |executed| && c in executed[i].block.Cell();
      assert c in blocks[i].Cell();
    }
    forall c | c in CellsOf(blocks)
      ensures c in Cells(executed)
    {
      var i :| 0 <= i < |blocks| && c in blocks[i].Cell();
      assert c in executed[i].block.Cell();
    }
  }
}
