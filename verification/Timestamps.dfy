/** Rendering transactions: carrying the block timestamp along a contiguous run of transactions, against
    looking it up for each of them. */
module Timestamps {
  import opened Common

  datatype Transaction = BlockMetadata(timestamp: nat) | Other(body: nat)

  datatype OnChain = OnChain(version: nat, transaction: Transaction, rootHash: nat)

  /** Conversion for output, which may fail; the first argument is the timestamp shown. */
  type Converter<!R> = (nat, OnChain) -> Option<R>

  /** The database: one transaction per version, and the time of the block genesis reports, if it does.  Reads
      below `minReadable` are refused, and events below `eventsFrom` have been deleted. */
  datatype Ledger = Ledger(transactions: seq<Transaction>, genesisTime: Option<nat>, minReadable: nat, eventsFrom: nat)

  /** The nearest block event at or before a version that is still stored. */
  function BlockEvent(ledger: Ledger, version: nat): Option<nat>
    requires version < |ledger.transactions|
  {
    if version < ledger.eventsFrom then None
    else if ledger.transactions[version].BlockMetadata? then Some(ledger.transactions[version].timestamp)
    else if version == 0 then ledger.genesisTime
    else BlockEvent(ledger, version - 1)
  }

  function BlockTimestamp(ledger: Ledger, version: nat): Option<nat>
  {
    if version < ledger.minReadable || version >= |ledger.transactions| then None else BlockEvent(ledger, version)
  }

  /** The latest block metadata at or before `version` is at version `at`. */
  ghost predicate IsLatestBlock(ledger: Ledger, version: nat, at: nat, time: nat)
  {
    && at <= version < |ledger.transactions|
    && ledger.transactions[at] == BlockMetadata(time)
    && forall v :: at < v <= version ==> !ledger.transactions[v].BlockMetadata?
  }

  lemma {:induction false} EventIsLatestBlock(ledger: Ledger, version: nat, at: nat, time: nat)
    requires IsLatestBlock(ledger, version, at, time)
    ensures BlockEvent(ledger, version) == if at < ledger.eventsFrom then None else Some(time)
  {
    if at < version {
      EventIsLatestBlock(ledger, version - 1, at, time);
    }
  }

  /** The lookup yields the time of the latest block metadata at or before the version, unless the version is
      pruned or the event of that block has been deleted. */
  lemma LookupIsLatestBlock(ledger: Ledger, version: nat, at: nat, time: nat)
    requires IsLatestBlock(ledger, version, at, time)
    ensures BlockTimestamp(ledger, version) ==
            if version < ledger.minReadable || at < ledger.eventsFrom then None else Some(time)
  {
    EventIsLatestBlock(ledger, version, at, time);
  }

  // ---------------------------------------------------------------- specification

  function Lookups<R>(convert: Converter<R>, ledger: Ledger, data: seq<OnChain>): Option<seq<R>>
  {
    if data == [] then Some([])
    else
      var before, t := Lookups(convert, ledger, data[..|data| - 1]), data[|data| - 1];
      var time := BlockTimestamp(ledger, t.version);
      if before.None? || time.None? || convert(time.value, t).None? then None
      else Some(before.value + [convert(time.value, t).value])
  }

  /** The timestamp after passing over `data`. */
  function Carried(data: seq<OnChain>, timestamp: nat): nat
  {
    if data == [] then timestamp
    else if data[|data| - 1].transaction.BlockMetadata? then data[|data| - 1].transaction.timestamp
    else Carried(data[..|data| - 1], timestamp)
  }

  function Fold<R>(convert: Converter<R>, data: seq<OnChain>, timestamp: nat): Option<seq<R>>
  {
    if data == [] then Some([])
    else
      var before, t := Fold(convert, data[..|data| - 1], timestamp), data[|data| - 1];
      var shown := convert(Carried(data, timestamp), t);
      if before.None? || shown.None? then None else Some(before.value + [shown.value])
  }

  lemma {:induction false} FoldFailsOnPrefix<R>(convert: Converter<R>, data: seq<OnChain>, timestamp: nat, i: nat)
    requires i <= |data| && Fold(convert, data[..i], timestamp).None?
    ensures Fold(convert, data, timestamp).None?
    decreases |data|
  {
    if i < |data| {
      assert data[..|data| - 1][..i] == data[..i];
      FoldFailsOnPrefix(convert, data[..|data| - 1], timestamp, i);
    } else {
      assert data[..i] == data;
    }
  }

  lemma {:induction false} LookupsFailOnPrefix<R>(convert: Converter<R>, ledger: Ledger, data: seq<OnChain>, i: nat)
    requires i <= |data| && Lookups(convert, ledger, data[..i]).None?
    ensures Lookups(convert, ledger, data).None?
    decreases |data|
  {
    if i < |data| {
      assert data[..|data| - 1][..i] == data[..i];
      LookupsFailOnPrefix(convert, ledger, data[..|data| - 1], i);
    } else {
      assert data[..i] == data;
    }
  }

  /** One by one: every transaction is shown, in order, with the block time looked up for its version, and rendering fails
      exactly if one of the lookups or conversions does. */
  lemma {:induction false} LookupsExactly<R>(convert: Converter<R>, ledger: Ledger, data: seq<OnChain>)
    ensures var r := Lookups(convert, ledger, data);
            && (r.Some? <==> forall i :: 0 <= i < |data| ==> Shown(convert, ledger, data[i]).Some?)
            && (r.Some? ==> |r.value| == |data| && forall i :: 0 <= i < |data| ==> Shown(convert, ledger, data[i]) == Some(r.value[i]))
  {
    if data != [] {
      var before := data[..|data| - 1];
      LookupsExactly(convert, ledger, before);
      assert forall i :: 0 <= i < |before| ==> before[i] == data[i];
    }
  }

  /** A transaction on its own, with the block time of its version. */
  function Shown<R>(convert: Converter<R>, ledger: Ledger, t: OnChain): Option<R>
  {
    var time := BlockTimestamp(ledger, t.version);
    if time.None? then None else convert(time.value, t)
  }

  method RenderSequential<R>(convert: Converter<R>, data: seq<OnChain>, start: nat) returns (r: Option<seq<R>>)
    ensures r == Fold(convert, data, start)
  {
    var timestamp := start;
    var txns: seq<R> := [];
    for i := 0 to |data|
      invariant timestamp == Carried(data[..i], start)
      invariant Fold(convert, data[..i], start) == Some(txns)
    {
      assert data[..i + 1][..i] == data[..i];
      if data[i].transaction.BlockMetadata? {
        timestamp := data[i].transaction.timestamp;
      }
      var txn := convert(timestamp, data[i]);
      if txn.None? {
        FoldFailsOnPrefix(convert, data, start, i + 1);
        return None;
      }
      txns := txns + [txn.value];
    }
    assert data[..|data|] == data;
    return Some(txns);
  }

  method RenderNonSequential<R>(convert: Converter<R>, ledger: Ledger, data: seq<OnChain>) returns (r: Option<seq<R>>)
    ensures r == Lookups(convert, ledger, data)
  {
    var txns: seq<R> := [];
    for i := 0 to |data|
      invariant Lookups(convert, ledger, data[..i]) == Some(txns)
    {
      assert data[..i + 1][..i] == data[..i];
      var timestamp := BlockTimestamp(ledger, data[i].version);
      if timestamp.None? || convert(timestamp.value, data[i]).None? {
        LookupsFailOnPrefix(convert, ledger, data, i + 1);
        return None;
      }
      txns := txns + [convert(timestamp.value, data[i]).value];
    }
    assert data[..|data|] == data;
    return Some(txns);
  }

  /** What the database answers to a range query: its first version, transactions and number of infos. */
  datatype RangeReply = RangeReply(firstVersion: Option<nat>, transactions: seq<Transaction>, infos: nat)

  /** `rootHash` is the accumulator root at a version, `None` if it cannot be read. */
  method GetTransactions(reply: RangeReply, start: nat, rootHash: nat -> Option<nat>) returns (r: Option<seq<OnChain>>)
    ensures r.Some? <==>
              && reply.firstVersion == Some(start) && |reply.transactions| == reply.infos
              && forall v :: start <= v < start + |reply.transactions| ==> rootHash(v).Some?
    ensures r.Some? ==> |r.value| == |reply.transactions|
    ensures r.Some? ==> forall i :: 0 <= i < |r.value| ==>
              && r.value[i].version == start + i && r.value[i].transaction == reply.transactions[i]
              && Some(r.value[i].rootHash) == rootHash(r.value[i].version)
  {
    if reply.firstVersion != Some(start) || |reply.transactions| != reply.infos {
      return None;
    }
    var data: seq<OnChain> := [];
    for i := 0 to |reply.transactions|
      invariant |data| == i
      invariant forall v :: start <= v < start + i ==> rootHash(v).Some?
      invariant forall j :: 0 <= j < i ==>
                  && data[j].version == start + j && data[j].transaction == reply.transactions[j]
                  && Some(data[j].rootHash) == rootHash(data[j].version)
    {
      var hash := rootHash(start + i);
      if hash.None? {
        return None;
      }
      data := data + [OnChain(start + i, reply.transactions[i], hash.value)];
    }
    return Some(data);
  }

  // ------------------------------------------------------------------ refinement

  /** A contiguous stretch of the ledger. */
  ghost predicate Contiguous(ledger: Ledger, data: seq<OnChain>, start: nat)
  {
    && start + |data| <= |ledger.transactions|
    && forall i :: 0 <= i < |data| ==> data[i].version == start + i && data[i].transaction == ledger.transactions[start + i]
  }

  lemma {:induction false} CarriedIsLookup(ledger: Ledger, data: seq<OnChain>, start: nat, timestamp: nat)
    requires Contiguous(ledger, data, start) && data != [] && BlockTimestamp(ledger, start) == Some(timestamp)
    ensures BlockTimestamp(ledger, start + |data| - 1) == Some(Carried(data, timestamp))
  {
    var last := data[|data| - 1];
    assert last.version == start + |data| - 1 && last.transaction == ledger.transactions[start + |data| - 1];
    if |data| > 1 && !last.transaction.BlockMetadata? {
      CarriedIsLookup(ledger, data[..|data| - 1], start, timestamp);
    }
  }

  /** On contiguous transactions, starting from the block timestamp of the first, both renderings agree,
      conversion failures included. */
  lemma {:induction false} SequentialRefinesLookup<R>(convert: Converter<R>, ledger: Ledger, data: seq<OnChain>,
                                                      start: nat, timestamp: nat)
    requires Contiguous(ledger, data, start) && BlockTimestamp(ledger, start) == Some(timestamp)
    ensures Fold(convert, data, timestamp) == Lookups(convert, ledger, data)
  {
    if data != [] {
      SequentialRefinesLookup(convert, ledger, data[..|data| - 1], start, timestamp);
      CarriedIsLookup(ledger, data, start, timestamp);
    }
  }
}
