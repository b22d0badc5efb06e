/** Epoch changes: shut every component of the old epoch down, then start those of the new one, and hand
    network events of the current epoch only to components of the current epoch.

    A log records what the manager does to its components and the network; the main results hold of the log
    of every run. */
module EpochManagerModel {
  import opened Common
  import opened Quorum
  import opened ConsensusTypes

  datatype Kind = RoundManager | RecoveryManager | BufferManager | RetrievalTask | Coordinator

  /** A running task, identified by what it is and the epoch it was started for. */
  datatype Component = Component(kind: Kind, epochState: EpochState)

  datatype EventKind = RoundEvent | CommitEvent | QuorumStoreEvent

  /** A proposal, vote, sync info, commit or quorum store message; `body` stands for its contents. */
  datatype NetworkEvent = NetworkEvent(kind: EventKind, epoch: Epoch, body: nat)

  datatype Message =
    | Event(event: NetworkEvent)
    | EpochProof(firstEpoch: Option<Epoch>, body: nat)    // an empty proof has no epoch
    | RetrievalRequest(startEpoch: Epoch, endEpoch: Epoch)
    | Unexpected

  /** What state sync announces at an epoch change, and whether storage can then recover fully. */
  datatype Notification = Notification(epochState: EpochState, fullRecovery: bool, decoupled: bool, quorumStore: bool)

  /** Signature checks: of an event by a validator set, and of an epoch change proof by an epoch state. */
  datatype Checks = Checks(event: (NetworkEvent, ValidatorVerifier, bool) -> bool, proof: (nat, EpochState) -> bool)

  datatype Entry =
    | NewEpoch(epochState: EpochState, quorumStore: bool)
    | Started(component: Component)
    | Closed(component: Component)     // asked to stop, and waited for
    | CutOff(component: Component)     // its sender dropped, and not waited for
    | Delivered(event: NetworkEvent, to: Component, quorumStore: bool)
    | SentEpochProof(peer: Author, startEpoch: Epoch, endEpoch: Epoch)
    | SentRetrieval(peer: Author, startEpoch: Epoch, endEpoch: Epoch)

  datatype Manager = Manager(
    epochState: Option<EpochState>,
    quorumStoreEnabled: bool,
    roundTx: Option<Component>,
    roundClose: Option<Component>,
    bufferTx: Option<Component>,
    bufferReset: Option<Component>,
    retrievalTx: Option<Component>,
    coordinatorTx: Option<Component>,
    quorumStoreTx: Option<Component>,
    log: seq<Entry>)

  const INITIAL: Manager := Manager(None, false, None, None, None, None, None, None, None, [])

  // ------------------------------------------------------------ specification

  function LogClosed(log: seq<Entry>, handle: Option<Component>): seq<Entry>
  {
    if handle.Some? then log + [Closed(handle.value)] else log
  }

  function LogCutOff(log: seq<Entry>, handle: Option<Component>): seq<Entry>
  {
    if handle.Some? then log + [CutOff(handle.value)] else log
  }

  function ShutDown(m: Manager): Manager
  {
    var log1 := LogClosed(m.log, m.roundClose);
    var log2 := LogClosed(log1, m.bufferReset);
    var log3 := LogCutOff(log2, m.retrievalTx);
    m.(roundTx := None, roundClose := None, bufferTx := None, bufferReset := None, retrievalTx := None,
       coordinatorTx := None, log := LogClosed(log3, m.coordinatorTx))
  }

  function RecoveryStarted(m: Manager, es: EpochState): Manager
  {
    var c := Component(RecoveryManager, es);
    m.(roundTx := Some(c), roundClose := Some(c), log := m.log + [Started(c)])
  }

  function BufferStarted(m: Manager, es: EpochState, decoupled: bool): Manager
  {
    var c := Component(BufferManager, es);
    if decoupled then m.(bufferTx := Some(c), bufferReset := Some(c), log := m.log + [Started(c)]) else m
  }

  function CoordinatorStarted(m: Manager, es: EpochState): Manager
  {
    var c := Component(Coordinator, es);
    if m.quorumStoreEnabled then m.(coordinatorTx := Some(c), log := m.log + [Started(c)]) else m.(coordinatorTx := None)
  }

  function RoundStarted(m: Manager, es: EpochState, decoupled: bool): Manager
  {
    var m1 := m.(quorumStoreTx := if m.quorumStoreEnabled then Some(Component(Coordinator, es)) else None);
    var m2 := CoordinatorStarted(BufferStarted(m1, es, decoupled), es);
    var round, retrieval := Component(RoundManager, es), Component(RetrievalTask, es);
    var m3 := m2.(roundTx := Some(round), roundClose := Some(round), log := m2.log + [Started(round)]);
    m3.(retrievalTx := Some(retrieval), log := m3.log + [Started(retrieval)])
  }

  function EpochStarted(m: Manager, n: Notification): (r: Manager)
    ensures r.epochState.Some? && r.roundTx.Some?
  {
    var flag := if n.fullRecovery then n.quorumStore else m.quorumStoreEnabled;
    var m1 := m.(epochState := Some(n.epochState), quorumStoreEnabled := flag, log := m.log + [NewEpoch(n.epochState, flag)]);
    if n.fullRecovery then RoundStarted(m1, n.epochState, n.decoupled) else RecoveryStarted(m1, n.epochState)
  }

  /** `n` is the notification that arrives once state sync has reached the proof's ledger info. */
  function EpochInitiated(checks: Checks, m: Manager, proof: nat, n: Notification): (Manager, bool)
    requires m.epochState.Some?
  {
    if checks.proof(proof, m.epochState.value) then (EpochStarted(ShutDown(m), n), true) else (m, false)
  }

  function DifferentEpoch(m: Manager, author: Author, peer: Author, epoch: Epoch): Manager
    requires m.epochState.Some?
  {
    var own := m.epochState.value;
    if epoch > own.epoch then m.(log := m.log + [SentRetrieval(peer, own.epoch, epoch)])
    else if author in own.verifier.powers then m
    else m.(log := m.log + [SentEpochProof(peer, epoch, own.epoch)])
  }

  /** The message channel kept for the quorum store is closed: stopping a quorum store drops its receiver. */
  predicate QuorumStoreGone(m: Manager)
  {
    m.quorumStoreTx.Some? && m.quorumStoreTx != m.coordinatorTx
  }

  /** Pushing into a closed channel is an error. */
  function EventProcessed(m: Manager, event: NetworkEvent): (r: (Manager, bool))
    requires m.roundTx.Some?
    ensures r.0 == m.(log := r.0.log)
  {
    match event.kind
    case QuorumStoreEvent =>
      if m.quorumStoreTx.None? then (m, true)
      else if QuorumStoreGone(m) then (m, false)
      else (m.(log := m.log + [Delivered(event, m.quorumStoreTx.value, m.quorumStoreEnabled)]), true)
    case CommitEvent =>
      if m.bufferTx.Some? then (m.(log := m.log + [Delivered(event, m.bufferTx.value, m.quorumStoreEnabled)]), true) else (m, false)
    case RoundEvent =>
      (m.(log := m.log + [Delivered(event, m.roundTx.value, m.quorumStoreEnabled)]), true)
  }

  /** One network message; the flag is whether it was processed without an error. */
  function MessageProcessed(checks: Checks, author: Author, m: Manager, peer: Author, msg: Message, n: Notification)
    : (r: (Manager, bool))
    requires m.epochState.Some? && m.roundTx.Some?
    ensures r.0.epochState.Some? && r.0.roundTx.Some?
  {
    var own := m.epochState.value;
    match msg
    case Event(event) =>
      if event.epoch != own.epoch then (DifferentEpoch(m, author, peer, event.epoch), true)
      else if event.kind.QuorumStoreEvent? && !m.quorumStoreEnabled then (m, false)
      else if !checks.event(event, own.verifier, m.quorumStoreEnabled) then (m, false)
      else EventProcessed(m, event)
    case EpochProof(first, body) =>
      if first == Some(own.epoch) then EpochInitiated(checks, m, body, n) else (m, false)
    case RetrievalRequest(start, end) =>
      if end <= own.epoch then (m.(log := m.log + [SentEpochProof(peer, start, end)]), true) else (m, false)
    case Unexpected => (m, false)
  }

  // --------------------------------------------------------------- the class

  class EpochManager {
    const author: Author
    const checks: Checks
    var epochState: Option<EpochState>
    var quorumStoreEnabled: bool
    var roundTx: Option<Component>
    var roundClose: Option<Component>
    var bufferTx: Option<Component>
    var bufferReset: Option<Component>
    var retrievalTx: Option<Component>
    var coordinatorTx: Option<Component>
    var quorumStoreTx: Option<Component>
    var log: seq<Entry>

    function State(): Manager
      reads this
    {
      Manager(epochState, quorumStoreEnabled, roundTx, roundClose, bufferTx, bufferReset, retrievalTx, coordinatorTx,
              quorumStoreTx, log)
    }

    constructor (author: Author, checks: Checks)
      ensures this.author == author && this.checks == checks && State() == INITIAL
    {
      this.author, this.checks := author, checks;
      epochState, quorumStoreEnabled, log := None, false, [];
      roundTx, roundClose, bufferTx, bufferReset := None, None, None, None;
      retrievalTx, coordinatorTx, quorumStoreTx := None, None, None;
    }

    /** Ask a component to stop and wait until it has. */
    method Close(handle: Option<Component>)
      modifies this`log
      ensures log == LogClosed(old(log), handle)
    {
      if handle.Some? {
        log := log + [Closed(handle.value)];
      }
    }

    /** Drop the sender of the block retrieval task, which ends it after the request it is at. */
    method DropRetrieval()
      modifies this`log, this`retrievalTx
      ensures log == LogCutOff(old(log), old(retrievalTx)) && retrievalTx == None
    {
      if retrievalTx.Some? {
        log := log + [CutOff(retrievalTx.value)];
      }
      retrievalTx := None;
    }

    method ShutdownCurrentProcessor()
      modifies this
      ensures State() == ShutDown(old(State()))
    {
      Close(roundClose);
      roundClose := None;
      roundTx := None;
      bufferTx := None;
      Close(bufferReset);
      bufferReset := None;
      DropRetrieval();
      Close(coordinatorTx);
      coordinatorTx := None;
    }

    method StartRecoveryManager(es: EpochState)
      modifies this
      ensures State() == RecoveryStarted(old(State()), es)
    {
      var c := Component(RecoveryManager, es);
      roundTx := Some(c);
      roundClose := Some(c);
      log := log + [Started(c)];
    }

    method SpawnDecoupledExecution(es: EpochState)
      modifies this
      ensures State() == BufferStarted(old(State()), es, true)
    {
      var buffer := Component(BufferManager, es);
      bufferTx := Some(buffer);
      bufferReset := Some(buffer);
      log := log + [Started(buffer)];
    }

    method StartQuorumStore(es: EpochState)
      modifies this
      ensures State() == CoordinatorStarted(old(State()), es)
    {
      if quorumStoreEnabled {
        coordinatorTx := Some(Component(Coordinator, es));
        log := log + [Started(Component(Coordinator, es))];
      } else {
        coordinatorTx := None;
      }
    }

    method StartRoundManager(es: EpochState, decoupled: bool)
      modifies this
      ensures State() == RoundStarted(old(State()), es, decoupled)
    {
      quorumStoreTx := if quorumStoreEnabled then Some(Component(Coordinator, es)) else None;
      if decoupled {
        SpawnDecoupledExecution(es);
      }
      StartQuorumStore(es);
      var round, retrieval := Component(RoundManager, es), Component(RetrievalTask, es);
      roundTx := Some(round);
      roundClose := Some(round);
      log := log + [Started(round)];
      retrievalTx := Some(retrieval);
      log := log + [Started(retrieval)];
    }

    method StartNewEpoch(n: Notification)
      modifies this
      ensures State() == EpochStarted(old(State()), n)
    {
      epochState := Some(n.epochState);
      log := log + [NewEpoch(n.epochState, if n.fullRecovery then n.quorumStore else quorumStoreEnabled)];
      if n.fullRecovery {
        quorumStoreEnabled := n.quorumStore;
        StartRoundManager(n.epochState, n.decoupled);
      } else {
        StartRecoveryManager(n.epochState);
      }
    }

    method InitiateNewEpoch(proof: nat, n: Notification) returns (ok: bool)
      requires epochState.Some?
      modifies this
      ensures (State(), ok) == EpochInitiated(checks, old(State()), proof, n)
    {
      if !checks.proof(proof, epochState.value) {
        return false;
      }
      ShutdownCurrentProcessor();
      StartNewEpoch(n);
      return true;
    }

    method ProcessDifferentEpoch(peer: Author, epoch: Epoch)
      requires epochState.Some?
      modifies this
      ensures State() == DifferentEpoch(old(State()), author, peer, epoch)
    {
      if epoch > epochState.value.epoch {
        log := log + [SentRetrieval(peer, epochState.value.epoch, epoch)];
      } else if author !in epochState.value.verifier.powers {
        log := log + [SentEpochProof(peer, epoch, epochState.value.epoch)];
      }
    }

    method ProcessEvent(event: NetworkEvent) returns (ok: bool)
      requires roundTx.Some?
      modifies this
      ensures (State(), ok) == EventProcessed(old(State()), event)
    {
      match event.kind
      case QuorumStoreEvent =>
        if quorumStoreTx.Some? {
          if quorumStoreTx != coordinatorTx {
            return false;
          }
          log := log + [Delivered(event, quorumStoreTx.value, quorumStoreEnabled)];
        }
        return true;
      case CommitEvent =>
        if bufferTx.None? {
          return false;
        }
        log := log + [Delivered(event, bufferTx.value, quorumStoreEnabled)];
        return true;
      case RoundEvent =>
        log := log + [Delivered(event, roundTx.value, quorumStoreEnabled)];
        return true;
    }

    method ProcessMessage(peer: Author, msg: Message, n: Notification) returns (ok: bool)
      requires epochState.Some? && roundTx.Some?
      modifies this
      ensures (State(), ok) == MessageProcessed(checks, author, old(State()), peer, msg, n)
    {
      match msg
      case Event(event) =>
        if event.epoch != epochState.value.epoch {
          ProcessDifferentEpoch(peer, event.epoch);
          return true;
        }
        if event.kind.QuorumStoreEvent? && !quorumStoreEnabled {
          return false;
        }
        if !checks.event(event, epochState.value.verifier, quorumStoreEnabled) {
          return false;
        }
        ok := ProcessEvent(event);
      case EpochProof(first, body) =>
        if first != Some(epochState.value.epoch) {
          return false;
        }
        ok := InitiateNewEpoch(body, n);
      case RetrievalRequest(start, end) =>
        if end > epochState.value.epoch {
          return false;
        }
        log := log + [SentEpochProof(peer, start, end)];
        return true;
      case Unexpected =>
        return false;
    }
  }

  // ------------------------------------------------------- what a log may hold

  function RunningAfter(before: set<Component>, e: Entry): set<Component>
  {
    if e.Started? then before + {e.component} else if e.Closed? || e.CutOff? then before - {e.component} else before
  }

  /** The components that have been started and neither closed nor cut off. */
  function Running(log: seq<Entry>): set<Component>
  {
    if log == [] then {} else RunningAfter(Running(log[..|log| - 1]), log[|log| - 1])
  }

  /** The quorum store flag in force. */
  function CurrentFlag(log: seq<Entry>): bool
  {
    if log == [] then false
    else if log[|log| - 1].NewEpoch? then log[|log| - 1].quorumStore
    else CurrentFlag(log[..|log| - 1])
  }

  function CurrentEpoch(log: seq<Entry>): Option<EpochState>
  {
    if log == [] then None
    else if log[|log| - 1].NewEpoch? then Some(log[|log| - 1].epochState)
    else CurrentEpoch(log[..|log| - 1])
  }

  predicate IsProcessor(k: Kind) { k.RoundManager? || k.RecoveryManager? }

  function Receiver(k: EventKind): set<Kind>
  {
    match k
    case RoundEvent => {RoundManager, RecoveryManager}
    case CommitEvent => {BufferManager}
    case QuorumStoreEvent => {Coordinator}
  }

  /** What may happen after `log`. */
  ghost predicate EntryAllowed(checks: Checks, log: seq<Entry>, e: Entry)
  {
    match e
    case NewEpoch(_, _) => Running(log) == {}
    case Started(c) =>
      && CurrentEpoch(log) == Some(c.epochState)
      && (forall d :: d in Running(log) ==> d.epochState == c.epochState && d.kind != c.kind)
      && (IsProcessor(c.kind) ==> forall d :: d in Running(log) ==> !IsProcessor(d.kind))
    case Closed(c) => c in Running(log) && c.kind != RetrievalTask
    case CutOff(c) => c in Running(log) && c.kind == RetrievalTask
    case Delivered(event, to, flag) =>
      && CurrentEpoch(log).Some?
      && var es := CurrentEpoch(log).value;
         && event.epoch == es.epoch
         && flag == CurrentFlag(log) && checks.event(event, es.verifier, flag)
         && (event.kind == QuorumStoreEvent ==> flag)
         && to.kind in Receiver(event.kind) && to in Running(log) && to.epochState == es
    case _ => true
  }

  ghost predicate HistoryAllowed(checks: Checks, log: seq<Entry>)
  {
    forall i :: 0 <= i < |log| ==> EntryAllowed(checks, log[..i], log[i])
  }

  lemma Append(checks: Checks, log: seq<Entry>, e: Entry)
    requires HistoryAllowed(checks, log) && EntryAllowed(checks, log, e)
    ensures HistoryAllowed(checks, log + [e])
    ensures Running(log + [e]) == RunningAfter(Running(log), e)
    ensures CurrentEpoch(log + [e]) == if e.NewEpoch? then Some(e.epochState) else CurrentEpoch(log)
    ensures CurrentFlag(log + [e]) == if e.NewEpoch? then e.quorumStore else CurrentFlag(log)
  {
    var longer := log + [e];
    assert longer[..|log|] == log;
    assert forall i :: 0 <= i < |log| ==> longer[..i] == log[..i] && longer[i] == log[i];
  }

  // ----------------------------------------------------------------- invariant

  function One(handle: Option<Component>): set<Component>
  {
    if handle.Some? then {handle.value} else {}
  }

  function Handles(m: Manager): set<Component>
  {
    One(m.roundClose) + One(m.bufferReset) + One(m.retrievalTx) + One(m.coordinatorTx)
  }

  predicate Holds(handle: Option<Component>, kinds: set<Kind>, es: Option<EpochState>)
  {
    handle.Some? ==> handle.value.kind in kinds && es == Some(handle.value.epochState)
  }

  /** The handles are exactly the running components, all of the current epoch. */
  ghost predicate Tracked(checks: Checks, m: Manager)
  {
    && HistoryAllowed(checks, m.log)
    && Running(m.log) == Handles(m) && CurrentEpoch(m.log) == m.epochState && CurrentFlag(m.log) == m.quorumStoreEnabled
    && m.roundTx == m.roundClose && m.bufferTx == m.bufferReset
    && Holds(m.roundClose, {RoundManager, RecoveryManager}, m.epochState)
    && Holds(m.bufferReset, {BufferManager}, m.epochState)
    && Holds(m.retrievalTx, {RetrievalTask}, m.epochState)
    && Holds(m.coordinatorTx, {Coordinator}, m.epochState)
    && (m.quorumStoreTx.Some? ==> m.quorumStoreTx.value.kind == Coordinator)
  }

  /** Between messages a processor runs; a round manager's quorum store is the running one, while next to a
      recovery manager no quorum store runs. */
  ghost predicate Inv(checks: Checks, m: Manager)
  {
    && Tracked(checks, m)
    && m.epochState.Some? && m.roundTx.Some?
    && (m.roundTx.value.kind == RoundManager ==> m.quorumStoreTx == m.coordinatorTx)
    && (m.roundTx.value.kind == RecoveryManager ==> m.coordinatorTx.None?)
  }

  lemma CloseHandle(checks: Checks, log: seq<Entry>, handle: Option<Component>, rest: set<Component>)
    requires HistoryAllowed(checks, log) && Running(log) == One(handle) + rest && One(handle) !! rest
    requires handle.Some? ==> handle.value.kind != RetrievalTask
    ensures var log' := LogClosed(log, handle);
            && HistoryAllowed(checks, log') && Running(log') == rest
            && CurrentEpoch(log') == CurrentEpoch(log) && CurrentFlag(log') == CurrentFlag(log)
  {
    if handle.Some? {
      Append(checks, log, Closed(handle.value));
    }
  }

  lemma CutOffHandle(checks: Checks, log: seq<Entry>, handle: Option<Component>, rest: set<Component>)
    requires HistoryAllowed(checks, log) && Running(log) == One(handle) + rest && One(handle) !! rest
    requires handle.Some? ==> handle.value.kind == RetrievalTask
    ensures var log' := LogCutOff(log, handle);
            && HistoryAllowed(checks, log') && Running(log') == rest
            && CurrentEpoch(log') == CurrentEpoch(log) && CurrentFlag(log') == CurrentFlag(log)
  {
    if handle.Some? {
      Append(checks, log, CutOff(handle.value));
    }
  }

  lemma CloseFirstTwo(checks: Checks, log: seq<Entry>, h1: Option<Component>, h2: Option<Component>, rest: set<Component>)
    requires HistoryAllowed(checks, log) && Running(log) == One(h1) + (One(h2) + rest)
    requires One(h1) !! One(h2) + rest && One(h2) !! rest
    requires forall c :: c in One(h1) + One(h2) ==> c.kind != RetrievalTask
    ensures var log' := LogClosed(LogClosed(log, h1), h2);
            && HistoryAllowed(checks, log') && Running(log') == rest
            && CurrentEpoch(log') == CurrentEpoch(log) && CurrentFlag(log') == CurrentFlag(log)
  {
    assert h1.Some? ==> h1.value in One(h1);
    assert h2.Some? ==> h2.value in One(h2);
    CloseHandle(checks, log, h1, One(h2) + rest);
    CloseHandle(checks, LogClosed(log, h1), h2, rest);
  }

  lemma CloseLastTwo(checks: Checks, log: seq<Entry>, h1: Option<Component>, h2: Option<Component>)
    requires HistoryAllowed(checks, log) && Running(log) == One(h1) + One(h2) && One(h1) !! One(h2)
    requires h1.Some? ==> h1.value.kind == RetrievalTask
    requires h2.Some? ==> h2.value.kind != RetrievalTask
    ensures var log' := LogClosed(LogCutOff(log, h1), h2);
            && HistoryAllowed(checks, log') && Running(log') == {}
            && CurrentEpoch(log') == CurrentEpoch(log) && CurrentFlag(log') == CurrentFlag(log)
  {
    CutOffHandle(checks, log, h1, One(h2));
    CloseHandle(checks, LogCutOff(log, h1), h2, {});
  }

  /** After shutdown every component has stopped, but for block retrieval, which has been cut off. */
  lemma ShutDownClosesAll(checks: Checks, m: Manager)
    requires Tracked(checks, m)
    ensures Tracked(checks, ShutDown(m)) && Running(ShutDown(m).log) == {}
  {
    var rest := One(m.retrievalTx) + One(m.coordinatorTx);
    assert Handles(m) == One(m.roundClose) + (One(m.bufferReset) + rest);
    CloseFirstTwo(checks, m.log, m.roundClose, m.bufferReset, rest);
    CloseLastTwo(checks, LogClosed(LogClosed(m.log, m.roundClose), m.bufferReset), m.retrievalTx, m.coordinatorTx);
  }

  lemma StartAllowed(checks: Checks, m: Manager, c: Component)
    requires Tracked(checks, m) && m.epochState == Some(c.epochState)
    requires forall d :: d in Handles(m) ==> d.kind != c.kind
    requires IsProcessor(c.kind) ==> m.roundClose.None?
    ensures EntryAllowed(checks, m.log, Started(c))
  {
    forall d | d in Running(m.log)
      ensures d.epochState == c.epochState && d.kind != c.kind && (IsProcessor(c.kind) ==> !IsProcessor(d.kind))
    {
      assert d in Handles(m);
    }
  }

  lemma BufferStartedTracked(checks: Checks, m: Manager, es: EpochState, decoupled: bool)
    requires Tracked(checks, m) && Running(m.log) == {} && m.epochState == Some(es)
    ensures var r := BufferStarted(m, es, decoupled);
            && Tracked(checks, r) && r.epochState == Some(es)
            && r.quorumStoreEnabled == m.quorumStoreEnabled && r.quorumStoreTx == m.quorumStoreTx
            && r.roundClose.None? && r.retrievalTx.None? && r.coordinatorTx.None?
  {
    NothingHeld(m);
    if decoupled {
      StartAllowed(checks, m, Component(BufferManager, es));
      Append(checks, m.log, Started(Component(BufferManager, es)));
    }
  }

  lemma CoordinatorStartedTracked(checks: Checks, m: Manager, es: EpochState)
    requires Tracked(checks, m) && m.epochState == Some(es)
    requires m.roundClose.None? && m.retrievalTx.None? && m.coordinatorTx.None?
    ensures var r := CoordinatorStarted(m, es);
            && Tracked(checks, r) && r.epochState == Some(es) && r.quorumStoreTx == m.quorumStoreTx
            && r.roundClose.None? && r.retrievalTx.None?
            && r.coordinatorTx == if m.quorumStoreEnabled then Some(Component(Coordinator, es)) else None
  {
    if m.quorumStoreEnabled {
      StartAllowed(checks, m, Component(Coordinator, es));
      Append(checks, m.log, Started(Component(Coordinator, es)));
    }
  }

  lemma ProcessorStartedTracked(checks: Checks, m: Manager, es: EpochState, kind: Kind)
    requires Tracked(checks, m) && m.epochState == Some(es) && IsProcessor(kind)
    requires m.roundClose.None? && m.retrievalTx.None?
    ensures var c := Component(kind, es);
            Tracked(checks, m.(roundTx := Some(c), roundClose := Some(c), log := m.log + [Started(c)]))
  {
    StartAllowed(checks, m, Component(kind, es));
    Append(checks, m.log, Started(Component(kind, es)));
  }

  lemma RetrievalStartedTracked(checks: Checks, m: Manager, es: EpochState)
    requires Tracked(checks, m) && m.epochState == Some(es) && m.retrievalTx.None?
    ensures var c := Component(RetrievalTask, es);
            Tracked(checks, m.(retrievalTx := Some(c), log := m.log + [Started(c)]))
  {
    StartAllowed(checks, m, Component(RetrievalTask, es));
    Append(checks, m.log, Started(Component(RetrievalTask, es)));
  }

  lemma RoundStartedKeepsInv(checks: Checks, m: Manager, es: EpochState, decoupled: bool)
    requires Tracked(checks, m) && Running(m.log) == {} && m.epochState == Some(es)
    ensures Inv(checks, RoundStarted(m, es, decoupled))
  {
    var m1 := m.(quorumStoreTx := if m.quorumStoreEnabled then Some(Component(Coordinator, es)) else None);
    BufferStartedTracked(checks, m1, es, decoupled);
    var m2 := BufferStarted(m1, es, decoupled);
    CoordinatorStartedTracked(checks, m2, es);
    var m3 := CoordinatorStarted(m2, es);
    ProcessorStartedTracked(checks, m3, es, RoundManager);
    var c := Component(RoundManager, es);
    RetrievalStartedTracked(checks, m3.(roundTx := Some(c), roundClose := Some(c), log := m3.log + [Started(c)]), es);
  }

  lemma NothingHeld(m: Manager)
    requires Handles(m) == {}
    ensures m.roundClose.None? && m.bufferReset.None? && m.retrievalTx.None? && m.coordinatorTx.None?
  {
    assert One(m.roundClose) <= Handles(m) && One(m.bufferReset) <= Handles(m);
    assert One(m.retrievalTx) <= Handles(m) && One(m.coordinatorTx) <= Handles(m);
    assert forall h: Option<Component> :: h.Some? ==> h.value in One(h);
  }

  lemma EpochStartedKeepsInv(checks: Checks, m: Manager, n: Notification)
    requires Tracked(checks, m) && Running(m.log) == {}
    ensures Inv(checks, EpochStarted(m, n))
  {
    NothingHeld(m);
    var flag := if n.fullRecovery then n.quorumStore else m.quorumStoreEnabled;
    Append(checks, m.log, NewEpoch(n.epochState, flag));
    var m1 := m.(epochState := Some(n.epochState), quorumStoreEnabled := flag, log := m.log + [NewEpoch(n.epochState, flag)]);
    assert Tracked(checks, m1);
    if n.fullRecovery {
      RoundStartedKeepsInv(checks, m1, n.epochState, n.decoupled);
    } else {
      ProcessorStartedTracked(checks, m1, n.epochState, RecoveryManager);
    }
  }

  /** Entries that start and close nothing. */
  lemma QuietEntryKeepsInv(checks: Checks, m: Manager, e: Entry)
    requires Inv(checks, m) && EntryAllowed(checks, m.log, e)
    requires e.Delivered? || e.SentEpochProof? || e.SentRetrieval?
    ensures Inv(checks, m.(log := m.log + [e]))
  {
    Append(checks, m.log, e);
  }

  lemma DeliveryAllowed(checks: Checks, m: Manager, event: NetworkEvent, to: Component)
    requires Inv(checks, m) && event.epoch == m.epochState.value.epoch
    requires checks.event(event, m.epochState.value.verifier, m.quorumStoreEnabled)
    requires event.kind == QuorumStoreEvent ==> m.quorumStoreEnabled
    requires match event.kind
             case QuorumStoreEvent => m.quorumStoreTx == m.coordinatorTx == Some(to)
             case CommitEvent => m.bufferTx == Some(to)
             case RoundEvent => m.roundTx == Some(to)
    ensures EntryAllowed(checks, m.log, Delivered(event, to, m.quorumStoreEnabled))
  {
    assert to in Handles(m);
  }

  lemma DeliveryKeepsInv(checks: Checks, m: Manager, event: NetworkEvent)
    requires Inv(checks, m) && event.epoch == m.epochState.value.epoch
    requires checks.event(event, m.epochState.value.verifier, m.quorumStoreEnabled)
    requires event.kind == QuorumStoreEvent ==> m.quorumStoreEnabled
    ensures Inv(checks, EventProcessed(m, event).0)
  {
    var to := match event.kind
      case QuorumStoreEvent => m.quorumStoreTx
      case CommitEvent => m.bufferTx
      case RoundEvent => m.roundTx;
    if to.Some? && (event.kind == QuorumStoreEvent ==> !QuorumStoreGone(m)) {
      DeliveryAllowed(checks, m, event, to.value);
      QuietEntryKeepsInv(checks, m, Delivered(event, to.value, m.quorumStoreEnabled));
    }
  }

  lemma EpochChangeKeepsInv(checks: Checks, m: Manager, proof: nat, n: Notification)
    requires Inv(checks, m)
    ensures Inv(checks, EpochInitiated(checks, m, proof, n).0)
  {
    ShutDownClosesAll(checks, m);
    EpochStartedKeepsInv(checks, ShutDown(m), n);
  }

  lemma MessageKeepsInv(checks: Checks, author: Author, m: Manager, peer: Author, msg: Message, n: Notification)
    requires Inv(checks, m)
    ensures Inv(checks, MessageProcessed(checks, author, m, peer, msg, n).0)
  {
    var own := m.epochState.value;
    match msg
    case Event(event) =>
      if event.epoch > own.epoch {
        QuietEntryKeepsInv(checks, m, SentRetrieval(peer, own.epoch, event.epoch));
      } else if event.epoch < own.epoch {
        QuietEntryKeepsInv(checks, m, SentEpochProof(peer, event.epoch, own.epoch));
      } else if checks.event(event, own.verifier, m.quorumStoreEnabled) && (event.kind == QuorumStoreEvent ==> m.quorumStoreEnabled) {
        DeliveryKeepsInv(checks, m, event);
      }
    case EpochProof(first, body) => EpochChangeKeepsInv(checks, m, body, n);
    case RetrievalRequest(start, end) =>
      QuietEntryKeepsInv(checks, m, SentEpochProof(peer, start, end));
    case Unexpected =>
  }

  // ---------------------------------------------------------------------- runs

  datatype Input = Input(peer: Author, message: Message, notification: Notification)

  /** The first notification, then messages one at a time. */
  function RunManager(checks: Checks, author: Author, first: Notification, inputs: seq<Input>): (m: Manager)
    ensures m.epochState.Some? && m.roundTx.Some?
  {
    if inputs == [] then EpochStarted(INITIAL, first)
    else
      var i := inputs[|inputs| - 1];
      MessageProcessed(checks, author, RunManager(checks, author, first, inputs[..|inputs| - 1]), i.peer, i.message, i.notification).0
  }

  /** In every run: an epoch begins with no component running, every component is started for the current
      epoch next to components of that epoch only and of other kinds, and every network event handed to a
      component has the current epoch, passed that epoch's validators' check, and goes to a running component
      of that epoch. */
  lemma {:induction false} EpochIsolation(checks: Checks, author: Author, first: Notification, inputs: seq<Input>)
    ensures Inv(checks, RunManager(checks, author, first, inputs))
  {
    if inputs == [] {
      EpochStartedKeepsInv(checks, INITIAL, first);
    } else {
      var i := inputs[|inputs| - 1];
      EpochIsolation(checks, author, first, inputs[..|inputs| - 1]);
      MessageKeepsInv(checks, author, RunManager(checks, author, first, inputs[..|inputs| - 1]), i.peer, i.message, i.notification);
    }
  }

  /** In every run there is exactly one processor, and no component of another epoch. */
  lemma SingleProcessor(checks: Checks, author: Author, first: Notification, inputs: seq<Input>)
    ensures var m := RunManager(checks, author, first, inputs);
            && (exists c :: c in Running(m.log) && IsProcessor(c.kind))
            && (forall c, d :: c in Running(m.log) && d in Running(m.log) && IsProcessor(c.kind) && IsProcessor(d.kind) ==> c == d)
            && forall c :: c in Running(m.log) ==> m.epochState == Some(c.epochState)
  {
    EpochIsolation(checks, author, first, inputs);
    InvSingleProcessor(checks, RunManager(checks, author, first, inputs));
  }

  lemma InvSingleProcessor(checks: Checks, m: Manager)
    requires Inv(checks, m)
    ensures exists c :: c in Running(m.log) && IsProcessor(c.kind)
    ensures forall c, d :: c in Running(m.log) && d in Running(m.log) && IsProcessor(c.kind) && IsProcessor(d.kind) ==> c == d
    ensures forall c :: c in Running(m.log) ==> m.epochState == Some(c.epochState)
  {
    assert m.roundClose.value in Running(m.log);
    forall c | c in Running(m.log)
      ensures m.epochState == Some(c.epochState) && (IsProcessor(c.kind) ==> c == m.roundClose.value)
    {
      assert c in Handles(m);
    }
  }

  // ----------------------------------------------------- every message, exactly

  /** The notifications a run acts on, one for each epoch entered. */
  function Notifications(checks: Checks, author: Author, first: Notification, inputs: seq<Input>): (ns: seq<Notification>)
    ensures ns != []
  {
    if inputs == [] then [first]
    else
      var before, i := inputs[..|inputs| - 1], inputs[|inputs| - 1];
      var own := RunManager(checks, author, first, before).epochState.value;
      Notifications(checks, author, first, before) + if ChangesEpoch(checks, own, i.message) then [i.notification] else []
  }

  predicate ChangesEpoch(checks: Checks, own: EpochState, msg: Message)
  {
    msg.EpochProof? && msg.firstEpoch == Some(own.epoch) && checks.proof(msg.body, own)
  }

  /** The last epoch entered with full recovery, if any: it alone sets up a quorum store. */
  function LastFull(ns: seq<Notification>): Option<Notification>
  {
    if ns == [] then None
    else if ns[|ns| - 1].fullRecovery then Some(ns[|ns| - 1])
    else LastFull(ns[..|ns| - 1])
  }

  predicate QuorumStoreOn(ns: seq<Notification>)
  {
    LastFull(ns).Some? && LastFull(ns).value.quorumStore
  }

  /** The processor an epoch runs: it handles the round events. */
  function Processor(n: Notification): Component
  {
    Component(if n.fullRecovery then RoundManager else RecoveryManager, n.epochState)
  }

  /** All components an epoch runs. */
  function Components(n: Notification): set<Component>
  {
    {Processor(n)}
    + (if n.fullRecovery then {Component(RetrievalTask, n.epochState)} else {})
    + (if n.fullRecovery && n.decoupled then {Component(BufferManager, n.epochState)} else {})
    + (if n.fullRecovery && n.quorumStore then {Component(Coordinator, n.epochState)} else {})
  }

  /** What the notifications say about the manager's handles. */
  ghost predicate Described(m: Manager, ns: seq<Notification>)
    requires ns != []
  {
    var last := ns[|ns| - 1];
    && m.epochState == Some(last.epochState)
    && m.roundTx == m.roundClose == Some(Processor(last))
    && m.bufferTx == m.bufferReset == (if last.fullRecovery && last.decoupled then Some(Component(BufferManager, last.epochState)) else None)
    && m.retrievalTx == (if last.fullRecovery then Some(Component(RetrievalTask, last.epochState)) else None)
    && m.quorumStoreEnabled == QuorumStoreOn(ns)
    && m.quorumStoreTx == (if QuorumStoreOn(ns) then Some(Component(Coordinator, LastFull(ns).value.epochState)) else None)
    && m.coordinatorTx == (if last.fullRecovery && last.quorumStore then Some(Component(Coordinator, last.epochState)) else None)
  }

  lemma EpochStartedDescribed(m: Manager, ns: seq<Notification>, n: Notification)
    requires m.bufferTx.None? && m.bufferReset.None? && m.retrievalTx.None? && m.coordinatorTx.None?
    requires m.quorumStoreEnabled == QuorumStoreOn(ns)
    requires m.quorumStoreTx == if QuorumStoreOn(ns) then Some(Component(Coordinator, LastFull(ns).value.epochState)) else None
    ensures Described(EpochStarted(m, n), ns + [n])
  {
    assert (ns + [n])[..|ns|] == ns;
  }

  lemma OtherMessagesKeepHandles(checks: Checks, author: Author, m: Manager, peer: Author, msg: Message, n: Notification)
    requires m.epochState.Some? && m.roundTx.Some? && !ChangesEpoch(checks, m.epochState.value, msg)
    ensures var m' := MessageProcessed(checks, author, m, peer, msg, n).0; m' == m.(log := m'.log)
  {
  }

  lemma {:induction false} RunDescribed(checks: Checks, author: Author, first: Notification, inputs: seq<Input>)
    ensures Described(RunManager(checks, author, first, inputs), Notifications(checks, author, first, inputs))
  {
    if inputs == [] {
      EpochStartedDescribed(INITIAL, [], first);
      assert [] + [first] == [first];
    } else {
      var before, i := inputs[..|inputs| - 1], inputs[|inputs| - 1];
      var m, ns := RunManager(checks, author, first, before), Notifications(checks, author, first, before);
      RunDescribed(checks, author, first, before);
      if ChangesEpoch(checks, m.epochState.value, i.message) {
        EpochStartedDescribed(ShutDown(m), ns, i.notification);
      } else {
        OtherMessagesKeepHandles(checks, author, m, i.peer, i.message, i.notification);
        assert Notifications(checks, author, first, inputs) == ns;
      }
    }
  }

  ghost predicate RunsComponents(m: Manager, ns: seq<Notification>)
    requires ns != []
  {
    Running(m.log) == Components(ns[|ns| - 1])
  }

  /** In every run, what is running is what the last notification calls for. */
  lemma RunningExactly(checks: Checks, author: Author, first: Notification, inputs: seq<Input>)
    ensures RunsComponents(RunManager(checks, author, first, inputs), Notifications(checks, author, first, inputs))
  {
    EpochIsolation(checks, author, first, inputs);
    RunDescribed(checks, author, first, inputs);
    DescribedRuns(checks, RunManager(checks, author, first, inputs), Notifications(checks, author, first, inputs));
  }

  lemma DescribedRuns(checks: Checks, m: Manager, ns: seq<Notification>)
    requires ns != [] && Described(m, ns) && Tracked(checks, m)
    ensures RunsComponents(m, ns)
  {
  }

  /** What a message that changes no epoch does to the log, from the notifications alone; `None` is an error. */
  ghost function Outcome(checks: Checks, author: Author, ns: seq<Notification>, peer: Author, msg: Message): Option<seq<Entry>>
    requires ns != []
  {
    var last, on := ns[|ns| - 1], QuorumStoreOn(ns);
    var own := last.epochState;
    match msg
    case Event(event) =>
      if event.epoch > own.epoch then Some([SentRetrieval(peer, own.epoch, event.epoch)])
      else if event.epoch < own.epoch then
        Some(if author in own.verifier.powers then [] else [SentEpochProof(peer, event.epoch, own.epoch)])
      else if !checks.event(event, own.verifier, on) then None
      else (match event.kind
            case RoundEvent => Some([Delivered(event, Processor(last), on)])
            case CommitEvent =>
              if last.fullRecovery && last.decoupled then Some([Delivered(event, Component(BufferManager, own), on)]) else None
            case QuorumStoreEvent =>
              if last.fullRecovery && last.quorumStore then Some([Delivered(event, Component(Coordinator, own), true)]) else None)
    case EpochProof(_, _) => None
    case RetrievalRequest(start, end) => if end <= own.epoch then Some([SentEpochProof(peer, start, end)]) else None
    case Unexpected => None
  }

  /** The result the outcome stands for. */
  ghost predicate HasOutcome(m: Manager, r: (Manager, bool), outcome: Option<seq<Entry>>)
  {
    r == (m.(log := m.log + (if outcome.Some? then outcome.value else [])), outcome.Some?)
  }

  lemma EventOutcome(checks: Checks, author: Author, m: Manager, ns: seq<Notification>, peer: Author, event: NetworkEvent,
                     n: Notification)
    requires ns != [] && Described(m, ns) && event.epoch == m.epochState.value.epoch
    ensures HasOutcome(m, MessageProcessed(checks, author, m, peer, Event(event), n), Outcome(checks, author, ns, peer, Event(event)))
  {
    assert m.log + [] == m.log;
  }

  lemma MessageOutcome(checks: Checks, author: Author, m: Manager, ns: seq<Notification>, peer: Author, msg: Message, n: Notification)
    requires ns != [] && Described(m, ns) && !ChangesEpoch(checks, m.epochState.value, msg)
    ensures HasOutcome(m, MessageProcessed(checks, author, m, peer, msg, n), Outcome(checks, author, ns, peer, msg))
  {
    if msg.Event? && msg.event.epoch == m.epochState.value.epoch {
      EventOutcome(checks, author, m, ns, peer, msg.event, n);
    } else {
      assert m.log + [] == m.log;
    }
  }

  /** In every run, every message but the proof that ends the epoch is accepted or refused, and leaves on the log, as
      the notifications so far determine: a checked round event goes to the one processor, a checked commit event to the
      buffer manager if there is one, a checked quorum store event to the coordinator if there is one, an event of a
      later epoch asks for the proof from here to there, one of an earlier epoch is answered with it. */
  lemma MessagesExactly(checks: Checks, author: Author, first: Notification, inputs: seq<Input>,
                        peer: Author, msg: Message, n: Notification)
    requires !ChangesEpoch(checks, RunManager(checks, author, first, inputs).epochState.value, msg)
    ensures var m, ns := RunManager(checks, author, first, inputs), Notifications(checks, author, first, inputs);
            HasOutcome(m, MessageProcessed(checks, author, m, peer, msg, n), Outcome(checks, author, ns, peer, msg))
  {
    RunDescribed(checks, author, first, inputs);
    MessageOutcome(checks, author, RunManager(checks, author, first, inputs), Notifications(checks, author, first, inputs), peer, msg, n);
  }

  lemma ShutDownGrows(m: Manager)
    ensures m.log <= ShutDown(m).log
  {
  }

  lemma EpochStartedGrows(m: Manager, n: Notification)
    ensures m.log + [NewEpoch(n.epochState, EpochStarted(m, n).quorumStoreEnabled)] <= EpochStarted(m, n).log
  {
  }

  /** Between `log` and `log'` the epoch began, at a moment when nothing was running. */
  ghost predicate Began(log: seq<Entry>, log': seq<Entry>, es: EpochState, quorumStore: bool)
  {
    exists k :: |log| <= k < |log'| && log <= log' && log'[k] == NewEpoch(es, quorumStore) && Running(log'[..k]) == {}
  }

  lemma BeginsAfterShutDown(checks: Checks, m: Manager, n: Notification)
    requires Tracked(checks, m)
    ensures var m' := EpochStarted(ShutDown(m), n); Began(m.log, m'.log, n.epochState, m'.quorumStoreEnabled)
  {
    var m' := EpochStarted(ShutDown(m), n);
    var k := |ShutDown(m).log|;
    ShutDownClosesAll(checks, m);
    ShutDownGrows(m);
    EpochStartedGrows(ShutDown(m), n);
    assert m'.log[..k] == ShutDown(m).log;
    assert m'.log[k] == NewEpoch(n.epochState, m'.quorumStoreEnabled);
  }

  lemma EndingStep(checks: Checks, author: Author, m: Manager, ns: seq<Notification>, peer: Author, msg: Message, n: Notification)
    requires ns != [] && Described(m, ns) && Inv(checks, m) && ChangesEpoch(checks, m.epochState.value, msg)
    ensures var (m', ok) := MessageProcessed(checks, author, m, peer, msg, n);
            && ok && m' == EpochStarted(ShutDown(m), n) && Inv(checks, m') && Described(m', ns + [n])
  {
    EpochStartedDescribed(ShutDown(m), ns, n);
    EpochChangeKeepsInv(checks, m, msg.body, n);
  }

  /** A proof that ends the epoch is accepted; every component is stopped before the epoch of the notification begins,
      and then exactly that epoch's run. */
  lemma EpochEndsExactly(checks: Checks, author: Author, first: Notification, inputs: seq<Input>,
                         peer: Author, msg: Message, n: Notification)
    requires ChangesEpoch(checks, RunManager(checks, author, first, inputs).epochState.value, msg)
    ensures var m, ns := RunManager(checks, author, first, inputs), Notifications(checks, author, first, inputs);
            var (m', ok) := MessageProcessed(checks, author, m, peer, msg, n);
            && ok && m'.epochState == Some(n.epochState) && Running(m'.log) == Components(n)
            && Began(m.log, m'.log, n.epochState, QuorumStoreOn(ns + [n]))
  {
    var m, ns := RunManager(checks, author, first, inputs), Notifications(checks, author, first, inputs);
    RunDescribed(checks, author, first, inputs);
    EpochIsolation(checks, author, first, inputs);
    EndingStep(checks, author, m, ns, peer, msg, n);
    BeginsAfterShutDown(checks, m, n);
    DescribedRuns(checks, EpochStarted(ShutDown(m), n), ns + [n]);
  }

  /** In every run, a quorum store event of the current epoch that passes its check is accepted if and only if
      the epoch was entered with full recovery and its quorum store is on, and is then handed to that one.
      While the quorum store is on, the one error left is that the channel kept is an earlier epoch's, which
      happens exactly when the current epoch was entered in recovery mode. */
  lemma QuorumStoreEventsExactly(checks: Checks, author: Author, first: Notification, inputs: seq<Input>,
                                 peer: Author, event: NetworkEvent, n: Notification)
    requires var m := RunManager(checks, author, first, inputs);
             && event.kind == QuorumStoreEvent && event.epoch == m.epochState.value.epoch
             && checks.event(event, m.epochState.value.verifier, m.quorumStoreEnabled)
    ensures QuorumStoreHandled(RunManager(checks, author, first, inputs), Notifications(checks, author, first, inputs), event,
                               MessageProcessed(checks, author, RunManager(checks, author, first, inputs), peer, Event(event), n))
  {
    RunDescribed(checks, author, first, inputs);
    QuorumStoreOutcome(checks, author, RunManager(checks, author, first, inputs), Notifications(checks, author, first, inputs), peer, event, n);
  }

  ghost predicate QuorumStoreHandled(m: Manager, ns: seq<Notification>, event: NetworkEvent, r: (Manager, bool))
    requires ns != []
  {
    var last, ok := ns[|ns| - 1], r.1;
    && (ok <==> last.fullRecovery && last.quorumStore)
    && (QuorumStoreOn(ns) ==> (!ok <==> !last.fullRecovery))
    && (QuorumStoreOn(ns) ==> (!ok <==> QuorumStoreGone(m)))
    && r.0 == (if ok then m.(log := m.log + [Delivered(event, Component(Coordinator, last.epochState), true)]) else m)
  }

  lemma QuorumStoreOutcome(checks: Checks, author: Author, m: Manager, ns: seq<Notification>, peer: Author, event: NetworkEvent,
                           n: Notification)
    requires ns != [] && Described(m, ns)
    requires event.kind == QuorumStoreEvent && event.epoch == m.epochState.value.epoch
    requires checks.event(event, m.epochState.value.verifier, m.quorumStoreEnabled)
    ensures QuorumStoreHandled(m, ns, event, MessageProcessed(checks, author, m, peer, Event(event), n))
  {
  }

  /** The error does occur: leave an epoch that has a quorum store and enter the next in recovery mode. */
  lemma ClosedQuorumStoreRefuses(checks: Checks, author: Author, peer: Author, first: Notification, second: Notification,
                                 proof: nat, event: NetworkEvent)
    requires first.fullRecovery && first.quorumStore && !second.fullRecovery
    requires checks.proof(proof, first.epochState)
    requires event.kind == QuorumStoreEvent && event.epoch == second.epochState.epoch
    requires checks.event(event, second.epochState.verifier, true)
    ensures var change := Input(peer, EpochProof(Some(first.epochState.epoch), proof), second);
            var m := RunManager(checks, author, first, [change]);
            QuorumStoreGone(m) && MessageProcessed(checks, author, m, peer, Event(event), second) == (m, false)
  {
    var change := Input(peer, EpochProof(Some(first.epochState.epoch), proof), second);
    assert [change][..0] == [];
    var m0 := RunManager(checks, author, first, []);
    assert RunManager(checks, author, first, [change]) == EpochStarted(ShutDown(m0), second);
  }
}
