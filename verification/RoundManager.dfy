/** When one validator votes, repeats its vote as a timeout, persists it and resumes after a crash.

    The safety rules are a black box here: asked to vote in a round, they may return any vote of
    that round.  That a validator never contradicts itself on the wire is then the work of the
    round manager alone. */
module RoundManagerModel {
  import opened Common
  import opened ConsensusTypes

  /** A vote message put on the wire, together with the vote storage held at that moment. */
  datatype Sending = Sending(vote: Vote, persisted: Option<Vote>)

  datatype Manager = Manager(
    currentRound: Round,
    voteSent: Option<Vote>,
    lastVote: Option<Vote>,
    sent: seq<Sending>)

  /** Executing the block and signing a vote on it, and whether saving that vote succeeded. */
  datatype VoteAnswer = VoteAnswer(signed: Option<Vote>, saved: bool)

  /** The vote on a NIL block (none if it cannot be built), and the timeout signature on top of the
      highest quorum certificate. */
  datatype TimeoutAnswer = TimeoutAnswer(nilVote: VoteAnswer, highestQc: QuorumCert, signed: bool)

  /** The round after the highest known certificate once a peer's certificates are in, and whether
      bringing them in succeeded. */
  datatype Sync = Sync(round: Round, ok: bool)

  datatype VoteOutcome = Certified(round: Round) | Echoed | Collected

  datatype Event =
    | ProposalMsg(round: Round, sync: Sync, checksPass: bool, backPressure: bool, syncOnly: bool, answer: VoteAnswer)
    | DelayedProposal(round: Round, syncOnly: bool, answer: VoteAnswer)
    | LocalTimeout(round: Round, syncOnly: bool, timeoutAnswer: TimeoutAnswer)
    | VoteMsg(round: Round, sync: Sync, outcome: VoteOutcome, syncOnly: bool, timeoutAnswer: TimeoutAnswer)
    | SyncInfoMsg(round: Round, sync: Sync)
    // Crash, then start again at `round` from persistent storage.
    | Resume(round: Round)

  // ----------------------------------------------------- handlers as functions

  /** A higher certified round starts a new round with no vote sent yet. */
  function EnterRound(m: Manager, round: Round): Manager
  {
    if round > m.currentRound then m.(currentRound := round, voteSent := None) else m
  }

  function RecordVote(m: Manager, vote: Vote): Manager
  {
    if vote.Round() == m.currentRound then m.(voteSent := Some(vote)) else m
  }

  function Send(m: Manager, vote: Vote): Manager
  {
    m.(sent := m.sent + [Sending(vote, m.lastVote)])
  }

  function ExecuteAndVote(m: Manager, syncOnly: bool, answer: VoteAnswer): (Manager, Option<Vote>)
  {
    if m.voteSent.Some? || syncOnly || answer.signed.None? || !answer.saved then (m, None)
    else (m.(lastVote := answer.signed), answer.signed)
  }

  function VerifiedProposal(m: Manager, syncOnly: bool, answer: VoteAnswer): Manager
  {
    var (m', vote) := ExecuteAndVote(m, syncOnly, answer);
    if vote.None? then m' else Send(RecordVote(m', vote.value), vote.value)
  }

  function WithTimeout(vote: Vote, qc: QuorumCert): Vote
  {
    vote.(twoChainTimeout := Some(TwoChainTimeout(vote.Epoch(), vote.Round(), qc)))
  }

  /** Repeat this round's vote as a timeout; without one, vote for a NIL block first. */
  function Timeout(m: Manager, round: Round, syncOnly: bool, a: TimeoutAnswer): Manager
  {
    if round != m.currentRound || syncOnly then m
    else
      var (m', vote) :=
        if m.voteSent.Some? && m.voteSent.value.Round() == round then (m, m.voteSent)
        else ExecuteAndVote(m, syncOnly, a.nilVote);
      if vote.None? then m'
      else if !vote.value.IsTimeout() && !a.signed then m'
      else
        var t := if vote.value.IsTimeout() then vote.value else WithTimeout(vote.value, a.highestQc);
        Send(RecordVote(m', t), t)
  }

  /** Drop stale messages; otherwise bring in the peer's certificates. */
  function EnsureRound(m: Manager, round: Round, sync: Sync): (Manager, bool)
  {
    if round < m.currentRound then (m, false)
    else
      var m' := EnterRound(m, sync.round);
      (m', sync.ok && round == m'.currentRound)
  }

  function Handle(m: Manager, e: Event): Manager
  {
    match e
    case ProposalMsg(round, sync, checksPass, backPressure, syncOnly, answer) =>
      var (m', upToDate) := EnsureRound(m, round, sync);
      if upToDate && checksPass && !backPressure then VerifiedProposal(m', syncOnly, answer) else m'
    case DelayedProposal(round, syncOnly, answer) =>
      if round != m.currentRound then m else VerifiedProposal(m, syncOnly, answer)
    case LocalTimeout(round, syncOnly, a) => Timeout(m, round, syncOnly, a)
    case VoteMsg(round, sync, outcome, syncOnly, a) =>
      var (m', upToDate) := EnsureRound(m, round, sync);
      if !upToDate then m'
      else (match outcome
            case Certified(next) => EnterRound(m', next)
            case Echoed =>
              if m'.voteSent.Some? && m'.voteSent.value.IsTimeout() then m' else Timeout(m', round, syncOnly, a)
            case Collected => m')
    case SyncInfoMsg(round, sync) => EnsureRound(m, round, sync).0
    case Resume(round) =>
      var m' := m.(currentRound := round, voteSent := None);
      if m.lastVote.Some? then RecordVote(m', m.lastVote.value) else m'
  }

  function HandleAll(m: Manager, events: seq<Event>): Manager
  {
    if events == [] then m else Handle(HandleAll(m, events[..|events| - 1]), events[|events| - 1])
  }

  // ------------------------------------------------------------------ the class

  class RoundManager {
    var currentRound: Round
    var voteSent: Option<Vote>
    var lastVote: Option<Vote>
    var sent: seq<Sending>

    ghost function State(): Manager
      reads this
    {
      Manager(currentRound, voteSent, lastVote, sent)
    }

    constructor (round: Round)
      ensures State() == Fresh(round)
    {
      currentRound, voteSent, lastVote, sent := round, None, None, [];
    }

    method ProcessCertificates(round: Round)
      modifies this
      ensures State() == EnterRound(old(State()), round)
    {
      if round > currentRound {
        currentRound := round;
        voteSent := None;
      }
    }

    method RecordVoteSent(vote: Vote)
      modifies this`voteSent
      ensures State() == RecordVote(old(State()), vote)
    {
      if vote.Round() == currentRound {
        voteSent := Some(vote);
      }
    }

    method SendVote(vote: Vote)
      modifies this`sent
      ensures State() == Send(old(State()), vote)
    {
      sent := sent + [Sending(vote, lastVote)];
    }

    method Vote(syncOnly: bool, answer: VoteAnswer) returns (vote: Option<Vote>)
      modifies this`lastVote
      ensures (State(), vote) == ExecuteAndVote(old(State()), syncOnly, answer)
    {
      if voteSent.Some? {
        return None;
      }
      if syncOnly || answer.signed.None? || !answer.saved {
        return None;
      }
      lastVote := answer.signed;
      return answer.signed;
    }

    method ProcessVerifiedProposal(syncOnly: bool, answer: VoteAnswer)
      modifies this
      ensures State() == VerifiedProposal(old(State()), syncOnly, answer)
    {
      var vote := Vote(syncOnly, answer);
      if vote.Some? {
        RecordVoteSent(vote.value);
        SendVote(vote.value);
      }
    }

    method ProcessLocalTimeout(round: Round, syncOnly: bool, a: TimeoutAnswer)
      modifies this
      ensures State() == Timeout(old(State()), round, syncOnly, a)
    {
      if round != currentRound || syncOnly {
        return;
      }
      var vote := voteSent;
      if !(voteSent.Some? && voteSent.value.Round() == round) {
        vote := Vote(syncOnly, a.nilVote);
      }
      if vote.None? {
        return;
      }
      var timeoutVote := vote.value;
      if !timeoutVote.IsTimeout() {
        if !a.signed {
          return;
        }
        timeoutVote := WithTimeout(timeoutVote, a.highestQc);
      }
      RecordVoteSent(timeoutVote);
      SendVote(timeoutVote);
    }

    method EnsureRoundAndSyncUp(round: Round, sync: Sync) returns (upToDate: bool)
      modifies this
      ensures (State(), upToDate) == EnsureRound(old(State()), round, sync)
    {
      if round < currentRound {
        return false;
      }
      ProcessCertificates(sync.round);
      return sync.ok && round == currentRound;
    }

    method Init(round: Round)
      modifies this
      ensures State() == Handle(old(State()), Resume(round))
    {
      currentRound, voteSent := round, None;
      if lastVote.Some? {
        RecordVoteSent(lastVote.value);
      }
    }

    method Process(e: Event)
      modifies this
      ensures State() == Handle(old(State()), e)
    {
      match e {
        case ProposalMsg(round, sync, checksPass, backPressure, syncOnly, answer) =>
          var upToDate := EnsureRoundAndSyncUp(round, sync);
          if upToDate && checksPass && !backPressure {
            ProcessVerifiedProposal(syncOnly, answer);
          }
        case DelayedProposal(round, syncOnly, answer) =>
          if round == currentRound {
            ProcessVerifiedProposal(syncOnly, answer);
          }
        case LocalTimeout(round, syncOnly, a) =>
          ProcessLocalTimeout(round, syncOnly, a);
        case VoteMsg(round, sync, outcome, syncOnly, a) =>
          var upToDate := EnsureRoundAndSyncUp(round, sync);
          if upToDate {
            match outcome {
              case Certified(next) => ProcessCertificates(next);
              case Echoed =>
                if !(voteSent.Some? && voteSent.value.IsTimeout()) {
                  ProcessLocalTimeout(round, syncOnly, a);
                }
              case Collected =>
            }
          }
        case SyncInfoMsg(round, sync) =>
          var _ := EnsureRoundAndSyncUp(round, sync);
        case Resume(round) =>
          Init(round);
      }
    }

    /** The main loop. */
    method Start(events: seq<Event>)
      modifies this
      ensures State() == HandleAll(old(State()), events)
    {
      for i := 0 to |events|
        invariant State() == HandleAll(old(State()), events[..i])
      {
        Process(events[i]);
        assert events[..i + 1][..i] == events[..i];
      }
      assert events[..|events|] == events;
    }
  }

  // ---------------------------------------------------------------- properties

  /** The same vote, timeout signature aside. */
  predicate SameVote(v: Vote, w: Vote)
  {
    v.voteData == w.voteData && v.ledgerInfo == w.ledgerInfo && v.author == w.author
  }

  predicate AnswersFor(answer: VoteAnswer, round: Round)
  {
    answer.signed.Some? ==> answer.signed.value.Round() == round
  }

  /** Nothing was sent above the round to resume in, and if something was sent in it, the persisted
      vote is of that round. */
  predicate ResumeSafe(m: Manager, round: Round)
  {
    forall i :: 0 <= i < |m.sent| ==>
      || m.sent[i].vote.Round() < round
      || (m.sent[i].vote.Round() == round && m.lastVote.Some? && m.lastVote.value.Round() == round)
  }

  /** What the collaborators guarantee: a vote on a block is of the block's round, and restarts are
      safe to resume. */
  predicate Permitted(m: Manager, e: Event)
  {
    match e
    case ProposalMsg(round, _, _, _, _, answer) => AnswersFor(answer, round)
    case DelayedProposal(round, _, answer) => AnswersFor(answer, round)
    case LocalTimeout(round, _, a) => AnswersFor(a.nilVote, round)
    case VoteMsg(round, _, _, _, a) => AnswersFor(a.nilVote, round)
    case SyncInfoMsg(_, _) => true
    case Resume(round) => ResumeSafe(m, round)
  }

  predicate PermittedRun(m: Manager, events: seq<Event>)
  {
    events != [] ==>
      var before := events[..|events| - 1];
      PermittedRun(m, before) && Permitted(HandleAll(m, before), events[|events| - 1])
  }

  /** No two messages of one round carry different votes. */
  ghost predicate NeverEquivocates(sent: seq<Sending>)
  {
    forall i, j :: 0 <= i < |sent| && 0 <= j < |sent| && sent[i].vote.Round() == sent[j].vote.Round() ==>
      SameVote(sent[i].vote, sent[j].vote)
  }

  /** Every message went out after its vote was on disk. */
  ghost predicate PersistedBeforeSent(sent: seq<Sending>)
  {
    forall i :: 0 <= i < |sent| ==> sent[i].persisted.Some? && SameVote(sent[i].vote, sent[i].persisted.value)
  }

  ghost predicate ManagerInv(m: Manager)
  {
    && NeverEquivocates(m.sent)
    && PersistedBeforeSent(m.sent)
    && (m.voteSent.Some? ==>
          && m.voteSent.value.Round() == m.currentRound
          && m.lastVote.Some? && SameVote(m.voteSent.value, m.lastVote.value))
    && (forall i :: 0 <= i < |m.sent| ==>
          && m.sent[i].vote.Round() <= m.currentRound
          && (m.sent[i].vote.Round() == m.currentRound ==> m.voteSent.Some?)
          && (m.lastVote.Some? && m.sent[i].vote.Round() == m.lastVote.value.Round() ==>
                SameVote(m.sent[i].vote, m.lastVote.value)))
  }

  lemma EnterRoundKeepsInv(m: Manager, round: Round)
    requires ManagerInv(m)
    ensures ManagerInv(EnterRound(m, round))
  {
    assert EnterRound(m, round).sent == m.sent;
  }

  /** A fresh vote of the current round, while none has been sent in it. */
  lemma NewVoteKeepsInv(m: Manager, vote: Vote, onWire: Vote)
    requires ManagerInv(m) && m.voteSent.None? && vote.Round() == m.currentRound && SameVote(vote, onWire)
    ensures var m' := m.(lastVote := Some(vote));
            ManagerInv(m') && ManagerInv(Send(RecordVote(m', onWire), onWire))
  {
  }

  /** Repeating the vote already recorded for the round. */
  lemma RepeatKeepsInv(m: Manager, onWire: Vote)
    requires ManagerInv(m) && m.voteSent.Some? && SameVote(m.voteSent.value, onWire)
    ensures ManagerInv(Send(RecordVote(m, onWire), onWire))
  {
  }

  lemma VerifiedProposalKeepsInv(m: Manager, syncOnly: bool, answer: VoteAnswer)
    requires ManagerInv(m) && AnswersFor(answer, m.currentRound)
    ensures ManagerInv(VerifiedProposal(m, syncOnly, answer))
  {
    var (m', vote) := ExecuteAndVote(m, syncOnly, answer);
    if vote.Some? {
      NewVoteKeepsInv(m, vote.value, vote.value);
    }
  }

  lemma TimeoutKeepsInv(m: Manager, round: Round, syncOnly: bool, a: TimeoutAnswer)
    requires ManagerInv(m) && AnswersFor(a.nilVote, round)
    ensures ManagerInv(Timeout(m, round, syncOnly, a))
  {
    if round == m.currentRound && !syncOnly {
      if m.voteSent.Some? {
        var v := m.voteSent.value;
        RepeatKeepsInv(m, if v.IsTimeout() then v else WithTimeout(v, a.highestQc));
      } else {
        var (m', vote) := ExecuteAndVote(m, syncOnly, a.nilVote);
        if vote.Some? {
          var v := vote.value;
          NewVoteKeepsInv(m, v, if v.IsTimeout() then v else WithTimeout(v, a.highestQc));
        }
      }
    }
  }

  lemma HandleKeepsInv(m: Manager, e: Event)
    requires ManagerInv(m) && Permitted(m, e)
    ensures ManagerInv(Handle(m, e))
  {
    match e
    case ProposalMsg(round, sync, _, _, syncOnly, answer) =>
      EnterRoundKeepsInv(m, sync.round);
      if round >= m.currentRound && round == EnterRound(m, sync.round).currentRound {
        VerifiedProposalKeepsInv(EnterRound(m, sync.round), syncOnly, answer);
      }
    case DelayedProposal(round, syncOnly, answer) =>
      if round == m.currentRound {
        VerifiedProposalKeepsInv(m, syncOnly, answer);
      }
    case LocalTimeout(round, syncOnly, a) => TimeoutKeepsInv(m, round, syncOnly, a);
    case VoteMsg(round, sync, outcome, syncOnly, a) =>
      EnterRoundKeepsInv(m, sync.round);
      var m' := EnterRound(m, sync.round);
      TimeoutKeepsInv(m', round, syncOnly, a);
      if outcome.Certified? {
        EnterRoundKeepsInv(m', outcome.round);
      }
    case SyncInfoMsg(_, sync) => EnterRoundKeepsInv(m, sync.round);
    case Resume(_) =>
  }

  lemma {:induction false} RunKeepsManagerInv(m: Manager, events: seq<Event>)
    requires ManagerInv(m) && PermittedRun(m, events)
    ensures ManagerInv(HandleAll(m, events))
  {
    if events != [] {
      var n := |events| - 1;
      var before := events[..n];
      RunKeepsManagerInv(m, before);
      HandleKeepsInv(HandleAll(m, before), events[n]);
    }
  }

  /** Over every interleaving of proposals, delayed proposals, votes, timeouts and restarts, whatever
      the safety rules answer, a validator's messages of one round all carry the same vote, and each
      went out only after that vote was persisted. */
  lemma HonestNeverEquivocates(round: Round, events: seq<Event>)
    requires PermittedRun(Fresh(round), events)
    ensures var sent := HandleAll(Fresh(round), events).sent;
            NeverEquivocates(sent) && PersistedBeforeSent(sent)
  {
    RunKeepsManagerInv(Fresh(round), events);
  }

  // ------------------------------------------------- which restarts are safe

  /** A vote of the same round for another block. */
  function Rival(v: Vote): Vote
  {
    v.(voteData := v.voteData.(proposed := v.voteData.proposed.(id := v.voteData.proposed.id + 1)))
  }

  /** Move to the round of an earlier message and be asked to vote in it for something else. */
  function RivalEvents(v: Vote): seq<Event>
  {
    [SyncInfoMsg(v.Round(), Sync(v.Round(), true)), DelayedProposal(v.Round(), false, VoteAnswer(Some(Rival(v)), true))]
  }

  lemma RivalRun(m: Manager, v: Vote)
    requires m.currentRound <= v.Round() && (m.currentRound == v.Round() ==> m.voteSent.None?)
    ensures PermittedRun(m, RivalEvents(v))
    ensures HandleAll(m, RivalEvents(v)).sent == m.sent + [Sending(Rival(v), Some(Rival(v)))]
  {
    var events := RivalEvents(v);
    assert events[..1][..0] == [] && events[..0] == [];
    var m1 := HandleAll(m, events[..1]);
    assert m1 == Handle(HandleAll(m, events[..1][..0]), events[0]) == EnterRound(m, v.Round());
    assert HandleAll(m, events) == Handle(m1, events[1]);
  }

  lemma UnsafeResumeEquivocates(m: Manager, round: Round)
    requires !ResumeSafe(m, round)
    ensures var m1 := Handle(m, Resume(round));
            exists events :: PermittedRun(m1, events) && !NeverEquivocates(HandleAll(m1, events).sent)
  {
    var m1 := Handle(m, Resume(round));
    var i :| 0 <= i < |m.sent|
      && !(m.sent[i].vote.Round() < round)
      && !(m.sent[i].vote.Round() == round && m.lastVote.Some? && m.lastVote.value.Round() == round);
    var v := m.sent[i].vote;
    RivalRun(m1, v);
    var sent := HandleAll(m1, RivalEvents(v)).sent;
    assert sent[i].vote == v && sent[|m.sent|].vote == Rival(v);
    assert !SameVote(sent[i].vote, sent[|m.sent|].vote);
  }

  /** Exactly which restarts keep the promise: whatever happens afterwards, the validator never
      contradicts itself if and only if the restart is safe to resume. */
  lemma ResumeExact(m: Manager, round: Round)
    requires ManagerInv(m)
    ensures var m1 := Handle(m, Resume(round));
            ResumeSafe(m, round)
            <==> (forall events :: PermittedRun(m1, events) ==> NeverEquivocates(HandleAll(m1, events).sent))
  {
    var m1 := Handle(m, Resume(round));
    if ResumeSafe(m, round) {
      HandleKeepsInv(m, Resume(round));
      forall events | PermittedRun(m1, events)
        ensures NeverEquivocates(HandleAll(m1, events).sent)
      {
        RunKeepsManagerInv(m1, events);
      }
    } else {
      UnsafeResumeEquivocates(m, round);
    }
  }

  // ------------------------------------- what a restarting validator can check

  /** Nothing has been sent above the persisted vote's round. */
  ghost predicate SentUpToPersisted(m: Manager)
  {
    && (m.lastVote.None? ==> m.sent == [])
    && (m.lastVote.Some? ==> forall i :: 0 <= i < |m.sent| ==> m.sent[i].vote.Round() <= m.lastVote.value.Round())
  }

  lemma EnterRoundSentUpTo(m: Manager, round: Round)
    requires SentUpToPersisted(m)
    ensures SentUpToPersisted(EnterRound(m, round))
  {
    assert EnterRound(m, round).sent == m.sent && EnterRound(m, round).lastVote == m.lastVote;
  }

  lemma VerifiedProposalSentUpTo(m: Manager, syncOnly: bool, answer: VoteAnswer)
    requires ManagerInv(m) && SentUpToPersisted(m) && AnswersFor(answer, m.currentRound)
    ensures SentUpToPersisted(VerifiedProposal(m, syncOnly, answer))
  {
  }

  lemma TimeoutSentUpTo(m: Manager, round: Round, syncOnly: bool, a: TimeoutAnswer)
    requires ManagerInv(m) && SentUpToPersisted(m) && AnswersFor(a.nilVote, round)
    ensures SentUpToPersisted(Timeout(m, round, syncOnly, a))
  {
  }

  lemma HandleSentUpTo(m: Manager, e: Event)
    requires ManagerInv(m) && SentUpToPersisted(m) && Permitted(m, e)
    ensures SentUpToPersisted(Handle(m, e))
  {
    match e
    case ProposalMsg(round, sync, _, _, syncOnly, answer) =>
      EnterRoundKeepsInv(m, sync.round);
      EnterRoundSentUpTo(m, sync.round);
      if round == EnterRound(m, sync.round).currentRound {
        VerifiedProposalSentUpTo(EnterRound(m, sync.round), syncOnly, answer);
      }
    case DelayedProposal(round, syncOnly, answer) =>
      if round == m.currentRound {
        VerifiedProposalSentUpTo(m, syncOnly, answer);
      }
    case LocalTimeout(round, syncOnly, a) => TimeoutSentUpTo(m, round, syncOnly, a);
    case VoteMsg(round, sync, outcome, syncOnly, a) =>
      EnterRoundKeepsInv(m, sync.round);
      EnterRoundSentUpTo(m, sync.round);
      var m' := EnterRound(m, sync.round);
      TimeoutSentUpTo(m', round, syncOnly, a);
      if outcome.Certified? {
        EnterRoundSentUpTo(m', outcome.round);
      }
    case SyncInfoMsg(_, sync) => EnterRoundSentUpTo(m, sync.round);
    case Resume(_) =>
  }

  lemma {:induction false} RunSentUpTo(m: Manager, events: seq<Event>)
    requires ManagerInv(m) && SentUpToPersisted(m) && PermittedRun(m, events)
    ensures SentUpToPersisted(HandleAll(m, events))
  {
    if events != [] {
      var before, last := events[..|events| - 1], events[|events| - 1];
      RunSentUpTo(m, before);
      RunKeepsManagerInv(m, before);
      HandleSentUpTo(HandleAll(m, before), last);
    }
  }

  /** Not below the persisted vote's round: all a restarting validator has to compare. */
  predicate AtPersisted(lastVote: Option<Vote>, round: Round)
  {
    lastVote.Some? ==> round >= lastVote.value.Round()
  }

  lemma AtPersistedIsSafe(m: Manager, round: Round)
    requires SentUpToPersisted(m) && AtPersisted(m.lastVote, round)
    ensures ResumeSafe(m, round)
  {
  }

  function Fresh(round: Round): Manager { Manager(round, None, None, []) }

  /** Restart where `vote` belongs, before anything was sent, and be asked for it. */
  function VoteEvents(vote: Vote): seq<Event>
  {
    [Resume(vote.Round()), DelayedProposal(vote.Round(), false, VoteAnswer(Some(vote), true))]
  }

  lemma VoteReached(start: Round, vote: Vote)
    ensures PermittedRun(Fresh(start), VoteEvents(vote))
    ensures var m := HandleAll(Fresh(start), VoteEvents(vote));
            m.lastVote == Some(vote) && m.sent == [Sending(vote, Some(vote))]
  {
    var events := VoteEvents(vote);
    assert events[..1][..0] == [] && events[..0] == [];
    var m1 := HandleAll(Fresh(start), events[..1]);
    assert m1 == Handle(HandleAll(Fresh(start), events[..1][..0]), events[0]) == Fresh(vote.Round());
    assert HandleAll(Fresh(start), events) == Handle(m1, events[1]);
  }

  /** From the persisted vote alone: resuming at a round is safe in every state reached with that vote on disk
      if and only if the round is not below the vote's. */
  lemma ResumeCheckable(start: Round, lastVote: Option<Vote>, round: Round)
    ensures AtPersisted(lastVote, round) <==>
            (forall events :: PermittedRun(Fresh(start), events) && HandleAll(Fresh(start), events).lastVote == lastVote
               ==> ResumeSafe(HandleAll(Fresh(start), events), round))
  {
    if AtPersisted(lastVote, round) {
      forall events | PermittedRun(Fresh(start), events) && HandleAll(Fresh(start), events).lastVote == lastVote
        ensures ResumeSafe(HandleAll(Fresh(start), events), round)
      {
        RunSentUpTo(Fresh(start), events);
        AtPersistedIsSafe(HandleAll(Fresh(start), events), round);
      }
    } else {
      VoteReached(start, lastVote.value);
      var m := HandleAll(Fresh(start), VoteEvents(lastVote.value));
      assert m.sent[0].vote == lastVote.value;
      assert !ResumeSafe(m, round);
    }
  }

  /** And below it the validator really contradicts itself: send the vote, resume lower, and vote again. */
  lemma ResumeBelowPersistedEquivocates(start: Round, vote: Vote, round: Round)
    requires round < vote.Round()
    ensures var m := Handle(HandleAll(Fresh(start), VoteEvents(vote)), Resume(round));
            exists events :: PermittedRun(m, events) && !NeverEquivocates(HandleAll(m, events).sent)
  {
    VoteReached(start, vote);
    var m := HandleAll(Fresh(start), VoteEvents(vote));
    assert m.sent[0].vote == vote;
    UnsafeResumeEquivocates(m, round);
  }

  /** A run whose restarts all resume no lower than the persisted vote's round. */
  predicate PersistedResumeRun(m: Manager, events: seq<Event>)
  {
    events != [] ==>
      var before, last := events[..|events| - 1], events[|events| - 1];
      && PersistedResumeRun(m, before)
      && if last.Resume? then AtPersisted(HandleAll(m, before).lastVote, last.round) else Permitted(HandleAll(m, before), last)
  }

  /** Such restarts are all safe. */
  lemma {:induction false} PersistedResumesPermitted(m: Manager, events: seq<Event>)
    requires ManagerInv(m) && SentUpToPersisted(m) && PersistedResumeRun(m, events)
    ensures PermittedRun(m, events)
  {
    if events != [] {
      var before, last := events[..|events| - 1], events[|events| - 1];
      PersistedResumesPermitted(m, before);
      RunSentUpTo(m, before);
      if last.Resume? {
        AtPersistedIsSafe(HandleAll(m, before), last.round);
      }
    }
  }
}
