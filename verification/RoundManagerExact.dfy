/** What each event must put on the wire, on disk and on record, in terms of the event and of what the validator had
    recorded before it; no handler is named. */
module RoundManagerExact {
  import opened Common
  import opened ConsensusTypes
  import opened RoundManagerModel

  // ---------------------------------------------------------------- readings

  /** The event is of the round the validator is in once the certificates that came along are in. */
  predicate Current(m: Manager, e: Event)
  {
    match e
    case ProposalMsg(round, sync, _, _, _, _) => m.currentRound <= round == Max(m.currentRound, sync.round) && sync.ok
    case VoteMsg(round, sync, _, _, _) => m.currentRound <= round == Max(m.currentRound, sync.round) && sync.ok
    case SyncInfoMsg(_, _) => false
    case DelayedProposal(round, _, _) => round == m.currentRound
    case LocalTimeout(round, _, _) => round == m.currentRound
    case Resume(_) => false
  }

  /** The vote on record for the event's round: a round entered only now has none. */
  function Voted(m: Manager, e: Event): Option<Vote>
  {
    if e.round == m.currentRound then m.voteSent else None
  }

  /** A proposal the validator turns to. */
  predicate ProposalDue(m: Manager, e: Event)
  {
    Current(m, e) && (e.DelayedProposal? || (e.ProposalMsg? && e.checksPass && !e.backPressure))
  }

  /** The round's own timer, or enough peers' timeouts while the validator's vote is not one itself. */
  predicate TimeoutDue(m: Manager, e: Event)
  {
    && Current(m, e)
    && (e.LocalTimeout? || (e.VoteMsg? && e.outcome.Echoed? && !(Voted(m, e).Some? && Voted(m, e).value.IsTimeout())))
    && !e.syncOnly
  }

  predicate Obtained(answer: VoteAnswer)
  {
    answer.signed.Some? && answer.saved
  }

  /** `t` is `vote` as a timeout: the one it carries, or one of its epoch and round on the given certificate. */
  ghost predicate AsTimeout(t: Vote, vote: Vote, qc: QuorumCert)
  {
    && SameVote(t, vote) && t.IsTimeout()
    && (vote.IsTimeout() ==> t.twoChainTimeout == vote.twoChainTimeout)
    && (!vote.IsTimeout() ==>
          && t.twoChainTimeout.value.epoch == vote.voteData.proposed.epoch
          && t.twoChainTimeout.value.round == vote.voteData.proposed.round
          && t.twoChainTimeout.value.quorumCert == qc)
  }

  // ------------------------------------------------------------------ effects

  /** Exactly one message went out, after its vote was stored, and it is the vote on record for the round. */
  ghost predicate Sent(m: Manager, m': Manager, vote: Vote, stored: Option<Vote>)
  {
    && m'.sent == m.sent + [Sending(vote, stored)]
    && m'.lastVote == stored && stored.Some? && SameVote(vote, stored.value)
    && m'.voteSent == Some(vote) && vote.voteData.proposed.round == m'.currentRound
  }

  /** Nothing went out and nothing was stored. */
  ghost predicate Quiet(m: Manager, m': Manager)
  {
    m'.sent == m.sent && m'.lastVote == m.lastVote
  }

  /** A proposal that is due is voted for exactly if the validator may vote, has not voted in the round, and the vote
      is signed and saved. */
  lemma ProposalExactly(m: Manager, e: Event)
    requires ManagerInv(m) && Permitted(m, e) && ProposalDue(m, e)
    ensures var m' := Handle(m, e);
            && m'.currentRound == e.round
            && if !e.syncOnly && Voted(m, e).None? && Obtained(e.answer)
               then Sent(m, m', e.answer.signed.value, e.answer.signed)
               else Quiet(m, m') && m'.voteSent == Voted(m, e)
  {
  }

  /** A timeout that is due repeats the round's vote, or else a vote for a NIL block that could be obtained, and goes
      out exactly if the vote is a timeout already or its timeout was signed. */
  lemma TimeoutExactly(m: Manager, e: Event)
    requires ManagerInv(m) && Permitted(m, e) && TimeoutDue(m, e)
    ensures var m', a, voted := Handle(m, e), e.timeoutAnswer, Voted(m, e);
            && m'.currentRound == e.round
            && (voted.Some? && (voted.value.IsTimeout() || a.signed) ==>
                  exists t :: AsTimeout(t, voted.value, a.highestQc) && Sent(m, m', t, m.lastVote))
            && (voted.Some? && !voted.value.IsTimeout() && !a.signed ==> Quiet(m, m') && m'.voteSent == voted)
            && (voted.None? && Obtained(a.nilVote) && (a.nilVote.signed.value.IsTimeout() || a.signed) ==>
                  exists t :: AsTimeout(t, a.nilVote.signed.value, a.highestQc) && Sent(m, m', t, a.nilVote.signed))
            && (voted.None? && Obtained(a.nilVote) && !a.nilVote.signed.value.IsTimeout() && !a.signed ==>
                  m'.sent == m.sent && m'.lastVote == a.nilVote.signed && m'.voteSent == None)
            && (voted.None? && !Obtained(a.nilVote) ==> Quiet(m, m') && m'.voteSent == None)
  {
    var m', a, voted := Handle(m, e), e.timeoutAnswer, Voted(m, e);
    if voted.Some? && (voted.value.IsTimeout() || a.signed) {
      var t := m'.sent[|m.sent|].vote;
      assert AsTimeout(t, voted.value, a.highestQc) && Sent(m, m', t, m.lastVote);
    }
    if voted.None? && Obtained(a.nilVote) && (a.nilVote.signed.value.IsTimeout() || a.signed) {
      var t := m'.sent[|m.sent|].vote;
      assert AsTimeout(t, a.nilVote.signed.value, a.highestQc) && Sent(m, m', t, a.nilVote.signed);
    }
  }

  /** The highest round shown by the certificates that came with an event of no past round. */
  function ShownRound(m: Manager, e: Event): Round
  {
    match e
    case ProposalMsg(round, sync, _, _, _, _) => if round < m.currentRound then 0 else sync.round
    case SyncInfoMsg(round, sync) => if round < m.currentRound then 0 else sync.round
    case VoteMsg(round, sync, outcome, _, _) =>
      if round < m.currentRound then 0
      else if Current(m, e) && outcome.Certified? then Max(sync.round, outcome.round)
      else sync.round
    case _ => 0
  }

  /** Every other event sends and stores nothing; certificates of a higher round start that round with no vote on
      record, and a restart puts the stored vote on record if it is of the round resumed in. */
  lemma OthersQuiet(m: Manager, e: Event)
    requires !ProposalDue(m, e) && !TimeoutDue(m, e)
    ensures var m' := Handle(m, e);
            && Quiet(m, m')
            && (e.Resume? ==>
                  && m'.currentRound == e.round
                  && m'.voteSent == (if m.lastVote.Some? && m.lastVote.value.voteData.proposed.round == e.round then m.lastVote else None))
            && (!e.Resume? ==>
                  && m'.currentRound == Max(m.currentRound, ShownRound(m, e))
                  && m'.voteSent == (if m'.currentRound == m.currentRound then m.voteSent else None))
  {
  }

  // --------------------------------------------------------------------- runs

  lemma ReachedStep(start: Round, events: seq<Event>, e: Event)
    requires PermittedRun(Fresh(start), events + [e])
    ensures var m := HandleAll(Fresh(start), events);
            ManagerInv(m) && Permitted(m, e) && HandleAll(Fresh(start), events + [e]) == Handle(m, e)
  {
    assert (events + [e])[..|events|] == events;
    RunKeepsManagerInv(Fresh(start), events);
  }

  /** In every permitted run: when a timeout is due and its signature is given, a validator that has voted in the
      round, or can obtain a vote for a NIL block, sends exactly one message, a timeout of the vote's epoch and round
      that repeats the vote on disk; in all other cases of a due timeout it sends nothing. */
  lemma TimeoutsGoOut(start: Round, events: seq<Event>, e: Event)
    requires PermittedRun(Fresh(start), events + [e]) && TimeoutDue(HandleAll(Fresh(start), events), e)
    ensures var m, m', a := HandleAll(Fresh(start), events), HandleAll(Fresh(start), events + [e]), e.timeoutAnswer;
            var base := if Voted(m, e).Some? then Voted(m, e) else if Obtained(a.nilVote) then a.nilVote.signed else None;
            if base.Some? && (base.value.IsTimeout() || a.signed) then
              && |m'.sent| == |m.sent| + 1 && m'.sent[..|m.sent|] == m.sent
              && var message := m'.sent[|m.sent|];
                 && AsTimeout(message.vote, base.value, a.highestQc) && message.vote.voteData.proposed.round == e.round
                 && message.persisted == m'.lastVote && m'.lastVote.Some? && SameVote(message.vote, m'.lastVote.value)
            else m'.sent == m.sent
  {
    ReachedStep(start, events, e);
    TimeoutExactly(HandleAll(Fresh(start), events), e);
  }

  /** In every permitted run: a proposal that is due puts exactly its signed and saved vote on the wire, if the
      validator may vote and has not voted in the round, and nothing otherwise. */
  lemma VotesGoOut(start: Round, events: seq<Event>, e: Event)
    requires PermittedRun(Fresh(start), events + [e]) && ProposalDue(HandleAll(Fresh(start), events), e)
    ensures var m, m' := HandleAll(Fresh(start), events), HandleAll(Fresh(start), events + [e]);
            m'.sent == m.sent + if !e.syncOnly && Voted(m, e).None? && Obtained(e.answer)
                                then [Sending(e.answer.signed.value, e.answer.signed)] else []
  {
    ReachedStep(start, events, e);
    ProposalExactly(HandleAll(Fresh(start), events), e);
  }

  /** And nothing else ever goes out. */
  lemma NothingElseGoesOut(start: Round, events: seq<Event>, e: Event)
    requires PermittedRun(Fresh(start), events + [e])
    ensures var m, m' := HandleAll(Fresh(start), events), HandleAll(Fresh(start), events + [e]);
            m'.sent != m.sent ==> ProposalDue(m, e) || TimeoutDue(m, e)
  {
    ReachedStep(start, events, e);
    var m := HandleAll(Fresh(start), events);
    if !ProposalDue(m, e) && !TimeoutDue(m, e) {
      OthersQuiet(m, e);
    }
  }
}
