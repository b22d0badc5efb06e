/** What vote aggregation must answer to each vote, from the votes that came before alone: every definition here
    reads the sequence of votes and none reads the collected state. */
module AggregationExact {
  import opened Common
  import opened Quorum
  import opened ConsensusTypes
  import opened PendingVotesModel
  import opened VoteAggregation

  // ---------------------------------------------------- definitions on the votes

  /** The authors whose first vote was for `li`. */
  ghost function Voters(votes: seq<Vote>, li: LedgerInfo): set<Author>
  {
    set i | 0 <= i < |votes| && FirstDigest(votes, votes[i].author) == Some(li) :: votes[i].author
  }

  /** The digest is still short of a certificate. */
  ghost predicate Short(v: ValidatorVerifier, votes: seq<Vote>, li: LedgerInfo)
  {
    Voters(votes, li) <= v.powers.Keys && Power(v, Voters(votes, li)) < v.quorumPower
  }

  ghost predicate SentTimeout(votes: seq<Vote>, a: Author, li: LedgerInfo)
  {
    exists i :: 0 <= i < |votes| && votes[i].author == a && votes[i].ledgerInfo == li && votes[i].IsTimeout()
  }

  /** Vote `k` counts as a timeout: it carries one, is for the digest its author voted for first, and that digest is
      short of a certificate. */
  ghost predicate Counts(v: ValidatorVerifier, votes: seq<Vote>, k: nat)
  {
    && k < |votes| && votes[k].IsTimeout()
    && FirstDigest(votes[..k + 1], votes[k].author) == Some(votes[k].ledgerInfo)
    && Short(v, votes[..k + 1], votes[k].ledgerInfo)
  }

  ghost function TimedOutAuthors(v: ValidatorVerifier, votes: seq<Vote>): set<Author>
  {
    set k | 0 <= k < |votes| && Counts(v, votes, k) :: votes[k].author
  }

  // ------------------------------------------------------ the state, explained

  lemma SignersAreVoters(v: ValidatorVerifier, votes: seq<Vote>, li: LedgerInfo)
    ensures Signers(Run(v, votes), li) == Voters(votes, li)
  {
    forall a: Author
      ensures a in Signers(Run(v, votes), li) <==> a in Voters(votes, li)
    {
      BookkeepingExact(v, votes, a);
      FirstDigestWitness(votes, a);
    }
  }

  lemma VotersGrow(votes: seq<Vote>, k: nat, li: LedgerInfo)
    requires k <= |votes|
    ensures Voters(votes[..k], li) <= Voters(votes, li)
  {
    forall a | a in Voters(votes[..k], li)
      ensures a in Voters(votes, li)
    {
      FirstDigestStable(votes, k, a);
      FirstDigestWitness(votes, a);
    }
  }

  lemma ShortBefore(v: ValidatorVerifier, votes: seq<Vote>, k: nat, li: LedgerInfo)
    requires k <= |votes| && Short(v, votes, li)
    ensures Short(v, votes[..k], li)
  {
    VotersGrow(votes, k, li);
    PowerMonotone(v, Voters(votes[..k], li), Voters(votes, li));
  }

  lemma FirstDigestStep(votes: seq<Vote>, a: Author)
    requires votes != []
    ensures var before, vote := FirstDigest(votes[..|votes| - 1], a), votes[|votes| - 1];
            FirstDigest(votes, a) == if before.None? && vote.author == a then Some(vote.ledgerInfo) else before
  {
  }

  /** The recorded vote of an author is a timeout if and only if the author sent one for its first digest. */
  lemma {:induction false} RecordedTimeouts(v: ValidatorVerifier, votes: seq<Vote>, a: Author)
    requires a in Run(v, votes).authorToVote
    ensures Run(v, votes).authorToVote[a].IsTimeout() <==> SentTimeout(votes, a, Run(v, votes).authorToVote[a].ledgerInfo)
  {
    var n := |votes| - 1;
    var before, vote := votes[..n], votes[n];
    var p, li := Run(v, before), Run(v, votes).authorToVote[a].ledgerInfo;
    InsertRecords(p, vote, v);
    if a in p.authorToVote {
      RecordedTimeouts(v, before, a);
    } else {
      BookkeepingExact(v, before, a);
      FirstDigestWitness(before, a);
    }
    SentTimeoutStep(votes, a, li);
  }

  lemma SentTimeoutStep(votes: seq<Vote>, a: Author, li: LedgerInfo)
    requires votes != []
    ensures var before, vote := votes[..|votes| - 1], votes[|votes| - 1];
            SentTimeout(votes, a, li) <==>
              SentTimeout(before, a, li) || (vote.author == a && vote.ledgerInfo == li && vote.IsTimeout())
  {
    var before := votes[..|votes| - 1];
    if i :| 0 <= i < |before| && before[i].author == a && before[i].ledgerInfo == li && before[i].IsTimeout() {
      assert votes[i] == before[i];
    }
    if i :| 0 <= i < |votes| && votes[i].author == a && votes[i].ledgerInfo == li && votes[i].IsTimeout() {
      assert i < |before| ==> before[i] == votes[i];
    }
  }

  lemma CountsBefore(v: ValidatorVerifier, votes: seq<Vote>, n: nat, k: nat)
    requires k < n <= |votes|
    ensures Counts(v, votes[..n], k) <==> Counts(v, votes, k)
  {
    assert votes[..n][..k + 1] == votes[..k + 1];
  }

  /** A timeout for the author's first digest counts, unless that digest is certified already. */
  lemma SentTimeoutCounts(v: ValidatorVerifier, votes: seq<Vote>, a: Author, li: LedgerInfo)
    requires SentTimeout(votes, a, li) && FirstDigest(votes, a) == Some(li) && Short(v, votes, li)
    ensures a in TimedOutAuthors(v, votes)
  {
    var i :| 0 <= i < |votes| && votes[i].author == a && votes[i].ledgerInfo == li && votes[i].IsTimeout();
    FirstDigestWitness(votes[..i + 1], a);
    assert votes[..i + 1][i].author == a;
    FirstDigestStable(votes, i + 1, a);
    ShortBefore(v, votes, i + 1, li);
    assert Counts(v, votes, i);
  }

  lemma CountedSentTimeout(v: ValidatorVerifier, votes: seq<Vote>, a: Author)
    requires a in TimedOutAuthors(v, votes)
    ensures FirstDigest(votes, a).Some? && SentTimeout(votes, a, FirstDigest(votes, a).value)
  {
    var k: nat :| k < |votes| && Counts(v, votes, k) && votes[k].author == a;
    FirstDigestStable(votes, k + 1, a);
  }

  lemma TimedOutStep(v: ValidatorVerifier, votes: seq<Vote>)
    requires votes != []
    ensures var n := |votes| - 1;
            TimedOutAuthors(v, votes) ==
              TimedOutAuthors(v, votes[..n]) + (if Counts(v, votes, n) then {votes[n].author} else {})
  {
    var n := |votes| - 1;
    var before := votes[..n];
    forall a | a in TimedOutAuthors(v, before)
      ensures a in TimedOutAuthors(v, votes)
    {
      var k: nat :| k < |before| && Counts(v, before, k) && before[k].author == a;
      CountsBefore(v, votes, n, k);
    }
    forall a | a in TimedOutAuthors(v, votes) && (Counts(v, votes, n) ==> a != votes[n].author)
      ensures a in TimedOutAuthors(v, before)
    {
      var k: nat :| k < |votes| && Counts(v, votes, k) && votes[k].author == a;
      CountsBefore(v, votes, n, k);
      assert before[k] == votes[k];
    }
  }

  /** The vote is the author's first, or the first timeout for the digest of the first. */
  ghost predicate News(votes: seq<Vote>, vote: Vote)
  {
    var first := FirstDigest(votes, vote.author);
    first.Some? ==> first.value == vote.ledgerInfo && vote.IsTimeout() && !SentTimeout(votes, vote.author, vote.ledgerInfo)
  }

  lemma FreshIsNews(v: ValidatorVerifier, votes: seq<Vote>, vote: Vote)
    ensures Fresh(Run(v, votes), vote) <==> News(votes, vote)
  {
    BookkeepingExact(v, votes, vote.author);
    if vote.author in Run(v, votes).authorToVote {
      RecordedTimeouts(v, votes, vote.author);
    }
  }

  /** After a vote with news, its signers are the digest's voters. */
  lemma NewsSigners(v: ValidatorVerifier, votes: seq<Vote>, n: nat)
    requires n == |votes| - 1 && News(votes[..n], votes[n])
    ensures Signers(Recorded(Run(v, votes[..n]), votes[n]), votes[n].ledgerInfo) == Voters(votes, votes[n].ledgerInfo)
    ensures FirstDigest(votes, votes[n].author) == Some(votes[n].ledgerInfo)
  {
    FreshIsNews(v, votes[..n], votes[n]);
    InsertRecords(Run(v, votes[..n]), votes[n], v);
    SignersAreVoters(v, votes, votes[n].ledgerInfo);
    FirstDigestStep(votes, votes[n].author);
  }

  /** A vote with news counts if it is a timeout and its digest short; one without does not count anew. */
  lemma CountsNews(v: ValidatorVerifier, votes: seq<Vote>, n: nat)
    requires n == |votes| - 1
    ensures News(votes[..n], votes[n]) ==>
              (Counts(v, votes, n) <==> votes[n].IsTimeout() && Short(v, votes, votes[n].ledgerInfo))
    ensures News(votes[..n], votes[n]) ==> votes[n].author !in TimedOutAuthors(v, votes[..n])
    ensures Counts(v, votes, n) && !News(votes[..n], votes[n]) ==> votes[n].author in TimedOutAuthors(v, votes[..n])
  {
    var before, vote := votes[..n], votes[n];
    assert votes[..n + 1] == votes;
    FirstDigestStep(votes, vote.author);
    if vote.author in TimedOutAuthors(v, before) {
      CountedSentTimeout(v, before, vote.author);
    }
    if Counts(v, votes, n) && !News(before, vote) {
      ShortBefore(v, votes, n, vote.ledgerInfo);
      SentTimeoutCounts(v, before, vote.author, vote.ledgerInfo);
    }
  }

  /** `k` is the first vote of its author that counts as a timeout. */
  ghost predicate CountsFirst(v: ValidatorVerifier, votes: seq<Vote>, k: nat)
  {
    Counts(v, votes, k) && votes[k].author !in TimedOutAuthors(v, votes[..k])
  }

  /** One more vote: either it is a first counted timeout and is added, or nothing changes. */
  lemma TcStep(v: ValidatorVerifier, votes: seq<Vote>, n: nat)
    requires n == |votes| - 1
    ensures Run(v, votes).partialTc ==
              if CountsFirst(v, votes, n)
              then Some(AddTimeout(Run(v, votes[..n]).partialTc, votes[n].author, votes[n].twoChainTimeout.value))
              else Run(v, votes[..n]).partialTc
  {
    CountsNews(v, votes, n);
    InsertTc(Run(v, votes[..n]), votes[n], v);
    FreshIsNews(v, votes[..n], votes[n]);
    if News(votes[..n], votes[n]) {
      NewsSigners(v, votes, n);
    }
  }

  lemma AddedSigner(p: Pending, p': Pending, author: Author, timeout: TwoChainTimeout)
    requires p'.partialTc == Some(AddTimeout(p.partialTc, author, timeout))
    ensures TcSigners(p') == TcSigners(p) + {author}
  {
  }

  /** The partial timeout certificate holds exactly the authors who timed out for their first digest while that was
      short of a certificate. */
  lemma {:induction false} TcSignersExact(v: ValidatorVerifier, votes: seq<Vote>)
    ensures TcSigners(Run(v, votes)) == TimedOutAuthors(v, votes)
  {
    if votes != [] {
      var n := |votes| - 1;
      TcSignersExact(v, votes[..n]);
      TimedOutStep(v, votes);
      TcStep(v, votes, n);
      if CountsFirst(v, votes, n) {
        AddedSigner(Run(v, votes[..n]), Run(v, votes), votes[n].author, votes[n].twoChainTimeout.value);
      }
    }
  }

  lemma TimedOutKnown(v: ValidatorVerifier, votes: seq<Vote>)
    ensures TimedOutAuthors(v, votes) <= v.powers.Keys
  {
    forall a | a in TimedOutAuthors(v, votes)
      ensures a in v.powers
    {
      var k: nat :| k < |votes| && Counts(v, votes, k) && votes[k].author == a;
      assert votes[..k + 1][k].author == a;
      assert a in Voters(votes[..k + 1], votes[k].ledgerInfo);
    }
  }

  // ----------------------------------------------------------------- the echo

  /** Some vote has been answered with an echo. */
  ghost predicate Echoed(v: ValidatorVerifier, votes: seq<Vote>)
  {
    votes != [] && (Echoed(v, votes[..|votes| - 1]) || Answer(v, votes, |votes| - 1).EchoTimeout?)
  }

  lemma InsertEcho(p: Pending, vote: Vote, v: ValidatorVerifier)
    ensures Insert(p, vote, v).0.echoTimeout <==> p.echoTimeout || Insert(p, vote, v).1.EchoTimeout?
  {
  }

  lemma {:induction false} EchoFlag(v: ValidatorVerifier, votes: seq<Vote>)
    ensures Run(v, votes).echoTimeout <==> Echoed(v, votes)
  {
    if votes != [] {
      var n := |votes| - 1;
      EchoFlag(v, votes[..n]);
      InsertEcho(Run(v, votes[..n]), votes[n], v);
    }
  }

  // -------------------------------------------------------------- the answers

  /** What vote `k` must be answered; the rounds in a timeout certificate are the subject of `Attests`. */
  ghost predicate RightAnswer(v: ValidatorVerifier, votes: seq<Vote>, k: nat, r: Reception)
    requires k < |votes|
  {
    var before, now, li := votes[..k], votes[..k + 1], votes[k].ledgerInfo;
    var first := FirstDigest(before, votes[k].author);
    var power, timeoutPower := Power(v, Voters(now, li)), Power(v, TimedOutAuthors(v, now));
    if first.Some? && first.value != li then r == EquivocateVote
    else if first.Some? && !(votes[k].IsTimeout() && !SentTimeout(before, votes[k].author, li)) then r == DuplicateVote
    else if !(Voters(now, li) <= v.powers.Keys) then r == ErrorAddingVote
    else if power >= v.quorumPower then r == NewQuorumCertificate(QuorumCert(votes[k].voteData, li, Voters(now, li)))
    else if !votes[k].IsTimeout() then r == VoteAdded(power)
    else if timeoutPower >= v.quorumPower then
      r.New2ChainTimeoutCertificate? && r.tc.signedRounds.Keys == TimedOutAuthors(v, now)
    else if timeoutPower >= TotalPower(v) - v.quorumPower + 1 && !Echoed(v, before) then r == EchoTimeout(timeoutPower)
    else r == VoteAdded(power)
  }

  lemma StaleAnswer(p: Pending, vote: Vote, v: ValidatorVerifier)
    requires !Fresh(p, vote)
    ensures Insert(p, vote, v).1 == if p.authorToVote[vote.author].ledgerInfo == vote.ledgerInfo then DuplicateVote else EquivocateVote
  {
  }

  lemma FreshAnswer(p: Pending, vote: Vote, v: ValidatorVerifier, voters: set<Author>, timedOut: set<Author>)
    requires Fresh(p, vote) && voters == Signers(Recorded(p, vote), vote.ledgerInfo)
    requires timedOut == TcSigners(Insert(p, vote, v).0) && timedOut <= v.powers.Keys
    ensures var r := Insert(p, vote, v).1;
            if !(voters <= v.powers.Keys) then r == ErrorAddingVote
            else if Power(v, voters) >= v.quorumPower then r == NewQuorumCertificate(QuorumCert(vote.voteData, vote.ledgerInfo, voters))
            else if !vote.IsTimeout() then r == VoteAdded(Power(v, voters))
            else if Power(v, timedOut) >= v.quorumPower then r.New2ChainTimeoutCertificate? && r.tc.signedRounds.Keys == timedOut
            else if Power(v, timedOut) >= TotalPower(v) - v.quorumPower + 1 && !p.echoTimeout then r == EchoTimeout(Power(v, timedOut))
            else r == VoteAdded(Power(v, voters))
  {
  }

  /** Every vote of every run gets the one right answer. */
  lemma AnswerExactly(v: ValidatorVerifier, votes: seq<Vote>, k: nat)
    requires k < |votes|
    ensures RightAnswer(v, votes, k, Answer(v, votes, k))
  {
    var before, now, vote := votes[..k], votes[..k + 1], votes[k];
    var p := Run(v, before);
    assert now[..k] == before && now[k] == vote;
    FreshIsNews(v, before, vote);
    BookkeepingExact(v, before, vote.author);
    if Fresh(p, vote) {
      NewsSigners(v, now, k);
      RunStep(v, votes, k);
      TcSignersExact(v, now);
      TimedOutKnown(v, now);
      EchoFlag(v, before);
      FreshAnswer(p, vote, v, Voters(now, vote.ledgerInfo), TimedOutAuthors(v, now));
    } else {
      StaleAnswer(p, vote, v);
    }
  }

  /** In particular: a timeout certificate is handed out exactly when the vote adds its author to those timed out and
      they reach the threshold; an echo exactly when it adds its author, they could stop a quorum but not yet make one,
      and there was no echo before. */
  lemma TimeoutAnswers(v: ValidatorVerifier, votes: seq<Vote>, k: nat)
    requires k < |votes|
    ensures var a, before, now, r := votes[k].author, TimedOutAuthors(v, votes[..k]), TimedOutAuthors(v, votes[..k + 1]), Answer(v, votes, k);
            && (r.New2ChainTimeoutCertificate? <==> a in now - before && Power(v, now) >= v.quorumPower)
            && (r.EchoTimeout? <==> a in now - before && TotalPower(v) - v.quorumPower < Power(v, now) < v.quorumPower
                                    && !Echoed(v, votes[..k]))
  {
    var now := votes[..k + 1];
    assert now[..k] == votes[..k] && now[k] == votes[k];
    AnswerExactly(v, votes, k);
    CountsNews(v, now, k);
    TimedOutStep(v, now);
  }

  // ------------------------------------------------- the timeout certificate

  /** The certificate carries the timeout of a counted vote and, for each signer, the round its first counted timeout
      attested. */
  ghost predicate Attests(v: ValidatorVerifier, votes: seq<Vote>, ptc: PartialTc)
  {
    && (exists k: nat :: CountsFirst(v, votes, k) && votes[k].twoChainTimeout.value == ptc.timeout)
    && (forall k: nat :: CountsFirst(v, votes, k) ==>
          votes[k].author in ptc.signedRounds && ptc.signedRounds[votes[k].author] == votes[k].twoChainTimeout.value.HqcRound())
    && (forall k: nat :: CountsFirst(v, votes, k) ==> votes[k].twoChainTimeout.value.HqcRound() <= ptc.timeout.HqcRound())
  }

  lemma CountsFirstBefore(v: ValidatorVerifier, votes: seq<Vote>, n: nat, k: nat)
    requires k < n <= |votes|
    ensures CountsFirst(v, votes[..n], k) <==> CountsFirst(v, votes, k)
  {
    CountsBefore(v, votes, n, k);
    assert votes[..n][..k] == votes[..k];
  }

  lemma AttestsStep(v: ValidatorVerifier, votes: seq<Vote>, n: nat, prior: Option<PartialTc>)
    requires n == |votes| - 1 && CountsFirst(v, votes, n)
    requires prior.Some? ==> Attests(v, votes[..n], prior.value) && prior.value.signedRounds.Keys == TimedOutAuthors(v, votes[..n])
    requires prior.None? ==> TimedOutAuthors(v, votes[..n]) == {}
    ensures Attests(v, votes, AddTimeout(prior, votes[n].author, votes[n].twoChainTimeout.value))
  {
    var before, timeout := votes[..n], votes[n].twoChainTimeout.value;
    var ptc := AddTimeout(prior, votes[n].author, timeout);
    forall k: nat | CountsFirst(v, votes, k)
      ensures votes[k].author in ptc.signedRounds && ptc.signedRounds[votes[k].author] == votes[k].twoChainTimeout.value.HqcRound()
      ensures votes[k].twoChainTimeout.value.HqcRound() <= ptc.timeout.HqcRound()
    {
      if k < n {
        CountsFirstBefore(v, votes, n, k);
        assert before[k] == votes[k] && before[k].author in TimedOutAuthors(v, before);
      }
    }
    if ptc.timeout != timeout {
      var k: nat :| CountsFirst(v, before, k) && before[k].twoChainTimeout.value == prior.value.timeout;
      CountsFirstBefore(v, votes, n, k);
      assert votes[k] == before[k];
    }
    assert CountsFirst(v, votes, n);
  }

  /** Whatever the partial certificate says is what the counted timeouts attested, the highest of them in front. */
  lemma {:induction false} TcAttests(v: ValidatorVerifier, votes: seq<Vote>)
    ensures var ptc := Run(v, votes).partialTc;
            if ptc.Some? then Attests(v, votes, ptc.value) else TimedOutAuthors(v, votes) == {}
  {
    TcSignersExact(v, votes);
    if votes != [] {
      var n := |votes| - 1;
      var before := votes[..n];
      TcAttests(v, before);
      TcSignersExact(v, before);
      TcStep(v, votes, n);
      if CountsFirst(v, votes, n) {
        AttestsStep(v, votes, n, Run(v, before).partialTc);
      } else if Run(v, before).partialTc.Some? {
        AttestsUnchanged(v, votes, n, Run(v, before).partialTc.value);
      }
    }
  }

  lemma AttestsUnchanged(v: ValidatorVerifier, votes: seq<Vote>, n: nat, ptc: PartialTc)
    requires n == |votes| - 1 && !CountsFirst(v, votes, n) && Attests(v, votes[..n], ptc)
    ensures Attests(v, votes, ptc)
  {
    var before := votes[..n];
    forall k: nat | CountsFirst(v, votes, k)
      ensures votes[k].author in ptc.signedRounds && ptc.signedRounds[votes[k].author] == votes[k].twoChainTimeout.value.HqcRound()
      ensures votes[k].twoChainTimeout.value.HqcRound() <= ptc.timeout.HqcRound()
    {
      CountsFirstBefore(v, votes, n, k);
      assert before[k] == votes[k];
    }
    var k: nat :| CountsFirst(v, before, k) && before[k].twoChainTimeout.value == ptc.timeout;
    CountsFirstBefore(v, votes, n, k);
    assert votes[k] == before[k];
  }

  lemma TimeoutCertificateIsPartial(p: Pending, vote: Vote, v: ValidatorVerifier)
    requires Insert(p, vote, v).1.New2ChainTimeoutCertificate?
    ensures Insert(p, vote, v).0.partialTc.Some?
    ensures var ptc, tc := Insert(p, vote, v).0.partialTc.value, Insert(p, vote, v).1.tc;
            ptc.timeout == tc.timeout && ptc.signedRounds == tc.signedRounds
  {
  }

  /** A timeout certificate says for each signer what its first counted timeout attested, and carries the highest. */
  lemma TimeoutCertificateAttests(v: ValidatorVerifier, votes: seq<Vote>, k: nat)
    requires k < |votes| && Answer(v, votes, k).New2ChainTimeoutCertificate?
    ensures var tc := Answer(v, votes, k).tc; Attests(v, votes[..k + 1], PartialTc(tc.timeout, tc.signedRounds))
  {
    RunStep(v, votes, k);
    TimeoutCertificateIsPartial(Run(v, votes[..k]), votes[k], v);
    TcAttests(v, votes[..k + 1]);
  }
}
