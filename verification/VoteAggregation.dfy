/** What the certificates, echoed timeouts and statistics of vote aggregation are worth, over every
    sequence of inserted votes. */
module VoteAggregation {
  import opened Common
  import opened Quorum
  import opened ConsensusTypes
  import opened PendingVotesModel
  import opened Network
  import opened CommitSafety

  /** Votes of one epoch and round that passed verification on arrival. */
  ghost predicate VerifiedVotes(v: ValidatorVerifier, votes: seq<Vote>, e: Epoch, r: Round)
  {
    forall i :: 0 <= i < |votes| ==> votes[i].Verify(v) && votes[i].Epoch() == e && votes[i].Round() == r
  }

  // ------------------------------------------------- timeout signatures in order

  /** Whoever is in the partial timeout certificate has its timeout vote on record. */
  ghost predicate TcAuthorsRecorded(p: Pending)
  {
    forall a :: a in TcSigners(p) ==> a in p.authorToVote && p.authorToVote[a].IsTimeout()
  }

  /** The partial certificate carries the highest of the signed rounds, for this epoch and round. */
  ghost predicate TcConsistent(p: Pending, v: ValidatorVerifier, e: Epoch, r: Round)
  {
    p.partialTc.Some? ==>
      var ptc := p.partialTc.value;
      && ptc.timeout.Verify(v) && ptc.timeout.epoch == e && ptc.timeout.round == r
      && (forall a :: a in ptc.signedRounds ==> ptc.signedRounds[a] <= ptc.timeout.HqcRound())
      && (exists a :: a in ptc.signedRounds && ptc.signedRounds[a] == ptc.timeout.HqcRound())
  }

  /** How one insertion changes the partial timeout certificate. */
  lemma InsertTc(p: Pending, vote: Vote, v: ValidatorVerifier)
    ensures var (p', answer) := Insert(p, vote, v);
            if Fresh(p, vote) && vote.IsTimeout() && !answer.NewQuorumCertificate?
               && VotingPowerCheck(v, Signers(Recorded(p, vote), vote.ledgerInfo)).TooLittleVotingPower?
            then p'.partialTc == Some(AddTimeout(p.partialTc, vote.author, vote.twoChainTimeout.value))
            else p'.partialTc == p.partialTc && p'.echoTimeout == p.echoTimeout && !answer.EchoTimeout?
                 && !answer.New2ChainTimeoutCertificate?
  {
  }

  lemma AddTimeoutConsistent(p: Pending, vote: Vote, v: ValidatorVerifier, e: Epoch, r: Round, p': Pending)
    requires TcConsistent(p, v, e, r) && vote.author !in TcSigners(p)
    requires vote.IsTimeout() && vote.Verify(v) && vote.Epoch() == e && vote.Round() == r
    requires p'.partialTc == Some(AddTimeout(p.partialTc, vote.author, vote.twoChainTimeout.value))
    ensures TcConsistent(p', v, e, r)
  {
    var timeout := vote.twoChainTimeout.value;
    var ptc := p'.partialTc.value;
    assert ptc.signedRounds[vote.author] == timeout.HqcRound();
    if p.partialTc.Some? && timeout.HqcRound() <= p.partialTc.value.timeout.HqcRound() {
      var prior := p.partialTc.value;
      var a :| a in prior.signedRounds && prior.signedRounds[a] == prior.timeout.HqcRound();
      assert a in ptc.signedRounds && ptc.signedRounds[a] == ptc.timeout.HqcRound();
    }
  }

  lemma {:induction false} TcInvariant(v: ValidatorVerifier, votes: seq<Vote>, e: Epoch, r: Round)
    requires VerifiedVotes(v, votes, e, r)
    ensures TcAuthorsRecorded(Run(v, votes)) && TcConsistent(Run(v, votes), v, e, r)
  {
    if votes != [] {
      var before, vote := votes[..|votes| - 1], votes[|votes| - 1];
      TcInvariant(v, before, e, r);
      var p := Run(v, before);
      var p' := Run(v, votes);
      InsertTc(p, vote, v);
      InsertRecords(p, vote, v);
      if p'.partialTc != p.partialTc {
        AddTimeoutConsistent(p, vote, v, e, r, p');
      }
    }
  }

  /** Each author enters the partial timeout certificate at most once: a second timeout of the same
      author leaves it untouched. */
  lemma TimeoutCountedOnce(v: ValidatorVerifier, votes: seq<Vote>, e: Epoch, r: Round, vote: Vote)
    requires VerifiedVotes(v, votes, e, r) && vote.author in TcSigners(Run(v, votes))
    ensures Insert(Run(v, votes), vote, v).0 == Run(v, votes)
  {
    TcInvariant(v, votes, e, r);
    InsertRecords(Run(v, votes), vote, v);
  }

  // -------------------------------------------------------- certificates verify

  lemma InsertedQcVerifies(p: Pending, vote: Vote, v: ValidatorVerifier)
    requires vote.Verify(v) && Insert(p, vote, v).1.NewQuorumCertificate?
    ensures Insert(p, vote, v).1.qc.Verify(v)
    ensures Insert(p, vote, v).1.qc.voteData == vote.voteData
    ensures Insert(p, vote, v).1.qc.ledgerInfo == vote.ledgerInfo
    ensures Insert(p, vote, v).1.qc.signers == Signers(Insert(p, vote, v).0, vote.ledgerInfo)
  {
  }

  lemma InsertedTcMatches(p: Pending, vote: Vote, v: ValidatorVerifier)
    requires Insert(p, vote, v).1.New2ChainTimeoutCertificate?
    ensures var (p', answer) := Insert(p, vote, v);
            && p'.partialTc.Some?
            && answer.tc == TimeoutCert(p'.partialTc.value.timeout, p'.partialTc.value.signedRounds)
            && IsQuorum(v, TcSigners(p'))
  {
  }

  /** Whatever insertion hands out would be accepted by every verifier of certificates: a quorum
      certificate for the votes' proposal, a timeout certificate whose carried certificate is the
      highest any signer attested. */
  lemma CertificatesVerify(v: ValidatorVerifier, votes: seq<Vote>, e: Epoch, r: Round, k: nat)
    requires VerifiedVotes(v, votes, e, r) && k < |votes|
    ensures var answer := Answer(v, votes, k);
            && (answer.NewQuorumCertificate? ==>
                  answer.qc.Verify(v) && answer.qc.Round() == r && answer.qc.voteData.proposed.epoch == e)
            && (answer.New2ChainTimeoutCertificate? ==>
                  answer.tc.Verify(v) && answer.tc.timeout.round == r && answer.tc.timeout.epoch == e)
  {
    var p := Run(v, votes[..k]);
    var answer := Answer(v, votes, k);
    if answer.NewQuorumCertificate? {
      InsertedQcVerifies(p, votes[k], v);
    }
    if answer.New2ChainTimeoutCertificate? {
      InsertedTcMatches(p, votes[k], v);
      RunStep(v, votes, k);
      TcInvariant(v, votes[..k + 1], e, r);
    }
  }

  // ------------------------------------------------------------ echoed timeouts

  /** Timeout signatures are only ever added, and the echo flag never falls. */
  ghost predicate TcGrows(p: Pending, p': Pending)
  {
    && (p.echoTimeout ==> p'.echoTimeout)
    && TcSigners(p) <= TcSigners(p')
    && (forall a :: a in TcSigners(p) ==>
          p.partialTc.value.signedRounds[a] == p'.partialTc.value.signedRounds[a])
  }

  lemma InsertTcGrows(p: Pending, vote: Vote, v: ValidatorVerifier)
    ensures TcGrows(p, Insert(p, vote, v).0)
  {
    InsertTc(p, vote, v);
  }

  lemma TcGrowsTransitive(p: Pending, q: Pending, r: Pending)
    requires TcGrows(p, q) && TcGrows(q, r)
    ensures TcGrows(p, r)
  {
    forall a | a in TcSigners(p)
      ensures p.partialTc.value.signedRounds[a] == r.partialTc.value.signedRounds[a]
    {
      assert a in TcSigners(q);
    }
  }

  lemma RunTcGrowsStep(v: ValidatorVerifier, votes: seq<Vote>, k: nat)
    requires k < |votes|
    ensures TcGrows(Run(v, votes[..k]), Run(v, votes[..k + 1]))
  {
    RunStep(v, votes, k);
    InsertTcGrows(Run(v, votes[..k]), votes[k], v);
  }

  ghost predicate GrowsAt(states: nat -> Pending, i: nat)
  {
    TcGrows(states(i), states(i + 1))
  }

  lemma {:induction false} TcGrowsAlong(states: nat -> Pending, j: nat, k: nat)
    requires j <= k && forall i: nat :: j <= i < k ==> GrowsAt(states, i)
    ensures TcGrows(states(j), states(k))
    decreases k
  {
    if j < k {
      TcGrowsAlong(states, j, k - 1);
      assert GrowsAt(states, k - 1);
      TcGrowsTransitive(states(j), states(k - 1), states(k));
    }
  }

  lemma RunTcGrows(v: ValidatorVerifier, votes: seq<Vote>, j: nat, k: nat)
    requires j <= k <= |votes|
    ensures TcGrows(Run(v, votes[..j]), Run(v, votes[..k]))
  {
    var states := (i: nat) => Run(v, votes[..Min(i, |votes|)]);
    forall i: nat | j <= i < k
      ensures GrowsAt(states, i)
    {
      RunTcGrowsStep(v, votes, i);
    }
    TcGrowsAlong(states, j, k);
  }

  lemma EchoAnswer(p: Pending, vote: Vote, v: ValidatorVerifier)
    requires Insert(p, vote, v).1.EchoTimeout?
    ensures var (p', answer) := Insert(p, vote, v);
            && !p.echoTimeout && p'.echoTimeout
            && answer.votingPower == Power(v, TcSigners(p'))
            && TotalPower(v) - v.quorumPower < answer.votingPower < v.quorumPower
  {
    InsertTc(p, vote, v);
  }

  /** An echo rules out an earlier echo or timeout certificate: those leave a mark that stays. */
  lemma EchoExcludes(v: ValidatorVerifier, earlier: Pending, p: Pending, vote: Vote)
    requires TcGrows(earlier, p) && Insert(p, vote, v).1.EchoTimeout?
    ensures !earlier.echoTimeout && Power(v, TcSigners(earlier)) < v.quorumPower
  {
    EchoAnswer(p, vote, v);
    InsertTcGrows(p, vote, v);
    PowerMonotone(v, TcSigners(earlier), TcSigners(Insert(p, vote, v).0));
  }

  lemma AnswerLeavesMark(v: ValidatorVerifier, p: Pending, vote: Vote)
    ensures var (p', answer) := Insert(p, vote, v);
            && (answer.EchoTimeout? ==> p'.echoTimeout)
            && (answer.New2ChainTimeoutCertificate? ==> Power(v, TcSigners(p')) >= v.quorumPower)
  {
    if Insert(p, vote, v).1.EchoTimeout? {
      EchoAnswer(p, vote, v);
    } else if Insert(p, vote, v).1.New2ChainTimeoutCertificate? {
      InsertedTcMatches(p, vote, v);
    }
  }

  /** A round echoes at most once, and not at all after its timeout certificate has formed. */
  lemma EchoAtMostOnce(v: ValidatorVerifier, votes: seq<Vote>, j: nat, k: nat)
    requires j < k < |votes| && Answer(v, votes, k).EchoTimeout?
    ensures !Answer(v, votes, j).EchoTimeout? && !Answer(v, votes, j).New2ChainTimeoutCertificate?
  {
    RunStep(v, votes, j);
    AnswerLeavesMark(v, Run(v, votes[..j]), votes[j]);
    RunTcGrows(v, votes, j + 1, k);
    EchoExcludes(v, Run(v, votes[..j + 1]), Run(v, votes[..k]), votes[k]);
  }

  ghost predicate TimedOut(votes: seq<Vote>, a: Author)
  {
    exists i :: 0 <= i < |votes| && votes[i].author == a && votes[i].IsTimeout()
  }

  lemma {:induction false} TcSignerTimedOut(v: ValidatorVerifier, votes: seq<Vote>, a: Author)
    requires a in TcSigners(Run(v, votes))
    ensures TimedOut(votes, a)
  {
    var before, vote := votes[..|votes| - 1], votes[|votes| - 1];
    InsertTc(Run(v, before), vote, v);
    if a in TcSigners(Run(v, before)) {
      TcSignerTimedOut(v, before, a);
      var i :| 0 <= i < |before| && before[i].author == a && before[i].IsTimeout();
      assert votes[i] == before[i];
    }
  }

  /** An echo means a correct validator has timed out, as long as the Byzantine ones hold no more
      power than a quorum can miss. */
  lemma EchoHasHonestTimeout(v: ValidatorVerifier, votes: seq<Vote>, k: nat, byzantine: set<Author>) returns (a: Author)
    requires k < |votes| && Answer(v, votes, k).EchoTimeout?
    requires Power(v, byzantine) <= TotalPower(v) - v.quorumPower
    ensures a !in byzantine && TimedOut(votes[..k + 1], a)
  {
    RunStep(v, votes, k);
    EchoAnswer(Run(v, votes[..k]), votes[k], v);
    var s := TcSigners(Run(v, votes[..k + 1]));
    if s <= byzantine {
      PowerMonotone(v, s, byzantine);
      assert false;
    }
    a :| a in s && a !in byzantine;
    TcSignerTimedOut(v, votes[..k + 1], a);
  }

  // ----------------------------------------------- certificates across the network

  /** All signatures in the votes exist in network state `s`. */
  ghost predicate Delivered(c: Config, s: State, votes: seq<Vote>)
  {
    forall i :: 0 <= i < |votes| ==> Signed(c, s, votes[i].author, votes[i].ledgerInfo)
  }

  lemma AggregatedQcSigned(c: Config, s: State, v: ValidatorVerifier, votes: seq<Vote>, k: nat)
    requires k < |votes| && Delivered(c, s, votes) && Answer(v, votes, k).NewQuorumCertificate?
    requires votes[k].Verify(v)
    ensures AllSigned(c, s, Answer(v, votes, k).qc.signers, Answer(v, votes, k).qc.ledgerInfo)
  {
    var li := votes[k].ledgerInfo;
    InsertedQcVerifies(Run(v, votes[..k]), votes[k], v);
    RunStep(v, votes, k);
    forall a | a in Signers(Run(v, votes[..k + 1]), li)
      ensures Signed(c, s, a, li)
    {
      BookkeepingExact(v, votes[..k + 1], a);
      FirstDigestWitness(votes[..k + 1], a);
    }
  }

  /** No two vote collections, at any validators and at any moments of any run, hand out quorum
      certificates for different proposals of the same epoch and round. */
  lemma AggregatedCertificatesUnique(c: Config, run: seq<State>, e: Epoch, r: Round,
                                     i: nat, votes1: seq<Vote>, k1: nat, j: nat, votes2: seq<Vote>, k2: nat)
    requires IsRun(c, run) && ResilientConfig(c) && i < |run| && j < |run|
    requires VerifiedVotes(c.verifiers(e), votes1, e, r) && Delivered(c, run[i], votes1) && k1 < |votes1|
    requires VerifiedVotes(c.verifiers(e), votes2, e, r) && Delivered(c, run[j], votes2) && k2 < |votes2|
    requires Answer(c.verifiers(e), votes1, k1).NewQuorumCertificate?
    requires Answer(c.verifiers(e), votes2, k2).NewQuorumCertificate?
    ensures var qc1, qc2 := Answer(c.verifiers(e), votes1, k1).qc, Answer(c.verifiers(e), votes2, k2).qc;
            && qc1.voteData == qc2.voteData
            && SameBlock(qc1.ledgerInfo.commitInfo, qc2.ledgerInfo.commitInfo)
            && (NoCommitVote(run[|run| - 1], qc1.ledgerInfo) && NoCommitVote(run[|run| - 1], qc2.ledgerInfo)
                ==> qc1.ledgerInfo == qc2.ledgerInfo)
  {
    var v := c.verifiers(e);
    var qc1, qc2 := Answer(v, votes1, k1).qc, Answer(v, votes2, k2).qc;
    CertificatesVerify(v, votes1, e, r, k1);
    CertificatesVerify(v, votes2, e, r, k2);
    AggregatedQcSigned(c, run[i], v, votes1, k1);
    AggregatedQcSigned(c, run[j], v, votes2, k2);
    assert votes1[k1].voteData.Verify();
    CertificateUniqueness(c, run, i, j, qc1, qc2);
  }
}
