/** Aggregation of the votes of one epoch and round into quorum and timeout certificates.

    `Insert` says what one vote does to the collected state; class `PendingVotes` computes it in
    place.  The lemmas are about every sequence of insertions from the empty state. */
module PendingVotesModel {
  import opened Common
  import opened Quorum
  import opened ConsensusTypes

  /** Timeout signatures so far, with the timeout of the highest certified round among them. */
  datatype PartialTc = PartialTc(timeout: TwoChainTimeout, signedRounds: map<Author, Round>)

  datatype Pending = Pending(
    signers: map<LedgerInfo, set<Author>>,
    partialTc: Option<PartialTc>,
    authorToVote: map<Author, Vote>,
    echoTimeout: bool)

  datatype Reception =
    | VoteAdded(votingPower: nat)
    | DuplicateVote
    | EquivocateVote
    | NewQuorumCertificate(qc: QuorumCert)
    | New2ChainTimeoutCertificate(tc: TimeoutCert)
    | ErrorAddingVote
    | EchoTimeout(votingPower: nat)

  const EMPTY: Pending := Pending(map[], None, map[], false)

  function Signers(p: Pending, li: LedgerInfo): set<Author>
  {
    if li in p.signers then p.signers[li] else {}
  }

  function TcSigners(p: Pending): set<Author>
  {
    if p.partialTc.Some? then p.partialTc.value.signedRounds.Keys else {}
  }

  function AddTimeout(partial: Option<PartialTc>, author: Author, timeout: TwoChainTimeout): (r: PartialTc)
  {
    var ptc := if partial.Some? then partial.value else PartialTc(timeout, map[]);
    PartialTc(
      if timeout.HqcRound() > ptc.timeout.HqcRound() then timeout else ptc.timeout,
      if author in ptc.signedRounds then ptc.signedRounds else ptc.signedRounds[author := timeout.HqcRound()])
  }

  /** The timeout part of a vote that did not complete a quorum certificate. */
  ghost function InsertTimeout(p: Pending, vote: Vote, v: ValidatorVerifier, power: nat): (Pending, Reception)
    requires vote.IsTimeout()
  {
    var ptc := AddTimeout(p.partialTc, vote.author, vote.twoChainTimeout.value);
    var p' := p.(partialTc := Some(ptc));
    match VotingPowerCheck(v, ptc.signedRounds.Keys)
    case UnknownAuthor => (p', ErrorAddingVote)
    case QuorumReached => (p', New2ChainTimeoutCertificate(TimeoutCert(ptc.timeout, ptc.signedRounds)))
    case TooLittleVotingPower(tcPower) =>
      if !p.echoTimeout && tcPower >= TotalPower(v) - v.quorumPower + 1
      then (p'.(echoTimeout := true), EchoTimeout(tcPower))
      else (p', VoteAdded(power))
  }

  /** The vote is not a repetition of, or in conflict with, what its author sent before. */
  predicate Fresh(p: Pending, vote: Vote)
  {
    vote.author in p.authorToVote ==>
      && p.authorToVote[vote.author].ledgerInfo == vote.ledgerInfo
      && vote.IsTimeout() && !p.authorToVote[vote.author].IsTimeout()
  }

  function Recorded(p: Pending, vote: Vote): Pending
  {
    p.(authorToVote := p.authorToVote[vote.author := vote],
       signers := p.signers[vote.ledgerInfo := Signers(p, vote.ledgerInfo) + {vote.author}])
  }

  ghost function Insert(p: Pending, vote: Vote, v: ValidatorVerifier): (Pending, Reception)
  {
    if !Fresh(p, vote) then
      (p, if p.authorToVote[vote.author].ledgerInfo == vote.ledgerInfo then DuplicateVote else EquivocateVote)
    else
      var p' := Recorded(p, vote);
      match VotingPowerCheck(v, Signers(p', vote.ledgerInfo))
      case UnknownAuthor => (p', ErrorAddingVote)
      case QuorumReached =>
        (p', NewQuorumCertificate(QuorumCert(vote.voteData, vote.ledgerInfo, Signers(p', vote.ledgerInfo))))
      case TooLittleVotingPower(power) =>
        if vote.IsTimeout() then InsertTimeout(p', vote, v, power) else (p', VoteAdded(power))
  }

  class PendingVotes {
    var liDigestToVotes: map<LedgerInfo, set<Author>>
    var maybePartialTc: Option<PartialTc>
    var authorToVote: map<Author, Vote>
    var echoTimeout: bool

    ghost function State(): Pending
      reads this
    {
      Pending(liDigestToVotes, maybePartialTc, authorToVote, echoTimeout)
    }

    constructor ()
      ensures State() == EMPTY
    {
      liDigestToVotes := map[];
      maybePartialTc := None;
      authorToVote := map[];
      echoTimeout := false;
    }

    method InsertVote(vote: Vote, v: ValidatorVerifier) returns (r: Reception)
      requires v.quorumPower <= TotalPower(v)
      modifies this
      ensures (State(), r) == Insert(old(State()), vote, v)
    {
      var li := vote.ledgerInfo;
      if vote.author in authorToVote {
        var previous := authorToVote[vote.author];
        if previous.ledgerInfo != li {
          return EquivocateVote;
        }
        if !(vote.IsTimeout() && !previous.IsTimeout()) {
          return DuplicateVote;
        }
      }
      authorToVote := authorToVote[vote.author := vote];
      if li !in liDigestToVotes {
        liDigestToVotes := liDigestToVotes[li := {}];
      }
      liDigestToVotes := liDigestToVotes[li := liDigestToVotes[li] + {vote.author}];
      assert liDigestToVotes == Recorded(old(State()), vote).signers;
      var check := CheckVotingPower(v, liDigestToVotes[li]);
      match check {
        case QuorumReached =>
          return NewQuorumCertificate(QuorumCert(vote.voteData, li, liDigestToVotes[li]));
        case UnknownAuthor =>
          return ErrorAddingVote;
        case TooLittleVotingPower(power) =>
          if vote.IsTimeout() {
            r := CollectTimeout(vote, v, power);
          } else {
            r := VoteAdded(power);
          }
      }
    }

    method CollectTimeout(vote: Vote, v: ValidatorVerifier, power: nat) returns (r: Reception)
      requires vote.IsTimeout() && v.quorumPower <= TotalPower(v)
      modifies this`maybePartialTc, this`echoTimeout
      ensures (State(), r) == InsertTimeout(old(State()), vote, v, power)
    {
      var ptc := AddTimeout(maybePartialTc, vote.author, vote.twoChainTimeout.value);
      maybePartialTc := Some(ptc);
      var check := CheckVotingPower(v, ptc.signedRounds.Keys);
      match check {
        case QuorumReached =>
          return New2ChainTimeoutCertificate(TimeoutCert(ptc.timeout, ptc.signedRounds));
        case UnknownAuthor =>
          return ErrorAddingVote;
        case TooLittleVotingPower(tcPower) =>
          if !echoTimeout {
            var total := SumVotingPower(v);
            var fPlusOne := total - v.quorumPower + 1;
            if tcPower >= fPlusOne {
              echoTimeout := true;
              return EchoTimeout(tcPower);
            }
          }
          return VoteAdded(power);
      }
    }

    /** Hands out the collected signatures; what is left can still recognise repeated votes. */
    method DrainVotes() returns (votes: map<LedgerInfo, set<Author>>, partialTc: Option<PartialTc>)
      modifies this`liDigestToVotes, this`maybePartialTc
      ensures votes == old(liDigestToVotes) && partialTc == old(maybePartialTc)
      ensures State() == old(State()).(signers := map[], partialTc := None)
    {
      votes, partialTc := liDigestToVotes, maybePartialTc;
      liDigestToVotes, maybePartialTc := map[], None;
    }
  }

  // ------------------------------------------------------------------- runs

  /** The state after inserting `votes` in order, starting empty. */
  ghost function Run(v: ValidatorVerifier, votes: seq<Vote>): Pending
  {
    if votes == [] then EMPTY
    else Insert(Run(v, votes[..|votes| - 1]), votes[|votes| - 1], v).0
  }

  /** The answer to the k-th vote of a run. */
  ghost function Answer(v: ValidatorVerifier, votes: seq<Vote>, k: nat): Reception
    requires k < |votes|
  {
    Insert(Run(v, votes[..k]), votes[k], v).1
  }

  lemma RunStep(v: ValidatorVerifier, votes: seq<Vote>, k: nat)
    requires k < |votes|
    ensures Run(v, votes[..k + 1]) == Insert(Run(v, votes[..k]), votes[k], v).0
  {
    assert votes[..k + 1][..k] == votes[..k];
  }

  // ------------------------------------------- who is counted for which digest

  /** The digest of an author's first vote: a definition that mentions no collected state. */
  ghost function FirstDigest(votes: seq<Vote>, a: Author): Option<LedgerInfo>
  {
    if votes == [] then None
    else
      var before := FirstDigest(votes[..|votes| - 1], a);
      if before.Some? then before
      else if votes[|votes| - 1].author == a then Some(votes[|votes| - 1].ledgerInfo)
      else None
  }

  /** What the collected state knows about author `a` after `votes`. */
  ghost predicate Exact(votes: seq<Vote>, p: Pending, a: Author)
  {
    && (a in p.authorToVote <==> FirstDigest(votes, a).Some?)
    && (a in p.authorToVote ==> FirstDigest(votes, a) == Some(p.authorToVote[a].ledgerInfo))
    && (forall li :: a in Signers(p, li) <==> FirstDigest(votes, a) == Some(li))
  }

  /** Which records an insertion touches, whatever its answer. */
  lemma InsertRecords(p: Pending, vote: Vote, v: ValidatorVerifier)
    ensures var p' := Insert(p, vote, v).0;
            if Fresh(p, vote)
            then p'.signers == Recorded(p, vote).signers && p'.authorToVote == Recorded(p, vote).authorToVote
            else p' == p
  {
  }

  lemma ExactStep(before: seq<Vote>, vote: Vote, p: Pending, p': Pending, a: Author)
    requires Exact(before, p, a)
    requires if Fresh(p, vote)
             then p'.signers == Recorded(p, vote).signers && p'.authorToVote == Recorded(p, vote).authorToVote
             else p' == p
    ensures Exact(before + [vote], p', a)
  {
    var votes := before + [vote];
    assert votes[..|votes| - 1] == before;
    assert FirstDigest(votes, a) ==
           if FirstDigest(before, a).None? && a == vote.author then Some(vote.ledgerInfo) else FirstDigest(before, a);
    if Fresh(p, vote) {
      forall li
        ensures a in Signers(p', li) <==> FirstDigest(votes, a) == Some(li)
      {
        assert a in Signers(p, li) <==> FirstDigest(before, a) == Some(li);
      }
    }
  }

  /** Signature bookkeeping is exact: an author is counted under the digest of its first vote and
      under no other. */
  lemma {:induction false} BookkeepingExact(v: ValidatorVerifier, votes: seq<Vote>, a: Author)
    ensures Exact(votes, Run(v, votes), a)
  {
    if votes != [] {
      var before, vote := votes[..|votes| - 1], votes[|votes| - 1];
      BookkeepingExact(v, before, a);
      InsertRecords(Run(v, before), vote, v);
      ExactStep(before, vote, Run(v, before), Run(v, votes), a);
      assert votes == before + [vote];
    }
  }

  /** So different digests never share a signer. */
  lemma SignersDisjoint(v: ValidatorVerifier, votes: seq<Vote>, l1: LedgerInfo, l2: LedgerInfo)
    requires l1 != l2
    ensures Signers(Run(v, votes), l1) !! Signers(Run(v, votes), l2)
  {
    var p := Run(v, votes);
    forall a | a in Signers(p, l1)
      ensures a !in Signers(p, l2)
    {
      BookkeepingExact(v, votes, a);
    }
  }

  lemma {:induction false} FirstDigestStable(votes: seq<Vote>, k: nat, a: Author)
    requires k <= |votes| && FirstDigest(votes[..k], a).Some?
    ensures FirstDigest(votes, a) == FirstDigest(votes[..k], a)
  {
    if k < |votes| {
      assert votes[..|votes| - 1][..k] == votes[..k];
      FirstDigestStable(votes[..|votes| - 1], k, a);
    } else {
      assert votes[..k] == votes;
    }
  }

  lemma SignersGrow(v: ValidatorVerifier, votes: seq<Vote>, k: nat, li: LedgerInfo)
    requires k <= |votes|
    ensures Signers(Run(v, votes[..k]), li) <= Signers(Run(v, votes), li)
  {
    forall a | a in Signers(Run(v, votes[..k]), li)
      ensures a in Signers(Run(v, votes), li)
    {
      BookkeepingExact(v, votes[..k], a);
      BookkeepingExact(v, votes, a);
      FirstDigestStable(votes, k, a);
    }
  }

  /** With a threshold above half the power, only one digest can reach it. */
  lemma OneDigestReachesQuorum(v: ValidatorVerifier, votes: seq<Vote>, l1: LedgerInfo, l2: LedgerInfo)
    requires 2 * v.quorumPower > TotalPower(v)
    requires IsQuorum(v, Signers(Run(v, votes), l1)) && IsQuorum(v, Signers(Run(v, votes), l2))
    ensures l1 == l2
  {
    var s1, s2 := Signers(Run(v, votes), l1), Signers(Run(v, votes), l2);
    if l1 != l2 {
      SignersDisjoint(v, votes, l1, l2);
      assert s1 * s2 == {};
      PowerIntersection(v, s1, s2);
    }
  }

  // ------------------------------------------------ when a certificate appears

  ghost predicate AuthorsKnown(v: ValidatorVerifier, votes: seq<Vote>)
  {
    forall i :: 0 <= i < |votes| ==> votes[i].author in v.powers
  }

  ghost predicate CertificateFor(r: Reception, li: LedgerInfo)
  {
    r.NewQuorumCertificate? && r.qc.ledgerInfo == li
  }

  lemma SignersKnown(v: ValidatorVerifier, votes: seq<Vote>, li: LedgerInfo)
    requires AuthorsKnown(v, votes)
    ensures Signers(Run(v, votes), li) <= v.powers.Keys
  {
    forall a | a in Signers(Run(v, votes), li)
      ensures a in v.powers
    {
      BookkeepingExact(v, votes, a);
      FirstDigestWitness(votes, a);
    }
  }

  /** The digest has been voted for and its distinct voters reach the threshold. */
  ghost predicate ReachesQuorum(v: ValidatorVerifier, p: Pending, li: LedgerInfo)
  {
    Signers(p, li) != {} && IsQuorum(v, Signers(p, li))
  }

  lemma InsertCertifies(p: Pending, vote: Vote, v: ValidatorVerifier, li: LedgerInfo)
    requires CertificateFor(Insert(p, vote, v).1, li)
    ensures ReachesQuorum(v, Insert(p, vote, v).0, li)
  {
  }

  lemma CertificateIsQuorum(v: ValidatorVerifier, votes: seq<Vote>, k: nat, li: LedgerInfo)
    requires AuthorsKnown(v, votes) && k < |votes| && CertificateFor(Answer(v, votes, k), li)
    ensures ReachesQuorum(v, Run(v, votes), li)
  {
    RunStep(v, votes, k);
    InsertCertifies(Run(v, votes[..k]), votes[k], v, li);
    SignersGrow(v, votes, k + 1, li);
    SignersKnown(v, votes, li);
    PowerMonotone(v, Signers(Run(v, votes[..k + 1]), li), Signers(Run(v, votes), li));
  }

  /** The vote that first lifts a digest to the threshold is answered with its certificate. */
  lemma LiftingVoteCertifies(p: Pending, vote: Vote, v: ValidatorVerifier, li: LedgerInfo)
    requires !ReachesQuorum(v, p, li) && ReachesQuorum(v, Insert(p, vote, v).0, li)
    ensures CertificateFor(Insert(p, vote, v).1, li)
  {
    InsertRecords(p, vote, v);
  }

  lemma {:induction false} QuorumHasCertificate(v: ValidatorVerifier, votes: seq<Vote>, li: LedgerInfo) returns (k: nat)
    requires ReachesQuorum(v, Run(v, votes), li)
    ensures k < |votes| && CertificateFor(Answer(v, votes, k), li)
  {
    var n := |votes| - 1;
    var before := votes[..n];
    if ReachesQuorum(v, Run(v, before), li) {
      k := QuorumHasCertificate(v, before, li);
      assert before[..k] == votes[..k];
    } else {
      k := n;
      LiftingVoteCertifies(Run(v, before), votes[n], v, li);
    }
  }

  /** A certificate for a digest is handed out at some point of the run if and only if the distinct
      voters counted for it reach the threshold. */
  lemma CertificateIffQuorum(v: ValidatorVerifier, votes: seq<Vote>, li: LedgerInfo)
    requires AuthorsKnown(v, votes)
    ensures (exists k: nat :: k < |votes| && CertificateFor(Answer(v, votes, k), li))
        <==> ReachesQuorum(v, Run(v, votes), li)
  {
    if k: nat :| k < |votes| && CertificateFor(Answer(v, votes, k), li) {
      CertificateIsQuorum(v, votes, k, li);
    }
    if ReachesQuorum(v, Run(v, votes), li) {
      var k := QuorumHasCertificate(v, votes, li);
    }
  }

  // -------------------------------------------------------- order independence

  ghost predicate Voted(votes: seq<Vote>, a: Author, li: LedgerInfo)
  {
    exists i :: 0 <= i < |votes| && votes[i].author == a && votes[i].ledgerInfo == li
  }

  ghost predicate NonEquivocating(votes: seq<Vote>)
  {
    forall i, j :: 0 <= i < |votes| && 0 <= j < |votes| && votes[i].author == votes[j].author ==>
      votes[i].ledgerInfo == votes[j].ledgerInfo
  }

  lemma {:induction false} FirstDigestWitness(votes: seq<Vote>, a: Author)
    ensures FirstDigest(votes, a).Some? ==> Voted(votes, a, FirstDigest(votes, a).value)
    ensures FirstDigest(votes, a).None? ==> forall i :: 0 <= i < |votes| ==> votes[i].author != a
  {
    if votes != [] {
      FirstDigestWitness(votes[..|votes| - 1], a);
    }
  }

  lemma NonEquivocatingSigners(v: ValidatorVerifier, votes: seq<Vote>, a: Author, li: LedgerInfo)
    requires NonEquivocating(votes)
    ensures a in Signers(Run(v, votes), li) <==> Voted(votes, a, li)
  {
    BookkeepingExact(v, votes, a);
    FirstDigestWitness(votes, a);
  }

  /** The same votes in another order, or with repetitions. */
  ghost predicate SameVotes(votes: seq<Vote>, other: seq<Vote>)
  {
    && (forall i :: 0 <= i < |votes| ==> votes[i] in other)
    && (forall i :: 0 <= i < |other| ==> other[i] in votes)
  }

  /** Arrival order does not matter: without equivocation, any reordering with repetitions ends with
      the same signers for every digest and hands out certificates for the same digests. */
  lemma ArrivalOrderIrrelevant(v: ValidatorVerifier, votes: seq<Vote>, other: seq<Vote>, li: LedgerInfo)
    requires AuthorsKnown(v, votes) && NonEquivocating(votes) && SameVotes(votes, other)
    ensures Signers(Run(v, votes), li) == Signers(Run(v, other), li)
    ensures (exists k: nat :: k < |votes| && CertificateFor(Answer(v, votes, k), li))
        <==> (exists k: nat :: k < |other| && CertificateFor(Answer(v, other, k), li))
  {
    forall a
      ensures a in Signers(Run(v, votes), li) <==> a in Signers(Run(v, other), li)
    {
      NonEquivocatingSigners(v, votes, a, li);
      NonEquivocatingSigners(v, other, a, li);
      assert Voted(votes, a, li) <==> Voted(other, a, li) by {
        if i :| 0 <= i < |votes| && votes[i].author == a && votes[i].ledgerInfo == li {
          assert votes[i] in other;
        }
        if i :| 0 <= i < |other| && other[i].author == a && other[i].ledgerInfo == li {
          assert other[i] in votes;
        }
      }
    }
    CertificateIffQuorum(v, votes, li);
    CertificateIffQuorum(v, other, li);
  }
}
