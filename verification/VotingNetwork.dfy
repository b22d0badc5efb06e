/** Validators that follow the round manager, Byzantine ones that send any vote, and a network of votes that
    only grows: no two vote collections certify different things in one round.

    Nothing is assumed here of the safety rules but that they sign with the validator's own key a vote of
    the round asked for; compare module `VoteAggregation`, which derives certificate uniqueness from them. */
module VotingNetwork {
  import opened Common
  import opened Quorum
  import opened ConsensusTypes
  import opened RoundManagerModel
  import opened PendingVotesModel

  /** The validators of one epoch. */
  datatype Config = Config(verifier: ValidatorVerifier, byzantine: set<Author>)

  /** Each validator's round manager, the votes on the wire, and the votes each validator has inserted into
      its pending votes of each round. */
  datatype Net = Net(managers: map<Author, Manager>, wire: set<Vote>, inserted: map<(Author, Round), seq<Vote>>)

  datatype Action =
    | Process(node: Author, event: Event)
    | Forge(vote: Vote)
    | InsertAt(node: Author, vote: Vote)

  function Sent(m: Manager): set<Vote>
  {
    set i | 0 <= i < |m.sent| :: m.sent[i].vote
  }

  function Inserted(s: Net, node: Author, round: Round): seq<Vote>
  {
    if (node, round) in s.inserted then s.inserted[(node, round)] else []
  }

  ghost predicate Init(s: Net)
  {
    && s.wire == {} && s.inserted == map[]
    && forall a :: a in s.managers ==> exists r :: s.managers[a] == Manager(r, None, None, [])
  }

  /** Restarts resume no lower than the persisted vote's round, or in any other round that is safe. */
  predicate Allowed(m: Manager, e: Event)
  {
    Permitted(m, e) || (e.Resume? && AtPersisted(m.lastVote, e.round))
  }

  ghost predicate Enabled(c: Config, s: Net, action: Action)
  {
    match action
    case Process(node, event) =>
      && node in s.managers && node !in c.byzantine && Allowed(s.managers[node], event)
      && forall vote :: vote in Sent(Handle(s.managers[node], event)) ==> vote.author == node
    case Forge(vote) => vote.author in c.byzantine
    case InsertAt(_, vote) => vote in s.wire && vote.Verify(c.verifier)
  }

  function Apply(s: Net, action: Action): Net
  {
    match action
    case Process(node, event) =>
      if node !in s.managers then s
      else
        var m := Handle(s.managers[node], event);
        s.(managers := s.managers[node := m], wire := s.wire + Sent(m))
    case Forge(vote) => s.(wire := s.wire + {vote})
    case InsertAt(node, vote) =>
      s.(inserted := s.inserted[(node, vote.Round()) := Inserted(s, node, vote.Round()) + [vote]])
  }

  function After(s: Net, actions: seq<Action>): Net
  {
    if actions == [] then s else Apply(After(s, actions[..|actions| - 1]), actions[|actions| - 1])
  }

  ghost predicate IsRun(c: Config, s: Net, actions: seq<Action>)
  {
    if actions == [] then Init(s)
    else
      var before := actions[..|actions| - 1];
      IsRun(c, s, before) && Enabled(c, After(s, before), actions[|actions| - 1])
  }

  // ----------------------------------------------------------------- invariant

  ghost predicate ManagersKeep(c: Config, s: Net)
  {
    forall a :: a in s.managers && a !in c.byzantine ==> ManagerKeeps(s.managers[a], a)
  }

  ghost predicate ManagerKeeps(m: Manager, a: Author)
  {
    && ManagerInv(m) && SentUpToPersisted(m)
    && forall vote :: vote in Sent(m) ==> vote.author == a
  }

  /** Honest votes on the wire were sent by their author's round manager. */
  ghost predicate WireAuthentic(c: Config, s: Net)
  {
    forall vote :: vote in s.wire && vote.author !in c.byzantine ==>
      vote.author in s.managers && vote in Sent(s.managers[vote.author])
  }

  ghost predicate InsertedFromWire(c: Config, s: Net)
  {
    forall node, round, i :: 0 <= i < |Inserted(s, node, round)| ==>
      var vote := Inserted(s, node, round)[i];
      vote in s.wire && vote.Round() == round && vote.Verify(c.verifier)
  }

  ghost predicate Inv(c: Config, s: Net)
  {
    ManagersKeep(c, s) && WireAuthentic(c, s) && InsertedFromWire(c, s)
  }

  lemma HandleKeepsSent(m: Manager, e: Event)
    ensures m.sent <= Handle(m, e).sent
  {
  }

  lemma SentGrows(m: Manager, m': Manager)
    requires m.sent <= m'.sent
    ensures Sent(m) <= Sent(m')
  {
    forall vote | vote in Sent(m)
      ensures vote in Sent(m')
    {
      var i :| 0 <= i < |m.sent| && m.sent[i].vote == vote;
      assert m'.sent[i] == m.sent[i];
    }
  }

  lemma ProcessKeepsInv(c: Config, s: Net, node: Author, m: Manager)
    requires Inv(c, s) && node in s.managers && s.managers[node].sent <= m.sent && ManagerKeeps(m, node)
    ensures Inv(c, s.(managers := s.managers[node := m], wire := s.wire + Sent(m)))
  {
    SentGrows(s.managers[node], m);
    var s' := s.(managers := s.managers[node := m], wire := s.wire + Sent(m));
    assert forall n, r :: Inserted(s', n, r) == Inserted(s, n, r);
  }

  lemma InsertKeepsInv(c: Config, s: Net, node: Author, vote: Vote)
    requires Inv(c, s) && vote in s.wire && vote.Verify(c.verifier)
    ensures Inv(c, Apply(s, InsertAt(node, vote)))
  {
    var s' := Apply(s, InsertAt(node, vote));
    forall n: Author, r: Round, i | 0 <= i < |Inserted(s', n, r)|
      ensures Inserted(s', n, r)[i] in s.wire && Inserted(s', n, r)[i].Round() == r && Inserted(s', n, r)[i].Verify(c.verifier)
    {
      if (n, r) == (node, vote.Round()) && i == |Inserted(s, n, r)| {
        assert Inserted(s', n, r)[i] == vote;
      } else {
        assert Inserted(s', n, r)[i] == Inserted(s, n, r)[i];
      }
    }
  }

  lemma AllowedKeeps(m: Manager, e: Event)
    requires ManagerInv(m) && SentUpToPersisted(m) && Allowed(m, e)
    ensures Permitted(m, e) && ManagerInv(Handle(m, e)) && SentUpToPersisted(Handle(m, e))
  {
    if e.Resume? && AtPersisted(m.lastVote, e.round) {
      AtPersistedIsSafe(m, e.round);
    }
    HandleKeepsInv(m, e);
    HandleSentUpTo(m, e);
  }

  lemma StepKeepsInv(c: Config, s: Net, action: Action)
    requires Inv(c, s) && Enabled(c, s, action)
    ensures Inv(c, Apply(s, action))
  {
    match action
    case Process(node, event) =>
      assert ManagerKeeps(s.managers[node], node);
      HandleKeepsSent(s.managers[node], event);
      AllowedKeeps(s.managers[node], event);
      ProcessKeepsInv(c, s, node, Handle(s.managers[node], event));
    case Forge(vote) =>
      assert forall n, r :: Inserted(Apply(s, action), n, r) == Inserted(s, n, r);
    case InsertAt(node, vote) => InsertKeepsInv(c, s, node, vote);
  }

  lemma {:induction false} RunKeepsInv(c: Config, s: Net, actions: seq<Action>)
    requires IsRun(c, s, actions)
    ensures Inv(c, After(s, actions))
  {
    if actions != [] {
      RunKeepsInv(c, s, actions[..|actions| - 1]);
      StepKeepsInv(c, After(s, actions[..|actions| - 1]), actions[|actions| - 1]);
    }
  }

  // ---------------------------------------------------------------- uniqueness

  /** A validator counted for a digest has put a vote for it on the wire. */
  lemma SignerVoted(c: Config, s: Net, node: Author, round: Round, li: LedgerInfo, a: Author) returns (vote: Vote)
    requires Inv(c, s) && a in Signers(Run(c.verifier, Inserted(s, node, round)), li)
    ensures vote in s.wire && vote.author == a && vote.ledgerInfo == li && vote.Round() == round
  {
    var votes := Inserted(s, node, round);
    BookkeepingExact(c.verifier, votes, a);
    FirstDigestWitness(votes, a);
    var i :| 0 <= i < |votes| && votes[i].author == a && votes[i].ledgerInfo == li;
    vote := Inserted(s, node, round)[i];
  }

  lemma HonestVotesAgree(c: Config, s: Net, v1: Vote, v2: Vote)
    requires Inv(c, s) && v1 in s.wire && v2 in s.wire
    requires v1.author == v2.author && v1.author !in c.byzantine && v1.Round() == v2.Round()
    ensures v1.ledgerInfo == v2.ledgerInfo
  {
    var m := s.managers[v1.author];
    assert ManagerKeeps(m, v1.author) && v1 in Sent(m) && v2 in Sent(m);
    var i :| 0 <= i < |m.sent| && m.sent[i].vote == v1;
    var j :| 0 <= j < |m.sent| && m.sent[j].vote == v2;
    assert SameVote(m.sent[i].vote, m.sent[j].vote);
  }

  lemma CertificateQuorum(c: Config, s: Net, node: Author, round: Round, k: nat)
    requires Inv(c, s) && k < |Inserted(s, node, round)|
    requires Answer(c.verifier, Inserted(s, node, round), k).NewQuorumCertificate?
    ensures var li := Answer(c.verifier, Inserted(s, node, round), k).qc.ledgerInfo;
            IsQuorum(c.verifier, Signers(Run(c.verifier, Inserted(s, node, round)), li))
  {
    var votes := Inserted(s, node, round);
    forall i | 0 <= i < |votes|
      ensures votes[i].author in c.verifier.powers
    {
      assert Inserted(s, node, round)[i].Verify(c.verifier);
    }
    CertificateIsQuorum(c.verifier, votes, k, Answer(c.verifier, votes, k).qc.ledgerInfo);
  }

  /** A validator may always restart in a round no lower than the vote it has persisted. */
  lemma RestartEnabled(c: Config, s: Net, node: Author, round: Round)
    requires Inv(c, s) && node in s.managers && node !in c.byzantine && AtPersisted(s.managers[node].lastVote, round)
    ensures Enabled(c, s, Process(node, Resume(round)))
  {
    assert ManagerKeeps(s.managers[node], node);
    assert Sent(Handle(s.managers[node], Resume(round))) == Sent(s.managers[node]);
  }

  /** In every run, whatever the safety rules answer and with validators restarting as their disks tell them, the
      pending votes of a round at any two validators never yield quorum certificates for different ledger infos. */
  lemma CertificatesUnique(c: Config, s: Net, actions: seq<Action>, node1: Author, k1: nat, node2: Author, k2: nat, round: Round)
    requires Resilient(c.verifier, c.byzantine) && IsRun(c, s, actions)
    requires k1 < |Inserted(After(s, actions), node1, round)| && k2 < |Inserted(After(s, actions), node2, round)|
    requires Answer(c.verifier, Inserted(After(s, actions), node1, round), k1).NewQuorumCertificate?
    requires Answer(c.verifier, Inserted(After(s, actions), node2, round), k2).NewQuorumCertificate?
    ensures Answer(c.verifier, Inserted(After(s, actions), node1, round), k1).qc.ledgerInfo
         == Answer(c.verifier, Inserted(After(s, actions), node2, round), k2).qc.ledgerInfo
  {
    RunKeepsInv(c, s, actions);
    var end := After(s, actions);
    var votes1, votes2 := Inserted(end, node1, round), Inserted(end, node2, round);
    var li1, li2 := Answer(c.verifier, votes1, k1).qc.ledgerInfo, Answer(c.verifier, votes2, k2).qc.ledgerInfo;
    CertificateQuorum(c, end, node1, round, k1);
    CertificateQuorum(c, end, node2, round, k2);
    var a := QuorumsShareHonest(c.verifier, c.byzantine, Signers(Run(c.verifier, votes1), li1), Signers(Run(c.verifier, votes2), li2));
    var v1 := SignerVoted(c, end, node1, round, li1, a);
    var v2 := SignerVoted(c, end, node2, round, li2, a);
    HonestVotesAgree(c, end, v1, v2);
  }
}
