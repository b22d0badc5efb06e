/** Weighted validator sets: voting power of a set of authors, the quorum test
    and the quorum-intersection facts every safety argument rests on. */
module Quorum {

  type Author = nat

  /** The validators of one epoch with their voting powers, and the power a certificate needs. */
  datatype ValidatorVerifier = ValidatorVerifier(powers: map<Author, nat>, quorumPower: nat)

  /** Outcome of adding up the voting power behind a set of signers. */
  datatype PowerCheck =
    | QuorumReached
    | TooLittleVotingPower(votingPower: nat)
    | UnknownAuthor

  function PowerOf(v: ValidatorVerifier, a: Author): (p: nat)
  {
    if a in v.powers then v.powers[a] else 0
  }

  /** Total power of a set of authors; authors outside the validator set weigh nothing. */
  ghost function Power(v: ValidatorVerifier, s: set<Author>): nat
  {
    if s == {} then 0
    else
      var a :| a in s;
      PowerOf(v, a) + Power(v, s - {a})
  }

  ghost function TotalPower(v: ValidatorVerifier): nat
  {
    Power(v, v.powers.Keys)
  }

  /** What the quorum test must answer, independently of the order signers are visited in. */
  ghost function VotingPowerCheck(v: ValidatorVerifier, authors: set<Author>): PowerCheck
  {
    if !(authors <= v.powers.Keys) then UnknownAuthor
    else if Power(v, authors) < v.quorumPower then TooLittleVotingPower(Power(v, authors))
    else QuorumReached
  }

  ghost predicate IsQuorum(v: ValidatorVerifier, q: set<Author>)
  {
    q <= v.powers.Keys && Power(v, q) >= v.quorumPower
  }

  /** Any two quorums overlap in more power than the Byzantine authors hold. */
  ghost predicate Resilient(v: ValidatorVerifier, byzantine: set<Author>)
  {
    && v.quorumPower <= TotalPower(v)
    && 2 * v.quorumPower > TotalPower(v) + Power(v, byzantine)
  }

  /** The choice of element in `Power` does not matter. */
  lemma {:induction false} PowerRemove(v: ValidatorVerifier, s: set<Author>, a: Author)
    requires a in s
    ensures Power(v, s) == PowerOf(v, a) + Power(v, s - {a})
  {
    var b :| b in s && Power(v, s) == PowerOf(v, b) + Power(v, s - {b});
    if a != b {
      PowerRemove(v, s - {b}, a);
      PowerRemove(v, s - {a}, b);
      assert s - {b} - {a} == s - {a} - {b};
    }
  }

  lemma PowerAdd(v: ValidatorVerifier, s: set<Author>, a: Author)
    requires a !in s
    ensures Power(v, s + {a}) == Power(v, s) + PowerOf(v, a)
  {
    PowerRemove(v, s + {a}, a);
    assert s + {a} - {a} == s;
  }

  lemma {:induction false} PowerUnion(v: ValidatorVerifier, s: set<Author>, t: set<Author>)
    requires s !! t
    ensures Power(v, s + t) == Power(v, s) + Power(v, t)
    decreases t
  {
    if t == {} {
      assert s + t == s;
    } else {
      var a :| a in t;
      PowerRemove(v, t, a);
      PowerUnion(v, s, t - {a});
      PowerAdd(v, s + (t - {a}), a);
      assert s + (t - {a}) + {a} == s + t;
    }
  }

  lemma PowerMonotone(v: ValidatorVerifier, s: set<Author>, t: set<Author>)
    requires s <= t
    ensures Power(v, s) <= Power(v, t)
  {
    PowerUnion(v, s, t - s);
    assert s + (t - s) == t;
  }

  /** Weighted inclusion-exclusion: two sets of validators share at least their excess over the total. */
  lemma PowerIntersection(v: ValidatorVerifier, s: set<Author>, t: set<Author>)
    requires s <= v.powers.Keys && t <= v.powers.Keys
    ensures Power(v, s * t) + TotalPower(v) >= Power(v, s) + Power(v, t)
  {
    PowerUnion(v, s * t, s - t);
    assert s * t + (s - t) == s;
    PowerUnion(v, s - t, t);
    PowerMonotone(v, (s - t) + t, v.powers.Keys);
  }

  /** Two quorums of a resilient validator set share an honest author. */
  lemma QuorumsShareHonest(v: ValidatorVerifier, byzantine: set<Author>, p: set<Author>, q: set<Author>)
    returns (a: Author)
    requires Resilient(v, byzantine) && IsQuorum(v, p) && IsQuorum(v, q)
    ensures a in p && a in q && a !in byzantine
  {
    PowerIntersection(v, p, q);
    if p * q <= byzantine {
      PowerMonotone(v, p * q, byzantine);
      assert false;
    }
    a :| a in p * q && a !in byzantine;
  }

  /** The threshold `ValidatorVerifier::new` picks: two thirds of the total power plus one. */
  ghost function DefaultVerifier(powers: map<Author, nat>): ValidatorVerifier
  {
    var total := TotalPower(ValidatorVerifier(powers, 0));
    ValidatorVerifier(powers, if powers == map[] then 0 else total * 2 / 3 + 1)
  }

  lemma {:induction false} PowerIgnoresThreshold(powers: map<Author, nat>, p: nat, q: nat, s: set<Author>)
    ensures Power(ValidatorVerifier(powers, p), s) == Power(ValidatorVerifier(powers, q), s)
  {
    if s != {} {
      var a :| a in s;
      PowerRemove(ValidatorVerifier(powers, p), s, a);
      PowerRemove(ValidatorVerifier(powers, q), s, a);
      PowerIgnoresThreshold(powers, p, q, s - {a});
    }
  }

  /** The default threshold tolerates every Byzantine set holding less than a third of the power. */
  lemma DefaultVerifierResilient(powers: map<Author, nat>, byzantine: set<Author>)
    requires 3 * Power(DefaultVerifier(powers), byzantine) < TotalPower(DefaultVerifier(powers))
    ensures Resilient(DefaultVerifier(powers), byzantine)
  {
    var v := DefaultVerifier(powers);
    PowerIgnoresThreshold(powers, 0, v.quorumPower, powers.Keys);
  }

  /** It is the least threshold above two thirds, so the validators outside such a Byzantine set reach it on their own. */
  lemma DefaultVerifierReachable(powers: map<Author, nat>, byzantine: set<Author>)
    requires byzantine <= powers.Keys && 3 * Power(DefaultVerifier(powers), byzantine) < TotalPower(DefaultVerifier(powers))
    ensures var v := DefaultVerifier(powers);
            && 3 * (v.quorumPower - 1) <= 2 * TotalPower(v) < 3 * v.quorumPower
            && IsQuorum(v, powers.Keys - byzantine)
  {
    var v := DefaultVerifier(powers);
    PowerIgnoresThreshold(powers, 0, v.quorumPower, powers.Keys);
    PowerUnion(v, powers.Keys - byzantine, byzantine);
    assert powers.Keys - byzantine + byzantine == powers.Keys;
  }

  /** Adds up the signers' power in whatever order the map yields them,
      stopping at the first author outside the validator set. */
  method CheckVotingPower(v: ValidatorVerifier, authors: set<Author>) returns (r: PowerCheck)
    ensures r == VotingPowerCheck(v, authors)
  {
    var aggregated := 0;
    var rest := authors;
    while rest != {}
      invariant rest <= authors && authors - rest <= v.powers.Keys
      invariant aggregated == Power(v, authors - rest)
      decreases rest
    {
      var a :| a in rest;
      if a !in v.powers {
        return UnknownAuthor;
      }
      PowerAdd(v, authors - rest, a);
      assert authors - rest + {a} == authors - (rest - {a});
      aggregated := aggregated + v.powers[a];
      rest := rest - {a};
    }
    assert authors - rest == authors;
    if aggregated < v.quorumPower {
      return TooLittleVotingPower(aggregated);
    }
    return QuorumReached;
  }

  /** The total cached when a validator set is built. */
  method SumVotingPower(v: ValidatorVerifier) returns (total: nat)
    ensures total == TotalPower(v)
  {
    total := 0;
    var rest := v.powers.Keys;
    while rest != {}
      invariant rest <= v.powers.Keys
      invariant total == Power(v, v.powers.Keys - rest)
      decreases rest
    {
      var a :| a in rest;
      PowerAdd(v, v.powers.Keys - rest, a);
      assert v.powers.Keys - rest + {a} == v.powers.Keys - (rest - {a});
      total := total + v.powers[a];
      rest := rest - {a};
    }
    assert v.powers.Keys - rest == v.powers.Keys;
  }
}
