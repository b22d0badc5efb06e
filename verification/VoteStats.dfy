/** Statistics a new leader reports about the votes of the previous round. */
module VoteStats {
  import opened Quorum
  import opened ConsensusTypes
  import opened PendingVotesModel

  /** The same validators, each counting for one. */
  ghost function Unit(v: ValidatorVerifier): ValidatorVerifier
  {
    v.(powers := map a | a in v.powers :: 1)
  }

  /** Power and number of the known authors among the signers of one digest. */
  ghost function Weight(v: ValidatorVerifier, authors: set<Author>): (nat, nat)
  {
    (Power(v, authors), Power(Unit(v), authors))
  }

  ghost function Weights(v: ValidatorVerifier, sets: seq<set<Author>>): (w: seq<(nat, nat)>)
    ensures |w| == |sets| && forall i :: 0 <= i < |sets| ==> w[i] == Weight(v, sets[i])
  {
    seq(|sets|, i requires 0 <= i < |sets| => Weight(v, sets[i]))
  }

  /** Componentwise sum. */
  function Sum(w: seq<(nat, nat)>): (nat, nat)
  {
    if w == [] then (0, 0)
    else
      var before := Sum(w[..|w| - 1]);
      (before.0 + w[|w| - 1].0, before.1 + w[|w| - 1].1)
  }

  predicate LexLe(x: (nat, nat), y: (nat, nat))
  {
    x.0 < y.0 || (x.0 == y.0 && x.1 <= y.1)
  }

  lemma WeightAdd(v: ValidatorVerifier, s: set<Author>, a: Author)
    requires a !in s
    ensures Weight(v, s + {a}).0 == Weight(v, s).0 + PowerOf(v, a)
    ensures Weight(v, s + {a}).1 == Weight(v, s).1 + if a in v.powers then 1 else 0
  {
    PowerAdd(v, s, a);
    PowerAdd(Unit(v), s, a);
  }

  method WeightOf(v: ValidatorVerifier, authors: set<Author>) returns (w: (nat, nat))
    ensures w == Weight(v, authors)
  {
    var power, count := 0, 0;
    var rest := authors;
    ghost var done := {};
    while rest != {}
      invariant done !! rest && done + rest == authors
      invariant power == Weight(v, done).0 && count == Weight(v, done).1
      decreases rest
    {
      var a :| a in rest;
      WeightAdd(v, done, a);
      if a in v.powers {
        power, count := power + v.powers[a], count + 1;
      }
      rest, done := rest - {a}, done + {a};
    }
    assert done == authors;
    return (power, count);
  }

  /** The lexicographically greatest entry, (0, 0) if there is none, with the componentwise sum. */
  method LexMax(w: seq<(nat, nat)>) returns (max: (nat, nat), total: (nat, nat))
    ensures forall i :: 0 <= i < |w| ==> LexLe(w[i], max)
    ensures if w == [] then max == (0, 0) else max in w
    ensures total == Sum(w) && max.0 <= total.0 && max.1 <= total.1
  {
    max, total := (0, 0), (0, 0);
    for i := 0 to |w|
      invariant total == Sum(w[..i])
      invariant forall j :: 0 <= j < i ==> LexLe(w[j], max)
      invariant if i == 0 then max == (0, 0) else max in w
      invariant max.0 <= total.0 && max.1 <= total.1
    {
      assert w[..i + 1][..i] == w[..i];
      total := (total.0 + w[i].0, total.1 + w[i].1);
      if LexLe(max, w[i]) {
        max := w[i];
      }
    }
    assert w[..|w|] == w;
  }

  /** The digest with the most power (then the most votes) and everything cast against it.  The two
      subtractions stay in the natural numbers although the maximum is chosen by power first. */
  method CollectVoteStats(v: ValidatorVerifier, sets: seq<set<Author>>) returns (max: (nat, nat), conflicting: (nat, nat))
    ensures forall i :: 0 <= i < |sets| ==> LexLe(Weight(v, sets[i]), max)
    ensures if sets == [] then max == (0, 0) else exists i :: 0 <= i < |sets| && Weight(v, sets[i]) == max
    ensures max.0 + conflicting.0 == Sum(Weights(v, sets)).0
    ensures max.1 + conflicting.1 == Sum(Weights(v, sets)).1
  {
    var w := [];
    for i := 0 to |sets|
      invariant |w| == i && forall j :: 0 <= j < i ==> w[j] == Weight(v, sets[j])
    {
      var x := WeightOf(v, sets[i]);
      w := w + [x];
    }
    assert w == Weights(v, sets);
    var total;
    max, total := LexMax(w);
    conflicting := (total.0 - max.0, total.1 - max.1);
  }

  ghost predicate PairwiseDisjoint(sets: seq<set<Author>>)
  {
    forall i, j :: 0 <= i < j < |sets| ==> sets[i] !! sets[j]
  }

  ghost function Union(sets: seq<set<Author>>): set<Author>
  {
    if sets == [] then {} else Union(sets[..|sets| - 1]) + sets[|sets| - 1]
  }

  lemma {:induction false} UnionMember(sets: seq<set<Author>>, a: Author)
    requires a in Union(sets)
    ensures exists i :: 0 <= i < |sets| && a in sets[i]
  {
    if a !in sets[|sets| - 1] {
      UnionMember(sets[..|sets| - 1], a);
    }
  }

  lemma {:induction false} SumIsUnion(v: ValidatorVerifier, sets: seq<set<Author>>)
    requires PairwiseDisjoint(sets)
    ensures Sum(Weights(v, sets)).0 == Power(v, Union(sets))
  {
    if sets != [] {
      var before, last := sets[..|sets| - 1], sets[|sets| - 1];
      SumIsUnion(v, before);
      assert Weights(v, sets)[..|sets| - 1] == Weights(v, before);
      forall a | a in Union(before)
        ensures a !in last
      {
        UnionMember(before, a);
      }
      PowerUnion(v, Union(before), last);
    }
  }

  lemma {:induction false} UnknownWeighNothing(v: ValidatorVerifier, s: set<Author>)
    requires s !! v.powers.Keys
    ensures Power(v, s) == 0
  {
    if s != {} {
      var a :| a in s;
      PowerRemove(v, s, a);
      UnknownWeighNothing(v, s - {a});
    }
  }

  lemma PowerAtMostTotal(v: ValidatorVerifier, s: set<Author>)
    ensures Power(v, s) <= TotalPower(v)
  {
    PowerUnion(v, s * v.powers.Keys, s - v.powers.Keys);
    assert s * v.powers.Keys + (s - v.powers.Keys) == s;
    UnknownWeighNothing(v, s - v.powers.Keys);
    PowerMonotone(v, s * v.powers.Keys, v.powers.Keys);
  }

  /** `digests` lists digests of a drained collection, none of them twice. */
  ghost predicate Distinct(digests: seq<LedgerInfo>)
  {
    forall i, j :: 0 <= i < j < |digests| ==> digests[i] != digests[j]
  }

  function DrainedSigners(p: Pending, digests: seq<LedgerInfo>): (sets: seq<set<Author>>)
    ensures |sets| == |digests|
    ensures forall i :: 0 <= i < |digests| ==> sets[i] == Signers(p, digests[i])
  {
    seq(|digests|, i requires 0 <= i < |digests| => Signers(p, digests[i]))
  }

  /** For the votes collected by any run, the power reported for all digests together, and so the
      maximum plus what conflicts with it, never exceeds the total. */
  lemma CollectedPowerWithinTotal(v: ValidatorVerifier, votes: seq<Vote>, digests: seq<LedgerInfo>)
    requires Distinct(digests)
    ensures Sum(Weights(v, DrainedSigners(Run(v, votes), digests))).0 <= TotalPower(v)
  {
    var sets := DrainedSigners(Run(v, votes), digests);
    forall i, j | 0 <= i < j < |sets|
      ensures sets[i] !! sets[j]
    {
      SignersDisjoint(v, votes, digests[i], digests[j]);
    }
    SumIsUnion(v, sets);
    PowerAtMostTotal(v, Union(sets));
  }
}
