/** Types and functions shared by all modules. */
module Common {
  datatype Option<+T> = None | Some(value: T)

  datatype Result<+T, +E> = Ok(value: T) | Err(error: E)

  function Min(a: nat, b: nat): nat { if a < b then a else b }

  function Max(a: nat, b: nat): nat { if a < b then b else a }
}

/** A stable sort. */
module Sorting {
  ghost predicate TotalPreorder<T(!new)>(le: (T, T) -> bool)
  {
    && (forall a, b :: le(a, b) || le(b, a))
    && (forall a, b, c :: le(a, b) && le(b, c) ==> le(a, c))
  }

  predicate Sorted<T>(s: seq<T>, le: (T, T) -> bool)
  {
    forall i, j :: 0 <= i < j < |s| ==> le(s[i], s[j])
  }

  /** Insert after everything not greater. */
  function Insert<T>(s: seq<T>, x: T, le: (T, T) -> bool): (r: seq<T>)
    ensures |r| == |s| + 1 && multiset(r) == multiset(s) + multiset{x}
  {
    if s == [] || le(s[|s| - 1], x) then s + [x]
    else
      assert s == s[..|s| - 1] + [s[|s| - 1]];
      Insert(s[..|s| - 1], x, le) + [s[|s| - 1]]
  }

  lemma {:induction false} InsertKeepsSorted<T(!new)>(s: seq<T>, x: T, le: (T, T) -> bool)
    requires TotalPreorder(le) && Sorted(s, le)
    ensures Sorted(Insert(s, x, le), le)
  {
    if s != [] {
      var before, last := s[..|s| - 1], s[|s| - 1];
      if le(last, x) {
        forall i | 0 <= i < |s|
          ensures le(s[i], x)
        {
          assert i < |s| - 1 ==> le(s[i], last);
        }
      } else {
        InsertKeepsSorted(before, x, le);
        var r := Insert(before, x, le);
        forall i | 0 <= i < |r|
          ensures le(r[i], last)
        {
          assert r[i] in multiset(r);
          assert r[i] == x || r[i] in before;
        }
      }
    }
  }

  function Sort<T(!new)>(s: seq<T>, le: (T, T) -> bool): (r: seq<T>)
    requires TotalPreorder(le)
    ensures |r| == |s| && multiset(r) == multiset(s) && Sorted(r, le)
  {
    if s == [] then []
    else
      var before := Sort(s[..|s| - 1], le);
      InsertKeepsSorted(before, s[|s| - 1], le);
      assert s == s[..|s| - 1] + [s[|s| - 1]];
      Insert(before, s[|s| - 1], le)
  }

  lemma SameElements<T>(a: seq<T>, b: seq<T>)
    requires multiset(a) == multiset(b)
    ensures forall x :: x in a <==> x in b
  {
    assert forall x :: x in a <==> x in multiset(a);
    assert forall x :: x in b <==> x in multiset(b);
  }
}
