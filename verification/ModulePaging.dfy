/** Listing an account's modules page by page.

    A state key under an account is an encoded path and a flag that marks code.  The listing accepts only
    keys without the flag, while every way of building a module's key sets it. */
module ModulePaging {
  import opened Common

  type ModuleId = int

  /** Encoded paths, numbered in their byte order. */
  type PathBytes = nat

  datatype Path = Code(id: ModuleId) | Resource | ResourceGroup

  datatype Key = Key(path: PathBytes, isCode: bool)
  {
    /** The flag comes last in the encoding, so an unflagged key precedes the flagged one of the same path. */
    predicate Lt(other: Key)
    {
      path < other.path || (path == other.path && !isCode && other.isCode)
    }
  }

  /** Decoding of paths, `None` on malformed bytes, and encoding of module paths. */
  datatype Encoding = Encoding(decode: PathBytes -> Option<Path>, codePath: ModuleId -> PathBytes)

  /** The encoding is canonical. */
  ghost predicate Canonical(enc: Encoding)
  {
    && (forall id :: enc.decode(enc.codePath(id)) == Some(Code(id)))
    && (forall p :: enc.decode(p).Some? && enc.decode(p).value.Code? ==> enc.codePath(enc.decode(p).value.id) == p)
  }

  datatype Page = Page(modules: seq<ModuleId>, next: Option<Key>)

  ghost predicate InKeyOrder(keys: seq<Key>)
  {
    forall i, j :: 0 <= i < j < |keys| ==> keys[i].Lt(keys[j])
  }

  /** The key of a module, as every constructor of access paths builds it. */
  function ModuleKey(enc: Encoding, id: ModuleId): Key
  {
    Key(enc.codePath(id), true)
  }

  predicate IsModule(enc: Encoding, k: Key)
  {
    enc.decode(k.path).Some? && enc.decode(k.path).value.Code?
  }

  /** A key the listing returns a module for. */
  predicate Listed(enc: Encoding, k: Key)
  {
    !k.isCode && IsModule(enc, k)
  }

  /** A key the listing passes over. */
  predicate Skipped(enc: Encoding, k: Key)
  {
    !k.isCode && enc.decode(k.path).Some? && !enc.decode(k.path).value.Code?
  }

  /** The iterator starts inclusively at the cursor. */
  function From(keys: seq<Key>, cursor: Option<Key>): seq<Key>
  {
    if cursor.None? || keys == [] || !keys[0].Lt(cursor.value) then keys else From(keys[1..], cursor)
  }

  /** What the filter lets through: modules listed, and keys that are answered with an error. */
  function Entries(enc: Encoding, keys: seq<Key>): seq<Key>
  {
    if keys == [] then []
    else (if Skipped(enc, keys[0]) then [] else [keys[0]]) + Entries(enc, keys[1..])
  }

  predicate AllListed(enc: Encoding, entries: seq<Key>)
  {
    forall i :: 0 <= i < |entries| ==> Listed(enc, entries[i])
  }

  function Ids(enc: Encoding, entries: seq<Key>): seq<ModuleId>
    requires AllListed(enc, entries)
  {
    seq(|entries|, i requires 0 <= i < |entries| => enc.decode(entries[i].path).value.id)
  }

  /** A page, given the entries from its cursor on. */
  function PageOf(enc: Encoding, entries: seq<Key>, limit: nat): Option<Page>
  {
    if !AllListed(enc, entries[..Min(|entries|, limit + 1)]) then None
    else
      SplitListed(enc, entries, limit);
      Some(Page(Ids(enc, entries[..Min(|entries|, limit)]),
                if |entries| > limit then Some(ModuleKey(enc, enc.decode(entries[limit].path).value.id)) else None))
  }

  lemma SplitListed(enc: Encoding, entries: seq<Key>, limit: nat)
    ensures AllListed(enc, entries[..Min(|entries|, limit + 1)]) <==>
            AllListed(enc, entries[..Min(|entries|, limit)]) && (|entries| > limit ==> Listed(enc, entries[limit]))
  {
    if |entries| > limit {
      assert entries[..limit + 1] == entries[..limit] + [entries[limit]];
    }
  }

  // ------------------------------------------------------------------ one page

  /** Skip to the next entry; `i` is the iterator's position. */
  method NextEntry(enc: Encoding, keys: seq<Key>, start: nat) returns (entry: Option<Key>, i: nat)
    requires start <= |keys|
    ensures start <= i <= |keys|
    ensures entry.None? ==> Entries(enc, keys[start..]) == [] && i == |keys|
    ensures entry.Some? ==> Entries(enc, keys[start..]) == [entry.value] + Entries(enc, keys[i..])
  {
    i := start;
    while i < |keys|
      invariant start <= i <= |keys| && Entries(enc, keys[i..]) == Entries(enc, keys[start..])
    {
      assert keys[i..][1..] == keys[i + 1..];
      i := i + 1;
      if !Skipped(enc, keys[i - 1]) {
        return Some(keys[i - 1]), i;
      }
    }
    return None, i;
  }

  method Seek(keys: seq<Key>, cursor: Option<Key>) returns (i: nat)
    ensures i <= |keys| && keys[i..] == From(keys, cursor)
  {
    i := 0;
    while i < |keys| && cursor.Some? && keys[i].Lt(cursor.value)
      invariant i <= |keys| && From(keys[i..], cursor) == From(keys, cursor)
    {
      assert keys[i..][1..] == keys[i + 1..];
      i := i + 1;
    }
  }

  lemma NextOf(enc: Encoding, entries: seq<Key>, m: nat, e: Key, rest: seq<Key>)
    requires m <= |entries| && entries[m..] == [e] + rest && AllListed(enc, entries[..m])
    ensures m < |entries| && entries[m] == e && entries[m + 1..] == rest
    ensures Listed(enc, e) ==>
              && AllListed(enc, entries[..m + 1])
              && Ids(enc, entries[..m + 1]) == Ids(enc, entries[..m]) + [enc.decode(e.path).value.id]
  {
    assert entries[m..][0] == e;
    assert entries[m + 1..] == entries[m..][1..];
    assert entries[..m + 1] == entries[..m] + [e];
  }

  /** Take up to `limit` modules, stopping at the first error. */
  method TakeModules(enc: Encoding, keys: seq<Key>, start: nat, limit: nat) returns (r: Option<seq<ModuleId>>, i: nat)
    requires start <= |keys|
    ensures i <= |keys|
    ensures var entries := Entries(enc, keys[start..]);
            var n := Min(|entries|, limit);
            && (r.Some? <==> AllListed(enc, entries[..n]))
            && (r.Some? ==> r.value == Ids(enc, entries[..n]) && Entries(enc, keys[i..]) == entries[n..])
  {
    ghost var entries := Entries(enc, keys[start..]);
    i := start;
    var modules: seq<ModuleId> := [];
    while |modules| < limit
      invariant i <= |keys| && |modules| <= Min(|entries|, limit)
      invariant AllListed(enc, entries[..|modules|]) && modules == Ids(enc, entries[..|modules|])
      invariant entries[|modules|..] == Entries(enc, keys[i..])
      decreases limit - |modules|
    {
      var entry, next := NextEntry(enc, keys, i);
      i := next;
      if entry.None? {
        break;
      }
      NextOf(enc, entries, |modules|, entry.value, Entries(enc, keys[i..]));
      if !Listed(enc, entry.value) {
        assert entries[..Min(|entries|, limit)][|modules|] == entry.value;
        return None, i;
      }
      modules := modules + [enc.decode(entry.value.path).value.id];
    }
    return Some(modules), i;
  }

  /** A page fails exactly when one of the `limit + 1` entries it reads is answered with an error; otherwise it
      has the first `limit` modules from the cursor on, and a rebuilt key of the next one if there is one. */
  method GetModulesByPagination(enc: Encoding, keys: seq<Key>, cursor: Option<Key>, limit: nat) returns (r: Option<Page>)
    ensures r == PageOf(enc, Entries(enc, From(keys, cursor)), limit)
  {
    var i := Seek(keys, cursor);
    ghost var entries := Entries(enc, From(keys, cursor));
    var modules, j := TakeModules(enc, keys, i, limit);
    SplitListed(enc, entries, limit);
    if modules.None? {
      return None;
    }
    var entry, _ := NextEntry(enc, keys, j);
    if entry.Some? {
      assert entries[Min(|entries|, limit)..][0] == entry.value;
      if !Listed(enc, entry.value) {
        return None;
      }
    }
    return Some(Page(modules.value, if entry.Some? then Some(ModuleKey(enc, enc.decode(entry.value.path).value.id)) else None));
  }

  // ----------------------------------------------- accounts as they are stored

  /** Keys as the constructors build them: the flag marks exactly the module paths. */
  ghost predicate AsConstructed(enc: Encoding, keys: seq<Key>)
  {
    forall i :: 0 <= i < |keys| ==> (keys[i].isCode <==> IsModule(enc, keys[i]))
  }

  lemma {:induction false} EntryMember(enc: Encoding, keys: seq<Key>, k: Key)
    ensures k in Entries(enc, keys) <==> k in keys && !Skipped(enc, k)
  {
    if keys != [] {
      EntryMember(enc, keys[1..], k);
      assert keys == [keys[0]] + keys[1..];
    }
  }

  lemma {:induction false} FromMember(keys: seq<Key>, cursor: Option<Key>, k: Key)
    requires InKeyOrder(keys)
    ensures k in From(keys, cursor) <==> k in keys && (cursor.Some? ==> !k.Lt(cursor.value))
  {
    if keys != [] && cursor.Some? {
      if keys[0].Lt(cursor.value) {
        FromMember(keys[1..], cursor, k);
        assert keys == [keys[0]] + keys[1..];
      } else {
        forall i | 0 <= i < |keys|
          ensures !keys[i].Lt(cursor.value)
        {
          assert i > 0 ==> keys[0].Lt(keys[i]);
        }
      }
    }
  }

  /** The listing never returns a module of an account whose keys were built by the constructors: whatever the
      limit, a page fails if and only if a module, or a key that does not decode, lies at or after the cursor,
      and otherwise it is empty and the last one. */
  lemma ConstructedAccountPage(enc: Encoding, keys: seq<Key>, cursor: Option<Key>, limit: nat)
    requires InKeyOrder(keys) && AsConstructed(enc, keys)
    ensures var page := PageOf(enc, Entries(enc, From(keys, cursor)), limit);
            && (page.None? <==>
                 exists k :: k in keys && (cursor.Some? ==> !k.Lt(cursor.value)) && (IsModule(enc, k) || enc.decode(k.path).None?))
            && (page.Some? ==> page.value == Page([], None))
  {
    var entries := Entries(enc, From(keys, cursor));
    forall k
      ensures k in entries ==> !Listed(enc, k)
      ensures k in entries <==> k in keys && (cursor.Some? ==> !k.Lt(cursor.value)) && (IsModule(enc, k) || enc.decode(k.path).None?)
    {
      EntryMember(enc, From(keys, cursor), k);
      FromMember(keys, cursor, k);
    }
    if entries != [] {
      assert entries[0] in entries;
      assert entries[..Min(|entries|, limit + 1)][0] == entries[0];
    }
  }

  /** One published module is enough to make the first page fail. */
  lemma OnePublishedModuleFails(enc: Encoding, id: ModuleId, limit: nat)
    requires Canonical(enc)
    ensures PageOf(enc, Entries(enc, From([ModuleKey(enc, id)], None)), limit) == None
  {
    var k := ModuleKey(enc, id);
    ConstructedAccountPage(enc, [k], None, limit);
    assert k in [k];
  }

  // ----------------------------------------------------------- following cursors

  /** The entries a client has still to see. */
  function Left(enc: Encoding, keys: seq<Key>, cursor: Option<Key>): seq<Key>
  {
    Entries(enc, From(keys, cursor))
  }

  lemma {:induction false} FromIsSuffix(keys: seq<Key>, cursor: Option<Key>)
    ensures |From(keys, cursor)| <= |keys| && From(keys, cursor) == keys[|keys| - |From(keys, cursor)|..]
  {
    if cursor.Some? && keys != [] && keys[0].Lt(cursor.value) {
      FromIsSuffix(keys[1..], cursor);
    }
  }

  /** Where an entry sits among the keys. */
  lemma {:induction false} EntryPosition(enc: Encoding, keys: seq<Key>, n: nat) returns (k: nat)
    requires n < |Entries(enc, keys)|
    ensures k < |keys| && keys[k] == Entries(enc, keys)[n] && Entries(enc, keys[k + 1..]) == Entries(enc, keys)[n + 1..]
    decreases |keys|
  {
    var head, tail := keys[0], keys[1..];
    if !Skipped(enc, head) && n == 0 {
      k := 0;
    } else {
      var m := if Skipped(enc, head) then n else n - 1;
      var j := EntryPosition(enc, tail, m);
      k := j + 1;
      assert keys[k + 1..] == tail[j + 1..];
      assert Entries(enc, keys)[n + 1..] == Entries(enc, tail)[m + 1..];
    }
  }

  lemma {:induction false} SkipBelow(keys: seq<Key>, d: nat, key: Key)
    requires d <= |keys| && forall i :: 0 <= i < d ==> keys[i].Lt(key)
    ensures From(keys, Some(key)) == From(keys[d..], Some(key))
    decreases d
  {
    if d > 0 {
      assert keys[1..][d - 1..] == keys[d..];
      SkipBelow(keys[1..], d - 1, key);
    }
  }

  /** The rebuilt key of a listed module is flagged, so it leads past the key it names. */
  lemma CursorLeadsPast(keys: seq<Key>, k: nat)
    requires InKeyOrder(keys) && k < |keys| && !keys[k].isCode
    ensures From(keys, Some(Key(keys[k].path, true))) == keys[k + 1..]
  {
    var cursor := Key(keys[k].path, true);
    forall i | 0 <= i < k + 1
      ensures keys[i].Lt(cursor)
    {
      assert i < k ==> keys[i].Lt(keys[k]);
    }
    SkipBelow(keys, k + 1, cursor);
    if k + 1 < |keys| {
      assert keys[k].Lt(keys[k + 1]);
      assert keys[k + 1..][0] == keys[k + 1];
    }
  }

  lemma ResumeInSuffix(enc: Encoding, keys: seq<Key>, d: nat, n: nat)
    requires InKeyOrder(keys) && d <= |keys| && n < |Entries(enc, keys[d..])| && !Entries(enc, keys[d..])[n].isCode
    ensures var entries := Entries(enc, keys[d..]);
            Left(enc, keys, Some(Key(entries[n].path, true))) == entries[n + 1..]
  {
    var k := EntryPosition(enc, keys[d..], n);
    assert keys[d..][k + 1..] == keys[d + k + 1..];
    assert keys[d..][k] == keys[d + k];
    CursorLeadsPast(keys, d + k);
  }

  /** The entry a cursor is made from is not seen again. */
  lemma ResumePastCursor(enc: Encoding, keys: seq<Key>, cursor: Option<Key>, limit: nat)
    requires Canonical(enc) && InKeyOrder(keys) && PageOf(enc, Left(enc, keys, cursor), limit).Some?
    ensures var entries, page := Left(enc, keys, cursor), PageOf(enc, Left(enc, keys, cursor), limit).value;
            && (page.next.Some? <==> |entries| > limit)
            && (page.next.Some? ==> Left(enc, keys, page.next) == entries[limit + 1..])
  {
    var entries := Left(enc, keys, cursor);
    SplitListed(enc, entries, limit);
    if |entries| > limit {
      FromIsSuffix(keys, cursor);
      ResumeInSuffix(enc, keys, |keys| - |From(keys, cursor)|, limit);
    }
  }

  /** What a client following the cursors collects, `None` if some page fails.  It always comes to an end. */
  ghost function Collect(enc: Encoding, keys: seq<Key>, cursor: Option<Key>, limit: nat): Option<seq<ModuleId>>
    requires Canonical(enc) && InKeyOrder(keys)
    decreases |Left(enc, keys, cursor)|
  {
    var page := PageOf(enc, Left(enc, keys, cursor), limit);
    if page.None? then None
    else
      ResumePastCursor(enc, keys, cursor, limit);
      if page.value.next.None? then Some(page.value.modules)
      else
        var rest := Collect(enc, keys, page.value.next, limit);
        if rest.None? then None else Some(page.value.modules + rest.value)
  }

  /** Every (limit + 1)st of the entries left out. */
  ghost function WithoutBoundaries(entries: seq<Key>, limit: nat): seq<Key>
  {
    if |entries| <= limit then entries else entries[..limit] + WithoutBoundaries(entries[limit + 1..], limit)
  }

  lemma {:induction false} WithoutBoundariesListed(enc: Encoding, entries: seq<Key>, limit: nat)
    requires AllListed(enc, entries)
    ensures AllListed(enc, WithoutBoundaries(entries, limit))
    ensures |WithoutBoundaries(entries, limit)| == |entries| <==> |entries| <= limit
    ensures |WithoutBoundaries(entries, limit)| <= |entries|
    decreases |entries|
  {
    if |entries| > limit {
      WithoutBoundariesListed(enc, entries[limit + 1..], limit);
    }
  }

  lemma JoinPages(enc: Encoding, entries: seq<Key>, limit: nat)
    requires limit < |entries| && AllListed(enc, entries)
    ensures var rest := WithoutBoundaries(entries[limit + 1..], limit);
            && AllListed(enc, entries[..limit]) && AllListed(enc, rest)
            && AllListed(enc, WithoutBoundaries(entries, limit))
            && Ids(enc, WithoutBoundaries(entries, limit)) == Ids(enc, entries[..limit]) + Ids(enc, rest)
  {
    WithoutBoundariesListed(enc, entries[limit + 1..], limit);
  }

  /** What following the cursors comes to, in terms of the entries left. */
  ghost predicate CollectsTo(enc: Encoding, entries: seq<Key>, limit: nat, r: Option<seq<ModuleId>>)
  {
    if AllListed(enc, entries)
    then AllListed(enc, WithoutBoundaries(entries, limit)) && r == Some(Ids(enc, WithoutBoundaries(entries, limit)))
    else r == None
  }

  /** One page that is not the last. */
  lemma CollectMore(enc: Encoding, entries: seq<Key>, limit: nat, rest: Option<seq<ModuleId>>)
    requires limit < |entries| && AllListed(enc, entries[..limit + 1]) && CollectsTo(enc, entries[limit + 1..], limit, rest)
    ensures AllListed(enc, entries[..limit])
    ensures CollectsTo(enc, entries, limit, if rest.None? then None else Some(Ids(enc, entries[..limit]) + rest.value))
  {
    SplitAt(enc, entries, limit);
    assert forall i :: 0 <= i < limit ==> entries[..limit][i] == entries[..limit + 1][i];
    if AllListed(enc, entries) {
      JoinPages(enc, entries, limit);
    }
  }

  lemma CollectLast(enc: Encoding, entries: seq<Key>, limit: nat)
    requires |entries| <= limit && AllListed(enc, entries)
    ensures entries[..|entries|] == entries && CollectsTo(enc, entries, limit, Some(Ids(enc, entries)))
  {
  }

  lemma {:induction false} CollectFrom(enc: Encoding, keys: seq<Key>, cursor: Option<Key>, limit: nat)
    requires Canonical(enc) && InKeyOrder(keys)
    ensures CollectsTo(enc, Left(enc, keys, cursor), limit, Collect(enc, keys, cursor, limit))
    decreases |Left(enc, keys, cursor)|
  {
    var entries := Left(enc, keys, cursor);
    var page := PageOf(enc, entries, limit);
    if page.None? {
      NotAllListed(enc, entries, limit);
    } else {
      ResumePastCursor(enc, keys, cursor, limit);
      if page.value.next.Some? {
        CollectFrom(enc, keys, page.value.next, limit);
        CollectMore(enc, entries, limit, Collect(enc, keys, page.value.next, limit));
      } else {
        assert entries[..|entries|] == entries;
        CollectLast(enc, entries, limit);
      }
    }
  }

  lemma NotAllListed(enc: Encoding, entries: seq<Key>, limit: nat)
    requires !AllListed(enc, entries[..Min(|entries|, limit + 1)])
    ensures !AllListed(enc, entries)
  {
    var m := Min(|entries|, limit + 1);
    var i :| 0 <= i < m && !Listed(enc, entries[..m][i]);
    assert entries[i] == entries[..m][i];
  }

  lemma SplitAt(enc: Encoding, entries: seq<Key>, limit: nat)
    requires limit < |entries| && AllListed(enc, entries[..limit + 1])
    ensures AllListed(enc, entries) <==> AllListed(enc, entries[limit + 1..])
  {
    assert forall i :: 0 <= i <= limit ==> entries[i] == entries[..limit + 1][i];
    assert forall i :: limit < i < |entries| ==> entries[i] == entries[limit + 1..][i - limit - 1];
  }

  /** The modules under an account, however their keys are flagged, in key order. */
  function Modules(enc: Encoding, keys: seq<Key>): seq<ModuleId>
  {
    if keys == [] then []
    else (if IsModule(enc, keys[0]) then [enc.decode(keys[0].path).value.id] else []) + Modules(enc, keys[1..])
  }

  lemma ListedHead(enc: Encoding, head: Key, tail: seq<Key>)
    requires AllListed(enc, [head] + tail)
    ensures Listed(enc, head) && AllListed(enc, tail)
    ensures Ids(enc, [head] + tail) == [enc.decode(head.path).value.id] + Ids(enc, tail)
  {
    var entries := [head] + tail;
    assert entries[0] == head;
    forall i | 0 <= i < |tail|
      ensures Listed(enc, tail[i])
    {
      assert entries[i + 1] == tail[i];
    }
  }

  lemma {:induction false} ModulesAreEntries(enc: Encoding, keys: seq<Key>)
    requires AllListed(enc, Entries(enc, keys))
    ensures Modules(enc, keys) == Ids(enc, Entries(enc, keys))
  {
    if keys != [] {
      var head, tail := keys[0], keys[1..];
      if Skipped(enc, head) {
        assert Entries(enc, keys) == Entries(enc, tail);
        ModulesAreEntries(enc, tail);
      } else {
        ListedHead(enc, head, Entries(enc, tail));
        ModulesAreEntries(enc, tail);
      }
    }
  }

  /** Exactly when following the cursors lists all modules: no key is flagged or malformed, and everything fits
      on one page. */
  lemma PagingCompleteExactly(enc: Encoding, keys: seq<Key>, limit: nat)
    requires Canonical(enc) && InKeyOrder(keys)
    ensures Collect(enc, keys, None, limit) == Some(Modules(enc, keys)) <==>
            && (forall k :: k in keys ==> !k.isCode && enc.decode(k.path).Some?)
            && |Modules(enc, keys)| <= limit
  {
    var entries := Entries(enc, keys);
    CollectFrom(enc, keys, None, limit);
    AllListedExactly(enc, keys);
    if AllListed(enc, entries) {
      ModulesAreEntries(enc, keys);
      WithoutBoundariesListed(enc, entries, limit);
    }
  }

  lemma AllListedExactly(enc: Encoding, keys: seq<Key>)
    ensures AllListed(enc, Entries(enc, keys)) <==> forall k :: k in keys ==> !k.isCode && enc.decode(k.path).Some?
  {
    var entries := Entries(enc, keys);
    forall k
      ensures k in entries <==> k in keys && !Skipped(enc, k)
    {
      EntryMember(enc, keys, k);
    }
    assert forall i :: 0 <= i < |entries| ==> entries[i] in entries;
    assert forall k :: k in entries ==> exists i :: 0 <= i < |entries| && entries[i] == k;
  }

  /** Positions `limit`, `2 * limit + 1`, `3 * limit + 2` and so on. */
  predicate AtBoundary(i: nat, limit: nat)
  {
    if i <= limit then i == limit else AtBoundary(i - limit - 1, limit)
  }

  predicate NoRepeat(entries: seq<Key>)
  {
    forall i, j :: 0 <= i < j < |entries| ==> entries[i] != entries[j]
  }

  lemma InOrderNoRepeat(entries: seq<Key>)
    requires InKeyOrder(entries)
    ensures NoRepeat(entries)
  {
    forall i, j | 0 <= i < j < |entries|
      ensures entries[i] != entries[j]
    {
      assert entries[i].Lt(entries[j]);
    }
  }

  lemma NotElsewhere(entries: seq<Key>, i: nat, m: nat)
    requires NoRepeat(entries) && i < |entries| && m <= |entries|
    ensures m <= i ==> entries[i] !in entries[..m]
    ensures i < m ==> entries[i] !in entries[m..]
  {
    if m <= i {
      forall j | 0 <= j < |entries[..m]|
        ensures entries[..m][j] != entries[i]
      {
        assert entries[..m][j] == entries[j];
      }
    } else {
      forall j | 0 <= j < |entries[m..]|
        ensures entries[m..][j] != entries[i]
      {
        assert entries[m..][j] == entries[m + j];
      }
    }
  }

  lemma PageMembers(entries: seq<Key>, limit: nat, i: nat, kept: seq<Key>)
    requires NoRepeat(entries) && i < |entries| && limit < |entries|
    requires forall k :: k in kept ==> k in entries[limit + 1..]
    ensures i < limit ==> entries[i] in entries[..limit] + kept
    ensures i == limit ==> entries[i] !in entries[..limit] + kept
    ensures i > limit ==> (entries[i] in entries[..limit] + kept <==> entries[i] in kept)
  {
    NotElsewhere(entries, i, limit);
    NotElsewhere(entries, i, limit + 1);
    if i < limit {
      assert entries[..limit][i] == entries[i];
    }
  }

  /** On unflagged accounts precisely the module at each page boundary is missing. */
  lemma {:induction false} BoundaryModulesMissing(entries: seq<Key>, limit: nat, i: nat)
    requires NoRepeat(entries) && i < |entries|
    ensures entries[i] in WithoutBoundaries(entries, limit) <==> !AtBoundary(i, limit)
    decreases |entries|
  {
    if |entries| > limit {
      var rest := entries[limit + 1..];
      WithoutBoundariesFrom(rest, limit);
      PageMembers(entries, limit, i, WithoutBoundaries(rest, limit));
      if i > limit {
        assert forall j :: 0 <= j < |rest| ==> rest[j] == entries[limit + 1 + j];
        BoundaryModulesMissing(rest, limit, i - limit - 1);
      }
    }
  }

  lemma RestInOrder(entries: seq<Key>, d: nat)
    requires InKeyOrder(entries) && d <= |entries|
    ensures InKeyOrder(entries[d..])
  {
  }

  lemma {:induction false} WithoutBoundariesFrom(entries: seq<Key>, limit: nat)
    ensures forall k :: k in WithoutBoundaries(entries, limit) ==> k in entries
    decreases |entries|
  {
    if |entries| > limit {
      WithoutBoundariesFrom(entries[limit + 1..], limit);
    }
  }

  lemma {:induction false} EntriesInOrder(enc: Encoding, keys: seq<Key>)
    requires InKeyOrder(keys)
    ensures InKeyOrder(Entries(enc, keys))
  {
    if keys != [] {
      var tail := keys[1..];
      RestInOrder(keys, 1);
      EntriesInOrder(enc, tail);
      forall e | e in Entries(enc, tail)
        ensures keys[0].Lt(e)
      {
        EntryMember(enc, tail, e);
        var k :| 0 <= k < |tail| && tail[k] == e;
        assert keys[k + 1] == e;
      }
    }
  }

  /** A module id stands for one unflagged key. */
  lemma IdMember(enc: Encoding, entries: seq<Key>, k: Key)
    requires Canonical(enc) && AllListed(enc, entries) && Listed(enc, k)
    ensures enc.decode(k.path).value.id in Ids(enc, entries) <==> k in entries
  {
    var id := enc.decode(k.path).value.id;
    if id in Ids(enc, entries) {
      var i :| 0 <= i < |entries| && Ids(enc, entries)[i] == id;
      assert entries[i].path == enc.codePath(id) == k.path;
      assert entries[i] == k;
    }
    if k in entries {
      var i :| 0 <= i < |entries| && entries[i] == k;
      assert Ids(enc, entries)[i] == id;
    }
  }

  /** What a client collects from such an account: all modules but those at a page boundary. */
  lemma CollectedModules(enc: Encoding, keys: seq<Key>, limit: nat, i: nat)
    requires Canonical(enc) && InKeyOrder(keys) && forall k :: k in keys ==> !k.isCode && enc.decode(k.path).Some?
    requires i < |Modules(enc, keys)|
    ensures Collect(enc, keys, None, limit).Some?
    ensures Modules(enc, keys)[i] in Collect(enc, keys, None, limit).value <==> !AtBoundary(i, limit)
  {
    var entries := Entries(enc, keys);
    forall j | 0 <= j < |entries|
      ensures Listed(enc, entries[j])
    {
      EntryMember(enc, keys, entries[j]);
    }
    ModulesAreEntries(enc, keys);
    EntriesInOrder(enc, keys);
    InOrderNoRepeat(entries);
    CollectFrom(enc, keys, None, limit);
    BoundaryModulesMissing(entries, limit, i);
    IdMember(enc, WithoutBoundaries(entries, limit), entries[i]);
  }
}
