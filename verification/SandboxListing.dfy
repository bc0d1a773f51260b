/**
 The sandbox list: paused sandboxes come from the snapshot query (started_at DESC, sandbox_id ASC,
 over-fetched and then stripped of sandboxes that run), running and pausing ones from memory.
 */
module SandboxListing {
  import opened Keyset
  import opened UuidText
  import opened Listings

  type SandboxKey = Key<string>

  function Order(): (SandboxKey, SandboxKey) -> bool {
    NewestThenIdAscending(TextLess())
  }

  lemma OrderIsStrictTotal()
    ensures StrictTotal(Order())
  {
    IdOrders();
  }

  /**
   snapshots.sandbox_id is unique: what the joins and filters select is a map from sandbox to
   start time.
   */
  function Keys(snapshots: map<string, int>): set<SandboxKey> {
    set id | id in snapshots :: Key(snapshots[id], id)
  }

  /** WHERE (started_at, cursor id) < (cursor time, sandbox_id): the id operands are swapped. */
  ghost function GetSnapshotsWithCursor(snapshots: map<string, int>, cursor: SandboxKey, n: nat): seq<SandboxKey> {
    OrderIsStrictTotal();
    Take(n, Sorted(Order(), set r | r in Keys(snapshots) && RowLess(TextLess(), r.at, cursor.id, cursor.at, r.id)))
  }

  ghost function SnapshotQuery(): (map<string, int>, SandboxKey, nat) -> seq<SandboxKey> {
    (t: map<string, int>, cursor: SandboxKey, n: nat) => GetSnapshotsWithCursor(t, cursor, n)
  }

  lemma SnapshotsCut()
    ensures StrictTotal(Order())
    ensures Cuts(SnapshotQuery(), Keys, Order())
  {
    OrderIsStrictTotal();
    forall t: map<string, int>, cursor: SandboxKey
      ensures (set r | r in Keys(t) && RowLess(TextLess(), r.at, cursor.id, cursor.at, r.id)) == After(Order(), Keys(t), cursor)
    {
    }
  }

  /** The mixed-direction cursor pages through the whole list, newest first and by id within an instant. */
  lemma SnapshotListing(t: map<string, int>, dbs: seq<map<string, int>>, cursor: SandboxKey, limit: nat)
    requires limit > 0 && dbs != [] && (forall i :: 0 <= i < |dbs| ==> dbs[i] == t) && StrictTotal(Order())
    requires |After(Order(), Keys(t), cursor)| <= |dbs| * limit
    ensures Flatten(QueryPages(SnapshotQuery(), dbs, cursor, limit))
            == Sorted(Order(), After(Order(), Keys(t), cursor))
  {
    SnapshotsCut();
    ListingIsComplete(SnapshotQuery(), Keys, Order(), t, dbs, cursor, limit);
  }

  // ---------------------------------------------------------------------------------------
  // Over-fetching instead of NOT (sandbox_id = ANY(running))
  // ---------------------------------------------------------------------------------------

  function FilterOut(s: seq<SandboxKey>, excluded: set<string>): seq<SandboxKey> {
    if s == [] then []
    else if s[0].id in excluded then FilterOut(s[1..], excluded)
    else [s[0]] + FilterOut(s[1..], excluded)
  }

  ghost predicate DistinctIds(s: seq<SandboxKey>) {
    forall i, j :: 0 <= i < j < |s| ==> s[i].id != s[j].id
  }

  lemma {:induction false} FilterOutConcat(a: seq<SandboxKey>, b: seq<SandboxKey>, excluded: set<string>)
    ensures FilterOut(a + b, excluded) == FilterOut(a, excluded) + FilterOut(b, excluded)
    decreases |a|
  {
    if a == [] {
      assert a + b == b;
    } else {
      assert (a + b)[1..] == a[1..] + b;
      FilterOutConcat(a[1..], b, excluded);
    }
  }

  lemma {:induction false} FilterOutIrrelevant(s: seq<SandboxKey>, excluded: set<string>, id: string)
    requires forall k :: k in s ==> k.id != id
    ensures FilterOut(s, excluded) == FilterOut(s, excluded - {id})
    decreases |s|
  {
    if s != [] {
      assert s[0] in s && forall k :: k in s[1..] ==> k in s;
      FilterOutIrrelevant(s[1..], excluded, id);
    }
  }

  /** At most one row goes per excluded sandbox. */
  lemma {:induction false} FilterDropsFew(s: seq<SandboxKey>, excluded: set<string>)
    requires DistinctIds(s)
    ensures |s| <= |FilterOut(s, excluded)| + |excluded|
    decreases |s|
  {
    if s != [] {
      if s[0].id in excluded {
        FilterOutIrrelevant(s[1..], excluded, s[0].id);
        FilterDropsFew(s[1..], excluded - {s[0].id});
      } else {
        FilterDropsFew(s[1..], excluded);
      }
    }
  }

  /** Fetching as many extra rows as there are ids to drop loses nothing. */
  lemma OverfetchIsExact(s: seq<SandboxKey>, excluded: set<string>, extra: nat, n: nat)
    requires DistinctIds(s) && |excluded| <= extra
    ensures Take(n, FilterOut(Take(n + extra, s), excluded)) == Take(n, FilterOut(s, excluded))
  {
    if n + extra < |s| {
      var head, tail := s[..n + extra], s[n + extra..];
      assert s == head + tail;
      FilterOutConcat(head, tail, excluded);
      FilterDropsFew(head, excluded);
      var kept, more := FilterOut(head, excluded), FilterOut(tail, excluded);
      assert n <= |kept| && (kept + more)[..n] == kept[..n];
    } else {
      assert Take(n + extra, s) == s;
    }
  }

  lemma {:induction false} FilterOutElements(s: seq<SandboxKey>, excluded: set<string>)
    ensures forall x :: x in FilterOut(s, excluded) <==> x in s && x.id !in excluded
    decreases |s|
  {
    if s != [] {
      FilterOutElements(s[1..], excluded);
      assert s == [s[0]] + s[1..];
    }
  }

  lemma {:induction false} FilterOutAscends(s: seq<SandboxKey>, excluded: set<string>)
    requires Ascending(Order(), s)
    ensures Ascending(Order(), FilterOut(s, excluded))
    decreases |s|
  {
    if s != [] {
      FilterOutAscends(s[1..], excluded);
      FilterOutElements(s[1..], excluded);
      var rest := FilterOut(s[1..], excluded);
      forall j | 0 <= j < |rest| ensures Order()(s[0], rest[j]) {
        assert rest[j] in s[1..];
        var k :| 0 <= k < |s[1..]| && s[1..][k] == rest[j];
        assert s[k + 1] == rest[j];
      }
    }
  }

  function Without(snapshots: map<string, int>, ids: set<string>): map<string, int> {
    snapshots - ids
  }

  lemma InKeys(snapshots: map<string, int>, k: SandboxKey)
    ensures k in Keys(snapshots) <==> k.id in snapshots && snapshots[k.id] == k.at
  {
    if k.id in snapshots && snapshots[k.id] == k.at {
      assert k == Key(snapshots[k.id], k.id);
    }
  }

  lemma FilteredListing(snapshots: map<string, int>, cursor: SandboxKey, excluded: set<string>)
    requires StrictTotal(Order())
    ensures FilterOut(Sorted(Order(), After(Order(), Keys(snapshots), cursor)), excluded)
            == Sorted(Order(), After(Order(), Keys(Without(snapshots, excluded)), cursor))
    ensures DistinctIds(Sorted(Order(), After(Order(), Keys(snapshots), cursor)))
  {
    var s := Sorted(Order(), After(Order(), Keys(snapshots), cursor));
    FilterOutAscends(s, excluded);
    FilterOutElements(s, excluded);
    forall x ensures x in Elements(FilterOut(s, excluded)) <==> x in After(Order(), Keys(Without(snapshots, excluded)), cursor) {
      assert x in s <==> x in Elements(s);
      InKeys(snapshots, x);
      InKeys(Without(snapshots, excluded), x);
    }
    AscendingIsUnique(Order(), FilterOut(s, excluded), Sorted(Order(), After(Order(), Keys(Without(snapshots, excluded)), cursor)));
    forall i, j | 0 <= i < j < |s| ensures s[i].id != s[j].id {
      assert s[i] in Elements(s) && s[j] in Elements(s);
      InKeys(snapshots, s[i]);
      InKeys(snapshots, s[j]);
      assert Order()(s[i], s[j]);
    }
  }

  /**
   getPausedSandboxes, from the rows the database returned: what it hands on is exactly the page the
   replaced SQL-side exclusion would have selected.
   */
  method GetPausedSandboxes(ghost snapshots: map<string, int>, ghost cursor: SandboxKey,
                            fetched: seq<SandboxKey>, runningIds: seq<string>, queryLimit: nat)
    returns (page: seq<SandboxKey>)
    requires fetched == GetSnapshotsWithCursor(snapshots, cursor, queryLimit + |runningIds|)
    ensures StrictTotal(Order())
    ensures page == Take(queryLimit, Sorted(Order(), After(Order(), Keys(Without(snapshots, Elements(runningIds))), cursor)))
  {
    page := fetched;
    if |runningIds| > 0 {
      var excludeSet: set<string> := {};
      for i := 0 to |runningIds|
        invariant excludeSet == Elements(runningIds[..i])
      {
        assert Elements(runningIds[..i + 1]) == Elements(runningIds[..i]) + {runningIds[i]};
        excludeSet := excludeSet + {runningIds[i]};
      }
      assert runningIds[..|runningIds|] == runningIds;
      var filtered: seq<SandboxKey> := [];
      for i := 0 to |fetched|
        invariant filtered == FilterOut(fetched[..i], Elements(runningIds))
      {
        assert fetched[..i + 1] == fetched[..i] + [fetched[i]];
        FilterOutConcat(fetched[..i], [fetched[i]], Elements(runningIds));
        if fetched[i].id !in excludeSet {
          filtered := filtered + [fetched[i]];
        }
      }
      assert fetched[..|fetched|] == fetched;
      page := filtered;
    } else {
      assert Elements(runningIds) == {};
      FilterOutNothing(fetched);
    }
    if |page| > queryLimit {
      page := page[..queryLimit];
    }
    PausedPage(snapshots, cursor, runningIds, queryLimit);
    assert page == Take(queryLimit, FilterOut(fetched, Elements(runningIds)));
  }

  lemma PausedPage(snapshots: map<string, int>, cursor: SandboxKey, runningIds: seq<string>, queryLimit: nat)
    ensures StrictTotal(Order())
    ensures Take(queryLimit, FilterOut(GetSnapshotsWithCursor(snapshots, cursor, queryLimit + |runningIds|), Elements(runningIds)))
            == Take(queryLimit, Sorted(Order(), After(Order(), Keys(Without(snapshots, Elements(runningIds))), cursor)))
  {
    SnapshotsCut();
    FilteredListing(snapshots, cursor, Elements(runningIds));
    ElementsAtMostLength(runningIds);
    OverfetchIsExact(Sorted(Order(), After(Order(), Keys(snapshots), cursor)), Elements(runningIds), |runningIds|, queryLimit);
    assert SnapshotQuery()(snapshots, cursor, queryLimit + |runningIds|)
           == Take(queryLimit + |runningIds|, Sorted(Order(), After(Order(), Keys(snapshots), cursor)));
  }

  lemma {:induction false} FilterOutNothing(s: seq<SandboxKey>)
    ensures FilterOut(s, {}) == s
    decreases |s|
  {
    if s != [] {
      FilterOutNothing(s[1..]);
    }
  }

  // ---------------------------------------------------------------------------------------
  // Merging a limited list with an unlimited one
  // ---------------------------------------------------------------------------------------

  /** One of the first n rows of the union that comes from a is among the first n rows of a. */
  lemma FirstOfUnionIsFirstOfPart<K(!new)>(before: (K, K) -> bool, a: set<K>, b: set<K>, n: nat, k: nat)
    requires StrictTotal(before) && k < n && k < |Sorted(before, a + b)|
    requires Sorted(before, a + b)[k] in a
    ensures Sorted(before, a + b)[k] in Take(n, Sorted(before, a))
  {
    var s, sa := Sorted(before, a + b), Sorted(before, a);
    assert s[k] in Elements(sa);
    var m :| 0 <= m < |sa| && sa[m] == s[k];
    if m >= n {
      forall x | x in Elements(sa[..n]) ensures x in Elements(s[..k]) {
        assert before(x, s[k]);
        assert x in Elements(sa) && x in Elements(s);
        var i :| 0 <= i < |s| && s[i] == x;
        assert i < k;
        assert s[..k][i] == x;
      }
      AscendingHasDistinct(before, sa[..n]);
      ElementsAtMostLength(s[..k]);
      SubsetIsSmaller(Elements(sa[..n]), Elements(s[..k]));
    } else {
      assert Take(n, sa)[m] == s[k];
    }
  }

  lemma {:induction false} AscendingHasDistinct<K(!new)>(before: (K, K) -> bool, s: seq<K>)
    requires StrictTotal(before) && Ascending(before, s)
    ensures |Elements(s)| == |s|
    decreases |s|
  {
    if s != [] {
      AscendingHasDistinct(before, s[1..]);
      assert Elements(s) == {s[0]} + Elements(s[1..]);
      assert s[0] !in Elements(s[1..]);
    }
  }

  lemma {:induction false} SubsetIsSmaller<K>(a: set<K>, b: set<K>)
    requires a <= b
    ensures |a| <= |b|
  {
    if a != {} {
      var x :| x in a;
      SubsetIsSmaller(a - {x}, b - {x});
    }
  }

  /** The first n rows of an ordered set stay its first n rows when only later rows are removed. */
  lemma PrefixOfSubset<K(!new)>(before: (K, K) -> bool, rows: set<K>, kept: set<K>, n: nat)
    requires StrictTotal(before) && n <= |Sorted(before, rows)|
    requires Elements(Sorted(before, rows)[..n]) <= kept <= rows
    ensures n <= |Sorted(before, kept)| && Sorted(before, kept)[..n] == Sorted(before, rows)[..n]
  {
    var s := Sorted(before, rows);
    var p := s[..n];
    var rest := Sorted(before, kept - Elements(p));
    forall i, x | 0 <= i < n && x in rest ensures before(p[i], x) {
      assert x in Elements(rest) && x in Elements(s);
      BeyondPrefix(before, s, n, i, x);
    }
    AppendAscends(before, p, rest);
    assert Elements(p + rest) == Elements(p) + Elements(rest);
    AscendingIsUnique(before, p + rest, Sorted(before, kept));
  }

  lemma BeyondPrefix<K(!new)>(before: (K, K) -> bool, s: seq<K>, n: nat, i: nat, x: K)
    requires Ascending(before, s) && i < n <= |s| && x in s && x !in s[..n]
    ensures before(s[i], x)
  {
    var m :| 0 <= m < |s| && s[m] == x;
    assert forall k :: 0 <= k < n ==> s[k] in s[..n];
  }

  lemma AppendAscends<K(!new)>(before: (K, K) -> bool, a: seq<K>, b: seq<K>)
    requires Ascending(before, a) && Ascending(before, b) && forall i, x :: 0 <= i < |a| && x in b ==> before(a[i], x)
    ensures Ascending(before, a + b)
  {
    forall i, j | 0 <= i < j < |a + b| ensures before((a + b)[i], (a + b)[j]) {
      assert i < |a| <= j ==> b[j - |a|] in b;
    }
  }

  /** Limiting one part to n rows before merging does not change the first n rows of the merge. */
  lemma MergeOfLimited<K(!new)>(before: (K, K) -> bool, a: set<K>, b: set<K>, n: nat)
    requires StrictTotal(before)
    ensures Take(n, Sorted(before, Elements(Take(n, Sorted(before, a))) + b)) == Take(n, Sorted(before, a + b))
  {
    var s := Sorted(before, a + b);
    var m := if n <= |s| then n else |s|;
    var merged := Elements(Take(n, Sorted(before, a))) + b;
    forall x | x in Elements(s[..m]) ensures x in merged {
      var k :| 0 <= k < m && s[k] == x;
      assert x in Elements(s);
      if x in a {
        FirstOfUnionIsFirstOfPart(before, a, b, n, k);
      }
    }
    LimitedIsPart(before, a, n);
    PrefixOfSubset(before, a + b, merged, m);
    if n > |s| {
      assert s[..m] == s;
      assert merged == a + b;
    }
  }

  lemma LimitedIsPart<K(!new)>(before: (K, K) -> bool, a: set<K>, n: nat)
    requires StrictTotal(before)
    ensures Elements(Take(n, Sorted(before, a))) <= a
  {
    assert forall x :: x in Take(n, Sorted(before, a)) ==> x in Elements(Sorted(before, a));
  }

  /**
   One team's sandboxes: the snapshots, running and pausing sandboxes that match the metadata
   filter, and the ids of all that run or pause, matching or not.
   */
  datatype SandboxDb = SandboxDb(
    snapshots: map<string, int>,
    running: set<SandboxKey>,
    pausing: set<SandboxKey>,
    busy: set<string>)

  /** What the list shows: a pausing sandbox counts as paused, a running one hides its snapshot. */
  function Visible(wantRunning: bool, wantPaused: bool): SandboxDb -> set<SandboxKey> {
    (db: SandboxDb) =>
      (if wantRunning then db.running else {})
      + (if wantPaused then Keys(Without(db.snapshots, db.busy)) + db.pausing else {})
  }

  /** One request: the limited snapshot page, merged with the filtered in-memory lists, sorted, trimmed. */
  ghost function ListSandboxes(wantRunning: bool, wantPaused: bool): (SandboxDb, SandboxKey, nat) -> seq<SandboxKey> {
    OrderIsStrictTotal();
    (db: SandboxDb, cursor: SandboxKey, n: nat) =>
      var paused := Elements(Take(n, Sorted(Order(), After(Order(), Keys(Without(db.snapshots, db.busy)), cursor))));
      Take(n, Sorted(Order(), (if wantPaused then paused else {}) +
                              ((if wantRunning then After(Order(), db.running, cursor) else {})
                               + (if wantPaused then After(Order(), db.pausing, cursor) else {}))))
  }

  lemma AfterUnion<K(!new)>(before: (K, K) -> bool, a: set<K>, b: set<K>, c: set<K>, cursor: K)
    ensures After(before, a, cursor) + (After(before, b, cursor) + After(before, c, cursor)) == After(before, b + (a + c), cursor)
  {
  }

  lemma PausedListCut(running: set<SandboxKey>, snapshots: set<SandboxKey>, pausing: set<SandboxKey>, cursor: SandboxKey, n: nat)
    requires StrictTotal(Order())
    ensures Take(n, Sorted(Order(), Elements(Take(n, Sorted(Order(), After(Order(), snapshots, cursor))))
                                    + (After(Order(), running, cursor) + After(Order(), pausing, cursor))))
            == Take(n, Sorted(Order(), After(Order(), running + (snapshots + pausing), cursor)))
  {
    AfterUnion(Order(), snapshots, running, pausing, cursor);
    MergeOfLimited(Order(), After(Order(), snapshots, cursor), After(Order(), running, cursor) + After(Order(), pausing, cursor), n);
  }

  lemma AfterNothing(cursor: SandboxKey)
    ensures After(Order(), {}, cursor) == {}
  {
  }

  lemma SandboxListCut(wantRunning: bool, wantPaused: bool, db: SandboxDb, cursor: SandboxKey, n: nat)
    requires StrictTotal(Order())
    ensures ListSandboxes(wantRunning, wantPaused)(db, cursor, n)
            == Take(n, Sorted(Order(), After(Order(), Visible(wantRunning, wantPaused)(db), cursor)))
  {
    var running := if wantRunning then db.running else {};
    AfterNothing(cursor);
    if wantPaused {
      PausedListCut(running, Keys(Without(db.snapshots, db.busy)), db.pausing, cursor, n);
    } else {
      assert {} + (After(Order(), running, cursor) + {}) == After(Order(), running, cursor) && running + {} == running;
    }
  }

  lemma SandboxListCuts(wantRunning: bool, wantPaused: bool)
    ensures StrictTotal(Order())
    ensures Cuts(ListSandboxes(wantRunning, wantPaused), Visible(wantRunning, wantPaused), Order())
  {
    OrderIsStrictTotal();
    forall db: SandboxDb, cursor: SandboxKey, n: nat {
      SandboxListCut(wantRunning, wantPaused, db, cursor, n);
    }
  }

  /** The merged list inherits the paging guarantees of a single query. */
  lemma SandboxListIsSound(wantRunning: bool, wantPaused: bool, dbs: seq<SandboxDb>, cursor: SandboxKey, limit: nat, row: SandboxKey)
    requires limit > 0 && StrictTotal(Order())
    requires Completes(Order(), Selections(Visible(wantRunning, wantPaused), dbs), cursor, limit) && Order()(cursor, row)
    requires forall i :: 0 <= i < |dbs| ==> row in Visible(wantRunning, wantPaused)(dbs[i])
    ensures var all := Flatten(QueryPages(ListSandboxes(wantRunning, wantPaused), dbs, cursor, limit));
            row in all && forall i, j :: 0 <= i < j < |all| ==> all[i] != all[j]
  {
    SandboxListCuts(wantRunning, wantPaused);
    ListingIsSound(ListSandboxes(wantRunning, wantPaused), Visible(wantRunning, wantPaused), Order(), dbs, cursor, limit);
  }

  /** Latest start first and, within an instant, the smaller id first. */
  ghost predicate IsLatestStartFirst(rows: seq<SandboxKey>) {
    forall i, j :: 0 <= i < j < |rows| ==>
      rows[i].at > rows[j].at || (rows[i].at == rows[j].at && LexLess(CharLess(), rows[i].id, rows[j].id))
  }

  /** A sandbox the request asks for: running; or pausing, or stored and neither running nor pausing. */
  predicate IsShown(wantRunning: bool, wantPaused: bool, db: SandboxDb, k: SandboxKey) {
    || (wantRunning && k in db.running)
    || (wantPaused && k in db.pausing)
    || (wantPaused && k.id in db.snapshots && db.snapshots[k.id] == k.at && k.id !in db.busy)
  }

  lemma {:induction false} KeysAreFew(snapshots: map<string, int>)
    ensures |Keys(snapshots)| <= |snapshots|
    decreases |snapshots|
  {
    if snapshots != map[] {
      var id :| id in snapshots;
      var rest := snapshots - {id};
      KeysAreFew(rest);
      assert rest.Keys == snapshots.Keys - {id};
      forall k: SandboxKey ensures k in Keys(snapshots) <==> k in Keys(rest) + {Key(snapshots[id], id)} {
        InKeys(snapshots, k);
        InKeys(rest, k);
      }
      assert Keys(snapshots) == Keys(rest) + {Key(snapshots[id], id)};
    }
  }

  lemma VisibleIsShown(wantRunning: bool, wantPaused: bool, db: SandboxDb, k: SandboxKey)
    ensures k in Visible(wantRunning, wantPaused)(db) <==> IsShown(wantRunning, wantPaused, db, k)
  {
    InKeys(Without(db.snapshots, db.busy), k);
  }

  lemma VisibleAreFew(wantRunning: bool, wantPaused: bool, db: SandboxDb, cursor: SandboxKey)
    ensures |After(Order(), Visible(wantRunning, wantPaused)(db), cursor)| <= |db.snapshots| + |db.running| + |db.pausing|
  {
    var all := Keys(db.snapshots) + db.running + db.pausing;
    forall k | k in After(Order(), Visible(wantRunning, wantPaused)(db), cursor) ensures k in all {
      VisibleIsShown(wantRunning, wantPaused, db, k);
      InKeys(db.snapshots, k);
    }
    SubsetIsSmaller(After(Order(), Visible(wantRunning, wantPaused)(db), cursor), all);
    KeysAreFew(db.snapshots);
  }

  /** While nothing changes, the pages list, latest start first, exactly the sandboxes asked for that lie past the cursor. */
  lemma SandboxesAreExactly(wantRunning: bool, wantPaused: bool, db: SandboxDb, dbs: seq<SandboxDb>, cursor: SandboxKey, limit: nat)
    requires limit > 0 && dbs != [] && forall i :: 0 <= i < |dbs| ==> dbs[i] == db
    requires |db.snapshots| + |db.running| + |db.pausing| <= |dbs| * limit
    ensures var all := Flatten(QueryPages(ListSandboxes(wantRunning, wantPaused), dbs, cursor, limit));
            && IsLatestStartFirst(all)
            && (forall k :: k in all <==>
                  && IsShown(wantRunning, wantPaused, db, k)
                  && (k.at < cursor.at || (k.at == cursor.at && LexLess(CharLess(), cursor.id, k.id))))
  {
    SandboxListCuts(wantRunning, wantPaused);
    VisibleAreFew(wantRunning, wantPaused, db, cursor);
    ListingIsComplete(ListSandboxes(wantRunning, wantPaused), Visible(wantRunning, wantPaused), Order(), db, dbs, cursor, limit);
    var all := Flatten(QueryPages(ListSandboxes(wantRunning, wantPaused), dbs, cursor, limit));
    forall i, j | 0 <= i < j < |all| ensures Order()(all[i], all[j]) {
    }
    forall k: SandboxKey {:trigger k in all}
      ensures k in all <==>
              && IsShown(wantRunning, wantPaused, db, k)
              && (k.at < cursor.at || (k.at == cursor.at && LexLess(CharLess(), cursor.id, k.id)))
    {
      assert k in all <==> k in Elements(all);
      VisibleIsShown(wantRunning, wantPaused, db, k);
    }
  }

  // ---------------------------------------------------------------------------------------
  // A sandbox's start time changes when it is paused again
  // ---------------------------------------------------------------------------------------

  lemma {:induction false} FlatRowsExist<K(!new)>(before: (K, K) -> bool, tables: seq<set<K>>, cursor: K, limit: nat, x: K)
    requires StrictTotal(before) && limit > 0 && x in Flatten(Pages(before, tables, cursor, limit))
    ensures exists i :: 0 <= i < |tables| && x in tables[i]
    decreases |tables|
  {
    var results := Fetch(before, tables[0], cursor, limit);
    FetchFacts(before, tables[0], cursor, limit);
    if |results| > limit {
      FlattenCons(results[..limit], Pages(before, tables[1..], results[limit - 1], limit));
      if x !in results[..limit] {
        FlatRowsExist(before, tables[1..], results[limit - 1], limit, x);
        var i :| 0 <= i < |tables[1..]| && x in tables[1..][i];
        assert x in tables[i + 1];
      }
    } else {
      FlattenCons(results, []);
      assert x in tables[0];
    }
  }

  /** A table shows each sandbox once. */
  ghost predicate UniqueIds(rows: set<SandboxKey>) {
    forall a, b :: a in rows && b in rows && a.id == b.id ==> a == b
  }

  ghost predicate AllUnique(tables: seq<set<SandboxKey>>) {
    forall i :: 0 <= i < |tables| ==> UniqueIds(tables[i])
  }

  /** The sandbox of row a in the earlier table comes back in the later one as b, started earlier, and a is not the last row. */
  ghost predicate MovesBack(earlier: set<SandboxKey>, later: set<SandboxKey>, a: SandboxKey, b: SandboxKey) {
    a in earlier && b in later && a.id == b.id && b.at < a.at && exists r :: r in earlier && Order()(a, r)
  }

  ghost predicate SomeMovesBack(tables: seq<set<SandboxKey>>) {
    exists p, q, a, b :: 0 <= p < q < |tables| && MovesBack(tables[p], tables[q], a, b)
  }

  lemma SameIdOrder(a: SandboxKey, b: SandboxKey)
    requires a.id == b.id
    ensures Order()(a, b) <==> b.at < a.at
  {
    IdOrders();
  }

  lemma PageHasDistinctIds(rows: set<SandboxKey>, page: seq<SandboxKey>)
    requires StrictTotal(Order()) && Ascending(Order(), page) && UniqueIds(rows) && forall x :: x in page ==> x in rows
    ensures DistinctIds(page)
  {
    forall i, j | 0 <= i < j < |page| ensures page[i].id != page[j].id {
      assert Order()(page[i], page[j]);
      assert page[i] in page && page[j] in page;
    }
  }

  lemma UpToLast(results: seq<SandboxKey>, limit: nat, a: SandboxKey, b: SandboxKey)
    requires StrictTotal(Order()) && Ascending(Order(), results) && 0 < limit <= |results|
    requires a in results[..limit] && Order()(results[limit - 1], b)
    ensures Order()(a, b)
  {
    var i :| 0 <= i < limit && results[i] == a;
    assert Via(a, results[limit - 1], b);
  }

  /** A sandbox on the first page and again on a later one has moved back, and the first page had a next one. */
  lemma RepeatAcrossPages(tables: seq<set<SandboxKey>>, cursor: SandboxKey, limit: nat, a: SandboxKey, b: SandboxKey)
    requires StrictTotal(Order()) && limit > 0 && tables != [] && |Fetch(Order(), tables[0], cursor, limit)| > limit
    requires a in Fetch(Order(), tables[0], cursor, limit)[..limit] && a.id == b.id
    requires b in Flatten(Pages(Order(), tables[1..], Fetch(Order(), tables[0], cursor, limit)[limit - 1], limit))
    ensures SomeMovesBack(tables)
  {
    var results := Fetch(Order(), tables[0], cursor, limit);
    var last := results[limit - 1];
    FetchFacts(Order(), tables[0], cursor, limit);
    TraversalAscends(Order(), tables[1..], last, limit);
    UpToLast(results, limit, a, b);
    SameIdOrder(a, b);
    FlatRowsExist(Order(), tables[1..], last, limit, b);
    var m :| 0 <= m < |tables[1..]| && b in tables[1..][m];
    assert Order()(last, results[limit]);
    UpToLast(results, limit, a, results[limit]);
    assert results[limit] in results;
    assert a in results && MovesBack(tables[0], tables[m + 1], a, b);
  }

  lemma MoveInTail(tables: seq<set<SandboxKey>>)
    requires tables != [] && SomeMovesBack(tables[1..])
    ensures SomeMovesBack(tables)
  {
    var rest := tables[1..];
    var p, q, a, b :| 0 <= p < q < |rest| && MovesBack(rest[p], rest[q], a, b);
    assert MovesBack(tables[p + 1], tables[q + 1], a, b);
  }

  lemma DistinctConcat(x: seq<SandboxKey>, y: seq<SandboxKey>)
    requires DistinctIds(x) && DistinctIds(y) && forall a, b :: a in x && b in y ==> a.id != b.id
    ensures DistinctIds(x + y)
  {
    forall i, j | 0 <= i < j < |x + y| ensures (x + y)[i].id != (x + y)[j].id {
      assert i < |x| <= j ==> x[i] in x && y[j - |x|] in y;
    }
  }

  /** A traversal lists a sandbox twice only if it moved back between two of its fetches. */
  lemma {:induction false} RepeatNeedsMove(tables: seq<set<SandboxKey>>, cursor: SandboxKey, limit: nat)
    requires StrictTotal(Order()) && limit > 0 && AllUnique(tables) && !SomeMovesBack(tables)
    ensures DistinctIds(Flatten(Pages(Order(), tables, cursor, limit)))
    decreases |tables|
  {
    if tables != [] {
      var results := Fetch(Order(), tables[0], cursor, limit);
      FetchFacts(Order(), tables[0], cursor, limit);
      PageHasDistinctIds(tables[0], results);
      if |results| > limit {
        var page, last := results[..limit], results[limit - 1];
        var rest := Flatten(Pages(Order(), tables[1..], last, limit));
        FlattenCons(page, Pages(Order(), tables[1..], last, limit));
        if SomeMovesBack(tables[1..]) {
          MoveInTail(tables);
        }
        RepeatNeedsMove(tables[1..], last, limit);
        forall a, b | a in page && b in rest ensures a.id != b.id {
          if a.id == b.id {
            RepeatAcrossPages(tables, cursor, limit, a, b);
          }
        }
        DistinctConcat(page, rest);
      } else {
        FlattenCons(results, []);
      }
    }
  }

  // The converse: a sandbox that moved back can be listed twice.

  /** Some cursor makes a the only row of the first page, and leaves a next page. */
  lemma PageOfOne(rows: set<SandboxKey>, a: SandboxKey, r: SandboxKey) returns (cursor: SandboxKey)
    requires StrictTotal(Order()) && a in rows && r in rows && Order()(a, r)
    ensures |Fetch(Order(), rows, cursor, 1)| == 2 && Fetch(Order(), rows, cursor, 1)[0] == a
  {
    var s := Sorted(Order(), rows);
    assert a in Elements(s) && r in Elements(s);
    var k :| 0 <= k < |s| && s[k] == a;
    var m :| 0 <= m < |s| && s[m] == r;
    assert k < m;
    if k == 0 {
      cursor := Key(a.at + 1, a.id);
      forall x | x in rows ensures Order()(cursor, x) {
        assert x in Elements(s);
        var i :| 0 <= i < |s| && s[i] == x;
        assert Via(cursor, a, x);
      }
      assert After(Order(), rows, cursor) == rows;
    } else {
      cursor := s[k - 1];
      CutAtRow(Order(), rows, k);
    }
  }

  function Repeated<T>(x: T, n: nat): (r: seq<T>)
    ensures |r| == n && forall i :: 0 <= i < n ==> r[i] == x
  {
    seq(n, _ => x)
  }

  lemma MoveLeadsToRepeat(earlier: set<SandboxKey>, later: set<SandboxKey>, a: SandboxKey, b: SandboxKey) returns (cursor: SandboxKey)
    requires StrictTotal(Order()) && MovesBack(earlier, later, a, b)
    ensures !DistinctIds(Flatten(Pages(Order(), [earlier] + Repeated(later, |later| + 1), cursor, 1)))
  {
    var r :| r in earlier && Order()(a, r);
    cursor := PageOfOne(earlier, a, r);
    var rest := Repeated(later, |later| + 1);
    var tables := [earlier] + rest;
    assert tables[1..] == rest && tables[0] == earlier;
    var left := After(Order(), later, a);
    SubsetIsSmaller(left, later);
    PagesAreTheWholeList(Order(), rest, later, a, 1);
    var tail := Flatten(Pages(Order(), rest, a, 1));
    SameIdOrder(a, b);
    assert b in Elements(tail);
    var j :| 0 <= j < |tail| && tail[j] == b;
    var results := Fetch(Order(), earlier, cursor, 1);
    assert results[..1] == [a];
    FlattenCons([a], Pages(Order(), rest, a, 1));
    var all := Flatten(Pages(Order(), tables, cursor, 1));
    assert all == [a] + tail;
    assert all[0].id == all[j + 1].id;
  }

  // ---------------------------------------------------------------------------------------
  // Over a history of table versions
  // ---------------------------------------------------------------------------------------

  /** Which version each fetch finds: never an older one than the fetch before. */
  ghost predicate IsSchedule(schedule: seq<nat>, versions: nat) {
    && (forall i :: 0 <= i < |schedule| ==> schedule[i] < versions)
    && (forall i, j :: 0 <= i < j < |schedule| ==> schedule[i] <= schedule[j])
  }

  ghost function Fetched<D>(versions: seq<D>, schedule: seq<nat>): (r: seq<D>)
    requires IsSchedule(schedule, |versions|)
    ensures |r| == |schedule| && forall i :: 0 <= i < |r| ==> r[i] == versions[schedule[i]]
  {
    seq(|schedule|, i requires 0 <= i < |schedule| => versions[schedule[i]])
  }

  lemma MoveBetweenVersions(versions: seq<set<SandboxKey>>, schedule: seq<nat>)
    requires StrictTotal(Order()) && AllUnique(versions) && IsSchedule(schedule, |versions|) && SomeMovesBack(Fetched(versions, schedule))
    ensures SomeMovesBack(versions)
  {
    var tables := Fetched(versions, schedule);
    var p, q, a, b :| 0 <= p < q < |tables| && MovesBack(tables[p], tables[q], a, b);
    assert schedule[p] != schedule[q] by {
      assert schedule[p] == schedule[q] ==> a == b;
    }
    assert MovesBack(versions[schedule[p]], versions[schedule[q]], a, b);
  }

  /** Some fetch times, cursor and limit list a sandbox twice. */
  ghost predicate CanRepeat(versions: seq<set<SandboxKey>>)
    requires StrictTotal(Order())
  {
    exists schedule, cursor, limit: nat ::
      limit > 0 && IsSchedule(schedule, |versions|) && !DistinctIds(Flatten(Pages(Order(), Fetched(versions, schedule), cursor, limit)))
  }

  /**
   Over any history of versions, a traversal can list a sandbox twice iff some sandbox is in two
   versions, started earlier in the later one, and was not the last row of the earlier one.
   */
  lemma CanRepeatIff(versions: seq<set<SandboxKey>>)
    requires StrictTotal(Order()) && AllUnique(versions)
    ensures CanRepeat(versions) <==> SomeMovesBack(versions)
  {
    if CanRepeat(versions) {
      var schedule, cursor, limit: nat :|
        limit > 0 && IsSchedule(schedule, |versions|) && !DistinctIds(Flatten(Pages(Order(), Fetched(versions, schedule), cursor, limit)));
      if !SomeMovesBack(Fetched(versions, schedule)) {
        RepeatNeedsMove(Fetched(versions, schedule), cursor, limit);
      }
      MoveBetweenVersions(versions, schedule);
    }
    if SomeMovesBack(versions) {
      MoveCanRepeat(versions);
    }
  }

  lemma MoveCanRepeat(versions: seq<set<SandboxKey>>)
    requires StrictTotal(Order()) && SomeMovesBack(versions)
    ensures CanRepeat(versions)
  {
    var p, q, a, b :| 0 <= p < q < |versions| && MovesBack(versions[p], versions[q], a, b);
    var cursor := MoveLeadsToRepeat(versions[p], versions[q], a, b);
    var n := |versions[q]| + 1;
    var schedule: seq<nat> := [p] + Repeated(q, n);
    assert Fetched(versions, schedule) == [versions[p]] + Repeated(versions[q], n);
    assert !DistinctIds(Flatten(Pages(Order(), Fetched(versions, schedule), cursor, 1)));
  }

  // The two lists it is about.

  lemma KeysAreUnique(snapshots: map<string, int>)
    ensures UniqueIds(Keys(snapshots))
  {
    forall a, b | a in Keys(snapshots) && b in Keys(snapshots) && a.id == b.id ensures a == b {
      InKeys(snapshots, a);
      InKeys(snapshots, b);
    }
  }

  /** What the sandbox store guarantees: a sandbox is running or pausing at most once, and then counts as busy. */
  ghost predicate IsConsistent(db: SandboxDb) {
    UniqueIds(db.running + db.pausing) && forall k :: k in db.running + db.pausing ==> k.id in db.busy
  }

  lemma VisibleIsUnique(wantRunning: bool, wantPaused: bool, db: SandboxDb)
    requires IsConsistent(db)
    ensures UniqueIds(Visible(wantRunning, wantPaused)(db))
  {
    var stored := Without(db.snapshots, db.busy);
    KeysAreUnique(stored);
    forall a, b | a in Visible(wantRunning, wantPaused)(db) && b in Visible(wantRunning, wantPaused)(db) && a.id == b.id
      ensures a == b
    {
      InKeys(stored, a);
      InKeys(stored, b);
      assert a in Keys(stored) ==> a.id !in db.busy;
      assert b in Keys(stored) ==> b.id !in db.busy;
    }
  }

  /** Some fetch times, cursor and limit make the query's pages list a sandbox twice. */
  ghost predicate QueryCanRepeat<D(!new)>(query: (D, SandboxKey, nat) -> seq<SandboxKey>, versions: seq<D>) {
    exists schedule, cursor, limit: nat ::
      limit > 0 && IsSchedule(schedule, |versions|) && !DistinctIds(Flatten(QueryPages(query, Fetched(versions, schedule), cursor, limit)))
  }

  lemma QueryCanRepeatIff<D(!new)>(query: (D, SandboxKey, nat) -> seq<SandboxKey>, select: D -> set<SandboxKey>, versions: seq<D>)
    requires StrictTotal(Order()) && Cuts(query, select, Order()) && AllUnique(Selections(select, versions))
    ensures QueryCanRepeat(query, versions) <==> SomeMovesBack(Selections(select, versions))
  {
    var tables := Selections(select, versions);
    CanRepeatIff(tables);
    forall schedule, cursor, limit: nat | limit > 0 && IsSchedule(schedule, |versions|)
      ensures QueryPages(query, Fetched(versions, schedule), cursor, limit) == Pages(Order(), Fetched(tables, schedule), cursor, limit)
    {
      QueryPagesArePages(query, select, Order(), Fetched(versions, schedule), cursor, limit);
      assert Selections(select, Fetched(versions, schedule)) == Fetched(tables, schedule);
    }
    assert QueryCanRepeat(query, versions) <==> CanRepeat(tables);
  }

  /** The snapshot query. */
  lemma SnapshotsCanRepeatIff(versions: seq<map<string, int>>)
    ensures QueryCanRepeat(SnapshotQuery(), versions) <==> SomeMovesBack(Selections(Keys, versions))
  {
    SnapshotsCut();
    forall i | 0 <= i < |versions| ensures UniqueIds(Keys(versions[i])) {
      KeysAreUnique(versions[i]);
    }
    QueryCanRepeatIff(SnapshotQuery(), Keys, versions);
  }

  /** The endpoint's merged list. */
  lemma SandboxesCanRepeatIff(wantRunning: bool, wantPaused: bool, versions: seq<SandboxDb>)
    requires forall i :: 0 <= i < |versions| ==> IsConsistent(versions[i])
    ensures QueryCanRepeat(ListSandboxes(wantRunning, wantPaused), versions)
            <==> SomeMovesBack(Selections(Visible(wantRunning, wantPaused), versions))
  {
    SandboxListCuts(wantRunning, wantPaused);
    forall i | 0 <= i < |versions| ensures UniqueIds(Visible(wantRunning, wantPaused)(versions[i])) {
      VisibleIsUnique(wantRunning, wantPaused, versions[i]);
    }
    QueryCanRepeatIff(ListSandboxes(wantRunning, wantPaused), Visible(wantRunning, wantPaused), versions);
  }

  ghost predicate NeverEarlier(tables: seq<set<SandboxKey>>) {
    forall i, j, a, b :: 0 <= i < j < |tables| && a in tables[i] && b in tables[j] && a.id == b.id ==> a.at <= b.at
  }

  /** In particular: if later fetches never show an earlier start time, the endpoint lists no sandbox twice. */
  lemma NoSandboxTwice(wantRunning: bool, wantPaused: bool, dbs: seq<SandboxDb>, cursor: SandboxKey, limit: nat)
    requires limit > 0 && (forall i :: 0 <= i < |dbs| ==> IsConsistent(dbs[i]))
    requires NeverEarlier(Selections(Visible(wantRunning, wantPaused), dbs))
    ensures DistinctIds(Flatten(QueryPages(ListSandboxes(wantRunning, wantPaused), dbs, cursor, limit)))
  {
    var tables := Selections(Visible(wantRunning, wantPaused), dbs);
    SandboxListCuts(wantRunning, wantPaused);
    forall i | 0 <= i < |dbs| ensures UniqueIds(tables[i]) {
      VisibleIsUnique(wantRunning, wantPaused, dbs[i]);
    }
    forall p, q, a, b | 0 <= p < q < |tables| ensures !MovesBack(tables[p], tables[q], a, b) {
    }
    RepeatNeedsMove(tables, cursor, limit);
    QueryPagesArePages(ListSandboxes(wantRunning, wantPaused), Visible(wantRunning, wantPaused), Order(), dbs, cursor, limit);
  }

  /** The smallest case: a row moves behind the cursor between two fetches. */
  lemma MovedSandboxAppearsTwice()
    ensures StrictTotal(Order())
    ensures exists dbs, cursor :: !DistinctIds(Flatten(Pages(Order(), Selections(Keys, dbs), cursor, 1)))
  {
    OrderIsStrictTotal();
    var first, second := map["a" := 5, "b" := 3], map["a" := 1];
    var cursor := Key(9, "");
    var dbs := [first, second];
    var tables := Selections(Keys, dbs);
    forall k: SandboxKey
      ensures k in Keys(first) <==> k in {Key(5, "a"), Key(3, "b")}
      ensures k in Keys(second) <==> k in {Key(1, "a")}
    {
      InKeys(first, k);
      InKeys(second, k);
    }
    assert Keys(first) == {Key(5, "a"), Key(3, "b")} && Keys(second) == {Key(1, "a")};
    var list0 := [Key(5, "a"), Key(3, "b")];
    assert Elements(list0) == After(Order(), Keys(first), cursor);
    AscendingIsUnique(Order(), Sorted(Order(), After(Order(), Keys(first), cursor)), list0);
    var list1 := [Key(1, "a")];
    assert Elements(list1) == After(Order(), Keys(second), Key(5, "a"));
    AscendingIsUnique(Order(), Sorted(Order(), After(Order(), Keys(second), Key(5, "a"))), list1);
    assert tables == [Keys(first), Keys(second)] && tables[1..] == [Keys(second)];
    assert Pages(Order(), tables[1..], Key(5, "a"), 1) == [list1];
    FlattenCons([Key(5, "a")], [list1]);
    FlattenCons(list1, []);
    var all := Flatten(Pages(Order(), tables, cursor, 1));
    assert all == [Key(5, "a"), Key(1, "a")];
    assert all[0].id == all[1].id;
  }
}
