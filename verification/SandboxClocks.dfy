/**
 The sandbox list compares two clocks: running sandboxes carry nanoseconds, while the snapshot table
 and the cursor handed to it are cut to microseconds.  What that does to a page and to a traversal.
 */
module SandboxClocks {
  import opened Keyset
  import opened UuidText
  import opened Listings
  import opened SandboxListing

  // In this module the snapshots of a SandboxDb are in microseconds, all else in nanoseconds.

  const NANOS := 1000

  function InNanos(snapshots: map<string, int>): map<string, int> {
    map id | id in snapshots :: NANOS * snapshots[id]
  }

  /** The same sandboxes under one clock. */
  function OneClock(db: SandboxDb): SandboxDb {
    db.(snapshots := InNanos(db.snapshots))
  }

  /** The cursor predicate of GetSnapshotsWithCursor, on microseconds. */
  predicate SqlKeeps(micros: int, id: string, cursor: SandboxKey) {
    RowLess(TextLess(), micros, cursor.id, cursor.at / NANOS, id)
  }

  function SqlAfter(snapshots: map<string, int>, cursor: SandboxKey): set<SandboxKey> {
    set id | id in snapshots && SqlKeeps(snapshots[id], id, cursor) :: Key(NANOS * snapshots[id], id)
  }

  /** One request: the snapshot page cut on microseconds, the in-memory lists on nanoseconds. */
  ghost function ListWithTwoClocks(wantRunning: bool, wantPaused: bool): (SandboxDb, SandboxKey, nat) -> seq<SandboxKey> {
    OrderIsStrictTotal();
    (db: SandboxDb, cursor: SandboxKey, n: nat) =>
      var paused := Elements(Take(n, Sorted(Order(), SqlAfter(Without(db.snapshots, db.busy), cursor))));
      Take(n, Sorted(Order(), (if wantPaused then paused else {}) +
                              ((if wantRunning then After(Order(), db.running, cursor) else {})
                               + (if wantPaused then After(Order(), db.pausing, cursor) else {}))))
  }

  // ---------------------------------------------------------------------------------------
  // One page
  // ---------------------------------------------------------------------------------------

  /** The cursor lies within the row's microsecond, after its start, and its id does not precede the row's. */
  predicate IsSkipped(micros: int, id: string, cursor: SandboxKey) {
    micros == cursor.at / NANOS && cursor.at % NANOS != 0 && !TextLess()(cursor.id, id)
  }

  /** The two cuts differ on exactly those rows, and then the row is lost. */
  lemma CutsDifferIff(micros: int, id: string, cursor: SandboxKey)
    ensures SqlKeeps(micros, id, cursor) ==> Order()(cursor, Key(NANOS * micros, id))
    ensures Order()(cursor, Key(NANOS * micros, id)) && !SqlKeeps(micros, id, cursor) <==> IsSkipped(micros, id, cursor)
  {
    var q, r := cursor.at / NANOS, cursor.at % NANOS;
    assert cursor.at == NANOS * q + r;
  }

  predicate Loses(snapshots: map<string, int>, cursor: SandboxKey) {
    exists id | id in snapshots :: IsSkipped(snapshots[id], id, cursor)
  }

  lemma SameCutUnlessLost(snapshots: map<string, int>, cursor: SandboxKey)
    requires !Loses(snapshots, cursor)
    ensures SqlAfter(snapshots, cursor) == After(Order(), Keys(InNanos(snapshots)), cursor)
  {
    forall k ensures k in SqlAfter(snapshots, cursor) <==> k in After(Order(), Keys(InNanos(snapshots)), cursor) {
      InKeys(InNanos(snapshots), k);
      if k.id in snapshots {
        CutsDifferIff(snapshots[k.id], k.id, cursor);
      }
    }
  }

  lemma NanosWithout(snapshots: map<string, int>, ids: set<string>)
    ensures Without(InNanos(snapshots), ids) == InNanos(Without(snapshots, ids))
  {
  }

  /** Nothing of the request's snapshot page is lost. */
  predicate IsExact(wantPaused: bool, db: SandboxDb, cursor: SandboxKey) {
    wantPaused ==> !Loses(Without(db.snapshots, db.busy), cursor)
  }

  lemma ExactPage(wantRunning: bool, wantPaused: bool, db: SandboxDb, cursor: SandboxKey, n: nat)
    requires IsExact(wantPaused, db, cursor)
    ensures ListWithTwoClocks(wantRunning, wantPaused)(db, cursor, n) == ListSandboxes(wantRunning, wantPaused)(OneClock(db), cursor, n)
  {
    NanosWithout(db.snapshots, db.busy);
    if wantPaused {
      SameCutUnlessLost(Without(db.snapshots, db.busy), cursor);
    }
  }

  /** A lost row is missing from a page that is long enough for everything. */
  lemma LostRowIsMissing(wantRunning: bool, db: SandboxDb, cursor: SandboxKey, id: string) returns (n: nat)
    requires StrictTotal(Order()) && IsConsistent(db)
    requires id in Without(db.snapshots, db.busy) && IsSkipped(db.snapshots[id], id, cursor)
    ensures var k := Key(NANOS * db.snapshots[id], id);
            && k in ListSandboxes(wantRunning, true)(OneClock(db), cursor, n)
            && k !in ListWithTwoClocks(wantRunning, true)(db, cursor, n)
  {
    var k, ideal := Key(NANOS * db.snapshots[id], id), OneClock(db);
    CutsDifferIff(db.snapshots[id], id, cursor);
    NanosWithout(db.snapshots, db.busy);
    InKeys(Without(ideal.snapshots, db.busy), k);
    var visible := After(Order(), Visible(wantRunning, true)(ideal), cursor);
    n := |visible|;
    SandboxListCut(wantRunning, true, ideal, cursor, n);
    assert k in Elements(Sorted(Order(), visible));
    LostRowIsNotPaged(wantRunning, db, cursor, id, n);
  }

  lemma LostRowIsNotPaged(wantRunning: bool, db: SandboxDb, cursor: SandboxKey, id: string, n: nat)
    requires StrictTotal(Order()) && IsConsistent(db)
    requires id in Without(db.snapshots, db.busy) && !SqlKeeps(db.snapshots[id], id, cursor)
    ensures Key(NANOS * db.snapshots[id], id) !in ListWithTwoClocks(wantRunning, true)(db, cursor, n)
  {
    var k, stored := Key(NANOS * db.snapshots[id], id), Without(db.snapshots, db.busy);
    var paused := Elements(Take(n, Sorted(Order(), SqlAfter(stored, cursor))));
    LimitedIsPart(Order(), SqlAfter(stored, cursor), n);
    assert k !in SqlAfter(stored, cursor);
    var rest := (if wantRunning then After(Order(), db.running, cursor) else {}) + After(Order(), db.pausing, cursor);
    assert k !in rest;
    var merged := paused + rest;
    LimitedIsPart(Order(), merged, n);
    assert k !in Elements(Take(n, Sorted(Order(), merged)));
  }

  /** Two clocks give the pages of one iff the request loses no row. */
  lemma PagesAreExactIff(wantRunning: bool, wantPaused: bool, db: SandboxDb, cursor: SandboxKey)
    requires IsConsistent(db)
    ensures (forall n: nat :: ListWithTwoClocks(wantRunning, wantPaused)(db, cursor, n)
                              == ListSandboxes(wantRunning, wantPaused)(OneClock(db), cursor, n))
            <==> IsExact(wantPaused, db, cursor)
  {
    OrderIsStrictTotal();
    if IsExact(wantPaused, db, cursor) {
      forall n: nat
        ensures ListWithTwoClocks(wantRunning, wantPaused)(db, cursor, n)
                == ListSandboxes(wantRunning, wantPaused)(OneClock(db), cursor, n)
      {
        ExactPage(wantRunning, wantPaused, db, cursor, n);
      }
    } else {
      var stored := Without(db.snapshots, db.busy);
      var id :| id in stored && IsSkipped(stored[id], id, cursor);
      var n := LostRowIsMissing(wantRunning, db, cursor, id);
    }
  }

  // ---------------------------------------------------------------------------------------
  // Traversals
  // ---------------------------------------------------------------------------------------

  /** No fetch of the traversal loses a row. */
  ghost predicate IsExactThroughout(wantRunning: bool, wantPaused: bool, dbs: seq<SandboxDb>, cursor: SandboxKey, limit: nat)
    requires limit > 0
    decreases |dbs|
  {
    dbs == [] ||
    (var results := ListWithTwoClocks(wantRunning, wantPaused)(dbs[0], cursor, limit + 1);
     && IsExact(wantPaused, dbs[0], cursor)
     && (|results| > limit ==> IsExactThroughout(wantRunning, wantPaused, dbs[1..], results[limit - 1], limit)))
  }

  function OneClocks(dbs: seq<SandboxDb>): (r: seq<SandboxDb>)
    ensures |r| == |dbs| && forall i :: 0 <= i < |dbs| ==> r[i] == OneClock(dbs[i])
  {
    seq(|dbs|, i requires 0 <= i < |dbs| => OneClock(dbs[i]))
  }

  /** Then it is a traversal under one clock, and all that is proved of those holds of it. */
  lemma {:induction false} ExactTraversal(wantRunning: bool, wantPaused: bool, dbs: seq<SandboxDb>, cursor: SandboxKey, limit: nat)
    requires limit > 0 && IsExactThroughout(wantRunning, wantPaused, dbs, cursor, limit)
    ensures QueryPages(ListWithTwoClocks(wantRunning, wantPaused), dbs, cursor, limit)
            == QueryPages(ListSandboxes(wantRunning, wantPaused), OneClocks(dbs), cursor, limit)
    decreases |dbs|
  {
    if dbs != [] {
      ExactPage(wantRunning, wantPaused, dbs[0], cursor, limit + 1);
      var results := ListWithTwoClocks(wantRunning, wantPaused)(dbs[0], cursor, limit + 1);
      assert OneClocks(dbs)[1..] == OneClocks(dbs[1..]);
      if |results| > limit {
        ExactTraversal(wantRunning, wantPaused, dbs[1..], results[limit - 1], limit);
      }
    }
  }

  /** So: nothing twice, and every row that stays, as long as no cursor falls inside a snapshot's microsecond behind it. */
  lemma ExactTraversalIsSound(wantRunning: bool, wantPaused: bool, dbs: seq<SandboxDb>, cursor: SandboxKey, limit: nat, row: SandboxKey)
    requires limit > 0 && StrictTotal(Order()) && IsExactThroughout(wantRunning, wantPaused, dbs, cursor, limit)
    requires Completes(Order(), Selections(Visible(wantRunning, wantPaused), OneClocks(dbs)), cursor, limit) && Order()(cursor, row)
    requires forall i :: 0 <= i < |dbs| ==> row in Visible(wantRunning, wantPaused)(OneClock(dbs[i]))
    ensures var all := Flatten(QueryPages(ListWithTwoClocks(wantRunning, wantPaused), dbs, cursor, limit));
            row in all && forall i, j :: 0 <= i < j < |all| ==> all[i] != all[j]
  {
    ExactTraversal(wantRunning, wantPaused, dbs, cursor, limit);
    SandboxListIsSound(wantRunning, wantPaused, OneClocks(dbs), cursor, limit, row);
  }

  /** A list of stored snapshots alone keeps to whole microseconds, so its cursors lose nothing after the first. */
  lemma {:induction false} PausedOnlyIsExact(dbs: seq<SandboxDb>, cursor: SandboxKey, limit: nat)
    requires limit > 0 && cursor.at % NANOS == 0 && forall i :: 0 <= i < |dbs| ==> dbs[i].pausing == {}
    ensures IsExactThroughout(false, true, dbs, cursor, limit)
    decreases |dbs|
  {
    if dbs != [] {
      var results := ListWithTwoClocks(false, true)(dbs[0], cursor, limit + 1);
      if |results| > limit {
        WholeMicroseconds(dbs[0], cursor, limit + 1, results[limit - 1]);
        PausedOnlyIsExact(dbs[1..], results[limit - 1], limit);
      }
    }
  }

  lemma StoredAreWhole(snapshots: map<string, int>, cursor: SandboxKey, k: SandboxKey)
    requires k in SqlAfter(snapshots, cursor)
    ensures k.at % NANOS == 0
  {
    InSqlAfter(snapshots, cursor, k);
  }

  lemma WholeMicroseconds(db: SandboxDb, cursor: SandboxKey, n: nat, k: SandboxKey)
    requires db.pausing == {} && k in ListWithTwoClocks(false, true)(db, cursor, n)
    ensures k.at % NANOS == 0
  {
    OrderIsStrictTotal();
    var stored, none := SqlAfter(Without(db.snapshots, db.busy), cursor), After(Order(), db.pausing, cursor);
    assert none == {};
    InLimitedMerge(stored, none, n, k);
    StoredAreWhole(Without(db.snapshots, db.busy), cursor, k);
  }

  /** A row of the merged page comes from the snapshot page or from memory. */
  lemma InLimitedMerge(stored: set<SandboxKey>, rest: set<SandboxKey>, n: nat, k: SandboxKey)
    requires StrictTotal(Order()) && k in Take(n, Sorted(Order(), Elements(Take(n, Sorted(Order(), stored))) + ({} + rest)))
    ensures k in stored || k in rest
  {
    LimitedIsPart(Order(), stored, n);
    var merged := Elements(Take(n, Sorted(Order(), stored))) + ({} + rest);
    LimitedIsPart(Order(), merged, n);
    assert k in Elements(Take(n, Sorted(Order(), merged)));
  }

  /**
   A sandbox listed while running and paused before a later fetch is listed again iff the cursor has
   passed it within its microsecond, at an id before its own.
   */
  lemma PausedRunnerIsRepeatedIff(row: SandboxKey, cursor: SandboxKey)
    requires row == cursor || Order()(row, cursor)
    ensures SqlKeeps(row.at / NANOS, row.id, cursor)
            <==> cursor.at / NANOS == row.at / NANOS && cursor.at < row.at && TextLess()(cursor.id, row.id)
  {
    IdOrders();
    assert cursor.at <= row.at;
    assert cursor.at / NANOS <= row.at / NANOS;
  }

  /** The smallest loss: a stored sandbox that is there all the time and that no page shows. */
  lemma StoredSandboxIsNeverListed()
    ensures var db := SandboxDb(map["a" := 0], {Key(5, "b")}, {}, {"b"});
            && IsConsistent(db) && Key(0, "a") in Visible(true, true)(OneClock(db))
            && QueryPages(ListWithTwoClocks(true, true), [db, db], Key(9 * NANOS, "z"), 1) == [[Key(5, "b")], []]
  {
    var db := SandboxDb(map["a" := 0], {Key(5, "b")}, {}, {"b"});
    RunnerHidesNothing(db);
    FirstPageShowsRunner(db);
    SecondPageIsEmpty(db);
    TwoPages(ListWithTwoClocks(true, true), db, Key(9 * NANOS, "z"), Key(5, "b"), Key(0, "a"));
  }

  lemma RunnerHidesNothing(db: SandboxDb)
    requires db == SandboxDb(map["a" := 0], {Key(5, "b")}, {}, {"b"})
    ensures IsConsistent(db) && Key(0, "a") in Visible(true, true)(OneClock(db))
  {
    var stored := Without(OneClock(db).snapshots, db.busy);
    assert stored["a"] == 0;
    InKeys(stored, Key(0, "a"));
  }

  lemma InSqlAfter(snapshots: map<string, int>, cursor: SandboxKey, k: SandboxKey)
    ensures k in SqlAfter(snapshots, cursor)
            <==> k.id in snapshots && k.at == NANOS * snapshots[k.id] && SqlKeeps(snapshots[k.id], k.id, cursor)
  {
    if k.id in snapshots && k.at == NANOS * snapshots[k.id] {
      assert k == Key(NANOS * snapshots[k.id], k.id);
    }
  }

  lemma TwoPages<D(!new)>(query: (D, SandboxKey, nat) -> seq<SandboxKey>, db: D, start: SandboxKey, x: SandboxKey, y: SandboxKey)
    requires query(db, start, 2) == [x, y] && query(db, x, 2) == []
    ensures QueryPages(query, [db, db], start, 1) == [[x], []]
  {
    assert [db, db][1..] == [db];
    assert QueryPages(query, [db], x, 1) == [[]];
    assert [x, y][..1] == [x];
  }

  lemma FirstPageShowsRunner(db: SandboxDb)
    requires db == SandboxDb(map["a" := 0], {Key(5, "b")}, {}, {"b"})
    ensures ListWithTwoClocks(true, true)(db, Key(9 * NANOS, "z"), 2) == [Key(5, "b"), Key(0, "a")]
  {
    OrderIsStrictTotal();
    var a, b, start := Key(0, "a"), Key(5, "b"), Key(9 * NANOS, "z");
    assert Without(db.snapshots, db.busy) == map["a" := 0];
    FirstCut();
    TwoInOrder();
    assert After(Order(), db.running, start) == {b} && After(Order(), db.pausing, start) == {};
    assert {a} + ({b} + {}) == {a, b};
    assert Elements(Take(2, [a])) == {a};
  }

  lemma FirstCut()
    ensures SqlAfter(map["a" := 0], Key(9 * NANOS, "z")) == {Key(0, "a")}
  {
    assert SqlKeeps(0, "a", Key(9 * NANOS, "z"));
    forall k: SandboxKey ensures k in SqlAfter(map["a" := 0], Key(9 * NANOS, "z")) <==> k == Key(0, "a") {
      InSqlAfter(map["a" := 0], Key(9 * NANOS, "z"), k);
    }
  }

  lemma TwoInOrder()
    ensures StrictTotal(Order())
    ensures Sorted(Order(), {Key(0, "a")}) == [Key(0, "a")]
    ensures Sorted(Order(), {Key(0, "a"), Key(5, "b")}) == [Key(5, "b"), Key(0, "a")]
  {
    OrderIsStrictTotal();
    var a, b := Key(0, "a"), Key(5, "b");
    assert Elements([a]) == {a} && Elements([b, a]) == {a, b};
    AscendingIsUnique(Order(), Sorted(Order(), {a}), [a]);
    AscendingIsUnique(Order(), Sorted(Order(), {a, b}), [b, a]);
  }

  lemma SecondPageIsEmpty(db: SandboxDb)
    requires db == SandboxDb(map["a" := 0], {Key(5, "b")}, {}, {"b"})
    ensures ListWithTwoClocks(true, true)(db, Key(5, "b"), 2) == []
  {
    OrderIsStrictTotal();
    var b := Key(5, "b");
    assert Without(db.snapshots, db.busy) == map["a" := 0];
    NotBefore();
    assert SqlAfter(map["a" := 0], b) == {};
    assert After(Order(), db.running, b) == {} && After(Order(), db.pausing, b) == {};
    var none: set<SandboxKey> := {};
    assert none + (none + none) == none;
  }

  lemma NotBefore()
    ensures !TextLess()("b", "a")
  {
  }
}
