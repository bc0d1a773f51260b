/**
 Keyset pagination over any strict total order: a page is the first rows after the cursor, the
 next cursor is the last row handed out, and the table may change between two fetches.
 */
module Keyset {
  /** Names a middle row for one use of transitivity. */
  ghost predicate Via<K>(a: K, b: K, c: K) {
    true
  }

  ghost predicate StrictTotal<K(!new)>(before: (K, K) -> bool) {
    && (forall a, b :: before(a, b) ==> !before(b, a))
    && (forall a, b, c {:trigger Via(a, b, c)} :: before(a, b) && before(b, c) ==> before(a, c))
    && (forall a, b :: a == b || before(a, b) || before(b, a))
  }

  ghost predicate Ascending<K>(before: (K, K) -> bool, s: seq<K>) {
    forall i, j :: 0 <= i < j < |s| ==> before(s[i], s[j])
  }

  function Elements<K(==)>(s: seq<K>): set<K> {
    set x | x in s
  }

  /** The rows a cursor predicate keeps. */
  function After<K(==)>(before: (K, K) -> bool, rows: set<K>, cursor: K): set<K> {
    set r | r in rows && before(cursor, r)
  }

  function Take<K>(n: nat, s: seq<K>): seq<K> {
    if n <= |s| then s[..n] else s
  }

  // ---------------------------------------------------------------------------------------
  // ORDER BY: the one ascending enumeration of a finite set of rows
  // ---------------------------------------------------------------------------------------

  ghost function Insert<K(!new)>(before: (K, K) -> bool, x: K, s: seq<K>): (r: seq<K>)
    requires StrictTotal(before) && Ascending(before, s) && x !in s
    ensures Ascending(before, r) && Elements(r) == Elements(s) + {x} && |r| == |s| + 1
  {
    if s == [] then [x]
    else if before(x, s[0]) then
      assert forall j :: 0 < j < |s| ==> Via(x, s[0], s[j]);
      [x] + s
    else
      var rest := Insert(before, x, s[1..]);
      assert Elements(s) == {s[0]} + Elements(s[1..]);
      assert forall y :: y in Elements(rest) ==> before(s[0], y);
      assert forall j :: 0 <= j < |rest| ==> rest[j] in Elements(rest);
      var r := [s[0]] + rest;
      assert Elements(r) == {s[0]} + Elements(rest);
      r
  }

  lemma {:induction false} SortedExists<K(!new)>(before: (K, K) -> bool, rows: set<K>)
    requires StrictTotal(before)
    ensures exists r :: IsListing(before, rows, r)
  {
    if rows == {} {
      assert IsListing(before, rows, []);
    } else {
      var x :| x in rows;
      SortedExists(before, rows - {x});
      var rest :| IsListing(before, rows - {x}, rest);
      assert x !in Elements(rest);
      assert IsListing(before, rows, Insert(before, x, rest));
    }
  }

  ghost predicate IsListing<K>(before: (K, K) -> bool, rows: set<K>, r: seq<K>) {
    Ascending(before, r) && Elements(r) == rows && |r| == |rows|
  }

  ghost function Sorted<K(!new)>(before: (K, K) -> bool, rows: set<K>): (r: seq<K>)
    requires StrictTotal(before)
    ensures IsListing(before, rows, r)
  {
    SortedExists(before, rows);
    var r :| IsListing(before, rows, r);
    r
  }

  lemma {:induction false} AscendingIsUnique<K(!new)>(before: (K, K) -> bool, s: seq<K>, t: seq<K>)
    requires StrictTotal(before) && Ascending(before, s) && Ascending(before, t) && Elements(s) == Elements(t)
    ensures s == t
    decreases |s|
  {
    assert s != [] ==> s[0] in Elements(s);
    assert t != [] ==> t[0] in Elements(t);
    if s != [] {
      assert s[0] in Elements(t) && t[0] in Elements(s);
      assert s[0] == t[0];
      forall x ensures x in s[1..] <==> x in t[1..] {
        assert x in s[1..] <==> x in Elements(s) && x != s[0];
        assert x in t[1..] <==> x in Elements(t) && x != t[0];
      }
      AscendingIsUnique(before, s[1..], t[1..]);
    }
  }

  /** Cutting the ordered list at one of its rows is the same as filtering by the cursor predicate. */
  lemma CutAtRow<K(!new)>(before: (K, K) -> bool, rows: set<K>, n: nat)
    requires StrictTotal(before) && 0 < n <= |rows|
    ensures n <= |Sorted(before, rows)|
    ensures Sorted(before, After(before, rows, Sorted(before, rows)[n - 1])) == Sorted(before, rows)[n..]
  {
    var s := Sorted(before, rows);
    var cursor := s[n - 1];
    forall x ensures x in Elements(s[n..]) <==> x in After(before, rows, cursor) {
      if x in After(before, rows, cursor) {
        assert x in Elements(s);
        var k :| 0 <= k < |s| && s[k] == x;
        assert !(k < n - 1);
        assert k >= n;
        assert s[n..][k - n] == x;
      }
      if x in Elements(s[n..]) {
        assert x in Elements(s);
      }
    }
    AscendingIsUnique(before, Sorted(before, After(before, rows, cursor)), s[n..]);
  }

  lemma AfterIsTransitive<K(!new)>(before: (K, K) -> bool, rows: set<K>, cursor: K, row: K)
    requires StrictTotal(before) && before(cursor, row)
    ensures After(before, After(before, rows, cursor), row) == After(before, rows, row)
  {
    assert forall r :: r in rows ==> Via(cursor, row, r);
  }

  // ---------------------------------------------------------------------------------------
  // Traversals
  // ---------------------------------------------------------------------------------------

  /** The query asks for one row more than the page shows. */
  ghost function Fetch<K(!new)>(before: (K, K) -> bool, rows: set<K>, cursor: K, limit: nat): seq<K>
    requires StrictTotal(before)
  {
    Take(limit + 1, Sorted(before, After(before, rows, cursor)))
  }

  /** The pages handed out when the i-th fetch finds the table tables[i]. */
  ghost function Pages<K(!new)>(before: (K, K) -> bool, tables: seq<set<K>>, cursor: K, limit: nat): seq<seq<K>>
    requires StrictTotal(before) && limit > 0
  {
    if tables == [] then []
    else
      var results := Fetch(before, tables[0], cursor, limit);
      if |results| > limit
      then [results[..limit]] + Pages(before, tables[1..], results[limit - 1], limit)
      else [results]
  }

  /** The traversal reaches a page without a next token. */
  ghost predicate Completes<K(!new)>(before: (K, K) -> bool, tables: seq<set<K>>, cursor: K, limit: nat)
    requires StrictTotal(before) && limit > 0
  {
    tables != [] &&
    var results := Fetch(before, tables[0], cursor, limit);
    |results| <= limit || Completes(before, tables[1..], results[limit - 1], limit)
  }

  function Flatten<K>(pages: seq<seq<K>>): seq<K> {
    if pages == [] then [] else pages[0] + Flatten(pages[1..])
  }

  lemma FetchFacts<K(!new)>(before: (K, K) -> bool, rows: set<K>, cursor: K, limit: nat)
    requires StrictTotal(before)
    ensures var results := Fetch(before, rows, cursor, limit);
            && Ascending(before, results)
            && (forall x :: x in results ==> x in rows && before(cursor, x))
            && (|results| <= limit ==> Elements(results) == After(before, rows, cursor))
  {
    var s := Sorted(before, After(before, rows, cursor));
    var results := Fetch(before, rows, cursor, limit);
    forall x | x in results ensures x in rows && before(cursor, x) {
      assert x in s;
      assert x in Elements(s);
    }
  }

  /** Every row of page i was in the table of fetch i. */
  lemma {:induction false} PageRowsExist<K(!new)>(before: (K, K) -> bool, tables: seq<set<K>>, cursor: K, limit: nat, i: nat)
    requires StrictTotal(before) && limit > 0 && i < |Pages(before, tables, cursor, limit)|
    ensures i < |tables|
    ensures forall x :: x in Pages(before, tables, cursor, limit)[i] ==> x in tables[i]
    decreases |tables|
  {
    FetchFacts(before, tables[0], cursor, limit);
    var results := Fetch(before, tables[0], cursor, limit);
    if i > 0 {
      PageRowsExist(before, tables[1..], results[limit - 1], limit, i - 1);
    }
  }

  lemma ConcatAscends<K(!new)>(before: (K, K) -> bool, a: seq<K>, b: seq<K>)
    requires StrictTotal(before) && Ascending(before, a) && Ascending(before, b) && a != []
    requires forall x :: x in b ==> before(a[|a| - 1], x)
    ensures Ascending(before, a + b)
  {
    forall i, j | 0 <= i < j < |a + b| ensures before((a + b)[i], (a + b)[j]) {
      if i < |a| <= j {
        assert b[j - |a|] in b;
        assert Via(a[i], a[|a| - 1], b[j - |a|]);
      }
    }
  }

  lemma FlattenCons<K>(page: seq<K>, rest: seq<seq<K>>)
    ensures Flatten([page] + rest) == page + Flatten(rest)
  {
    assert ([page] + rest)[1..] == rest;
  }

  /**
   However the table changes between fetches, the rows handed out are strictly ascending in the
   declared order and lie after the starting cursor; so no row is handed out twice.
   */
  lemma {:induction false} TraversalAscends<K(!new)>(before: (K, K) -> bool, tables: seq<set<K>>, cursor: K, limit: nat)
    requires StrictTotal(before) && limit > 0
    ensures Ascending(before, Flatten(Pages(before, tables, cursor, limit)))
    ensures forall x :: x in Flatten(Pages(before, tables, cursor, limit)) ==> before(cursor, x)
    decreases |tables|
  {
    if tables != [] {
      var results := Fetch(before, tables[0], cursor, limit);
      FetchFacts(before, tables[0], cursor, limit);
      if |results| > limit {
        var page, last := results[..limit], results[limit - 1];
        TraversalAscends(before, tables[1..], last, limit);
        var rest := Flatten(Pages(before, tables[1..], last, limit));
        FlattenCons(page, Pages(before, tables[1..], last, limit));
        ConcatAscends(before, page, rest);
        assert last in results;
        assert forall x :: x in rest ==> Via(cursor, last, x);
      } else {
        FlattenCons(results, []);
      }
    }
  }

  lemma AscendingNeverRepeats<K(!new)>(before: (K, K) -> bool, s: seq<K>)
    requires StrictTotal(before) && Ascending(before, s)
    ensures forall i, j :: 0 <= i < j < |s| ==> s[i] != s[j]
  {
  }

  /** A completed traversal hands out every row that was present at each of its fetches. */
  lemma {:induction false} StableRowIsReturned<K(!new)>(before: (K, K) -> bool, tables: seq<set<K>>, cursor: K, limit: nat, row: K)
    requires StrictTotal(before) && limit > 0
    requires Completes(before, tables, cursor, limit) && before(cursor, row)
    requires forall i :: 0 <= i < |Pages(before, tables, cursor, limit)| && i < |tables| ==> row in tables[i]
    ensures row in Flatten(Pages(before, tables, cursor, limit))
    decreases |tables|
  {
    var results := Fetch(before, tables[0], cursor, limit);
    var pages := Pages(before, tables, cursor, limit);
    FetchFacts(before, tables[0], cursor, limit);
    assert row in After(before, tables[0], cursor);
    if |results| > limit {
      var page, last := results[..limit], results[limit - 1];
      var rest := Pages(before, tables[1..], last, limit);
      assert pages == [page] + rest && pages[1..] == rest;
      if before(last, row) {
        forall i | 0 <= i < |rest| && i < |tables[1..]| ensures row in tables[1..][i] {
          assert row in tables[i + 1];
        }
        StableRowIsReturned(before, tables[1..], last, limit, row);
      } else {
        RowUpToCutIsFetched(before, tables[0], cursor, limit, row);
        assert row in page;
      }
    } else {
      assert pages[1..] == [];
      assert row in Elements(results);
    }
  }

  lemma RowUpToCutIsFetched<K(!new)>(before: (K, K) -> bool, rows: set<K>, cursor: K, limit: nat, row: K)
    requires StrictTotal(before) && limit > 0 && row in After(before, rows, cursor)
    requires |Fetch(before, rows, cursor, limit)| > limit
    requires !before(Fetch(before, rows, cursor, limit)[limit - 1], row)
    ensures row in Fetch(before, rows, cursor, limit)[..limit]
  {
    var s := Sorted(before, After(before, rows, cursor));
    assert row in Elements(s);
    var k :| 0 <= k < |s| && s[k] == row;
    assert k < limit;
    assert Fetch(before, rows, cursor, limit)[..limit][k] == row;
  }

  /** The two halves together: exactly once, for every row present throughout. */
  lemma StableRowExactlyOnce<K(!new)>(before: (K, K) -> bool, tables: seq<set<K>>, cursor: K, limit: nat, row: K)
    requires StrictTotal(before) && limit > 0
    requires Completes(before, tables, cursor, limit) && before(cursor, row)
    requires forall i :: 0 <= i < |tables| ==> row in tables[i]
    ensures var all := Flatten(Pages(before, tables, cursor, limit));
            exists k :: 0 <= k < |all| && all[k] == row && forall j :: 0 <= j < |all| && j != k ==> all[j] != row
  {
    var all := Flatten(Pages(before, tables, cursor, limit));
    TraversalAscends(before, tables, cursor, limit);
    StableRowIsReturned(before, tables, cursor, limit, row);
    AscendingNeverRepeats(before, all);
    var k :| 0 <= k < |all| && all[k] == row;
  }

  // ---------------------------------------------------------------------------------------
  // A table that does not change
  // ---------------------------------------------------------------------------------------

  ghost predicate AllEqual<K>(tables: seq<set<K>>, rows: set<K>) {
    forall i :: 0 <= i < |tables| ==> tables[i] == rows
  }

  lemma FixedStep<K(!new)>(before: (K, K) -> bool, rows: set<K>, cursor: K, limit: nat)
    requires StrictTotal(before) && limit > 0 && |Fetch(before, rows, cursor, limit)| > limit
    ensures var results, s := Fetch(before, rows, cursor, limit), Sorted(before, After(before, rows, cursor));
            && limit <= |s|
            && results[..limit] == s[..limit]
            && Sorted(before, After(before, rows, results[limit - 1])) == s[limit..]
            && |After(before, rows, results[limit - 1])| == |After(before, rows, cursor)| - limit
  {
    var left := After(before, rows, cursor);
    var s := Sorted(before, left);
    CutAtRow(before, left, limit);
    assert s[limit - 1] in Elements(s);
    AfterIsTransitive(before, rows, cursor, s[limit - 1]);
  }

  lemma OneFetchLess(fetches: nat, limit: nat)
    requires fetches > 0
    ensures (fetches - 1) * limit == fetches * limit - limit
  {
  }

  /** On a fixed table the pages are the whole ordered list, once there are enough fetches for its rows. */
  lemma {:induction false} PagesAreTheWholeList<K(!new)>(before: (K, K) -> bool, tables: seq<set<K>>, rows: set<K>, cursor: K, limit: nat)
    requires StrictTotal(before) && limit > 0 && AllEqual(tables, rows)
    requires tables != [] && |After(before, rows, cursor)| <= |tables| * limit
    ensures Completes(before, tables, cursor, limit)
    ensures Flatten(Pages(before, tables, cursor, limit)) == Sorted(before, After(before, rows, cursor))
    decreases |tables|
  {
    var results := Fetch(before, tables[0], cursor, limit);
    if |results| > limit {
      var page, last := results[..limit], results[limit - 1];
      FixedStep(before, rows, cursor, limit);
      OneFetchLess(|tables|, limit);
      PagesAreTheWholeList(before, tables[1..], rows, last, limit);
      FlattenCons(page, Pages(before, tables[1..], last, limit));
    } else {
      FlattenCons(results, []);
    }
  }
}
