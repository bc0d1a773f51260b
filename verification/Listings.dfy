/**
 The cursor-paged listings: team builds and their filtered variants, a template's builds, team
 templates.  Each SQL cursor predicate is shown to be the order it is paged by, and the paging
 theorems are then about the queries themselves.
 */
module Listings {
  import opened Keyset
  import opened UuidText

  datatype Key<I> = Key(at: int, id: I)

  /** The SQL row comparison (x1, y1) < (x2, y2). */
  predicate RowLess<I>(less: (I, I) -> bool, x1: int, y1: I, x2: int, y2: I) {
    x1 < x2 || (x1 == x2 && less(y1, y2))
  }

  /** ORDER BY at DESC, id DESC. */
  function NewestFirst<I>(less: (I, I) -> bool): (Key<I>, Key<I>) -> bool {
    (a: Key<I>, b: Key<I>) => RowLess(less, b.at, b.id, a.at, a.id)
  }

  /** ORDER BY at DESC, id ASC. */
  function NewestThenIdAscending<I>(less: (I, I) -> bool): (Key<I>, Key<I>) -> bool {
    (a: Key<I>, b: Key<I>) => a.at > b.at || (a.at == b.at && less(a.id, b.id))
  }

  lemma OrdersAreStrictTotal<I(!new)>(less: (I, I) -> bool)
    requires StrictTotal(less)
    ensures StrictTotal(NewestFirst(less)) && StrictTotal(NewestThenIdAscending(less))
  {
    var n, m := NewestFirst(less), NewestThenIdAscending(less);
    forall a, b ensures (n(a, b) ==> !n(b, a)) && (a == b || n(a, b) || n(b, a)) {
      assert a.id == b.id || less(a.id, b.id) || less(b.id, a.id);
    }
    forall a, b ensures (m(a, b) ==> !m(b, a)) && (a == b || m(a, b) || m(b, a)) {
      assert a.id == b.id || less(a.id, b.id) || less(b.id, a.id);
    }
    forall a, b, c | n(a, b) && n(b, c) ensures n(a, c) {
      assert Via(c.id, b.id, a.id);
    }
    forall a, b, c | m(a, b) && m(b, c) ensures m(a, c) {
      assert Via(a.id, b.id, c.id);
    }
  }

  function UuidLess(): (Uuid, Uuid) -> bool {
    (a: Uuid, b: Uuid) => LexLess(ByteLess(), a, b)
  }

  function TextLess(): (string, string) -> bool {
    LexOrder(CharLess())
  }

  lemma UuidOrder()
    ensures StrictTotal(UuidLess())
  {
    BaseOrders();
    LexIsStrictTotal(ByteLess());
    var lex := LexOrder(ByteLess());
    forall a: Uuid, b: Uuid ensures UuidLess()(a, b) == lex(a, b) {
    }
    forall a: Uuid, b: Uuid, c: Uuid | UuidLess()(a, b) && UuidLess()(b, c) ensures UuidLess()(a, c) {
      LexTransitive(ByteLess(), a, b, c);
    }
  }

  lemma IdOrders()
    ensures StrictTotal(UuidLess()) && StrictTotal(TextLess())
    ensures StrictTotal(NewestFirst(UuidLess())) && StrictTotal(NewestFirst(TextLess()))
    ensures StrictTotal(NewestThenIdAscending(TextLess()))
  {
    BaseOrders();
    LexIsStrictTotal(CharLess());
    UuidOrder();
    OrdersAreStrictTotal(UuidLess());
    OrdersAreStrictTotal(TextLess());
  }

  // ---------------------------------------------------------------------------------------
  // Pages produced by a query
  // ---------------------------------------------------------------------------------------

  /** What a client collects by following next tokens, each fetch asking for limit + 1 rows. */
  ghost function QueryPages<D(!new), K(!new)>(query: (D, K, nat) -> seq<K>, dbs: seq<D>, cursor: K, limit: nat): seq<seq<K>>
    requires limit > 0
    decreases |dbs|
  {
    if dbs == [] then []
    else
      var results := query(dbs[0], cursor, limit + 1);
      if |results| > limit
      then [results[..limit]] + QueryPages(query, dbs[1..], results[limit - 1], limit)
      else [results]
  }

  ghost function Selections<D(!new), K(!new)>(select: D -> set<K>, dbs: seq<D>): (r: seq<set<K>>)
    ensures |r| == |dbs| && forall i :: 0 <= i < |dbs| ==> r[i] == select(dbs[i])
  {
    seq(|dbs|, i requires 0 <= i < |dbs| => select(dbs[i]))
  }

  /** The query cuts its selection by the order it lists in. */
  ghost predicate Cuts<D(!new), K(!new)>(query: (D, K, nat) -> seq<K>, select: D -> set<K>, before: (K, K) -> bool)
    requires StrictTotal(before)
  {
    forall db, cursor, n :: query(db, cursor, n) == Take(n, Sorted(before, After(before, select(db), cursor)))
  }

  lemma {:induction false} QueryPagesArePages<D(!new), K(!new)>(
      query: (D, K, nat) -> seq<K>, select: D -> set<K>, before: (K, K) -> bool, dbs: seq<D>, cursor: K, limit: nat)
    requires StrictTotal(before) && limit > 0 && Cuts(query, select, before)
    ensures QueryPages(query, dbs, cursor, limit) == Pages(before, Selections(select, dbs), cursor, limit)
    decreases |dbs|
  {
    if dbs != [] {
      var results := query(dbs[0], cursor, limit + 1);
      assert results == Fetch(before, Selections(select, dbs)[0], cursor, limit);
      assert Selections(select, dbs)[1..] == Selections(select, dbs[1..]);
      if |results| > limit {
        QueryPagesArePages(query, select, before, dbs[1..], results[limit - 1], limit);
      }
    }
  }

  /**
   For a query that cuts by its order, whatever happens to the database between fetches: no row
   is collected twice, and a row selected at every fetch is collected if the traversal completes.
   */
  lemma ListingIsSound<D(!new), K(!new)>(
      query: (D, K, nat) -> seq<K>, select: D -> set<K>, before: (K, K) -> bool, dbs: seq<D>, cursor: K, limit: nat)
    requires StrictTotal(before) && limit > 0 && Cuts(query, select, before)
    ensures var all := Flatten(QueryPages(query, dbs, cursor, limit));
            && (forall i, j :: 0 <= i < j < |all| ==> before(all[i], all[j]) && all[i] != all[j])
            && (Completes(before, Selections(select, dbs), cursor, limit) ==>
                  forall row :: before(cursor, row) && (forall i :: 0 <= i < |dbs| ==> row in select(dbs[i])) ==> row in all)
  {
    var all := Flatten(QueryPages(query, dbs, cursor, limit));
    QueryPagesArePages(query, select, before, dbs, cursor, limit);
    TraversalAscends(before, Selections(select, dbs), cursor, limit);
    AscendingNeverRepeats(before, all);
    if Completes(before, Selections(select, dbs), cursor, limit) {
      forall row | before(cursor, row) && forall i :: 0 <= i < |dbs| ==> row in select(dbs[i]) ensures row in all {
        StableRowIsReturned(before, Selections(select, dbs), cursor, limit, row);
      }
    }
  }

  /** On a database that does not change, the pages are exactly the selection in the declared order. */
  lemma ListingIsComplete<D(!new), K(!new)>(
      query: (D, K, nat) -> seq<K>, select: D -> set<K>, before: (K, K) -> bool, db: D, dbs: seq<D>, cursor: K, limit: nat)
    requires StrictTotal(before) && limit > 0 && Cuts(query, select, before)
    requires dbs != [] && forall i :: 0 <= i < |dbs| ==> dbs[i] == db
    requires |After(before, select(db), cursor)| <= |dbs| * limit
    ensures Completes(before, Selections(select, dbs), cursor, limit)
    ensures Flatten(QueryPages(query, dbs, cursor, limit)) == Sorted(before, After(before, select(db), cursor))
  {
    QueryPagesArePages(query, select, before, dbs, cursor, limit);
    PagesAreTheWholeList(before, Selections(select, dbs), select(db), cursor, limit);
  }

  // ---------------------------------------------------------------------------------------
  // Builds
  // ---------------------------------------------------------------------------------------

  type BuildKey = Key<Uuid>

  datatype BuildRow = BuildRow(createdAt: int, team: string, statusGroup: string)

  datatype BuildAssignment = BuildAssignment(build: Uuid, env: string, tag: string)

  datatype BuildDb = BuildDb(
    builds: map<Uuid, BuildRow>,
    assignments: seq<BuildAssignment>, // the rows, in any order; one build may be assigned under several tags
    activeEnvs: set<string>,
    aliases: set<(string, string)>) // (alias, env)

  // GetTeamBuildsPage and its ByBuildID, ByTemplateID and ByTemplateAlias variants.
  datatype BuildFilter = AllBuilds | OneBuild(build: Uuid) | OfTemplate(env: string) | OfAlias(alias: string)

  datatype TeamBuilds = TeamBuilds(team: string, statuses: seq<string>, filter: BuildFilter)

  predicate FilterKeeps(db: BuildDb, f: BuildFilter, b: Uuid, env: string) {
    match f
    case AllBuilds => true
    case OneBuild(build) => b == build
    case OfTemplate(e) => env == e
    case OfAlias(alias) => (alias, env) in db.aliases
  }

  predicate IsListed(db: BuildDb, q: TeamBuilds, b: Uuid) {
    && b in db.builds
    && db.builds[b].team == q.team
    && db.builds[b].statusGroup in q.statuses
    && exists a | a in db.assignments :: a.build == b && a.env in db.activeEnvs && FilterKeeps(db, q.filter, b, a.env)
  }

  function TeamBuildKeys(q: TeamBuilds): BuildDb -> set<BuildKey> {
    (db: BuildDb) => set b | b in db.builds && IsListed(db, q, b) :: Key(db.builds[b].createdAt, b)
  }

  /** WHERE (created_at, id) < cursor ORDER BY created_at DESC, id DESC LIMIT n. */
  ghost function GetTeamBuildsPage(q: TeamBuilds): (BuildDb, BuildKey, nat) -> seq<BuildKey> {
    IdOrders();
    (db: BuildDb, cursor: BuildKey, n: nat) =>
      Take(n, Sorted(NewestFirst(UuidLess()),
                     set r | r in TeamBuildKeys(q)(db) && RowLess(UuidLess(), r.at, r.id, cursor.at, cursor.id)))
  }

  lemma TeamBuildsCut(q: TeamBuilds)
    ensures StrictTotal(NewestFirst(UuidLess()))
    ensures Cuts(GetTeamBuildsPage(q), TeamBuildKeys(q), NewestFirst(UuidLess()))
  {
    IdOrders();
    forall db: BuildDb, cursor: BuildKey
      ensures (set r | r in TeamBuildKeys(q)(db) && RowLess(UuidLess(), r.at, r.id, cursor.at, cursor.id))
              == After(NewestFirst(UuidLess()), TeamBuildKeys(q)(db), cursor)
    {
    }
  }

  /** All four variants: a build that keeps matching, with its creation time, is listed exactly once. */
  lemma TeamBuildsListing(q: TeamBuilds, dbs: seq<BuildDb>, cursor: BuildKey, limit: nat, b: Uuid, at: int)
    requires limit > 0 && StrictTotal(NewestFirst(UuidLess()))
    requires Completes(NewestFirst(UuidLess()), Selections(TeamBuildKeys(q), dbs), cursor, limit)
    requires RowLess(UuidLess(), at, b, cursor.at, cursor.id)
    requires forall i :: 0 <= i < |dbs| ==> IsListed(dbs[i], q, b) && dbs[i].builds[b].createdAt == at
    ensures var all := Flatten(QueryPages(GetTeamBuildsPage(q), dbs, cursor, limit));
            && Key(at, b) in all
            && forall i, j :: 0 <= i < j < |all| ==> all[i] != all[j]
  {
    TeamBuildsCut(q);
    ListingIsSound(GetTeamBuildsPage(q), TeamBuildKeys(q), NewestFirst(UuidLess()), dbs, cursor, limit);
    assert NewestFirst(UuidLess())(cursor, Key(at, b));
    forall i | 0 <= i < |dbs| ensures Key(at, b) in TeamBuildKeys(q)(dbs[i]) {
      assert IsListed(dbs[i], q, b);
    }
  }

  /** Newest first and, within an instant, the greater id first. */
  ghost predicate IsNewestFirst(rows: seq<BuildKey>) {
    forall i, j :: 0 <= i < j < |rows| ==>
      rows[i].at > rows[j].at || (rows[i].at == rows[j].at && LexLess(ByteLess(), rows[j].id, rows[i].id))
  }

  predicate IsOlderThan(k: BuildKey, cursor: BuildKey) {
    k.at < cursor.at || (k.at == cursor.at && LexLess(ByteLess(), k.id, cursor.id))
  }

  /** A row of the assignments table that lets build b through the filter. */
  ghost predicate IsAssignedFor(db: BuildDb, filter: BuildFilter, b: Uuid, a: BuildAssignment) {
    && a in db.assignments && a.build == b && a.env in db.activeEnvs
    && (filter.OneBuild? ==> b == filter.build)
    && (filter.OfTemplate? ==> a.env == filter.env)
    && (filter.OfAlias? ==> exists owned :: owned in db.aliases && owned.0 == filter.alias && owned.1 == a.env)
  }

  /**
   On a fixed database the pages of each of the four queries list, newest first, exactly the builds of
   the team past the cursor that have a wanted status and an assignment to an active template: any
   template, any template for the wanted build, the wanted template, one owning the wanted alias.
   */
  lemma TeamBuildsAreExactly(q: TeamBuilds, db: BuildDb, dbs: seq<BuildDb>, cursor: BuildKey, limit: nat)
    requires limit > 0 && dbs != [] && forall i :: 0 <= i < |dbs| ==> dbs[i] == db
    requires |db.builds| <= |dbs| * limit
    ensures var all := Flatten(QueryPages(GetTeamBuildsPage(q), dbs, cursor, limit));
            && IsNewestFirst(all)
            && (forall k :: k in all <==>
                  && IsOlderThan(k, cursor)
                  && k.id in db.builds && db.builds[k.id].createdAt == k.at
                  && db.builds[k.id].team == q.team && db.builds[k.id].statusGroup in q.statuses
                  && exists a :: IsAssignedFor(db, q.filter, k.id, a))
  {
    TeamBuildsCut(q);
    var before := NewestFirst(UuidLess());
    TeamBuildKeysAreFew(q, db, cursor);
    ListingIsComplete(GetTeamBuildsPage(q), TeamBuildKeys(q), before, db, dbs, cursor, limit);
    var all := Flatten(QueryPages(GetTeamBuildsPage(q), dbs, cursor, limit));
    forall i, j | 0 <= i < j < |all| ensures before(all[i], all[j]) {
    }
    forall k: BuildKey {:trigger k in all}
      ensures k in all <==>
              && IsOlderThan(k, cursor)
              && k.id in db.builds && db.builds[k.id].createdAt == k.at
              && db.builds[k.id].team == q.team && db.builds[k.id].statusGroup in q.statuses
              && exists a :: IsAssignedFor(db, q.filter, k.id, a)
    {
      assert k in all <==> k in Elements(all);
      InTeamBuilds(q, db, k);
    }
  }

  lemma InTeamBuilds(q: TeamBuilds, db: BuildDb, k: BuildKey)
    ensures k in TeamBuildKeys(q)(db) <==>
            && k.id in db.builds && db.builds[k.id].createdAt == k.at
            && db.builds[k.id].team == q.team && db.builds[k.id].statusGroup in q.statuses
            && exists a :: IsAssignedFor(db, q.filter, k.id, a)
  {
    if k.id in db.builds && db.builds[k.id].createdAt == k.at {
      assert k == Key(db.builds[k.id].createdAt, k.id);
    }
    forall a: BuildAssignment
      ensures IsAssignedFor(db, q.filter, k.id, a)
              <==> a in db.assignments && a.build == k.id && a.env in db.activeEnvs && FilterKeeps(db, q.filter, k.id, a.env)
    {
      FilterMeans(db, q.filter, k.id, a.env);
    }
  }

  lemma FilterMeans(db: BuildDb, filter: BuildFilter, b: Uuid, env: string)
    ensures FilterKeeps(db, filter, b, env) <==>
            && (filter.OneBuild? ==> b == filter.build)
            && (filter.OfTemplate? ==> env == filter.env)
            && (filter.OfAlias? ==> exists owned :: owned in db.aliases && owned.0 == filter.alias && owned.1 == env)
  {
    if owned :| filter.OfAlias? && owned in db.aliases && owned.0 == filter.alias && owned.1 == env {
      assert owned == (filter.alias, env);
    }
    if filter.OfAlias? && (filter.alias, env) in db.aliases {
      var owned := (filter.alias, env);
      assert owned in db.aliases && owned.0 == filter.alias && owned.1 == env;
    }
  }

  lemma TeamBuildKeysAreFew(q: TeamBuilds, db: BuildDb, cursor: BuildKey)
    ensures |After(NewestFirst(UuidLess()), TeamBuildKeys(q)(db), cursor)| <= |db.builds|
  {
    var keys := After(NewestFirst(UuidLess()), TeamBuildKeys(q)(db), cursor);
    forall k | k in keys ensures k.id in db.builds && k == Key(db.builds[k.id].createdAt, k.id) {
      InTeamBuilds(q, db, k);
    }
    KeysAreFew(db.builds, keys);
  }

  lemma {:induction false} KeysAreFew(builds: map<Uuid, BuildRow>, keys: set<BuildKey>)
    requires forall k :: k in keys ==> k.id in builds && k == Key(builds[k.id].createdAt, k.id)
    ensures |keys| <= |builds|
    decreases |keys|
  {
    if keys != {} {
      var k :| k in keys;
      var rest := builds - {k.id};
      assert rest.Keys == builds.Keys - {k.id};
      KeysAreFew(rest, keys - {k});
    }
  }

  // GetTemplateBuilds: the join with the assignments, the cursor compared as text, DISTINCT, order, limit.

  /** The joined rows: one for every assignment of e, so a build comes once per tag it has. */
  function Joined(builds: map<Uuid, BuildRow>, rows: seq<BuildAssignment>, e: string): seq<BuildKey> {
    if rows == [] then []
    else
      var rest := Joined(builds, rows[1..], e);
      if rows[0].env == e && rows[0].build in builds then [Key(builds[rows[0].build].createdAt, rows[0].build)] + rest else rest
  }

  /** How a build's key is written into a next token and passed back to the query. */
  function TextKey(k: BuildKey): Key<string> {
    Key(k.at, Canonical(k.id))
  }

  /** (created_at, id::text) < (cursor time, cursor text). */
  predicate IsPastText(k: BuildKey, cursor: Key<string>) {
    RowLess(TextLess(), k.at, Canonical(k.id), cursor.at, cursor.id)
  }

  function BeforeTextCursor(rows: seq<BuildKey>, cursor: Key<string>): seq<BuildKey> {
    if rows == [] then []
    else
      var rest := BeforeTextCursor(rows[1..], cursor);
      if IsPastText(rows[0], cursor) then [rows[0]] + rest else rest
  }

  function TemplateBuildKeys(e: string): BuildDb -> set<BuildKey> {
    (db: BuildDb) => Elements(Joined(db.builds, db.assignments, e))
  }

  /** SELECT DISTINCT keeps each joined row once, whatever its multiplicity. */
  ghost function GetTemplateBuilds(e: string): (BuildDb, BuildKey, nat) -> seq<BuildKey> {
    IdOrders();
    (db: BuildDb, cursor: BuildKey, n: nat) =>
      Take(n, Sorted(NewestFirst(UuidLess()), Elements(BeforeTextCursor(Joined(db.builds, db.assignments, e), TextKey(cursor)))))
  }

  /** The text cursor cuts the UUID-ordered list at exactly the right place. */
  lemma {:induction false} TextCutIsUuidCut(rows: seq<BuildKey>, cursor: BuildKey)
    ensures Elements(BeforeTextCursor(rows, TextKey(cursor))) == After(NewestFirst(UuidLess()), Elements(rows), cursor)
    decreases |rows|
  {
    if rows != [] {
      var r := rows[0];
      TextCutIsUuidCut(rows[1..], cursor);
      PastTextIsAfter(r, cursor);
      ElementsCons(r, rows[1..]);
      ElementsCons(r, BeforeTextCursor(rows[1..], TextKey(cursor)));
      assert rows == [r] + rows[1..];
    }
  }

  lemma PastTextIsAfter(k: BuildKey, cursor: BuildKey)
    ensures IsPastText(k, TextKey(cursor)) <==> NewestFirst(UuidLess())(cursor, k)
  {
    TextOrderIsByteOrder(k.id, cursor.id);
  }

  lemma ElementsCons<K>(x: K, s: seq<K>)
    ensures Elements([x] + s) == {x} + Elements(s)
  {
  }

  lemma TemplateBuildsCut(e: string)
    ensures StrictTotal(NewestFirst(UuidLess()))
    ensures Cuts(GetTemplateBuilds(e), TemplateBuildKeys(e), NewestFirst(UuidLess()))
  {
    IdOrders();
    var query, select, before := GetTemplateBuilds(e), TemplateBuildKeys(e), NewestFirst(UuidLess());
    forall db: BuildDb, cursor: BuildKey, n: nat
      ensures query(db, cursor, n) == Take(n, Sorted(before, After(before, select(db), cursor)))
    {
      TextCutIsUuidCut(Joined(db.builds, db.assignments, e), cursor);
    }
  }

  /** The joined rows are the builds with an assignment of e, each under its creation time. */
  lemma {:induction false} JoinedHas(builds: map<Uuid, BuildRow>, rows: seq<BuildAssignment>, e: string, k: BuildKey)
    ensures k in Joined(builds, rows, e)
            <==> k.id in builds && builds[k.id].createdAt == k.at && exists a :: a in rows && a.env == e && a.build == k.id
    decreases |rows|
  {
    if rows != [] {
      JoinedHas(builds, rows[1..], e, k);
      assert rows == [rows[0]] + rows[1..];
    }
  }

  lemma BuildsOnce(builds: map<Uuid, BuildRow>, rows: seq<BuildAssignment>, e: string, s: seq<BuildKey>)
    requires StrictTotal(NewestFirst(UuidLess())) && Ascending(NewestFirst(UuidLess()), s)
    requires forall k :: k in s ==> k in Joined(builds, rows, e)
    ensures forall i, j :: 0 <= i < j < |s| ==> s[i].id != s[j].id
  {
    forall i, j | 0 <= i < j < |s| ensures s[i].id != s[j].id {
      JoinedHas(builds, rows, e, s[i]);
      JoinedHas(builds, rows, e, s[j]);
      assert NewestFirst(UuidLess())(s[i], s[j]);
    }
  }

  /** The pages list exactly the builds assigned to the template, each once and newest first, however many tags each has. */
  lemma TemplateBuildsListing(e: string, db: BuildDb, dbs: seq<BuildDb>, cursor: BuildKey, limit: nat)
    requires limit > 0 && dbs != [] && forall i :: 0 <= i < |dbs| ==> dbs[i] == db
    requires StrictTotal(NewestFirst(UuidLess()))
    requires |After(NewestFirst(UuidLess()), TemplateBuildKeys(e)(db), cursor)| <= |dbs| * limit
    ensures var all := Flatten(QueryPages(GetTemplateBuilds(e), dbs, cursor, limit));
            && IsNewestFirst(all)
            && (forall i, j :: 0 <= i < j < |all| ==> all[i].id != all[j].id)
            && (forall k :: k in all <==>
                  && IsOlderThan(k, cursor) && k.id in db.builds && db.builds[k.id].createdAt == k.at
                  && exists a :: a in db.assignments && a.env == e && a.build == k.id)
  {
    TemplateBuildsCut(e);
    ListingIsComplete(GetTemplateBuilds(e), TemplateBuildKeys(e), NewestFirst(UuidLess()), db, dbs, cursor, limit);
    var all := Flatten(QueryPages(GetTemplateBuilds(e), dbs, cursor, limit));
    var joined := Joined(db.builds, db.assignments, e);
    forall k ensures k in all <==> NewestFirst(UuidLess())(cursor, k) && k in joined {
      assert k in all <==> k in Elements(all);
      assert k in joined <==> k in Elements(joined);
    }
    forall k: BuildKey {:trigger k in all} ensures k in joined <==>
        && k.id in db.builds && db.builds[k.id].createdAt == k.at
        && exists a :: a in db.assignments && a.env == e && a.build == k.id
    {
      JoinedHas(db.builds, db.assignments, e, k);
    }
    BuildsOnce(db.builds, db.assignments, e, all);
    forall i, j | 0 <= i < j < |all| ensures NewestFirst(UuidLess())(all[i], all[j]) {
    }
  }

  /** While the database changes: a build that keeps an assignment of the template is listed, and none twice. */
  lemma TemplateBuildsStay(e: string, dbs: seq<BuildDb>, cursor: BuildKey, limit: nat, b: Uuid, at: int)
    requires limit > 0 && StrictTotal(NewestFirst(UuidLess()))
    requires Completes(NewestFirst(UuidLess()), Selections(TemplateBuildKeys(e), dbs), cursor, limit)
    requires NewestFirst(UuidLess())(cursor, Key(at, b))
    requires forall i :: 0 <= i < |dbs| ==> b in dbs[i].builds && dbs[i].builds[b].createdAt == at
                                            && exists a :: a in dbs[i].assignments && a.env == e && a.build == b
    ensures var all := Flatten(QueryPages(GetTemplateBuilds(e), dbs, cursor, limit));
            Key(at, b) in all && forall i, j :: 0 <= i < j < |all| ==> all[i] != all[j]
  {
    TemplateBuildsCut(e);
    ListingIsSound(GetTemplateBuilds(e), TemplateBuildKeys(e), NewestFirst(UuidLess()), dbs, cursor, limit);
    forall i | 0 <= i < |dbs| ensures Key(at, b) in TemplateBuildKeys(e)(dbs[i]) {
      JoinedHas(dbs[i].builds, dbs[i].assignments, e, Key(at, b));
    }
  }

  // The query as the endpoint calls it: the cursor is any text, usually that of a build id.

  function TextKeys(rows: seq<BuildKey>): (r: seq<Key<string>>)
    ensures |r| == |rows| && forall i :: 0 <= i < |rows| ==> r[i] == TextKey(rows[i])
  {
    seq(|rows|, i requires 0 <= i < |rows| => TextKey(rows[i]))
  }

  function TemplateBuildTexts(e: string): BuildDb -> set<Key<string>> {
    (db: BuildDb) => Elements(TextKeys(Joined(db.builds, db.assignments, e)))
  }

  ghost function GetTemplateBuildsByText(e: string): (BuildDb, Key<string>, nat) -> seq<Key<string>> {
    IdOrders();
    (db: BuildDb, cursor: Key<string>, n: nat) =>
      TextKeys(Take(n, Sorted(NewestFirst(UuidLess()), Elements(BeforeTextCursor(Joined(db.builds, db.assignments, e), cursor)))))
  }

  lemma {:induction false} PastTextElements(rows: seq<BuildKey>, cursor: Key<string>, k: BuildKey)
    ensures k in BeforeTextCursor(rows, cursor) <==> k in rows && IsPastText(k, cursor)
    decreases |rows|
  {
    if rows != [] {
      PastTextElements(rows[1..], cursor, k);
      assert rows == [rows[0]] + rows[1..];
    }
  }

  lemma TextKeysAscend(rows: seq<BuildKey>)
    requires Ascending(NewestFirst(UuidLess()), rows)
    ensures Ascending(NewestFirst(TextLess()), TextKeys(rows))
  {
    forall i, j | 0 <= i < j < |rows| ensures NewestFirst(TextLess())(TextKeys(rows)[i], TextKeys(rows)[j]) {
      assert NewestFirst(UuidLess())(rows[i], rows[j]);
      TextOrderIsByteOrder(rows[j].id, rows[i].id);
    }
  }

  lemma InTextKeys(rows: seq<BuildKey>, x: Key<string>)
    ensures x in Elements(TextKeys(rows)) <==> exists k :: k in rows && TextKey(k) == x
  {
    if x in Elements(TextKeys(rows)) {
      var i :| 0 <= i < |rows| && TextKeys(rows)[i] == x;
      assert rows[i] in rows && TextKey(rows[i]) == x;
    }
    if k :| k in rows && TextKey(k) == x {
      var i :| 0 <= i < |rows| && rows[i] == k;
      assert TextKeys(rows)[i] == x;
    }
  }

  /** The text keys past the cursor are those of the rows past the cursor. */
  lemma PastTextKeys(rows: seq<BuildKey>, cursor: Key<string>, listed: seq<BuildKey>)
    requires Elements(listed) == Elements(BeforeTextCursor(rows, cursor))
    ensures Elements(TextKeys(listed)) == After(NewestFirst(TextLess()), Elements(TextKeys(rows)), cursor)
  {
    forall x ensures x in Elements(TextKeys(listed)) <==> x in After(NewestFirst(TextLess()), Elements(TextKeys(rows)), cursor) {
      InTextKeys(listed, x);
      InTextKeys(rows, x);
      forall k: BuildKey ensures k in listed <==> k in rows && IsPastText(k, cursor) {
        assert k in listed <==> k in Elements(listed);
        assert k in BeforeTextCursor(rows, cursor) <==> k in Elements(BeforeTextCursor(rows, cursor));
        PastTextElements(rows, cursor, k);
      }
    }
  }

  lemma TextBuildsCut(e: string)
    ensures StrictTotal(NewestFirst(TextLess()))
    ensures Cuts(GetTemplateBuildsByText(e), TemplateBuildTexts(e), NewestFirst(TextLess()))
  {
    IdOrders();
    forall db: BuildDb, cursor: Key<string>, n: nat
      ensures GetTemplateBuildsByText(e)(db, cursor, n)
              == Take(n, Sorted(NewestFirst(TextLess()), After(NewestFirst(TextLess()), TemplateBuildTexts(e)(db), cursor)))
    {
      TextCut(Joined(db.builds, db.assignments, e), cursor, n);
    }
  }

  lemma TextCut(joined: seq<BuildKey>, cursor: Key<string>, n: nat)
    requires StrictTotal(NewestFirst(UuidLess())) && StrictTotal(NewestFirst(TextLess()))
    ensures TextKeys(Take(n, Sorted(NewestFirst(UuidLess()), Elements(BeforeTextCursor(joined, cursor)))))
            == Take(n, Sorted(NewestFirst(TextLess()), After(NewestFirst(TextLess()), Elements(TextKeys(joined)), cursor)))
  {
    var listed := Sorted(NewestFirst(UuidLess()), Elements(BeforeTextCursor(joined, cursor)));
    TextKeysAscend(listed);
    PastTextKeys(joined, cursor, listed);
    AscendingIsUnique(NewestFirst(TextLess()), TextKeys(listed),
                      Sorted(NewestFirst(TextLess()), After(NewestFirst(TextLess()), Elements(TextKeys(joined)), cursor)));
    TakeTextKeys(n, listed);
  }

  lemma TakeTextKeys(n: nat, rows: seq<BuildKey>)
    ensures TextKeys(Take(n, rows)) == Take(n, TextKeys(rows))
  {
  }

  // What DISTINCT is for.

  /** r is the list in the declared order, rows with their multiplicity. */
  ghost predicate IsOrdering(list: seq<BuildKey>, r: seq<BuildKey>) {
    multiset(r) == multiset(list) && forall i, j :: 0 <= i < j < |r| ==> !NewestFirst(UuidLess())(r[j], r[i])
  }

  ghost predicate Repeats<K>(s: seq<K>) {
    exists i, j :: 0 <= i < j < |s| && s[i] == s[j]
  }

  ghost predicate CountedTwice<K(!new)>(m: multiset<K>) {
    exists x :: m[x] >= 2
  }

  lemma {:induction false} RepeatsIffCountedTwice<K(!new)>(s: seq<K>)
    ensures Repeats(s) <==> CountedTwice(multiset(s))
    decreases |s|
  {
    if s != [] {
      var x, rest := s[0], s[1..];
      assert s == [x] + rest;
      RepeatsIffCountedTwice(rest);
      RepeatsCons(x, rest);
      CountedTwiceCons(x, multiset(rest));
      assert multiset(s) == multiset{x} + multiset(rest);
    }
  }

  lemma CountedTwiceCons<K(!new)>(x: K, m: multiset<K>)
    ensures CountedTwice(multiset{x} + m) <==> x in m || CountedTwice(m)
  {
    var all := multiset{x} + m;
    if x in m {
      assert all[x] >= 2;
    }
    if y :| m[y] >= 2 {
      assert all[y] >= 2;
    }
    if y :| all[y] >= 2 {
      assert y == x || m[y] >= 2;
    }
  }

  /** Two assignments of one build to e, both past the cursor. */
  ghost predicate AssignedTwice(builds: map<Uuid, BuildRow>, rows: seq<BuildAssignment>, e: string, cursor: Key<string>) {
    exists i, j :: IsPair(builds, rows, e, cursor, i, j)
  }

  ghost predicate IsPair(builds: map<Uuid, BuildRow>, rows: seq<BuildAssignment>, e: string, cursor: Key<string>, i: int, j: int) {
    && 0 <= i < j < |rows| && rows[i].build == rows[j].build
    && IsRowPast(builds, rows[i], e, cursor) && IsRowPast(builds, rows[j], e, cursor)
  }

  ghost predicate IsRowPast(builds: map<Uuid, BuildRow>, a: BuildAssignment, e: string, cursor: Key<string>) {
    a.env == e && a.build in builds && IsPastText(Key(builds[a.build].createdAt, a.build), cursor)
  }

  lemma {:induction false} JoinedPast(builds: map<Uuid, BuildRow>, rows: seq<BuildAssignment>, e: string, cursor: Key<string>, b: Uuid)
    requires b in builds
    ensures Key(builds[b].createdAt, b) in BeforeTextCursor(Joined(builds, rows, e), cursor) <==> HasRowOf(builds, rows, e, cursor, b)
    decreases |rows|
  {
    if rows != [] {
      JoinedPast(builds, rows[1..], e, cursor, b);
      HasRowStep(builds, rows, e, cursor, b);
      JoinedStep(builds, rows, e, cursor);
    }
  }

  lemma HasRowStep(builds: map<Uuid, BuildRow>, rows: seq<BuildAssignment>, e: string, cursor: Key<string>, b: Uuid)
    requires rows != []
    ensures HasRowOf(builds, rows, e, cursor, b)
            <==> HasRowOf(builds, rows[1..], e, cursor, b) || (rows[0].build == b && IsRowPast(builds, rows[0], e, cursor))
  {
    var rest := rows[1..];
    if HasRowOf(builds, rows, e, cursor, b) {
      var i :| 0 <= i < |rows| && rows[i].build == b && IsRowPast(builds, rows[i], e, cursor);
      assert i > 0 ==> rest[i - 1] == rows[i];
    }
    if HasRowOf(builds, rest, e, cursor, b) {
      var i :| 0 <= i < |rest| && rest[i].build == b && IsRowPast(builds, rest[i], e, cursor);
      assert rows[i + 1] == rest[i];
    }
  }

  lemma JoinedStep(builds: map<Uuid, BuildRow>, rows: seq<BuildAssignment>, e: string, cursor: Key<string>)
    requires rows != []
    ensures BeforeTextCursor(Joined(builds, rows, e), cursor)
            == (if IsRowPast(builds, rows[0], e, cursor) then [Key(builds[rows[0].build].createdAt, rows[0].build)] else [])
               + BeforeTextCursor(Joined(builds, rows[1..], e), cursor)
  {
    if rows[0].env == e && rows[0].build in builds {
      var k := Key(builds[rows[0].build].createdAt, rows[0].build);
      assert Joined(builds, rows, e)[1..] == Joined(builds, rows[1..], e);
    }
  }

  lemma RepeatsCons<K>(x: K, s: seq<K>)
    ensures Repeats([x] + s) <==> x in s || Repeats(s)
  {
    var t := [x] + s;
    if Repeats(t) {
      var i, j :| 0 <= i < j < |t| && t[i] == t[j];
      assert i > 0 ==> s[i - 1] == s[j - 1];
      assert i == 0 ==> s[j - 1] == x;
    }
    if x in s {
      var j :| 0 <= j < |s| && s[j] == x;
      assert t[0] == t[j + 1];
    }
    if Repeats(s) {
      var i, j :| 0 <= i < j < |s| && s[i] == s[j];
      assert t[i + 1] == t[j + 1];
    }
  }

  lemma {:induction false} JoinRepeatsIff(builds: map<Uuid, BuildRow>, rows: seq<BuildAssignment>, e: string, cursor: Key<string>)
    ensures Repeats(BeforeTextCursor(Joined(builds, rows, e), cursor)) <==> AssignedTwice(builds, rows, e, cursor)
    decreases |rows|
  {
    if rows != [] {
      var rest, head := rows[1..], rows[0];
      JoinRepeatsIff(builds, rest, e, cursor);
      JoinedStep(builds, rows, e, cursor);
      TwiceStep(builds, rows, e, cursor);
      if IsRowPast(builds, head, e, cursor) {
        RepeatsCons(Key(builds[head.build].createdAt, head.build), BeforeTextCursor(Joined(builds, rest, e), cursor));
        JoinedPast(builds, rest, e, cursor, head.build);
      } else {
        assert [] + BeforeTextCursor(Joined(builds, rest, e), cursor) == BeforeTextCursor(Joined(builds, rest, e), cursor);
      }
    }
  }

  ghost predicate HasRowOf(builds: map<Uuid, BuildRow>, rows: seq<BuildAssignment>, e: string, cursor: Key<string>, b: Uuid) {
    exists i :: 0 <= i < |rows| && rows[i].build == b && IsRowPast(builds, rows[i], e, cursor)
  }

  lemma TwiceStep(builds: map<Uuid, BuildRow>, rows: seq<BuildAssignment>, e: string, cursor: Key<string>)
    requires rows != []
    ensures AssignedTwice(builds, rows, e, cursor)
            <==> || AssignedTwice(builds, rows[1..], e, cursor)
                 || (IsRowPast(builds, rows[0], e, cursor) && HasRowOf(builds, rows[1..], e, cursor, rows[0].build))
  {
    if AssignedTwice(builds, rows, e, cursor) {
      TwiceInTail(builds, rows, e, cursor);
    }
    if AssignedTwice(builds, rows[1..], e, cursor) {
      TwiceFromTail(builds, rows, e, cursor);
    }
    if IsRowPast(builds, rows[0], e, cursor) && HasRowOf(builds, rows[1..], e, cursor, rows[0].build) {
      var i :| 0 <= i < |rows[1..]| && rows[1..][i].build == rows[0].build && IsRowPast(builds, rows[1..][i], e, cursor);
      assert rows[i + 1] == rows[1..][i];
      assert IsPair(builds, rows, e, cursor, 0, i + 1);
    }
  }

  lemma TwiceInTail(builds: map<Uuid, BuildRow>, rows: seq<BuildAssignment>, e: string, cursor: Key<string>)
    requires rows != [] && AssignedTwice(builds, rows, e, cursor)
    ensures || AssignedTwice(builds, rows[1..], e, cursor)
            || (IsRowPast(builds, rows[0], e, cursor) && HasRowOf(builds, rows[1..], e, cursor, rows[0].build))
  {
    var rest := rows[1..];
    var i, j :| IsPair(builds, rows, e, cursor, i, j);
    assert rest[j - 1] == rows[j];
    if i > 0 {
      assert rest[i - 1] == rows[i];
      assert IsPair(builds, rest, e, cursor, i - 1, j - 1);
    }
  }

  lemma TwiceFromTail(builds: map<Uuid, BuildRow>, rows: seq<BuildAssignment>, e: string, cursor: Key<string>)
    requires rows != [] && AssignedTwice(builds, rows[1..], e, cursor)
    ensures AssignedTwice(builds, rows, e, cursor)
  {
    var rest := rows[1..];
    var i, j :| IsPair(builds, rest, e, cursor, i, j);
    assert rows[i + 1] == rest[i] && rows[j + 1] == rest[j];
    assert IsPair(builds, rows, e, cursor, i + 1, j + 1);
  }

  /** Without DISTINCT the ordered list repeats a build iff two rows past the cursor assign it to the template. */
  lemma WithoutDistinctRepeatsIff(db: BuildDb, e: string, cursor: Key<string>, r: seq<BuildKey>)
    requires IsOrdering(BeforeTextCursor(Joined(db.builds, db.assignments, e), cursor), r)
    ensures Repeats(r) <==> AssignedTwice(db.builds, db.assignments, e, cursor)
  {
    RepeatsIffCountedTwice(r);
    RepeatsIffCountedTwice(BeforeTextCursor(Joined(db.builds, db.assignments, e), cursor));
    JoinRepeatsIff(db.builds, db.assignments, e, cursor);
  }

  /** And a page does: a build under two tags fills the first page twice. */
  lemma WithoutDistinctPageRepeats(builds: map<Uuid, BuildRow>, a: BuildAssignment, o: BuildAssignment, e: string, cursor: Key<string>,
                                   limit: nat, r: seq<BuildKey>)
    requires limit >= 2 && a.build == o.build && a.tag != o.tag && IsRowPast(builds, a, e, cursor) && IsRowPast(builds, o, e, cursor)
    requires IsOrdering(BeforeTextCursor(Joined(builds, [a, o], e), cursor), r)
    ensures var k := Key(builds[a.build].createdAt, a.build); Take(limit, r) == [k, k]
  {
    var k := Key(builds[a.build].createdAt, a.build);
    JoinedTwice(builds, a, o, e, cursor);
    assert multiset([k, k]) == multiset{k, k};
    TwoCopies(r, k);
  }

  lemma JoinedTwice(builds: map<Uuid, BuildRow>, a: BuildAssignment, o: BuildAssignment, e: string, cursor: Key<string>)
    requires a.build == o.build && IsRowPast(builds, a, e, cursor) && IsRowPast(builds, o, e, cursor)
    ensures var k := Key(builds[a.build].createdAt, a.build);
            BeforeTextCursor(Joined(builds, [a, o], e), cursor) == [k, k]
  {
    JoinedStep(builds, [a, o], e, cursor);
    JoinedStep(builds, [o], e, cursor);
    assert [a, o][1..] == [o] && [o][1..] == [];
  }

  lemma TwoCopies<K>(r: seq<K>, k: K)
    requires multiset(r) == multiset{k, k}
    ensures r == [k, k]
  {
    assert |r| == |multiset(r)|;
    assert r[0] in multiset(r) && r[1] in multiset(r);
  }

  // ---------------------------------------------------------------------------------------
  // Team templates
  // ---------------------------------------------------------------------------------------

  type TemplateKey = Key<string>

  /** Rows of GetTeamTemplates: ORDER BY created_at ASC leaves ties in any order. */
  ghost predicate IsTeamTemplates(rows: set<TemplateKey>, u: seq<TemplateKey>) {
    && Elements(u) == rows && |u| == |rows|
    && forall i, j :: 0 <= i < j < |u| ==> u[i].at <= u[j].at
  }

  ghost function GetTeamTemplatesWithCursor(): (set<TemplateKey>, TemplateKey, nat) -> seq<TemplateKey> {
    IdOrders();
    (rows: set<TemplateKey>, cursor: TemplateKey, n: nat) =>
      Take(n, Sorted(NewestFirst(TextLess()),
                     set r | r in rows && RowLess(TextLess(), r.at, r.id, cursor.at, cursor.id)))
  }

  function AllRows(): set<TemplateKey> -> set<TemplateKey> {
    (rows: set<TemplateKey>) => rows
  }

  function Reverse<K>(s: seq<K>): (r: seq<K>)
    ensures |r| == |s| && forall i :: 0 <= i < |s| ==> r[i] == s[|s| - 1 - i]
  {
    seq(|s|, i requires 0 <= i < |s| => s[|s| - 1 - i])
  }

  lemma TeamTemplatesCut()
    ensures StrictTotal(NewestFirst(TextLess()))
    ensures Cuts(GetTeamTemplatesWithCursor(), AllRows(), NewestFirst(TextLess()))
  {
    IdOrders();
    forall rows: set<TemplateKey>, cursor: TemplateKey
      ensures (set r | r in rows && RowLess(TextLess(), r.at, r.id, cursor.at, cursor.id))
              == After(NewestFirst(TextLess()), rows, cursor)
    {
    }
  }

  /**
   The paged team listing against the unpaged one: the same templates, each once, and the exact
   reverse list when no two templates were created at the same instant.
   */
  lemma PagedTemplatesReverseUnpaged(rows: set<TemplateKey>, u: seq<TemplateKey>, dbs: seq<set<TemplateKey>>, cursor: TemplateKey, limit: nat)
    requires limit > 0 && dbs != [] && (forall i :: 0 <= i < |dbs| ==> dbs[i] == rows) && |rows| <= |dbs| * limit
    requires IsTeamTemplates(rows, u)
    requires forall r :: r in rows ==> RowLess(TextLess(), r.at, r.id, cursor.at, cursor.id)
    ensures var all := Flatten(QueryPages(GetTeamTemplatesWithCursor(), dbs, cursor, limit));
            && Elements(all) == Elements(u) && |all| == |u|
            && (DistinctTimes(rows) ==> all == Reverse(u))
  {
    TeamTemplatesCut();
    var before := NewestFirst(TextLess());
    assert After(before, rows, cursor) == rows;
    ListingIsComplete(GetTeamTemplatesWithCursor(), AllRows(), before, rows, dbs, cursor, limit);
    if DistinctTimes(rows) {
      ReverseIsNewestFirst(rows, u);
      AscendingIsUnique(before, Sorted(before, rows), Reverse(u));
    }
  }

  ghost predicate DistinctTimes(rows: set<TemplateKey>) {
    forall r, o :: r in rows && o in rows && r != o ==> r.at != o.at
  }

  lemma ReverseIsNewestFirst(rows: set<TemplateKey>, u: seq<TemplateKey>)
    requires IsTeamTemplates(rows, u) && DistinctTimes(rows)
    ensures Ascending(NewestFirst(TextLess()), Reverse(u)) && Elements(Reverse(u)) == rows
  {
    var r := Reverse(u);
    NoRepeats(u);
    forall i, j | 0 <= i < j < |r| ensures NewestFirst(TextLess())(r[i], r[j]) {
      assert u[|u| - 1 - i] in Elements(u) && u[|u| - 1 - j] in Elements(u);
    }
    forall x ensures x in Elements(r) <==> x in Elements(u) {
      if x in u {
        var i :| 0 <= i < |u| && u[i] == x;
        assert r[|u| - 1 - i] == x;
      }
    }
  }

  /** A list as long as its set of elements has no repeats. */
  lemma {:induction false} NoRepeats<K>(s: seq<K>)
    requires |s| == |Elements(s)|
    ensures forall i, j :: 0 <= i < j < |s| ==> s[i] != s[j]
  {
    if s != [] {
      assert Elements(s) == Elements(s[1..]) + {s[0]};
      ElementsAtMostLength(s[1..]);
      NoRepeats(s[1..]);
      forall j | 0 < j < |s| ensures s[0] != s[j] {
        assert s[j] == s[1..][j - 1] && s[1..][j - 1] in Elements(s[1..]);
      }
    }
  }

  lemma {:induction false} ElementsAtMostLength<K>(s: seq<K>)
    ensures |Elements(s)| <= |s|
  {
    if s != [] {
      assert Elements(s) == Elements(s[1..]) + {s[0]};
      ElementsAtMostLength(s[1..]);
    }
  }
}
