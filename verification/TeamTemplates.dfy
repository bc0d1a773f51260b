/**
 The full rows of the team template listings: the build and status each query chooses, so that the
 paged listing can be compared with the unpaged one; and the listing of snapshot templates.
 */
module TeamTemplates {
  import opened TemplateTables
  import opened Keyset
  import opened UuidText
  import opened Listings

  datatype TemplateEnv = TemplateEnv(createdAt: int, team: TeamId, source: EnvSource, deleted: bool)

  datatype TemplateDb = TemplateDb(
    envs: map<EnvId, TemplateEnv>,
    builds: map<BuildId, StatusGroup>,
    assignments: set<Assignment>,
    origins: map<EnvId, SandboxId>) // snapshot_templates

  datatype TemplateRow = TemplateRow(key: TemplateKey, build: Option<BuildId>, status: StatusGroup)

  predicate IsTeamTemplate(db: TemplateDb, team: TeamId, e: EnvId) {
    e in db.envs && !db.envs[e].deleted && db.envs[e].team == team && db.envs[e].source.TemplateSource?
  }

  function TeamTemplateKeys(db: TemplateDb, team: TeamId): set<TemplateKey> {
    set e | e in db.envs && IsTeamTemplate(db, team, e) :: Key(db.envs[e].createdAt, e)
  }

  /** The joined default assignments of e; with ready set, only those of ready builds. */
  function DefaultRows(db: TemplateDb, e: EnvId, ready: bool): set<Assignment> {
    set a | a in db.assignments && a.env == e && a.tag == DEFAULT_TAG && a.build in db.builds
            && (ready ==> db.builds[a.build].ReadyGroup?)
  }

  /** One row of either query: ORDER BY created_at DESC LIMIT 1 may pick any newest assignment. */
  ghost predicate IsRow(db: TemplateDb, row: TemplateRow) {
    var ready, all := DefaultRows(db, row.key.id, true), DefaultRows(db, row.key.id, false);
    && (if ready == {} then row.build == None
        else exists a :: a in ready && IsNewest(ready, a) && row.build == Some(a.build))
    && (if all == {} then row.status == PendingGroup
        else exists a :: a in all && IsNewest(all, a) && row.status == db.builds[a.build])
  }

  /** A default assignment of e, and whether its build is ready. */
  ghost predicate IsDefaultOf(db: TemplateDb, e: EnvId, a: Assignment) {
    a in db.assignments && a.env == e && a.tag == "default" && a.build in db.builds
  }

  ghost predicate IsReadyDefaultOf(db: TemplateDb, e: EnvId, a: Assignment) {
    IsDefaultOf(db, e, a) && db.builds[a.build] == ReadyGroup
  }

  /**
   What a row shows, on the tables: the build of a newest ready default assignment, none if there is no
   ready one; the status of the build of a newest default assignment, pending if there is none.
   */
  lemma RowShows(db: TemplateDb, row: TemplateRow)
    ensures IsRow(db, row) <==>
            && (row.build.None? ==> forall a :: !IsReadyDefaultOf(db, row.key.id, a))
            && (row.build.Some? ==>
                  exists a :: IsReadyDefaultOf(db, row.key.id, a) && a.build == row.build.value
                              && forall o :: IsReadyDefaultOf(db, row.key.id, o) ==> o.createdAt <= a.createdAt)
            && (if exists a :: IsDefaultOf(db, row.key.id, a)
                then exists a :: IsDefaultOf(db, row.key.id, a) && db.builds[a.build] == row.status
                                 && forall o :: IsDefaultOf(db, row.key.id, o) ==> o.createdAt <= a.createdAt
                else row.status == PendingGroup)
  {
    var e := row.key.id;
    var ready, all := DefaultRows(db, e, true), DefaultRows(db, e, false);
    forall a: Assignment ensures (a in ready <==> IsReadyDefaultOf(db, e, a)) && (a in all <==> IsDefaultOf(db, e, a)) {
    }
    forall a: Assignment
      ensures a in ready ==> (IsNewest(ready, a) <==> forall o :: IsReadyDefaultOf(db, e, o) ==> o.createdAt <= a.createdAt)
      ensures a in all ==> (IsNewest(all, a) <==> forall o :: IsDefaultOf(db, e, o) ==> o.createdAt <= a.createdAt)
    {
    }
  }

  /** The templates of both listings, on the tables. */
  lemma ListedTemplates(db: TemplateDb, team: TeamId, k: TemplateKey)
    ensures k in TeamTemplateKeys(db, team) <==>
            k.id in db.envs && db.envs[k.id] == TemplateEnv(k.at, team, TemplateSource, false)
  {
    if k.id in db.envs && db.envs[k.id].createdAt == k.at {
      assert k == Key(db.envs[k.id].createdAt, k.id);
    }
  }

  /** The newest ready default rows of e name one build, and its newest default rows have one status. */
  ghost predicate IsSettled(db: TemplateDb, e: EnvId) {
    OneBuild(DefaultRows(db, e, true)) && OneStatus(db, DefaultRows(db, e, false))
  }

  ghost predicate OneBuild(rows: set<Assignment>) {
    forall a, o :: a in rows && o in rows && IsNewest(rows, a) && IsNewest(rows, o) ==> a.build == o.build
  }

  ghost predicate OneStatus(db: TemplateDb, rows: set<Assignment>)
    requires forall a :: a in rows ==> a.build in db.builds
  {
    forall a, o :: a in rows && o in rows && IsNewest(rows, a) && IsNewest(rows, o) ==> db.builds[a.build] == db.builds[o.build]
  }

  lemma SettledRowIsDetermined(db: TemplateDb, r: TemplateRow, q: TemplateRow)
    requires IsSettled(db, r.key.id) && IsRow(db, r) && IsRow(db, q) && r.key == q.key
    ensures r == q
  {
    var ready, all := DefaultRows(db, r.key.id, true), DefaultRows(db, r.key.id, false);
    if ready != {} {
      var a :| a in ready && IsNewest(ready, a) && r.build == Some(a.build);
      var b :| b in ready && IsNewest(ready, b) && q.build == Some(b.build);
    }
    if all != {} {
      var a :| a in all && IsNewest(all, a) && r.status == db.builds[a.build];
      var b :| b in all && IsNewest(all, b) && q.status == db.builds[b.build];
    }
  }

  lemma RowExists(db: TemplateDb, key: TemplateKey)
    ensures exists r: TemplateRow :: r.key == key && IsRow(db, r)
  {
    var ready, all := DefaultRows(db, key.id, true), DefaultRows(db, key.id, false);
    var build, status := None, PendingGroup;
    if ready != {} {
      NewestExists(ready);
      var a :| a in ready && IsNewest(ready, a);
      build := Some(a.build);
    }
    if all != {} {
      NewestExists(all);
      var a :| a in all && IsNewest(all, a);
      status := db.builds[a.build];
    }
    assert IsRow(db, TemplateRow(key, build, status));
  }

  /** One of the rows the query may show for the key. */
  ghost function SomeRow(db: TemplateDb, key: TemplateKey): (r: TemplateRow)
    ensures r.key == key && IsRow(db, r)
  {
    RowExists(db, key);
    var r: TemplateRow :| r.key == key && IsRow(db, r);
    r
  }

  ghost predicate IsDetermined(db: TemplateDb, key: TemplateKey) {
    forall r, q :: IsRow(db, r) && IsRow(db, q) && r.key == key && q.key == key ==> r == q
  }

  lemma UnsettledRowDiffers(db: TemplateDb, key: TemplateKey) returns (r: TemplateRow, q: TemplateRow)
    requires !IsSettled(db, key.id)
    ensures IsRow(db, r) && IsRow(db, q) && r.key == key && q.key == key && r != q
  {
    var ready, all := DefaultRows(db, key.id, true), DefaultRows(db, key.id, false);
    var some := SomeRow(db, key);
    if !OneBuild(ready) {
      var a, o :| a in ready && o in ready && IsNewest(ready, a) && IsNewest(ready, o) && a.build != o.build;
      r, q := some.(build := Some(a.build)), some.(build := Some(o.build));
    } else {
      var a, o :| a in all && o in all && IsNewest(all, a) && IsNewest(all, o) && db.builds[a.build] != db.builds[o.build];
      r, q := some.(status := db.builds[a.build]), some.(status := db.builds[o.build]);
    }
  }

  /** The build and status a row shows are determined iff no tie among the newest rows leaves a choice. */
  lemma RowIsDeterminedIff(db: TemplateDb, key: TemplateKey)
    ensures IsDetermined(db, key) <==> IsSettled(db, key.id)
  {
    if IsSettled(db, key.id) {
      forall r, q | IsRow(db, r) && IsRow(db, q) && r.key == key && q.key == key ensures r == q {
        SettledRowIsDetermined(db, r, q);
      }
    } else {
      var r, q := UnsettledRowDiffers(db, key);
    }
  }

  /** A tied table: two ready builds assigned to the default tag at the same instant. */
  lemma TiedTableDisagrees() returns (db: TemplateDb, r: TemplateRow, q: TemplateRow)
    ensures !IsSettled(db, "t") && IsRow(db, r) && IsRow(db, q) && r.key == q.key && r.build == Some(0) && q.build == Some(1)
  {
    var a, o := Assignment(0, "t", 0, DEFAULT_TAG, 7), Assignment(1, "t", 1, DEFAULT_TAG, 7);
    db := TemplateDb(map["t" := TemplateEnv(0, "team", TemplateSource, false)], map[0 := ReadyGroup, 1 := ReadyGroup], {a, o}, map[]);
    var ready, all := DefaultRows(db, "t", true), DefaultRows(db, "t", false);
    assert ready == {a, o} && all == {a, o};
    assert IsNewest(ready, a) && IsNewest(ready, o) && a.build != o.build;
    r, q := TemplateRow(Key(0, "t"), Some(0), ReadyGroup), TemplateRow(Key(0, "t"), Some(1), ReadyGroup);
  }

  /** rows are the full rows for the listed keys. */
  ghost predicate AreRows(db: TemplateDb, keys: seq<TemplateKey>, rows: seq<TemplateRow>) {
    |rows| == |keys| && forall i :: 0 <= i < |keys| ==> rows[i].key == keys[i] && IsRow(db, rows[i])
  }

  ghost predicate AllSettled(db: TemplateDb, keys: seq<TemplateKey>) {
    forall i :: 0 <= i < |keys| ==> IsSettled(db, keys[i].id)
  }

  lemma SameKeysSameRows(db: TemplateDb, keys: seq<TemplateKey>, rows: seq<TemplateRow>, keys': seq<TemplateKey>, rows': seq<TemplateRow>)
    requires AllSettled(db, keys) && AreRows(db, keys, rows) && AreRows(db, keys', rows') && Elements(keys) <= Elements(keys')
    ensures Elements(rows) <= Elements(rows')
  {
    forall r | r in Elements(rows) ensures r in Elements(rows') {
      var i :| 0 <= i < |rows| && rows[i] == r;
      assert keys[i] in Elements(keys');
      var j :| 0 <= j < |keys'| && keys'[j] == keys[i];
      SettledRowIsDetermined(db, rows[i], rows'[j]);
      assert rows'[j] == r;
    }
  }

  /** The arguments both listings are about: enough fetches, and a cursor after every template of the team. */
  ghost predicate CoversTeam(db: TemplateDb, team: TeamId, fetches: nat, cursor: TemplateKey, limit: nat) {
    && limit > 0 && fetches > 0 && |TeamTemplateKeys(db, team)| <= fetches * limit
    && forall r :: r in TeamTemplateKeys(db, team) ==> RowLess(TextLess(), r.at, r.id, cursor.at, cursor.id)
  }

  ghost predicate TeamIsSettled(db: TemplateDb, team: TeamId) {
    forall k :: k in TeamTemplateKeys(db, team) ==> IsSettled(db, k.id)
  }

  lemma PagedKeysAre(db: TemplateDb, team: TeamId, u: seq<TemplateKey>, fetches: nat, cursor: TemplateKey, limit: nat)
    requires CoversTeam(db, team, fetches, cursor, limit) && IsTeamTemplates(TeamTemplateKeys(db, team), u)
    ensures var all := Flatten(PagedKeys(db, team, fetches, cursor, limit));
            && Elements(all) == Elements(u) == TeamTemplateKeys(db, team) && |all| == |u| == |TeamTemplateKeys(db, team)|
            && (DistinctTimes(TeamTemplateKeys(db, team)) ==> all == Reverse(u))
  {
    var rows := TeamTemplateKeys(db, team);
    PagedTemplatesReverseUnpaged(rows, u, seq(fetches, _ => rows), cursor, limit);
  }

  /**
   The concatenated pages of GetTeamTemplatesWithCursor and the list of GetTeamTemplates hold the
   same rows: the same templates with the same chosen builds and statuses; in exact reverse order
   when no two templates were created at the same instant.
   */
  lemma PagedRowsMatchUnpaged(db: TemplateDb, team: TeamId, unpaged: seq<TemplateRow>, u: seq<TemplateKey>,
                              paged: seq<TemplateRow>, fetches: nat, cursor: TemplateKey, limit: nat)
    requires TeamIsSettled(db, team) && CoversTeam(db, team, fetches, cursor, limit)
    requires IsTeamTemplates(TeamTemplateKeys(db, team), u) && AreRows(db, u, unpaged)
    requires AreRows(db, Flatten(PagedKeys(db, team, fetches, cursor, limit)), paged)
    ensures Elements(paged) == Elements(unpaged) && |paged| == |unpaged|
    ensures DistinctTimes(TeamTemplateKeys(db, team)) ==> paged == Reverse(unpaged)
  {
    var all := Flatten(PagedKeys(db, team, fetches, cursor, limit));
    PagedKeysAre(db, team, u, fetches, cursor, limit);
    forall i | 0 <= i < |all| ensures IsSettled(db, all[i].id) {
      assert all[i] in Elements(all);
    }
    forall i | 0 <= i < |u| ensures IsSettled(db, u[i].id) {
      assert u[i] in Elements(u);
    }
    SameKeysSameRows(db, all, paged, u, unpaged);
    SameKeysSameRows(db, u, unpaged, all, paged);
    if all == Reverse(u) {
      ReversedKeysReversedRows(db, u, unpaged, paged);
    }
  }

  lemma ReversedKeysReversedRows(db: TemplateDb, u: seq<TemplateKey>, unpaged: seq<TemplateRow>, paged: seq<TemplateRow>)
    requires AllSettled(db, u) && AreRows(db, u, unpaged) && AreRows(db, Reverse(u), paged)
    ensures paged == Reverse(unpaged)
  {
    forall i | 0 <= i < |paged| ensures paged[i] == Reverse(unpaged)[i] {
      SettledRowIsDetermined(db, unpaged[|u| - 1 - i], paged[i]);
    }
  }

  /** Rows for the keys, with the given row for its own key. */
  ghost function RowsWith(db: TemplateDb, keys: seq<TemplateKey>, row: TemplateRow): (r: seq<TemplateRow>)
    requires IsRow(db, row)
    ensures AreRows(db, keys, r)
    ensures forall i :: 0 <= i < |keys| && keys[i] == row.key ==> r[i] == row
  {
    seq(|keys|, i requires 0 <= i < |keys| => if keys[i] == row.key then row else SomeRow(db, keys[i]))
  }

  lemma UnpagedOrder(rows: set<TemplateKey>) returns (u: seq<TemplateKey>)
    ensures IsTeamTemplates(rows, u)
  {
    IdOrders();
    var s := Sorted(NewestFirst(TextLess()), rows);
    u := Reverse(s);
    ReverseOfNewestFirst(s);
    ReverseElements(s);
  }

  lemma ReverseOfNewestFirst(s: seq<TemplateKey>)
    requires Ascending(NewestFirst(TextLess()), s)
    ensures forall i, j :: 0 <= i < j < |s| ==> Reverse(s)[i].at <= Reverse(s)[j].at
  {
    forall i, j | 0 <= i < j < |s| ensures Reverse(s)[i].at <= Reverse(s)[j].at {
      assert NewestFirst(TextLess())(s[|s| - 1 - j], s[|s| - 1 - i]);
    }
  }

  lemma ReverseElements<K>(s: seq<K>)
    ensures Elements(Reverse(s)) == Elements(s)
  {
    forall x | x in s ensures x in Reverse(s) {
      var i :| 0 <= i < |s| && s[i] == x;
      assert Reverse(s)[|s| - 1 - i] == x;
    }
  }

  /** Whatever the two queries pick, their lists hold the same rows. */
  ghost predicate AlwaysAgree(db: TemplateDb, team: TeamId, fetches: nat, cursor: TemplateKey, limit: nat)
    requires limit > 0
  {
    forall u, unpaged, paged ::
      && IsTeamTemplates(TeamTemplateKeys(db, team), u) && AreRows(db, u, unpaged)
      && AreRows(db, Flatten(PagedKeys(db, team, fetches, cursor, limit)), paged)
      ==> Elements(paged) == Elements(unpaged)
  }

  lemma TiedTemplateDisagrees(db: TemplateDb, team: TeamId, key: TemplateKey, fetches: nat, cursor: TemplateKey, limit: nat)
    requires CoversTeam(db, team, fetches, cursor, limit) && key in TeamTemplateKeys(db, team) && !IsSettled(db, key.id)
    ensures !AlwaysAgree(db, team, fetches, cursor, limit)
  {
    var r, q := UnsettledRowDiffers(db, key);
    var u := UnpagedOrder(TeamTemplateKeys(db, team));
    PagedKeysAre(db, team, u, fetches, cursor, limit);
    var all := Flatten(PagedKeys(db, team, fetches, cursor, limit));
    var unpaged, paged := RowsWith(db, u, r), RowsWith(db, all, q);
    assert key in Elements(u);
    var i :| 0 <= i < |u| && u[i] == key;
    assert unpaged[i] == r && r in Elements(unpaged);
    forall j | 0 <= j < |paged| ensures paged[j] != r {
      assert paged[j].key == all[j];
    }
    assert r !in Elements(paged);
  }

  /** The two listings agree, whatever ties they break, iff no template of the team is left unsettled. */
  lemma ListingsAgreeIff(db: TemplateDb, team: TeamId, fetches: nat, cursor: TemplateKey, limit: nat)
    requires CoversTeam(db, team, fetches, cursor, limit)
    ensures AlwaysAgree(db, team, fetches, cursor, limit) <==> TeamIsSettled(db, team)
  {
    if TeamIsSettled(db, team) {
      forall u, unpaged, paged |
        && IsTeamTemplates(TeamTemplateKeys(db, team), u) && AreRows(db, u, unpaged)
        && AreRows(db, Flatten(PagedKeys(db, team, fetches, cursor, limit)), paged)
        ensures Elements(paged) == Elements(unpaged)
      {
        PagedRowsMatchUnpaged(db, team, unpaged, u, paged, fetches, cursor, limit);
      }
    } else {
      var key :| key in TeamTemplateKeys(db, team) && !IsSettled(db, key.id);
      TiedTemplateDisagrees(db, team, key, fetches, cursor, limit);
    }
  }

  ghost function PagedKeys(db: TemplateDb, team: TeamId, fetches: nat, cursor: TemplateKey, limit: nat): seq<seq<TemplateKey>>
    requires limit > 0
  {
    QueryPages(GetTeamTemplatesWithCursor(), seq(fetches, _ => TeamTemplateKeys(db, team)), cursor, limit)
  }

  // ---------------------------------------------------------------------------------------
  // ListTeamSnapshotTemplates
  // ---------------------------------------------------------------------------------------

  datatype SnapshotFilter = SnapshotFilter(tag: Option<Tag>, team: TeamId, sandbox: Option<SandboxId>, env: Option<EnvId>)

  /** The inner LATERAL join drops a snapshot without a ready build for the wanted tag. */
  predicate HasBuildFor(db: TemplateDb, e: EnvId, tag: Option<Tag>) {
    exists a | a in db.assignments :: a.env == e && a.build in db.builds && db.builds[a.build].ReadyGroup?
                                      && (tag.None? || a.tag == tag.value)
  }

  predicate IsListedSnapshot(db: TemplateDb, f: SnapshotFilter, e: EnvId) {
    && e in db.envs && !db.envs[e].deleted && db.envs[e].team == f.team && db.envs[e].source.SnapshotTemplateSource?
    && e in db.origins && (f.sandbox.None? || db.origins[e] == f.sandbox.value)
    && (f.env.None? || e == f.env.value)
    && HasBuildFor(db, e, f.tag)
  }

  function SnapshotTemplateKeys(f: SnapshotFilter): TemplateDb -> set<TemplateKey> {
    (db: TemplateDb) => set e | e in db.envs && IsListedSnapshot(db, f, e) :: Key(db.envs[e].createdAt, e)
  }

  ghost function ListTeamSnapshotTemplates(f: SnapshotFilter): (TemplateDb, TemplateKey, nat) -> seq<TemplateKey> {
    IdOrders();
    (db: TemplateDb, cursor: TemplateKey, n: nat) =>
      Take(n, Sorted(NewestFirst(TextLess()),
                     set r | r in SnapshotTemplateKeys(f)(db) && RowLess(TextLess(), r.at, r.id, cursor.at, cursor.id)))
  }

  lemma SnapshotTemplatesCut(f: SnapshotFilter)
    ensures StrictTotal(NewestFirst(TextLess()))
    ensures Cuts(ListTeamSnapshotTemplates(f), SnapshotTemplateKeys(f), NewestFirst(TextLess()))
  {
    IdOrders();
    forall db: TemplateDb, cursor: TemplateKey
      ensures (set r | r in SnapshotTemplateKeys(f)(db) && RowLess(TextLess(), r.at, r.id, cursor.at, cursor.id))
              == After(NewestFirst(TextLess()), SnapshotTemplateKeys(f)(db), cursor)
    {
    }
  }

  /** What is listed, on the tables: a live snapshot template of the team with a ready build under the wanted tag. */
  lemma ListedSnapshotTemplates(f: SnapshotFilter, db: TemplateDb, k: TemplateKey)
    ensures k in SnapshotTemplateKeys(f)(db) <==>
            && k.id in db.envs && db.envs[k.id] == TemplateEnv(k.at, f.team, SnapshotTemplateSource, false)
            && k.id in db.origins && (f.sandbox.Some? ==> db.origins[k.id] == f.sandbox.value)
            && (f.env.Some? ==> k.id == f.env.value)
            && exists a :: a in db.assignments && a.env == k.id && (f.tag.Some? ==> a.tag == f.tag.value)
                           && a.build in db.builds && db.builds[a.build] == ReadyGroup
  {
    if k.id in db.envs && db.envs[k.id].createdAt == k.at {
      assert k == Key(db.envs[k.id].createdAt, k.id);
    }
  }

  /** On a fixed database the pages are exactly those, newest first. */
  lemma SnapshotTemplatesAreExactly(f: SnapshotFilter, db: TemplateDb, dbs: seq<TemplateDb>, cursor: TemplateKey, limit: nat)
    requires limit > 0 && dbs != [] && (forall i :: 0 <= i < |dbs| ==> dbs[i] == db) && StrictTotal(NewestFirst(TextLess()))
    requires |After(NewestFirst(TextLess()), SnapshotTemplateKeys(f)(db), cursor)| <= |dbs| * limit
    ensures var all := Flatten(QueryPages(ListTeamSnapshotTemplates(f), dbs, cursor, limit));
            && (forall i, j :: 0 <= i < j < |all| ==>
                  all[i].at > all[j].at || (all[i].at == all[j].at && LexLess(CharLess(), all[j].id, all[i].id)))
            && (forall k :: k in all <==>
                  k in SnapshotTemplateKeys(f)(db)
                  && (k.at < cursor.at || (k.at == cursor.at && LexLess(CharLess(), k.id, cursor.id))))
  {
    SnapshotTemplatesCut(f);
    var before := NewestFirst(TextLess());
    ListingIsComplete(ListTeamSnapshotTemplates(f), SnapshotTemplateKeys(f), before, db, dbs, cursor, limit);
    var all := Flatten(QueryPages(ListTeamSnapshotTemplates(f), dbs, cursor, limit));
    forall i, j | 0 <= i < j < |all| ensures before(all[i], all[j]) {
    }
    forall k: TemplateKey {:trigger k in all} ensures k in all <==> k in SnapshotTemplateKeys(f)(db) && before(cursor, k) {
      assert k in all <==> k in Elements(all);
    }
  }

  /** A snapshot template that keeps matching the filters is listed, and none is listed twice. */
  lemma SnapshotTemplatesListing(f: SnapshotFilter, dbs: seq<TemplateDb>, cursor: TemplateKey, limit: nat, e: EnvId, at: int)
    requires limit > 0 && StrictTotal(NewestFirst(TextLess()))
    requires Completes(NewestFirst(TextLess()), Selections(SnapshotTemplateKeys(f), dbs), cursor, limit)
    requires RowLess(TextLess(), at, e, cursor.at, cursor.id)
    requires forall i :: 0 <= i < |dbs| ==> IsListedSnapshot(dbs[i], f, e) && dbs[i].envs[e].createdAt == at
    ensures var all := Flatten(QueryPages(ListTeamSnapshotTemplates(f), dbs, cursor, limit));
            Key(at, e) in all && forall i, j :: 0 <= i < j < |all| ==> all[i] != all[j]
  {
    SnapshotTemplatesCut(f);
    ListingIsSound(ListTeamSnapshotTemplates(f), SnapshotTemplateKeys(f), NewestFirst(TextLess()), dbs, cursor, limit);
    assert NewestFirst(TextLess())(cursor, Key(at, e));
    forall i | 0 <= i < |dbs| ensures Key(at, e) in SnapshotTemplateKeys(f)(dbs[i]) {
      assert IsListedSnapshot(dbs[i], f, e);
    }
  }
}
