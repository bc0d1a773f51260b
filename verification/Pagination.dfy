/**
 The next token of the API's list endpoints: how it is written and read back, and that following
 tokens is the same as paging by row.  Base64 and the RFC 3339 text of a time stand for themselves.
 */
module Pagination {
  import opened TemplateTables
  import opened Keyset
  import opened UuidText
  import opened Listings
  import opened TeamTemplates
  import opened SandboxListing

  const SEPARATOR := "__"

  predicate SeparatorAt(s: string, i: nat) {
    i + 1 < |s| && s[i] == '_' && s[i + 1] == '_'
  }

  predicate HasSeparator(s: string) {
    exists i :: 0 <= i < |s| && SeparatorAt(s, i)
  }

  /** The leftmost separator at or after i, |s| if there is none. */
  function FirstSeparator(s: string, i: nat): (k: nat)
    requires i <= |s|
    ensures i <= k <= |s| && (k < |s| ==> SeparatorAt(s, k)) && forall j :: i <= j < k ==> !SeparatorAt(s, j)
    decreases |s| - i
  {
    if i == |s| || SeparatorAt(s, i) then i else FirstSeparator(s, i + 1)
  }

  /** strings.Split(s, "__"). */
  function Split(s: string): seq<string>
    decreases |s|
  {
    var k := FirstSeparator(s, 0);
    if k == |s| then [s] else [s[..k]] + Split(s[k + 2..])
  }

  datatype TimeCodec = TimeCodec(format: int -> string, parse: string -> Option<int>)

  /** RFC3339Nano: no underscore, and read back as written. */
  ghost predicate IsFaithful(codec: TimeCodec) {
    forall t :: codec.parse(codec.format(t)) == Some(t) && '_' !in codec.format(t)
  }

  function GenerateCursor(codec: TimeCodec, key: Key<string>): string {
    codec.format(key.at) + SEPARATOR + key.id
  }

  function ParseCursor(codec: TimeCodec, token: string): Option<Key<string>> {
    var parts := Split(token);
    if |parts| != 2 then None
    else
      var at := codec.parse(parts[0]);
      if at.None? then None else Some(Key(at.value, parts[1]))
  }

  lemma SplitCursor(time: string, id: string)
    requires '_' !in time
    ensures Split(time + SEPARATOR + id) == [time] + Split(id)
  {
    var s := time + SEPARATOR + id;
    assert SeparatorAt(s, |time|);
    assert forall j :: 0 <= j < |time| ==> s[j] == time[j] && !SeparatorAt(s, j);
    assert FirstSeparator(s, 0) == |time|;
    assert s[..|time|] == time && s[|time| + 2..] == id;
  }

  lemma SplitIsWholeIff(s: string)
    ensures |Split(s)| == 1 <==> !HasSeparator(s)
    ensures !HasSeparator(s) ==> Split(s) == [s]
  {
    var k := FirstSeparator(s, 0);
    if k < |s| {
      assert SeparatorAt(s, k);
      SplitIsNotEmpty(s[k + 2..]);
    }
  }

  lemma SplitIsNotEmpty(s: string)
    ensures |Split(s)| >= 1
  {
  }

  /** A token is read back as the row it was written for exactly when the row's id has no separator in it; otherwise it is refused. */
  lemma CursorRoundTripIff(codec: TimeCodec, key: Key<string>)
    requires IsFaithful(codec)
    ensures ParseCursor(codec, GenerateCursor(codec, key)) == if HasSeparator(key.id) then None else Some(key)
  {
    SplitCursor(codec.format(key.at), key.id);
    SplitIsWholeIff(key.id);
    SplitIsNotEmpty(key.id);
  }

  /** Generated ids and accepted sandbox ids: lower-case letters and digits. */
  predicate IsAlphanumeric(id: string) {
    forall i :: 0 <= i < |id| ==> 'a' <= id[i] <= 'z' || '0' <= id[i] <= '9'
  }

  /** So the token of a row the service stores is always read back as that row. */
  lemma AlphanumericRoundTrip(codec: TimeCodec, key: Key<string>)
    requires IsFaithful(codec) && IsAlphanumeric(key.id)
    ensures ParseCursor(codec, GenerateCursor(codec, key)) == Some(key)
  {
    AlphanumericIsPlain(key.id);
    CursorRoundTripIff(codec, key);
  }

  lemma AlphanumericIsPlain(id: string)
    requires IsAlphanumeric(id)
    ensures !HasSeparator(id)
  {
    forall i | 0 <= i < |id| ensures !SeparatorAt(id, i) {
      assert id[i] != '_';
    }
  }

  // ---------------------------------------------------------------------------------------
  // The pagination object
  // ---------------------------------------------------------------------------------------

  class Pagination {
    const codec: TimeCodec
    var limit: nat
    var cursor: Key<string>
    var nextToken: Option<string>

    constructor (codec: TimeCodec, limit: nat, cursor: Key<string>)
      ensures this.codec == codec && this.limit == limit && this.cursor == cursor && nextToken == None
    {
      this.codec, this.limit, this.cursor, this.nextToken := codec, limit, cursor, None;
    }

    method QueryLimit() returns (n: nat)
      ensures n == limit + 1
    {
      n := limit + 1;
    }

    /** Trims to the page and leaves a token for the last row shown exactly when there is more. */
    method ProcessResults(results: seq<Key<string>>) returns (page: seq<Key<string>>)
      requires limit > 0 && nextToken == None
      modifies this`nextToken
      ensures |page| <= limit && page <= results && (|page| < limit ==> page == results)
      ensures nextToken.Some? <==> |results| > |page|
      ensures nextToken.Some? ==> page != [] && nextToken.value == GenerateCursor(codec, page[|page| - 1])
    {
      if |results| > limit {
        var lastItem := results[limit - 1];
        nextToken := Some(GenerateCursor(codec, lastItem));
      }
      page := if |results| > limit then results[..limit] else results;
    }
  }

  function LowerOf(a: nat, b: nat): nat {
    if a <= b then a else b
  }

  /** NewPagination: the limit is capped, a missing or empty token means the first page. */
  method NewPagination(codec: TimeCodec, limit: Option<nat>, token: Option<string>, defaultLimit: nat, maxLimit: nat,
                       now: int, defaultId: string)
    returns (r: Option<Pagination>)
    ensures r.Some? ==> r.value.limit == LowerOf(if limit.Some? then limit.value else defaultLimit, maxLimit)
    ensures r.None? <==> token.Some? && token.value != "" && ParseCursor(codec, token.value).None?
    ensures r.Some? ==>
              && fresh(r.value) && r.value.codec == codec && r.value.nextToken == None
              && r.value.cursor == if token.Some? && token.value != "" then ParseCursor(codec, token.value).value else Key(now, defaultId)
  {
    var n := if limit.Some? then limit.value else defaultLimit;
    if n > maxLimit {
      n := maxLimit;
    }
    var cursor := Key(now, defaultId);
    if token.Some? && token.value != "" {
      var parsed := ParseCursor(codec, token.value);
      if parsed.None? {
        return None;
      }
      cursor := parsed.value;
    }
    var p := new Pagination(codec, n, cursor);
    r := Some(p);
  }

  // ---------------------------------------------------------------------------------------
  // Following tokens
  // ---------------------------------------------------------------------------------------

  /** What a client collects by sending back each token it was given, until a page comes without one or a token is refused. */
  ghost function TokenPages<D(!new)>(codec: TimeCodec, query: (D, Key<string>, nat) -> seq<Key<string>>, dbs: seq<D>,
                                     cursor: Key<string>, limit: nat): seq<seq<Key<string>>>
    requires limit > 0
    decreases |dbs|
  {
    if dbs == [] then []
    else
      var results := query(dbs[0], cursor, limit + 1);
      if |results| > limit then
        var next := ParseCursor(codec, GenerateCursor(codec, results[limit - 1]));
        [results[..limit]] + if next.Some? then TokenPages(codec, query, dbs[1..], next.value, limit) else []
      else [results]
  }

  /** No row the query returns on one of these databases has a separator in its id. */
  ghost predicate HasPlainIds<D(!new)>(query: (D, Key<string>, nat) -> seq<Key<string>>, dbs: seq<D>) {
    forall i, cursor, n, k :: 0 <= i < |dbs| && k in query(dbs[i], cursor, n) ==> !HasSeparator(k.id)
  }

  /** Then every token is accepted and following them is paging by row. */
  lemma {:induction false} TokensFollowRows<D(!new)>(codec: TimeCodec, query: (D, Key<string>, nat) -> seq<Key<string>>, dbs: seq<D>,
                                                    cursor: Key<string>, limit: nat)
    requires limit > 0 && IsFaithful(codec) && HasPlainIds(query, dbs)
    ensures TokenPages(codec, query, dbs, cursor, limit) == QueryPages(query, dbs, cursor, limit)
    decreases |dbs|
  {
    if dbs != [] {
      var results := query(dbs[0], cursor, limit + 1);
      if |results| > limit {
        var last := results[limit - 1];
        assert last in query(dbs[0], cursor, limit + 1);
        CursorRoundTripIff(codec, last);
        forall i, c, n, k | 0 <= i < |dbs[1..]| && k in query(dbs[1..][i], c, n) ensures !HasSeparator(k.id) {
          assert dbs[1..][i] == dbs[i + 1];
        }
        TokensFollowRows(codec, query, dbs[1..], last, limit);
      }
    }
  }

  // ---------------------------------------------------------------------------------------
  // The paged endpoints
  // ---------------------------------------------------------------------------------------

  ghost predicate AlphanumericRows(rows: set<Key<string>>) {
    forall k :: k in rows ==> IsAlphanumeric(k.id)
  }

  ghost predicate PlainRows(rows: set<Key<string>>) {
    forall k :: k in rows ==> !HasSeparator(k.id)
  }

  lemma AlphanumericRowsArePlain(rows: set<Key<string>>)
    requires AlphanumericRows(rows)
    ensures PlainRows(rows)
  {
    forall k | k in rows ensures !HasSeparator(k.id) {
      AlphanumericIsPlain(k.id);
    }
  }

  /** A query that cuts by its order returns rows of its selection only. */
  lemma CutsReturnSelected<D(!new)>(query: (D, Key<string>, nat) -> seq<Key<string>>, select: D -> set<Key<string>>,
                                    before: (Key<string>, Key<string>) -> bool, dbs: seq<D>)
    requires StrictTotal(before) && Cuts(query, select, before) && forall i :: 0 <= i < |dbs| ==> PlainRows(select(dbs[i]))
    ensures HasPlainIds(query, dbs)
  {
    forall i, cursor, n, k | 0 <= i < |dbs| && k in query(dbs[i], cursor, n) ensures !HasSeparator(k.id) {
      var sorted := Sorted(before, After(before, select(dbs[i]), cursor));
      assert query(dbs[i], cursor, n) == Take(n, sorted);
      assert k in Elements(sorted);
    }
  }

  /** What a client of a cursor-paged endpoint gets by following its tokens: nothing twice, and every row that stays. */
  ghost predicate TokensListSoundly<D(!new)>(codec: TimeCodec, query: (D, Key<string>, nat) -> seq<Key<string>>,
                                             select: D -> set<Key<string>>, before: (Key<string>, Key<string>) -> bool,
                                             dbs: seq<D>, cursor: Key<string>, limit: nat)
    requires StrictTotal(before) && limit > 0
  {
    var all := Flatten(TokenPages(codec, query, dbs, cursor, limit));
    && (forall i, j :: 0 <= i < j < |all| ==> before(all[i], all[j]) && all[i] != all[j])
    && (Completes(before, Selections(select, dbs), cursor, limit) ==>
          forall row :: before(cursor, row) && (forall i :: 0 <= i < |dbs| ==> row in select(dbs[i])) ==> row in all)
  }

  lemma TokensAreSound<D(!new)>(codec: TimeCodec, query: (D, Key<string>, nat) -> seq<Key<string>>, select: D -> set<Key<string>>,
                                before: (Key<string>, Key<string>) -> bool, dbs: seq<D>, cursor: Key<string>, limit: nat)
    requires StrictTotal(before) && limit > 0 && Cuts(query, select, before) && IsFaithful(codec)
    requires forall i :: 0 <= i < |dbs| ==> PlainRows(select(dbs[i]))
    ensures TokensListSoundly(codec, query, select, before, dbs, cursor, limit)
  {
    CutsReturnSelected(query, select, before, dbs);
    TokensFollowRows(codec, query, dbs, cursor, limit);
    ListingIsSound(query, select, before, dbs, cursor, limit);
  }

  /** The sandbox list, whatever states are asked for. */
  lemma SandboxTokens(codec: TimeCodec, wantRunning: bool, wantPaused: bool, dbs: seq<SandboxDb>, cursor: Key<string>, limit: nat)
    requires limit > 0 && IsFaithful(codec)
    requires forall i :: 0 <= i < |dbs| ==> AlphanumericRows(Visible(wantRunning, wantPaused)(dbs[i]))
    ensures StrictTotal(Order())
    ensures TokensListSoundly(codec, ListSandboxes(wantRunning, wantPaused), Visible(wantRunning, wantPaused), Order(), dbs, cursor, limit)
  {
    SandboxListCuts(wantRunning, wantPaused);
    forall i | 0 <= i < |dbs| ensures PlainRows(Visible(wantRunning, wantPaused)(dbs[i])) {
      AlphanumericRowsArePlain(Visible(wantRunning, wantPaused)(dbs[i]));
    }
    TokensAreSound(codec, ListSandboxes(wantRunning, wantPaused), Visible(wantRunning, wantPaused), Order(), dbs, cursor, limit);
  }

  /** The snapshot query on its own. */
  lemma SnapshotTokens(codec: TimeCodec, dbs: seq<map<string, int>>, cursor: Key<string>, limit: nat)
    requires limit > 0 && IsFaithful(codec) && forall i :: 0 <= i < |dbs| ==> AlphanumericRows(Keys(dbs[i]))
    ensures StrictTotal(Order())
    ensures TokensListSoundly(codec, SnapshotQuery(), Keys, Order(), dbs, cursor, limit)
  {
    SnapshotsCut();
    forall i | 0 <= i < |dbs| ensures PlainRows(Keys(dbs[i])) {
      AlphanumericRowsArePlain(Keys(dbs[i]));
    }
    TokensAreSound(codec, SnapshotQuery(), Keys, Order(), dbs, cursor, limit);
  }

  /** Snapshot templates under any filter. */
  lemma SnapshotTemplateTokens(codec: TimeCodec, f: SnapshotFilter, dbs: seq<TemplateDb>, cursor: Key<string>, limit: nat)
    requires limit > 0 && IsFaithful(codec) && forall i :: 0 <= i < |dbs| ==> AlphanumericRows(SnapshotTemplateKeys(f)(dbs[i]))
    ensures StrictTotal(NewestFirst(TextLess()))
    ensures TokensListSoundly(codec, ListTeamSnapshotTemplates(f), SnapshotTemplateKeys(f), NewestFirst(TextLess()), dbs, cursor, limit)
  {
    SnapshotTemplatesCut(f);
    forall i | 0 <= i < |dbs| ensures PlainRows(SnapshotTemplateKeys(f)(dbs[i])) {
      AlphanumericRowsArePlain(SnapshotTemplateKeys(f)(dbs[i]));
    }
    TokensAreSound(codec, ListTeamSnapshotTemplates(f), SnapshotTemplateKeys(f), NewestFirst(TextLess()), dbs, cursor, limit);
  }

  /** Team templates. */
  lemma TeamTemplateTokens(codec: TimeCodec, tables: seq<set<TemplateKey>>, cursor: Key<string>, limit: nat)
    requires limit > 0 && IsFaithful(codec) && forall i :: 0 <= i < |tables| ==> AlphanumericRows(tables[i])
    ensures StrictTotal(NewestFirst(TextLess()))
    ensures TokensListSoundly(codec, GetTeamTemplatesWithCursor(), AllRows(), NewestFirst(TextLess()), tables, cursor, limit)
  {
    TeamTemplatesCut();
    forall i | 0 <= i < |tables| ensures PlainRows(tables[i]) {
      AlphanumericRowsArePlain(tables[i]);
    }
    TokensAreSound(codec, GetTeamTemplatesWithCursor(), AllRows(), NewestFirst(TextLess()), tables, cursor, limit);
  }

  lemma {:induction false} HexIsPlain(bytes: seq<Byte>)
    ensures '_' !in Hex(bytes)
    decreases |bytes|
  {
    if bytes != [] {
      HexIsPlain(bytes[1..]);
      HexDigitIsPlain(bytes[0] / 16);
      HexDigitIsPlain(bytes[0] % 16);
    }
  }

  lemma HexDigitIsPlain(n: nat)
    requires n < 16
    ensures HexDigit(n) != '_'
  {
  }

  lemma CanonicalIsPlain(u: Uuid)
    ensures !HasSeparator(Canonical(u))
  {
    HexIsPlain(u[..4]);
    HexIsPlain(u[4..6]);
    HexIsPlain(u[6..8]);
    HexIsPlain(u[8..10]);
    HexIsPlain(u[10..]);
    assert '_' !in Canonical(u);
  }

  /** A template's builds, whose tokens carry the text of a build id. */
  lemma TemplateBuildTokens(codec: TimeCodec, e: string, dbs: seq<BuildDb>, cursor: Key<string>, limit: nat)
    requires limit > 0 && IsFaithful(codec)
    ensures StrictTotal(NewestFirst(TextLess()))
    ensures TokensListSoundly(codec, GetTemplateBuildsByText(e), TemplateBuildTexts(e), NewestFirst(TextLess()), dbs, cursor, limit)
  {
    TextBuildsCut(e);
    forall i | 0 <= i < |dbs| ensures PlainRows(TemplateBuildTexts(e)(dbs[i])) {
      var joined := Joined(dbs[i].builds, dbs[i].assignments, e);
      forall x | x in TemplateBuildTexts(e)(dbs[i]) ensures !HasSeparator(x.id) {
        InTextKeys(joined, x);
        var k :| k in joined && TextKey(k) == x;
        CanonicalIsPlain(k.id);
      }
    }
    TokensAreSound(codec, GetTemplateBuildsByText(e), TemplateBuildTexts(e), NewestFirst(TextLess()), dbs, cursor, limit);
  }
}
