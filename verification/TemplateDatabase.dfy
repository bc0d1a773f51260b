/**
 The tables as state that the statements update in place.  Each method is one statement: it either
 has to wait for a row lock and changes nothing, or takes the step of the transaction model; so
 every state stays one that the model's runs reach, and what is proved of all runs holds of it.
 */
module TemplateDatabase {
  import opened TemplateTables
  import opened Transactions
  import opened DeletionSafety
  import opened AliasOwnership
  import opened SoloRuns

  /** The key under which the alias cache stores a name. */
  function CacheKey(key: AliasKey): string {
    if key.namespace.Some? then key.namespace.value + "/" + key.alias else key.alias
  }

  /** Names contain no slash, so a cache key belongs to one alias. */
  lemma CacheKeyInjective(a: AliasKey, b: AliasKey)
    requires '/' !in a.alias && '/' !in b.alias && CacheKey(a) == CacheKey(b)
    ensures a == b
  {
    SlashIsInKey(a);
    SlashIsInKey(b);
    if a.namespace.Some? && b.namespace.Some? {
      SplitAtLastSlash(a.namespace.value, a.alias, b.namespace.value, b.alias);
    }
  }

  lemma SlashIsInKey(a: AliasKey)
    requires '/' !in a.alias
    ensures '/' in CacheKey(a) <==> a.namespace.Some?
  {
    if a.namespace.Some? {
      assert CacheKey(a)[|a.namespace.value|] == '/';
    }
  }

  lemma SplitAtLastSlash(n: string, a: string, m: string, b: string)
    requires '/' !in a && '/' !in b && n + "/" + a == m + "/" + b
    ensures n == m && a == b
  {
    var whole := n + "/" + a;
    assert |n| + 1 + |a| == |whole| == |m| + 1 + |b|;
    assert whole[|n|] == '/' && whole[|m|] == '/';
    assert whole[|n| + 1..] == a && whole[|m| + 1..] == b;
    assert forall k :: |n| < k < |whole| ==> whole[k] == a[k - |n| - 1];
    assert forall k :: |m| < k < |whole| ==> whole[k] == b[k - |m| - 1];
    assert whole[..|n|] == n && whole[..|m|] == m;
  }

  /** The position of the first slash, |text| without one. */
  function FirstSlash(text: string): (k: nat)
    ensures k <= |text| && (k < |text| ==> text[k] == '/') && forall j :: 0 <= j < k ==> text[j] != '/'
  {
    if text == "" || text[0] == '/' then 0 else 1 + FirstSlash(text[1..])
  }

  /** id.SplitIdentifier: the alias alone, or namespace and alias around the first slash. */
  function SplitIdentifier(identifier: string): AliasKey {
    var k := FirstSlash(identifier);
    if k == |identifier| then AliasKey(identifier, None) else AliasKey(identifier[k + 1..], Some(identifier[..k]))
  }

  /** A cache key reads back as the name it was made of iff no slash comes before the separator. */
  lemma CacheKeyRoundTripIff(key: AliasKey)
    ensures SplitIdentifier(CacheKey(key)) == key <==> '/' !in (if key.namespace.Some? then key.namespace.value else key.alias)
  {
    var text := CacheKey(key);
    var k := FirstSlash(text);
    if key.namespace.Some? {
      var n := key.namespace.value;
      assert text[|n|] == '/' && text[..|n|] == n && text[|n| + 1..] == key.alias;
      assert forall j :: 0 <= j < |n| ==> text[j] == n[j];
      if '/' in n {
        var j :| 0 <= j < |n| && n[j] == '/';
        assert text[j] == '/' && k <= j;
        assert |text[..k]| < |n|;
      }
    }
  }

  predicate IsIdentifier(name: string) {
    name != "" && forall i :: 0 <= i < |name| ==> 'a' <= name[i] <= 'z' || '0' <= name[i] <= '9' || name[i] == '-' || name[i] == '_'
  }

  /** What the name check lets through holds no slash, so cache keys of stored aliases never collide. */
  lemma IdentifiersNeverCollide(a: AliasKey, b: AliasKey)
    requires IsIdentifier(a.alias) && IsIdentifier(b.alias)
    ensures CacheKey(a) == CacheKey(b) <==> a == b
  {
    if CacheKey(a) == CacheKey(b) {
      CacheKeyInjective(a, b);
    }
  }

  lemma SlashesCollide()
    ensures exists a, b :: a != b && CacheKey(a) == CacheKey(b)
  {
    var a, b := AliasKey("x/y", None), AliasKey("y", Some("x"));
    assert CacheKey(a) == CacheKey(b);
  }

  /** The statement ran and took the step, or has to wait and changed nothing. */
  ghost predicate Took(s: Store, step: Step, s': Store, ran: bool) {
    if ran then Exec(s, step) == Some(s') else s' == s && Exec(s, step).None?
  }

  ghost predicate IsHistory(states: seq<Store>, steps: seq<Step>, s: Store) {
    IsRun(states, steps) && states[0] == EMPTY_STORE && states[|steps|] == s
  }

  ghost predicate Reachable(s: Store) {
    exists states, steps :: IsHistory(states, steps, s)
  }

  lemma ReachableStep(s: Store, step: Step, s': Store)
    requires Reachable(s) && Exec(s, step) == Some(s')
    ensures Reachable(s')
  {
    var states, steps :| IsHistory(states, steps, s);
    var more, last := states + [s'], steps + [step];
    forall k: nat | k < |last| ensures Follows(more, last, k) {
      assert k < |steps| ==> Follows(states, steps, k);
    }
    assert IsHistory(more, last, s');
  }

  /** Every reachable state keeps the lock and alias discipline. */
  lemma ReachableKeepsDiscipline(s: Store)
    requires Reachable(s)
    ensures AliasInv(s)
  {
    var states, steps :| IsHistory(states, steps, s);
    RunKeepsAliases(states, steps, |steps|);
  }

  /** A transaction that holds no exclusive lock sees the committed envs. */
  lemma SeesCommittedEnvs(s: Store, i: TxnId)
    requires Reachable(s) && i in s.txns && !HoldsExclusive(s.txns[i])
    ensures s.txns[i].w.envs == map[]
  {
    ReachableKeepsDiscipline(s);
    assert WritesUnderLock(s.txns[i], s.committed);
  }

  /** The transaction's next statement attaches its build to a tag. */
  predicate IsAttaching(t: Txn) {
    (t.Registration? && t.phase.Assigning? && t.phase.next < |t.tags|) || (t.Tagging? && t.done < |t.tags|)
  }

  lemma PauseRuns(s: Store, p: Pause)
    requires (p.seen ==> p.sandbox in s.committed.snapshots) && BuildRowsFree(s.txns, {p.build})
    requires forall j | j in s.txns :: p.template !in s.txns[j].w.envs
    ensures var after := Transactions.UpsertSnapshot(s.committed, p);
            Exec(s, PauseSandbox(p)) == Some(if after.Some? then s.(committed := after.value) else s)
  {
  }

  class Database {
    var envs: map<EnvId, Env>
    var builds: map<BuildId, Build>
    var assignments: set<Assignment>
    var active: map<BuildId, ActiveBuild>
    var aliases: map<AliasKey, AliasRow>
    var snapshots: map<SandboxId, Snapshot>
    var txns: Txns

    function Committed(): Tables
      reads this
    {
      Tables(envs, builds, assignments, active, aliases, snapshots)
    }

    function State(): Store
      reads this
    {
      Store(Committed(), txns)
    }

    ghost predicate Valid()
      reads this
    {
      Reachable(State())
    }

    constructor ()
      ensures Valid() && State() == EMPTY_STORE
    {
      envs, builds, assignments, active, aliases, snapshots, txns := map[], map[], {}, map[], map[], map[], map[];
      new;
      assert IsHistory([EMPTY_STORE], [], State());
    }

    // -------------------------------------------------------------------------------------
    // The delete transaction
    // -------------------------------------------------------------------------------------

    method SoftDeleteTemplate(i: TxnId) returns (ran: bool, found: bool)
      requires Valid() && i in txns && txns[i].Deletion? && txns[i].progress.DelBegun?
      modifies this
      ensures Valid() && Took(old(State()), Step.SoftDeleteTemplate(i), State(), ran)
      ensures ran ==> found == (i in txns) == (IsActiveEnv(old(Committed()), old(txns[i].env))
                                              && old(envs)[old(txns[i].env)].team == old(txns[i].team))
    {
      ghost var before := State();
      var t := txns[i];
      ran, found := EnvUnlocked(txns - {i}, t.env), false;
      if ran {
        SeesCommittedEnvs(before, i);
        found := t.env in envs && !envs[t.env].deleted && envs[t.env].team == t.team;
        if found {
          txns := txns[i := t.(progress := SoftDeleted, w := t.w.(envs := t.w.envs[t.env := envs[t.env].(deleted := true)]))];
        } else {
          txns := txns - {i};
        }
        assert Apply(t.w, before.committed).envs == before.committed.envs;
        assert Exec(before, Step.SoftDeleteTemplate(i)) == Some(State());
        ReachableStep(before, Step.SoftDeleteTemplate(i), State());
      }
    }

    /** Deletes the template's alias rows and collects their cache keys, one per row. */
    method ReleaseTemplateAliases(i: TxnId) returns (ran: bool, items: seq<string>)
      requires Valid() && i in txns && txns[i].Deletion? && txns[i].progress.SoftDeleted?
      modifies this
      ensures Valid() && Took(old(State()), Step.ReleaseTemplateAliases(i), State(), ran)
      ensures ran ==>
                var released := AliasesOf(Apply(old(txns[i]).w, old(Committed())), old(txns[i]).env);
                && |items| == |released|
                && (forall x :: x in items <==> exists k :: k in released && CacheKey(k) == x)
    {
      ghost var before := State();
      var t := txns[i];
      var visible := Apply(t.w, Committed());
      var released := AliasesOf(visible, t.env);
      ran, items := AliasKeysFree(txns - {i}, released), [];
      if ran {
        txns := txns[i := t.(progress := AliasesReleased, w := DeleteAliasWrites(t.w, released))];
        items := CollectKeys(released);
        assert Exec(before, Step.ReleaseTemplateAliases(i)) == Some(State());
        ReachableStep(before, Step.ReleaseTemplateAliases(i), State());
      }
    }

    method DeleteActiveTemplateBuilds(i: TxnId) returns (ran: bool)
      requires Valid() && i in txns && txns[i].Deletion? && txns[i].progress.AliasesReleased?
      modifies this
      ensures Valid() && Took(old(State()), Step.DeleteActiveTemplateBuilds(i), State(), ran)
    {
      ghost var before := State();
      var t := txns[i];
      var rows := ActiveRowsOf(Apply(t.w, Committed()), t.env);
      ran := ActiveRowsFree(txns - {i}, rows);
      if ran {
        txns := txns[i := t.(progress := ActiveCleared, w := t.w.(activeDel := t.w.activeDel + rows))];
        assert Exec(before, Step.DeleteActiveTemplateBuilds(i)) == Some(State());
        ReachableStep(before, Step.DeleteActiveTemplateBuilds(i), State());
      }
    }

    method CommitTransaction(i: TxnId)
      requires Valid() && i in txns && MayCommit(txns[i])
      modifies this
      ensures Valid() && Took(old(State()), Step.Commit(i), State(), true)
    {
      ghost var before := State();
      var w := txns[i].w;
      envs := envs + w.envs;
      builds := builds + w.builds;
      assignments := assignments + w.assignments;
      active := (active - w.activeDel) + w.activeIns;
      aliases := (aliases - w.aliasDel) + w.aliasIns;
      txns := txns - {i};
      assert Exec(before, Step.Commit(i)) == Some(State());
      ReachableStep(before, Step.Commit(i), State());
    }

    /**
     softDeleteTemplate with nobody else at work: on a live template of the team the template is
     gone with all its aliases and in-flight rows, the answer lists their cache keys, and nothing
     else has changed; otherwise nothing happens at all.
     */
    method DeleteTemplate(env: EnvId, team: TeamId) returns (keys: seq<string>)
      requires Valid() && txns == map[]
      modifies this
      ensures Valid() && txns == map[]
      ensures var was := old(Committed());
              if IsActiveEnv(was, env) && was.envs[env].team == team then
                && envs == was.envs[env := was.envs[env].(deleted := true)]
                && aliases == was.aliases - AliasesOf(was, env)
                && active == was.active - ActiveRowsOf(was, env)
                && builds == was.builds && assignments == was.assignments && snapshots == was.snapshots
                && |keys| == |AliasesOf(was, env)|
                && (forall x :: x in keys <==> exists k :: k in AliasesOf(was, env) && CacheKey(k) == x)
              else Committed() == was && keys == []
    {
      ghost var was := Committed();
      ghost var before := State();
      txns := map[0 := Deletion(env, team, DelBegun, NO_WRITES)];
      ReachableStep(before, Step.BeginDeletion(0, env, team), State());
      Alone(txns[0]);
      keys := [];
      var ran, found := SoftDeleteTemplate(0);
      if !found {
        assert txns == map[];
        return;
      }
      SoftDeletesAlone(was, env, team);
      keys := CleanUpDeleted(env, team);
      CommitsAlone(was, env, team);
    }

    /** The two cleanup statements and the commit. */
    method CleanUpDeleted(env: EnvId, team: TeamId) returns (keys: seq<string>)
      requires Valid() && env in envs && State() == Deleting(Committed(), env, team, SoftDeleted)
      modifies this
      ensures Valid()
      ensures var was := old(Committed());
              && Exec(Deleting(was, env, team, ActiveCleared), Step.Commit(0)) == Some(State())
              && |keys| == |AliasesOf(was, env)|
              && forall x :: x in keys <==> exists k :: k in AliasesOf(was, env) && CacheKey(k) == x
    {
      ghost var was := Committed();
      ReleasesAlone(was, env, team);
      var ran;
      ran, keys := ReleaseTemplateAliases(0);
      ClearsAlone(was, env, team);
      ran := DeleteActiveTemplateBuilds(0);
      CommitTransaction(0);
    }

    // -------------------------------------------------------------------------------------
    // Registration
    // -------------------------------------------------------------------------------------

    method CreateOrUpdateTemplate(i: TxnId) returns (ran: bool, updated: bool)
      requires Valid() && i in txns && txns[i].Registration? && txns[i].phase.RegBegun?
      modifies this
      ensures Valid() && Took(old(State()), Step.CreateOrUpdateTemplate(i), State(), ran)
      ensures ran ==> updated == (i in txns) == !IsDeletedEnv(old(Committed()), old(txns[i].env))
    {
      ghost var before := State();
      var t := txns[i];
      ran, updated := EnvUnlocked(txns - {i}, t.env), false;
      if ran {
        SeesCommittedEnvs(before, i);
        assert Apply(t.w, before.committed).envs == envs;
        updated := !(t.env in envs && envs[t.env].deleted);
        if updated {
          var row := if t.env in envs then envs[t.env].(buildCount := envs[t.env].buildCount + 1)
                     else Env(t.team, TemplateSource, false, 1);
          txns := txns[i := t.(phase := EnvLocked, w := t.w.(envs := t.w.envs[t.env := row]))];
        } else {
          txns := txns - {i};
        }
        assert Exec(before, Step.CreateOrUpdateTemplate(i)) == Some(State());
        ReachableStep(before, Step.CreateOrUpdateTemplate(i), State());
      }
    }

    /** Fails the pending builds of the same template and tags; failed says which. */
    method InvalidateUnstartedTemplateBuilds(i: TxnId) returns (ran: bool, failed: set<BuildId>)
      requires Valid() && i in txns && txns[i].Registration? && txns[i].phase.EnvLocked?
      modifies this
      ensures Valid() && Took(old(State()), Step.InvalidateUnstartedTemplateBuilds(i), State(), ran)
      ensures ran ==>
                var t, seen := old(txns[i]), Apply(old(txns[i]).w, old(Committed()));
                forall b :: b in failed <==>
                  && b in seen.builds && seen.builds[b].status in {Pending, Waiting}
                  && exists a :: a in seen.assignments && a.env == t.env && a.tag in t.tags && a.build == b
      ensures ran ==> i in txns && forall b :: b in failed ==> b in txns[i].w.builds && txns[i].w.builds[b].status == Failed
      ensures ran ==> forall b :: b !in failed ==>
                        i in txns && (b in txns[i].w.builds <==> b in old(txns[i]).w.builds)
                        && (b in txns[i].w.builds ==> txns[i].w.builds[b] == old(txns[i]).w.builds[b])
    {
      ghost var before := State();
      var t := txns[i];
      var visible := Apply(t.w, Committed());
      failed := Unstarted(visible, t.env, t.tags);
      ran := BuildRowsFree(txns - {i}, failed) && ActiveRowsFree(txns - {i}, failed);
      if ran {
        var rows := map b | b in failed && b in visible.builds :: visible.builds[b].(status := Failed);
        var tracked := failed * visible.active.Keys;
        txns := txns[i := t.(phase := Invalidated, w := t.w.(builds := t.w.builds + rows, activeDel := t.w.activeDel + tracked))];
        assert InvalidateWrites(t.w, visible, t.env, t.tags) == txns[i].w;
        assert Exec(before, Step.InvalidateUnstartedTemplateBuilds(i)) == Some(State());
        ReachableStep(before, Step.InvalidateUnstartedTemplateBuilds(i), State());
      }
    }

    /** Starts tracking the new build; a second tracking row for it ends the transaction. */
    method CreateActiveTemplateBuild(i: TxnId) returns (ran: bool, inserted: bool)
      requires Valid() && i in txns && txns[i].Registration? && txns[i].phase.Assigning? && txns[i].phase.next == |txns[i].tags|
      modifies this
      ensures Valid() && Took(old(State()), Step.CreateActiveTemplateBuild(i), State(), ran)
      ensures ran ==> inserted == (i in txns) == (old(txns[i]).build !in Apply(old(txns[i]).w, old(Committed())).active)
      ensures ran && inserted ==> MayCommit(txns[i])
    {
      ghost var before := State();
      var t := txns[i];
      ran, inserted := ActiveRowsFree(txns - {i}, {t.build}), false;
      if ran {
        inserted := t.build !in Apply(t.w, Committed()).active;
        if inserted {
          txns := txns[i := t.(phase := Activated, w := t.w.(activeIns := t.w.activeIns[t.build := ActiveBuild(t.team, t.env, t.tags)]))];
        } else {
          txns := txns - {i};
        }
        assert Exec(before, Step.CreateActiveTemplateBuild(i)) == Some(State());
        ReachableStep(before, Step.CreateActiveTemplateBuild(i), State());
      }
    }

    /**
     The FOR SHARE guard decides whether a row is attached; rows says how many were.  A tagging with
     no row gives up, a registration goes on.
     */
    method CreateTemplateBuildAssignment(i: TxnId, rowId: nat, now: int) returns (ran: bool, rows: nat)
      requires Valid() && i in txns && IsAttaching(txns[i])
      modifies this
      ensures Valid() && Took(old(State()), Step.CreateTemplateBuildAssignment(i, rowId, now), State(), ran)
      ensures ran ==> rows == if IsActiveEnv(Apply(old(txns[i]).w, old(Committed())), old(txns[i]).env) then 1 else 0
      ensures ran ==> (i in txns <==> rows == 1 || old(txns[i]).Registration?)
      ensures ran && rows == 1 ==> HoldsLock(txns[i])
      ensures ran && rows == 1 ==>
                var t := old(txns[i]);
                var tag := if t.Registration? then t.tags[t.phase.next] else t.tags[t.done];
                txns[i].w.assignments == t.w.assignments + {Assignment(rowId, t.env, t.build, tag, now)}
    {
      ghost var before := State();
      var t := txns[i];
      ran, rows := EnvShareable(txns - {i}, t.env), 0;
      if ran {
        var live := IsActiveEnv(Apply(t.w, Committed()), t.env);
        rows := if live then 1 else 0;
        if t.Registration? {
          var next := t.phase.next;
          var w := if live then Attach(t.w, t.env, t.build, t.tags[next], rowId, now) else t.w;
          txns := txns[i := t.(phase := Assigning(next + 1), w := w)];
        } else if live {
          txns := txns[i := t.(done := t.done + 1, w := Attach(t.w, t.env, t.build, t.tags[t.done], rowId, now))];
        } else {
          txns := txns - {i};
        }
        assert Exec(before, Step.CreateTemplateBuildAssignment(i, rowId, now)) == Some(State());
        ReachableStep(before, Step.CreateTemplateBuildAssignment(i, rowId, now), State());
      }
    }

    // -------------------------------------------------------------------------------------
    // Statements outside a transaction block
    // -------------------------------------------------------------------------------------

    /** The same statement on its own: a row iff the template is live; a missing build is refused. */
    method AssignSnapshotBuild(env: EnvId, build: BuildId, tag: Tag, rowId: nat, now: int) returns (ran: bool, rows: nat)
      requires Valid()
      modifies this`assignments
      ensures Valid() && Took(old(State()), Step.AssignSnapshotBuild(env, build, tag, rowId, now), State(), ran)
      ensures ran ==> rows == if IsActiveEnv(Committed(), env) && build in builds then 1 else 0
      ensures ran ==> assignments == old(assignments) + if rows == 1 then {Assignment(rowId, env, build, tag, now)} else {}
    {
      ghost var before := State();
      ran, rows := EnvShareable(txns, env), 0;
      if ran {
        if env in envs && !envs[env].deleted && build in builds {
          assignments := assignments + {Assignment(rowId, env, build, tag, now)};
          rows := 1;
        }
        assert Exec(before, Step.AssignSnapshotBuild(env, build, tag, rowId, now)) == Some(State());
        ReachableStep(before, Step.AssignSnapshotBuild(env, build, tag, rowId, now), State());
      }
    }

    /** Writes the CPU columns of a build by id, without looking at its status. */
    method UpdateTemplateBuild(b: BuildId, cpu: CpuInfo) returns (ran: bool)
      requires Valid()
      modifies this`builds
      ensures Valid() && Took(old(State()), Step.UpdateTemplateBuild(b, cpu), State(), ran)
      ensures ran && b in builds ==> builds[b].cpu == cpu && builds[b].status == old(builds)[b].status
    {
      ghost var before := State();
      ran := BuildRowsFree(txns, {b});
      if ran {
        if b in builds {
          builds := builds[b := builds[b].(cpu := cpu)];
        }
        assert Exec(before, Step.UpdateTemplateBuild(b, cpu)) == Some(State());
        ReachableStep(before, Step.UpdateTemplateBuild(b, cpu), State());
      }
    }

    /**
     Returns the caller's template if the name was free, otherwise the owner that the statement's
     snapshot shows, if it shows one.
     */
    method UpsertTemplateAliasIfNotExists(key: AliasKey, env: EnvId, snapshot: Option<EnvId>) returns (ran: bool, owner: Option<EnvId>)
      requires Valid()
      modifies this`aliases
      ensures Valid() && Took(old(State()), Step.UpsertTemplateAlias(key, env), State(), ran)
      ensures ran ==> owner == UpsertAnswer(old(Committed()), snapshot, key, env)
      ensures ran && env in envs && (key in old(aliases) ==> snapshot == Some(old(aliases)[key].env))
              ==> key in aliases && owner == Some(aliases[key].env)
    {
      ghost var before := State();
      ran, owner := AliasKeysFree(txns, {key}), None;
      if ran {
        if key in aliases {
          owner := snapshot;
        } else if env in envs {
          aliases := aliases[key := AliasRow(env, true)];
          owner := Some(env);
        }
        assert Exec(before, Step.UpsertTemplateAlias(key, env)) == Some(State());
        ReachableStep(before, Step.UpsertTemplateAlias(key, env), State());
      }
    }

    /**
     The four inserts and updates of one pause; returns the snapshot's template and the new build.
     A snapshot row that NOT EXISTS finds is there, since no statement deletes one.
     */
    method UpsertSnapshot(p: Pause) returns (ran: bool, result: Option<(EnvId, BuildId)>)
      requires Valid() && (p.seen ==> p.sandbox in snapshots)
      modifies this
      ensures Valid() && Took(old(State()), PauseSandbox(p), State(), ran)
      ensures result.Some? ==> ran
      ensures result.Some? ==>
                && p.sandbox in snapshots && snapshots[p.sandbox].env == result.value.0 && result.value.0 in envs
                && result.value.1 == p.build && p.build in builds && p.build !in old(builds)
                && Assignment(p.rowId, result.value.0, p.build, DEFAULT_TAG, p.now) in assignments
                && (p.sandbox in old(snapshots) ==> result.value.0 == old(snapshots)[p.sandbox].env)
      ensures result.None? ==> State() == old(State())
    {
      ghost var before := State();
      ran, result := BuildRowsFree(txns, {p.build}) && forall j | j in txns :: p.template !in txns[j].w.envs, None;
      if !ran {
        return;
      }
      var env := if p.sandbox in snapshots then snapshots[p.sandbox].env else p.template;
      if p.build !in builds && (p.seen || p.template !in envs) && (env in envs || (!p.seen && env == p.template)) {
        WritePause(p, env);
        result := Some((env, p.build));
      }
      PauseRuns(before, p);
      ReachableStep(before, PauseSandbox(p), State());
    }

    /** The rows an accepted pause writes. */
    method WritePause(p: Pause, env: EnvId)
      requires p.seen ==> p.sandbox in snapshots
      requires env == if p.sandbox in snapshots then snapshots[p.sandbox].env else p.template
      requires p.build !in builds && (p.seen || p.template !in envs) && (env in envs || (!p.seen && env == p.template))
      modifies this`envs, this`snapshots, this`builds, this`assignments
      ensures Transactions.UpsertSnapshot(old(Committed()), p) == Some(Committed())
    {
      ghost var before := Committed();
      var cpu := if p.source in builds then builds[p.source].cpu else NULL_CPU;
      if !p.seen {
        envs := envs[p.template := Env(p.team, SnapshotSource, false, 1)];
      }
      if p.sandbox in snapshots {
        var row := snapshots[p.sandbox];
        var allow := if p.allowInternet.Some? then p.allowInternet else row.allowInternet;
        snapshots := snapshots[p.sandbox := row.(startedAt := p.startedAt, allowInternet := allow, originNode := p.originNode)];
      } else {
        snapshots := snapshots[p.sandbox := Snapshot(env, p.baseEnv, p.team, p.startedAt, p.allowInternet, p.originNode)];
      }
      assert snapshots[p.sandbox] == PausedRow(before, p);
      builds := builds[p.build := Build(p.status, cpu)];
      assignments := assignments + {Assignment(p.rowId, env, p.build, DEFAULT_TAG, p.now)};
    }

    /** Ends a build: its tracking row goes and its status is set, together. */
    method FinishTemplateBuild(b: BuildId, status: BuildStatus) returns (ran: bool)
      requires Valid()
      modifies this
      ensures Valid() && Took(old(State()), Step.FinishTemplateBuild(b, status), State(), ran)
      ensures ran ==> b !in active && (b in builds ==> builds[b].status == status)
    {
      ghost var before := State();
      ran := BuildRowsFree(txns, {b}) && ActiveRowsFree(txns, {b});
      if ran {
        active := active - {b};
        if b in builds {
          builds := builds[b := builds[b].(status := status)];
        }
        assert Exec(before, Step.FinishTemplateBuild(b, status)) == Some(State());
        ReachableStep(before, Step.FinishTemplateBuild(b, status), State());
      }
    }

    /** Sets a status and leaves the tracking row alone. */
    method UpdateEnvBuildStatus(b: BuildId, status: BuildStatus) returns (ran: bool)
      requires Valid()
      modifies this`builds
      ensures Valid() && Took(old(State()), Step.UpdateEnvBuildStatus(b, status), State(), ran)
    {
      ghost var before := State();
      ran := BuildRowsFree(txns, {b});
      if ran {
        if b in builds {
          builds := builds[b := builds[b].(status := status)];
        }
        assert Exec(before, Step.UpdateEnvBuildStatus(b, status)) == Some(State());
        ReachableStep(before, Step.UpdateEnvBuildStatus(b, status), State());
      }
    }
  }

  /** rows.Next, Scan, append. */
  method CollectKeys(released: set<AliasKey>) returns (items: seq<string>)
    ensures |items| == |released|
    ensures forall x :: x in items <==> exists k :: k in released && CacheKey(k) == x
  {
    items := [];
    var left := released;
    while left != {}
      invariant left <= released && |items| == |released| - |left|
      invariant forall x :: x in items <==> exists k :: k in released && k !in left && CacheKey(k) == x
      decreases |left|
    {
      var k :| k in left;
      items := items + [CacheKey(k)];
      left := left - {k};
    }
  }
}
