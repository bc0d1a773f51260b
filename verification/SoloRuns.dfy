/**
 Transactions with nobody else at work, statement by statement, and the runs built from them: how
 the store gets from empty to the states that the counterexamples start from.
 */
module SoloRuns {
  import opened TemplateTables
  import opened Transactions
  import opened DeletionSafety
  import opened AliasOwnership

  lemma Alone(t: Txn)
    ensures map[0 := t] - {0} == map[]
    ensures forall t' :: map[0 := t][0 := t'] == map[0 := t']
  {
  }

  lemma ReplayStep(s: Store, step: Step, next: Store, rest: seq<Step>)
    requires Exec(s, step) == Some(next)
    ensures Replay(s, [step] + rest) == Replay(next, rest)
  {
    assert ([step] + rest)[1..] == rest;
  }

  /** A replay is a run. */
  lemma {:induction false} ReplayIsRun(s: Store, steps: seq<Step>) returns (states: seq<Store>)
    requires Replay(s, steps).Some?
    ensures IsRun(states, steps) && states[0] == s && states[|steps|] == Replay(s, steps).value
    decreases |steps|
  {
    if steps == [] {
      states := [s];
    } else {
      var rest := ReplayIsRun(Exec(s, steps[0]).value, steps[1..]);
      states := [s] + rest;
      forall k: nat | k < |steps| ensures Follows(states, steps, k) {
        if k > 0 {
          assert Follows(rest, steps[1..], k - 1);
        }
      }
    }
  }

  lemma ExtendRun(states: seq<Store>, steps: seq<Step>, step: Step, next: Store) returns (states': seq<Store>, steps': seq<Step>)
    requires IsRun(states, steps) && Exec(states[|steps|], step) == Some(next)
    ensures states' == states + [next] && steps' == steps + [step] && IsRun(states', steps')
  {
    states', steps' := states + [next], steps + [step];
    forall k: nat | k < |steps'| ensures Follows(states', steps', k) {
      assert k < |steps| ==> Follows(states, steps, k);
    }
  }

  /** Every open transaction may give up. */
  lemma {:induction false} RollbackAll(s: Store) returns (steps: seq<Step>)
    ensures Replay(s, steps) == Some(s.(txns := map[]))
    decreases |s.txns|
  {
    if s.txns == map[] {
      steps := [];
    } else {
      var j :| j in s.txns;
      assert |s.txns - {j}| < |s.txns| by {
        assert (s.txns - {j}).Keys == s.txns.Keys - {j};
      }
      var rest := RollbackAll(Drop(s, j));
      steps := [Rollback(j)] + rest;
    }
  }

  // ---------------------------------------------------------------------------------------
  // A registration without an alias
  // ---------------------------------------------------------------------------------------

  function Registering(c: Tables, r: Txn): Store {
    Store(c, map[0 := r])
  }

  /** What the later statements of a registration leave alone. */
  predicate KeepsEnvAndAliases(r: Txn, next: Txn) {
    next.w.envs == r.w.envs && next.w.aliasIns == r.w.aliasIns && next.w.aliasDel == r.w.aliasDel
  }

  lemma LocksAlone(c: Tables, r: Txn)
    requires r.Registration? && r.phase.RegBegun? && r.w == NO_WRITES && !IsDeletedEnv(c, r.env)
    ensures Exec(Registering(c, r), CreateOrUpdateTemplate(0))
            == Some(Registering(c, r.(phase := EnvLocked, w := NO_WRITES.(envs := map[r.env := UpsertedEnv(c, r.env, r.team)]))))
  {
    Alone(r);
    assert Apply(NO_WRITES, c).envs == c.envs;
    assert NO_WRITES.envs[r.env := UpsertedEnv(c, r.env, r.team)] == map[r.env := UpsertedEnv(c, r.env, r.team)];
  }

  ghost predicate FailsPendingOf(w: WriteSet, c: Tables, env: EnvId, tags: seq<Tag>) {
    forall a :: a in c.assignments && a.env == env && a.tag in tags && IsPending(c, a.build)
                ==> a.build in w.builds && w.builds[a.build] == c.builds[a.build].(status := Failed)
  }

  lemma InvalidatesAlone(c: Tables, r: Txn) returns (next: Txn)
    requires r.Registration? && r.phase.EnvLocked? && r.w.builds == map[] && r.w.assignments == {} && r.w.activeIns == map[]
    ensures Exec(Registering(c, r), InvalidateUnstartedTemplateBuilds(0)) == Some(Registering(c, next))
    ensures next == r.(phase := Invalidated, w := next.w) && next.w.activeIns == map[] && KeepsEnvAndAliases(r, next)
    ensures FailsPendingOf(next.w, c, r.env, r.tags) && forall d :: d in next.w.builds ==> d in c.builds
  {
    Alone(r);
    var v := Apply(r.w, c);
    assert v.builds == c.builds && v.assignments == c.assignments;
    next := r.(phase := Invalidated, w := InvalidateWrites(r.w, v, r.env, r.tags));
    forall a | a in c.assignments && a.env == r.env && a.tag in r.tags && IsPending(c, a.build)
      ensures a.build in next.w.builds && next.w.builds[a.build] == c.builds[a.build].(status := Failed)
    {
      assert a.build in Unstarted(v, r.env, r.tags);
    }
  }

  lemma CreatesAlone(c: Tables, r: Txn) returns (next: Txn)
    requires r.Registration? && r.phase.Invalidated? && r.alias.None?
    requires r.build !in c.builds && r.build !in r.w.builds
    ensures Exec(Registering(c, r), CreateTemplateBuild(0)) == Some(Registering(c, next))
    ensures next == r.(phase := Assigning(0), w := next.w) && next.w.activeIns == r.w.activeIns && KeepsEnvAndAliases(r, next)
    ensures next.w.builds == r.w.builds[r.build := Build(Waiting, NULL_CPU)]
  {
    Alone(r);
    next := r.(phase := Assigning(0), w := r.w.(builds := r.w.builds[r.build := Build(Waiting, NULL_CPU)]));
  }

  lemma AttachesAlone(c: Tables, r: Txn) returns (next: Txn)
    requires r.Registration? && r.phase == Assigning(0) && |r.tags| == 1
    ensures Exec(Registering(c, r), CreateTemplateBuildAssignment(0, 0, 0)) == Some(Registering(c, next))
    ensures next == r.(phase := Assigning(1), w := next.w) && KeepsEnvAndAliases(r, next)
    ensures next.w.builds == r.w.builds && next.w.activeIns == r.w.activeIns
  {
    Alone(r);
    next := r.(phase := Assigning(1),
               w := if IsActiveEnv(Apply(r.w, c), r.env) then Attach(r.w, r.env, r.build, r.tags[0], 0, 0) else r.w);
  }

  lemma ActivatesAlone(c: Tables, r: Txn) returns (next: Txn)
    requires r.Registration? && r.phase == Assigning(1) && |r.tags| == 1 && r.build !in c.active && r.w.activeIns == map[]
    ensures Exec(Registering(c, r), CreateActiveTemplateBuild(0)) == Some(Registering(c, next))
    ensures next == r.(phase := Activated, w := next.w) && next.w.builds == r.w.builds && KeepsEnvAndAliases(r, next)
  {
    Alone(r);
    next := r.(phase := Activated, w := r.w.(activeIns := r.w.activeIns[r.build := ActiveBuild(r.team, r.env, r.tags)]));
  }

  function BeginOf(env: EnvId, team: TeamId, tag: Tag, unused: BuildId): Step {
    BeginRegistration(0, env, team, [tag], unused, None)
  }

  function RegistrationSteps(env: EnvId, team: TeamId, tag: Tag, unused: BuildId): seq<Step> {
    [BeginOf(env, team, tag, unused)]
    + ([CreateOrUpdateTemplate(0)]
       + ([InvalidateUnstartedTemplateBuilds(0)]
          + ([CreateTemplateBuild(0)]
             + ([CreateTemplateBuildAssignment(0, 0, 0)] + ([CreateActiveTemplateBuild(0)] + [Commit(0)])))))
  }

  /** What a registration of an unused build leaves behind. */
  ghost predicate Registers(c: Tables, env: EnvId, team: TeamId, tag: Tag, unused: BuildId, done: Tables) {
    && IsActiveEnv(done, env) && done.envs[env].team == (if env in c.envs then c.envs[env].team else team)
    && unused in done.builds && done.builds[unused] == Build(Waiting, NULL_CPU)
    && done.aliases == c.aliases
    && (forall a :: a in c.assignments && a.env == env && a.tag == tag && IsPending(c, a.build)
                    ==> a.build in done.builds && done.builds[a.build] == c.builds[a.build].(status := Failed))
  }

  /** The statements of a registration, up to its commit. */
  lemma RegistersUpToCommit(c: Tables, env: EnvId, team: TeamId, tag: Tag, unused: BuildId) returns (last: Txn)
    requires !IsDeletedEnv(c, env) && unused !in c.builds && unused !in c.active
    ensures last.Registration? && last.phase.Activated?
    ensures Registers(c, env, team, tag, unused, Apply(last.w, c))
    ensures Replay(Store(c, map[]), RegistrationSteps(env, team, tag, unused)) == Replay(Registering(c, last), [Commit(0)])
  {
    var r0 := Registration(env, team, [tag], unused, None, RegBegun, NO_WRITES);
    LocksAlone(c, r0);
    var r1 := r0.(phase := EnvLocked, w := NO_WRITES.(envs := map[env := UpsertedEnv(c, env, team)]));
    var r2 := InvalidatesAlone(c, r1);
    var r3 := CreatesAlone(c, r2);
    var r4 := AttachesAlone(c, r3);
    var r5 := ActivatesAlone(c, r4);
    RegistrationEffect(c, env, team, tag, unused, r2.w, r5.w);
    last := r5;
    var finish := [CreateActiveTemplateBuild(0)] + [Commit(0)];
    ReplayStep(Registering(c, r4), CreateActiveTemplateBuild(0), Registering(c, r5), [Commit(0)]);
    ReplayStep(Registering(c, r3), CreateTemplateBuildAssignment(0, 0, 0), Registering(c, r4), finish);
    finish := [CreateTemplateBuildAssignment(0, 0, 0)] + finish;
    ReplayStep(Registering(c, r2), CreateTemplateBuild(0), Registering(c, r3), finish);
    finish := [CreateTemplateBuild(0)] + finish;
    ReplayStep(Registering(c, r1), InvalidateUnstartedTemplateBuilds(0), Registering(c, r2), finish);
    finish := [InvalidateUnstartedTemplateBuilds(0)] + finish;
    ReplayStep(Registering(c, r0), CreateOrUpdateTemplate(0), Registering(c, r1), finish);
    finish := [CreateOrUpdateTemplate(0)] + finish;
    assert Exec(Store(c, map[]), BeginOf(env, team, tag, unused)) == Some(Registering(c, r0));
    ReplayStep(Store(c, map[]), BeginOf(env, team, tag, unused), Registering(c, r0), finish);
  }

  lemma RegistrationEffect(c: Tables, env: EnvId, team: TeamId, tag: Tag, unused: BuildId, invalidated: WriteSet, w: WriteSet)
    requires !IsDeletedEnv(c, env) && unused !in c.builds
    requires w.envs == map[env := UpsertedEnv(c, env, team)] && w.aliasIns == map[] && w.aliasDel == {}
    requires FailsPendingOf(invalidated, c, env, [tag]) && w.builds == invalidated.builds[unused := Build(Waiting, NULL_CPU)]
    ensures Registers(c, env, team, tag, unused, Apply(w, c))
  {
  }

  lemma RegistersAlone(c: Tables, env: EnvId, team: TeamId, tag: Tag, unused: BuildId) returns (done: Tables)
    requires !IsDeletedEnv(c, env) && unused !in c.builds && unused !in c.active
    ensures Replay(Store(c, map[]), RegistrationSteps(env, team, tag, unused)) == Some(Store(done, map[]))
    ensures Registers(c, env, team, tag, unused, done)
  {
    var last := RegistersUpToCommit(c, env, team, tag, unused);
    done := Apply(last.w, c);
    Alone(last);
    CommitAlone(Registering(c, last), 0);
  }

  /** The same from any store: the open transactions give up first. */
  lemma RegistersFrom(s: Store, env: EnvId, team: TeamId, tag: Tag, unused: BuildId) returns (steps: seq<Step>, done: Tables)
    requires !IsDeletedEnv(s.committed, env) && unused !in s.committed.builds && unused !in s.committed.active
    ensures Replay(s, steps) == Some(Store(done, map[])) && Registers(s.committed, env, team, tag, unused, done)
  {
    var cleared := RollbackAll(s);
    done := RegistersAlone(s.committed, env, team, tag, unused);
    steps := ReplayTwo(s, cleared, s.(txns := map[]), RegistrationSteps(env, team, tag, unused), Store(done, map[]));
  }

  lemma ReplayTwo(s: Store, a: seq<Step>, t: Store, b: seq<Step>, u: Store) returns (steps: seq<Step>)
    requires Replay(s, a) == Some(t) && Replay(t, b) == Some(u)
    ensures steps == a + b && Replay(s, steps) == Some(u)
  {
    ReplayConcat(s, a, b);
    steps := a + b;
  }

  // ---------------------------------------------------------------------------------------
  // A deletion
  // ---------------------------------------------------------------------------------------

  function Deleted(row: Env): Env {
    row.(deleted := true)
  }

  function DeletionWrites(c: Tables, env: EnvId, done: DelPhase): WriteSet
    requires env in c.envs
  {
    if done.DelBegun? then NO_WRITES
    else
      var w := NO_WRITES.(envs := map[env := Deleted(c.envs[env])]);
      if done.SoftDeleted? then w
      else if done.AliasesReleased? then w.(aliasDel := AliasesOf(c, env))
      else w.(aliasDel := AliasesOf(c, env), activeDel := ActiveRowsOf(c, env))
  }

  function Deleting(c: Tables, env: EnvId, team: TeamId, done: DelPhase): Store
    requires env in c.envs
  {
    Store(c, map[0 := Deletion(env, team, done, DeletionWrites(c, env, done))])
  }

  lemma SoftDeletesAlone(c: Tables, env: EnvId, team: TeamId)
    requires IsActiveEnv(c, env) && c.envs[env].team == team
    ensures Exec(Deleting(c, env, team, DelBegun), Step.SoftDeleteTemplate(0)) == Some(Deleting(c, env, team, SoftDeleted))
  {
    Alone(Deletion(env, team, DelBegun, NO_WRITES));
    assert Apply(NO_WRITES, c).envs == c.envs;
    assert NO_WRITES.(envs := NO_WRITES.envs[env := Deleted(c.envs[env])]) == DeletionWrites(c, env, SoftDeleted);
  }

  lemma ReleasesAlone(c: Tables, env: EnvId, team: TeamId)
    requires env in c.envs
    ensures AliasesOf(Apply(DeletionWrites(c, env, SoftDeleted), c), env) == AliasesOf(c, env)
    ensures Exec(Deleting(c, env, team, SoftDeleted), Step.ReleaseTemplateAliases(0)) == Some(Deleting(c, env, team, AliasesReleased))
  {
    Alone(Deletion(env, team, SoftDeleted, DeletionWrites(c, env, SoftDeleted)));
    assert Apply(DeletionWrites(c, env, SoftDeleted), c).aliases == c.aliases;
    assert DeleteAliasWrites(DeletionWrites(c, env, SoftDeleted), AliasesOf(c, env)) == DeletionWrites(c, env, AliasesReleased);
  }

  lemma ClearsAlone(c: Tables, env: EnvId, team: TeamId)
    requires env in c.envs
    ensures Exec(Deleting(c, env, team, AliasesReleased), Step.DeleteActiveTemplateBuilds(0)) == Some(Deleting(c, env, team, ActiveCleared))
  {
    Alone(Deletion(env, team, AliasesReleased, DeletionWrites(c, env, AliasesReleased)));
    var w := DeletionWrites(c, env, AliasesReleased);
    assert Apply(w, c).active == c.active;
    assert ActiveRowsOf(Apply(w, c), env) == ActiveRowsOf(c, env);
    assert w.(activeDel := w.activeDel + ActiveRowsOf(c, env)) == DeletionWrites(c, env, ActiveCleared);
  }

  lemma CommitsAlone(c: Tables, env: EnvId, team: TeamId)
    requires env in c.envs
    ensures Exec(Deleting(c, env, team, ActiveCleared), Step.Commit(0))
            == Some(Store(c.(envs := c.envs[env := Deleted(c.envs[env])],
                             aliases := c.aliases - AliasesOf(c, env),
                             active := c.active - ActiveRowsOf(c, env)), map[]))
  {
    var w := DeletionWrites(c, env, ActiveCleared);
    Alone(Deletion(env, team, ActiveCleared, w));
    assert Apply(w, c) == c.(envs := c.envs[env := Deleted(c.envs[env])],
                             aliases := c.aliases - AliasesOf(c, env),
                             active := c.active - ActiveRowsOf(c, env));
  }

  // ---------------------------------------------------------------------------------------
  // A deleted template that owns a name
  // ---------------------------------------------------------------------------------------

  lemma {:induction false} ReplayKeepsLocks(s: Store, steps: seq<Step>)
    requires LockInv(s) && Replay(s, steps).Some?
    ensures LockInv(Replay(s, steps).value)
    decreases |steps|
  {
    if steps != [] {
      StepKeepsLocks(s, steps[0]);
      ReplayKeepsLocks(Exec(s, steps[0]).value, steps[1..]);
    }
  }

  function ReleaseSteps(env: EnvId, team: TeamId): seq<Step> {
    [BeginDeletion(0, env, team)] + ([SoftDeleteTemplate(0)] + [ReleaseTemplateAliases(0)])
  }

  lemma ReleasesUpTo(c: Tables, env: EnvId, team: TeamId)
    requires IsActiveEnv(c, env) && c.envs[env].team == team
    ensures Replay(Store(c, map[]), ReleaseSteps(env, team)) == Some(Deleting(c, env, team, AliasesReleased))
  {
    assert Exec(Store(c, map[]), BeginDeletion(0, env, team)) == Some(Deleting(c, env, team, DelBegun));
    SoftDeletesAlone(c, env, team);
    ReleasesAlone(c, env, team);
    ReplayStep(Store(c, map[]), BeginDeletion(0, env, team), Deleting(c, env, team, DelBegun),
               [SoftDeleteTemplate(0)] + [ReleaseTemplateAliases(0)]);
    ReplayStep(Deleting(c, env, team, DelBegun), SoftDeleteTemplate(0), Deleting(c, env, team, SoftDeleted), [ReleaseTemplateAliases(0)]);
    assert [ReleaseTemplateAliases(0)] == [ReleaseTemplateAliases(0)] + [];
    ReplayStep(Deleting(c, env, team, SoftDeleted), ReleaseTemplateAliases(0), Deleting(c, env, team, AliasesReleased), []);
  }

  /**
   From the empty store: a template is registered, its deletion releases the aliases it has, a claim
   comes in, and the deletion goes on to its commit.  The deleted template owns the name.
   */
  lemma DeletedTemplateOwnsName(env: EnvId, team: TeamId, key: AliasKey) returns (steps: seq<Step>)
    ensures Replay(EMPTY_STORE, steps).Some? && !AliasesHaveLiveEnv(Replay(EMPTY_STORE, steps).value.committed)
  {
    var c := RegistersAlone(EMPTY_TABLES, env, team, DEFAULT_TAG, 0);
    var begin := RegistrationSteps(env, team, DEFAULT_TAG, 0);
    ReleasesUpTo(c, env, team);
    ReplayConcat(EMPTY_STORE, begin, ReleaseSteps(env, team));
    var released := begin + ReleaseSteps(env, team);
    var s := Deleting(c, env, team, AliasesReleased);
    ReplayKeepsLocks(EMPTY_STORE, released);
    var claim := UpsertTemplateAlias(key, env);
    assert s.txns[0].w.aliasDel == {} && s.txns[0].w.aliasIns == map[];
    assert TakesName(s, claim) && HasReleased(s.txns[0]) && !MayClaimFor(s, env);
    var rest := UnguardedClaimCanLeak(s, claim);
    ReplayStep(s, claim, Exec(s, claim).value, rest);
    ReplayConcat(EMPTY_STORE, released, [claim] + rest);
    steps := released + ([claim] + rest);
  }
}
