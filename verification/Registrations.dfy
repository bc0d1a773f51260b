/**
 What a committed registration or tagging has done, over every interleaving: every tag of the request
 points at the build, nothing else was attached, the build is tracked and the name is owned.
 */
module Registrations {
  import opened TemplateTables
  import opened Transactions
  import opened DeletionSafety
  import opened AliasOwnership
  import opened TagResolution

  /** Each of the first n tags has a row, and each row is for one of them. */
  ghost predicate Attached(rows: set<Assignment>, env: EnvId, build: BuildId, tags: seq<Tag>, n: nat)
    requires n <= |tags|
  {
    && (forall j :: 0 <= j < n ==> HasRow(rows, env, build, tags[j]))
    && (forall a :: a in rows ==> a.env == env && a.build == build && a.tag in tags[..n])
  }

  ghost predicate HasRow(rows: set<Assignment>, env: EnvId, build: BuildId, tag: Tag) {
    exists a :: a in rows && a.env == env && a.build == build && a.tag == tag
  }

  predicate IsAttaching(p: RegPhase) {
    p.Assigning? || p.Activated?
  }

  predicate HasBuild(p: RegPhase) {
    !p.RegBegun? && !p.EnvLocked? && !p.Invalidated?
  }

  predicate BeforeAliasWrites(p: RegPhase) {
    p.RegBegun? || p.EnvLocked? || p.Invalidated? || p.BuildCreated? || p.ConflictChecked? || p.AliasMissing?
  }

  /** The template has the name, in the transaction or already. */
  ghost predicate HasName(t: Txn, c: Tables, key: AliasKey) {
    || (key in t.w.aliasIns && t.w.aliasIns[key] == AliasRow(t.env, true))
    || (key in c.aliases && c.aliases[key].env == t.env && key !in t.w.aliasDel)
  }

  ghost predicate RegistrationSoFar(t: Txn, c: Tables)
    requires t.Registration?
  {
    && (HoldsExclusive(t) ==> t.w.envs == map[t.env := UpsertedEnv(c, t.env, t.team)])
    && (t.phase.Assigning? ==> t.phase.next <= |t.tags| && Attached(t.w.assignments, t.env, t.build, t.tags, t.phase.next))
    && (t.phase.Activated? ==> Attached(t.w.assignments, t.env, t.build, t.tags, |t.tags|))
    && (!IsAttaching(t.phase) ==> t.w.assignments == {})
    && (t.phase.Activated? ==> t.build in t.w.activeIns && t.w.activeIns[t.build] == ActiveBuild(t.team, t.env, t.tags))
    && (t.phase.RegBegun? || t.phase.EnvLocked? ==> t.w.builds == map[])
    && (forall b :: b in t.w.builds && b != t.build ==> t.w.builds[b].status == Failed)
    && (HasBuild(t.phase) ==> t.build in t.w.builds && t.w.builds[t.build] == Build(Waiting, NULL_CPU))
    && (BeforeAliasWrites(t.phase) ==> t.w.aliasIns == map[] && t.w.aliasDel == {})
    && (IsAttaching(t.phase) && t.w.aliasIns == map[] ==> t.w.aliasDel == {})
    && (forall k :: k in t.w.aliasIns ==> t.alias == Some(k) && t.w.aliasIns[k] == AliasRow(t.env, true))
    && (IsAttaching(t.phase) && t.alias.Some? ==> HasName(t, c, t.alias.value))
    && (forall k :: k in t.w.aliasDel && k in c.aliases ==> c.aliases[k].env == t.env && c.aliases[k].renamable)
  }

  /** What the statements run so far have written. */
  ghost predicate SoFar(t: Txn, c: Tables) {
    match t
    case Registration(_, _, _, _, _, _, _) => RegistrationSoFar(t, c)
    case Deletion(env, team, progress, w) =>
      && w.assignments == {} && w.aliasIns == map[]
      && (progress.DelBegun? || progress.SoftDeleted? ==> w.aliasDel == {})
      && (HoldsExclusive(t) ==> env in c.envs && c.envs[env].team == team && w.envs == map[env := c.envs[env].(deleted := true)])
    case Tagging(env, build, tags, done, w) =>
      && done <= |tags| && Attached(w.assignments, env, build, tags, done)
      && w == NO_WRITES.(assignments := w.assignments)
  }

  ghost predicate SoFarInv(s: Store) {
    AliasInv(s) && forall i :: i in s.txns ==> SoFar(s.txns[i], s.committed)
  }

  // ---------------------------------------------------------------------------------------
  // Statements of a transaction
  // ---------------------------------------------------------------------------------------

  /** The transaction is rolled back, or goes on with what it has done recorded. */
  ghost predicate GoesOn(s: Store, i: TxnId, s': Store)
    requires i in s.txns
  {
    s' == Drop(s, i) || (i in s'.txns && s' == Put(s, i, s'.txns[i]) && SoFar(s'.txns[i], s.committed))
  }

  lemma UpsertGoesOn(s: Store, i: TxnId)
    requires i in s.txns && SoFar(s.txns[i], s.committed) && WritesUnderLock(s.txns[i], s.committed)
    requires ExecCreateOrUpdate(s, i, s.txns[i]).Some?
    ensures GoesOn(s, i, ExecCreateOrUpdate(s, i, s.txns[i]).value)
  {
    var t, c := s.txns[i], s.committed;
    assert t.w.envs == map[];
    assert Apply(t.w, c).envs == c.envs;
  }

  lemma InvalidateGoesOn(s: Store, i: TxnId)
    requires i in s.txns && SoFar(s.txns[i], s.committed) && ExecInvalidate(s, i, s.txns[i]).Some?
    ensures GoesOn(s, i, ExecInvalidate(s, i, s.txns[i]).value)
  {
  }

  lemma CreateBuildGoesOn(s: Store, i: TxnId)
    requires i in s.txns && SoFar(s.txns[i], s.committed) && ExecCreateBuild(s, i, s.txns[i]).Some?
    ensures GoesOn(s, i, ExecCreateBuild(s, i, s.txns[i]).value)
  {
  }

  lemma CheckConflictGoesOn(s: Store, i: TxnId)
    requires i in s.txns && SoFar(s.txns[i], s.committed) && ExecCheckConflict(s, i, s.txns[i]).Some?
    ensures GoesOn(s, i, ExecCheckConflict(s, i, s.txns[i]).value)
  {
  }

  lemma CheckExistsGoesOn(s: Store, i: TxnId)
    requires i in s.txns && SoFar(s.txns[i], s.committed) && ExecCheckExists(s, i, s.txns[i]).Some?
    ensures GoesOn(s, i, ExecCheckExists(s, i, s.txns[i]).value)
  {
    assert (s.committed.aliases - {}) + map[] == s.committed.aliases;
    CheckedSoFar(s.txns[i], s.committed);
  }

  lemma CheckedSoFar(t: Txn, c: Tables)
    requires t.Registration? && RegistrationSoFar(t, c) && t.phase.ConflictChecked? && t.alias.Some?
    ensures RegistrationSoFar(t.(phase := AliasMissing), c)
    ensures t.alias.value in c.aliases && c.aliases[t.alias.value].env == t.env ==> RegistrationSoFar(t.(phase := Assigning(0)), c)
  {
  }

  lemma DeleteOtherGoesOn(s: Store, i: TxnId)
    requires i in s.txns && SoFar(s.txns[i], s.committed) && ExecDeleteOther(s, i, s.txns[i]).Some?
    ensures GoesOn(s, i, ExecDeleteOther(s, i, s.txns[i]).value)
  {
  }

  lemma CreateAliasGoesOn(s: Store, i: TxnId)
    requires i in s.txns && SoFar(s.txns[i], s.committed) && ExecCreateAlias(s, i, s.txns[i]).Some?
    ensures GoesOn(s, i, ExecCreateAlias(s, i, s.txns[i]).value)
  {
  }

  lemma AttachOneMore(rows: set<Assignment>, env: EnvId, build: BuildId, tags: seq<Tag>, n: nat, a: Assignment)
    requires n < |tags| && Attached(rows, env, build, tags, n) && a.env == env && a.build == build && a.tag == tags[n]
    ensures Attached(rows + {a}, env, build, tags, n + 1)
  {
    forall j | 0 <= j < n + 1 ensures HasRow(rows + {a}, env, build, tags[j]) {
      if j < n {
        assert HasRow(rows, env, build, tags[j]);
        var o :| o in rows && o.env == env && o.build == build && o.tag == tags[j];
        assert o in rows + {a};
      } else {
        assert a in rows + {a};
      }
    }
    assert tags[..n + 1] == tags[..n] + [tags[n]];
  }

  lemma RegistrationAttaches(t: Txn, t': Txn, c: Tables, a: Assignment)
    requires t.Registration? && RegistrationSoFar(t, c) && t.phase.Assigning? && t.phase.next < |t.tags|
    requires a.env == t.env && a.build == t.build && a.tag == t.tags[t.phase.next]
    requires t' == t.(phase := Assigning(t.phase.next + 1), w := t.w.(assignments := t.w.assignments + {a}))
    ensures RegistrationSoFar(t', c)
  {
    AttachOneMore(t.w.assignments, t.env, t.build, t.tags, t.phase.next, a);
  }

  lemma RegistrationSeesLiveEnv(t: Txn, c: Tables)
    requires t.Registration? && WritesUnderLock(t, c) && HoldsExclusive(t)
    ensures IsActiveEnv(Apply(t.w, c), t.env)
  {
  }

  lemma AssignGoesOn(s: Store, i: TxnId, rowId: nat, now: int)
    requires i in s.txns && SoFar(s.txns[i], s.committed) && WritesUnderLock(s.txns[i], s.committed)
    requires ExecAssign(s, i, s.txns[i], rowId, now).Some?
    ensures GoesOn(s, i, ExecAssign(s, i, s.txns[i], rowId, now).value)
  {
    var t, c, s' := s.txns[i], s.committed, ExecAssign(s, i, s.txns[i], rowId, now).value;
    if t.Registration? {
      RegistrationSeesLiveEnv(t, c);
      RegistrationAttaches(t, s'.txns[i], c, Assignment(rowId, t.env, t.build, t.tags[t.phase.next], now));
    } else if IsActiveEnv(Apply(t.w, c), t.env) {
      TaggingAttaches(t, s'.txns[i], c, Assignment(rowId, t.env, t.build, t.tags[t.done], now));
    }
  }

  lemma TaggingAttaches(t: Txn, t': Txn, c: Tables, a: Assignment)
    requires t.Tagging? && SoFar(t, c) && t.done < |t.tags| && a.env == t.env && a.build == t.build && a.tag == t.tags[t.done]
    requires t' == t.(done := t.done + 1, w := t.w.(assignments := t.w.assignments + {a}))
    ensures SoFar(t', c)
  {
    AttachOneMore(t.w.assignments, t.env, t.build, t.tags, t.done, a);
  }

  lemma CreateActiveGoesOn(s: Store, i: TxnId)
    requires i in s.txns && SoFar(s.txns[i], s.committed) && ExecCreateActive(s, i, s.txns[i]).Some?
    ensures GoesOn(s, i, ExecCreateActive(s, i, s.txns[i]).value)
  {
  }

  lemma SoftDeleteGoesOn(s: Store, i: TxnId)
    requires i in s.txns && SoFar(s.txns[i], s.committed) && WritesUnderLock(s.txns[i], s.committed)
    requires ExecSoftDelete(s, i, s.txns[i]).Some?
    ensures GoesOn(s, i, ExecSoftDelete(s, i, s.txns[i]).value)
  {
    var t, c := s.txns[i], s.committed;
    assert t.w.envs == map[];
    assert Apply(t.w, c).envs == c.envs;
  }

  lemma ReleaseGoesOn(s: Store, i: TxnId)
    requires i in s.txns && SoFar(s.txns[i], s.committed) && ExecRelease(s, i, s.txns[i]).Some?
    ensures GoesOn(s, i, ExecRelease(s, i, s.txns[i]).value)
  {
  }

  lemma ClearActiveGoesOn(s: Store, i: TxnId)
    requires i in s.txns && SoFar(s.txns[i], s.committed) && ExecClearActive(s, i, s.txns[i]).Some?
    ensures GoesOn(s, i, ExecClearActive(s, i, s.txns[i]).value)
  {
  }

  lemma StatementGoesOn(s: Store, step: Step)
    requires IsTxnStatement(step) && Exec(s, step).Some? && step.i in s.txns
    requires SoFar(s.txns[step.i], s.committed) && WritesUnderLock(s.txns[step.i], s.committed)
    ensures GoesOn(s, step.i, Exec(s, step).value)
  {
    if step.CreateOrUpdateTemplate? {
      UpsertGoesOn(s, step.i);
    } else if step.InvalidateUnstartedTemplateBuilds? {
      InvalidateGoesOn(s, step.i);
    } else if step.CreateTemplateBuild? {
      CreateBuildGoesOn(s, step.i);
    } else if step.CheckAliasConflict? {
      CheckConflictGoesOn(s, step.i);
    } else if step.CheckAliasExists? {
      CheckExistsGoesOn(s, step.i);
    } else if step.DeleteOtherTemplateAliases? {
      DeleteOtherGoesOn(s, step.i);
    } else if step.CreateTemplateAlias? {
      CreateAliasGoesOn(s, step.i);
    } else if step.CreateTemplateBuildAssignment? {
      AssignGoesOn(s, step.i, step.rowId, step.now);
    } else if step.CreateActiveTemplateBuild? {
      CreateActiveGoesOn(s, step.i);
    } else if step.SoftDeleteTemplate? {
      SoftDeleteGoesOn(s, step.i);
    } else if step.ReleaseTemplateAliases? {
      ReleaseGoesOn(s, step.i);
    } else {
      ClearActiveGoesOn(s, step.i);
    }
  }

  // ---------------------------------------------------------------------------------------
  // Committed changes
  // ---------------------------------------------------------------------------------------

  /** What another's change leaves alone: a locked env row, and the names the template has. */
  ghost predicate LeavesAlone(t: Txn, c: Tables, c': Tables) {
    && (HoldsExclusive(t) ==> (t.env in c.envs <==> t.env in c'.envs) && (t.env in c.envs ==> c'.envs[t.env] == c.envs[t.env]))
    && (HoldsExclusive(t) ==>
          forall k :: k in c.aliases && c.aliases[k].env == t.env ==> k in c'.aliases && c'.aliases[k] == c.aliases[k])
    && (forall k :: k in t.w.aliasDel && k in c'.aliases ==> k in c.aliases)
  }

  lemma LeftAloneStaysSoFar(t: Txn, c: Tables, c': Tables)
    requires SoFar(t, c) && LeavesAlone(t, c, c')
    ensures SoFar(t, c')
  {
    if t.w.aliasDel != {} {
      DeletersHoldLock(t, c);
    }
  }

  /** Names are deleted only under the lock of their template. */
  lemma DeletersHoldLock(t: Txn, c: Tables)
    requires SoFar(t, c) && t.w.aliasDel != {}
    ensures HoldsExclusive(t)
  {
  }

  lemma CommitLeavesAlone(t: Txn, u: Txn, c: Tables)
    requires WritesUnderLock(t, c) && WritesUnderLock(u, c) && Compatible(t, u) && SoFar(t, c)
    requires AliasWritesOk(t, c) && LockedKeys(t) !! LockedKeys(u)
    ensures LeavesAlone(u, c, Apply(t.w, c))
  {
    var c' := Apply(t.w, c);
    if HoldsExclusive(u) {
      assert u.env !in t.w.envs;
      forall k | k in c.aliases && c.aliases[k].env == u.env ensures k in c'.aliases && c'.aliases[k] == c.aliases[k] {
        if k in t.w.aliasDel {
          DeletersHoldLock(t, c);
        }
      }
    }
    forall k | k in u.w.aliasDel && k in c'.aliases ensures k in c.aliases {
      assert k !in LockedKeys(t);
    }
  }

  lemma SingleLeavesAlone(s: Store, step: Step, i: TxnId)
    requires ExecSingle(s, step).Some? && i in s.txns && WritesUnderLock(s.txns[i], s.committed)
    ensures LeavesAlone(s.txns[i], s.committed, ExecSingle(s, step).value.committed)
  {
    SingleFrame(s, step);
    SingleAliasFrame(s, step);
    if HoldsExclusive(s.txns[i]) {
      NewEnvIsUnlocked(s, step, i);
    }
    var c' := ExecSingle(s, step).value.committed;
    forall k | k in s.txns[i].w.aliasDel && k in c'.aliases ensures k in s.committed.aliases {
      FreeKeyIsNotDeleted(s, i, k);
    }
  }

  /** A name that every transaction leaves free is deleted by none. */
  lemma FreeKeyIsNotDeleted(s: Store, i: TxnId, key: AliasKey)
    requires i in s.txns && key in s.txns[i].w.aliasDel
    ensures !AliasKeysFree(s.txns, {key})
  {
    assert key in {key} * LockedKeys(s.txns[i]);
  }

  lemma NewEnvIsUnlocked(s: Store, step: Step, i: TxnId)
    requires ExecSingle(s, step).Some? && i in s.txns && WritesUnderLock(s.txns[i], s.committed) && HoldsExclusive(s.txns[i])
    ensures s.txns[i].env in ExecSingle(s, step).value.committed.envs ==> s.txns[i].env in s.committed.envs
  {
    assert s.txns[i].env in s.txns[i].w.envs;
  }

  lemma StepKeepsSoFar(s: Store, step: Step)
    requires SoFarInv(s) && Exec(s, step).Some?
    ensures SoFarInv(Exec(s, step).value)
  {
    StepKeepsAliases(s, step);
    if step.Commit? {
      CommitKeepsSoFar(s, step.i);
    } else if IsTxnStatement(step) {
      StatementKeepsSoFar(s, step);
    } else if IsBegin(step) {
      BeginKeepsSoFar(s, step);
    } else if !step.Rollback? {
      SingleKeepsSoFar(s, step);
    }
  }

  lemma CommitKeepsSoFar(s: Store, i: TxnId)
    requires SoFarInv(s) && i in s.txns
    ensures forall j :: j in s.txns && j != i ==> SoFar(s.txns[j], Apply(s.txns[i].w, s.committed))
  {
    forall j | j in s.txns && j != i ensures SoFar(s.txns[j], Apply(s.txns[i].w, s.committed)) {
      CommitLeavesAlone(s.txns[i], s.txns[j], s.committed);
      LeftAloneStaysSoFar(s.txns[j], s.committed, Apply(s.txns[i].w, s.committed));
    }
  }

  lemma StatementKeepsSoFar(s: Store, step: Step)
    requires SoFarInv(s) && IsTxnStatement(step) && Exec(s, step).Some? && step.i in s.txns
    ensures forall j :: j in Exec(s, step).value.txns ==> SoFar(Exec(s, step).value.txns[j], Exec(s, step).value.committed)
  {
    assert WritesUnderLock(s.txns[step.i], s.committed);
    StatementGoesOn(s, step);
    GoingOnKeepsSoFar(s, step.i, Exec(s, step).value);
  }

  lemma GoingOnKeepsSoFar(s: Store, i: TxnId, s': Store)
    requires SoFarInv(s) && i in s.txns && GoesOn(s, i, s')
    ensures forall j :: j in s'.txns ==> SoFar(s'.txns[j], s'.committed)
  {
  }

  lemma BeginKeepsSoFar(s: Store, step: Step)
    requires SoFarInv(s) && IsBegin(step) && Exec(s, step).Some?
    ensures forall j :: j in Exec(s, step).value.txns ==> SoFar(Exec(s, step).value.txns[j], Exec(s, step).value.committed)
  {
    var s' := Exec(s, step).value;
    NothingSoFar(s'.txns[step.i], s.committed);
    assert s' == Put(s, step.i, s'.txns[step.i]);
  }

  lemma NothingSoFar(t: Txn, c: Tables)
    requires t.w == NO_WRITES && !HoldsLock(t) && (t.Registration? ==> t.phase.RegBegun?)
    ensures SoFar(t, c)
  {
  }

  lemma SingleKeepsSoFar(s: Store, step: Step)
    requires SoFarInv(s) && ExecSingle(s, step).Some?
    ensures forall j :: j in ExecSingle(s, step).value.txns ==> SoFar(ExecSingle(s, step).value.txns[j], ExecSingle(s, step).value.committed)
  {
    SingleFrame(s, step);
    var c' := ExecSingle(s, step).value.committed;
    forall j | j in s.txns ensures SoFar(s.txns[j], c') {
      SingleLeavesAlone(s, step, j);
      LeftAloneStaysSoFar(s.txns[j], s.committed, c');
    }
  }

  lemma {:induction false} RunKeepsSoFar(states: seq<Store>, steps: seq<Step>, n: nat)
    requires IsRun(states, steps) && SoFarInv(states[0]) && n < |states|
    ensures SoFarInv(states[n])
  {
    if n > 0 {
      RunKeepsSoFar(states, steps, n - 1);
      assert Follows(states, steps, n - 1);
      StepKeepsSoFar(states[n - 1], steps[n - 1]);
    }
  }

  // ---------------------------------------------------------------------------------------
  // What has been done when a transaction commits
  // ---------------------------------------------------------------------------------------

  /** c' has, beyond c, exactly rows that attach the build to the tags of the request, at least one to each. */
  ghost predicate TagsPointAt(c: Tables, c': Tables, env: EnvId, build: BuildId, tags: seq<Tag>) {
    && (forall j :: 0 <= j < |tags| ==> exists a :: a in c'.assignments && a.env == env && a.build == build && a.tag == tags[j])
    && c.assignments <= c'.assignments
    && (forall a :: a in c'.assignments && a !in c.assignments ==> a.env == env && a.build == build && a.tag in tags)
  }

  lemma AttachedPointAt(w: WriteSet, c: Tables, env: EnvId, build: BuildId, tags: seq<Tag>)
    requires Attached(w.assignments, env, build, tags, |tags|)
    ensures TagsPointAt(c, Apply(w, c), env, build, tags)
  {
    var c' := Apply(w, c);
    assert tags[..|tags|] == tags;
    forall j | 0 <= j < |tags| ensures exists a :: a in c'.assignments && a.env == env && a.build == build && a.tag == tags[j] {
      assert HasRow(w.assignments, env, build, tags[j]);
      var a :| a in w.assignments && a.env == env && a.build == build && a.tag == tags[j];
      assert a in c'.assignments;
    }
  }

  /** The env row of a registered template: a new one of the team, or the old one with one more build. */
  ghost predicate RegistersEnv(c: Tables, c': Tables, env: EnvId, team: TeamId) {
    env in c'.envs &&
    if env in c.envs then c'.envs[env] == c.envs[env].(buildCount := c.envs[env].buildCount + 1)
    else c'.envs[env] == Env(team, TemplateSource, false, 1)
  }

  /**
   Names of other templates, and names that may not be renamed, stay as they are; a registration
   without a name changes none; a name it adds may be renamed later.
   */
  ghost predicate NamesAfter(c: Tables, c': Tables, env: EnvId, alias: Option<AliasKey>) {
    && (forall k :: k in c.aliases && (c.aliases[k].env != env || !c.aliases[k].renamable) ==>
          k in c'.aliases && c'.aliases[k] == c.aliases[k])
    && (alias.None? ==> c'.aliases == c.aliases)
    && (forall k :: k in c'.aliases && k !in c.aliases ==> alias == Some(k) && c'.aliases[k] == AliasRow(env, true))
  }

  lemma RegistrationEffect(t: Txn, c: Tables)
    requires t.Registration? && t.phase.Activated? && RegistrationSoFar(t, c) && WritesUnderLock(t, c) && AliasWritesOk(t, c)
    ensures var c' := Apply(t.w, c);
            && TagsPointAt(c, c', t.env, t.build, t.tags)
            && t.build in c'.builds && c'.builds[t.build] == Build(Waiting, NULL_CPU)
            && t.build in c'.active && c'.active[t.build] == ActiveBuild(t.team, t.env, t.tags)
            && RegistersEnv(c, c', t.env, t.team)
            && (t.alias.Some? ==> OwnedBy(c', t.alias.value, t.env))
            && NamesAfter(c, c', t.env, t.alias)
  {
    AttachedPointAt(t.w, c, t.env, t.build, t.tags);
    RegistrationNames(t, c);
  }

  lemma RegistrationNames(t: Txn, c: Tables)
    requires t.Registration? && t.phase.Activated? && RegistrationSoFar(t, c) && AliasWritesOk(t, c)
    ensures NamesAfter(c, Apply(t.w, c), t.env, t.alias)
  {
    if t.alias.None? {
      assert t.w.aliasIns == map[];
    }
  }

  /**
   In every interleaving, a registration that commits leaves every tag of the request pointing at its
   build and attaches nothing else; the build is waiting and tracked; the template counts one build
   more, or is new and found by its id; the template owns the name asked for, and of the names there
   were only renamable ones of its own are gone.
   */
  lemma RegistrationCommits(states: seq<Store>, steps: seq<Step>, k: nat)
    requires IsRun(states, steps) && SoFarInv(states[0]) && k < |steps|
    requires steps[k].Commit? && steps[k].i in states[k].txns && states[k].txns[steps[k].i].Registration?
    ensures var t, c, c' := states[k].txns[steps[k].i], states[k].committed, states[k + 1].committed;
            && TagsPointAt(c, c', t.env, t.build, t.tags)
            && t.build in c'.builds && c'.builds[t.build] == Build(Waiting, NULL_CPU)
            && t.build in c'.active && c'.active[t.build] == ActiveBuild(t.team, t.env, t.tags)
            && RegistersEnv(c, c', t.env, t.team)
            && (t.env !in c.envs ==> GetTemplateById(c', t.env) == Some(t.env))
            && (t.alias.Some? ==> OwnedBy(c', t.alias.value, t.env))
            && NamesAfter(c, c', t.env, t.alias)
  {
    RunKeepsSoFar(states, steps, k);
    assert Follows(states, steps, k);
    var t := states[k].txns[steps[k].i];
    assert WritesUnderLock(t, states[k].committed) && SoFar(t, states[k].committed) && AliasWritesOk(t, states[k].committed);
    RegistrationEffect(t, states[k].committed);
  }

  /** In every interleaving, a tagging that commits leaves every tag of the request pointing at the build and attaches nothing else. */
  lemma TaggingCommits(states: seq<Store>, steps: seq<Step>, k: nat)
    requires IsRun(states, steps) && SoFarInv(states[0]) && k < |steps|
    requires steps[k].Commit? && steps[k].i in states[k].txns && states[k].txns[steps[k].i].Tagging?
    ensures var t, c, c' := states[k].txns[steps[k].i], states[k].committed, states[k + 1].committed;
            TagsPointAt(c, c', t.env, t.build, t.tags) && c' == c.(assignments := c'.assignments)
  {
    RunKeepsSoFar(states, steps, k);
    assert Follows(states, steps, k);
    var t, c := states[k].txns[steps[k].i], states[k].committed;
    assert SoFar(t, c);
    AttachedPointAt(t.w, c, t.env, t.build, t.tags);
    OnlyRows(t.w, c);
  }

  lemma OnlyRows(w: WriteSet, c: Tables)
    requires w == NO_WRITES.(assignments := w.assignments)
    ensures Apply(w, c) == c.(assignments := c.assignments + w.assignments)
  {
  }

  /** The request a transaction serves. */
  ghost predicate SameRequest(t: Txn, t': Txn) {
    match t
    case Registration(env, team, tags, build, alias, _, _) =>
      t'.Registration? && t'.env == env && t'.team == team && t'.tags == tags && t'.build == build && t'.alias == alias
    case Deletion(env, team, _, _) => t'.Deletion? && t'.env == env && t'.team == team
    case Tagging(env, build, tags, _, _) => t'.Tagging? && t'.env == env && t'.build == build && t'.tags == tags
  }

  lemma StatementKeepsRequest(s: Store, step: Step)
    requires IsTxnStatement(step) && Exec(s, step).Some? && step.i in s.txns && step.i in Exec(s, step).value.txns
    ensures SameRequest(s.txns[step.i], Exec(s, step).value.txns[step.i])
  {
  }

  /** A transaction changes by its own statements only, and starts out with nothing written. */
  lemma OthersKeepTxn(s: Store, step: Step, i: TxnId)
    requires Exec(s, step).Some? && i in Exec(s, step).value.txns
    ensures i in s.txns && !(IsTxnStatement(step) && step.i == i) ==> Exec(s, step).value.txns[i] == s.txns[i]
    ensures i !in s.txns ==> IsBegin(step) && step.i == i && Exec(s, step).value.txns[i].w == NO_WRITES
  {
    if !IsTxnStatement(step) && !step.Commit? && !step.Rollback? && !IsBegin(step) {
      SingleFrame(s, step);
    }
  }

  /** No statement changes what the transaction was begun for. */
  lemma StepKeepsRequest(s: Store, step: Step, i: TxnId)
    requires Exec(s, step).Some? && i in s.txns && i in Exec(s, step).value.txns
    ensures SameRequest(s.txns[i], Exec(s, step).value.txns[i])
  {
    OthersKeepTxn(s, step, i);
    if IsTxnStatement(step) && step.i == i {
      StatementKeepsRequest(s, step);
    }
  }

  predicate IsPastConflictCheck(p: RegPhase) {
    !p.RegBegun? && !p.EnvLocked? && !p.Invalidated? && !p.BuildCreated?
  }

  /** Past the check means the step just was the check, on a store in which no template has the alias for its id. */
  lemma PastConflictCheck(s: Store, step: Step, i: TxnId)
    requires Exec(s, step).Some? && i in Exec(s, step).value.txns
    requires var t' := Exec(s, step).value.txns[i]; t'.Registration? && t'.alias.Some? && IsPastConflictCheck(t'.phase)
    ensures i in s.txns && s.txns[i].Registration? && s.txns[i].alias == Exec(s, step).value.txns[i].alias
    ensures IsPastConflictCheck(s.txns[i].phase) || s.txns[i].alias.value.alias !in s.committed.envs
  {
    if i in s.txns {
      StepKeepsRequest(s, step, i);
    }
    if !IsTxnStatement(step) && !step.Commit? && !step.Rollback? && !IsBegin(step) {
      SingleFrame(s, step);
    }
  }

  /** Over every run a registration that commits with a name saw a state in which no template has that name for its id. */
  lemma {:induction false} NameWasNoTemplateId(states: seq<Store>, steps: seq<Step>, n: nat, i: TxnId)
    requires IsRun(states, steps) && states[0].txns == map[] && n < |states| && i in states[n].txns
    requires var t := states[n].txns[i]; t.Registration? && t.alias.Some? && IsPastConflictCheck(t.phase)
    ensures exists j :: 0 <= j < n && states[n].txns[i].alias.value.alias !in states[j].committed.envs
  {
    if n > 0 {
      assert Follows(states, steps, n - 1);
      PastConflictCheck(states[n - 1], steps[n - 1], i);
      if IsPastConflictCheck(states[n - 1].txns[i].phase) {
        NameWasNoTemplateId(states, steps, n - 1, i);
      }
    }
  }

  // ---------------------------------------------------------------------------------------
  // Tag, then ask
  // ---------------------------------------------------------------------------------------

  /** The transaction's rows under the tag are no older than the template's committed ones. */
  ghost predicate TaggedLast(t: Txn, c: Tables, tag: Tag) {
    forall a, o :: a in t.w.assignments && a.tag == tag && o in c.assignments && o.env == t.env && o.tag == tag
                   ==> o.createdAt <= a.createdAt
  }

  lemma NewestOwnRow(t: Txn, c: Tables, tag: Tag) returns (a: Assignment)
    requires HasRow(t.w.assignments, t.env, BuildOf(t), tag) && TaggedLast(t, c, tag)
    requires forall o :: o in t.w.assignments ==> o.env == t.env && o.build == BuildOf(t)
    ensures a in Apply(t.w, c).assignments && a.env == t.env && a.build == BuildOf(t) && a.tag == tag
    ensures forall o :: o in Apply(t.w, c).assignments && o.env == t.env && o.tag == tag ==> o.createdAt <= a.createdAt
  {
    var own := set o | o in t.w.assignments && o.tag == tag;
    var some :| some in t.w.assignments && some.env == t.env && some.build == BuildOf(t) && some.tag == tag;
    assert some in own;
    NewestExists(own);
    a :| a in own && IsNewest(own, a);
  }

  function BuildOf(t: Txn): BuildId {
    match t
    case Registration(_, _, _, build, _, _, _) => build
    case Deletion(_, _, _, _) => 0
    case Tagging(_, build, _, _, _) => build
  }

  /** Tag, then ask: once a tagging with the newest times has committed, each of its tags is answered with the build. */
  lemma TaggedBuildResolves(states: seq<Store>, steps: seq<Step>, k: nat, j: nat)
    requires IsRun(states, steps) && SoFarInv(states[0]) && k < |steps|
    requires steps[k].Commit? && steps[k].i in states[k].txns && states[k].txns[steps[k].i].Tagging?
    requires var t := states[k].txns[steps[k].i];
             && j < |t.tags| && TaggedLast(t, states[k].committed, t.tags[j])
             && IsLiveTemplate(states[k + 1].committed, t.env) && IsReadyBuild(states[k + 1].committed, t.build)
    ensures var t := states[k].txns[steps[k].i];
            ResolvesTo(states[k + 1].committed, t.env, PlainTag(t.tags[j]), t.build)
  {
    RunKeepsSoFar(states, steps, k);
    assert Follows(states, steps, k);
    var t, c, c' := states[k].txns[steps[k].i], states[k].committed, states[k + 1].committed;
    assert SoFar(t, c);
    assert HasRow(t.w.assignments, t.env, t.build, t.tags[j]);
    var a := NewestOwnRow(t, c, t.tags[j]);
    assert IsReadyUnder(c', t.env, t.tags[j], a);
    PlainTagResolves(c', t.env, t.tags[j], t.build);
  }

  // ---------------------------------------------------------------------------------------
  // Env rows
  // ---------------------------------------------------------------------------------------

  lemma CommitKeepsEnvIdentity(t: Txn, c: Tables, e: EnvId)
    requires SoFar(t, c) && WritesUnderLock(t, c) && e in c.envs
    ensures var c' := Apply(t.w, c); e in c'.envs && c'.envs[e].team == c.envs[e].team && c'.envs[e].source == c.envs[e].source
  {
  }

  lemma StepKeepsEnvIdentity(s: Store, step: Step, e: EnvId)
    requires SoFarInv(s) && Exec(s, step).Some? && e in s.committed.envs
    ensures var c' := Exec(s, step).value.committed;
            e in c'.envs && c'.envs[e].team == s.committed.envs[e].team && c'.envs[e].source == s.committed.envs[e].source
  {
    if step.Commit? {
      assert WritesUnderLock(s.txns[step.i], s.committed);
      CommitKeepsEnvIdentity(s.txns[step.i], s.committed, e);
    } else if IsTxnStatement(step) {
      StatementKeepsCommitted(s, step);
    } else if !step.Rollback? && !IsBegin(step) {
      SingleFrame(s, step);
    }
  }

  /** Over every run an env keeps its team and its source for ever; in particular a paused sandbox's env never becomes a template. */
  lemma {:induction false} EnvKeepsTeamAndSource(states: seq<Store>, steps: seq<Step>, e: EnvId, k: nat, m: nat)
    requires IsRun(states, steps) && SoFarInv(states[0]) && k <= m < |states| && e in states[k].committed.envs
    ensures e in states[m].committed.envs
    ensures states[m].committed.envs[e].team == states[k].committed.envs[e].team
    ensures states[m].committed.envs[e].source == states[k].committed.envs[e].source
  {
    if k < m {
      EnvKeepsTeamAndSource(states, steps, e, k, m - 1);
      RunKeepsSoFar(states, steps, m - 1);
      assert Follows(states, steps, m - 1);
      StepKeepsEnvIdentity(states[m - 1], steps[m - 1], e);
    }
  }

  /** The env a first pause makes is live and no template query returns it. */
  lemma PausedEnvIsNoTemplate(states: seq<Store>, steps: seq<Step>, k: nat, m: nat)
    requires IsRun(states, steps) && SoFarInv(states[0]) && k < m < |states|
    requires steps[k].PauseSandbox? && UpsertSnapshot(states[k].committed, steps[k].pause).Some? && !steps[k].pause.seen
    ensures GetTemplateById(states[m].committed, steps[k].pause.template) == None
  {
    assert Follows(states, steps, k);
    EnvKeepsTeamAndSource(states, steps, steps[k].pause.template, k + 1, m);
  }

  /** Deleting tags removes exactly the template's rows under them. */
  lemma TagDeletionRemoves(s: Store, env: EnvId, tags: seq<Tag>, a: Assignment)
    ensures Exec(s, DeleteTemplateTags(env, tags)).Some?
    ensures a in Exec(s, DeleteTemplateTags(env, tags)).value.committed.assignments
            <==> a in s.committed.assignments && (a.env != env || a.tag !in tags)
  {
  }
}
