/**
 Soft delete is permanent under every interleaving: what the env-row locks guarantee about
 transactions that are still open, and what follows for the committed tables.
 */
module DeletionSafety {
  import opened TemplateTables
  import opened Transactions

  /** Every tracked in-flight build belongs to a template that is not deleted. */
  ghost predicate ActiveRowsHaveLiveEnv(c: Tables) {
    forall b :: b in c.active ==> IsActiveEnv(c, c.active[b].env)
  }

  /** What an open transaction's uncommitted rows may be, given the locks it holds. */
  ghost predicate WritesUnderLock(t: Txn, c: Tables) {
    && t.w.envs.Keys == (if HoldsExclusive(t) then {t.env} else {})
    && (forall a :: a in t.w.assignments ==> a.env == t.env && HoldsLock(t))
    && (forall b :: b in t.w.activeIns ==> t.w.activeIns[b].env == t.env && t.Registration? && HoldsExclusive(t))
    && (forall k :: k in t.w.aliasIns ==> t.w.aliasIns[k].env == t.env && t.Registration? && HoldsExclusive(t))
    && (HoldsLock(t) ==> !IsDeletedEnv(c, t.env))
    && (HoldsShared(t) ==> t.env in c.envs)
    && (HoldsExclusive(t) && t.Registration? ==> !t.w.envs[t.env].deleted)
    && (HoldsExclusive(t) && t.Deletion? ==> t.w.envs[t.env].deleted && t.env in c.envs)
    && (t.Deletion? ==> t.w.assignments == {})
    && (t.Deletion? && t.progress.ActiveCleared? ==> ActiveRowsOf(c, t.env) <= t.w.activeDel)
  }

  /** Env-row locks exclude each other. */
  ghost predicate Compatible(t: Txn, u: Txn) {
    t.env == u.env ==> !(HoldsExclusive(t) && HoldsLock(u)) && !(HoldsExclusive(u) && HoldsLock(t))
  }

  ghost predicate LockInv(s: Store) {
    && ActiveRowsHaveLiveEnv(s.committed)
    && (forall i :: i in s.txns ==> WritesUnderLock(s.txns[i], s.committed))
    && (forall i, j :: i in s.txns && j in s.txns && i != j ==> Compatible(s.txns[i], s.txns[j]))
  }

  /** A statement of transaction i that only touched its own write set. */
  lemma PutKeepsLocks(s: Store, i: TxnId, t: Txn)
    requires LockInv(s)
    requires WritesUnderLock(t, s.committed)
    requires forall j :: j in s.txns && j != i ==> Compatible(t, s.txns[j])
    ensures LockInv(Put(s, i, t))
  {
  }

  lemma AcquireExclusive(s: Store, i: TxnId, t: Txn)
    requires EnvUnlocked(s.txns - {i}, t.env)
    ensures forall j :: j in s.txns && j != i ==> Compatible(t, s.txns[j])
  {
    forall j | j in s.txns && j != i ensures Compatible(t, s.txns[j]) {
      assert (s.txns - {i})[j] == s.txns[j];
    }
  }

  lemma AcquireShared(s: Store, i: TxnId, t: Txn)
    requires EnvShareable(s.txns - {i}, t.env) && !HoldsExclusive(t)
    ensures forall j :: j in s.txns && j != i ==> Compatible(t, s.txns[j])
  {
    forall j | j in s.txns && j != i ensures Compatible(t, s.txns[j]) {
      assert (s.txns - {i})[j] == s.txns[j];
    }
  }

  lemma CommitKeepsOther(t: Txn, u: Txn, c: Tables)
    requires WritesUnderLock(t, c) && WritesUnderLock(u, c) && Compatible(t, u)
    ensures WritesUnderLock(u, Apply(t.w, c))
  {
    if u.Deletion? && u.progress.ActiveCleared? {
      forall b | b in ActiveRowsOf(Apply(t.w, c), u.env) ensures b in u.w.activeDel {
        assert b !in t.w.activeIns;
        assert b in ActiveRowsOf(c, u.env);
      }
    }
  }

  lemma CommitKeepsTables(t: Txn, c: Tables)
    requires WritesUnderLock(t, c) && MayCommit(t) && ActiveRowsHaveLiveEnv(c)
    ensures ActiveRowsHaveLiveEnv(Apply(t.w, c))
  {
    var c' := Apply(t.w, c);
    assert forall b :: b in c.active && c.active[b].env == t.env ==> b in ActiveRowsOf(c, t.env);
    forall b | b in c'.active ensures IsActiveEnv(c', c'.active[b].env) {
      assert b in t.w.activeIns || (b in c.active && c.active[b] == c'.active[b]);
    }
  }

  lemma CommitKeepsLocks(s: Store, i: TxnId)
    requires LockInv(s) && i in s.txns && MayCommit(s.txns[i])
    ensures LockInv(Store(Apply(s.txns[i].w, s.committed), s.txns - {i}))
  {
    CommitKeepsTables(s.txns[i], s.committed);
    forall j | j in s.txns && j != i ensures WritesUnderLock(s.txns[j], Apply(s.txns[i].w, s.committed)) {
      CommitKeepsOther(s.txns[i], s.txns[j], s.committed);
    }
  }

  /** Committed changes that delete no env and add no active row. */
  ghost predicate EnvsKeptActiveShrinks(c: Tables, c': Tables) {
    && (forall e :: e in c.envs ==> e in c'.envs && c'.envs[e] == c.envs[e])
    && (forall e :: e in c'.envs && e !in c.envs ==> !c'.envs[e].deleted)
    && (forall b :: b in c'.active ==> b in c.active && c'.active[b] == c.active[b])
  }

  lemma SingleFrame(s: Store, step: Step)
    requires ExecSingle(s, step).Some?
    ensures ExecSingle(s, step).value.txns == s.txns
    ensures EnvsKeptActiveShrinks(s.committed, ExecSingle(s, step).value.committed)
  {
  }

  lemma TableChangeKeepsLocks(s: Store, c': Tables)
    requires LockInv(s) && EnvsKeptActiveShrinks(s.committed, c')
    ensures LockInv(s.(committed := c'))
  {
    forall i | i in s.txns ensures WritesUnderLock(s.txns[i], c') {
      assert ActiveRowsOf(c', s.txns[i].env) <= ActiveRowsOf(s.committed, s.txns[i].env);
    }
  }

  /** A statement outside a transaction block. */
  lemma SingleKeepsLocks(s: Store, step: Step)
    requires LockInv(s) && ExecSingle(s, step).Some?
    ensures LockInv(ExecSingle(s, step).value)
  {
    SingleFrame(s, step);
    TableChangeKeepsLocks(s, ExecSingle(s, step).value.committed);
  }

  lemma BeginKeepsLocks(s: Store, i: TxnId, t: Txn)
    requires LockInv(s) && i !in s.txns && t.w == NO_WRITES && !HoldsLock(t)
    requires t.Deletion? ==> t.progress.DelBegun?
    ensures LockInv(Put(s, i, t))
  {
    PutKeepsLocks(s, i, t);
  }

  lemma UpsertWrites(t: Txn, c: Tables)
    requires t.Registration? && t.phase.RegBegun? && WritesUnderLock(t, c) && !IsDeletedEnv(Apply(t.w, c), t.env)
    ensures WritesUnderLock(t.(phase := EnvLocked, w := t.w.(envs := t.w.envs[t.env := UpsertedEnv(Apply(t.w, c), t.env, t.team)])), c)
  {
  }

  lemma UpsertLocks(s: Store, i: TxnId)
    requires LockInv(s) && i in s.txns && ExecCreateOrUpdate(s, i, s.txns[i]).Some?
    ensures LockInv(ExecCreateOrUpdate(s, i, s.txns[i]).value)
  {
    var t, s' := s.txns[i], ExecCreateOrUpdate(s, i, s.txns[i]).value;
    if IsDeletedEnv(Apply(t.w, s.committed), t.env) {
      DropKeepsLocks(s, i);
    } else {
      assert WritesUnderLock(t, s.committed);
      UpsertWrites(t, s.committed);
      AcquireExclusive(s, i, s'.txns[i]);
      PutKeepsLocks(s, i, s'.txns[i]);
    }
  }

  lemma SoftDeleteWrites(t: Txn, c: Tables)
    requires t.Deletion? && t.progress.DelBegun? && WritesUnderLock(t, c) && IsActiveEnv(Apply(t.w, c), t.env)
    ensures WritesUnderLock(t.(progress := SoftDeleted,
                               w := t.w.(envs := t.w.envs[t.env := Apply(t.w, c).envs[t.env].(deleted := true)])), c)
  {
  }

  lemma SoftDeleteLocks(s: Store, i: TxnId)
    requires LockInv(s) && i in s.txns && ExecSoftDelete(s, i, s.txns[i]).Some?
    ensures LockInv(ExecSoftDelete(s, i, s.txns[i]).value)
  {
    var t, s' := s.txns[i], ExecSoftDelete(s, i, s.txns[i]).value;
    var v := Apply(t.w, s.committed);
    if !IsActiveEnv(v, t.env) || v.envs[t.env].team != t.team {
      DropKeepsLocks(s, i);
    } else {
      assert WritesUnderLock(t, s.committed);
      SoftDeleteWrites(t, s.committed);
      AcquireExclusive(s, i, s'.txns[i]);
      PutKeepsLocks(s, i, s'.txns[i]);
    }
  }

  lemma DropKeepsLocks(s: Store, i: TxnId)
    requires LockInv(s)
    ensures LockInv(Drop(s, i))
  {
  }

  lemma AttachWrites(t: Txn, t': Txn, c: Tables, tag: Tag, rowId: nat, now: int)
    requires WritesUnderLock(t, c) && !t.Deletion? && IsActiveEnv(Apply(t.w, c), t.env)
    requires t.Registration? ==> t'.Registration? && HoldsExclusive(t) && t' == t.(phase := t'.phase, w := Attach(t.w, t.env, t.build, tag, rowId, now))
    requires t.Registration? ==> HoldsExclusive(t')
    requires t.Tagging? ==> t' == t.(done := t.done + 1, w := Attach(t.w, t.env, t.build, tag, rowId, now))
    ensures WritesUnderLock(t', c)
  {
  }

  lemma AssignStatement(s: Store, i: TxnId, rowId: nat, now: int)
    requires LockInv(s) && i in s.txns && ExecAssign(s, i, s.txns[i], rowId, now).Some?
    ensures LockInv(ExecAssign(s, i, s.txns[i], rowId, now).value)
  {
    var t, c, s' := s.txns[i], s.committed, ExecAssign(s, i, s.txns[i], rowId, now).value;
    assert WritesUnderLock(t, c);
    if t.Registration? {
      if IsActiveEnv(Apply(t.w, c), t.env) {
        AttachWrites(t, s'.txns[i], c, t.tags[t.phase.next], rowId, now);
      }
      SameLocksPut(s, i, s'.txns[i]);
    } else if IsActiveEnv(Apply(t.w, c), t.env) {
      AttachWrites(t, s'.txns[i], c, t.tags[t.done], rowId, now);
      AcquireShared(s, i, s'.txns[i]);
      PutKeepsLocks(s, i, s'.txns[i]);
    } else {
      DropKeepsLocks(s, i);
    }
  }

  /** What a delete's cleanup statements write. */
  ghost predicate CleansUp(t: Txn, t': Txn, c: Tables) {
    && t.Deletion? && t'.Deletion? && HoldsExclusive(t) && HoldsExclusive(t') && t'.env == t.env
    && t'.w.envs == t.w.envs && t'.w.assignments == t.w.assignments && t'.w.activeIns == t.w.activeIns
    && (forall k :: k in t'.w.aliasIns ==> k in t.w.aliasIns && t'.w.aliasIns[k] == t.w.aliasIns[k])
    && (t'.progress.ActiveCleared? ==> ActiveRowsOf(c, t.env) <= t'.w.activeDel)
  }

  lemma CleansUpOk(t: Txn, t': Txn, c: Tables)
    requires WritesUnderLock(t, c) && CleansUp(t, t', c)
    ensures WritesUnderLock(t', c)
  {
  }

  /** A statement that keeps the transaction's locks keeps every pair compatible. */
  lemma SameLocksPut(s: Store, i: TxnId, t': Txn)
    requires LockInv(s) && i in s.txns && WritesUnderLock(t', s.committed)
    requires HoldsExclusive(s.txns[i]) && t'.env == s.txns[i].env
    ensures LockInv(Put(s, i, t'))
  {
    forall j | j in s.txns && j != i ensures Compatible(t', s.txns[j]) {
      assert Compatible(s.txns[i], s.txns[j]);
    }
    PutKeepsLocks(s, i, t');
  }

  lemma ReleaseFrame(t: Txn, c: Tables)
    requires t.Deletion? && t.progress.SoftDeleted?
    ensures CleansUp(t, t.(progress := AliasesReleased, w := DeleteAliasWrites(t.w, AliasesOf(Apply(t.w, c), t.env))), c)
  {
  }

  lemma ReleaseLocks(s: Store, i: TxnId)
    requires LockInv(s) && i in s.txns && ExecRelease(s, i, s.txns[i]).Some?
    ensures LockInv(ExecRelease(s, i, s.txns[i]).value)
  {
    var t, t' := s.txns[i], ExecRelease(s, i, s.txns[i]).value.txns[i];
    ReleaseFrame(t, s.committed);
    CleansUpOk(t, t', s.committed);
    SameLocksPut(s, i, t');
  }

  lemma ClearActiveFrame(t: Txn, c: Tables)
    requires t.Deletion? && t.progress.AliasesReleased? && WritesUnderLock(t, c)
    ensures CleansUp(t, t.(progress := ActiveCleared, w := t.w.(activeDel := t.w.activeDel + ActiveRowsOf(Apply(t.w, c), t.env))), c)
  {
    assert ActiveRowsOf(c, t.env) <= t.w.activeDel + ActiveRowsOf(Apply(t.w, c), t.env);
  }

  lemma ClearActiveLocks(s: Store, i: TxnId)
    requires LockInv(s) && i in s.txns && ExecClearActive(s, i, s.txns[i]).Some?
    ensures LockInv(ExecClearActive(s, i, s.txns[i]).value)
  {
    var t, t' := s.txns[i], ExecClearActive(s, i, s.txns[i]).value.txns[i];
    ClearActiveFrame(t, s.committed);
    CleansUpOk(t, t', s.committed);
    SameLocksPut(s, i, t');
  }

  /** t' is t after a statement that keeps its locks and inserts rows only for its own env. */
  ghost predicate SameLocksOwnRows(t: Txn, t': Txn) {
    && t.Registration? && t'.Registration? && HoldsExclusive(t) && HoldsExclusive(t') && t'.env == t.env
    && t'.w.envs == t.w.envs && t'.w.assignments == t.w.assignments
    && (forall b :: b in t'.w.activeIns ==> (b in t.w.activeIns && t'.w.activeIns[b] == t.w.activeIns[b]) || t'.w.activeIns[b].env == t.env)
    && (forall k :: k in t'.w.aliasIns ==> (k in t.w.aliasIns && t'.w.aliasIns[k] == t.w.aliasIns[k]) || t'.w.aliasIns[k].env == t.env)
  }

  /** The transaction went on as t', or was rolled back. */
  ghost predicate WentOn(s: Store, i: TxnId, s': Store)
    requires i in s.txns
  {
    s' == Drop(s, i) || (i in s'.txns && s' == Put(s, i, s'.txns[i]) && SameLocksOwnRows(s.txns[i], s'.txns[i]))
  }

  lemma SameLocksOwnRowsOk(t: Txn, t': Txn, c: Tables)
    requires WritesUnderLock(t, c) && SameLocksOwnRows(t, t')
    ensures WritesUnderLock(t', c)
  {
  }

  lemma WentOnKeepsLocks(s: Store, i: TxnId, s': Store)
    requires LockInv(s) && i in s.txns && WentOn(s, i, s')
    ensures LockInv(s')
  {
    if s' == Drop(s, i) {
      DropKeepsLocks(s, i);
    } else {
      SameLocksOwnRowsOk(s.txns[i], s'.txns[i], s.committed);
      SameLocksPut(s, i, s'.txns[i]);
    }
  }

  // One frame lemma per statement of a registration.

  lemma InvalidateFrame(s: Store, i: TxnId)
    requires i in s.txns && ExecInvalidate(s, i, s.txns[i]).Some?
    ensures WentOn(s, i, ExecInvalidate(s, i, s.txns[i]).value)
  {
  }

  lemma CreateBuildFrame(s: Store, i: TxnId)
    requires i in s.txns && ExecCreateBuild(s, i, s.txns[i]).Some?
    ensures WentOn(s, i, ExecCreateBuild(s, i, s.txns[i]).value)
  {
  }

  lemma CheckConflictFrame(s: Store, i: TxnId)
    requires i in s.txns && ExecCheckConflict(s, i, s.txns[i]).Some?
    ensures WentOn(s, i, ExecCheckConflict(s, i, s.txns[i]).value)
  {
  }

  lemma CheckExistsFrame(s: Store, i: TxnId)
    requires i in s.txns && ExecCheckExists(s, i, s.txns[i]).Some?
    ensures WentOn(s, i, ExecCheckExists(s, i, s.txns[i]).value)
  {
  }

  lemma DeleteOtherFrame(s: Store, i: TxnId)
    requires i in s.txns && ExecDeleteOther(s, i, s.txns[i]).Some?
    ensures WentOn(s, i, ExecDeleteOther(s, i, s.txns[i]).value)
  {
  }

  lemma CreateAliasFrame(s: Store, i: TxnId)
    requires i in s.txns && ExecCreateAlias(s, i, s.txns[i]).Some?
    ensures WentOn(s, i, ExecCreateAlias(s, i, s.txns[i]).value)
  {
  }

  lemma CreateActiveFrame(s: Store, i: TxnId)
    requires i in s.txns && ExecCreateActive(s, i, s.txns[i]).Some?
    ensures WentOn(s, i, ExecCreateActive(s, i, s.txns[i]).value)
  {
  }

  predicate IsRegistrationStatement(step: Step) {
    || step.InvalidateUnstartedTemplateBuilds? || step.CreateTemplateBuild? || step.CheckAliasConflict? || step.CheckAliasExists?
    || step.DeleteOtherTemplateAliases? || step.CreateTemplateAlias? || step.CreateActiveTemplateBuild?
  }

  lemma RegistrationStatement(s: Store, i: TxnId, step: Step)
    requires LockInv(s) && i in s.txns && IsRegistrationStatement(step) && step.i == i && Exec(s, step).Some?
    ensures LockInv(Exec(s, step).value)
  {
    if step.InvalidateUnstartedTemplateBuilds? {
      InvalidateFrame(s, i);
    } else if step.CreateTemplateBuild? {
      CreateBuildFrame(s, i);
    } else if step.CheckAliasConflict? {
      CheckConflictFrame(s, i);
    } else if step.CheckAliasExists? {
      CheckExistsFrame(s, i);
    } else if step.DeleteOtherTemplateAliases? {
      DeleteOtherFrame(s, i);
    } else if step.CreateTemplateAlias? {
      CreateAliasFrame(s, i);
    } else {
      CreateActiveFrame(s, i);
    }
    WentOnKeepsLocks(s, i, Exec(s, step).value);
  }

  lemma StatementKeepsLocks(s: Store, i: TxnId, step: Step)
    requires LockInv(s) && i in s.txns
    requires IsTxnStatement(step) && step.i == i && Exec(s, step).Some?
    ensures LockInv(Exec(s, step).value)
  {
    if step.CreateOrUpdateTemplate? {
      UpsertLocks(s, i);
    } else if step.SoftDeleteTemplate? {
      SoftDeleteLocks(s, i);
    } else if step.CreateTemplateBuildAssignment? {
      AssignStatement(s, i, step.rowId, step.now);
    } else if step.ReleaseTemplateAliases? {
      ReleaseLocks(s, i);
    } else if step.DeleteActiveTemplateBuilds? {
      ClearActiveLocks(s, i);
    } else {
      RegistrationStatement(s, i, step);
    }
  }

  /** No interleaving breaks the lock discipline, whatever statement runs next. */
  lemma StepKeepsLocks(s: Store, step: Step)
    requires LockInv(s) && Exec(s, step).Some?
    ensures LockInv(Exec(s, step).value)
  {
    if step.Commit? {
      CommitKeepsLocks(s, step.i);
    } else if step.Rollback? {
      DropKeepsLocks(s, step.i);
    } else if IsTxnStatement(step) {
      StatementKeepsLocks(s, step.i, step);
    } else if IsBegin(step) {
      BeginKeepsLocks(s, step.i, Exec(s, step).value.txns[step.i]);
    } else {
      SingleKeepsLocks(s, step);
    }
  }

  // ---------------------------------------------------------------------------------------
  // Whole runs
  // ---------------------------------------------------------------------------------------

  lemma {:induction false} RunKeepsLocks(states: seq<Store>, steps: seq<Step>, n: nat)
    requires IsRun(states, steps) && LockInv(states[0]) && n < |states|
    ensures LockInv(states[n])
  {
    if n > 0 {
      RunKeepsLocks(states, steps, n - 1);
      assert Follows(states, steps, n - 1);
      StepKeepsLocks(states[n - 1], steps[n - 1]);
    }
  }

  function AssignmentsOf(c: Tables, e: EnvId): set<Assignment> {
    set a | a in c.assignments && a.env == e
  }

  /** A pause of a sandbox whose snapshot lives in e; UpsertSnapshot does not look at deleted_at. */
  predicate PausesInto(s: Store, step: Step, e: EnvId) {
    && step.PauseSandbox?
    && step.pause.sandbox in s.committed.snapshots
    && s.committed.snapshots[step.pause.sandbox].env == e
  }

  lemma SingleKeepsDeleted(s: Store, step: Step, e: EnvId)
    requires IsDeletedEnv(s.committed, e) && ExecSingle(s, step).Some?
    ensures IsDeletedEnv(ExecSingle(s, step).value.committed, e)
    ensures PausesInto(s, step, e)
            || AssignmentsOf(ExecSingle(s, step).value.committed, e) <= AssignmentsOf(s.committed, e)
  {
  }

  lemma StatementKeepsCommitted(s: Store, step: Step)
    requires IsTxnStatement(step) && Exec(s, step).Some?
    ensures Exec(s, step).value.committed == s.committed
  {
  }

  /** One step neither resurrects a deleted template nor attaches a build to it. */
  lemma StepKeepsDeleted(s: Store, step: Step, e: EnvId)
    requires LockInv(s) && IsDeletedEnv(s.committed, e) && Exec(s, step).Some?
    ensures IsDeletedEnv(Exec(s, step).value.committed, e)
    ensures PausesInto(s, step, e)
            || AssignmentsOf(Exec(s, step).value.committed, e) <= AssignmentsOf(s.committed, e)
  {
    if step.Commit? {
      assert WritesUnderLock(s.txns[step.i], s.committed);
    } else if IsTxnStatement(step) {
      StatementKeepsCommitted(s, step);
    } else if !step.Rollback? && !IsBegin(step) {
      SingleKeepsDeleted(s, step, e);
    }
  }

  /** No read path returns e: not by id, not under any alias, not under any tag or build id. */
  ghost predicate Unreachable(c: Tables, e: EnvId) {
    && GetTemplateById(c, e) == None
    && (forall key :: GetTemplateByAlias(c, key) != Some(e))
    && (forall p, b :: !ResolvesTo(c, e, p, b))
  }

  /**
   Once a delete has committed (state k), every later state of every interleaving keeps the
   template deleted and unreachable, tracks no in-flight build for it, and has attached no build
   to it other than by a pause of a sandbox snapshotted in it.
   */
  lemma {:induction false} DeletionIsFinal(states: seq<Store>, steps: seq<Step>, e: EnvId, k: nat, m: nat)
    requires IsRun(states, steps) && LockInv(states[0]) && k <= m < |states|
    requires IsDeletedEnv(states[k].committed, e)
    ensures IsDeletedEnv(states[m].committed, e)
    ensures Unreachable(states[m].committed, e)
    ensures ActiveRowsOf(states[m].committed, e) == {}
    ensures (forall j :: k <= j < m ==> !PausesInto(states[j], steps[j], e))
            ==> AssignmentsOf(states[m].committed, e) <= AssignmentsOf(states[k].committed, e)
  {
    RunKeepsLocks(states, steps, m);
    if k < m {
      DeletionIsFinal(states, steps, e, k, m - 1);
      RunKeepsLocks(states, steps, m - 1);
      assert Follows(states, steps, m - 1);
      StepKeepsDeleted(states[m - 1], steps[m - 1], e);
    }
  }

  /** The delete that reaches Commit is the step that deletes, and it leaves no active row behind. */
  lemma DeleteCommits(s: Store, i: TxnId)
    requires LockInv(s) && i in s.txns && s.txns[i].Deletion? && MayCommit(s.txns[i])
    ensures var s' := Exec(s, Commit(i)).value;
            && IsActiveEnv(s.committed, s.txns[i].env)
            && IsDeletedEnv(s'.committed, s.txns[i].env)
            && ActiveRowsOf(s'.committed, s.txns[i].env) == {}
            && AssignmentsOf(s'.committed, s.txns[i].env) == AssignmentsOf(s.committed, s.txns[i].env)
  {
    assert WritesUnderLock(s.txns[i], s.committed);
    DeletionWritesCommit(s.txns[i], s.committed);
  }

  lemma DeletionWritesCommit(t: Txn, c: Tables)
    requires WritesUnderLock(t, c) && t.Deletion? && t.progress.ActiveCleared?
    ensures IsActiveEnv(c, t.env) && IsDeletedEnv(Apply(t.w, c), t.env)
    ensures ActiveRowsOf(Apply(t.w, c), t.env) == {}
    ensures AssignmentsOf(Apply(t.w, c), t.env) == AssignmentsOf(c, t.env)
  {
    assert forall b :: b in c.active && c.active[b].env == t.env ==> b in ActiveRowsOf(c, t.env);
  }

  /** A registration or tagging that commits always finds its template live. */
  lemma AttachCommitsOnlyToLiveEnv(s: Store, i: TxnId, a: Assignment)
    requires LockInv(s) && i in s.txns && MayCommit(s.txns[i]) && a in s.txns[i].w.assignments
    ensures IsActiveEnv(Exec(s, Commit(i)).value.committed, a.env)
  {
    assert WritesUnderLock(s.txns[i], s.committed);
  }
}
