/**
 What the store guarantees about build statuses under every interleaving: at most one pending
 build per (template, tag), and every tracked in-flight build is pending or in progress.
 */
module BuildLifecycle {
  import opened TemplateTables
  import opened Transactions
  import opened DeletionSafety

  /** Every active_template_builds row refers to a build that is still pending or in progress. */
  ghost predicate ActiveBuildsAreLive(c: Tables) {
    forall b :: b in c.active ==> b in c.builds && !IsTerminal(Group(c.builds[b].status))
  }

  ghost predicate AtMostOnePending(c: Tables) {
    forall a, o | a in c.assignments && o in c.assignments && a.env == o.env && a.tag == o.tag
      :: IsPending(c, a.build) && IsPending(c, o.build) ==> a.build == o.build
  }

  ghost predicate AssignedBuildsExist(c: Tables) {
    forall a :: a in c.assignments ==> a.build in c.builds
  }

  ghost predicate BuildTablesOk(c: Tables) {
    ActiveBuildsAreLive(c) && AtMostOnePending(c) && AssignedBuildsExist(c)
  }

  predicate HasInvalidated(t: Txn) {
    t.Registration? && !t.phase.RegBegun? && !t.phase.EnvLocked?
  }

  predicate HasCreatedBuild(t: Txn) {
    HasInvalidated(t) && !t.phase.Invalidated?
  }

  /** A superseded build in t's write set: failed there, and its active row goes with it. */
  ghost predicate Superseded(t: Txn, c: Tables, b: BuildId) {
    && b in t.w.builds && t.w.builds[b].status == Failed
    && b in c.builds
    && (b in c.active ==> b in t.w.activeDel)
  }

  ghost predicate RegistrationOk(t: Txn, c: Tables)
    requires t.Registration?
  {
    && (!HasInvalidated(t) ==> t.w.builds == map[])
    && (!HasCreatedBuild(t) ==> t.w.assignments == {} && t.w.activeIns == map[])
    && (forall b :: b in t.w.builds && !(HasCreatedBuild(t) && b == t.build) ==> Superseded(t, c, b))
    && (HasInvalidated(t) ==>
      forall a :: a in c.assignments && a.env == t.env && a.tag in t.tags && IsPending(c, a.build)
                  ==> a.build in t.w.builds)
    && (HasCreatedBuild(t) ==>
      && t.build !in c.builds
      && t.build in t.w.builds && t.w.builds[t.build].status == Waiting
      && t.w.activeIns.Keys <= {t.build}
      && forall a :: a in t.w.assignments ==> a.build == t.build && a.tag in t.tags)
  }

  ghost predicate TxnBuildsOk(t: Txn, c: Tables) {
    match t
    case Registration(_, _, _, _, _, _, _) => RegistrationOk(t, c)
    case Deletion(_, _, _, w) => w.builds == map[] && w.assignments == {} && w.activeIns == map[]
    case Tagging(_, build, _, _, w) =>
      && w.builds == map[] && w.activeIns == map[]
      && build in c.builds && !IsPending(c, build)
      && forall a :: a in w.assignments ==> a.build == build
  }

  ghost predicate DisjointBuilds(t: Txn, u: Txn) {
    t.w.builds.Keys !! u.w.builds.Keys
  }

  ghost predicate TxnsBuildsOk(txns: Txns, c: Tables) {
    && (forall i :: i in txns ==> TxnBuildsOk(txns[i], c))
    && (forall i, j :: i in txns && j in txns && i != j ==> DisjointBuilds(txns[i], txns[j]))
  }

  ghost predicate BuildInv(s: Store) {
    && LockInv(s)
    && BuildTablesOk(s.committed)
    && TxnsBuildsOk(s.txns, s.committed)
  }

  /** How the callers use the statements that take a status or a build from outside. */
  predicate Disciplined(c: Tables, step: Step) {
    match step
    case PauseSandbox(p) => !Group(p.status).PendingGroup?
    case AssignSnapshotBuild(_, build, _, _, _) => !IsPending(c, build)
    case CreateSnapshotTemplateEnv(_, _, build, _, _, _) => !IsPending(c, build)
    case FinishTemplateBuild(_, status) => !Group(status).PendingGroup?
    case FailTemplateBuildAndDeactivate(_, status) => !Group(status).PendingGroup?
    case UpdateEnvBuildStatus(build, status) =>
      && !Group(status).PendingGroup?
      && (IsTerminal(Group(status)) ==> build !in c.active)
    case _ => true
  }

  // ---------------------------------------------------------------------------------------
  // Commit
  // ---------------------------------------------------------------------------------------

  /** After a commit a build is pending if it was and t did not supersede it, or if t created it. */
  lemma PendingAfterCommit(t: Txn, c: Tables, b: BuildId)
    requires TxnBuildsOk(t, c) && IsPending(Apply(t.w, c), b)
    ensures (IsPending(c, b) && b !in t.w.builds) || (t.Registration? && HasCreatedBuild(t) && b == t.build)
  {
  }

  lemma CommitKeepsBuildTables(t: Txn, c: Tables)
    requires WritesUnderLock(t, c) && TxnBuildsOk(t, c) && BuildTablesOk(c) && MayCommit(t)
    ensures BuildTablesOk(Apply(t.w, c))
  {
    var c' := Apply(t.w, c);
    forall b | IsPending(c', b)
      ensures (IsPending(c, b) && b !in t.w.builds) || (t.Registration? && HasCreatedBuild(t) && b == t.build)
    {
      PendingAfterCommit(t, c, b);
    }
    CommitKeepsOnePending(t, c);
  }

  lemma CommitKeepsOnePending(t: Txn, c: Tables)
    requires WritesUnderLock(t, c) && TxnBuildsOk(t, c) && BuildTablesOk(c)
    ensures AtMostOnePending(Apply(t.w, c))
  {
    var c' := Apply(t.w, c);
    forall a, o | a in c'.assignments && o in c'.assignments && a.env == o.env && a.tag == o.tag
                  && IsPending(c', a.build) && IsPending(c', o.build)
      ensures a.build == o.build
    {
      PendingAfterCommit(t, c, a.build);
      PendingAfterCommit(t, c, o.build);
    }
  }

  lemma CommitKeepsOtherBuilds(t: Txn, u: Txn, c: Tables)
    requires WritesUnderLock(t, c) && WritesUnderLock(u, c) && Compatible(t, u)
    requires TxnBuildsOk(t, c) && TxnBuildsOk(u, c) && DisjointBuilds(t, u) && AssignedBuildsExist(c)
    ensures TxnBuildsOk(u, Apply(t.w, c))
  {
    var c' := Apply(t.w, c);
    forall b | IsPending(c', b)
      ensures (IsPending(c, b) && b !in t.w.builds) || (t.Registration? && HasCreatedBuild(t) && b == t.build)
    {
      PendingAfterCommit(t, c, b);
    }
    if u.Registration? {
      forall b | b in u.w.builds && !(HasCreatedBuild(u) && b == u.build) ensures Superseded(u, c', b) {
        assert Superseded(u, c, b);
      }
    }
  }

  lemma CommitKeepsTxnBuilds(s: Store, i: TxnId, j: TxnId)
    requires BuildInv(s) && i in s.txns && j in s.txns && j != i
    ensures TxnBuildsOk(s.txns[j], Apply(s.txns[i].w, s.committed))
  {
    var t, u, c := s.txns[i], s.txns[j], s.committed;
    assert WritesUnderLock(t, c) && WritesUnderLock(u, c) && Compatible(t, u);
    assert TxnBuildsOk(t, c) && TxnBuildsOk(u, c) && DisjointBuilds(t, u);
    CommitKeepsOtherBuilds(t, u, c);
  }

  lemma CommitKeepsTxnsBuilds(s: Store, i: TxnId)
    requires BuildInv(s) && i in s.txns
    ensures TxnsBuildsOk(s.txns - {i}, Apply(s.txns[i].w, s.committed))
  {
    var others := s.txns - {i};
    forall j | j in others ensures TxnBuildsOk(others[j], Apply(s.txns[i].w, s.committed)) {
      CommitKeepsTxnBuilds(s, i, j);
    }
  }

  lemma CommitKeepsBuilds(s: Store, i: TxnId)
    requires BuildInv(s) && i in s.txns && MayCommit(s.txns[i])
    ensures BuildInv(Store(Apply(s.txns[i].w, s.committed), s.txns - {i}))
  {
    CommitKeepsLocks(s, i);
    assert WritesUnderLock(s.txns[i], s.committed);
    CommitKeepsBuildTables(s.txns[i], s.committed);
    CommitKeepsTxnsBuilds(s, i);
  }

  // ---------------------------------------------------------------------------------------
  // Statements outside a transaction block
  // ---------------------------------------------------------------------------------------

  /** Committed changes that turn no build pending and touch no build row held by a transaction. */
  ghost predicate NothingTurnsPending(s: Store, c': Tables) {
    var c := s.committed;
    && c.builds.Keys <= c'.builds.Keys
    && (forall b :: b in c'.builds && b !in c.builds ==> !IsPending(c', b) && BuildRowsFree(s.txns, {b}))
    && (forall b :: IsPending(c', b) ==> IsPending(c, b))
    && (forall b :: b in c'.active ==> b in c.active)
    && (forall a :: a in c'.assignments && a !in c.assignments ==> a.build in c'.builds && !IsPending(c', a.build))
  }

  lemma SingleNothingPending(s: Store, step: Step)
    requires ExecSingle(s, step).Some? && Disciplined(s.committed, step)
    ensures NothingTurnsPending(s, ExecSingle(s, step).value.committed)
  {
  }

  lemma SingleKeepsLive(s: Store, step: Step)
    requires ActiveBuildsAreLive(s.committed) && ExecSingle(s, step).Some? && Disciplined(s.committed, step)
    ensures ActiveBuildsAreLive(ExecSingle(s, step).value.committed)
  {
  }

  lemma QuietChangeKeepsTxn(s: Store, c': Tables, i: TxnId)
    requires i in s.txns && TxnBuildsOk(s.txns[i], s.committed) && NothingTurnsPending(s, c')
    ensures TxnBuildsOk(s.txns[i], c')
  {
    var t, c := s.txns[i], s.committed;
    if t.Registration? {
      forall b | b in t.w.builds && !(HasCreatedBuild(t) && b == t.build) ensures Superseded(t, c', b) {
        assert Superseded(t, c, b);
      }
      forall b | b in c'.builds && b !in c.builds ensures b !in t.w.builds {
        assert BuildRowsFree(s.txns, {b});
      }
    }
  }

  lemma SingleKeepsBuilds(s: Store, step: Step)
    requires BuildInv(s) && ExecSingle(s, step).Some? && Disciplined(s.committed, step)
    ensures BuildInv(ExecSingle(s, step).value)
  {
    var c' := ExecSingle(s, step).value.committed;
    SingleKeepsLocks(s, step);
    SingleFrame(s, step);
    SingleNothingPending(s, step);
    SingleKeepsLive(s, step);
    assert AssignedBuildsExist(c');
    forall i | i in s.txns ensures TxnBuildsOk(s.txns[i], c') {
      QuietChangeKeepsTxn(s, c', i);
    }
  }

  // ---------------------------------------------------------------------------------------
  // Statements inside a transaction block
  // ---------------------------------------------------------------------------------------

  lemma PutKeepsBuilds(s: Store, i: TxnId, t: Txn)
    requires BuildInv(s) && LockInv(Put(s, i, t))
    requires TxnBuildsOk(t, s.committed)
    requires forall j :: j in s.txns && j != i ==> DisjointBuilds(t, s.txns[j])
    ensures BuildInv(Put(s, i, t))
  {
  }

  lemma FreeRowsStayDisjoint(s: Store, i: TxnId, t: Txn, rows: set<BuildId>)
    requires i in s.txns && BuildRowsFree(s.txns - {i}, rows)
    requires forall j :: j in s.txns && j != i ==> DisjointBuilds(s.txns[i], s.txns[j])
    requires t.w.builds.Keys <= s.txns[i].w.builds.Keys + rows
    ensures forall j :: j in s.txns && j != i ==> DisjointBuilds(t, s.txns[j])
  {
    forall j | j in s.txns && j != i ensures DisjointBuilds(t, s.txns[j]) {
      assert (s.txns - {i})[j] == s.txns[j];
    }
  }

  lemma InvalidateTxnOk(t: Txn, t': Txn, c: Tables)
    requires t.Registration? && t.phase.EnvLocked? && RegistrationOk(t, c) && WritesUnderLock(t, c)
    requires t' == t.(phase := Invalidated, w := InvalidateWrites(t.w, Apply(t.w, c), t.env, t.tags))
    ensures RegistrationOk(t', c)
  {
    var v := Apply(t.w, c);
    assert v.builds == c.builds && v.assignments == c.assignments;
    forall a | a in c.assignments && a.env == t.env && a.tag in t.tags && IsPending(c, a.build)
      ensures a.build in t'.w.builds
    {
      assert a.build in Unstarted(v, t.env, t.tags);
    }
  }

  lemma InvalidateOk(s: Store, i: TxnId)
    requires BuildInv(s) && i in s.txns && ExecInvalidate(s, i, s.txns[i]).Some?
    ensures BuildInv(ExecInvalidate(s, i, s.txns[i]).value)
  {
    var t, t' := s.txns[i], ExecInvalidate(s, i, s.txns[i]).value.txns[i];
    InvalidateFrame(s, i);
    WentOnKeepsLocks(s, i, Put(s, i, t'));
    InvalidateTxnOk(t, t', s.committed);
    FreeRowsStayDisjoint(s, i, t', Unstarted(Apply(t.w, s.committed), t.env, t.tags));
    PutKeepsBuilds(s, i, t');
  }

  lemma CreateBuildTxnOk(t: Txn, t': Txn, c: Tables)
    requires t.Registration? && t.phase.Invalidated? && RegistrationOk(t, c) && t.build !in Apply(t.w, c).builds
    requires t' == t.(phase := if t.alias.None? then Assigning(0) else BuildCreated,
                      w := t.w.(builds := t.w.builds[t.build := Build(Waiting, NULL_CPU)]))
    ensures RegistrationOk(t', c)
  {
    forall b | b in t'.w.builds && b != t.build ensures Superseded(t', c, b) {
      assert Superseded(t, c, b);
    }
  }

  lemma CreateBuildOk(s: Store, i: TxnId)
    requires BuildInv(s) && i in s.txns && ExecCreateBuild(s, i, s.txns[i]).Some?
    ensures BuildInv(ExecCreateBuild(s, i, s.txns[i]).value)
  {
    var t, s' := s.txns[i], ExecCreateBuild(s, i, s.txns[i]).value;
    CreateBuildFrame(s, i);
    WentOnKeepsLocks(s, i, s');
    if t.build in Apply(t.w, s.committed).builds {
      DropKeepsBuilds(s, i);
    } else {
      assert TxnBuildsOk(t, s.committed);
      CreateBuildTxnOk(t, s'.txns[i], s.committed);
      FreeRowsStayDisjoint(s, i, s'.txns[i], {t.build});
      PutKeepsBuilds(s, i, s'.txns[i]);
    }
  }

  lemma DropKeepsBuilds(s: Store, i: TxnId)
    requires BuildInv(s)
    ensures BuildInv(Drop(s, i))
  {
    DropKeepsLocks(s, i);
  }

  /** The remaining statements leave the build rows of the write set alone. */
  ghost predicate SameBuildRows(t: Txn, t': Txn) {
    && t'.w.builds == t.w.builds && t.w.activeDel <= t'.w.activeDel && t'.env == t.env
    && match t {
         case Registration(_, _, _, _, _, _, _) =>
           && t'.Registration? && t'.build == t.build && t'.tags == t.tags
           && (HasInvalidated(t) <==> HasInvalidated(t'))
           && (HasCreatedBuild(t) <==> HasCreatedBuild(t'))
           && (HasCreatedBuild(t) || (t'.w.assignments == t.w.assignments && t'.w.activeIns == t.w.activeIns))
           && (forall a :: a in t'.w.assignments && a !in t.w.assignments ==> a.build == t.build && a.tag in t.tags)
           && t'.w.activeIns.Keys <= t.w.activeIns.Keys + {t.build}
         case Deletion(_, _, _, _) =>
           t'.Deletion? && t'.w.assignments == t.w.assignments && t'.w.activeIns == t.w.activeIns
         case Tagging(_, _, _, _, _) =>
           && t'.Tagging? && t'.build == t.build && t'.w.activeIns == t.w.activeIns
           && (forall a :: a in t'.w.assignments && a !in t.w.assignments ==> a.build == t.build)
       }
  }

  lemma EnvAndAliasFrame(s: Store, i: TxnId, step: Step)
    requires step.CreateOrUpdateTemplate? || step.CheckAliasConflict? || step.CheckAliasExists?
             || step.DeleteOtherTemplateAliases? || step.CreateTemplateAlias?
    requires i in s.txns && step.i == i && Exec(s, step).Some?
    ensures var s' := Exec(s, step).value;
            s' == Drop(s, i) || (i in s'.txns && s' == Put(s, i, s'.txns[i]) && SameBuildRows(s.txns[i], s'.txns[i]))
  {
  }

  lemma AttachFrame(s: Store, i: TxnId, step: Step)
    requires step.CreateTemplateBuildAssignment? || step.CreateActiveTemplateBuild?
    requires i in s.txns && step.i == i && Exec(s, step).Some?
    ensures var s' := Exec(s, step).value;
            s' == Drop(s, i) || (i in s'.txns && s' == Put(s, i, s'.txns[i]) && SameBuildRows(s.txns[i], s'.txns[i]))
  {
  }

  lemma DeletionFrame(s: Store, i: TxnId, step: Step)
    requires step.SoftDeleteTemplate? || step.ReleaseTemplateAliases? || step.DeleteActiveTemplateBuilds?
    requires i in s.txns && step.i == i && Exec(s, step).Some?
    ensures var s' := Exec(s, step).value;
            s' == Drop(s, i) || (i in s'.txns && s' == Put(s, i, s'.txns[i]) && SameBuildRows(s.txns[i], s'.txns[i]))
  {
  }

  lemma OtherStatementFrame(s: Store, i: TxnId, step: Step)
    requires IsTxnStatement(step) && !step.InvalidateUnstartedTemplateBuilds? && !step.CreateTemplateBuild?
    requires i in s.txns && step.i == i && Exec(s, step).Some?
    ensures var s' := Exec(s, step).value;
            s' == Drop(s, i) || (i in s'.txns && s' == Put(s, i, s'.txns[i]) && SameBuildRows(s.txns[i], s'.txns[i]))
  {
    if step.CreateTemplateBuildAssignment? || step.CreateActiveTemplateBuild? {
      AttachFrame(s, i, step);
    } else if step.SoftDeleteTemplate? || step.ReleaseTemplateAliases? || step.DeleteActiveTemplateBuilds? {
      DeletionFrame(s, i, step);
    } else {
      EnvAndAliasFrame(s, i, step);
    }
  }

  lemma SameBuildRowsOk(t: Txn, t': Txn, c: Tables)
    requires TxnBuildsOk(t, c) && SameBuildRows(t, t')
    ensures TxnBuildsOk(t', c)
  {
    if t.Registration? {
      forall b | b in t'.w.builds && !(HasCreatedBuild(t') && b == t'.build) ensures Superseded(t', c, b) {
        assert Superseded(t, c, b);
      }
    }
  }

  lemma StatementKeepsBuilds(s: Store, i: TxnId, step: Step)
    requires BuildInv(s) && i in s.txns && IsTxnStatement(step) && step.i == i && Exec(s, step).Some?
    ensures BuildInv(Exec(s, step).value)
  {
    if step.InvalidateUnstartedTemplateBuilds? {
      InvalidateOk(s, i);
    } else if step.CreateTemplateBuild? {
      CreateBuildOk(s, i);
    } else {
      var s' := Exec(s, step).value;
      StepKeepsLocks(s, step);
      OtherStatementFrame(s, i, step);
      if s' == Drop(s, i) {
        DropKeepsBuilds(s, i);
      } else {
        SameBuildRowsOk(s.txns[i], s'.txns[i], s.committed);
        PutKeepsBuilds(s, i, s'.txns[i]);
      }
    }
  }

  lemma BeginKeepsBuilds(s: Store, i: TxnId, t: Txn)
    requires BuildInv(s) && i !in s.txns && LockInv(Put(s, i, t)) && t.w == NO_WRITES
    requires t.Registration? ==> t.phase.RegBegun?
    requires t.Tagging? ==> t.build in s.committed.builds && !IsPending(s.committed, t.build)
    ensures BuildInv(Put(s, i, t))
  {
    PutKeepsBuilds(s, i, t);
  }

  lemma StepKeepsBuilds(s: Store, step: Step)
    requires BuildInv(s) && Exec(s, step).Some? && Disciplined(s.committed, step)
    ensures BuildInv(Exec(s, step).value)
  {
    if step.Commit? {
      CommitKeepsBuilds(s, step.i);
    } else if step.Rollback? {
      DropKeepsBuilds(s, step.i);
    } else if IsTxnStatement(step) {
      StatementKeepsBuilds(s, step.i, step);
    } else if IsBegin(step) {
      StepKeepsLocks(s, step);
      BeginKeepsBuilds(s, step.i, Exec(s, step).value.txns[step.i]);
    } else {
      SingleKeepsBuilds(s, step);
    }
  }

  ghost predicate DisciplinedRun(states: seq<Store>, steps: seq<Step>) {
    IsRun(states, steps) && forall k :: 0 <= k < |steps| ==> Disciplined(states[k].committed, steps[k])
  }

  /**
   In every reachable state of every interleaving: at most one pending build per (template, tag),
   and every tracked build still pending or in progress.
   */
  lemma {:induction false} BuildsStayConsistent(states: seq<Store>, steps: seq<Step>, n: nat)
    requires DisciplinedRun(states, steps) && states[0] == EMPTY_STORE && n < |states|
    ensures AtMostOnePending(states[n].committed)
    ensures ActiveBuildsAreLive(states[n].committed)
    ensures BuildInv(states[n])
  {
    if n > 0 {
      BuildsStayConsistent(states, steps, n - 1);
      assert Follows(states, steps, n - 1);
      StepKeepsBuilds(states[n - 1], steps[n - 1]);
    }
  }

  /** The condition on UpdateEnvBuildStatus is exact: without it the very next state is wrong. */
  lemma UpdateStatusKeepsLiveIff(s: Store, b: BuildId, status: BuildStatus)
    requires ActiveBuildsAreLive(s.committed) && BuildRowsFree(s.txns, {b})
    ensures ActiveBuildsAreLive(Exec(s, UpdateEnvBuildStatus(b, status)).value.committed)
            <==> (IsTerminal(Group(status)) ==> b !in s.committed.active)
  {
    var c' := Exec(s, UpdateEnvBuildStatus(b, status)).value.committed;
    if IsTerminal(Group(status)) && b in s.committed.active {
      assert b in c'.active && IsTerminal(Group(c'.builds[b].status));
    }
  }
}
