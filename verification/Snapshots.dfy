/**
 Pausing: what a snapshot row and the builds made from it keep over every run, and what
 GetLastSnapshot answers while pauses succeed, fail or stay unfinished.
 */
module Snapshots {
  import opened TemplateTables
  import opened Transactions
  import opened DeletionSafety

  // ---------------------------------------------------------------------------------------
  // Build rows under open transactions
  // ---------------------------------------------------------------------------------------

  /** A committed build that t overwrites is pending, and keeps its CPU columns. */
  ghost predicate OverwritesPending(t: Txn, c: Tables) {
    forall b :: b in t.w.builds && b in c.builds ==> IsPending(c, b) && t.w.builds[b].cpu == c.builds[b].cpu
  }

  ghost predicate RowInv(s: Store) {
    && LockInv(s)
    && (forall i :: i in s.txns ==> OverwritesPending(s.txns[i], s.committed))
    && (forall i, j :: i in s.txns && j in s.txns && i != j ==> s.txns[i].w.builds.Keys !! s.txns[j].w.builds.Keys)
  }

  lemma InvalidateOverwritesPending(t: Txn, t': Txn, c: Tables)
    requires t.Registration? && OverwritesPending(t, c)
    requires t'.w == InvalidateWrites(t.w, Apply(t.w, c), t.env, t.tags)
    ensures OverwritesPending(t', c)
    ensures t'.w.builds.Keys - t.w.builds.Keys <= Unstarted(Apply(t.w, c), t.env, t.tags)
  {
  }

  lemma FreeSubset(others: Txns, rows: set<BuildId>, all: set<BuildId>)
    requires BuildRowsFree(others, all) && rows <= all
    ensures BuildRowsFree(others, rows)
  {
  }

  /** One statement of a transaction locks only free build rows. */
  lemma StatementBuildFrame(s: Store, step: Step)
    requires IsTxnStatement(step) && Exec(s, step).Some? && step.i in s.txns && OverwritesPending(s.txns[step.i], s.committed)
    ensures var s' := Exec(s, step).value;
            s' == Drop(s, step.i)
            || (step.i in s'.txns && s' == Put(s, step.i, s'.txns[step.i])
                && OverwritesPending(s'.txns[step.i], s.committed)
                && BuildRowsFree(s.txns - {step.i}, s'.txns[step.i].w.builds.Keys - s.txns[step.i].w.builds.Keys))
  {
    var t := s.txns[step.i];
    if step.InvalidateUnstartedTemplateBuilds? {
      InvalidateOverwritesPending(t, Exec(s, step).value.txns[step.i], s.committed);
      FreeSubset(s.txns - {step.i}, Exec(s, step).value.txns[step.i].w.builds.Keys - t.w.builds.Keys,
                 Unstarted(Apply(t.w, s.committed), t.env, t.tags));
    } else if step.CreateTemplateBuild? && step.i in Exec(s, step).value.txns {
      assert Exec(s, step).value.txns[step.i].w.builds.Keys - t.w.builds.Keys <= {t.build};
    }
  }

  /** Builds committed by a statement outside a transaction block. */
  lemma SingleBuildFrame(s: Store, step: Step)
    requires ExecSingle(s, step).Some?
    ensures var c, c' := s.committed, ExecSingle(s, step).value.committed;
            && (forall b :: b in c.builds ==> b in c'.builds)
            && (forall b :: b in c'.builds && (b !in c.builds || c'.builds[b] != c.builds[b]) ==> BuildRowsFree(s.txns, {b}))
  {
  }

  lemma PutKeepsRows(s: Store, i: TxnId, t: Txn)
    requires RowInv(s) && i in s.txns && LockInv(Put(s, i, t)) && OverwritesPending(t, s.committed)
    requires BuildRowsFree(s.txns - {i}, t.w.builds.Keys - s.txns[i].w.builds.Keys)
    ensures RowInv(Put(s, i, t))
  {
    forall j | j in s.txns && j != i ensures t.w.builds.Keys !! s.txns[j].w.builds.Keys {
      assert (s.txns - {i})[j] == s.txns[j];
    }
  }

  lemma DropKeepsRows(s: Store, i: TxnId)
    requires RowInv(s) && LockInv(Drop(s, i))
    ensures RowInv(Drop(s, i))
  {
  }

  lemma StatementKeepsRows(s: Store, step: Step)
    requires RowInv(s) && IsTxnStatement(step) && Exec(s, step).Some? && step.i in s.txns
    ensures RowInv(Exec(s, step).value)
  {
    StepKeepsLocks(s, step);
    StatementBuildFrame(s, step);
    var s' := Exec(s, step).value;
    if s' == Drop(s, step.i) {
      DropKeepsRows(s, step.i);
    } else {
      PutKeepsRows(s, step.i, s'.txns[step.i]);
    }
  }

  lemma SingleKeepsRows(s: Store, step: Step)
    requires RowInv(s) && ExecSingle(s, step).Some?
    ensures RowInv(ExecSingle(s, step).value)
  {
    SingleKeepsLocks(s, step);
    SingleBuildFrame(s, step);
    SingleFrame(s, step);
    var c' := ExecSingle(s, step).value.committed;
    forall i | i in s.txns ensures OverwritesPending(s.txns[i], c') {
      forall b | b in s.txns[i].w.builds && b in c'.builds ensures b in s.committed.builds && c'.builds[b] == s.committed.builds[b] {
        assert b in s.txns[i].w.builds.Keys * {b};
        assert !BuildRowsFree(s.txns, {b});
      }
    }
  }

  lemma BeginKeepsRows(s: Store, i: TxnId, t: Txn)
    requires RowInv(s) && i !in s.txns && t.w == NO_WRITES && LockInv(Put(s, i, t))
    ensures RowInv(Put(s, i, t))
  {
  }

  lemma StepKeepsRows(s: Store, step: Step)
    requires RowInv(s) && Exec(s, step).Some?
    ensures RowInv(Exec(s, step).value)
  {
    if step.Commit? {
      CommitKeepsRows(s, step.i);
    } else if IsTxnStatement(step) {
      StatementKeepsRows(s, step);
    } else if step.Rollback? {
      StepKeepsLocks(s, step);
      DropKeepsRows(s, step.i);
    } else if IsBegin(step) {
      StepKeepsLocks(s, step);
      BeginKeepsRows(s, step.i, Exec(s, step).value.txns[step.i]);
    } else {
      SingleKeepsRows(s, step);
    }
  }

  lemma CommitKeepsRows(s: Store, i: TxnId)
    requires RowInv(s) && i in s.txns && MayCommit(s.txns[i])
    ensures RowInv(Store(Apply(s.txns[i].w, s.committed), s.txns - {i}))
  {
    var s' := Store(Apply(s.txns[i].w, s.committed), s.txns - {i});
    CommitKeepsLocks(s, i);
    forall j | j in s'.txns ensures OverwritesPending(s'.txns[j], s'.committed) {
      CommitKeepsOverwrites(s.txns[i], s.txns[j], s.committed);
    }
  }

  lemma CommitKeepsOverwrites(t: Txn, u: Txn, c: Tables)
    requires OverwritesPending(u, c) && t.w.builds.Keys !! u.w.builds.Keys
    ensures OverwritesPending(u, Apply(t.w, c))
  {
  }

  lemma {:induction false} RunKeepsRows(states: seq<Store>, steps: seq<Step>, n: nat)
    requires IsRun(states, steps) && RowInv(states[0]) && n < |states|
    ensures RowInv(states[n])
  {
    if n > 0 {
      RunKeepsRows(states, steps, n - 1);
      assert Follows(states, steps, n - 1);
      StepKeepsRows(states[n - 1], steps[n - 1]);
    }
  }

  /** A registration's commit leaves every build that had started or finished exactly as it was. */
  lemma CommitTouchesOnlyPending(s: Store, i: TxnId, b: BuildId)
    requires RowInv(s) && Exec(s, Commit(i)).Some? && b in s.committed.builds && !IsPending(s.committed, b)
    ensures var c' := Exec(s, Commit(i)).value.committed;
            b in c'.builds && c'.builds[b] == s.committed.builds[b]
  {
    assert OverwritesPending(s.txns[i], s.committed);
  }

  /** The statements that set the status of b. */
  predicate SetsStatusOf(step: Step, b: BuildId) {
    (step.FinishTemplateBuild? || step.FailTemplateBuildAndDeactivate? || step.UpdateEnvBuildStatus?) && step.build == b
  }

  /** The statement that sets the CPU columns of b. */
  predicate SetsCpuOf(step: Step, b: BuildId) {
    step.UpdateTemplateBuild? && step.build == b
  }

  /** c' has the build as c has it, but for the columns the step sets. */
  ghost predicate OnlyNamedColumns(c: Tables, step: Step, c': Tables, b: BuildId)
    requires b in c.builds
  {
    && b in c'.builds
    && (!SetsStatusOf(step, b) ==> c'.builds[b].status == c.builds[b].status)
    && (!SetsCpuOf(step, b) ==> c'.builds[b].cpu == c.builds[b].cpu)
  }

  lemma SingleKeepsStarted(s: Store, step: Step, b: BuildId)
    requires ExecSingle(s, step).Some? && b in s.committed.builds
    ensures OnlyNamedColumns(s.committed, step, ExecSingle(s, step).value.committed, b)
  {
  }

  /**
   Over every run a build that has started or finished is changed by no invalidation, registration,
   deletion or pause: its status only by a statement that sets the status of that very build, its
   CPU columns only by the one that sets those.
   */
  lemma StartedBuildsAreUntouched(states: seq<Store>, steps: seq<Step>, k: nat, b: BuildId)
    requires IsRun(states, steps) && states[0] == EMPTY_STORE && k < |steps|
    requires b in states[k].committed.builds && !IsPending(states[k].committed, b)
    ensures OnlyNamedColumns(states[k].committed, steps[k], states[k + 1].committed, b)
  {
    RunKeepsRows(states, steps, k);
    assert Follows(states, steps, k);
    StepKeepsStarted(states[k], steps[k], b);
  }

  lemma StepKeepsStarted(s: Store, step: Step, b: BuildId)
    requires RowInv(s) && Exec(s, step).Some? && b in s.committed.builds && !IsPending(s.committed, b)
    ensures OnlyNamedColumns(s.committed, step, Exec(s, step).value.committed, b)
  {
    if step.Commit? {
      CommitTouchesOnlyPending(s, step.i, b);
    } else if IsTxnStatement(step) {
      StatementKeepsCommitted(s, step);
    } else if !step.Rollback? && !IsBegin(step) {
      SingleKeepsStarted(s, step, b);
    }
  }

  // ---------------------------------------------------------------------------------------
  // The snapshot row
  // ---------------------------------------------------------------------------------------

  /** The step is a pause that the database accepts. */
  predicate AcceptedPause(s: Store, step: Step) {
    step.PauseSandbox? && UpsertSnapshot(s.committed, step.pause).Some?
  }

  /** env_id is never the placeholder the statement would insert for a row it expects to exist. */
  ghost predicate NoPlaceholder(c: Tables) {
    forall sb :: sb in c.snapshots ==> c.snapshots[sb].env != "" && c.snapshots[sb].env in c.envs
  }

  /** Callers pass a generated template id. */
  predicate GeneratesId(step: Step) {
    step.PauseSandbox? ==> step.pause.template != ""
  }

  predicate Pauses(s: Store, step: Step, sb: SandboxId) {
    AcceptedPause(s, step) && step.pause.sandbox == sb
  }

  /** What a step may do to the snapshot row of sb. */
  ghost predicate SnapshotStep(s: Store, step: Step, c': Tables, sb: SandboxId) {
    var c := s.committed;
    && (sb in c'.snapshots <==> sb in c.snapshots || Pauses(s, step, sb))
    && (sb in c.snapshots ==>
      && c'.snapshots[sb].env == c.snapshots[sb].env
      && c'.snapshots[sb].baseEnv == c.snapshots[sb].baseEnv
      && c'.snapshots[sb].team == c.snapshots[sb].team)
    && (sb in c.snapshots && !Pauses(s, step, sb) ==> c'.snapshots[sb] == c.snapshots[sb])
    && (Pauses(s, step, sb) ==>
      && c'.snapshots[sb].startedAt == step.pause.startedAt
      && c'.snapshots[sb].originNode == step.pause.originNode
      && c'.snapshots[sb].allowInternet ==
         if step.pause.allowInternet.Some? then step.pause.allowInternet
         else if sb in c.snapshots then c.snapshots[sb].allowInternet else None)
    && (Pauses(s, step, sb) && sb !in c.snapshots ==>
      && c'.snapshots[sb].env == step.pause.template
      && c'.snapshots[sb].baseEnv == step.pause.baseEnv
      && c'.snapshots[sb].team == step.pause.team)
  }

  lemma StepKeepsSnapshot(s: Store, step: Step, sb: SandboxId)
    requires Exec(s, step).Some?
    ensures SnapshotStep(s, step, Exec(s, step).value.committed, sb)
  {
    if IsTxnStatement(step) {
      StatementKeepsCommitted(s, step);
    } else if step.PauseSandbox? {
      PauseSnapshotStep(s, step.pause, sb);
    } else if !step.Commit? && !step.Rollback? && !IsBegin(step) {
      SingleSnapshotFrame(s, step);
    }
  }

  lemma PauseSnapshotStep(s: Store, p: Pause, sb: SandboxId)
    requires ExecSingle(s, PauseSandbox(p)).Some?
    ensures SnapshotStep(s, PauseSandbox(p), ExecSingle(s, PauseSandbox(p)).value.committed, sb)
  {
  }

  lemma SingleSnapshotFrame(s: Store, step: Step)
    requires ExecSingle(s, step).Some? && !step.PauseSandbox?
    ensures ExecSingle(s, step).value.committed.snapshots == s.committed.snapshots
  {
  }

  lemma RunKeepsSnapshot(states: seq<Store>, steps: seq<Step>, sb: SandboxId, k: nat)
    requires IsRun(states, steps) && k < |steps|
    ensures SnapshotStep(states[k], steps[k], states[k + 1].committed, sb)
  {
    assert Follows(states, steps, k);
    StepKeepsSnapshot(states[k], steps[k], sb);
  }

  lemma StepKeepsNoPlaceholder(s: Store, step: Step)
    requires NoPlaceholder(s.committed) && Exec(s, step).Some? && GeneratesId(step)
    ensures NoPlaceholder(Exec(s, step).value.committed)
  {
    if IsTxnStatement(step) {
      StatementKeepsCommitted(s, step);
    } else if step.PauseSandbox? {
      PauseKeepsNoPlaceholder(s, step.pause);
    } else if !step.Commit? && !step.Rollback? && !IsBegin(step) {
      SingleFrame(s, step);
      SingleSnapshotFrame(s, step);
    }
  }

  lemma PauseKeepsNoPlaceholder(s: Store, p: Pause)
    requires NoPlaceholder(s.committed) && ExecSingle(s, PauseSandbox(p)).Some? && p.template != ""
    ensures NoPlaceholder(ExecSingle(s, PauseSandbox(p)).value.committed)
  {
  }

  /** Over every run a snapshot's env is set by its first pause, is a real env, and never changes. */
  lemma {:induction false} SnapshotEnvIsSetOnce(states: seq<Store>, steps: seq<Step>, sb: SandboxId, k: nat, m: nat)
    requires IsRun(states, steps) && states[0] == EMPTY_STORE && k <= m < |states|
    requires forall j :: 0 <= j < |steps| ==> GeneratesId(steps[j])
    ensures NoPlaceholder(states[m].committed)
    ensures sb in states[k].committed.snapshots ==>
              sb in states[m].committed.snapshots && states[m].committed.snapshots[sb].env == states[k].committed.snapshots[sb].env
    decreases m
  {
    if m > 0 {
      assert Follows(states, steps, m - 1);
      SnapshotEnvIsSetOnce(states, steps, sb, if k < m then k else m - 1, m - 1);
      StepKeepsNoPlaceholder(states[m - 1], steps[m - 1]);
      StepKeepsSnapshot(states[m - 1], steps[m - 1], sb);
    }
  }

  /** The first accepted pause decides env, base env and team for good; the latest one start time and origin node. */
  lemma {:induction false} FirstAndLastPauseShow(states: seq<Store>, steps: seq<Step>, sb: SandboxId, first: nat, last: nat, n: nat)
    requires IsRun(states, steps) && first <= last < n < |states| && sb !in states[first].committed.snapshots
    requires Pauses(states[first], steps[first], sb) && Pauses(states[last], steps[last], sb)
    requires forall j :: last < j < n ==> !Pauses(states[j], steps[j], sb)
    ensures sb in states[n].committed.snapshots
    ensures var row, p, q := states[n].committed.snapshots[sb], steps[first].pause, steps[last].pause;
            && row.env == p.template && row.baseEnv == p.baseEnv && row.team == p.team
            && row.startedAt == q.startedAt && row.originNode == q.originNode
  {
    RunKeepsSnapshot(states, steps, sb, n - 1);
    if last < n - 1 {
      FirstAndLastPauseShow(states, steps, sb, first, last, n - 1);
    } else if first < last {
      FirstPauseStays(states, steps, sb, first, last);
    }
  }

  lemma {:induction false} FirstPauseStays(states: seq<Store>, steps: seq<Step>, sb: SandboxId, first: nat, n: nat)
    requires IsRun(states, steps) && first < n < |states| && sb !in states[first].committed.snapshots
    requires Pauses(states[first], steps[first], sb)
    ensures sb in states[n].committed.snapshots
    ensures var row, p := states[n].committed.snapshots[sb], steps[first].pause;
            row.env == p.template && row.baseEnv == p.baseEnv && row.team == p.team
  {
    RunKeepsSnapshot(states, steps, sb, n - 1);
    if first < n - 1 {
      FirstPauseStays(states, steps, sb, first, n - 1);
    }
  }

  /** What step j supplies for sb: the value of an accepted pause, None for anything else. */
  function Supplied(s: Store, step: Step, sb: SandboxId): Option<bool> {
    if Pauses(s, step, sb) then step.pause.allowInternet else None
  }

  ghost function AllSupplied(states: seq<Store>, steps: seq<Step>, sb: SandboxId, n: nat): seq<Option<bool>>
    requires n <= |steps| < |states|
  {
    seq(n, j requires 0 <= j < n => Supplied(states[j], steps[j], sb))
  }

  lemma SuppliedExtends(states: seq<Store>, steps: seq<Step>, sb: SandboxId, n: nat)
    requires n < |steps| < |states|
    ensures AllSupplied(states, steps, sb, n + 1) == AllSupplied(states, steps, sb, n) + [Supplied(states[n], steps[n], sb)]
  {
  }

  /** v is the last non-null of the values, None if there is none. */
  ghost predicate IsLastNonNull(values: seq<Option<bool>>, v: Option<bool>) {
    || (v == None && forall j :: 0 <= j < |values| ==> values[j] == None)
    || (v != None && exists j :: 0 <= j < |values| && values[j] == v && forall l :: j < l < |values| ==> values[l] == None)
  }

  lemma LastNonNullExtends(values: seq<Option<bool>>, v: Option<bool>, next: Option<bool>)
    requires IsLastNonNull(values, v)
    ensures IsLastNonNull(values + [next], if next.Some? then next else v)
  {
    var more := values + [next];
    if next.Some? {
      assert more[|values|] == next;
    } else if v.Some? {
      var j :| 0 <= j < |values| && values[j] == v && forall l :: j < l < |values| ==> values[l] == None;
      assert more[j] == v && forall l :: j < l < |more| ==> more[l] == None;
    }
  }

  /** allow_internet_access is the last non-null value any accepted pause supplied, NULL if none did. */
  lemma {:induction false} AllowInternetIsLastSupplied(states: seq<Store>, steps: seq<Step>, sb: SandboxId, n: nat)
    requires IsRun(states, steps) && states[0] == EMPTY_STORE && n < |states| && sb in states[n].committed.snapshots
    ensures IsLastNonNull(AllSupplied(states, steps, sb, n), states[n].committed.snapshots[sb].allowInternet)
    decreases n
  {
    if n > 0 {
      var s, values := states[n - 1], AllSupplied(states, steps, sb, n - 1);
      RunKeepsSnapshot(states, steps, sb, n - 1);
      SuppliedExtends(states, steps, sb, n - 1);
      if sb in s.committed.snapshots {
        AllowInternetIsLastSupplied(states, steps, sb, n - 1);
        LastNonNullExtends(values, s.committed.snapshots[sb].allowInternet, Supplied(s, steps[n - 1], sb));
      } else {
        NothingSupplied(states, steps, sb, n - 1);
        LastNonNullExtends(values, None, Supplied(s, steps[n - 1], sb));
      }
    }
  }

  lemma NothingSupplied(states: seq<Store>, steps: seq<Step>, sb: SandboxId, n: nat)
    requires IsRun(states, steps) && n < |states| && sb !in states[n].committed.snapshots
    ensures IsLastNonNull(AllSupplied(states, steps, sb, n), None)
  {
    NoPauseBefore(states, steps, sb, n);
  }

  lemma {:induction false} NoPauseBefore(states: seq<Store>, steps: seq<Step>, sb: SandboxId, n: nat)
    requires IsRun(states, steps) && n < |states| && sb !in states[n].committed.snapshots
    ensures forall j :: 0 <= j < n ==> !Pauses(states[j], steps[j], sb)
  {
    if n > 0 {
      RunKeepsSnapshot(states, steps, sb, n - 1);
      NoPauseBefore(states, steps, sb, n - 1);
    }
  }

  // ---------------------------------------------------------------------------------------
  // GetLastSnapshot
  // ---------------------------------------------------------------------------------------

  /** The rows GetLastSnapshot orders by created_at and takes the first of. */
  function SnapshotRows(t: Tables, sb: SandboxId): set<Assignment> {
    if sb in t.snapshots && IsActiveEnv(t, t.snapshots[sb].env)
    then set a | a in t.assignments && a.env == t.snapshots[sb].env && a.tag == DEFAULT_TAG && HasGroup(t, a.build, ReadyGroup)
    else {}
  }

  ghost predicate IsLastSnapshot(t: Tables, sb: SandboxId, a: Assignment) {
    a in SnapshotRows(t, sb) && IsNewest(SnapshotRows(t, sb), a)
  }

  /** The statements that take an answer away, as a caller could tell before running them. */
  predicate TakesAway(s: Store, step: Step, sb: SandboxId) {
    var rows := SnapshotRows(s.committed, sb);
    match step
    case Commit(i) =>
      i in s.txns && s.txns[i].Deletion? && sb in s.committed.snapshots
      && s.txns[i].env == s.committed.snapshots[sb].env && rows != {}
    case FinishTemplateBuild(b, status) => !Group(status).ReadyGroup? && exists a | a in rows :: a.build == b
    case FailTemplateBuildAndDeactivate(b, status) => !Group(status).ReadyGroup? && exists a | a in rows :: a.build == b
    case UpdateEnvBuildStatus(b, status) => !Group(status).ReadyGroup? && exists a | a in rows :: a.build == b
    case DeleteTemplateTags(env, tags) => DEFAULT_TAG in tags && exists a | a in rows :: a.env == env
    case _ => false
  }

  lemma CommitKeepsAnswersIff(s: Store, i: TxnId, sb: SandboxId)
    requires RowInv(s) && i in s.txns && MayCommit(s.txns[i])
    ensures SnapshotRows(s.committed, sb) <= SnapshotRows(Apply(s.txns[i].w, s.committed), sb)
            <==> !TakesAway(s, Commit(i), sb)
  {
    var c, t := s.committed, s.txns[i];
    assert WritesUnderLock(t, c) && OverwritesPending(t, c);
    if TakesAway(s, Commit(i), sb) {
      assert SnapshotRows(Apply(t.w, c), sb) == {};
    } else {
      CommitKeepsAnswers(t, c, sb);
    }
  }

  lemma CommitKeepsAnswers(t: Txn, c: Tables, sb: SandboxId)
    requires WritesUnderLock(t, c) && OverwritesPending(t, c)
    requires t.Deletion? && sb in c.snapshots && t.env == c.snapshots[sb].env ==> SnapshotRows(c, sb) == {}
    ensures SnapshotRows(c, sb) <= SnapshotRows(Apply(t.w, c), sb)
  {
    forall a | a in SnapshotRows(c, sb) ensures a in SnapshotRows(Apply(t.w, c), sb) {
      assert IsActiveEnv(Apply(t.w, c), a.env);
    }
  }

  lemma SingleTakesAway(s: Store, step: Step, sb: SandboxId)
    requires ExecSingle(s, step).Some? && TakesAway(s, step, sb)
    ensures !(SnapshotRows(s.committed, sb) <= SnapshotRows(ExecSingle(s, step).value.committed, sb))
  {
    var rows, c' := SnapshotRows(s.committed, sb), ExecSingle(s, step).value.committed;
    if step.DeleteTemplateTags? {
      var a :| a in rows && a.env == step.env;
      assert a !in SnapshotRows(c', sb);
    } else {
      var a :| a in rows && a.build == step.build;
      assert a !in SnapshotRows(c', sb);
    }
  }

  lemma SingleKeepsAnswersIff(s: Store, step: Step, sb: SandboxId)
    requires ExecSingle(s, step).Some?
    ensures SnapshotRows(s.committed, sb) <= SnapshotRows(ExecSingle(s, step).value.committed, sb) <==> !TakesAway(s, step, sb)
  {
    var c, c' := s.committed, ExecSingle(s, step).value.committed;
    SingleFrame(s, step);
    StepKeepsSnapshot(s, step, sb);
    if TakesAway(s, step, sb) {
      SingleTakesAway(s, step, sb);
    } else {
      forall a | a in SnapshotRows(c, sb) ensures a in SnapshotRows(c', sb) {
      }
    }
  }

  /** A step removes a candidate answer of sb exactly when it is one of the statements above. */
  lemma StepKeepsAnswersIff(s: Store, step: Step, sb: SandboxId)
    requires RowInv(s) && Exec(s, step).Some?
    ensures SnapshotRows(s.committed, sb) <= SnapshotRows(Exec(s, step).value.committed, sb) <==> !TakesAway(s, step, sb)
  {
    if step.Commit? {
      CommitKeepsAnswersIff(s, step.i, sb);
    } else if IsTxnStatement(step) {
      StatementKeepsCommitted(s, step);
    } else if !step.Rollback? && !IsBegin(step) {
      SingleKeepsAnswersIff(s, step, sb);
    }
  }

  /** While nothing is taken away the answer stays available and only moves forward in time. */
  lemma {:induction false} LastSnapshotMovesForward(states: seq<Store>, steps: seq<Step>, sb: SandboxId, k: nat, m: nat)
    requires IsRun(states, steps) && RowInv(states[0]) && k <= m < |states|
    requires forall j :: k <= j < m ==> !TakesAway(states[j], steps[j], sb)
    ensures SnapshotRows(states[k].committed, sb) <= SnapshotRows(states[m].committed, sb)
    ensures forall a :: IsLastSnapshot(states[k].committed, sb, a)
                        ==> exists a' :: IsLastSnapshot(states[m].committed, sb, a')
    ensures forall a, a' :: IsLastSnapshot(states[k].committed, sb, a) && IsLastSnapshot(states[m].committed, sb, a')
                            ==> a.createdAt <= a'.createdAt
  {
    if k < m {
      LastSnapshotMovesForward(states, steps, sb, k, m - 1);
      RunKeepsRows(states, steps, m - 1);
      assert Follows(states, steps, m - 1);
      StepKeepsAnswersIff(states[m - 1], steps[m - 1], sb);
    }
    var rows := SnapshotRows(states[m].committed, sb);
    if rows != {} {
      NewestExists(rows);
      var best :| best in rows && IsNewest(rows, best);
      assert IsLastSnapshot(states[m].committed, sb, best);
    }
  }

  /** A pause that is not ready yet changes no sandbox's answer. */
  lemma UnfinishedPauseHidesNothing(s: Store, p: Pause, sb: SandboxId)
    requires Exec(s, PauseSandbox(p)).Some? && !Group(p.status).ReadyGroup? && sb in s.committed.snapshots
    requires NoPlaceholder(s.committed)
    ensures SnapshotRows(Exec(s, PauseSandbox(p)).value.committed, sb) == SnapshotRows(s.committed, sb)
  {
    SingleFrame(s, PauseSandbox(p));
    StepKeepsSnapshot(s, PauseSandbox(p), sb);
  }

  /** A pause that ends in failure leaves the answer as it was before the pause. */
  lemma FailedPauseHidesNothing(s: Store, p: Pause, status: BuildStatus)
    requires AcceptedPause(s, PauseSandbox(p)) && Exec(s, PauseSandbox(p)).Some?
    requires !Group(p.status).ReadyGroup? && !Group(status).ReadyGroup? && p.sandbox in s.committed.snapshots
    requires NoPlaceholder(s.committed)
    ensures var paused := Exec(s, PauseSandbox(p)).value;
            && Exec(paused, UpdateEnvBuildStatus(p.build, status)).Some?
            && SnapshotRows(Exec(paused, UpdateEnvBuildStatus(p.build, status)).value.committed, p.sandbox)
               == SnapshotRows(s.committed, p.sandbox)
  {
    UnfinishedPauseHidesNothing(s, p, p.sandbox);
  }

  // ---------------------------------------------------------------------------------------
  // A pause that becomes ready
  // ---------------------------------------------------------------------------------------

  predicate DeletesDefaultTag(step: Step) {
    step.DeleteTemplateTags? && DEFAULT_TAG in step.tags
  }

  lemma StepKeepsAssignment(s: Store, step: Step, a: Assignment)
    requires Exec(s, step).Some? && a in s.committed.assignments && a.tag == DEFAULT_TAG && !DeletesDefaultTag(step)
    ensures a in Exec(s, step).value.committed.assignments
  {
    if IsTxnStatement(step) {
      StatementKeepsCommitted(s, step);
    }
  }

  /** The row the pause attached stays attached; the handler refuses to delete the default tag. */
  lemma {:induction false} PauseStaysAttached(states: seq<Store>, steps: seq<Step>, k: nat, m: nat) returns (a: Assignment)
    requires IsRun(states, steps) && k < m < |states| && AcceptedPause(states[k], steps[k])
    requires forall j :: k < j < m ==> !DeletesDefaultTag(steps[j])
    ensures a in states[m].committed.assignments && a.tag == DEFAULT_TAG
    ensures a.build == steps[k].pause.build && a.createdAt == steps[k].pause.now
    ensures steps[k].pause.sandbox in states[m].committed.snapshots
    ensures a.env == states[m].committed.snapshots[steps[k].pause.sandbox].env
  {
    RunKeepsSnapshot(states, steps, steps[k].pause.sandbox, m - 1);
    assert Follows(states, steps, m - 1);
    if k + 1 < m {
      a := PauseStaysAttached(states, steps, k, m - 1);
      StepKeepsAssignment(states[m - 1], steps[m - 1], a);
    } else {
      var p := steps[k].pause;
      a := Assignment(p.rowId, PausedRow(states[k].committed, p).env, p.build, DEFAULT_TAG, p.now);
    }
  }

  /**
   Whenever, after an accepted pause and any further history, its build is ready and the snapshot's
   env is live, GetLastSnapshot answers with a build at least as new; and with this very build
   unless another ready row is as new.
   */
  lemma ReadyPauseIsAnswered(states: seq<Store>, steps: seq<Step>, k: nat, m: nat)
    requires IsRun(states, steps) && k < m < |states| && AcceptedPause(states[k], steps[k])
    requires forall j :: k < j < m ==> !DeletesDefaultTag(steps[j])
    requires HasGroup(states[m].committed, steps[k].pause.build, ReadyGroup)
    requires steps[k].pause.sandbox in states[m].committed.snapshots
             && IsActiveEnv(states[m].committed, states[m].committed.snapshots[steps[k].pause.sandbox].env)
    ensures var p, c := steps[k].pause, states[m].committed;
            && (exists a :: IsLastSnapshot(c, p.sandbox, a))
            && (forall a :: IsLastSnapshot(c, p.sandbox, a) ==> a.createdAt >= p.now)
            && ((forall o :: o in SnapshotRows(c, p.sandbox) && o.build != p.build ==> o.createdAt < p.now)
                ==> forall a :: IsLastSnapshot(c, p.sandbox, a) ==> a.build == p.build)
  {
    var p, c := steps[k].pause, states[m].committed;
    var own := PauseStaysAttached(states, steps, k, m);
    assert own in SnapshotRows(c, p.sandbox);
    NewestExists(SnapshotRows(c, p.sandbox));
    var best :| best in SnapshotRows(c, p.sandbox) && IsNewest(SnapshotRows(c, p.sandbox), best);
    assert IsLastSnapshot(c, p.sandbox, best);
  }
}
