/**
 The CPU columns of a build: set when the build starts, copied by every pause, and what a build at
 the end of a chain of pauses carries.
 */
module CpuColumns {
  import opened TemplateTables
  import opened Transactions
  import opened DeletionSafety
  import opened BuildLifecycle
  import opened AliasOwnership
  import opened Snapshots
  import opened SoloRuns

  // ---------------------------------------------------------------------------------------
  // One build
  // ---------------------------------------------------------------------------------------

  /** The last value UpdateTemplateBuild wrote for b in the steps from k up to m. */
  function LastCpuWrite(steps: seq<Step>, b: BuildId, k: nat, m: nat): Option<CpuInfo>
    requires k <= m <= |steps|
    decreases m
  {
    if k == m then None
    else if SetsCpuOf(steps[m - 1], b) then Some(steps[m - 1].cpu)
    else LastCpuWrite(steps, b, k, m - 1)
  }

  /** What that means: no such step, or the value of the last one. */
  lemma {:induction false} LastCpuWriteIs(steps: seq<Step>, b: BuildId, k: nat, m: nat)
    requires k <= m <= |steps|
    ensures LastCpuWrite(steps, b, k, m).None? <==> forall j :: k <= j < m ==> !SetsCpuOf(steps[j], b)
    ensures forall j :: k <= j < m && SetsCpuOf(steps[j], b) && (forall l :: j < l < m ==> !SetsCpuOf(steps[l], b))
                        ==> LastCpuWrite(steps, b, k, m) == Some(steps[j].cpu)
    decreases m
  {
    if k < m && !SetsCpuOf(steps[m - 1], b) {
      LastCpuWriteIs(steps, b, k, m - 1);
    }
  }

  function OrElse(written: Option<CpuInfo>, before: CpuInfo): CpuInfo {
    if written.Some? then written.value else before
  }

  lemma StepCpu(s: Store, step: Step, b: BuildId)
    requires RowInv(s) && Exec(s, step).Some? && b in s.committed.builds
    ensures var c' := Exec(s, step).value.committed;
            b in c'.builds && c'.builds[b].cpu == if SetsCpuOf(step, b) then step.cpu else s.committed.builds[b].cpu
  {
    if step.Commit? {
      assert OverwritesPending(s.txns[step.i], s.committed);
    } else if IsTxnStatement(step) {
      StatementKeepsCommitted(s, step);
    } else if !step.Rollback? && !IsBegin(step) {
      SingleKeepsStarted(s, step, b);
    }
  }

  /** Over every run the columns are what UpdateTemplateBuild last wrote for the build, or what they were. */
  lemma {:induction false} RunCpuIsLastWritten(states: seq<Store>, steps: seq<Step>, b: BuildId, k: nat, m: nat)
    requires IsRun(states, steps) && RowInv(states[0]) && k <= m < |states| && b in states[k].committed.builds
    ensures b in states[m].committed.builds
    ensures states[m].committed.builds[b].cpu == OrElse(LastCpuWrite(steps, b, k, m), states[k].committed.builds[b].cpu)
    decreases m
  {
    if k < m {
      RunCpuIsLastWritten(states, steps, b, k, m - 1);
      RunKeepsRows(states, steps, m - 1);
      assert Follows(states, steps, m - 1);
      StepCpu(states[m - 1], steps[m - 1], b);
    }
  }

  /** An existing build keeps its columns iff no UpdateTemplateBuild names it, or the last one wrote what was there. */
  lemma RunKeepsCpuIff(states: seq<Store>, steps: seq<Step>, b: BuildId, k: nat, m: nat)
    requires IsRun(states, steps) && RowInv(states[0]) && k <= m < |states| && b in states[k].committed.builds
    ensures b in states[m].committed.builds
    ensures states[m].committed.builds[b].cpu == states[k].committed.builds[b].cpu
            <==> (|| (forall j :: k <= j < m ==> !SetsCpuOf(steps[j], b))
                  || LastCpuWrite(steps, b, k, m) == Some(states[k].committed.builds[b].cpu))
  {
    RunCpuIsLastWritten(states, steps, b, k, m);
    LastCpuWriteIs(steps, b, k, m);
  }

  // ---------------------------------------------------------------------------------------
  // Chains of pauses
  // ---------------------------------------------------------------------------------------

  /** Step k is a pause that made its build. */
  ghost predicate MakesBuild(states: seq<Store>, steps: seq<Step>, k: nat)
    requires k < |steps| < |states|
  {
    && steps[k].PauseSandbox?
    && steps[k].pause.build !in states[k].committed.builds && steps[k].pause.build in states[k + 1].committed.builds
  }

  /** at lists, in order, the steps of pauses each resumed from the build the one before it made. */
  ghost predicate IsPauseChain(states: seq<Store>, steps: seq<Step>, at: seq<nat>)
    requires IsRun(states, steps)
  {
    && (forall j :: 0 <= j < |at| ==> at[j] < |steps| && MakesBuild(states, steps, at[j]))
    && (forall i, j :: 0 <= i < j < |at| ==> at[i] < at[j])
    && (forall j :: 0 < j < |at| ==> steps[at[j]].pause.source == steps[at[j - 1]].pause.build)
  }

  lemma PausedBuildCopiesSource(states: seq<Store>, steps: seq<Step>, k: nat)
    requires IsRun(states, steps) && k < |steps| && MakesBuild(states, steps, k)
    ensures var p := steps[k].pause;
            states[k + 1].committed.builds[p.build] == Build(p.status, SourceCpu(states[k].committed, p.source))
  {
    assert Follows(states, steps, k);
  }

  /** The last write to a build of the chain between its own pause and the moment it is resumed from, or m for the last. */
  function ChainWrite(steps: seq<Step>, at: seq<nat>, m: nat): Option<CpuInfo>
    requires m <= |steps|
    requires forall j :: 0 <= j < |at| ==> at[j] < |steps| && steps[at[j]].PauseSandbox? && at[j] < m
    requires forall i, j :: 0 <= i < j < |at| ==> at[i] < at[j]
    decreases |at|
  {
    if at == [] then None
    else
      var k := at[|at| - 1];
      var own := LastCpuWrite(steps, steps[k].pause.build, k + 1, m);
      if own.Some? then own else ChainWrite(steps, at[..|at| - 1], k)
  }

  /**
   However many pauses lie between, on whichever nodes they ran, and whatever else happens
   meanwhile, the last build of a chain carries the CPU columns its root had when first paused,
   unless a build of the chain was rewritten before the chain went on from it.
   */
  lemma {:induction false} PauseChainCpu(states: seq<Store>, steps: seq<Step>, at: seq<nat>, m: nat)
    requires IsRun(states, steps) && RowInv(states[0]) && at != [] && IsPauseChain(states, steps, at)
    requires at[|at| - 1] < m < |states|
    ensures forall j :: 0 <= j < |at| ==> at[j] < m
    ensures var last := steps[at[|at| - 1]].pause.build;
            && last in states[m].committed.builds
            && states[m].committed.builds[last].cpu
               == OrElse(ChainWrite(steps, at, m), SourceCpu(states[at[0]].committed, steps[at[0]].pause.source))
    decreases |at|
  {
    var k := at[|at| - 1];
    PausedBuildCopiesSource(states, steps, k);
    RunCpuIsLastWritten(states, steps, steps[k].pause.build, k + 1, m);
    if |at| > 1 {
      PauseChainCpu(states, steps, at[..|at| - 1], k);
    }
  }

  /** The chain's end equals its root iff no chain build was rewritten in its turn, or the last rewriting wrote the root's columns. */
  lemma PauseChainKeepsCpuIff(states: seq<Store>, steps: seq<Step>, at: seq<nat>, m: nat)
    requires IsRun(states, steps) && RowInv(states[0]) && at != [] && IsPauseChain(states, steps, at)
    requires at[|at| - 1] < m < |states|
    ensures forall j :: 0 <= j < |at| ==> at[j] < m
    ensures var last, root := steps[at[|at| - 1]].pause.build, SourceCpu(states[at[0]].committed, steps[at[0]].pause.source);
            && last in states[m].committed.builds
            && (states[m].committed.builds[last].cpu == root
                <==> ChainWrite(steps, at, m).None? || ChainWrite(steps, at, m) == Some(root))
  {
    PauseChainCpu(states, steps, at, m);
  }

  // ---------------------------------------------------------------------------------------
  // The callers' check: only a pending build is started
  // ---------------------------------------------------------------------------------------

  /** Every build was pending when the request that writes its columns read it, in this state or an earlier one. */
  ghost predicate ReadAsPending(states: seq<Store>, steps: seq<Step>)
    requires |steps| < |states|
  {
    forall k :: 0 <= k < |steps| && steps[k].UpdateTemplateBuild? ==> WasPending(states, k, steps[k].build)
  }

  ghost predicate WasPending(states: seq<Store>, k: nat, b: BuildId)
    requires k < |states|
  {
    exists j :: 0 <= j <= k && IsPending(states[j].committed, b)
  }

  lemma SingleStaysStarted(s: Store, step: Step, b: BuildId)
    requires ExecSingle(s, step).Some? && Disciplined(s.committed, step) && b in s.committed.builds && !IsPending(s.committed, b)
    ensures var c' := ExecSingle(s, step).value.committed; b in c'.builds && !IsPending(c', b)
  {
  }

  lemma StepStaysStarted(s: Store, step: Step, b: BuildId)
    requires RowInv(s) && Exec(s, step).Some? && Disciplined(s.committed, step)
    requires b in s.committed.builds && !IsPending(s.committed, b)
    ensures var c' := Exec(s, step).value.committed; b in c'.builds && !IsPending(c', b)
  {
    if step.Commit? {
      CommitTouchesOnlyPending(s, step.i, b);
    } else if IsTxnStatement(step) {
      StatementKeepsCommitted(s, step);
    } else if !step.Rollback? && !IsBegin(step) {
      SingleStaysStarted(s, step, b);
    }
  }

  lemma {:induction false} StartedStaysStarted(states: seq<Store>, steps: seq<Step>, b: BuildId, k: nat, m: nat)
    requires DisciplinedRun(states, steps) && RowInv(states[0]) && k <= m < |states|
    requires b in states[k].committed.builds && !IsPending(states[k].committed, b)
    ensures b in states[m].committed.builds && !IsPending(states[m].committed, b)
  {
    if k < m {
      StartedStaysStarted(states, steps, b, k, m - 1);
      RunKeepsRows(states, steps, m - 1);
      assert Follows(states, steps, m - 1);
      StepStaysStarted(states[m - 1], steps[m - 1], b);
    }
  }

  /** A build a pause made is pending in no state of the run. */
  lemma PausedBuildIsNeverPending(states: seq<Store>, steps: seq<Step>, k: nat, n: nat)
    requires DisciplinedRun(states, steps) && RowInv(states[0]) && k < |steps| && n < |states| && MakesBuild(states, steps, k)
    ensures !IsPending(states[n].committed, steps[k].pause.build)
  {
    var b := steps[k].pause.build;
    if n <= k {
      if b in states[n].committed.builds {
        RunCpuIsLastWritten(states, steps, b, n, k);
      }
    } else {
      PausedBuildCopiesSource(states, steps, k);
      assert Disciplined(states[k].committed, steps[k]);
      StartedStaysStarted(states, steps, b, k + 1, n);
    }
  }

  lemma PausedBuildIsNotRewritten(states: seq<Store>, steps: seq<Step>, k: nat, m: nat)
    requires DisciplinedRun(states, steps) && RowInv(states[0]) && ReadAsPending(states, steps)
    requires k < m < |states| && MakesBuild(states, steps, k)
    ensures LastCpuWrite(steps, steps[k].pause.build, k + 1, m).None?
  {
    var b := steps[k].pause.build;
    forall j | k + 1 <= j < m ensures !SetsCpuOf(steps[j], b) {
      if SetsCpuOf(steps[j], b) {
        assert WasPending(states, j, b);
        var i :| 0 <= i <= j && IsPending(states[i].committed, b);
        PausedBuildIsNeverPending(states, steps, k, i);
      }
    }
    LastCpuWriteIs(steps, b, k + 1, m);
  }

  ghost predicate NeverRewritten(steps: seq<Step>, k: nat, m: nat)
    requires k < m <= |steps| && steps[k].PauseSandbox?
  {
    LastCpuWrite(steps, steps[k].pause.build, k + 1, m).None?
  }

  lemma {:induction false} NoChainWrite(steps: seq<Step>, at: seq<nat>, m: nat)
    requires m <= |steps| && forall j :: 0 <= j < |at| ==> at[j] < |steps| && steps[at[j]].PauseSandbox? && at[j] < m
    requires forall i, j :: 0 <= i < j < |at| ==> at[i] < at[j]
    requires forall j, n :: 0 <= j < |at| && at[j] < n <= m ==> NeverRewritten(steps, at[j], n)
    ensures ChainWrite(steps, at, m).None?
    decreases |at|
  {
    if at != [] {
      var k := at[|at| - 1];
      assert NeverRewritten(steps, k, m);
      NoChainWrite(steps, at[..|at| - 1], k);
    }
  }

  lemma ChainIsNeverRewritten(states: seq<Store>, steps: seq<Step>, at: seq<nat>, m: nat)
    requires DisciplinedRun(states, steps) && RowInv(states[0]) && ReadAsPending(states, steps)
    requires IsPauseChain(states, steps, at) && m < |states| && forall j :: 0 <= j < |at| ==> at[j] < m
    ensures ChainWrite(steps, at, m).None?
  {
    forall j, n | 0 <= j < |at| && at[j] < n <= m ensures NeverRewritten(steps, at[j], n) {
      PausedBuildIsNotRewritten(states, steps, at[j], n);
    }
    NoChainWrite(steps, at, m);
  }

  /**
   Both handlers read a build as pending before they write its columns, however much later.  So no
   build a pause made is ever written, and the end of every chain carries its root's columns.
   */
  lemma GuardedChainKeepsCpu(states: seq<Store>, steps: seq<Step>, at: seq<nat>, m: nat)
    requires DisciplinedRun(states, steps) && RowInv(states[0]) && ReadAsPending(states, steps)
    requires at != [] && IsPauseChain(states, steps, at) && at[|at| - 1] < m < |states|
    ensures var last := steps[at[|at| - 1]].pause.build;
            && last in states[m].committed.builds
            && states[m].committed.builds[last].cpu == SourceCpu(states[at[0]].committed, steps[at[0]].pause.source)
  {
    PauseChainCpu(states, steps, at, m);
    ChainIsNeverRewritten(states, steps, at, m);
  }

  // ---------------------------------------------------------------------------------------
  // The check and the statement are not one: a template build can have started in between
  // ---------------------------------------------------------------------------------------

  /**
   The handler sees b pending in s, an ordinary registration of the same template and tag invalidates
   it, and the statement then writes the columns of a failed build.
   */
  lemma CheckDoesNotGuard(s: Store, b: BuildId, a: Assignment, team: TeamId, unused: BuildId, cpu: CpuInfo)
      returns (between: seq<Step>, t: Store)
    requires IsPending(s.committed, b) && a in s.committed.assignments && a.build == b && IsActiveEnv(s.committed, a.env)
    requires unused !in s.committed.builds && unused !in s.committed.active
    ensures Replay(s, between) == Some(t) && HasGroup(t.committed, b, FailedGroup)
    ensures var after := Exec(t, UpdateTemplateBuild(b, cpu));
            after.Some? && after.value.committed.builds[b] == Build(Failed, cpu)
  {
    var done;
    between, done := RegistersFrom(s, a.env, team, a.tag, unused);
    t := Store(done, map[]);
    assert done.builds[b] == s.committed.builds[b].(status := Failed);
  }

  lemma RegistrationIsDisciplined(env: EnvId, team: TeamId, tag: Tag, unused: BuildId, c: Tables, step: Step)
    requires step in RegistrationSteps(env, team, tag, unused)
    ensures Disciplined(c, step) && !step.UpdateTemplateBuild?
  {
  }

  lemma AppendDisciplined(states: seq<Store>, steps: seq<Step>, step: Step, next: Store) returns (states': seq<Store>, steps': seq<Step>)
    requires DisciplinedRun(states, steps) && ReadAsPending(states, steps) && Exec(states[|steps|], step) == Some(next)
    requires Disciplined(states[|steps|].committed, step)
    requires step.UpdateTemplateBuild? ==> WasPending(states, |steps|, step.build)
    ensures states' == states + [next] && steps' == steps + [step]
    ensures DisciplinedRun(states', steps') && ReadAsPending(states', steps')
  {
    states', steps' := ExtendRun(states, steps, step, next);
    forall k | 0 <= k < |steps'| && steps'[k].UpdateTemplateBuild? ensures WasPending(states', k, steps'[k].build) {
      assert steps'[k] == if k < |steps| then steps[k] else step;
      assert WasPending(states, k, steps'[k].build);
      var j :| 0 <= j <= k && IsPending(states[j].committed, steps'[k].build);
      assert states'[j] == states[j];
    }
  }

  /** A registered build, pending, at the end of a run from the empty store. */
  lemma RegisteredRun() returns (states: seq<Store>, steps: seq<Step>)
    ensures DisciplinedRun(states, steps) && ReadAsPending(states, steps) && states[0] == EMPTY_STORE
    ensures states[|steps|].txns == map[] && 0 in states[|steps|].committed.builds
    ensures states[|steps|].committed.builds[0] == Build(Waiting, NULL_CPU)
  {
    var done := RegistersAlone(EMPTY_TABLES, "t", "team", DEFAULT_TAG, 0);
    steps := RegistrationSteps("t", "team", DEFAULT_TAG, 0);
    states := ReplayIsRun(EMPTY_STORE, steps);
    forall k | 0 <= k < |steps| ensures Disciplined(states[k].committed, steps[k]) && !steps[k].UpdateTemplateBuild? {
      assert steps[k] in steps;
      RegistrationIsDisciplined("t", "team", DEFAULT_TAG, 0, states[k].committed, steps[k]);
    }
  }

  /**
   Two requests read one registered build as pending.  The first writes its columns and the build
   becomes ready; then the second writes other columns over those of the ready build.
   */
  lemma StartedBuildIsRewritten(first: CpuInfo, second: CpuInfo) returns (states: seq<Store>, steps: seq<Step>)
    ensures DisciplinedRun(states, steps) && ReadAsPending(states, steps) && states[0] == EMPTY_STORE && |steps| > 0
    ensures var before, after := states[|steps| - 1].committed, states[|steps|].committed;
            && 0 in before.builds && before.builds[0] == Build(Ready, first)
            && 0 in after.builds && after.builds[0] == Build(Ready, second)
  {
    states, steps := RegisteredRun();
    var n, s := |steps|, states[|steps|];
    assert IsPending(s.committed, 0);
    var s1 := s.(committed := SetCpu(s.committed, 0, first));
    states, steps := AppendDisciplined(states, steps, UpdateTemplateBuild(0, first), s1);
    var s2 := s1.(committed := DropActive(SetStatus(s1.committed, 0, Ready), 0));
    states, steps := AppendDisciplined(states, steps, FinishTemplateBuild(0, Ready), s2);
    var s3 := s2.(committed := SetCpu(s2.committed, 0, second));
    assert states[n] == s && WasPending(states, |steps|, 0);
    states, steps := AppendDisciplined(states, steps, UpdateTemplateBuild(0, second), s3);
  }
}
