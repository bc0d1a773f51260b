/**
 What requests do to builds and names of the template, related to the states they ran through: which
 builds a registration fails, which names it takes away, and what can be asked for afterwards.
 */
module RequestEffects {
  import opened TemplateTables
  import opened Transactions
  import opened DeletionSafety
  import opened AliasOwnership
  import opened TagResolution
  import opened Registrations

  // ---------------------------------------------------------------------------------------
  // Builds a registration fails
  // ---------------------------------------------------------------------------------------

  /** The build is unstarted and assigned to the template under one of the tags. */
  ghost predicate IsUnstartedUnder(c: Tables, env: EnvId, tags: seq<Tag>, b: BuildId) {
    && b in c.builds && c.builds[b].status in {Pending, Waiting}
    && exists a :: a in c.assignments && a.env == env && a.build == b && a.tag in tags
  }

  lemma InvalidationFails(s: Store, i: TxnId, b: BuildId)
    requires i in s.txns && SoFar(s.txns[i], s.committed) && ExecInvalidate(s, i, s.txns[i]).Some?
    requires b in ExecInvalidate(s, i, s.txns[i]).value.txns[i].w.builds
    ensures IsUnstartedUnder(s.committed, s.txns[i].env, s.txns[i].tags, b)
  {
    var t := s.txns[i];
    var v := Apply(t.w, s.committed);
    assert v.builds == s.committed.builds && v.assignments == s.committed.assignments;
    var a :| a in v.assignments && a.env == t.env && a.tag in t.tags && IsPending(v, a.build) && a.build == b;
  }

  /** A step adds to the builds a registration writes only the one it creates and unstarted ones. */
  lemma StepFails(s: Store, step: Step, i: TxnId, b: BuildId)
    requires SoFarInv(s) && Exec(s, step).Some? && i in Exec(s, step).value.txns
    requires var t' := Exec(s, step).value.txns[i]; t'.Registration? && b in t'.w.builds && b != t'.build
    ensures i in s.txns && SameRequest(s.txns[i], Exec(s, step).value.txns[i])
    ensures b in s.txns[i].w.builds || IsUnstartedUnder(s.committed, s.txns[i].env, s.txns[i].tags, b)
  {
    OthersKeepTxn(s, step, i);
    assert i in s.txns ==> SoFar(s.txns[i], s.committed);
    if i in s.txns {
      StepKeepsRequest(s, step, i);
      if IsTxnStatement(step) && step.i == i {
        StatementFails(s, step, b);
      }
    }
  }

  lemma StatementFails(s: Store, step: Step, b: BuildId)
    requires IsTxnStatement(step) && Exec(s, step).Some? && step.i in s.txns && SoFar(s.txns[step.i], s.committed)
    requires step.i in Exec(s, step).value.txns && s.txns[step.i].Registration? && b != s.txns[step.i].build
    requires b in Exec(s, step).value.txns[step.i].w.builds
    ensures b in s.txns[step.i].w.builds || IsUnstartedUnder(s.committed, s.txns[step.i].env, s.txns[step.i].tags, b)
  {
    if step.InvalidateUnstartedTemplateBuilds? {
      InvalidationFails(s, step.i, b);
    } else if !step.CreateTemplateBuild? {
      OtherStatementsKeepBuilds(s, step);
    }
  }

  lemma OtherStatementsKeepBuilds(s: Store, step: Step)
    requires IsTxnStatement(step) && !step.InvalidateUnstartedTemplateBuilds? && !step.CreateTemplateBuild?
    requires Exec(s, step).Some? && step.i in s.txns && step.i in Exec(s, step).value.txns
    ensures Exec(s, step).value.txns[step.i].w.builds == s.txns[step.i].w.builds
  {
  }

  ghost predicate WasUnstarted(states: seq<Store>, n: nat, env: EnvId, tags: seq<Tag>, b: BuildId)
    requires n < |states|
  {
    exists j :: 0 <= j <= n && IsUnstartedUnder(states[j].committed, env, tags, b)
  }

  lemma {:induction false} WrittenBuildWasUnstarted(states: seq<Store>, steps: seq<Step>, n: nat, i: TxnId, b: BuildId)
    requires IsRun(states, steps) && SoFarInv(states[0]) && states[0].txns == map[] && n < |states| && i in states[n].txns
    requires var t := states[n].txns[i]; t.Registration? && b in t.w.builds && b != t.build
    ensures var t := states[n].txns[i]; WasUnstarted(states, n, t.env, t.tags, b)
  {
    if n > 0 {
      RunKeepsSoFar(states, steps, n - 1);
      assert Follows(states, steps, n - 1);
      StepFails(states[n - 1], steps[n - 1], i, b);
      if b in states[n - 1].txns[i].w.builds {
        WrittenBuildWasUnstarted(states, steps, n - 1, i, b);
      }
    }
  }

  /**
   In every interleaving, a build whose row a registration changes is the one it creates, or ends
   failed and was unstarted, of this template and under one of these tags, in a state of the run.
   */
  lemma OnlyUnstartedBuildsFail(states: seq<Store>, steps: seq<Step>, k: nat, b: BuildId)
    requires IsRun(states, steps) && SoFarInv(states[0]) && states[0].txns == map[] && k < |steps|
    requires steps[k].Commit? && steps[k].i in states[k].txns && states[k].txns[steps[k].i].Registration?
    requires b in states[k].committed.builds && b != states[k].txns[steps[k].i].build
    ensures var t, c, c' := states[k].txns[steps[k].i], states[k].committed, states[k + 1].committed;
            && b in c'.builds
            && (c'.builds[b] != c.builds[b] ==> c'.builds[b].status == Failed && WasUnstarted(states, k, t.env, t.tags, b))
  {
    RunKeepsSoFar(states, steps, k);
    assert Follows(states, steps, k);
    var t := states[k].txns[steps[k].i];
    assert SoFar(t, states[k].committed);
    if b in t.w.builds {
      WrittenBuildWasUnstarted(states, steps, k, steps[k].i, b);
    }
  }

  // ---------------------------------------------------------------------------------------
  // Names a registration takes away
  // ---------------------------------------------------------------------------------------

  /** Transaction i is open from just after step b until step k, and b began it as a registration under the name. */
  ghost predicate RegistersUnder(states: seq<Store>, steps: seq<Step>, b: nat, k: nat, i: TxnId, env: EnvId, name: AliasKey)
    requires IsRun(states, steps) && b < k <= |steps|
  {
    && steps[b].BeginRegistration? && steps[b].i == i && steps[b].env == env && steps[b].alias == Some(name)
    && forall m :: b < m <= k ==> i in states[m].txns
  }

  lemma {:induction false} StaysTheRegistration(
      states: seq<Store>, steps: seq<Step>, b: nat, m: nat, k: nat, i: TxnId, env: EnvId, name: AliasKey)
    requires IsRun(states, steps) && b < m <= k <= |steps| && RegistersUnder(states, steps, b, k, i, env, name)
    ensures i in states[m].txns
    ensures var t := states[m].txns[i]; t.Registration? && t.env == env && t.alias == Some(name)
  {
    assert Follows(states, steps, m - 1);
    if b + 1 < m {
      StaysTheRegistration(states, steps, b, m - 1, k, i, env, name);
      StepKeepsRequest(states[m - 1], steps[m - 1], i);
    }
  }

  /** Once the registration has deleted the old names or made its own, the key is among the deleted. */
  ghost predicate TakesAway(t: Txn, key: AliasKey)
    requires t.Registration?
  {
    t.phase.OldAliasesGone? || t.w.aliasIns != map[] ==> key in t.w.aliasDel
  }

  lemma StepTakesAway(s: Store, step: Step, i: TxnId, key: AliasKey)
    requires SoFarInv(s) && Exec(s, step).Some? && i in s.txns && i in Exec(s, step).value.txns
    requires s.txns[i].Registration? && TakesAway(s.txns[i], key)
    requires key in s.committed.aliases && s.committed.aliases[key] == AliasRow(s.txns[i].env, true)
    ensures Exec(s, step).value.txns[i].Registration? && TakesAway(Exec(s, step).value.txns[i], key)
  {
    OthersKeepTxn(s, step, i);
    if IsTxnStatement(step) && step.i == i {
      if step.DeleteOtherTemplateAliases? || step.CreateTemplateAlias? {
        AliasStatementTakesAway(s, step, key);
      } else {
        OtherStatementsKeepNames(s, step);
      }
    }
  }

  lemma AliasStatementTakesAway(s: Store, step: Step, key: AliasKey)
    requires (step.DeleteOtherTemplateAliases? || step.CreateTemplateAlias?) && Exec(s, step).Some?
    requires step.i in s.txns && SoFar(s.txns[step.i], s.committed) && step.i in Exec(s, step).value.txns
    requires s.txns[step.i].Registration? && TakesAway(s.txns[step.i], key)
    requires key in s.committed.aliases && s.committed.aliases[key] == AliasRow(s.txns[step.i].env, true)
    ensures Exec(s, step).value.txns[step.i].Registration? && TakesAway(Exec(s, step).value.txns[step.i], key)
  {
  }

  lemma OtherStatementsKeepNames(s: Store, step: Step)
    requires IsTxnStatement(step) && !step.DeleteOtherTemplateAliases? && !step.CreateTemplateAlias?
    requires Exec(s, step).Some? && step.i in s.txns && step.i in Exec(s, step).value.txns && s.txns[step.i].Registration?
    ensures var t, t' := s.txns[step.i], Exec(s, step).value.txns[step.i];
            && t'.Registration? && t'.w.aliasIns == t.w.aliasIns && t'.w.aliasDel == t.w.aliasDel && !t'.phase.OldAliasesGone?
            && (t'.phase.AliasMissing? ==> step.CheckAliasExists? && t.alias.Some? && t.alias.value !in Apply(t.w, s.committed).aliases)
  {
  }

  ghost predicate OwnsThroughout(states: seq<Store>, b: nat, k: nat, key: AliasKey, row: AliasRow)
    requires k < |states|
  {
    forall m :: b < m <= k ==> key in states[m].committed.aliases && states[m].committed.aliases[key] == row
  }

  lemma {:induction false} RunTakesAway(
      states: seq<Store>, steps: seq<Step>, b: nat, m: nat, k: nat, i: TxnId, env: EnvId, name: AliasKey, key: AliasKey)
    requires IsRun(states, steps) && SoFarInv(states[0]) && b < m <= k <= |steps|
    requires RegistersUnder(states, steps, b, k, i, env, name) && OwnsThroughout(states, b, k, key, AliasRow(env, true))
    ensures i in states[m].txns && states[m].txns[i].Registration? && TakesAway(states[m].txns[i], key)
  {
    assert Follows(states, steps, m - 1);
    if b + 1 < m {
      RunTakesAway(states, steps, b, m - 1, k, i, env, name, key);
      StaysTheRegistration(states, steps, b, m - 1, k, i, env, name);
      RunKeepsSoFar(states, steps, m - 1);
      StepTakesAway(states[m - 1], steps[m - 1], i, key);
    }
  }

  /**
   Renaming: a registration under a name that nobody has at its commit takes away every other name
   that was the template's, and renamable, all the while; the new name is the template's.
   */
  lemma RenamingReleasesOldNames(
      states: seq<Store>, steps: seq<Step>, b: nat, k: nat, i: TxnId, env: EnvId, name: AliasKey, key: AliasKey)
    requires IsRun(states, steps) && SoFarInv(states[0]) && b < k < |steps| && steps[k] == Commit(i)
    requires RegistersUnder(states, steps, b, k, i, env, name) && OwnsThroughout(states, b, k, key, AliasRow(env, true))
    requires name !in states[k].committed.aliases
    ensures var c' := states[k + 1].committed;
            key !in c'.aliases && name in c'.aliases && c'.aliases[name] == AliasRow(env, true)
  {
    RunTakesAway(states, steps, b, k, k, i, env, name, key);
    StaysTheRegistration(states, steps, b, k, k, i, env, name);
    RunKeepsSoFar(states, steps, k);
    assert Follows(states, steps, k);
    var t := states[k].txns[i];
    assert SoFar(t, states[k].committed);
    assert HasName(t, states[k].committed, name);
  }

  lemma StepLeavesNames(s: Store, step: Step, i: TxnId, name: AliasKey)
    requires SoFarInv(s) && Exec(s, step).Some? && i in s.txns && i in Exec(s, step).value.txns
    requires s.txns[i].Registration? && s.txns[i].alias == Some(name) && name in s.committed.aliases
    requires !s.txns[i].phase.AliasMissing? && !s.txns[i].phase.OldAliasesGone? && s.txns[i].w.aliasIns == map[]
    ensures var t' := Exec(s, step).value.txns[i];
            t'.Registration? && !t'.phase.AliasMissing? && !t'.phase.OldAliasesGone? && t'.w.aliasIns == map[]
  {
    OthersKeepTxn(s, step, i);
    assert SoFar(s.txns[i], s.committed);
    if IsTxnStatement(step) && step.i == i {
      NoAliasStatementIsNext(s, step);
      OtherStatementsKeepNames(s, step);
    }
  }

  lemma NoAliasStatementIsNext(s: Store, step: Step)
    requires IsTxnStatement(step) && Exec(s, step).Some? && step.i in s.txns && s.txns[step.i].Registration?
    requires !s.txns[step.i].phase.AliasMissing? && !s.txns[step.i].phase.OldAliasesGone?
    ensures !step.DeleteOtherTemplateAliases? && !step.CreateTemplateAlias?
  {
  }

  lemma {:induction false} RunLeavesNames(
      states: seq<Store>, steps: seq<Step>, b: nat, m: nat, k: nat, i: TxnId, env: EnvId, name: AliasKey)
    requires IsRun(states, steps) && SoFarInv(states[0]) && b < m <= k <= |steps|
    requires RegistersUnder(states, steps, b, k, i, env, name) && forall j :: b < j <= k ==> name in states[j].committed.aliases
    ensures i in states[m].txns
    ensures var t := states[m].txns[i];
            t.Registration? && !t.phase.AliasMissing? && !t.phase.OldAliasesGone? && t.w.aliasIns == map[]
  {
    assert Follows(states, steps, m - 1);
    if b + 1 < m {
      RunLeavesNames(states, steps, b, m - 1, k, i, env, name);
      StaysTheRegistration(states, steps, b, m - 1, k, i, env, name);
      RunKeepsSoFar(states, steps, m - 1);
      StepLeavesNames(states[m - 1], steps[m - 1], i, name);
    }
  }

  /** Registering again: if the name is taken all the while, a registration that commits owned it, and no name changes. */
  lemma KnownNameChangesNothing(states: seq<Store>, steps: seq<Step>, b: nat, k: nat, i: TxnId, env: EnvId, name: AliasKey)
    requires IsRun(states, steps) && SoFarInv(states[0]) && b < k < |steps| && steps[k] == Commit(i)
    requires RegistersUnder(states, steps, b, k, i, env, name) && forall j :: b < j <= k ==> name in states[j].committed.aliases
    ensures states[k + 1].committed.aliases == states[k].committed.aliases && states[k].committed.aliases[name].env == env
  {
    RunLeavesNames(states, steps, b, k, k, i, env, name);
    StaysTheRegistration(states, steps, b, k, k, i, env, name);
    RunKeepsSoFar(states, steps, k);
    assert Follows(states, steps, k);
    NoNameWritten(states[k].txns[i], states[k].committed);
  }

  lemma NoNameWritten(t: Txn, c: Tables)
    requires t.Registration? && MayCommit(t) && SoFar(t, c) && t.w.aliasIns == map[] && t.alias.Some?
    ensures Apply(t.w, c).aliases == c.aliases && t.alias.value in c.aliases && c.aliases[t.alias.value].env == t.env
  {
    assert HasName(t, c, t.alias.value);
  }

  /** A delete that commits is asked for by the team that owns the template. */
  lemma DeletedByOwnTeam(states: seq<Store>, steps: seq<Step>, k: nat)
    requires IsRun(states, steps) && SoFarInv(states[0]) && k < |steps|
    requires steps[k].Commit? && steps[k].i in states[k].txns && states[k].txns[steps[k].i].Deletion?
    ensures var t, c := states[k].txns[steps[k].i], states[k].committed;
            t.env in c.envs && c.envs[t.env].team == t.team
            && states[k + 1].committed.envs == c.envs[t.env := c.envs[t.env].(deleted := true)]
  {
    RunKeepsSoFar(states, steps, k);
    assert Follows(states, steps, k);
    DeletionEnvs(states[k].txns[steps[k].i], states[k].committed);
  }

  lemma DeletionEnvs(t: Txn, c: Tables)
    requires t.Deletion? && MayCommit(t) && SoFar(t, c)
    ensures t.env in c.envs && c.envs[t.env].team == t.team
    ensures Apply(t.w, c).envs == c.envs[t.env := c.envs[t.env].(deleted := true)]
  {
  }

  // ---------------------------------------------------------------------------------------
  // Snapshot templates
  // ---------------------------------------------------------------------------------------

  /** The foreign key of env_build_assignments. */
  ghost predicate RowsHaveEnv(c: Tables) {
    forall a :: a in c.assignments ==> a.env in c.envs
  }

  lemma StepKeepsRowsHaveEnv(s: Store, step: Step)
    requires SoFarInv(s) && RowsHaveEnv(s.committed) && Exec(s, step).Some?
    ensures RowsHaveEnv(Exec(s, step).value.committed)
  {
    if step.Commit? {
      assert WritesUnderLock(s.txns[step.i], s.committed);
    } else if IsTxnStatement(step) {
      StatementKeepsCommitted(s, step);
    } else if !step.Rollback? && !IsBegin(step) {
      SingleKeepsRowsHaveEnv(s, step);
    }
  }

  lemma SingleKeepsRowsHaveEnv(s: Store, step: Step)
    requires RowsHaveEnv(s.committed) && ExecSingle(s, step).Some?
    ensures RowsHaveEnv(ExecSingle(s, step).value.committed)
  {
  }

  lemma {:induction false} RunKeepsRowsHaveEnv(states: seq<Store>, steps: seq<Step>, n: nat)
    requires IsRun(states, steps) && SoFarInv(states[0]) && RowsHaveEnv(states[0].committed) && n < |states|
    ensures RowsHaveEnv(states[n].committed)
  {
    if n > 0 {
      RunKeepsRowsHaveEnv(states, steps, n - 1);
      RunKeepsSoFar(states, steps, n - 1);
      assert Follows(states, steps, n - 1);
      StepKeepsRowsHaveEnv(states[n - 1], steps[n - 1]);
    }
  }

  /**
   A snapshot template that was made is found by its id until it is deleted, belongs to its team, and
   its one tag is answered with its build exactly if that is ready.
   */
  lemma SnapshotTemplateIsFound(states: seq<Store>, steps: seq<Step>, k: nat, m: nat, tag: Tag, b: BuildId)
    requires IsRun(states, steps) && SoFarInv(states[0]) && RowsHaveEnv(states[0].committed) && k < m < |states|
    requires steps[k].CreateSnapshotTemplateEnv? && steps[k].env !in states[k].committed.envs
    requires steps[k].build in states[k].committed.builds
    ensures var env, c := steps[k].env, states[m].committed;
            && env in c.envs && c.envs[env].team == steps[k].team
            && (!c.envs[env].deleted ==> GetTemplateById(c, env) == Some(env))
    ensures ResolvesTo(states[k + 1].committed, steps[k].env, PlainTag(tag), b)
            <==> tag == steps[k].tag && b == steps[k].build && IsReadyBuild(states[k].committed, b)
  {
    var env, c, c' := steps[k].env, states[k].committed, states[k + 1].committed;
    assert Follows(states, steps, k);
    EnvKeepsTeamAndSource(states, steps, env, k + 1, m);
    RunKeepsRowsHaveEnv(states, steps, k);
    var row := Assignment(steps[k].rowId, env, steps[k].build, steps[k].tag, steps[k].now);
    assert forall a :: a in c'.assignments && a.env == env <==> a == row;
    PlainTagResolves(c', env, tag, b);
    if tag == row.tag && IsReadyBuild(c, row.build) {
      assert IsReadyUnder(c', env, tag, row);
    }
  }

  /** Assign, then ask: a snapshot build assigned with a newest time is what its tag is answered with. */
  lemma AssignedSnapshotResolves(s: Store, env: EnvId, build: BuildId, tag: Tag, rowId: nat, now: int)
    requires IsLiveTemplate(s.committed, env) && IsReadyBuild(s.committed, build)
    requires forall a :: a in s.committed.assignments && a.env == env && a.tag == tag ==> a.createdAt <= now
    requires Exec(s, AssignSnapshotBuild(env, build, tag, rowId, now)).Some?
    ensures ResolvesTo(Exec(s, AssignSnapshotBuild(env, build, tag, rowId, now)).value.committed, env, PlainTag(tag), build)
  {
    var c' := Exec(s, AssignSnapshotBuild(env, build, tag, rowId, now)).value.committed;
    assert IsReadyUnder(c', env, tag, Assignment(rowId, env, build, tag, now));
    PlainTagResolves(c', env, tag, build);
  }
}
