/**
 Template names: who owns an alias under every interleaving, and exactly when a deleted template
 can end up owning one.
 */
module AliasOwnership {
  import opened TemplateTables
  import opened Transactions
  import opened DeletionSafety

  function LockedKeys(t: Txn): set<AliasKey> {
    t.w.aliasDel + t.w.aliasIns.Keys
  }

  /** A transaction removes only names of its own template and takes only names free to it. */
  ghost predicate AliasWritesOk(t: Txn, c: Tables) {
    && (forall k :: k in t.w.aliasDel && k in c.aliases ==> c.aliases[k].env == t.env)
    && (forall k :: k in t.w.aliasIns && k in c.aliases ==> k in t.w.aliasDel)
  }

  ghost predicate AliasInv(s: Store) {
    && LockInv(s)
    && (forall i :: i in s.txns ==> AliasWritesOk(s.txns[i], s.committed))
    && (forall i, j :: i in s.txns && j in s.txns && i != j ==> LockedKeys(s.txns[i]) !! LockedKeys(s.txns[j]))
  }

  lemma DropKeepsAliases(s: Store, i: TxnId)
    requires AliasInv(s)
    ensures AliasInv(Drop(s, i))
  {
    DropKeepsLocks(s, i);
  }

  lemma BeginKeepsAliases(s: Store, i: TxnId, t: Txn)
    requires AliasInv(s) && i !in s.txns && t.w == NO_WRITES && LockInv(Put(s, i, t))
    ensures AliasInv(Put(s, i, t))
  {
    assert LockedKeys(t) == {};
  }

  lemma PutKeepsAliases(s: Store, i: TxnId, t: Txn, keys: set<AliasKey>)
    requires AliasInv(s) && i in s.txns && LockInv(Put(s, i, t)) && AliasWritesOk(t, s.committed)
    requires AliasKeysFree(s.txns - {i}, keys) && LockedKeys(t) <= LockedKeys(s.txns[i]) + keys
    ensures AliasInv(Put(s, i, t))
  {
    forall j | j in s.txns && j != i ensures LockedKeys(t) !! LockedKeys(s.txns[j]) {
      assert (s.txns - {i})[j] == s.txns[j];
    }
  }

  /** Deleting visible rows of its own template. */
  lemma DeleteWritesOk(t: Txn, t': Txn, c: Tables, keys: set<AliasKey>)
    requires AliasWritesOk(t, c) && keys <= AliasesOf(Apply(t.w, c), t.env)
    requires t'.env == t.env && t'.w == DeleteAliasWrites(t.w, keys)
    ensures AliasWritesOk(t', c) && LockedKeys(t') <= LockedKeys(t) + keys
  {
  }

  /** Inserting a row under a key that is not visible. */
  lemma InsertWritesOk(t: Txn, t': Txn, c: Tables, key: AliasKey)
    requires AliasWritesOk(t, c) && key !in Apply(t.w, c).aliases
    requires t'.env == t.env && t'.w == t.w.(aliasIns := t.w.aliasIns[key := AliasRow(t.env, true)])
    ensures AliasWritesOk(t', c) && LockedKeys(t') <= LockedKeys(t) + {key}
  {
  }

  lemma DeleteOtherOk(s: Store, i: TxnId)
    requires AliasInv(s) && i in s.txns && ExecDeleteOther(s, i, s.txns[i]).Some?
    ensures AliasInv(ExecDeleteOther(s, i, s.txns[i]).value)
  {
    var t, c := s.txns[i], s.committed;
    var keys := RenamableAliasesOf(Apply(t.w, c), t.env);
    var t' := t.(phase := OldAliasesGone, w := DeleteAliasWrites(t.w, keys));
    DeleteOtherFrame(s, i);
    WentOnKeepsLocks(s, i, Put(s, i, t'));
    DeleteWritesOk(t, t', c, keys);
    PutKeepsAliases(s, i, t', keys);
  }

  lemma ReleaseOk(s: Store, i: TxnId)
    requires AliasInv(s) && i in s.txns && ExecRelease(s, i, s.txns[i]).Some?
    ensures AliasInv(ExecRelease(s, i, s.txns[i]).value)
  {
    var t, c := s.txns[i], s.committed;
    var keys := AliasesOf(Apply(t.w, c), t.env);
    var t' := t.(progress := AliasesReleased, w := DeleteAliasWrites(t.w, keys));
    ReleaseLocks(s, i);
    DeleteWritesOk(t, t', c, keys);
    PutKeepsAliases(s, i, t', keys);
  }

  lemma CreateAliasOk(s: Store, i: TxnId)
    requires AliasInv(s) && i in s.txns && ExecCreateAlias(s, i, s.txns[i]).Some?
    ensures AliasInv(ExecCreateAlias(s, i, s.txns[i]).value)
  {
    var t, s' := s.txns[i], ExecCreateAlias(s, i, s.txns[i]).value;
    CreateAliasFrame(s, i);
    WentOnKeepsLocks(s, i, s');
    if t.alias.value in Apply(t.w, s.committed).aliases {
      DropKeepsAliases(s, i);
    } else {
      InsertWritesOk(t, s'.txns[i], s.committed, t.alias.value);
      PutKeepsAliases(s, i, s'.txns[i], {t.alias.value});
    }
  }

  /** Every other statement of a transaction leaves its alias rows as they are. */
  lemma OtherAliasFrame(s: Store, step: Step)
    requires IsTxnStatement(step) && Exec(s, step).Some?
    requires !step.DeleteOtherTemplateAliases? && !step.CreateTemplateAlias? && !step.ReleaseTemplateAliases?
    ensures var s' := Exec(s, step).value;
            s' == Drop(s, step.i)
            || (step.i in s.txns && step.i in s'.txns && s' == Put(s, step.i, s'.txns[step.i])
                && s'.txns[step.i].env == s.txns[step.i].env
                && s'.txns[step.i].w.aliasDel == s.txns[step.i].w.aliasDel
                && s'.txns[step.i].w.aliasIns == s.txns[step.i].w.aliasIns)
  {
  }

  lemma CommitKeepsOtherAliases(t: Txn, u: Txn, c: Tables)
    requires AliasWritesOk(u, c) && LockedKeys(t) !! LockedKeys(u)
    ensures AliasWritesOk(u, Apply(t.w, c))
  {
    var c' := Apply(t.w, c);
    forall k | k in LockedKeys(u) ensures (k in c'.aliases <==> k in c.aliases) && (k in c.aliases ==> c'.aliases[k] == c.aliases[k]) {
      assert k !in LockedKeys(t);
    }
  }

  lemma CommitKeepsAliases(s: Store, i: TxnId)
    requires AliasInv(s) && i in s.txns && MayCommit(s.txns[i])
    ensures AliasInv(Store(Apply(s.txns[i].w, s.committed), s.txns - {i}))
  {
    CommitKeepsLocks(s, i);
    forall j | j in s.txns && j != i ensures AliasWritesOk(s.txns[j], Apply(s.txns[i].w, s.committed)) {
      CommitKeepsOtherAliases(s.txns[i], s.txns[j], s.committed);
    }
  }

  /** Outside a transaction block only the upsert writes aliases, and only a free, unlocked key. */
  lemma SingleAliasFrame(s: Store, step: Step)
    requires ExecSingle(s, step).Some?
    ensures var c' := ExecSingle(s, step).value.committed;
            || c'.aliases == s.committed.aliases
            || (IsClaim(step) && step.key !in s.committed.aliases && AliasKeysFree(s.txns, {step.key})
                && step.env in s.committed.envs
                && c' == s.committed.(aliases := s.committed.aliases[step.key := AliasRow(step.env, true)]))
  {
  }

  lemma SingleKeepsAliases(s: Store, step: Step)
    requires AliasInv(s) && ExecSingle(s, step).Some?
    ensures AliasInv(ExecSingle(s, step).value)
  {
    SingleKeepsLocks(s, step);
    SingleFrame(s, step);
    SingleAliasFrame(s, step);
    var s' := ExecSingle(s, step).value;
    if s'.committed.aliases == s.committed.aliases {
      NewTablesKeepAliases(s, s', {});
    } else {
      NewTablesKeepAliases(s, s', {step.key});
    }
  }

  /** Committed changes that add rows only under keys nobody holds. */
  lemma NewTablesKeepAliases(s: Store, s': Store, added: set<AliasKey>)
    requires AliasInv(s) && LockInv(s') && s'.txns == s.txns && AliasKeysFree(s.txns, added)
    requires forall k :: k in s'.committed.aliases && k !in added ==> k in s.committed.aliases && s'.committed.aliases[k] == s.committed.aliases[k]
    ensures AliasInv(s')
  {
    forall i | i in s.txns ensures AliasWritesOk(s.txns[i], s'.committed) {
      assert AliasWritesOk(s.txns[i], s.committed) && LockedKeys(s.txns[i]) !! added;
      forall k | k in LockedKeys(s.txns[i]) ensures k !in added {
      }
    }
  }

  lemma OtherKeepsAliases(s: Store, step: Step)
    requires AliasInv(s) && IsTxnStatement(step) && Exec(s, step).Some?
    requires !step.DeleteOtherTemplateAliases? && !step.CreateTemplateAlias? && !step.ReleaseTemplateAliases?
    ensures AliasInv(Exec(s, step).value)
  {
    StepKeepsLocks(s, step);
    OtherAliasFrame(s, step);
    var s' := Exec(s, step).value;
    if s' == Drop(s, step.i) {
      DropKeepsAliases(s, step.i);
    } else {
      assert AliasWritesOk(s.txns[step.i], s.committed);
      PutKeepsAliases(s, step.i, s'.txns[step.i], {});
    }
  }

  lemma StepKeepsAliases(s: Store, step: Step)
    requires AliasInv(s) && Exec(s, step).Some?
    ensures AliasInv(Exec(s, step).value)
  {
    if step.Commit? {
      CommitKeepsAliases(s, step.i);
    } else if step.Rollback? {
      DropKeepsAliases(s, step.i);
    } else if step.DeleteOtherTemplateAliases? {
      DeleteOtherOk(s, step.i);
    } else if step.CreateTemplateAlias? {
      CreateAliasOk(s, step.i);
    } else if step.ReleaseTemplateAliases? {
      ReleaseOk(s, step.i);
    } else if IsTxnStatement(step) {
      OtherKeepsAliases(s, step);
    } else if IsBegin(step) {
      StepKeepsLocks(s, step);
      BeginKeepsAliases(s, step.i, Exec(s, step).value.txns[step.i]);
    } else {
      SingleKeepsAliases(s, step);
    }
  }

  // ---------------------------------------------------------------------------------------
  // The first claimant keeps the name
  // ---------------------------------------------------------------------------------------

  function OwnerIn(c: Tables, key: AliasKey): Option<EnvId> {
    if key in c.aliases then Some(c.aliases[key].env) else None
  }

  /**
   What UpsertTemplateAliasIfNotExists returns when its insert runs on c: the caller's template if
   the insert took the name, else what the statement's own snapshot shows.  The snapshot is older
   than c if the insert had to wait for a competing one.
   */
  function UpsertAnswer(c: Tables, snapshot: Option<EnvId>, key: AliasKey, e: EnvId): Option<EnvId> {
    if key in c.aliases then snapshot
    else if e in c.envs then Some(e)
    else None // the foreign key rejects the row
  }

  /** The answer is the owner the name then has, except when the name is taken and the snapshot shows someone else or nobody. */
  lemma AnswerIsOwnerIff(c: Tables, snapshot: Option<EnvId>, key: AliasKey, e: EnvId)
    requires e in c.envs
    ensures UpsertAnswer(c, snapshot, key, e) == OwnerIn(ClaimAlias(c, key, e), key)
            <==> key !in c.aliases || snapshot == OwnerIn(c, key)
    ensures UpsertAnswer(c, snapshot, key, e).None? <==> key in c.aliases && snapshot.None?
  {
  }

  /** The step gives the name free: a commit whose transaction deleted the row and did not take the name again. */
  predicate Releases(s: Store, step: Step, key: AliasKey) {
    && step.Commit? && step.i in s.txns
    && key in s.txns[step.i].w.aliasDel && key !in s.txns[step.i].w.aliasIns
  }

  ghost predicate OwnedBy(c: Tables, key: AliasKey, e: EnvId) {
    key in c.aliases && c.aliases[key].env == e
  }

  lemma CommitKeepsOwnerIff(s: Store, i: TxnId, key: AliasKey)
    requires AliasInv(s) && i in s.txns && MayCommit(s.txns[i]) && key in s.committed.aliases
    ensures OwnedBy(Apply(s.txns[i].w, s.committed), key, s.committed.aliases[key].env) <==> !Releases(s, Commit(i), key)
    ensures Releases(s, Commit(i), key) ==> key !in Apply(s.txns[i].w, s.committed).aliases
  {
    assert AliasWritesOk(s.txns[i], s.committed) && WritesUnderLock(s.txns[i], s.committed);
  }

  /** A name changes hands in no step: it keeps its owner, or is given free by a commit that releases it. */
  lemma StepKeepsOwnerIff(s: Store, step: Step, key: AliasKey)
    requires AliasInv(s) && Exec(s, step).Some? && key in s.committed.aliases
    ensures OwnedBy(Exec(s, step).value.committed, key, s.committed.aliases[key].env) <==> !Releases(s, step, key)
    ensures Releases(s, step, key) ==> key !in Exec(s, step).value.committed.aliases
  {
    if step.Commit? {
      CommitKeepsOwnerIff(s, step.i, key);
    } else if IsTxnStatement(step) {
      StatementKeepsCommitted(s, step);
    } else if !step.Rollback? && !IsBegin(step) {
      SingleAliasFrame(s, step);
    }
  }

  lemma {:induction false} OwnerStays(states: seq<Store>, steps: seq<Step>, key: AliasKey, k: nat, m: nat)
    requires IsRun(states, steps) && AliasInv(states[0]) && k <= m < |states|
    requires key in states[k].committed.aliases
    requires forall j :: k <= j < m ==> !Releases(states[j], steps[j], key)
    ensures AliasInv(states[m])
    ensures OwnedBy(states[m].committed, key, states[k].committed.aliases[key].env)
  {
    if k < m {
      OwnerStays(states, steps, key, k, m - 1);
      assert Follows(states, steps, m - 1);
      StepKeepsAliases(states[m - 1], steps[m - 1]);
      StepKeepsOwnerIff(states[m - 1], steps[m - 1], key);
    } else {
      RunKeepsAliases(states, steps, m);
    }
  }

  /**
   The owner of a name is its first claimant since the last release: whatever else commits, builds,
   tags or registrations of the owner included, every later claim is answered with it, however long
   the claim waited since it took its snapshot.
   */
  lemma FirstClaimantKeepsAlias(states: seq<Store>, steps: seq<Step>, key: AliasKey, k: nat, m: nat)
    requires IsRun(states, steps) && AliasInv(states[0]) && k <= m < |states|
    requires key in states[k].committed.aliases
    requires forall j :: k <= j < m ==> !Releases(states[j], steps[j], key)
    ensures OwnedBy(states[m].committed, key, states[k].committed.aliases[key].env)
    ensures forall j, e :: k <= j <= m ==>
              UpsertAnswer(states[m].committed, OwnerIn(states[j].committed, key), key, e) == Some(states[k].committed.aliases[key].env)
  {
    forall j | k <= j <= m ensures OwnedBy(states[j].committed, key, states[k].committed.aliases[key].env) {
      OwnerStays(states, steps, key, k, j);
    }
  }

  /** A claim whose snapshot is from before the name was taken, and whose insert found it taken, is answered with no row. */
  lemma LateClaimHasNoAnswer(states: seq<Store>, steps: seq<Step>, key: AliasKey, j: nat, k: nat, m: nat, e: EnvId)
    requires IsRun(states, steps) && AliasInv(states[0]) && j < k <= m < |states|
    requires key !in states[j].committed.aliases && key in states[k].committed.aliases
    requires forall l :: k <= l < m ==> !Releases(states[l], steps[l], key)
    ensures UpsertAnswer(states[m].committed, OwnerIn(states[j].committed, key), key, e) == None
  {
    OwnerStays(states, steps, key, k, m);
  }

  lemma {:induction false} RunKeepsAliases(states: seq<Store>, steps: seq<Step>, n: nat)
    requires IsRun(states, steps) && AliasInv(states[0]) && n < |states|
    ensures AliasInv(states[n])
  {
    if n > 0 {
      RunKeepsAliases(states, steps, n - 1);
      assert Follows(states, steps, n - 1);
      StepKeepsAliases(states[n - 1], steps[n - 1]);
    }
  }

  // ---------------------------------------------------------------------------------------
  // Aliases of deleted templates
  // ---------------------------------------------------------------------------------------

  ghost predicate AliasesHaveLiveEnv(c: Tables) {
    forall k :: k in c.aliases ==> IsActiveEnv(c, c.aliases[k].env)
  }

  predicate HasReleased(t: Txn) {
    t.Deletion? && (t.progress.AliasesReleased? || t.progress.ActiveCleared?)
  }

  /** The upsert takes no lock on the env row, so this is what its caller would have to check. */
  predicate MayClaimFor(s: Store, e: EnvId) {
    IsActiveEnv(s.committed, e) && forall i | i in s.txns :: s.txns[i].env == e ==> !HasReleased(s.txns[i])
  }

  ghost predicate NoStaleAlias(s: Store) {
    && LockInv(s)
    && AliasesHaveLiveEnv(s.committed)
    && (forall i | i in s.txns && HasReleased(s.txns[i])
          :: AliasesOf(s.committed, s.txns[i].env) <= s.txns[i].w.aliasDel)
  }

  lemma CommitLeavesLiveOwners(t: Txn, c: Tables)
    requires WritesUnderLock(t, c) && MayCommit(t) && AliasesHaveLiveEnv(c)
    requires t.Deletion? ==> AliasesOf(c, t.env) <= t.w.aliasDel
    ensures AliasesHaveLiveEnv(Apply(t.w, c))
  {
    assert t.Deletion? ==> forall k :: k in c.aliases && c.aliases[k].env == t.env ==> k in AliasesOf(c, t.env);
  }

  lemma CommitAddsNoAliasTo(t: Txn, u: Txn, c: Tables)
    requires WritesUnderLock(t, c) && Compatible(t, u) && HasReleased(u)
    ensures AliasesOf(Apply(t.w, c), u.env) <= AliasesOf(c, u.env)
  {
  }

  lemma CommitKeepsNoStale(s: Store, i: TxnId)
    requires NoStaleAlias(s) && i in s.txns && MayCommit(s.txns[i])
    ensures NoStaleAlias(Store(Apply(s.txns[i].w, s.committed), s.txns - {i}))
  {
    CommitKeepsLocks(s, i);
    CommitLeavesLiveOwners(s.txns[i], s.committed);
    forall j | j in s.txns && j != i && HasReleased(s.txns[j])
      ensures AliasesOf(Apply(s.txns[i].w, s.committed), s.txns[j].env) <= s.txns[j].w.aliasDel
    {
      CommitAddsNoAliasTo(s.txns[i], s.txns[j], s.committed);
    }
  }

  lemma SingleKeepsNoStale(s: Store, step: Step)
    requires NoStaleAlias(s) && ExecSingle(s, step).Some?
    requires IsClaim(step) ==> MayClaimFor(s, step.env)
    ensures NoStaleAlias(ExecSingle(s, step).value)
  {
    SingleKeepsLocks(s, step);
    SingleFrame(s, step);
    SingleAliasFrame(s, step);
    var c' := ExecSingle(s, step).value.committed;
    forall i | i in s.txns && HasReleased(s.txns[i])
      ensures AliasesOf(c', s.txns[i].env) <= s.txns[i].w.aliasDel
    {
      assert AliasesOf(c', s.txns[i].env) <= AliasesOf(s.committed, s.txns[i].env);
    }
  }

  lemma ReleaseReleasesAll(s: Store, i: TxnId)
    requires NoStaleAlias(s) && i in s.txns && ExecRelease(s, i, s.txns[i]).Some?
    ensures NoStaleAlias(ExecRelease(s, i, s.txns[i]).value)
  {
    var t, c := s.txns[i], s.committed;
    var keys := AliasesOf(Apply(t.w, c), t.env);
    ReleaseLocks(s, i);
    assert WritesUnderLock(t, c);
    VisibleOrDeleted(t, c);
    PutKeepsNoStale(s, i, t.(progress := AliasesReleased, w := DeleteAliasWrites(t.w, keys)));
  }

  lemma VisibleOrDeleted(t: Txn, c: Tables)
    requires WritesUnderLock(t, c) && t.Deletion?
    ensures AliasesOf(c, t.env) <= t.w.aliasDel + AliasesOf(Apply(t.w, c), t.env)
  {
  }

  /** Statements other than the release neither reach the released phase nor forget a released name. */
  lemma OtherReleaseFrame(s: Store, step: Step)
    requires IsTxnStatement(step) && !step.ReleaseTemplateAliases? && Exec(s, step).Some?
    ensures var s' := Exec(s, step).value;
            s' == Drop(s, step.i)
            || (step.i in s.txns && step.i in s'.txns && s' == Put(s, step.i, s'.txns[step.i])
                && s'.txns[step.i].env == s.txns[step.i].env
                && (HasReleased(s'.txns[step.i]) ==> HasReleased(s.txns[step.i]))
                && s.txns[step.i].w.aliasDel <= s'.txns[step.i].w.aliasDel)
  {
  }

  lemma DropKeepsNoStale(s: Store, i: TxnId)
    requires NoStaleAlias(s)
    ensures NoStaleAlias(Drop(s, i))
  {
    DropKeepsLocks(s, i);
  }

  lemma PutKeepsNoStale(s: Store, i: TxnId, t: Txn)
    requires NoStaleAlias(s) && LockInv(Put(s, i, t))
    requires HasReleased(t) ==> AliasesOf(s.committed, t.env) <= t.w.aliasDel
    ensures NoStaleAlias(Put(s, i, t))
  {
  }

  lemma OtherKeepsNoStale(s: Store, step: Step)
    requires NoStaleAlias(s) && IsTxnStatement(step) && !step.ReleaseTemplateAliases? && Exec(s, step).Some?
    ensures NoStaleAlias(Exec(s, step).value)
  {
    StepKeepsLocks(s, step);
    OtherReleaseFrame(s, step);
    var s' := Exec(s, step).value;
    if s' == Drop(s, step.i) {
      DropKeepsNoStale(s, step.i);
    } else {
      PutKeepsNoStale(s, step.i, s'.txns[step.i]);
    }
  }

  lemma StepKeepsNoStale(s: Store, step: Step)
    requires NoStaleAlias(s) && Exec(s, step).Some?
    requires IsClaim(step) ==> MayClaimFor(s, step.env)
    ensures NoStaleAlias(Exec(s, step).value)
  {
    if step.Commit? {
      CommitKeepsNoStale(s, step.i);
    } else if step.Rollback? {
      DropKeepsNoStale(s, step.i);
    } else if step.ReleaseTemplateAliases? {
      ReleaseReleasesAll(s, step.i);
    } else if IsTxnStatement(step) {
      OtherKeepsNoStale(s, step);
    } else if IsBegin(step) {
      StepKeepsLocks(s, step);
      PutKeepsNoStale(s, step.i, Exec(s, step).value.txns[step.i]);
    } else {
      SingleKeepsNoStale(s, step);
    }
  }

  /** If every upsert claims for a template that is live and not being released, no deleted template ever owns a name. */
  lemma {:induction false} GuardedClaimsLeaveNoStaleAlias(states: seq<Store>, steps: seq<Step>, n: nat)
    requires IsRun(states, steps) && states[0] == EMPTY_STORE && n < |states|
    requires forall k :: 0 <= k < |steps| && IsClaim(steps[k]) ==> MayClaimFor(states[k], steps[k].env)
    ensures NoStaleAlias(states[n])
    ensures forall key :: key in states[n].committed.aliases ==> !IsDeletedEnv(states[n].committed, states[n].committed.aliases[key].env)
  {
    if n > 0 {
      GuardedClaimsLeaveNoStaleAlias(states, steps, n - 1);
      assert Follows(states, steps, n - 1);
      StepKeepsNoStale(states[n - 1], steps[n - 1]);
    }
  }

  // The other direction: a single unguarded claim can leave a deleted template owning a name.

  ghost function Replay(s: Store, steps: seq<Step>): Option<Store>
    decreases |steps|
  {
    if steps == [] then Some(s)
    else
      var next := Exec(s, steps[0]);
      if next.None? then None else Replay(next.value, steps[1..])
  }

  ghost predicate NoClaims(steps: seq<Step>) {
    forall step :: step in steps ==> !IsClaim(step)
  }

  lemma {:induction false} ReplayConcat(s: Store, a: seq<Step>, b: seq<Step>)
    requires Replay(s, a).Some?
    ensures Replay(s, a + b) == Replay(Replay(s, a).value, b)
    decreases |a|
  {
    if a == [] {
      assert a + b == b;
    } else {
      ReplayConcat(Exec(s, a[0]).value, a[1..], b);
      assert (a + b)[1..] == a[1..] + b;
    }
  }

  lemma {:induction false} RollbackOthers(s: Store, i: TxnId) returns (steps: seq<Step>)
    requires i in s.txns
    ensures Replay(s, steps) == Some(s.(txns := map[i := s.txns[i]]))
    ensures NoClaims(steps)
    decreases |s.txns|
  {
    if s.txns.Keys - {i} == {} {
      steps := [];
      assert s.txns.Keys == {i};
      assert s.txns == map[i := s.txns[i]];
    } else {
      var j :| j in s.txns.Keys - {i};
      assert |s.txns - {j}| < |s.txns| by {
        assert (s.txns - {j}).Keys == s.txns.Keys - {j};
      }
      var rest := RollbackOthers(Drop(s, j), i);
      steps := [Rollback(j)] + rest;
    }
  }

  /** The delete carries on from where it stands to its commit, with nobody in its way. */
  lemma FinishDeletion(s: Store, i: TxnId) returns (steps: seq<Step>)
    requires i in s.txns && HasReleased(s.txns[i]) && WritesUnderLock(s.txns[i], s.committed)
    ensures Replay(s, steps).Some?
    ensures NoClaims(steps)
    ensures IsDeletedEnv(Replay(s, steps).value.committed, s.txns[i].env)
    ensures forall k :: k in s.committed.aliases && k !in LockedKeys(s.txns[i])
                        ==> k in Replay(s, steps).value.committed.aliases
                            && Replay(s, steps).value.committed.aliases[k] == s.committed.aliases[k]
  {
    var cleared := RollbackOthers(s, i);
    var finish := FinishAlone(s.committed, i, s.txns[i]);
    ReplayConcat(s, cleared, finish);
    steps := cleared + finish;
  }

  lemma FinishAlone(c: Tables, i: TxnId, t: Txn) returns (steps: seq<Step>)
    requires HasReleased(t) && WritesUnderLock(t, c)
    ensures NoClaims(steps)
    ensures var done := Replay(Store(c, map[i := t]), steps);
            && done.Some? && IsDeletedEnv(done.value.committed, t.env)
            && forall k :: k in c.aliases && k !in LockedKeys(t)
                           ==> k in done.value.committed.aliases && done.value.committed.aliases[k] == c.aliases[k]
  {
    var alone := Store(c, map[i := t]);
    if t.progress.ActiveCleared? {
      steps := [Commit(i)];
      CommitAlone(alone, i);
    } else {
      steps := [DeleteActiveTemplateBuilds(i), Commit(i)];
      assert alone.txns - {i} == map[];
      var after := Exec(alone, steps[0]).value;
      CommitAlone(after, i);
      assert steps[1..] == [Commit(i)];
    }
  }

  lemma CommitAlone(s: Store, i: TxnId)
    requires i in s.txns && MayCommit(s.txns[i])
    ensures Replay(s, [Commit(i)]) == Some(Store(Apply(s.txns[i].w, s.committed), s.txns - {i}))
  {
    assert Replay(Store(Apply(s.txns[i].w, s.committed), s.txns - {i}), [Commit(i)][1..])
           == Some(Store(Apply(s.txns[i].w, s.committed), s.txns - {i}));
  }

  ghost predicate LeavesStaleAlias(s: Store, steps: seq<Step>) {
    Replay(s, steps).Some? && !AliasesHaveLiveEnv(Replay(s, steps).value.committed)
  }

  /** A claim that takes a free name for an existing template, by either statement. */
  predicate TakesName(s: Store, claim: Step) {
    && IsClaim(claim) && claim.env in s.committed.envs
    && claim.key !in s.committed.aliases && AliasKeysFree(s.txns, {claim.key})
  }

  lemma ClaimTakesName(s: Store, claim: Step)
    requires TakesName(s, claim)
    ensures Exec(s, claim) == Some(s.(committed := ClaimAlias(s.committed, claim.key, claim.env)))
  {
  }

  /** Whenever the caller's condition fails, a continuation without any further claim leaves a stale alias. */
  lemma UnguardedClaimCanLeak(s: Store, claim: Step) returns (steps: seq<Step>)
    requires LockInv(s) && TakesName(s, claim) && !MayClaimFor(s, claim.env)
    ensures Exec(s, claim).Some? && NoClaims(steps)
    ensures LeavesStaleAlias(Exec(s, claim).value, steps)
  {
    ClaimTakesName(s, claim);
    var claimed := s.(committed := ClaimAlias(s.committed, claim.key, claim.env));
    if IsDeletedEnv(s.committed, claim.env) {
      steps := [];
      assert claim.key in claimed.committed.aliases;
    } else {
      var i :| i in s.txns && s.txns[i].env == claim.env && HasReleased(s.txns[i]);
      assert {claim.key} !! LockedKeys(s.txns[i]);
      NameChangesNoWrites(s.txns[i], s.committed, claimed.committed);
      steps := ReleasedDeletionLeaks(claimed, claim.key, i);
    }
  }

  lemma NameChangesNoWrites(t: Txn, c: Tables, c': Tables)
    requires WritesUnderLock(t, c) && c'.envs == c.envs && c'.active == c.active
    ensures WritesUnderLock(t, c')
  {
    assert ActiveRowsOf(c', t.env) == ActiveRowsOf(c, t.env);
  }

  /** A deletion past its release does not see the name any more. */
  lemma ReleasedDeletionLeaks(s: Store, key: AliasKey, i: TxnId) returns (steps: seq<Step>)
    requires i in s.txns && HasReleased(s.txns[i]) && WritesUnderLock(s.txns[i], s.committed)
    requires key in s.committed.aliases && s.committed.aliases[key].env == s.txns[i].env && key !in LockedKeys(s.txns[i])
    ensures NoClaims(steps) && LeavesStaleAlias(s, steps)
  {
    steps := FinishDeletion(s, i);
    var c := Replay(s, steps).value.committed;
    assert key in c.aliases && !IsActiveEnv(c, c.aliases[key].env);
  }

  lemma {:induction false} UnclaimedReplayKeepsNoStale(s: Store, steps: seq<Step>)
    requires NoStaleAlias(s) && Replay(s, steps).Some? && NoClaims(steps)
    ensures NoStaleAlias(Replay(s, steps).value)
    decreases |steps|
  {
    if steps != [] {
      assert steps[0] in steps;
      StepKeepsNoStale(s, steps[0]);
      assert forall step :: step in steps[1..] ==> step in steps;
      UnclaimedReplayKeepsNoStale(Exec(s, steps[0]).value, steps[1..]);
    }
  }

  /** The condition is exact: a claim can lead to a deleted template owning a name iff it fails. */
  lemma ClaimIsSafeIff(s: Store, claim: Step)
    requires NoStaleAlias(s) && TakesName(s, claim)
    ensures Exec(s, claim).Some?
    ensures MayClaimFor(s, claim.env) <==> !exists steps: seq<Step> :: NoClaims(steps) && LeavesStaleAlias(Exec(s, claim).value, steps)
  {
    ClaimTakesName(s, claim);
    var s' := Exec(s, claim).value;
    if MayClaimFor(s, claim.env) {
      StepKeepsNoStale(s, claim);
      forall steps: seq<Step> | NoClaims(steps) && Replay(s', steps).Some?
        ensures !LeavesStaleAlias(s', steps)
      {
        UnclaimedReplayKeepsNoStale(s', steps);
      }
    } else {
      var steps := UnguardedClaimCanLeak(s, claim);
    }
  }
}
