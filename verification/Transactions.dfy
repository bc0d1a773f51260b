/**
 The statements of the template store run by interleaved transactions under READ COMMITTED.

 A statement is one atomic step.  It reads the committed tables overlaid with the writes of its
 own transaction, and it runs only when the row locks it needs are free; until then it waits.
 A transaction's writes reach the committed tables when it commits and are dropped when it rolls
 back.  A statement that returns no row where the caller needs one, or that violates a unique
 index, rolls its transaction back.
 */
module Transactions {
  import opened TemplateTables

  /** The uncommitted row versions of one transaction; their keys are the row locks it holds. */
  datatype WriteSet = WriteSet(
    envs: map<EnvId, Env>,
    builds: map<BuildId, Build>,
    assignments: set<Assignment>,
    activeIns: map<BuildId, ActiveBuild>,
    activeDel: set<BuildId>,
    aliasIns: map<AliasKey, AliasRow>,
    aliasDel: set<AliasKey>)

  const NO_WRITES := WriteSet(map[], map[], {}, map[], {}, map[], {})

  function Apply(w: WriteSet, t: Tables): Tables {
    Tables(
      t.envs + w.envs,
      t.builds + w.builds,
      t.assignments + w.assignments,
      (t.active - w.activeDel) + w.activeIns,
      (t.aliases - w.aliasDel) + w.aliasIns,
      t.snapshots)
  }

  // The next statement of a registration: the phase names what has been done.
  datatype RegPhase =
    | RegBegun | EnvLocked | Invalidated
    | BuildCreated | ConflictChecked | AliasMissing | OldAliasesGone
    | Assigning(next: nat)
    | Activated

  datatype DelPhase = DelBegun | SoftDeleted | AliasesReleased | ActiveCleared

  datatype Txn =
    | Registration(env: EnvId, team: TeamId, tags: seq<Tag>, build: BuildId, alias: Option<AliasKey>,
                   phase: RegPhase, w: WriteSet)
    | Deletion(env: EnvId, team: TeamId, progress: DelPhase, w: WriteSet)
    | Tagging(env: EnvId, build: BuildId, tags: seq<Tag>, done: nat, w: WriteSet)

  type TxnId = nat
  type Txns = map<TxnId, Txn>

  datatype Store = Store(committed: Tables, txns: Txns)

  /** Row lock on the transaction's env taken by UPDATE or ON CONFLICT DO UPDATE. */
  predicate HoldsExclusive(t: Txn) {
    (t.Registration? && !t.phase.RegBegun?) || (t.Deletion? && !t.progress.DelBegun?)
  }

  /** Row lock on the transaction's env taken by FOR SHARE. */
  predicate HoldsShared(t: Txn) {
    t.Tagging? && t.done > 0
  }

  predicate HoldsLock(t: Txn) {
    HoldsExclusive(t) || HoldsShared(t)
  }

  predicate EnvUnlocked(others: Txns, e: EnvId) {
    forall j | j in others :: others[j].env == e ==> !HoldsLock(others[j])
  }

  predicate EnvShareable(others: Txns, e: EnvId) {
    forall j | j in others :: others[j].env == e ==> !HoldsExclusive(others[j])
  }

  predicate BuildRowsFree(others: Txns, rows: set<BuildId>) {
    forall j | j in others :: others[j].w.builds.Keys !! rows
  }

  predicate ActiveRowsFree(others: Txns, rows: set<BuildId>) {
    forall j | j in others :: others[j].w.activeDel + others[j].w.activeIns.Keys !! rows
  }

  predicate AliasKeysFree(others: Txns, keys: set<AliasKey>) {
    forall j | j in others :: others[j].w.aliasDel + others[j].w.aliasIns.Keys !! keys
  }

  // ---------------------------------------------------------------------------------------
  // What each statement reads and writes
  // ---------------------------------------------------------------------------------------

  function UpsertedEnv(v: Tables, e: EnvId, team: TeamId): Env {
    if e in v.envs then v.envs[e].(buildCount := v.envs[e].buildCount + 1)
    else Env(team, TemplateSource, false, 1)
  }

  /** The builds InvalidateUnstartedTemplateBuilds fails: pending, and assigned to one of the tags. */
  function Unstarted(v: Tables, e: EnvId, tags: seq<Tag>): set<BuildId> {
    set a | a in v.assignments && a.env == e && a.tag in tags && IsPending(v, a.build) :: a.build
  }

  function InvalidateWrites(w: WriteSet, v: Tables, e: EnvId, tags: seq<Tag>): WriteSet {
    var doomed := Unstarted(v, e, tags);
    w.(builds := w.builds + (map b | b in doomed && b in v.builds :: v.builds[b].(status := Failed)),
       activeDel := w.activeDel + doomed * v.active.Keys)
  }

  function AliasesOf(v: Tables, e: EnvId): set<AliasKey> {
    set k | k in v.aliases && v.aliases[k].env == e
  }

  function RenamableAliasesOf(v: Tables, e: EnvId): set<AliasKey> {
    set k | k in v.aliases && v.aliases[k].env == e && v.aliases[k].renamable
  }

  function DeleteAliasWrites(w: WriteSet, keys: set<AliasKey>): WriteSet {
    w.(aliasDel := w.aliasDel + keys, aliasIns := w.aliasIns - keys)
  }

  function ActiveRowsOf(v: Tables, e: EnvId): set<BuildId> {
    set b | b in v.active && v.active[b].env == e
  }

  /** The parameters of UpsertSnapshot, with the ids and clock the database supplies. */
  datatype Pause = Pause(
    seen: bool, // whether NOT EXISTS finds the snapshot row in the statement's own snapshot
    template: EnvId,
    team: TeamId,
    sandbox: SandboxId,
    baseEnv: EnvId,
    startedAt: int,
    allowInternet: Option<bool>,
    originNode: string,
    build: BuildId,
    status: BuildStatus,
    source: BuildId,
    rowId: nat,
    now: int)

  function PausedRow(t: Tables, p: Pause): Snapshot {
    if p.sandbox in t.snapshots then
      var row := t.snapshots[p.sandbox];
      row.(startedAt := p.startedAt,
           allowInternet := if p.allowInternet.Some? then p.allowInternet else row.allowInternet,
           originNode := p.originNode)
    else
      Snapshot(if p.seen then "" else p.template, p.baseEnv, p.team, p.startedAt, p.allowInternet, p.originNode)
  }

  function SourceCpu(t: Tables, source: BuildId): CpuInfo {
    if source in t.builds then t.builds[source].cpu else NULL_CPU
  }

  /** All four parts of the statement; None when a key or foreign-key violation rejects it whole. */
  function UpsertSnapshot(t: Tables, p: Pause): Option<Tables> {
    if p.build in t.builds || (!p.seen && p.template in t.envs) then None
    else
      var envs := if p.seen then t.envs else t.envs[p.template := Env(p.team, SnapshotSource, false, 1)];
      var row := PausedRow(t, p);
      if row.env !in envs then None
      else Some(t.(envs := envs,
                   snapshots := t.snapshots[p.sandbox := row],
                   builds := t.builds[p.build := Build(p.status, SourceCpu(t, p.source))],
                   assignments := t.assignments + {Assignment(p.rowId, row.env, p.build, DEFAULT_TAG, p.now)}))
  }

  function SetStatus(t: Tables, b: BuildId, status: BuildStatus): Tables {
    if b in t.builds then t.(builds := t.builds[b := t.builds[b].(status := status)]) else t
  }

  function DropActive(t: Tables, b: BuildId): Tables {
    t.(active := t.active - {b})
  }

  /** UpdateTemplateBuild: the CPU columns, whatever the status. */
  function SetCpu(t: Tables, b: BuildId, cpu: CpuInfo): Tables {
    if b in t.builds then t.(builds := t.builds[b := t.builds[b].(cpu := cpu)]) else t
  }

  /** CreateSnapshotTemplateEnv: a key or foreign-key violation rejects all of it. */
  function CreateSnapshotEnv(t: Tables, e: EnvId, team: TeamId, b: BuildId, tag: Tag, rowId: nat, now: int): Tables {
    if e in t.envs || b !in t.builds then t
    else t.(envs := t.envs[e := Env(team, SnapshotTemplateSource, false, 1)],
            assignments := t.assignments + {Assignment(rowId, e, b, tag, now)})
  }

  /** UpsertTemplateAliasIfNotExists; on the tables also an auto-committed CreateTemplateAlias, which fails on a taken key. */
  function ClaimAlias(t: Tables, key: AliasKey, e: EnvId): Tables {
    if key in t.aliases then t else t.(aliases := t.aliases[key := AliasRow(e, true)])
  }

  // ---------------------------------------------------------------------------------------
  // Steps
  // ---------------------------------------------------------------------------------------

  datatype Step =
    // RegisterBuild
    | BeginRegistration(i: TxnId, env: EnvId, team: TeamId, tags: seq<Tag>, build: BuildId, alias: Option<AliasKey>)
    | CreateOrUpdateTemplate(i: TxnId)
    | InvalidateUnstartedTemplateBuilds(i: TxnId)
    | CreateTemplateBuild(i: TxnId)
    | CheckAliasConflict(i: TxnId)
    | CheckAliasExists(i: TxnId)
    | DeleteOtherTemplateAliases(i: TxnId)
    | CreateTemplateAlias(i: TxnId)
    | CreateTemplateBuildAssignment(i: TxnId, rowId: nat, now: int) // also the tagging transaction's
    | CreateActiveTemplateBuild(i: TxnId)
    // softDeleteTemplate
    | BeginDeletion(i: TxnId, env: EnvId, team: TeamId)
    | SoftDeleteTemplate(i: TxnId)
    | ReleaseTemplateAliases(i: TxnId)
    | DeleteActiveTemplateBuilds(i: TxnId)
    // PostTemplatesTags
    | BeginTagging(i: TxnId, env: EnvId, target: TagParam, build: BuildId, tags: seq<Tag>)
    | Commit(i: TxnId)
    | Rollback(i: TxnId)
    // statements that run outside a transaction block
    | UpsertTemplateAlias(key: AliasKey, env: EnvId)
    | InsertTemplateAlias(key: AliasKey, env: EnvId)
    | CreateSnapshotTemplateEnv(env: EnvId, team: TeamId, build: BuildId, tag: Tag, rowId: nat, now: int)
    | UpdateTemplateBuild(build: BuildId, cpu: CpuInfo)
    | AssignSnapshotBuild(env: EnvId, build: BuildId, tag: Tag, rowId: nat, now: int)
    | PauseSandbox(pause: Pause)
    | FinishTemplateBuild(build: BuildId, status: BuildStatus)
    | FailTemplateBuildAndDeactivate(build: BuildId, status: BuildStatus)
    | UpdateEnvBuildStatus(build: BuildId, status: BuildStatus)
    | DeleteActiveTemplateBuild(build: BuildId)
    | DeleteTemplateTags(env: EnvId, tags: seq<Tag>)

  function Put(s: Store, i: TxnId, t: Txn): Store {
    s.(txns := s.txns[i := t])
  }

  function Drop(s: Store, i: TxnId): Store {
    s.(txns := s.txns - {i})
  }

  /** None when the statement has to wait, or is not the next one of its transaction. */
  function Exec(s: Store, step: Step): Option<Store> {
    match step
    case BeginRegistration(i, env, team, tags, build, alias) =>
      if i in s.txns then None
      else Some(Put(s, i, Registration(env, team, tags, build, alias, RegBegun, NO_WRITES)))
    case BeginDeletion(i, env, team) =>
      if i in s.txns then None else Some(Put(s, i, Deletion(env, team, DelBegun, NO_WRITES)))
    case BeginTagging(i, env, target, build, tags) =>
      if i in s.txns || !(exists a :: a in TagCandidates(s.committed, env, target) && a.build == build) then None
      else Some(Put(s, i, Tagging(env, build, tags, 0, NO_WRITES)))
    case Commit(i) =>
      if i in s.txns && MayCommit(s.txns[i])
      then Some(Store(Apply(s.txns[i].w, s.committed), s.txns - {i})) else None
    case Rollback(i) => if i in s.txns then Some(Drop(s, i)) else None
    case CreateOrUpdateTemplate(i) => if i in s.txns then ExecCreateOrUpdate(s, i, s.txns[i]) else None
    case InvalidateUnstartedTemplateBuilds(i) => if i in s.txns then ExecInvalidate(s, i, s.txns[i]) else None
    case CreateTemplateBuild(i) => if i in s.txns then ExecCreateBuild(s, i, s.txns[i]) else None
    case CheckAliasConflict(i) => if i in s.txns then ExecCheckConflict(s, i, s.txns[i]) else None
    case CheckAliasExists(i) => if i in s.txns then ExecCheckExists(s, i, s.txns[i]) else None
    case DeleteOtherTemplateAliases(i) => if i in s.txns then ExecDeleteOther(s, i, s.txns[i]) else None
    case CreateTemplateAlias(i) => if i in s.txns then ExecCreateAlias(s, i, s.txns[i]) else None
    case CreateTemplateBuildAssignment(i, rowId, now) =>
      if i in s.txns then ExecAssign(s, i, s.txns[i], rowId, now) else None
    case CreateActiveTemplateBuild(i) => if i in s.txns then ExecCreateActive(s, i, s.txns[i]) else None
    case SoftDeleteTemplate(i) => if i in s.txns then ExecSoftDelete(s, i, s.txns[i]) else None
    case ReleaseTemplateAliases(i) => if i in s.txns then ExecRelease(s, i, s.txns[i]) else None
    case DeleteActiveTemplateBuilds(i) => if i in s.txns then ExecClearActive(s, i, s.txns[i]) else None
    case _ => ExecSingle(s, step)
  }

  /** A statement inside a transaction block. */
  predicate IsTxnStatement(step: Step) {
    || step.CreateOrUpdateTemplate? || step.InvalidateUnstartedTemplateBuilds? || step.CreateTemplateBuild?
    || step.CheckAliasConflict? || step.CheckAliasExists? || step.DeleteOtherTemplateAliases?
    || step.CreateTemplateAlias? || step.CreateTemplateBuildAssignment? || step.CreateActiveTemplateBuild?
    || step.SoftDeleteTemplate? || step.ReleaseTemplateAliases? || step.DeleteActiveTemplateBuilds?
  }

  /** A name claimed outside a transaction block, and so without a lock on the env. */
  predicate IsClaim(step: Step) {
    step.UpsertTemplateAlias? || step.InsertTemplateAlias?
  }

  predicate IsBegin(step: Step) {
    step.BeginRegistration? || step.BeginDeletion? || step.BeginTagging?
  }

  predicate MayCommit(t: Txn) {
    match t
    case Registration(_, _, _, _, _, phase, _) => phase.Activated?
    case Deletion(_, _, progress, _) => progress.ActiveCleared?
    case Tagging(_, _, tags, done, _) => done == |tags|
  }

  function ExecCreateOrUpdate(s: Store, i: TxnId, t: Txn): Option<Store> {
    var v := Apply(t.w, s.committed);
    if !(t.Registration? && t.phase.RegBegun?) || !EnvUnlocked(s.txns - {i}, t.env) then None
    else if IsDeletedEnv(v, t.env) then Some(Drop(s, i))
    else Some(Put(s, i, t.(phase := EnvLocked,
                           w := t.w.(envs := t.w.envs[t.env := UpsertedEnv(v, t.env, t.team)]))))
  }

  function ExecInvalidate(s: Store, i: TxnId, t: Txn): Option<Store> {
    var v := Apply(t.w, s.committed);
    if !(t.Registration? && t.phase.EnvLocked?)
       || !BuildRowsFree(s.txns - {i}, Unstarted(v, t.env, t.tags))
       || !ActiveRowsFree(s.txns - {i}, Unstarted(v, t.env, t.tags)) then None
    else Some(Put(s, i, t.(phase := Invalidated, w := InvalidateWrites(t.w, v, t.env, t.tags))))
  }

  function ExecCreateBuild(s: Store, i: TxnId, t: Txn): Option<Store> {
    var v := Apply(t.w, s.committed);
    if !(t.Registration? && t.phase.Invalidated?) || !BuildRowsFree(s.txns - {i}, {t.build}) then None
    else if t.build in v.builds then Some(Drop(s, i))
    else Some(Put(s, i, t.(phase := if t.alias.None? then Assigning(0) else BuildCreated,
                           w := t.w.(builds := t.w.builds[t.build := Build(Waiting, NULL_CPU)]))))
  }

  function ExecCheckConflict(s: Store, i: TxnId, t: Txn): Option<Store> {
    if !(t.Registration? && t.phase.BuildCreated? && t.alias.Some?) then None
    else if t.alias.value.alias in Apply(t.w, s.committed).envs then Some(Drop(s, i))
    else Some(Put(s, i, t.(phase := ConflictChecked)))
  }

  function ExecCheckExists(s: Store, i: TxnId, t: Txn): Option<Store> {
    var v := Apply(t.w, s.committed);
    if !(t.Registration? && t.phase.ConflictChecked? && t.alias.Some?) then None
    else if t.alias.value !in v.aliases then Some(Put(s, i, t.(phase := AliasMissing)))
    else if v.aliases[t.alias.value].env == t.env then Some(Put(s, i, t.(phase := Assigning(0))))
    else Some(Drop(s, i))
  }

  function ExecDeleteOther(s: Store, i: TxnId, t: Txn): Option<Store> {
    var v := Apply(t.w, s.committed);
    if !(t.Registration? && t.phase.AliasMissing?)
       || !AliasKeysFree(s.txns - {i}, RenamableAliasesOf(v, t.env)) then None
    else Some(Put(s, i, t.(phase := OldAliasesGone, w := DeleteAliasWrites(t.w, RenamableAliasesOf(v, t.env)))))
  }

  function ExecCreateAlias(s: Store, i: TxnId, t: Txn): Option<Store> {
    var v := Apply(t.w, s.committed);
    if !(t.Registration? && t.phase.OldAliasesGone? && t.alias.Some?)
       || !AliasKeysFree(s.txns - {i}, {t.alias.value}) then None
    else if t.alias.value in v.aliases then Some(Drop(s, i))
    else Some(Put(s, i, t.(phase := Assigning(0),
                           w := t.w.(aliasIns := t.w.aliasIns[t.alias.value := AliasRow(t.env, true)]))))
  }

  /** The FOR SHARE guard: an attached row needs a live env; otherwise 0 rows and the caller gives up. */
  function ExecAssign(s: Store, i: TxnId, t: Txn, rowId: nat, now: int): Option<Store> {
    var v := Apply(t.w, s.committed);
    if !EnvShareable(s.txns - {i}, t.env) then None
    else if t.Registration? && t.phase.Assigning? && t.phase.next < |t.tags| then
      var next := t.phase.next;
      Some(Put(s, i, if IsActiveEnv(v, t.env)
                     then t.(phase := Assigning(next + 1), w := Attach(t.w, t.env, t.build, t.tags[next], rowId, now))
                     else t.(phase := Assigning(next + 1)))) // RegisterBuild ignores the row count
    else if t.Tagging? && t.done < |t.tags| then
      if IsActiveEnv(v, t.env) then
        Some(Put(s, i, t.(done := t.done + 1, w := Attach(t.w, t.env, t.build, t.tags[t.done], rowId, now))))
      else Some(Drop(s, i))
    else None
  }

  function Attach(w: WriteSet, e: EnvId, b: BuildId, tag: Tag, rowId: nat, now: int): WriteSet {
    w.(assignments := w.assignments + {Assignment(rowId, e, b, tag, now)})
  }

  function ExecCreateActive(s: Store, i: TxnId, t: Txn): Option<Store> {
    var v := Apply(t.w, s.committed);
    if !(t.Registration? && t.phase.Assigning? && t.phase.next == |t.tags|)
       || !ActiveRowsFree(s.txns - {i}, {t.build}) then None
    else if t.build in v.active then Some(Drop(s, i))
    else Some(Put(s, i, t.(phase := Activated,
                           w := t.w.(activeIns := t.w.activeIns[t.build := ActiveBuild(t.team, t.env, t.tags)]))))
  }

  function ExecSoftDelete(s: Store, i: TxnId, t: Txn): Option<Store> {
    var v := Apply(t.w, s.committed);
    if !(t.Deletion? && t.progress.DelBegun?) || !EnvUnlocked(s.txns - {i}, t.env) then None
    else if !IsActiveEnv(v, t.env) || v.envs[t.env].team != t.team then Some(Drop(s, i))
    else Some(Put(s, i, t.(progress := SoftDeleted,
                           w := t.w.(envs := t.w.envs[t.env := v.envs[t.env].(deleted := true)]))))
  }

  function ExecRelease(s: Store, i: TxnId, t: Txn): Option<Store> {
    var v := Apply(t.w, s.committed);
    if !(t.Deletion? && t.progress.SoftDeleted?) || !AliasKeysFree(s.txns - {i}, AliasesOf(v, t.env)) then None
    else Some(Put(s, i, t.(progress := AliasesReleased, w := DeleteAliasWrites(t.w, AliasesOf(v, t.env)))))
  }

  function ExecClearActive(s: Store, i: TxnId, t: Txn): Option<Store> {
    var v := Apply(t.w, s.committed);
    if !(t.Deletion? && t.progress.AliasesReleased?) || !ActiveRowsFree(s.txns - {i}, ActiveRowsOf(v, t.env)) then None
    else Some(Put(s, i, t.(progress := ActiveCleared,
                           w := t.w.(activeDel := t.w.activeDel + ActiveRowsOf(v, t.env)))))
  }

  /** Statements outside a transaction block commit at once; a rejected one changes nothing. */
  function ExecSingle(s: Store, step: Step): Option<Store> {
    var c := s.committed;
    match step
    case UpsertTemplateAlias(key, env) =>
      if !AliasKeysFree(s.txns, {key}) then None
      else Some(s.(committed := if env in c.envs then ClaimAlias(c, key, env) else c))
    case InsertTemplateAlias(key, env) =>
      if !AliasKeysFree(s.txns, {key}) then None
      else Some(s.(committed := if env in c.envs then ClaimAlias(c, key, env) else c))
    case CreateSnapshotTemplateEnv(env, team, build, tag, rowId, now) =>
      if exists j | j in s.txns :: env in s.txns[j].w.envs then None
      else Some(s.(committed := CreateSnapshotEnv(c, env, team, build, tag, rowId, now)))
    case UpdateTemplateBuild(b, cpu) =>
      if !BuildRowsFree(s.txns, {b}) then None else Some(s.(committed := SetCpu(c, b, cpu)))
    case AssignSnapshotBuild(env, build, tag, rowId, now) =>
      if !EnvShareable(s.txns, env) then None
      else if IsActiveEnv(c, env) && build in c.builds then
        Some(s.(committed := c.(assignments := c.assignments + {Assignment(rowId, env, build, tag, now)})))
      else Some(s)
    case PauseSandbox(p) =>
      if (p.seen && p.sandbox !in c.snapshots) || !BuildRowsFree(s.txns, {p.build})
         || (exists j | j in s.txns :: p.template in s.txns[j].w.envs) then None
      else
        var after := UpsertSnapshot(c, p);
        Some(if after.Some? then s.(committed := after.value) else s)
    case FinishTemplateBuild(b, status) =>
      if !BuildRowsFree(s.txns, {b}) || !ActiveRowsFree(s.txns, {b}) then None
      else Some(s.(committed := DropActive(SetStatus(c, b, status), b)))
    case FailTemplateBuildAndDeactivate(b, status) =>
      if !BuildRowsFree(s.txns, {b}) || !ActiveRowsFree(s.txns, {b}) then None
      else Some(s.(committed := DropActive(SetStatus(c, b, status), b)))
    case UpdateEnvBuildStatus(b, status) =>
      if !BuildRowsFree(s.txns, {b}) then None else Some(s.(committed := SetStatus(c, b, status)))
    case DeleteActiveTemplateBuild(b) =>
      if !ActiveRowsFree(s.txns, {b}) then None else Some(s.(committed := DropActive(c, b)))
    case DeleteTemplateTags(env, tags) =>
      Some(s.(committed := c.(assignments := set a | a in c.assignments && !(a.env == env && a.tag in tags))))
    case _ => None
  }

  // ---------------------------------------------------------------------------------------
  // Runs
  // ---------------------------------------------------------------------------------------

  /** Step k leads from state k to state k + 1. */
  ghost predicate Follows(states: seq<Store>, steps: seq<Step>, k: nat)
    requires k < |steps| && k + 1 < |states|
  {
    Exec(states[k], steps[k]) == Some(states[k + 1])
  }

  ghost predicate IsRun(states: seq<Store>, steps: seq<Step>) {
    && |states| == |steps| + 1
    && forall k: nat :: k < |steps| ==> Follows(states, steps, k)
  }

  const EMPTY_STORE := Store(EMPTY_TABLES, map[])
}
