/**
 The rows of the template store: envs, env_builds, env_build_assignments,
 active_template_builds, env_aliases and snapshots, and the read queries over them.
 Columns that no statement of the model reads are left out.
 */
module TemplateTables {
  datatype Option<+T> = None | Some(value: T)

  type EnvId = string
  type TeamId = string
  type SandboxId = string
  type Tag = string
  type BuildId = nat // a UUID, only ever compared for equality here

  const DEFAULT_TAG: Tag := "default"

  datatype BuildStatus =
    | Pending | Waiting
    | InProgress | Building | Snapshotting
    | Ready | Uploaded | Success
    | Failed
    | OtherStatus(text: string)

  datatype StatusGroup = PendingGroup | InProgressGroup | ReadyGroup | FailedGroup

  /** The trigger that fills env_builds.status_group. */
  function Group(status: BuildStatus): StatusGroup {
    match status
    case Pending | Waiting => PendingGroup
    case InProgress | Building | Snapshotting => InProgressGroup
    case Ready | Uploaded | Success => ReadyGroup
    case Failed | OtherStatus(_) => FailedGroup
  }

  predicate IsTerminal(group: StatusGroup) {
    group.ReadyGroup? || group.FailedGroup?
  }

  datatype EnvSource = TemplateSource | SnapshotTemplateSource | SnapshotSource

  datatype Env = Env(team: TeamId, source: EnvSource, deleted: bool, buildCount: nat)

  /** The five CPU columns of a build; NULL in each when the source build is missing. */
  datatype CpuInfo = CpuInfo(
    architecture: Option<string>,
    family: Option<string>,
    model: Option<string>,
    modelName: Option<string>,
    flags: Option<seq<string>>)

  const NULL_CPU := CpuInfo(None, None, None, None, None)

  datatype Build = Build(status: BuildStatus, cpu: CpuInfo)

  datatype Assignment = Assignment(id: nat, env: EnvId, build: BuildId, tag: Tag, createdAt: int)

  datatype ActiveBuild = ActiveBuild(team: TeamId, env: EnvId, tags: seq<Tag>)

  datatype AliasKey = AliasKey(alias: string, namespace: Option<string>)

  datatype AliasRow = AliasRow(env: EnvId, renamable: bool)

  datatype Snapshot = Snapshot(
    env: EnvId,
    baseEnv: EnvId,
    team: TeamId,
    startedAt: int,
    allowInternet: Option<bool>,
    originNode: string)

  /** Primary keys and unique indexes are the map keys; (alias, namespace) is unique with NULLs equal. */
  datatype Tables = Tables(
    envs: map<EnvId, Env>,
    builds: map<BuildId, Build>,
    assignments: set<Assignment>,
    active: map<BuildId, ActiveBuild>,
    aliases: map<AliasKey, AliasRow>,
    snapshots: map<SandboxId, Snapshot>)

  const EMPTY_TABLES := Tables(map[], map[], {}, map[], map[], map[])

  /** The active_envs view: the row exists and is not soft-deleted. */
  predicate IsActiveEnv(t: Tables, e: EnvId) {
    e in t.envs && !t.envs[e].deleted
  }

  predicate IsDeletedEnv(t: Tables, e: EnvId) {
    e in t.envs && t.envs[e].deleted
  }

  predicate HasGroup(t: Tables, b: BuildId, g: StatusGroup) {
    b in t.builds && Group(t.builds[b].status) == g
  }

  predicate IsPending(t: Tables, b: BuildId) {
    HasGroup(t, b, PendingGroup)
  }

  predicate IsTemplateSource(s: EnvSource) {
    s.TemplateSource? || s.SnapshotTemplateSource?
  }

  /** GetTemplateById. */
  function GetTemplateById(t: Tables, e: EnvId): Option<EnvId> {
    if IsActiveEnv(t, e) && IsTemplateSource(t.envs[e].source) then Some(e) else None
  }

  /** GetTemplateByAlias. */
  function GetTemplateByAlias(t: Tables, key: AliasKey): Option<EnvId> {
    if key in t.aliases then GetTemplateById(t, t.aliases[key].env) else None
  }

  /** A tag parameter: NULL, a plain tag, or a text that also casts to a build's UUID. */
  datatype TagParam = NoTag | PlainTag(tag: Tag) | UuidTag(tag: Tag, build: BuildId)

  predicate Matches(a: Assignment, p: TagParam) {
    match p
    case NoTag => a.tag == DEFAULT_TAG
    case PlainTag(tag) => a.tag == tag
    case UuidTag(tag, build) => a.tag == tag || a.build == build
  }

  /** The rows GetTemplateWithBuildByTag orders by created_at and takes the first of. */
  function TagCandidates(t: Tables, e: EnvId, p: TagParam): set<Assignment> {
    if GetTemplateById(t, e).None? then {}
    else set a | a in t.assignments && a.env == e && Matches(a, p) && HasGroup(t, a.build, ReadyGroup)
  }

  /** GetTemplateWithBuildByTag may answer with build b: it belongs to a newest candidate row. */
  ghost predicate ResolvesTo(t: Tables, e: EnvId, p: TagParam, b: BuildId) {
    exists a :: a in TagCandidates(t, e, p) && a.build == b && IsNewest(TagCandidates(t, e, p), a)
  }

  ghost predicate IsNewest(rows: set<Assignment>, a: Assignment) {
    forall o :: o in rows ==> o.createdAt <= a.createdAt
  }

  lemma {:induction false} NewestExists(rows: set<Assignment>)
    requires rows != {}
    ensures exists a :: a in rows && IsNewest(rows, a)
  {
    var x :| x in rows;
    if rows == {x} {
      assert IsNewest(rows, x);
    } else {
      NewestExists(rows - {x});
      var y :| y in rows - {x} && IsNewest(rows - {x}, y);
      var best := if x.createdAt <= y.createdAt then y else x;
      forall o | o in rows ensures o.createdAt <= best.createdAt {
        assert o == x || o in rows - {x};
      }
      assert best in rows && IsNewest(rows, best);
    }
  }
}
