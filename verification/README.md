# Verified model of the sandbox platform's control plane

The project models the parts of the control plane whose correctness depends on interleavings,
ordering or arithmetic, and proves what they guarantee for every input and every run.

- **Template store.** The SQL statements over `envs`, `env_builds`, `env_build_assignments`,
  `active_template_builds`, `env_aliases` and `snapshots` are the steps of a state machine.
  Registration, deletion and tagging transactions interleave under READ COMMITTED: a statement reads
  the committed tables overlaid with its own transaction's writes, waits while a row lock it needs is
  held elsewhere, and the writes become visible at commit. `TemplateTables`, `Transactions`,
  `DeletionSafety`, `BuildLifecycle`, `AliasOwnership`, `Snapshots`, `CpuColumns`, `ExclusiveBuilds`, `SoloRuns`;
  `TagResolution` says on the table columns what the read queries answer, `Registrations` and
  `RequestEffects` what a committed request has left behind;
  `TemplateDatabase` holds the same tables as a class whose methods update them in place and are
  proved against the steps.
- **Keyset pagination.** One theory of cursor traversals over any strict total order, in which the
  table may change between fetches, and the queries that instantiate it: `Keyset`, `UuidText`,
  `Listings`, `TeamTemplates`, `SandboxListing`, `SandboxClocks`, `Pagination`.
- **Instance pools.** `Instances` is one instance and a cluster's choice of a builder; `InstancePool`
  is the reconciliation round with its goroutines as interleaved steps and a ledger of gRPC clients;
  `PoolConvergence` shows that every interleaving has the effect of a sequential round, and when
  rounds converge; `ClusterClose` is about closing a cluster while a round may be in progress.
- **Graceful shutdown.** `Shutdown`: serve goroutines, watcher, drains, cleanups and the root context
  as interleaved steps.
- **Team metrics and build logs.** `TeamMetrics`, `LogWindow`.

Read "for every run" literally: the lemmas quantify over sequences of states and steps of any length,
chosen by any scheduler.

## Where the code does less than its comments or its callers expect

Each of these is proved: an input that shows the failure, and the exact condition under which the
code does what is expected.

- A deleted template can own an alias. `UpsertTemplateAliasIfNotExists` runs outside any transaction
  and takes no lock on the env row (`packages/api/internal/handlers/template_update.go:165`), so a
  claim that lands after a delete has released its aliases survives it; so does the auto-committed
  `CreateTemplateAlias` of a new snapshot template
  (`packages/api/internal/orchestrator/snapshot_template.go:187-196`). `AliasOwnership.ClaimIsSafeIff`
  gives the condition a caller would have to check, `SoloRuns.DeletedTemplateOwnsName` a run. The
  template is still never returned by alias.
- A discovery source that names an unpooled node twice loses a gRPC client for good: both goroutines
  pass the check and the second insert hides the first client. `InstancePool.RoundLosesNoClientIff`.
- A pool entry whose unique identifier the source announces under another node is never removed and
  never corrected. `PoolConvergence.ConvergesIff`.
- `Cluster.Close` stops the timer but waits for no round in progress, and `SyncInstances` can start one
  afterwards; a goroutine that still creates leaves its client open, one that still removes closes its
  client twice. `ClusterClose.CloseLeavesNoneOpenIff`, `ClusterClose.SyncAfterCloseIff`.
- The CPU columns of a template build can change after it has started: `UpdateTemplateBuild` looks at
  no status, and the handlers check it in an earlier statement. `CpuColumns.RunKeepsCpuIff`,
  `CpuColumns.StartedBuildIsRewritten`, `CpuColumns.CheckDoesNotGuard`. Builds made by pauses are not
  affected: no request ever reads one as pending, so chains of pauses stay pinned to their root's
  columns. `CpuColumns.GuardedChainKeepsCpu`.
- A sandbox whose start time moves back between two fetches can be listed twice, unless it was the
  last row. `SandboxListing.CanRepeatIff`, `SandboxListing.SandboxesCanRepeatIff`.
- The sandbox list compares running sandboxes in nanoseconds and stored ones in microseconds: a stored
  sandbox can be left out, and one paused between two fetches repeated, within the cursor's
  microsecond. `SandboxClocks.PagesAreExactIff`, `SandboxClocks.PausedRunnerIsRepeatedIff`.
- The two team template listings can show different builds for one template when its newest default
  assignments tie. `TeamTemplates.ListingsAgreeIff`.
- `UpsertTemplateAliasIfNotExists` can return no row: its `SELECT` does not see the claim its insert
  waited for. `AliasOwnership.AnswerIsOwnerIff`.
- A clean exit says nothing about requests on connections the h2c handler took over.
  `Shutdown.CleanExitCanCutOffHijacked`.
- Asking only for temporary logs of a node that is not pooled gives neither entries nor an error.
  `LogWindow.SilentlyEmptyIff`.
- The concurrency column of the metric rows is cut to an integer while the maximum query answers a
  float. `TeamMetrics.PeakIsTopRowIff`, `TeamMetrics.FractionalPeakIsCut`.

Three members would fail on inputs the service never produces. `UpdateEnvBuildStatus` with a terminal
status on a tracked build would leave a stale tracking row (`BuildLifecycle.UpdateStatusKeepsLiveIff`),
but its callers use it on untracked builds or with a status that is not terminal. A next token for an id
with two underscores in a row, and cache keys of aliases with a slash, would be misread; but generated
ids and accepted sandbox ids are lower-case letters and digits, and accepted names hold no slash
(`packages/shared/pkg/id/id.go`), so `Pagination.AlphanumericRoundTrip` and
`TemplateDatabase.IdentifiersNeverCollide` hold for what is stored.

## Assumptions

- A statement is atomic, and an update or delete that waited sees the rows committed meanwhile. Two
  stale readings are modelled: the `NOT EXISTS` of `UpsertSnapshot` may miss a snapshot row that its
  `ON CONFLICT` then finds, and the `SELECT` of `UpsertTemplateAliasIfNotExists` may miss the claim its
  insert waited for.
- `active_envs` are the envs with `deleted_at IS NULL`; `status_group` is a function of `status`;
  `(alias, namespace)` is unique with NULLs equal. These follow the migrations.
- Text columns compare by bytes, as in the C collation. Times are integers; only `SandboxClocks` tells
  nanoseconds from microseconds.
- A clean `Shutdown` of the HTTP server has waited for every request on a connection it tracks.
- Metric values are exact numbers. `toStartOfInterval` rounds down to a multiple of the step, which is
  `TeamMetrics.Bucket`; what the rows cover is proved from it.
- Bounded stops return: `Shutdown` of an HTTP server returns at its deadline, a gRPC stop after its
  budget, a `Serve` call once its server is told to stop, and a cleanup at some point.

## Model

| member | source | states |
|---|---|---|
| `DeletionSafety.DeletionIsFinal` | packages/db/queries/delete_template.sql.go:14-70 | in every interleaving, from the state where a delete is committed on, the template stays deleted, is returned neither by id nor by any alias, tag or build id, has no tracked build, and gains no assignment except by a pause of a sandbox snapshotted in it |
| `DeletionSafety.DeleteCommits` | packages/api/internal/handlers/template_delete.go:26-55 | a delete that reaches its commit found the template live, makes it deleted, leaves no tracked build of it, and touches no assignment, whatever was committed while it waited |
| `DeletionSafety.AttachCommitsOnlyToLiveEnv` | packages/db/queries/create_template_build_assignment.sql.go:14-34 | an assignment that commits belongs to a template live at that commit: the shared lock excludes a concurrent delete |
| `DeletionSafety.RunKeepsLocks` | packages/db/queries/create_template.sql.go:15-34 | env-row locks exclude each other in every reachable state, and every open transaction's writes are covered by the lock it holds |
| `DeletionSafety.StepKeepsDeleted` | packages/db/queries/create_template.sql.go:15-34 | no single statement, commit or pause resurrects a deleted template |
| `BuildLifecycle.BuildsStayConsistent` | packages/db/queries/create_template.sql.go:112-136 | in every interleaving at most one pending build per (template, tag), and every tracked build pending or in progress, provided status updates follow the stated discipline |
| `BuildLifecycle.UpdateStatusKeepsLiveIff` | packages/db/queries/update_template_build_status.sql.go:47-64 | that discipline is exact for UpdateEnvBuildStatus: tracked builds stay live iff a terminal status is not set on a build with a tracking row |
| `Snapshots.StartedBuildsAreUntouched` | packages/db/queries/create_template.sql.go:112-136 | over every run no invalidation, registration, deletion or pause changes a build that has started or finished: its status is changed only by a statement that sets the status of that very build, its CPU columns only by UpdateTemplateBuild on it |
| `AliasOwnership.StepKeepsOwnerIff` | packages/db/queries/upsert_alias.sql.go:12-37 | a name changes hands in no step: it keeps its owner iff the step is not a commit that releases it, and a release leaves it free |
| `AliasOwnership.FirstClaimantKeepsAlias` | packages/db/queries/upsert_alias.sql.go:12-37 | until a commit releases the name, it keeps its owner through every other commit, the owner's own rebuilds and taggings included, and every claim whose snapshot was taken since is answered with the first claimant since the last release, however long it waited |
| `AliasOwnership.AnswerIsOwnerIff` | packages/db/queries/upsert_alias.sql.go:12-37 | the answer is the owner the name then has iff the insert took it or the statement's snapshot shows that owner; there is no answer iff the name is taken and the snapshot shows nobody |
| `AliasOwnership.LateClaimHasNoAnswer` | packages/db/queries/upsert_alias.sql.go:12-37 | over every run a claim whose snapshot predates the competing claim it waited for gets no row |
| `AliasOwnership.RunKeepsAliases` | packages/db/queries/delete_template.sql.go:26-53 | over every run a transaction deletes only names of its own template and takes only names free to it, and no two transactions hold one name |
| `AliasOwnership.GuardedClaimsLeaveNoStaleAlias` | packages/db/queries/delete_template.sql.go:26-70 | if every claim is for a template that is live and whose aliases no open delete has released, no deleted template ever owns a name |
| `AliasOwnership.UnguardedClaimCanLeak` | packages/api/internal/handlers/template_update.go:155-195 | whenever that condition fails for a claim of a free name, a continuation without any further claim ends with a deleted template owning the name |
| `AliasOwnership.ClaimIsSafeIff` | packages/api/internal/handlers/template_update.go:155-195 | both directions together: a claim can lead to a stale alias iff the condition fails |
| `SoloRuns.DeletedTemplateOwnsName` | packages/api/internal/handlers/template_update.go:155-195 | a run from the empty store after which a deleted template owns a name |
| `Snapshots.SnapshotEnvIsSetOnce` | packages/db/queries/create_new_snapshot.sql.go:16-64 | over every run a snapshot's env_id is set by its first pause, is an existing env, is never the placeholder, and never changes |
| `Snapshots.FirstAndLastPauseShow` | packages/db/queries/create_new_snapshot.sql.go:27-64 | over every run the row shows env, base env and team of the first accepted pause, and start time and origin node of the latest |
| `Snapshots.AllowInternetIsLastSupplied` | packages/db/queries/create_new_snapshot.sql.go:57-64 | allow_internet_access is the last non-null value any accepted pause of the sandbox supplied, NULL if none did |
| `CpuColumns.RunCpuIsLastWritten` | packages/db/queries/update_template.sql.go:40-54 | over every run a build's CPU columns are what UpdateTemplateBuild last wrote for it, or what they were |
| `CpuColumns.RunKeepsCpuIff` | packages/db/queries/update_template.sql.go:40-54 | they are unchanged iff no UpdateTemplateBuild named the build meanwhile, or the last one wrote what was there |
| `CpuColumns.StartedBuildIsRewritten` | packages/api/internal/handlers/template_start_build_v2.go:104-157 | a run from the empty store in which two requests read one registered build as pending, the first writes its columns and it becomes ready, and the second then writes other columns over them |
| `CpuColumns.PauseChainCpu` | packages/db/queries/create_new_snapshot.sql.go:67-103 | along any chain of pauses, each resumed from the build before, the last build carries the root's CPU columns, or those last written to a chain build between its pause and its being resumed from |
| `CpuColumns.PauseChainKeepsCpuIff` | packages/db/queries/create_new_snapshot.sql.go:67-103 | root and end of the chain agree iff there was no such write, or the last one wrote the root's columns |
| `CpuColumns.GuardedChainKeepsCpu` | packages/api/internal/handlers/template_start_build_v2.go:104-157 | every request having read its build as pending in this state or any earlier one, which both handlers do, the end of every chain of pauses carries its root's columns, races included |
| `CpuColumns.CheckDoesNotGuard` | packages/api/internal/handlers/template_start_build_v2.go:104-157 | from any state in which a handler's check passes, a registration of the same template and tag can fail the build before the statement writes its columns |
| `Registrations.RegistrationCommits` | packages/api/internal/template/register_build.go:150-383 | in every interleaving a registration that commits leaves for every tag of the request an assignment of its build under exactly that tag and adds no other assignment; its build is waiting and tracked with team, template and tags; the env row is new, of the team and found by id, or the old one with one more build; the template owns the name asked for, a name it adds is renamable, and of the names there were only renamable ones of its own are gone |
| `Registrations.TaggingCommits` | packages/api/internal/handlers/template_tags.go:78-156 | a tagging that commits leaves for every tag an assignment of the build under exactly that tag, and changes nothing else at all |
| `Registrations.TaggedBuildResolves` | packages/api/internal/handlers/template_tags.go:78-156 | tag, then ask: once a tagging with the newest times has committed, asking a live template for any of its tags answers the build, if that is ready |
| `Registrations.NameWasNoTemplateId` | packages/api/internal/template/register_build.go:252-274 | over every run a registration past its name check, and so any that commits with a name, saw a state in which no template has that name for its id |
| `Registrations.EnvKeepsTeamAndSource` | packages/db/queries/create_template.sql.go:15-34 | over every run an env keeps its team and its source for ever, whoever registers builds for it |
| `Registrations.PausedEnvIsNoTemplate` | packages/db/queries/create_new_snapshot.sql.go:16-26 | the env a first pause makes is never returned as a template, in any later state |
| `Registrations.TagDeletionRemoves` | packages/db/queries/delete_template_build_assignment.sql.go:12-26 | removes exactly the rows of that template under those tags |
| `RequestEffects.OnlyUnstartedBuildsFail` | packages/db/queries/create_template.sql.go:112-136 | in every interleaving an existing build whose row a registration changes ends failed, and in some state of the run it was unstarted and assigned to this template under one of the tags of the request |
| `RequestEffects.RenamingReleasesOldNames` | packages/db/queries/delete_old_aliases.sql.go:12-20 | a registration under a name nobody has at its commit takes away every renamable name the template had all the while, and makes the new name its own |
| `RequestEffects.KnownNameChangesNothing` | packages/api/internal/template/register_build.go:274-333 | if the name is taken all the while, a registration under it commits only for its owner, and then no name changes |
| `RequestEffects.DeletedByOwnTeam` | packages/db/queries/delete_template.sql.go:52-70 | over every run a delete that commits is asked for by the team that owns the template, and changes no other env row |
| `RequestEffects.SnapshotTemplateIsFound` | packages/db/queries/create_snapshot_template_env.sql.go:14-40 | a snapshot template that was made belongs to its team and is found by id until it is deleted; right after, a tag is answered iff it is the one given, and with the build given, which has to be ready |
| `RequestEffects.AssignedSnapshotResolves` | packages/api/internal/orchestrator/snapshot_template.go:151-167 | assign, then ask: a ready build assigned with a newest time is the answer for its tag |
| `TagResolution.PlainTagResolves` | packages/db/queries/get_template_with_build_by_tag.sql.go:12-36 | on the columns: a build is the answer for a tag iff it is the build of an assignment of the live template under exactly that tag, is ready, and no ready assignment under that tag is newer |
| `TagResolution.NoTagResolves` | packages/db/queries/get_template_with_build_by_tag.sql.go:12-36 | the same under the tag default when none is given |
| `TagResolution.UuidTagResolves` | packages/db/queries/get_template_with_build_by_tag.sql.go:12-36 | the same over the assignments under the text or of the build it denotes |
| `TagResolution.TemplateByIdIs` | packages/db/queries/get_template.sql.go:44-49 | found iff the row is there, not soft-deleted and not the env of a paused sandbox |
| `TagResolution.TemplateByAliasIs` | packages/db/queries/get_template.sql.go:14-21 | found iff the name belongs to such a template |
| `TagResolution.StatusGroups` | packages/db/migrations/20260210120002_add_status_group_column.sql:6-16 | which statuses are pending, in progress and ready |
| `Snapshots.LastSnapshotMovesForward` | packages/db/queries/get_last_snapshot.sql.go:12-34 | while no step takes an answer away, a sandbox with an answer keeps one, and the answer only moves forward in time |
| `Snapshots.StepKeepsAnswersIff` | packages/db/queries/get_last_snapshot.sql.go:16-24 | a step removes a candidate answer iff it is the commit of the env's deletion, a non-ready status on a candidate's build, or the deletion of the default tag |
| `Snapshots.UnfinishedPauseHidesNothing` | packages/api/internal/orchestrator/pause_instance.go:36-82 | a pause that is not ready yet changes no sandbox's candidates |
| `Snapshots.FailedPauseHidesNothing` | packages/api/internal/orchestrator/pause_instance.go:36-82 | a pause that ends in failure leaves the candidates as they were before it |
| `Snapshots.ReadyPauseIsAnswered` | packages/db/queries/get_last_snapshot.sql.go:12-34 | after any history, once a pause's build is ready and its env live, the answer is at least as new as that pause, and is that build unless another ready row is as new |
| `TagResolution.LastSnapshotIs` | packages/db/queries/get_last_snapshot.sql.go:12-34 | on the columns: an answer is a newest assignment under the default tag, of the live env the sandbox is snapshotted in, whose build is ready |
| `ExclusiveBuilds.ExclusiveBuildsAreSafe` | packages/db/queries/get_exclusive_builds_for_template_deletion.sql.go:14-24 | deleting any of the reported builds leaves tag and build-id resolution and the assignments of every other template unchanged and no assignment without its build; a build of the template that is not reported is assigned elsewhere |
| `ExclusiveBuilds.OthersResolveAsBeforeIff` | packages/db/queries/get_exclusive_builds_for_template_deletion.sql.go:14-24 | a set of builds can go without changing what any tag or build id resolves to for another template iff no other live template serves one of them |
| `ExclusiveBuilds.SuccessiveDeletions` | packages/db/queries/get_exclusive_builds_for_template_deletion.sql.go:14-24 | deleting the exclusive builds of several templates in turn harms no template outside |
| `TemplateDatabase.Database.SoftDeleteTemplate` | packages/db/queries/delete_template.sql.go:52-70 | waits or takes the model's step; finds a row iff the template is live and owned by the team |
| `TemplateDatabase.Database.ReleaseTemplateAliases` | packages/db/queries/delete_template.sql.go:26-50 | waits or takes the step; returns one cache key per alias row the transaction saw of the template |
| `TemplateDatabase.Database.DeleteActiveTemplateBuilds` | packages/db/queries/delete_template.sql.go:14-24 | waits or takes the step |
| `TemplateDatabase.Database.DeleteTemplate` | packages/api/internal/handlers/template_delete.go:26-55 | the whole delete with nobody else at work: exactly the template's env row, aliases and tracking rows change and the released keys are returned; nothing at all if it is not a live template of the team |
| `TemplateDatabase.Database.CreateOrUpdateTemplate` | packages/db/queries/create_template.sql.go:15-34 | waits or takes the step; returns a row iff the template is not deleted |
| `TemplateDatabase.Database.InvalidateUnstartedTemplateBuilds` | packages/db/queries/create_template.sql.go:112-136 | fails exactly the builds that are pending and assigned to the template under one of the tags, with their tracking rows, and no other build row |
| `TemplateDatabase.Database.CreateActiveTemplateBuild` | packages/db/queries/active_template_builds.sql.go:14-43 | starts tracking unless the build is tracked already, and then the registration may commit |
| `TemplateDatabase.Database.CreateTemplateBuildAssignment` | packages/db/queries/create_template_build_assignment.sql.go:14-38 | in a registration or a tagging: one row iff the transaction sees the template live, which is then the row of this template, build and next tag, and a lock on the template is held; a tagging without a row gives up, a registration goes on |
| `TemplateDatabase.Database.AssignSnapshotBuild` | packages/api/internal/orchestrator/snapshot_template.go:151-167 | the same statement on its own: one row iff the template is live and the build exists, and then exactly that row of template, build and tag is added |
| `TemplateDatabase.Database.UpdateTemplateBuild` | packages/db/queries/update_template.sql.go:40-84 | writes the CPU columns and leaves the status, or waits |
| `TemplateDatabase.Database.UpsertTemplateAliasIfNotExists` | packages/db/queries/upsert_alias.sql.go:12-42 | waits or takes the step; answers with the owner the name has afterwards, except when it is taken and the statement's snapshot does not show its owner |
| `TemplateDatabase.Database.UpsertSnapshot` | packages/db/queries/create_new_snapshot.sql.go:16-116 | waits or takes the step; the returned template is the snapshot's env, unchanged by a second pause; the returned build is new and assigned there; a pause that waits or is rejected changes nothing |
| `TemplateDatabase.Database.FinishTemplateBuild` | packages/db/queries/finish_template_build.sql.go:15-53 | status and tracking row change together, or the statement waits |
| `TemplateDatabase.Database.UpdateEnvBuildStatus` | packages/db/queries/update_template_build_status.sql.go:47-73 | changes build rows only, and only as the step does |
| `TemplateDatabase.CacheKeyRoundTripIff` | packages/shared/pkg/id/id.go:80-89 | SplitIdentifier reads a cache key back as the name it was made of iff there is no slash before the separator |
| `TemplateDatabase.CacheKeyInjective` | packages/db/queries/delete_template.sql.go:26-30 | two aliases without a slash never share a cache key |
| `TemplateDatabase.IdentifiersNeverCollide` | packages/shared/pkg/id/id.go:14-19 | names the service accepts have different cache keys iff they are different aliases |
| `TemplateDatabase.SlashesCollide` | packages/db/queries/delete_template.sql.go:26-30 | only the name check ensures that: with a slash in an alias two keys would collide |
| `Keyset.TraversalAscends` | packages/db/queries/get_builds_paginated.sql.go:46-53 | whatever happens to the table between fetches, the rows handed out are strictly ascending in the declared order and lie after the starting cursor |
| `Keyset.StableRowExactlyOnce` | packages/db/queries/get_builds_paginated.sql.go:46-53 | a completed traversal hands out exactly once every row present at each of its fetches |
| `Keyset.PagesAreTheWholeList` | packages/db/queries/get_snapshots_with_cursor.sql.go:46-52 | on a fixed table, for every positive limit, the traversal ends and its pages concatenate to the full ordered list after the cursor |
| `UuidText.TextOrderIsByteOrder` | packages/db/queries/get_template_with_builds.sql.go:13-21 | canonical UUID text compares exactly as the UUID's bytes do |
| `UuidText.CanonicalForm` | packages/db/queries/get_template_with_builds.sql.go:13-21 | the text has hyphens at 8, 13, 18 and 23 and two lower-case digits for each byte in order, as in section 4 of RFC 9562 |
| `Listings.ListingIsSound` | packages/db/queries/get_builds_paginated.sql.go:16-53 | for any query that cuts by its order: no row twice, every row that stays selected is returned |
| `Listings.ListingIsComplete` | packages/db/queries/get_builds_paginated.sql.go:16-53 | for any such query on a fixed database the pages are the whole selection in order |
| `Listings.TeamBuildsListing` | packages/db/queries/get_builds_paginated.sql.go:16-391 | all four team build queries: a build that keeps matching is listed, and none is listed twice |
| `Listings.TeamBuildsAreExactly` | packages/db/queries/get_builds_paginated.sql.go:16-391 | on a fixed database the pages of each of the four queries list, newest first, exactly the builds past the cursor that are of the team, have a wanted status, and have an assignment row naming an active template: any; any, for the wanted build; the wanted template; one owning the wanted alias |
| `Listings.TextCutIsUuidCut` | packages/db/queries/get_template_with_builds.sql.go:13-21 | the cursor compared as text cuts the UUID-ordered rows at exactly the right place |
| `Listings.TemplateBuildsListing` | packages/db/queries/get_template_with_builds.sql.go:13-21 | the pages list exactly the builds with an assignment row of the template past the cursor, each once, by creation time descending and then id descending, however many tags each has |
| `Listings.TemplateBuildsStay` | packages/db/queries/get_template_with_builds.sql.go:13-21 | while the database changes, a build that keeps an assignment of the template is listed, and none twice |
| `Listings.TextBuildsCut` | packages/api/internal/handlers/template_get.go:59-96 | for any cursor text the query, as the endpoint calls it, cuts the builds exactly by time and id text |
| `Listings.WithoutDistinctRepeatsIff` | packages/db/queries/get_template_with_builds.sql.go:13-21 | without DISTINCT the ordered join repeats a build iff two assignment rows past the cursor name it |
| `Listings.WithoutDistinctPageRepeats` | packages/db/queries/get_template_with_builds.sql.go:13-21 | and a build under two tags fills a page twice |
| `Listings.PagedTemplatesReverseUnpaged` | packages/db/queries/get_team_templates_with_cursor.sql.go:58-63 | the paged team listing holds the same templates as the unpaged one, each once, and is its exact reverse when creation times differ |
| `TeamTemplates.PagedRowsMatchUnpaged` | packages/db/queries/get_team_templates_with_cursor.sql.go:16-63 | the same holds for whole rows, chosen build and status included, when no tie among the newest assignments of a template of the team leaves a choice |
| `TeamTemplates.ListingsAgreeIff` | packages/db/queries/get_team_templates_with_cursor.sql.go:16-63 | and that condition is exact: the two listings hold the same rows whatever they pick iff every template of the team is settled |
| `TeamTemplates.RowIsDeterminedIff` | packages/db/queries/get_team_templates.sql.go:35-50 | a row's build and status are determined iff its newest ready default rows name one build and its newest default rows have one status |
| `TeamTemplates.RowShows` | packages/db/queries/get_team_templates.sql.go:35-50 | on the columns: a row shows the build of a newest default assignment with a ready build, none if there is none, and the status of the build of a newest default assignment, pending if there is none |
| `TeamTemplates.ListedTemplates` | packages/db/queries/get_team_templates_with_cursor.sql.go:35-63 | the templates listed are the live ones of the team with source template |
| `TeamTemplates.TiedTableDisagrees` | packages/db/queries/get_team_templates.sql.go:35-50 | a tied table for which two different builds are both right answers |
| `TeamTemplates.SnapshotTemplatesListing` | packages/db/queries/list_team_snapshot_templates.sql.go:15-64 | under any tag, sandbox and id filters a snapshot template that keeps matching is listed, and none twice |
| `TeamTemplates.ListedSnapshotTemplates` | packages/db/queries/list_team_snapshot_templates.sql.go:15-64 | what is listed, on the columns: a live snapshot template of the team that the sandbox and id filters let through, with a ready build under the wanted tag |
| `TeamTemplates.SnapshotTemplatesAreExactly` | packages/db/queries/list_team_snapshot_templates.sql.go:15-64 | on a fixed database the pages are exactly those past the cursor, newest first |
| `SandboxListing.SnapshotListing` | packages/db/queries/get_snapshots_with_cursor.sql.go:46-52 | the tuple with swapped id operands pages through the whole list, start time descending and id ascending |
| `SandboxListing.OverfetchIsExact` | packages/api/internal/handlers/sandboxes_list.go:33-85 | fetching one extra row per excluded id and filtering afterwards loses nothing |
| `SandboxListing.GetPausedSandboxes` | packages/api/internal/handlers/sandboxes_list.go:33-85 | the fetched, filtered and trimmed rows are the page a query excluding the ids itself would return |
| `SandboxListing.MergeOfLimited` | packages/api/internal/handlers/sandboxes_list.go:206-243 | limiting one list before merging does not change the first rows of the merge |
| `SandboxListing.SandboxListIsSound` | packages/api/internal/handlers/sandboxes_list.go:153-246 | under one clock the merged list of running, pausing and paused sandboxes is paged without repeats and without losing a row that stays |
| `SandboxListing.SandboxesAreExactly` | packages/api/internal/handlers/sandboxes_list.go:153-246 | while nothing changes the pages list, latest start first and smaller id first within an instant, exactly the sandboxes past the cursor that are asked for: running; pausing; stored and neither running nor pausing |
| `SandboxClocks.CutsDifferIff` | packages/db/queries/get_snapshots_with_cursor.sql.go:46-52 | the cursor cut to microseconds drops exactly the rows of the cursor's own microsecond whose id does not follow the cursor's, when the cursor is not a whole microsecond |
| `SandboxClocks.PagesAreExactIff` | packages/api/internal/handlers/sandboxes_list.go:153-246 | the two clocks give the pages of one iff the request drops no such row |
| `SandboxClocks.ExactTraversalIsSound` | packages/api/internal/handlers/sandboxes_list.go:153-246 | a traversal none of whose requests drops a row repeats nothing and loses no row that stays |
| `SandboxClocks.PausedOnlyIsExact` | packages/api/internal/handlers/sandboxes_list.go:153-246 | a list of stored sandboxes alone, from a whole microsecond on, is such a traversal |
| `SandboxClocks.PausedRunnerIsRepeatedIff` | packages/api/internal/handlers/sandboxes_list.go:153-246 | a sandbox listed as running and paused before a later fetch is fetched again iff the cursor passed it within its microsecond, at an id before its own |
| `SandboxClocks.StoredSandboxIsNeverListed` | packages/api/internal/handlers/sandboxes_list.go:153-246 | a stored sandbox present all the time that a complete traversal does not show |
| `SandboxListing.CanRepeatIff` | packages/db/queries/get_snapshots_with_cursor.sql.go:46-52 | over any history of table versions some fetch times, cursor and limit list a sandbox twice iff some sandbox started earlier in a later version and was not the last row of the earlier one |
| `SandboxListing.SnapshotsCanRepeatIff` | packages/db/queries/get_snapshots_with_cursor.sql.go:46-52 | the same for the snapshot query |
| `SandboxListing.SandboxesCanRepeatIff` | packages/api/internal/handlers/sandboxes_list.go:153-246 | the same for the endpoint's merged list of running, pausing and paused sandboxes |
| `SandboxListing.NoSandboxTwice` | packages/api/internal/handlers/sandboxes_list.go:153-246 | in particular no traversal of the merged list shows a sandbox twice if later fetches never show an earlier start time |
| `SandboxListing.MovedSandboxAppearsTwice` | packages/db/queries/create_new_snapshot.sql.go:57-64 | without that a sandbox can appear twice |
| `Pagination.CursorRoundTripIff` | packages/api/internal/utils/sandboxes_list.go:61-78 | a token is read back as the row it was written for iff the id has no separator in it, and is refused otherwise |
| `Pagination.AlphanumericRoundTrip` | packages/shared/pkg/id/id.go:28-39 | ids the service generates or accepts always round-trip |
| `Pagination.TokensFollowRows` | packages/api/internal/utils/pagination.go:13-133 | if the rows returned on the fetched databases have no separator in their ids, sending back the tokens is the same as paging by row |
| `Pagination.SandboxTokens` | packages/api/internal/handlers/sandboxes_list.go:153-246 | following the tokens of the sandbox list over alphanumeric ids: ascending, nothing twice, every row that stays |
| `Pagination.SnapshotTokens` | packages/db/queries/get_snapshots_with_cursor.sql.go:46-52 | the same for the snapshot query |
| `Pagination.SnapshotTemplateTokens` | packages/api/internal/handlers/snapshot_template_list.go:42-130 | the same for snapshot templates under any filter |
| `Pagination.TeamTemplateTokens` | packages/api/internal/handlers/templates_list_v2.go:43-70 | the same for team templates |
| `Pagination.TemplateBuildTokens` | packages/api/internal/handlers/template_get.go:59-96 | the same for a template's builds, whose tokens carry build ids |
| `Pagination.Pagination.ProcessResults` | packages/api/internal/utils/pagination.go:93-116 | shows a prefix of at most the limit, everything if it is shorter, and leaves a token for its last row iff there is more |
| `Pagination.NewPagination` | packages/api/internal/utils/pagination.go:47-69 | the limit is the given or else the default one, but at most the maximum; a bad token is refused, a missing or empty one starts at now |
| `Instances.StatusAfterOutcomes` | packages/api/internal/clusters/instance.go:121-175 | after any outcomes with a report among them: Unhealthy iff three or more failures follow the last report, else what it said; roles and machine as last reported |
| `Instances.Instance.Sync` | packages/api/internal/clusters/instance.go:121-175 | keeps counter, status, roles, machine and both cached flags what the whole outcome history implies |
| `Instances.NewInstance` | packages/api/internal/clusters/instance.go:68-116 | an instance is handed out iff its first sync succeeded |
| `Instances.Cluster.GetAvailableTemplateBuilder` | packages/api/internal/clusters/cluster.go:218-260 | whatever the shuffle draws, an instance is found iff the pool has one that, with fewer than three failures since, last reported itself healthy, a template builder, and on the expected CPU if one is asked for; and the one found is such |
| `Instances.CanBuildIffWanted` | packages/api/internal/clusters/cluster.go:236-260 | the cached fields the search tests say exactly that of the whole outcome history |
| `Instances.ShuffledPermutes` | packages/api/internal/clusters/cluster.go:224-225 | the shuffle permutes the instances |
| `Instances.AnyoneCanComeFirst` | packages/api/internal/clusters/cluster.go:224-225 | for every instance some draw puts it first, so none is starved by the search order |
| `InstancePool.RunKeepsLedger` | packages/shared/pkg/synchronization/synchronization.go:93-159 | every interleaving of every round's goroutines keeps the client ledger balanced |
| `InstancePool.ClientsAreHeldOrClosed` | packages/api/internal/clusters/instance.go:77-116 | between rounds each client ever created is open and held by exactly one entry, stored under its NodeID, or was closed exactly once and is held by none; failed creations are closed |
| `InstancePool.RoundLosesNoClientIff` | packages/api/internal/clusters/instances_sync.go:53-80 | a round can lose a client iff the source names an unpooled node twice |
| `InstancePool.DoubleDiscoveryLosesClient` | packages/api/internal/clusters/instances_sync.go:53-80 | the interleaving that loses it |
| `InstancePool.LostForever` | packages/api/internal/clusters/cluster.go:170-192 | a lost client is never closed, not even by closing the cluster |
| `ClusterClose.CloseLeavesNoneOpenIff` | packages/api/internal/clusters/cluster.go:170-192 | whichever way the round in progress goes on after Close, every client ends up closed exactly once iff that round can create, insert or close nothing any more |
| `ClusterClose.CloseBetweenRounds` | packages/api/internal/clusters/cluster.go:170-192 | closing between rounds of any run leaves every client closed exactly once |
| `ClusterClose.SyncAfterCloseIff` | packages/api/internal/clusters/cluster.go:288-293 | a round started after Close keeps it so iff the source adds no node and announces every pooled identifier |
| `ClusterClose.CloseDuringRoundLeavesOpen` | packages/api/internal/clusters/cluster.go:170-192 | closing while a goroutine holds a client leaves it open in the pool |
| `PoolConvergence.RoundRefinesSpec` | packages/shared/pkg/synchronization/synchronization.go:93-159 | every interleaving of a round with successful creations has the effect of the sequential round |
| `PoolConvergence.ConvergesIff` | packages/api/internal/clusters/instances_sync.go:33-98 | with one item per node, from any pool, the pool equals the source after two and any more rounds iff no pooled identifier is announced for another node |
| `PoolConvergence.TwoSyncRoundsConverge` | packages/api/internal/clusters/instances_sync.go:33-98 | the same for two rounds of interleaved goroutines |
| `PoolConvergence.OneIdentityConvergesAtOnce` | packages/api/internal/clusters/clusters_sync.go:191-273 | the cluster pool, which tests one identity throughout, equals the source after one round |
| `Shutdown.ShutdownIsOrderly` | packages/api/main.go:332-600 | in every interleaving health is down before anything drains, the profiler is stopped after the servers, each cleanup starts at most once, only after every Serve call and the drain have ended, all have run at exit, the root context is cancelled only then, and the exit code counts the failures |
| `Shutdown.TriggerLeadsToExit` | packages/api/main.go:446-600 | after a signal or a Serve call returning, a run in which no goroutine can move has exited, and no run has more than 2 * cleanups + 23 process steps |
| `Shutdown.SomeoneCanMove` | packages/api/main.go:446-600 | once triggered, until exit some goroutine can move: no deadlock |
| `Shutdown.CleanExitMeansNoRequestCutOff` | packages/api/main.go:550-557 | exit code 0 implies that no HTTP request the server tracks was in flight when the root context was cancelled |
| `Shutdown.CleanExitCanCutOffHijacked` | packages/shared/pkg/httpserver/h2c.go:17-40 | requests on connections the h2c handler took over are not tracked: a run that exits with code 0 and cuts one off |
| `Shutdown.NoTriggerNoShutdown` | packages/api/main.go:526-536 | without a signal and without one of the three Serve calls returning nothing is drained or cleaned up and health stays up |
| `TeamMetrics.RatesAddUpToTotal` | packages/clickhouse/pkg/team.go:20-55 | rate times step summed over the rows is the total of all created samples in range |
| `TeamMetrics.RowsCoverTheirSteps` | packages/clickhouse/pkg/team.go:20-55 | every row stands at a multiple of the step, rate times step is the sum of exactly the created samples within the step that begins there, and the concurrency is the cut maximum of exactly the gauge samples within it, zero without any; the steps of the rows are disjoint and every sample lies in one of them |
| `TeamMetrics.BetweenKeeps` | packages/clickhouse/pkg/team.go:20-55 | the range keeps exactly the samples from start to end, both included, with their multiplicity |
| `TeamMetrics.ToIntCuts` | packages/clickhouse/pkg/team.go:20-55 | the integer column is the value cut towards zero |
| `TeamMetrics.MaxStartRateIsTopRowIff` | packages/clickhouse/pkg/team.go:90-106 | the row at the answered time shows the answered rate, which is the greatest of all rows iff it is not negative or no row lacks created samples |
| `TeamMetrics.MaxConcurrentIsTopRowIff` | packages/clickhouse/pkg/team.go:141-149 | the row whose bucket holds the answered time shows the answered maximum cut to an integer, the greatest of all rows iff it is not negative or no row lacks gauge samples |
| `TeamMetrics.PeakIsTopRowIff` | packages/clickhouse/pkg/team.go:20-149 | the greatest concurrency of the rows equals the answered peak iff the peak is integral, and not negative or no row lacks gauge samples |
| `TeamMetrics.FractionalPeakIsCut` | packages/clickhouse/pkg/team.go:20-149 | a peak of 1.5 shows as 1 in the rows |
| `TeamMetrics.QueriesAgree` | packages/clickhouse/pkg/team.go:20-149 | for non-negative samples the three queries over one range agree |
| `LogWindow.LogQueryWindow` | packages/api/internal/clusters/resources.go:33-65 | without a cursor the last seven days; forward from a cursor inside the retention exactly the seven days after it, backward at most the seven days before it and nothing after it; older cursors are moved to the oldest instant; oldest <= start <= end, width at most seven days, and the last clamp never fires |
| `LogWindow.WindowsAgree` | packages/api/internal/clusters/resources_local.go:249-273 | windows from two clock readings differ at each end by at most the elapsed time |
| `LogWindow.WindowsEqualIff` | packages/api/internal/clusters/resources_local.go:249-273 | they are equal iff the clock stood still or the cursor keeps the start inside the retention |
| `LogWindow.GetBuildLogsWithSources` | packages/api/internal/clusters/resources.go:183-240 | the first source that succeeds answers and no later one is asked; else the last failure; with no source nothing; the pooled builder answers before the persistent logs, which answer when it fails or is absent, and alone when only they are asked for |
| `LogWindow.SourceOrder` | packages/api/internal/clusters/resources.go:205-224 | the builder's temporary logs come first, then the persistent ones; asking for one kind leaves out the other |
| `LogWindow.SilentlyEmptyIff` | packages/api/internal/clusters/resources.go:183-240 | neither entries nor an error iff only temporary logs are asked for and the builder is not pooled |

## Left out

- UpdateTemplateBuild: only its CPU columns; the commands, dockerfile and node it also writes are read by no modelled statement.
- Columns no modelled statement reads or branches on: metadata, config, disk and memory sizes, names, spawn counts, `updated_at`.
- Postgres effects beyond row locks and the two stale reads named above: deadlock detection, serialization failures, the snapshot of a statement that did not wait.
- The `snapshot_templates` row that CreateSnapshotTemplateEnv inserts with its env and assignment: only the listing of snapshot templates reads it.
- Hard deletion of envs and the volumes, team member, origin node and spawn count queries: single-row statements that one reading settles.
- The loops that scan result rows one by one into a slice: a query's answer is the list, except for the alias keys, which are collected by a loop.
- `getPausedSandboxes` filters its slice in place; the model builds a new sequence, so reuse of the backing array is not captured.
- Base64 and the RFC 3339 text of a time: a time is an integer and its text is read back as written.
- Panics: the deferred `wg.Wait` of `run()` is modelled only on the normal path.
- Shutdown of the other services, and `Pool.Close` over several clusters: shorter linear forms of what is modelled.
- `GetSandboxDomain`, `GetTemplateBuilderByNodeID`, `GetOrchestrators`, `GetTemplateBuilders` and the direction converters: one reading settles them.
- TeamMetrics.QueriesAgree: exact numbers instead of Float32 division, and no answer of a maximum query when there are no samples.
