/**
 The read queries on the table fields: which template, which build and which snapshot they answer with.
 */
module TagResolution {
  import opened TemplateTables
  import opened Snapshots

  /** The status groups the trigger assigns. */
  lemma StatusGroups(status: BuildStatus)
    ensures Group(status) == PendingGroup <==> status in {Pending, Waiting}
    ensures Group(status) == InProgressGroup <==> status in {InProgress, Building, Snapshotting}
    ensures Group(status) == ReadyGroup <==> status in {Ready, Uploaded, Success}
  {
  }

  /** A template the queries may return: not soft-deleted, and not the env of a paused sandbox. */
  predicate IsLiveTemplate(t: Tables, e: EnvId) {
    e in t.envs && !t.envs[e].deleted && t.envs[e].source != SnapshotSource
  }

  lemma TemplateByIdIs(t: Tables, e: EnvId)
    ensures GetTemplateById(t, e) == if IsLiveTemplate(t, e) then Some(e) else None
  {
  }

  lemma TemplateByAliasIs(t: Tables, key: AliasKey, e: EnvId)
    ensures GetTemplateByAlias(t, key) == Some(e) <==> key in t.aliases && t.aliases[key].env == e && IsLiveTemplate(t, e)
  {
  }

  predicate IsReadyBuild(t: Tables, b: BuildId) {
    b in t.builds && t.builds[b].status in {Ready, Uploaded, Success}
  }

  /** An assignment of e under the tag whose build is ready. */
  predicate IsReadyUnder(t: Tables, e: EnvId, tag: Tag, a: Assignment) {
    a in t.assignments && a.env == e && a.tag == tag && IsReadyBuild(t, a.build)
  }

  /** An assignment of e under the tag, or of the build, whose build is ready. */
  predicate IsReadyUnderOrOf(t: Tables, e: EnvId, tag: Tag, b: BuildId, a: Assignment) {
    a in t.assignments && a.env == e && (a.tag == tag || a.build == b) && IsReadyBuild(t, a.build)
  }

  lemma ReadyBuildIs(t: Tables, b: BuildId)
    ensures HasGroup(t, b, ReadyGroup) <==> IsReadyBuild(t, b)
  {
    if b in t.builds {
      StatusGroups(t.builds[b].status);
    }
  }

  lemma CandidateIs(t: Tables, e: EnvId, p: TagParam, a: Assignment)
    ensures a in TagCandidates(t, e, p) <==>
            IsLiveTemplate(t, e) &&
            match p
            case NoTag => IsReadyUnder(t, e, "default", a)
            case PlainTag(tag) => IsReadyUnder(t, e, tag, a)
            case UuidTag(tag, b) => IsReadyUnderOrOf(t, e, tag, b, a)
  {
    ReadyBuildIs(t, a.build);
    TemplateByIdIs(t, e);
  }

  /** b is the build of a newest ready assignment of the live template under the tag. */
  ghost predicate IsNewestUnder(t: Tables, e: EnvId, tag: Tag, b: BuildId) {
    IsLiveTemplate(t, e) &&
    exists a :: IsReadyUnder(t, e, tag, a) && a.build == b && forall o :: IsReadyUnder(t, e, tag, o) ==> o.createdAt <= a.createdAt
  }

  lemma PlainTagResolves(t: Tables, e: EnvId, tag: Tag, b: BuildId)
    ensures ResolvesTo(t, e, PlainTag(tag), b) <==> IsNewestUnder(t, e, tag, b)
  {
    forall a: Assignment
      ensures a in TagCandidates(t, e, PlainTag(tag)) <==> IsLiveTemplate(t, e) && IsReadyUnder(t, e, tag, a)
    {
      CandidateIs(t, e, PlainTag(tag), a);
    }
  }

  lemma NoTagResolves(t: Tables, e: EnvId, b: BuildId)
    ensures ResolvesTo(t, e, NoTag, b) <==> IsNewestUnder(t, e, "default", b)
  {
    forall a: Assignment
      ensures a in TagCandidates(t, e, NoTag) <==> IsLiveTemplate(t, e) && IsReadyUnder(t, e, "default", a)
    {
      CandidateIs(t, e, NoTag, a);
    }
  }

  /** A text that is also a build id matches by either; the newest of both kinds answers. */
  lemma UuidTagResolves(t: Tables, e: EnvId, tag: Tag, id: BuildId, b: BuildId)
    ensures ResolvesTo(t, e, UuidTag(tag, id), b) <==>
            && IsLiveTemplate(t, e)
            && exists a :: IsReadyUnderOrOf(t, e, tag, id, a) && a.build == b
                           && forall o :: IsReadyUnderOrOf(t, e, tag, id, o) ==> o.createdAt <= a.createdAt
  {
    forall a: Assignment
      ensures a in TagCandidates(t, e, UuidTag(tag, id)) <==> IsLiveTemplate(t, e) && IsReadyUnderOrOf(t, e, tag, id, a)
    {
      CandidateIs(t, e, UuidTag(tag, id), a);
    }
  }

  /**
   GetLastSnapshot answers with a newest assignment under the default tag, of the live env the
   sandbox is snapshotted in, whose build is ready.
   */
  lemma LastSnapshotIs(t: Tables, sb: SandboxId, a: Assignment)
    ensures IsLastSnapshot(t, sb, a) <==>
            && sb in t.snapshots && t.snapshots[sb].env in t.envs && !t.envs[t.snapshots[sb].env].deleted
            && IsReadyUnder(t, t.snapshots[sb].env, "default", a)
            && forall o :: IsReadyUnder(t, t.snapshots[sb].env, "default", o) ==> o.createdAt <= a.createdAt
  {
    if sb in t.snapshots {
      forall o: Assignment
        ensures o in SnapshotRows(t, sb)
                <==> IsActiveEnv(t, t.snapshots[sb].env) && IsReadyUnder(t, t.snapshots[sb].env, "default", o)
      {
        ReadyBuildIs(t, o.build);
      }
    }
  }
}
