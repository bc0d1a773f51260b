/**
 GetExclusiveBuildsForTemplateDeletion: which builds may be deleted with a template without any
 other template noticing.
 */
module ExclusiveBuilds {
  import opened TemplateTables

  /** Builds assigned to e, under whatever tags, and to no other template. */
  function GetExclusiveBuilds(t: Tables, e: EnvId): set<BuildId> {
    set a | a in t.assignments && a.env == e && a.build in t.builds
            && (forall o | o in t.assignments :: o.build == a.build ==> o.env == e) :: a.build
  }

  /** Deleting build rows; the foreign key of env_build_assignments cascades. */
  function DeleteBuilds(t: Tables, doomed: set<BuildId>): Tables {
    t.(builds := t.builds - doomed,
       assignments := set a | a in t.assignments && a.build !in doomed)
  }

  /** Every tag and every build id resolves for e as before, through the same candidate rows. */
  ghost predicate ResolvesAsBefore(t: Tables, t': Tables, e: EnvId) {
    forall p :: TagCandidates(t', e, p) == TagCandidates(t, e, p)
  }

  /** The foreign key of env_build_assignments on env_builds. */
  ghost predicate RowsHaveBuild(t: Tables) {
    forall a :: a in t.assignments ==> a.build in t.builds
  }

  /** Some template other than e hands out build b. */
  ghost predicate ServesElsewhere(t: Tables, e: EnvId, b: BuildId) {
    exists a :: a in t.assignments && a.build == b && a.env != e && GetTemplateById(t, a.env).Some? && HasGroup(t, b, ReadyGroup)
  }

  /** Every tag and build id resolves for e to the same builds as before. */
  ghost predicate AnswersAsBefore(t: Tables, t': Tables, e: EnvId) {
    forall p, b :: ResolvesTo(t', e, p, b) <==> ResolvesTo(t, e, p, b)
  }

  /** A tag no assignment has, as the text of a build id is: tags may not be UUIDs. */
  lemma {:induction false} UnusedTag(rows: set<Assignment>) returns (tag: Tag)
    ensures forall a :: a in rows ==> |a.tag| < |tag|
  {
    if rows == {} {
      tag := "";
    } else {
      var x :| x in rows;
      var rest := UnusedTag(rows - {x});
      tag := if |x.tag| < |rest| then rest else x.tag + "-";
      assert forall a :: a in rows ==> a == x || a in rows - {x};
    }
  }

  /** Asked for by its id, a served build is the answer, and after its deletion it is not. */
  lemma ServedBuildIsMissed(t: Tables, e: EnvId, doomed: set<BuildId>, b: BuildId)
    requires b in doomed && ServesElsewhere(t, e, b)
    ensures exists o :: o != e && !AnswersAsBefore(t, DeleteBuilds(t, doomed), o)
  {
    var a :| a in t.assignments && a.build == b && a.env != e && GetTemplateById(t, a.env).Some? && HasGroup(t, b, ReadyGroup);
    var tag := UnusedTag(t.assignments);
    var p := UuidTag(tag, b);
    var rows, t' := TagCandidates(t, a.env, p), DeleteBuilds(t, doomed);
    assert a in rows && forall o :: o in rows ==> o.build == b;
    NewestExists(rows);
    var best :| best in rows && IsNewest(rows, best);
    assert ResolvesTo(t, a.env, p, b);
    assert forall o :: o in TagCandidates(t', a.env, p) ==> o.build != b;
    assert !ResolvesTo(t', a.env, p, b);
    assert !AnswersAsBefore(t, t', a.env);
  }

  lemma UnservedBuildsAreNotMissed(t: Tables, e: EnvId, doomed: set<BuildId>, o: EnvId)
    requires o != e && forall b :: b in doomed ==> !ServesElsewhere(t, e, b)
    ensures ResolvesAsBefore(t, DeleteBuilds(t, doomed), o)
  {
    var t' := DeleteBuilds(t, doomed);
    forall p ensures TagCandidates(t', o, p) == TagCandidates(t, o, p) {
      forall a | a in TagCandidates(t, o, p) ensures a in TagCandidates(t', o, p) {
        assert a.build !in doomed;
      }
    }
  }

  lemma SameCandidatesSameAnswers(t: Tables, t': Tables, o: EnvId)
    requires ResolvesAsBefore(t, t', o)
    ensures AnswersAsBefore(t, t', o)
  {
    forall p, b ensures ResolvesTo(t', o, p, b) <==> ResolvesTo(t, o, p, b) {
      assert TagCandidates(t', o, p) == TagCandidates(t, o, p);
    }
  }

  /** Exactly the builds no other template serves can go without changing any other template's answers. */
  lemma OthersResolveAsBeforeIff(t: Tables, e: EnvId, doomed: set<BuildId>)
    ensures (forall o :: o != e ==> AnswersAsBefore(t, DeleteBuilds(t, doomed), o))
            <==> forall b :: b in doomed ==> !ServesElsewhere(t, e, b)
  {
    if b :| b in doomed && ServesElsewhere(t, e, b) {
      ServedBuildIsMissed(t, e, doomed, b);
    } else {
      forall o | o != e ensures AnswersAsBefore(t, DeleteBuilds(t, doomed), o) {
        UnservedBuildsAreNotMissed(t, e, doomed, o);
        SameCandidatesSameAnswers(t, DeleteBuilds(t, doomed), o);
      }
    }
  }

  /**
   Deleting all exclusive builds of e, or any of them, leaves tag and build-id resolution of every
   other template unchanged and all its assignments in place, and leaves no assignment without its
   build; and no build of e outside the reported set could be added while some other template serves it.
   */
  lemma ExclusiveBuildsAreSafe(t: Tables, e: EnvId, doomed: set<BuildId>)
    requires doomed <= GetExclusiveBuilds(t, e)
    ensures forall o :: o != e ==> AnswersAsBefore(t, DeleteBuilds(t, doomed), o)
    ensures forall a :: a in t.assignments && a.env == e && a.build in t.builds && a.build !in GetExclusiveBuilds(t, e)
                        ==> exists o :: o in t.assignments && o.build == a.build && o.env != e
    ensures forall a :: a in t.assignments && a.env != e ==> a in DeleteBuilds(t, doomed).assignments
    ensures RowsHaveBuild(t) ==> RowsHaveBuild(DeleteBuilds(t, doomed))
  {
    forall b | b in doomed ensures !ServesElsewhere(t, e, b) {
      assert b in GetExclusiveBuilds(t, e);
    }
    OthersResolveAsBeforeIff(t, e, doomed);
  }

  /** Deleting the exclusive builds of every template in turn still harms no template outside. */
  lemma {:induction false} SuccessiveDeletions(t: Tables, es: seq<EnvId>, o: EnvId)
    requires o !in es
    ensures ResolvesAsBefore(t, DeleteAll(t, es), o)
    decreases |es|
  {
    if es != [] {
      var next := DeleteBuilds(t, GetExclusiveBuilds(t, es[0]));
      UnservedBuildsAreNotMissed(t, es[0], GetExclusiveBuilds(t, es[0]), o);
      SuccessiveDeletions(next, es[1..], o);
      forall p ensures TagCandidates(DeleteAll(t, es), o, p) == TagCandidates(t, o, p) {
        assert TagCandidates(next, o, p) == TagCandidates(t, o, p);
      }
    }
  }

  function DeleteAll(t: Tables, es: seq<EnvId>): Tables
    decreases |es|
  {
    if es == [] then t else DeleteAll(DeleteBuilds(t, GetExclusiveBuilds(t, es[0])), es[1..])
  }
}
