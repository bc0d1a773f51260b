/**
 One orchestrator or builder instance: what its cached status and roles say after any sequence of
 sync outcomes, and how a cluster picks a builder from its instances.
 */
module Instances {
  import opened TemplateTables

  datatype Status = Healthy | Draining | Unhealthy | Standby

  datatype Role = TemplateBuilder | Orchestrator

  datatype Machine = Machine(architecture: string, family: string, model: string)

  const NO_MACHINE := Machine("", "", "")

  /** What the ServiceInfo call came back with. */
  datatype Outcome =
    | Failure
    | Report(status: Status, roles: seq<Role>, machine: Machine, changedAt: Option<int>, serviceId: string)

  const MAX_SYNC_FAILURES := 3

  /** Failures since the last report. */
  function TrailingFailures(history: seq<Outcome>): nat {
    if history == [] || history[|history| - 1].Report? then 0
    else 1 + TrailingFailures(history[..|history| - 1])
  }

  function LastReport(history: seq<Outcome>): Option<Outcome> {
    if history == [] then None
    else if history[|history| - 1].Report? then Some(history[|history| - 1])
    else LastReport(history[..|history| - 1])
  }

  /** Unhealthy after three failures in a row, else what the instance last said of itself. */
  function ExpectedStatus(history: seq<Outcome>): Status {
    if TrailingFailures(history) >= MAX_SYNC_FAILURES then Unhealthy
    else match LastReport(history)
      case Some(Report(status, _, _, _, _)) => status
      case _ => Healthy // the zero value
  }

  function ExpectedRoles(history: seq<Outcome>): seq<Role> {
    match LastReport(history)
    case Some(Report(_, roles, _, _, _)) => roles
    case _ => []
  }

  function ExpectedMachine(history: seq<Outcome>): Machine {
    match LastReport(history)
    case Some(Report(_, _, machine, _, _)) => machine
    case _ => NO_MACHINE
  }

  lemma HistoryAfterFailure(history: seq<Outcome>)
    ensures TrailingFailures(history + [Failure]) == TrailingFailures(history) + 1
    ensures LastReport(history + [Failure]) == LastReport(history)
  {
    assert (history + [Failure])[..|history|] == history;
  }

  lemma HistoryAfterReport(history: seq<Outcome>, report: Outcome)
    requires report.Report?
    ensures TrailingFailures(history + [report]) == 0 && LastReport(history + [report]) == Some(report)
  {
  }

  lemma {:induction false} TrailingFailuresFrom(history: seq<Outcome>, k: nat)
    ensures TrailingFailures(history) >= k
            <==> k <= |history| && forall j :: |history| - k <= j < |history| ==> history[j].Failure?
    decreases |history|
  {
    if history != [] && history[|history| - 1].Failure? && k > 0 {
      var before := history[..|history| - 1];
      TrailingFailuresFrom(before, k - 1);
      assert forall j :: 0 <= j < |before| ==> before[j] == history[j];
    }
  }

  lemma {:induction false} LastReportIs(history: seq<Outcome>, k: nat)
    requires k < |history| && history[k].Report? && forall j :: k < j < |history| ==> history[j].Failure?
    ensures LastReport(history) == Some(history[k])
    decreases |history|
  {
    if k < |history| - 1 {
      LastReportIs(history[..|history| - 1], k);
    }
  }

  /**
   For an instance that newInstance let through: the first outcome is a report.  With k the last
   report, the status is Unhealthy when three or more failures follow it, and what it said otherwise.
   */
  lemma StatusAfterOutcomes(history: seq<Outcome>, k: nat)
    requires k < |history| && history[k].Report? && forall j :: k < j < |history| ==> history[j].Failure?
    ensures ExpectedStatus(history) == (if |history| - 1 - k >= 3 then Unhealthy else history[k].status)
    ensures ExpectedRoles(history) == history[k].roles && ExpectedMachine(history) == history[k].machine
  {
    LastReportIs(history, k);
    TrailingFailuresFrom(history, 3);
  }

  /** The cached fields of an instance are what its whole outcome history implies. */
  ghost predicate Reflects(history: seq<Outcome>, failCount: nat, status: Status, roles: seq<Role>, machine: Machine,
                           isBuilder: bool, isOrchestrator: bool) {
    && failCount == TrailingFailures(history)
    && status == ExpectedStatus(history)
    && roles == ExpectedRoles(history)
    && machine == ExpectedMachine(history)
    && (isBuilder <==> TemplateBuilder in ExpectedRoles(history))
    && (isOrchestrator <==> Orchestrator in ExpectedRoles(history))
  }

  lemma ReflectsFailure(history: seq<Outcome>, n: nat, status: Status, roles: seq<Role>, machine: Machine, b: bool, o: bool)
    requires Reflects(history, n, status, roles, machine, b, o)
    ensures Reflects(history + [Failure], n + 1, if n + 1 >= MAX_SYNC_FAILURES then Unhealthy else status, roles, machine, b, o)
  {
    HistoryAfterFailure(history);
  }

  lemma ReflectsReport(history: seq<Outcome>, report: Outcome)
    requires report.Report?
    ensures Reflects(history + [report], 0, report.status, report.roles, report.machine,
                     TemplateBuilder in report.roles, Orchestrator in report.roles)
  {
    HistoryAfterReport(history, report);
  }

  class Instance {
    const uniqueIdentifier: string
    const nodeId: string
    var serviceInstanceId: string
    var status: Status
    var statusChangedAt: Option<int>
    var machine: Machine
    var roles: seq<Role>
    var isBuilder: bool
    var isOrchestrator: bool
    var syncFailCount: nat
    ghost var history: seq<Outcome>

    ghost predicate Valid()
      reads this
    {
      Reflects(history, syncFailCount, status, roles, machine, isBuilder, isOrchestrator)
    }

    constructor (uniqueIdentifier: string, nodeId: string, serviceInstanceId: string)
      ensures Valid() && history == []
      ensures this.uniqueIdentifier == uniqueIdentifier && this.nodeId == nodeId
    {
      this.uniqueIdentifier, this.nodeId, this.serviceInstanceId := uniqueIdentifier, nodeId, serviceInstanceId;
      status, statusChangedAt, machine, roles := Healthy, None, NO_MACHINE, [];
      isBuilder, isOrchestrator, syncFailCount := false, false, 0;
      history := [];
    }

    method Sync(outcome: Outcome, now: int) returns (ok: bool)
      requires Valid()
      modifies this
      ensures Valid() && history == old(history) + [outcome]
      ensures ok <==> outcome.Report?
      ensures serviceInstanceId == if ok then outcome.serviceId else old(serviceInstanceId)
      ensures statusChangedAt ==
              if ok then (if outcome.changedAt.Some? then outcome.changedAt else old(statusChangedAt))
              else if status.Unhealthy? && !old(status).Unhealthy? then Some(now) else old(statusChangedAt)
    {
      history := history + [outcome];
      match outcome {
        case Failure =>
          ReflectsFailure(old(history), syncFailCount, status, roles, machine, isBuilder, isOrchestrator);
          syncFailCount := syncFailCount + 1;
          if syncFailCount >= MAX_SYNC_FAILURES {
            if status != Unhealthy {
              status := Unhealthy;
              statusChangedAt := Some(now);
            }
          }
          ok := false;
        case Report(reported, reportedRoles, reportedMachine, changedAt, serviceId) =>
          ReflectsReport(old(history), outcome);
          syncFailCount := 0;
          if changedAt.Some? {
            statusChangedAt := changedAt;
          }
          status := reported;
          roles := reportedRoles;
          machine := reportedMachine;
          serviceInstanceId := serviceId;
          isBuilder := TemplateBuilder in roles;
          isOrchestrator := Orchestrator in roles;
          ok := true;
      }
    }
  }

  /** newInstance: an instance is handed out only after a successful first sync. */
  method NewInstance(uniqueIdentifier: string, nodeId: string, serviceInstanceId: string, first: Outcome, now: int)
    returns (r: Option<Instance>)
    ensures r.Some? <==> first.Report?
    ensures r.Some? ==> fresh(r.value) && r.value.Valid() && r.value.history == [first] && r.value.nodeId == nodeId
                        && r.value.uniqueIdentifier == uniqueIdentifier
  {
    var instance := new Instance(uniqueIdentifier, nodeId, serviceInstanceId);
    var ok := instance.Sync(first, now);
    r := if ok then Some(instance) else None;
  }

  // ---------------------------------------------------------------------------------------
  // Choosing a builder
  // ---------------------------------------------------------------------------------------

  predicate IsExactMatch(a: Machine, b: Machine) {
    a.architecture == b.architecture && a.family == b.family && a.model == b.model
  }

  /**
   The builder wanted, in terms of what the instance reported: fewer than three failures since the
   last report, which said healthy and listed the builder role, on the expected CPU if one is asked for.
   */
  ghost predicate IsWantedBuilder(history: seq<Outcome>, expected: Machine) {
    exists k :: 0 <= k < |history| && |history| - 1 - k < 3 && history[k].Report?
                && (forall j :: k < j < |history| ==> history[j].Failure?)
                && history[k].status == Healthy && TemplateBuilder in history[k].roles
                && (expected.architecture == "" || history[k].machine == expected)
  }

  lemma {:induction false} LastReportAt(history: seq<Outcome>) returns (k: nat)
    requires LastReport(history).Some?
    ensures k < |history| && history[k].Report? && forall j :: k < j < |history| ==> history[j].Failure?
    decreases |history|
  {
    if history[|history| - 1].Report? {
      k := |history| - 1;
    } else {
      k := LastReportAt(history[..|history| - 1]);
    }
  }

  /** The cached fields tell a wanted builder, given that the first sync had to succeed. */
  lemma CanBuildIffWanted(i: Instance, expected: Machine)
    requires i.Valid() && i.history != [] && i.history[0].Report?
    ensures CanBuild(i, expected) <==> IsWantedBuilder(i.history, expected)
  {
    HasReport(i.history);
    var k := LastReportAt(i.history);
    StatusAfterOutcomes(i.history, k);
    if IsWantedBuilder(i.history, expected) {
      var m :| 0 <= m < |i.history| && |i.history| - 1 - m < 3 && i.history[m].Report?
               && (forall j :: m < j < |i.history| ==> i.history[j].Failure?)
               && i.history[m].status == Healthy && TemplateBuilder in i.history[m].roles
               && (expected.architecture == "" || i.history[m].machine == expected);
      assert m == k;
    }
  }

  lemma {:induction false} HasReport(history: seq<Outcome>)
    requires history != [] && history[0].Report?
    ensures LastReport(history).Some?
    decreases |history|
  {
    if history[|history| - 1].Failure? {
      HasReport(history[..|history| - 1]);
    }
  }

  /** What getRandomInstance is asked for. */
  predicate CanBuild(i: Instance, expected: Machine)
    reads i
  {
    i.status.Healthy? && i.isBuilder && (expected.architecture != "" ==> IsExactMatch(expected, i.machine))
  }

  function Swapped<T>(s: seq<T>, i: nat, j: nat): seq<T>
    requires i < |s| && j < |s|
  {
    s[i := s[j]][j := s[i]]
  }

  /** The choices of rand.Shuffle: for position i one of the positions up to i. */
  predicate IsDraw(choices: seq<nat>, n: nat) {
    |choices| == n && forall i :: 0 <= i < n ==> choices[i] <= i
  }

  function Shuffled<T>(s: seq<T>, choices: seq<nat>, n: nat): (r: seq<T>)
    requires n <= |s| && IsDraw(choices, |s|)
    ensures |r| == |s|
    decreases n
  {
    if n < 2 then s else Shuffled(Swapped(s, n - 1, choices[n - 1]), choices, n - 1)
  }

  lemma {:induction false} ShuffledPermutes<T>(s: seq<T>, choices: seq<nat>, n: nat)
    requires n <= |s| && IsDraw(choices, |s|)
    ensures multiset(Shuffled(s, choices, n)) == multiset(s)
    decreases n
  {
    if n >= 2 {
      ShuffledPermutes(Swapped(s, n - 1, choices[n - 1]), choices, n - 1);
    }
  }

  method Shuffle(a: array<Instance>, choices: seq<nat>)
    requires IsDraw(choices, a.Length)
    modifies a
    ensures a[..] == Shuffled(old(a[..]), choices, a.Length)
  {
    var n: nat := a.Length;
    while n >= 2
      invariant n <= a.Length
      invariant Shuffled(a[..], choices, n) == Shuffled(old(a[..]), choices, a.Length)
    {
      var j := choices[n - 1];
      ghost var before := a[..];
      a[n - 1], a[j] := a[j], a[n - 1];
      assert a[..] == Swapped(before, n - 1, j);
      n := n - 1;
    }
  }

  /** Every position can end up first: the draw sends it there. */
  lemma {:induction false} AnyoneCanComeFirst<T>(s: seq<T>, k: nat, n: nat) returns (choices: seq<nat>)
    requires k < n <= |s|
    ensures IsDraw(choices, |s|) && Shuffled(s, choices, n)[0] == s[k]
    decreases n
  {
    if n < 2 {
      choices := seq(|s|, i => i);
    } else if k == n - 1 {
      var rest := AnyoneCanComeFirst(Swapped(s, n - 1, 0), 0, n - 1);
      choices := rest[n - 1 := 0];
      ShuffleIgnoresTail(Swapped(s, n - 1, 0), rest, choices, n - 1);
    } else {
      var rest := AnyoneCanComeFirst(Swapped(s, n - 1, n - 1), k, n - 1);
      choices := rest[n - 1 := n - 1];
      ShuffleIgnoresTail(Swapped(s, n - 1, n - 1), rest, choices, n - 1);
    }
  }

  lemma {:induction false} ShuffleIgnoresTail<T>(s: seq<T>, a: seq<nat>, b: seq<nat>, n: nat)
    requires n <= |s| && IsDraw(a, |s|) && IsDraw(b, |s|) && forall i :: 0 <= i < n ==> a[i] == b[i]
    ensures Shuffled(s, a, n) == Shuffled(s, b, n)
    decreases n
  {
    if n >= 2 {
      ShuffleIgnoresTail(Swapped(s, n - 1, a[n - 1]), a, b, n - 1);
    }
  }

  class Cluster {
    var instances: map<string, Instance>

    constructor (instances: map<string, Instance>)
      ensures this.instances == instances
    {
      this.instances := instances;
    }

    /** The values of the map, in whatever order it iterates. */
    method Items() returns (list: seq<Instance>)
      ensures |list| == |instances|
      ensures forall i :: i in list <==> i in instances.Values
    {
      list := [];
      var keys := instances.Keys;
      ghost var done: set<string> := {};
      while keys != {}
        invariant keys + done == instances.Keys && keys !! done && |list| == |done|
        invariant forall i :: i in list <==> exists k :: k in done && instances[k] == i
        decreases |keys|
      {
        var k :| k in keys;
        list := list + [instances[k]];
        done := done + {k};
        keys := keys - {k};
      }
      assert done == instances.Keys;
    }

    /** The pooled instances are ones NewInstance handed out. */
    ghost predicate Valid()
      reads this, instances.Values
    {
      forall i :: i in instances.Values ==> i.Valid() && i.history != [] && i.history[0].Report?
    }

    /** Whatever the shuffle draws, a builder is found exactly when the pool has one. */
    method GetAvailableTemplateBuilder(expected: Machine, choices: seq<nat>) returns (r: Option<Instance>)
      requires Valid() && IsDraw(choices, |instances|)
      ensures r.Some? <==> exists i :: i in instances.Values && IsWantedBuilder(i.history, expected)
      ensures r.Some? ==> r.value in instances.Values && IsWantedBuilder(r.value.history, expected)
    {
      r := GetRandomInstance(expected, choices);
      forall i | i in instances.Values ensures CanBuild(i, expected) <==> IsWantedBuilder(i.history, expected) {
        CanBuildIffWanted(i, expected);
      }
    }

    /** getRandomInstance with the match GetAvailableTemplateBuilder asks for. */
    method GetRandomInstance(expected: Machine, choices: seq<nat>) returns (r: Option<Instance>)
      requires IsDraw(choices, |instances|)
      ensures r.Some? <==> exists i :: i in instances.Values && CanBuild(i, expected)
      ensures r.Some? ==> r.value in instances.Values && CanBuild(r.value, expected)
    {
      var list := Items();
      r := None;
      if list != [] {
        var a := new Instance[|list|](i requires 0 <= i < |list| => list[i]);
        assert a[..] == list;
        Shuffle(a, choices);
        ShuffledPermutes(list, choices, |list|);
        SameElements(a[..], list);
        for i := 0 to a.Length
          invariant forall k :: 0 <= k < i ==> !CanBuild(a[k], expected)
        {
          if CanBuild(a[i], expected) {
            assert a[i] in a[..];
            r := Some(a[i]);
            return;
          }
        }
        forall i | i in instances.Values ensures !CanBuild(i, expected) {
          assert i in a[..];
        }
      }
    }
  }

  lemma SameElements<T>(a: seq<T>, b: seq<T>)
    requires multiset(a) == multiset(b)
    ensures forall x :: x in a <==> x in b
  {
    forall x ensures x in a <==> x in b {
      assert x in a <==> x in multiset(a);
      assert x in b <==> x in multiset(b);
    }
  }
}
