/**
 Whatever the interleaving of its goroutines, a sync round has the effect of a sequential one; and
 exactly when the pool converges to what discovery reports.
 */
module PoolConvergence {
  import opened TemplateTables
  import opened InstancePool

  // ---------------------------------------------------------------------------------------
  // What a round does to the pool, whatever the interleaving
  // ---------------------------------------------------------------------------------------

  /** Which unique identifier is pooled under which node. */
  function View(s: Pool): map<NodeId, string> {
    map n | n in s.entries :: s.entries[n].uid
  }

  predicate DistinctNodes(source: seq<Item>) {
    forall i, j | 0 <= i < j < |source| :: source[i].node != source[j].node
  }

  function Target(source: seq<Item>): map<NodeId, string> {
    if source == [] then map[]
    else Target(source[..|source| - 1])[source[|source| - 1].node := source[|source| - 1].uid]
  }

  lemma {:induction false} TargetOf(source: seq<Item>)
    requires DistinctNodes(source)
    ensures forall i :: 0 <= i < |source| ==> source[i].node in Target(source) && Target(source)[source[i].node] == source[i].uid
    ensures forall n :: n in Target(source) ==> exists i :: 0 <= i < |source| && source[i].node == n
    decreases |source|
  {
    if source != [] {
      var rest := source[..|source| - 1];
      TargetOf(rest);
      forall n | n in Target(source) ensures exists i :: 0 <= i < |source| && source[i].node == n {
        if n in Target(rest) {
          var i :| 0 <= i < |rest| && rest[i].node == n;
          assert source[i].node == n;
        } else {
          assert source[|source| - 1].node == n;
        }
      }
    }
  }

  function Discovered(p: map<NodeId, string>, source: seq<Item>): map<NodeId, string> {
    Target(source) + p
  }

  function Round(p: map<NodeId, string>, source: seq<Item>): map<NodeId, string> {
    var found := Discovered(p, source);
    map n | n in found && found[n] in Uids(source) :: found[n]
  }

  /** Where discovery stands: absent nodes whose goroutine has ended are pooled. */
  ghost predicate DiscoveryView(p: map<NodeId, string>, source: seq<Item>, s: Pool) {
    && s.phase == Discovering(source) && DiscoverersOk(s)
    && (forall n :: n in p ==> n in s.entries && s.entries[n].uid == p[n])
    && (forall n :: n in s.entries && n !in p ==>
          exists i :: 0 <= i < |source| && source[i].node == n && OfItem(i) !in s.workers && s.entries[n].uid == source[i].uid)
    && (forall i: nat :: i < |source| && OfItem(i) !in s.workers ==> source[i].node in s.entries)
  }

  ghost predicate RemovalView(p: map<NodeId, string>, source: seq<Item>, s: Pool) {
    && s.phase == Outdating(source) && RemoversOk(s)
    && (forall n :: n in s.entries ==> n in p && s.entries[n].uid == p[n])
    && (forall n :: n in p && n !in s.entries ==> p[n] !in Uids(source))
    && (forall n :: n in p && n in s.entries && OfNode(n) !in s.workers ==> p[n] in Uids(source))
    && (forall w :: w in s.workers && !s.workers[w].Deciding? ==> s.workers[w].entry.uid !in Uids(source))
  }

  /** Creations succeed. */
  predicate Succeeds(step: Step) {
    !step.CreateFails? && !step.FirstSyncFails?
  }

  /** What one step of goroutine w does to the pool: it is still at work, or its node is pooled now. */
  ghost predicate Discovers(s: Pool, w: WorkerId, s': Pool)
    requires w in s.workers && (s.workers[w].Checking? || s.workers[w].Creating? || s.workers[w].Holding?)
  {
    var item := s.workers[w].item;
    && (forall n :: n in s.entries ==> n in s'.entries && (n != item.node ==> s'.entries[n] == s.entries[n]))
    && (forall n :: n in s'.entries && n !in s.entries ==> n == item.node && w !in s'.workers && s'.entries[n].uid == item.uid)
    && (item.node in s.entries ==> s'.entries[item.node] == s.entries[item.node])
    && (w !in s'.workers ==> item.node in s'.entries)
    && (forall v :: v != w ==> (v in s'.workers <==> v in s.workers))
  }

  lemma StepDiscovers(s: Pool, step: Step)
    requires s.phase.Discovering? && DiscoverersOk(s) && Exec(s, step).Some? && Succeeds(step)
    requires !step.CloseCluster? && !step.StartOutdated?
    ensures step.w in s.workers && DiscovererOk(s, step.w) && Discovers(s, step.w, Exec(s, step).value)
  {
    assert DiscovererOk(s, step.w);
  }

  lemma DiscoveryGoesOn(p: map<NodeId, string>, source: seq<Item>, s: Pool, w: WorkerId, s': Pool)
    requires DiscoveryView(p, source, s) && w in s.workers && DiscovererOk(s, w) && Discovers(s, w, s')
    requires s'.phase == s.phase && DiscoverersOk(s')
    ensures DiscoveryView(p, source, s')
  {
    assert w == OfItem(w.index) && s.workers[w].item == source[w.index];
    forall n | n in s'.entries && n !in p
      ensures exists i :: 0 <= i < |source| && source[i].node == n && OfItem(i) !in s'.workers && s'.entries[n].uid == source[i].uid
    {
      if n in s.entries {
        var i :| 0 <= i < |source| && source[i].node == n && OfItem(i) !in s.workers && s.entries[n].uid == source[i].uid;
        assert OfItem(i) !in s'.workers && s'.entries[n] == s.entries[n];
      } else {
        assert source[w.index].node == n && OfItem(w.index) !in s'.workers;
      }
    }
    forall i: nat | i < |source| && OfItem(i) !in s'.workers ensures source[i].node in s'.entries {
      assert i != w.index ==> OfItem(i) !in s.workers;
    }
  }

  lemma DiscoveryStep(p: map<NodeId, string>, source: seq<Item>, s: Pool, step: Step)
    requires Ledger(s) && DiscoveryView(p, source, s)
    requires Exec(s, step).Some? && Succeeds(step) && !step.CloseCluster? && !step.StartOutdated?
    ensures DiscoveryView(p, source, Exec(s, step).value)
  {
    DiscovererKeepsWorkers(s, step);
    StepDiscovers(s, step);
    DiscoveryGoesOn(p, source, s, step.w, Exec(s, step).value);
  }

  lemma {:induction false} TargetHas(source: seq<Item>, i: nat)
    requires DistinctNodes(source) && i < |source|
    ensures source[i].node in Target(source) && Target(source)[source[i].node] == source[i].uid
  {
    TargetOf(source);
  }

  lemma PooledIsDiscovered(p: map<NodeId, string>, source: seq<Item>, s: Pool, n: NodeId)
    requires DistinctNodes(source) && DiscoveryView(p, source, s) && n in s.entries
    ensures n in Discovered(p, source) && Discovered(p, source)[n] == s.entries[n].uid
  {
    if n !in p {
      var i :| 0 <= i < |source| && source[i].node == n && s.entries[n].uid == source[i].uid;
      TargetHas(source, i);
    }
  }

  lemma {:induction false} TargetFrom(source: seq<Item>, n: NodeId) returns (i: nat)
    requires DistinctNodes(source) && n in Target(source)
    ensures i < |source| && source[i].node == n
  {
    TargetOf(source);
    i :| i < |source| && source[i].node == n;
  }

  lemma DiscoveredIsPooled(p: map<NodeId, string>, source: seq<Item>, s: Pool, n: NodeId)
    requires DistinctNodes(source) && DiscoveryView(p, source, s) && s.workers == map[] && n in Discovered(p, source)
    ensures n in s.entries
  {
    if n !in p {
      var i := TargetFrom(source, n);
      assert OfItem(i) !in s.workers;
    }
  }

  lemma DiscoveryEnds(p: map<NodeId, string>, source: seq<Item>, s: Pool)
    requires DistinctNodes(source) && DiscoveryView(p, source, s) && s.workers == map[]
    ensures View(s) == Discovered(p, source)
  {
    var view, found := View(s), Discovered(p, source);
    forall n | n in view ensures n in found && found[n] == view[n] {
      PooledIsDiscovered(p, source, s, n);
    }
    forall n | n in found ensures n in view {
      DiscoveredIsPooled(p, source, s, n);
    }
  }

  lemma RemovalStarts(s: Pool)
    requires Ledger(s) && s.phase.Discovering? && s.workers == map[]
    ensures RemovalView(View(s), s.phase.source, Exec(s, StartOutdated).value)
  {
    StepKeepsLedger(s, StartOutdated);
    forall n | n in s.entries ensures OfNode(n) in Exec(s, StartOutdated).value.workers {
      assert OfNode(n) in NodeWorkers(s.entries);
    }
  }

  lemma DecideStep(p: map<NodeId, string>, source: seq<Item>, s: Pool, w: WorkerId)
    requires RemovalView(p, source, s) && w in s.workers && s.workers[w].Deciding? && EntriesOk(s)
    ensures RemovalView(p, source, Exec(s, Decide(w)).value)
  {
    var entry := s.workers[w].entry;
    if entry.uid in Uids(source) {
      DecisionLeavesRest(s, w, End(s, w));
      forall n | n in p && n in s.entries && OfNode(n) !in s.workers - {w} ensures p[n] in Uids(source) {
        assert OfNode(n) in s.workers ==> OfNode(n) == w;
      }
    } else {
      DecisionLeavesRest(s, w, Goto(s, w, Removing(entry)));
    }
  }

  lemma CloseStep(p: map<NodeId, string>, source: seq<Item>, s: Pool, w: WorkerId)
    requires RemovalView(p, source, s) && w in s.workers && s.workers[w].Removing? && RemoversOk(Exec(s, CloseEntry(w)).value)
    ensures RemovalView(p, source, Exec(s, CloseEntry(w)).value)
  {
    var s' := Exec(s, CloseEntry(w)).value;
    assert s'.entries == s.entries && s'.workers == s.workers[w := Closed(s.workers[w].entry)];
  }

  lemma RemoveStep(p: map<NodeId, string>, source: seq<Item>, s: Pool, w: WorkerId)
    requires RemovalView(p, source, s) && w in s.workers && s.workers[w].Closed? && RemoversOk(Exec(s, RemoveEntry(w)).value)
    ensures RemovalView(p, source, Exec(s, RemoveEntry(w)).value)
  {
    var s' := Exec(s, RemoveEntry(w)).value;
    assert w == OfNode(w.node) && s.entries[w.node] == s.workers[w].entry;
    assert s'.entries == s.entries - {w.node} && s'.workers == s.workers - {w};
    forall n | n in p && n in s'.entries && OfNode(n) !in s'.workers ensures p[n] in Uids(source) {
      assert OfNode(n) !in s.workers;
    }
  }

  lemma RemovalStep(p: map<NodeId, string>, source: seq<Item>, s: Pool, step: Step)
    requires Ledger(s) && RemovalView(p, source, s)
    requires Exec(s, step).Some? && !step.CloseCluster? && !step.FinishRound?
    ensures RemovalView(p, source, Exec(s, step).value)
  {
    RemoverKeepsLedger(s, step);
    match step
    case Decide(w) => DecideStep(p, source, s, w);
    case CloseEntry(w) => CloseStep(p, source, s, w);
    case RemoveEntry(w) => RemoveStep(p, source, s, w);
    case _ =>
  }

  lemma RemovalEnds(p: map<NodeId, string>, source: seq<Item>, s: Pool)
    requires RemovalView(p, source, s) && s.workers == map[]
    ensures View(s) == map n | n in p && p[n] in Uids(source) :: p[n]
  {
  }

  /** A whole round: starts idle over source, every creation succeeds, ends idle. */
  ghost predicate IsWholeRound(s: Pool, source: seq<Item>, states: seq<Pool>, steps: seq<Step>) {
    && IsRoundFrom(s, source, states, steps)
    && (forall k :: 0 <= k < |steps| ==> Succeeds(steps[k]))
    && (forall k :: 0 < k < |steps| ==> !states[k].phase.Idle?)
    && states[|steps|].phase.Idle?
  }

  ghost predicate RoundView(p: map<NodeId, string>, source: seq<Item>, s: Pool) {
    DiscoveryView(p, source, s) || RemovalView(Discovered(p, source), source, s)
  }

  lemma RoundStarts(s: Pool, source: seq<Item>)
    requires Ledger(s) && s.phase.Idle? && DistinctNodes(source)
    ensures DiscoveryView(View(s), source, Exec(s, StartRound(source)).value)
  {
    var s' := Exec(s, StartRound(source)).value;
    StepKeepsLedger(s, StartRound(source));
    assert DiscoverersOk(s');
    forall i: nat | i < |source| ensures OfItem(i) in s'.workers {
      assert OfItem(i) in ItemWorkers(source);
    }
  }

  lemma {:induction false} DuringRound(s: Pool, source: seq<Item>, states: seq<Pool>, steps: seq<Step>, n: nat)
    requires Ledger(s) && DistinctNodes(source) && IsWholeRound(s, source, states, steps) && 0 < n < |steps|
    ensures Ledger(states[n]) && RoundView(View(s), source, states[n])
  {
    RoundKeepsLedger(s, source, states, steps, n - 1);
    RoundKeepsLedger(s, source, states, steps, n);
    assert Follows(states, steps, n - 1);
    if n == 1 {
      RoundStarts(s, source);
    } else {
      DuringRound(s, source, states, steps, n - 1);
      RoundViewStep(View(s), source, states[n - 1], steps[n - 1], states[n]);
    }
  }

  lemma TurnsToRemoval(p: map<NodeId, string>, source: seq<Item>, before: Pool)
    requires Ledger(before) && DistinctNodes(source) && DiscoveryView(p, source, before) && before.workers == map[]
    ensures RemovalView(Discovered(p, source), source, Exec(before, StartOutdated).value)
  {
    DiscoveryEnds(p, source, before);
    RemovalStarts(before);
  }

  lemma RoundPhases(p: map<NodeId, string>, source: seq<Item>, s: Pool)
    requires RoundView(p, source, s)
    ensures if s.phase.Discovering? then DiscoveryView(p, source, s)
            else s.phase.Outdating? && RemovalView(Discovered(p, source), source, s)
  {
  }

  lemma RoundViewStep(p: map<NodeId, string>, source: seq<Item>, before: Pool, step: Step, after: Pool)
    requires Ledger(before) && DistinctNodes(source) && RoundView(p, source, before) && Exec(before, step) == Some(after)
    requires Succeeds(step) && !step.CloseCluster? && !after.phase.Idle?
    ensures RoundView(p, source, after)
  {
    RoundPhases(p, source, before);
    if step.StartOutdated? {
      TurnsToRemoval(p, source, before);
    } else if before.phase.Discovering? {
      DiscoveryStep(p, source, before, step);
    } else {
      RemovalStep(Discovered(p, source), source, before, step);
    }
  }

  lemma OnlyFinishEndsRound(before: Pool, step: Step, after: Pool)
    requires Exec(before, step) == Some(after) && !before.phase.Idle? && after.phase.Idle?
    ensures before.phase.Outdating? && before.workers == map[] && after.entries == before.entries
  {
  }

  /** Every interleaving of a round's goroutines has the effect of the sequential round. */
  lemma RoundRefinesSpec(s: Pool, source: seq<Item>, states: seq<Pool>, steps: seq<Step>)
    requires Ledger(s) && DistinctNodes(source) && IsWholeRound(s, source, states, steps)
    ensures Ledger(states[|steps|]) && View(states[|steps|]) == Round(View(s), source)
  {
    var n := |steps|;
    RoundKeepsLedger(s, source, states, steps, n);
    assert n > 1 by {
      assert Follows(states, steps, 0);
    }
    assert Follows(states, steps, n - 1);
    OnlyFinishEndsRound(states[n - 1], steps[n - 1], states[n]);
    DuringRound(s, source, states, steps, n - 1);
    RemovalEnds(Discovered(View(s), source), source, states[n - 1]);
    assert View(states[n]) == View(states[n - 1]);
  }

  // ---------------------------------------------------------------------------------------
  // Convergence
  // ---------------------------------------------------------------------------------------

  function Rounds(p: map<NodeId, string>, source: seq<Item>, k: nat): map<NodeId, string> {
    if k == 0 then p else Round(Rounds(p, source, k - 1), source)
  }

  /** No pooled identifier is announced by the source for another node. */
  predicate NoReusedIdentifier(p: map<NodeId, string>, source: seq<Item>) {
    forall n | n in p :: p[n] in Uids(source) ==> n in Target(source) && Target(source)[n] == p[n]
  }

  lemma TargetUids(source: seq<Item>)
    requires DistinctNodes(source)
    ensures forall n :: n in Target(source) ==> Target(source)[n] in Uids(source)
  {
    TargetOf(source);
    forall n | n in Target(source) ensures Target(source)[n] in Uids(source) {
      var i :| 0 <= i < |source| && source[i].node == n;
      assert Target(source)[n] == source[i].uid;
    }
  }

  lemma TargetIsStable(source: seq<Item>)
    requires DistinctNodes(source)
    ensures Round(Target(source), source) == Target(source)
  {
    TargetUids(source);
  }

  lemma TwoRounds(p: map<NodeId, string>, source: seq<Item>)
    requires DistinctNodes(source) && NoReusedIdentifier(p, source)
    ensures Round(Round(p, source), source) == Target(source)
  {
    TargetUids(source);
    var q := Round(p, source);
    assert forall n :: n in q ==> n in Target(source) && q[n] == Target(source)[n];
  }

  /** A reused identifier keeps its stale entry alive in every later round. */
  lemma {:induction false} StaleEntrySurvives(p: map<NodeId, string>, source: seq<Item>, n: NodeId, k: nat)
    requires n in p && p[n] in Uids(source)
    ensures n in Rounds(p, source, k) && Rounds(p, source, k)[n] == p[n]
  {
    if k > 0 {
      StaleEntrySurvives(p, source, n, k - 1);
    }
  }

  /** With one item per node, the pool equals the source from the second round on iff no identifier was reused. */
  lemma {:induction false} ConvergesIff(p: map<NodeId, string>, source: seq<Item>, k: nat)
    requires DistinctNodes(source) && k >= 2
    ensures Rounds(p, source, k) == Target(source) <==> NoReusedIdentifier(p, source)
    decreases k
  {
    if n :| n in p && p[n] in Uids(source) && !(n in Target(source) && Target(source)[n] == p[n]) {
      StaleEntrySurvives(p, source, n, k);
    } else if k == 2 {
      assert Rounds(p, source, 2) == Round(Rounds(p, source, 1), source);
      assert Rounds(p, source, 1) == Round(Rounds(p, source, 0), source);
      TwoRounds(p, source);
    } else {
      ConvergesIff(p, source, k - 1);
      TargetIsStable(source);
    }
  }

  /** Two rounds of goroutines, in any interleaving, make the pool the source. */
  lemma TwoSyncRoundsConverge(s: Pool, source: seq<Item>, states: seq<Pool>, steps: seq<Step>, states': seq<Pool>, steps': seq<Step>)
    requires Ledger(s) && DistinctNodes(source)
    requires IsWholeRound(s, source, states, steps) && IsWholeRound(states[|steps|], source, states', steps')
    ensures View(states'[|steps'|]) == Target(source) <==> NoReusedIdentifier(View(s), source)
  {
    RoundRefinesSpec(s, source, states, steps);
    RoundRefinesSpec(states[|steps|], source, states', steps');
    assert Rounds(View(s), source, 2) == Round(Rounds(View(s), source, 1), source);
    assert Rounds(View(s), source, 1) == Round(Rounds(View(s), source, 0), source);
    ConvergesIff(View(s), source, 2);
  }

  /** The cluster pool uses one identity for both tests, and so needs one round only. */
  lemma OneIdentityConvergesAtOnce(p: map<NodeId, string>, source: seq<Item>)
    requires DistinctNodes(source) && (forall i :: 0 <= i < |source| ==> source[i].uid == source[i].node)
    requires forall n :: n in p ==> p[n] == n
    ensures Round(p, source) == Target(source)
  {
    OneIdentityTarget(source);
    RoundOfIdentities(p, source);
  }

  lemma RoundOfIdentities(p: map<NodeId, string>, source: seq<Item>)
    requires (forall n :: n in p ==> p[n] == n) && (forall n :: n in Target(source) ==> Target(source)[n] == n)
    requires Target(source).Keys == Uids(source)
    ensures Round(p, source) == Target(source)
  {
    var found := Discovered(p, source);
    assert forall n :: n in found ==> found[n] == n;
  }

  lemma OneIdentityTarget(source: seq<Item>)
    requires DistinctNodes(source) && (forall i :: 0 <= i < |source| ==> source[i].uid == source[i].node)
    ensures forall n :: n in Target(source) ==> Target(source)[n] == n
    ensures Target(source).Keys == Uids(source)
  {
    TargetOf(source);
    TargetUids(source);
    forall n | n in Target(source) ensures Target(source)[n] == n {
      var i :| 0 <= i < |source| && source[i].node == n;
    }
    forall u | u in Uids(source) ensures u in Target(source) {
      var i :| 0 <= i < |source| && source[i].uid == u;
      assert source[i].node in Target(source);
    }
  }
}
