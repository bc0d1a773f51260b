/**
 Cluster.Close: it closes the clients pooled at that moment and does not wait for the round in
 progress, so what becomes of the clients depends on what the round's goroutines still do.
 */
module ClusterClose {
  import opened TemplateTables
  import opened InstancePool

  // ---------------------------------------------------------------------------------------
  // Continuations of a round
  // ---------------------------------------------------------------------------------------

  predicate IsRoundStep(step: Step) {
    !step.StartRound? && !step.CloseCluster?
  }

  /** The steps lead from s to t without starting another round or closing again. */
  ghost predicate IsContinuation(states: seq<Pool>, steps: seq<Step>, s: Pool, t: Pool) {
    && IsRun(states, steps) && states[0] == s && states[|steps|] == t
    && forall k :: 0 <= k < |steps| ==> IsRoundStep(steps[k])
  }

  ghost predicate Reaches(s: Pool, t: Pool) {
    exists states, steps :: IsContinuation(states, steps, s, t)
  }

  lemma ReachesItself(s: Pool)
    ensures Reaches(s, s)
  {
    assert IsContinuation([s], [], s, s);
  }

  lemma ReachesNext(s: Pool, t: Pool, step: Step, u: Pool)
    requires Reaches(s, t) && Exec(t, step) == Some(u) && IsRoundStep(step)
    ensures Reaches(s, u)
  {
    var states, steps :| IsContinuation(states, steps, s, t);
    var states', steps' := states + [u], steps + [step];
    forall k: nat | k < |steps'| ensures Follows(states', steps', k) {
      assert k < |steps| ==> Follows(states, steps, k);
    }
    assert IsContinuation(states', steps', s, u);
  }

  lemma ReachesOne(s: Pool, step: Step, t: Pool)
    requires Exec(s, step) == Some(t) && IsRoundStep(step)
    ensures Reaches(s, t)
  {
    ReachesItself(s);
    ReachesNext(s, s, step, t);
  }

  lemma ReachesTransitively(s: Pool, t: Pool, u: Pool)
    requires Reaches(s, t) && Reaches(t, u)
    ensures Reaches(s, u)
  {
    var a, x :| IsContinuation(a, x, s, t);
    var b, y :| IsContinuation(b, y, t, u);
    var states, steps := a + b[1..], x + y;
    forall k: nat | k < |steps| ensures Follows(states, steps, k) {
      if k < |x| {
        assert Follows(a, x, k);
      } else {
        assert Follows(b, y, k - |x|);
      }
    }
    assert IsContinuation(states, steps, s, u);
  }

  // ---------------------------------------------------------------------------------------
  // Any round in progress can be brought to its end
  // ---------------------------------------------------------------------------------------

  predicate IsDiscoverer(worker: Worker) {
    worker.Checking? || worker.Creating? || worker.Holding?
  }

  ghost predicate ClosesGrow(s: Pool, t: Pool) {
    forall c :: c in s.closes ==> c in t.closes && s.closes[c] <= t.closes[c]
  }

  ghost predicate DiscovererEnded(s: Pool, w: WorkerId, t: Pool)
    requires w in s.workers
  {
    && t.phase == s.phase && t.entries == s.entries && t.workers == s.workers - {w} && ClosesGrow(s, t)
    && forall c :: c in s.closes && !(s.workers[w].Holding? && s.workers[w].client == c) ==> t.closes[c] == s.closes[c]
  }

  lemma EndCreating(s: Pool, w: WorkerId) returns (t: Pool)
    requires w in s.workers && s.workers[w].Creating?
    ensures Reaches(s, t) && DiscovererEnded(s, w, t)
  {
    t := End(s, w);
    ReachesOne(s, CreateFails(w), t);
  }

  lemma EndDiscoverer(s: Pool, w: WorkerId) returns (t: Pool)
    requires w in s.workers && IsDiscoverer(s.workers[w])
    ensures Reaches(s, t) && DiscovererEnded(s, w, t)
  {
    match s.workers[w]
    case Checking(item) =>
      if item.node in s.entries {
        t := End(s, w);
        ReachesOne(s, Check(w), t);
      } else {
        var u := Goto(s, w, Creating(item));
        ReachesOne(s, Check(w), u);
        t := EndCreating(u, w);
        ReachesTransitively(s, u, t);
        assert t.workers == s.workers - {w};
      }
    case Creating(item) => t := EndCreating(s, w);
    case Holding(item, c) =>
      t := End(Closing(s, c), w);
      ReachesOne(s, FirstSyncFails(w), t);
    case _ =>
  }

  lemma {:induction false} DrainDiscovery(s: Pool) returns (t: Pool)
    requires forall w :: w in s.workers ==> IsDiscoverer(s.workers[w])
    ensures Reaches(s, t) && t.phase == s.phase && t.entries == s.entries && t.workers == map[] && ClosesGrow(s, t)
    ensures forall c :: c in s.closes && !InHand(s, c) ==> t.closes[c] == s.closes[c]
    decreases |s.workers|
  {
    if s.workers == map[] {
      t := s;
      ReachesItself(s);
    } else {
      var w :| w in s.workers;
      var u := EndDiscoverer(s, w);
      FewerWorkers(s.workers, w);
      t := DrainDiscovery(u);
      ReachesTransitively(s, u, t);
      forall c | c in s.closes && !InHand(s, c) ensures t.closes[c] == s.closes[c] {
        assert !InHand(u, c);
      }
    }
  }

  lemma FewerWorkers(workers: map<WorkerId, Worker>, w: WorkerId)
    requires w in workers
    ensures |workers - {w}| < |workers|
  {
    assert (workers - {w}).Keys == workers.Keys - {w};
  }

  /** The goroutine w of the removal phase does not close c. */
  predicate Spares(s: Pool, w: WorkerId, c: Client)
    requires s.phase.Outdating? && w in s.workers && (s.workers[w].Deciding? || s.workers[w].Removing? || s.workers[w].Closed?)
  {
    s.workers[w].entry.client == c ==> s.workers[w].Deciding? && s.workers[w].entry.uid in Uids(s.phase.source)
  }

  ghost predicate RemoverEnded(s: Pool, w: WorkerId, t: Pool)
    requires s.phase.Outdating? && RemoversOk(s) && w in s.workers
  {
    && t.phase == s.phase && t.workers == s.workers - {w} && ClosesGrow(s, t)
    && (forall n :: n in s.entries && n != w.node ==> n in t.entries && t.entries[n] == s.entries[n])
    && forall c :: c in s.closes && Spares(s, w, c) ==> t.closes[c] == s.closes[c]
  }

  lemma EndClosed(s: Pool, w: WorkerId) returns (t: Pool)
    requires s.phase.Outdating? && RemoversOk(s) && w in s.workers && s.workers[w].Closed?
    ensures Reaches(s, t) && RemoverEnded(s, w, t)
  {
    t := Exec(s, RemoveEntry(w)).value;
    ReachesOne(s, RemoveEntry(w), t);
  }

  lemma EndRemoving(s: Pool, w: WorkerId) returns (t: Pool)
    requires s.phase.Outdating? && RemoversOk(s) && w in s.workers && s.workers[w].Removing?
    ensures Reaches(s, t) && RemoverEnded(s, w, t)
  {
    var u := Exec(s, CloseEntry(w)).value;
    ReachesOne(s, CloseEntry(w), u);
    assert u.workers == s.workers[w := Closed(s.workers[w].entry)] && u.entries == s.entries;
    t := EndClosed(u, w);
    ReachesTransitively(s, u, t);
    assert t.workers == s.workers - {w};
    forall c | c in s.closes && Spares(s, w, c) ensures t.closes[c] == s.closes[c] {
      assert Spares(u, w, c);
    }
  }

  lemma EndRemover(s: Pool, w: WorkerId) returns (t: Pool)
    requires s.phase.Outdating? && RemoversOk(s) && w in s.workers
    ensures Reaches(s, t) && RemoverEnded(s, w, t)
  {
    if s.workers[w].Deciding? {
      var entry := s.workers[w].entry;
      if entry.uid in Uids(s.phase.source) {
        t := End(s, w);
        ReachesOne(s, Decide(w), t);
      } else {
        var u := Goto(s, w, Removing(entry));
        ReachesOne(s, Decide(w), u);
        t := EndRemoving(u, w);
        ReachesTransitively(s, u, t);
        assert t.workers == s.workers - {w};
        forall c | c in s.closes && Spares(s, w, c) ensures t.closes[c] == s.closes[c] {
          assert Spares(u, w, c);
        }
      }
    } else if s.workers[w].Removing? {
      t := EndRemoving(s, w);
    } else {
      t := EndClosed(s, w);
    }
  }

  ghost predicate AllSpare(s: Pool, c: Client)
    requires s.phase.Outdating? && RemoversOk(s)
  {
    forall w :: w in s.workers ==> Spares(s, w, c)
  }

  lemma {:induction false} DrainRemoval(s: Pool) returns (t: Pool)
    requires s.phase.Outdating? && RemoversOk(s)
    ensures Reaches(s, t) && t.phase.Idle? && ClosesGrow(s, t)
    ensures forall c :: c in s.closes && AllSpare(s, c) ==> t.closes[c] == s.closes[c]
    decreases |s.workers|
  {
    if s.workers == map[] {
      t := s.(phase := Idle);
      ReachesOne(s, FinishRound, t);
    } else {
      var w :| w in s.workers;
      var u := EndRemover(s, w);
      FewerWorkers(s.workers, w);
      OthersStay(s, w, u);
      t := DrainRemoval(u);
      ReachesTransitively(s, u, t);
      forall c | c in s.closes && AllSpare(s, c) ensures t.closes[c] == s.closes[c] {
        assert Spares(s, w, c);
        assert AllSpare(u, c);
      }
    }
  }

  lemma OthersStay(s: Pool, w: WorkerId, u: Pool)
    requires s.phase.Outdating? && RemoversOk(s) && w in s.workers && RemoverEnded(s, w, u)
    ensures RemoversOk(u)
    ensures forall c :: AllSpare(s, c) ==> AllSpare(u, c)
  {
    forall v | v in u.workers ensures u.workers[v] == s.workers[v] && v.node != w.node {
      assert v != w && v == OfNode(v.node) && w == OfNode(w.node);
    }
  }

  // ---------------------------------------------------------------------------------------
  // What a round in progress must not do any more
  // ---------------------------------------------------------------------------------------

  /** No goroutine can still create, insert or close: the round has nothing to add and nothing to remove. */
  predicate Quiet(s: Pool) {
    match s.phase
    case Idle => true
    case Discovering(source) =>
      && (forall w | w in s.workers :: s.workers[w].Checking? && s.workers[w].item.node in s.entries)
      && (forall n | n in s.entries :: s.entries[n].uid in Uids(source))
    case Outdating(source) =>
      forall w | w in s.workers :: s.workers[w].Deciding? && s.workers[w].entry.uid in Uids(source)
  }

  ghost predicate AllClosedOnce(s: Pool) {
    forall c :: c in s.closes ==> s.closes[c] == 1
  }

  lemma QuietStep(s: Pool, step: Step)
    requires Quiet(s) && Exec(s, step).Some? && IsRoundStep(step) && (s.phase.Idle? ==> s.workers == map[])
    ensures Quiet(Exec(s, step).value) && Exec(s, step).value.closes == s.closes
    ensures Exec(s, step).value.phase.Idle? ==> Exec(s, step).value.workers == map[]
  {
    if step.StartOutdated? {
      var s' := Exec(s, step).value;
      forall w | w in s'.workers ensures s'.workers[w].Deciding? && s'.workers[w].entry.uid in Uids(s'.phase.source) {
        assert w in NodeWorkers(s.entries);
      }
    }
  }

  lemma {:induction false} QuietRun(states: seq<Pool>, steps: seq<Step>, s: Pool, t: Pool, n: nat)
    requires IsContinuation(states, steps, s, t) && n < |states| && Quiet(s) && (s.phase.Idle? ==> s.workers == map[])
    ensures Quiet(states[n]) && states[n].closes == s.closes && (states[n].phase.Idle? ==> states[n].workers == map[])
  {
    if n > 0 {
      QuietRun(states, steps, s, t, n - 1);
      assert Follows(states, steps, n - 1);
      QuietStep(states[n - 1], steps[n - 1]);
    }
  }

  /** A quiet round closes and creates nothing, however it goes on. */
  lemma QuietChangesNothing(s: Pool, t: Pool)
    requires Quiet(s) && (s.phase.Idle? ==> s.workers == map[]) && Reaches(s, t)
    ensures t.closes == s.closes
  {
    var states, steps :| IsContinuation(states, steps, s, t);
    QuietRun(states, steps, s, t, |steps|);
  }

  /** A state after Close: pooled clients have been closed, those in a goroutine's hand have not. */
  ghost predicate IsAfterClose(s: Pool) {
    && (forall n :: n in s.entries ==> s.entries[n].client in s.closes && s.closes[s.entries[n].client] >= 1)
    && (forall n :: n in s.entries && BeingRemoved(s, n) ==> s.closes[s.entries[n].client] >= 2)
    && match s.phase
       case Idle => s.workers == map[]
       case Discovering(source) => DiscoverersShaped(s, source)
       case Outdating(_) => RemoversOk(s)
  }

  ghost predicate DiscoverersShaped(s: Pool, source: seq<Item>) {
    && (forall w :: w in s.workers ==>
          && IsDiscoverer(s.workers[w])
          && w.OfItem? && w.index < |source| && s.workers[w].item == source[w.index]
          && (s.workers[w].Holding? ==>
                s.workers[w].client in s.closes && s.closes[s.workers[w].client] == 0 && !Held(s, s.workers[w].client)))
    && (forall w, v :: w in s.workers && v in s.workers && w != v && s.workers[w].Holding? && s.workers[v].Holding?
                       ==> s.workers[w].client != s.workers[v].client)
  }

  ghost predicate EndsWrong(s: Pool) {
    exists t :: Reaches(s, t) && t.phase.Idle? && !AllClosedOnce(t)
  }

  lemma WrongLater(s: Pool, u: Pool)
    requires Reaches(s, u) && EndsWrong(u)
    ensures EndsWrong(s)
  {
    var t :| Reaches(u, t) && t.phase.Idle? && !AllClosedOnce(t);
    ReachesTransitively(s, u, t);
  }

  /** A client closed twice stays so. */
  lemma ClosedTwiceEndsWrong(s: Pool, c: Client)
    requires s.phase.Outdating? && RemoversOk(s) && c in s.closes && s.closes[c] >= 2
    ensures EndsWrong(s)
  {
    var t := DrainRemoval(s);
    assert t.closes[c] != 1;
  }

  lemma RemovingEndsWrong(s: Pool, w: WorkerId)
    requires IsAfterClose(s) && s.phase.Outdating? && w in s.workers && s.workers[w].Removing?
    ensures EndsWrong(s)
  {
    var entry := s.workers[w].entry;
    var u := Exec(s, CloseEntry(w)).value;
    ReachesOne(s, CloseEntry(w), u);
    assert s.entries[w.node] == entry && entry.client in s.closes;
    assert u.closes == s.closes[entry.client := s.closes[entry.client] + 1];
    assert u.workers == s.workers[w := Closed(entry)] && u.entries == s.entries && u.phase == s.phase;
    assert RemoversOk(u);
    ClosedTwiceEndsWrong(u, entry.client);
    WrongLater(s, u);
  }

  lemma DecidingEndsWrong(s: Pool, w: WorkerId)
    requires IsAfterClose(s) && s.phase.Outdating? && w in s.workers && s.workers[w].Deciding?
    requires s.workers[w].entry.uid !in Uids(s.phase.source)
    ensures EndsWrong(s)
  {
    var u := Goto(s, w, Removing(s.workers[w].entry));
    ReachesOne(s, Decide(w), u);
    assert RemoversOk(u);
    assert forall n :: BeingRemoved(u, n) ==> BeingRemoved(s, n);
    RemovingEndsWrong(u, w);
    WrongLater(s, u);
  }

  /** An outdated entry is closed once more. */
  lemma OutdatedEndsWrong(s: Pool, n: NodeId)
    requires IsAfterClose(s) && s.phase.Discovering? && n in s.entries && s.entries[n].uid !in Uids(s.phase.source)
    requires s.entries[n].node == n && forall m :: m in s.entries ==> s.entries[m].node == m
    ensures EndsWrong(s)
  {
    var t := DrainDiscovery(s);
    var u := Exec(t, StartOutdated).value;
    ReachesNext(s, t, StartOutdated, u);
    assert OfNode(n) in NodeWorkers(t.entries);
    assert RemoversOk(u) by {
      assert forall w :: w in u.workers ==> w in NodeWorkers(t.entries);
    }
    assert forall m :: !BeingRemoved(u, m);
    DecidingEndsWrong(u, OfNode(n));
    WrongLater(s, u);
  }

  /** A client inserted after Close stays in the pool, open. */
  lemma InsertedStaysOpen(s: Pool, c: Client)
    requires s.phase.Discovering? && (forall w :: w in s.workers ==> IsDiscoverer(s.workers[w]))
    requires c in s.closes && s.closes[c] == 0 && !InHand(s, c)
    requires forall n :: n in s.entries ==> s.entries[n].node == n
    requires forall n :: n in s.entries && s.entries[n].client == c ==> s.entries[n].uid in Uids(s.phase.source)
    ensures EndsWrong(s)
  {
    var t := DrainDiscovery(s);
    var u := Exec(t, StartOutdated).value;
    ReachesNext(s, t, StartOutdated, u);
    assert forall w :: w in u.workers ==> w in NodeWorkers(t.entries);
    assert RemoversOk(u) && AllSpare(u, c);
    var v := DrainRemoval(u);
    ReachesTransitively(s, u, v);
    assert v.closes[c] == 0;
  }

  lemma HoldingEndsWrong(s: Pool, w: WorkerId)
    requires IsAfterClose(s) && s.phase.Discovering? && w in s.workers && s.workers[w].Holding?
    requires forall n :: n in s.entries ==> s.entries[n].node == n
    ensures EndsWrong(s)
  {
    var item, c := s.workers[w].item, s.workers[w].client;
    var u := Exec(s, InsertEntry(w)).value;
    ReachesOne(s, InsertEntry(w), u);
    assert u.entries == s.entries[item.node := Entry(item.node, item.uid, c)];
    assert item.uid in Uids(s.phase.source);
    forall n | n in u.entries && u.entries[n].client == c ensures u.entries[n].uid in Uids(u.phase.source) {
      assert n == item.node;
    }
    forall v | v in u.workers ensures u.workers[v] == s.workers[v] && v != w {
    }
    InsertedStaysOpen(u, c);
    WrongLater(s, u);
  }

  lemma CreatingEndsWrong(s: Pool, w: WorkerId)
    requires IsAfterClose(s) && s.phase.Discovering? && w in s.workers && s.workers[w].Creating?
    requires forall n :: n in s.entries ==> s.entries[n].node == n
    ensures EndsWrong(s)
  {
    var c := FreshClient(s.closes.Keys);
    assert c !in s.closes;
    var u := Goto(s, w, Holding(s.workers[w].item, c)).(closes := s.closes[c := 0]);
    ReachesOne(s, CreateClient(w, c), u);
    assert !Held(u, c);
    assert IsAfterClose(u) by {
      assert forall v :: v in s.workers && s.workers[v].Holding? ==> !Held(u, s.workers[v].client);
    }
    HoldingEndsWrong(u, w);
    WrongLater(s, u);
  }

  lemma UnpooledEndsWrong(s: Pool, w: WorkerId)
    requires IsAfterClose(s) && s.phase.Discovering? && w in s.workers && s.workers[w].Checking?
    requires s.workers[w].item.node !in s.entries
    requires forall n :: n in s.entries ==> s.entries[n].node == n
    ensures EndsWrong(s)
  {
    var u := Goto(s, w, Creating(s.workers[w].item));
    ReachesOne(s, Check(w), u);
    assert IsAfterClose(u);
    CreatingEndsWrong(u, w);
    WrongLater(s, u);
  }

  /** If the round is not quiet, some continuation of it ends with a client open or closed twice. */
  lemma UnquietEndsWrong(s: Pool)
    requires IsAfterClose(s) && !Quiet(s) && forall n :: n in s.entries ==> s.entries[n].node == n
    ensures EndsWrong(s)
  {
    if s.phase.Discovering? {
      if w :| w in s.workers && s.workers[w].Holding? {
        HoldingEndsWrong(s, w);
      } else if w :| w in s.workers && s.workers[w].Creating? {
        CreatingEndsWrong(s, w);
      } else if w :| w in s.workers && s.workers[w].item.node !in s.entries {
        UnpooledEndsWrong(s, w);
      } else {
        var n :| n in s.entries && s.entries[n].uid !in Uids(s.phase.source);
        OutdatedEndsWrong(s, n);
      }
    } else {
      if w :| w in s.workers && s.workers[w].Removing? {
        RemovingEndsWrong(s, w);
      } else if w :| w in s.workers && s.workers[w].Closed? {
        assert s.entries[w.node] == s.workers[w].entry && BeingRemoved(s, w.node);
        ClosedTwiceEndsWrong(s, s.workers[w].entry.client);
      } else {
        var w :| w in s.workers && s.workers[w].entry.uid !in Uids(s.phase.source);
        DecidingEndsWrong(s, w);
      }
    }
  }

  // ---------------------------------------------------------------------------------------
  // Close
  // ---------------------------------------------------------------------------------------

  /** Whichever way the round goes on, once it has ended every client has been closed exactly once. */
  ghost predicate StaysClosed(s: Pool) {
    forall t :: Reaches(s, t) && t.phase.Idle? ==> AllClosedOnce(t)
  }

  lemma CloseLeadsToAfterClose(s: Pool)
    requires Ledger(s)
    ensures IsAfterClose(Exec(s, CloseCluster).value)
  {
    var s' := Exec(s, CloseCluster).value;
    forall n | n in s.entries ensures s'.closes[s.entries[n].client] == (if BeingRemoved(s, n) then 2 else 1) {
      assert Held(s, s.entries[n].client);
    }
    if s.phase.Discovering? {
      forall w | w in s.workers ensures DiscovererOk(s, w) {
      }
      forall w, v | w in s.workers && v in s.workers && w != v ensures NoClash(s, w, v) {
      }
      assert forall c :: Held(s', c) == Held(s, c);
    }
  }

  lemma QuietCloseClosesAllOnce(s: Pool)
    requires Ledger(s) && Quiet(s)
    ensures AllClosedOnce(Exec(s, CloseCluster).value)
  {
    forall c | c in s.closes ensures Exec(s, CloseCluster).value.closes[c] == 1 {
      assert !InHand(s, c);
      if Held(s, c) {
        var n :| n in s.entries && s.entries[n].client == c;
        assert !BeingRemoved(s, n);
      }
    }
  }

  /**
   Close leaves every client closed exactly once, whichever way the round in progress goes on, iff
   that round can create, insert or close nothing any more; between rounds it always does.
   */
  lemma CloseLeavesNoneOpenIff(s: Pool)
    requires Ledger(s)
    ensures StaysClosed(Exec(s, CloseCluster).value) <==> Quiet(s)
  {
    var closed := Exec(s, CloseCluster).value;
    assert Quiet(closed) == Quiet(s);
    if Quiet(s) {
      QuietCloseClosesAllOnce(s);
      forall t | Reaches(closed, t) && t.phase.Idle? ensures AllClosedOnce(t) {
        QuietChangesNothing(closed, t);
      }
    } else {
      CloseLeadsToAfterClose(s);
      UnquietEndsWrong(closed);
    }
  }

  /** Closing between rounds of any run leaves every client closed exactly once. */
  lemma CloseBetweenRounds(states: seq<Pool>, steps: seq<Step>, n: nat)
    requires IsRun(states, steps) && states[0] == EMPTY_POOL && n < |states|
    requires forall k :: 0 <= k < |steps| ==> MayRun(states[k], steps[k])
    requires states[n].phase.Idle?
    ensures AllClosedOnce(Exec(states[n], CloseCluster).value) && StaysClosed(Exec(states[n], CloseCluster).value)
  {
    RunKeepsLedger(states, steps, n);
    QuietCloseClosesAllOnce(states[n]);
    CloseLeavesNoneOpenIff(states[n]);
  }

  predicate AddsNoNode(source: seq<Item>, entries: map<NodeId, Entry>) {
    forall i | 0 <= i < |source| :: source[i].node in entries
  }

  predicate AnnouncesAll(source: seq<Item>, entries: map<NodeId, Entry>) {
    forall n | n in entries :: entries[n].uid in Uids(source)
  }

  lemma StartedWorkers(s: Pool, source: seq<Item>)
    requires s.phase.Idle?
    ensures var started := Exec(s, StartRound(source)).value;
            && (forall w :: w in started.workers ==> w.OfItem? && w.index < |source| && started.workers[w] == Checking(source[w.index]))
            && (forall i: nat :: i < |source| ==> OfItem(i) in started.workers)
            && started.entries == s.entries && started.closes == s.closes && started.phase == Discovering(source)
  {
    forall i: nat | i < |source| ensures OfItem(i) in ItemWorkers(source) {
    }
  }

  lemma QuietStartIff(s: Pool, source: seq<Item>)
    requires s.phase.Idle?
    ensures Quiet(Exec(s, StartRound(source)).value) <==> AddsNoNode(source, s.entries) && AnnouncesAll(source, s.entries)
  {
    StartedWorkers(s, source);
    var started := Exec(s, StartRound(source)).value;
    if Quiet(started) {
      forall i | 0 <= i < |source| ensures source[i].node in s.entries {
        assert OfItem(i) in started.workers;
      }
    }
  }

  lemma StartKeepsAfterClose(s: Pool, source: seq<Item>)
    requires IsAfterClose(s) && s.phase.Idle?
    ensures IsAfterClose(Exec(s, StartRound(source)).value)
  {
    StartedWorkers(s, source);
  }

  /**
   SyncInstances may still start a round after Close: then every client stays closed exactly once
   iff the source adds no node to the pool and announces every pooled identifier.
   */
  lemma SyncAfterCloseIff(s: Pool, source: seq<Item>)
    requires Ledger(s) && s.phase.Idle?
    ensures StaysClosed(Exec(Exec(s, CloseCluster).value, StartRound(source)).value)
            <==> AddsNoNode(source, s.entries) && AnnouncesAll(source, s.entries)
  {
    var closed := Exec(s, CloseCluster).value;
    CloseLeadsToAfterClose(s);
    QuietCloseClosesAllOnce(s);
    QuietStartIff(closed, source);
    StartKeepsAfterClose(closed, source);
    StaysClosedIffQuiet(Exec(closed, StartRound(source)).value);
  }

  lemma StaysClosedIffQuiet(s: Pool)
    requires IsAfterClose(s) && AllClosedOnce(s) && forall n :: n in s.entries ==> s.entries[n].node == n
    ensures StaysClosed(s) <==> Quiet(s)
  {
    if Quiet(s) {
      forall t | Reaches(s, t) && t.phase.Idle? ensures AllClosedOnce(t) {
        QuietChangesNothing(s, t);
      }
    } else {
      UnquietEndsWrong(s);
    }
  }

  /** Closing while a goroutine holds a client leaves that client open in the pool. */
  lemma CloseDuringRoundLeavesOpen(s: Pool, w: WorkerId)
    requires Ledger(s) && w in s.workers && s.workers[w].Holding?
    ensures var closed := Exec(s, CloseCluster).value;
            && Exec(closed, InsertEntry(w)).Some?
            && Exec(closed, InsertEntry(w)).value.closes[s.workers[w].client] == 0
  {
    assert DiscovererOk(s, w);
  }
}
