/**
 Reconciling a cluster's instance pool with service discovery.  A round starts one goroutine per
 discovered item, waits for them, then one per pool entry, and waits again; the goroutines of a
 phase interleave freely, rounds never overlap.  Insertion tests the NodeID, removal the
 UniqueIdentifier.
 */
module InstancePool {
  import opened TemplateTables

  type NodeId = string
  type Client = nat

  datatype Item = Item(node: NodeId, uid: string)

  datatype Entry = Entry(node: NodeId, uid: string, client: Client)

  datatype WorkerId = OfItem(index: nat) | OfNode(node: NodeId)

  datatype Worker =
    // syncDiscovered
    | Checking(item: Item) | Creating(item: Item) | Holding(item: Item, client: Client)
    // syncOutdated
    | Deciding(entry: Entry) | Removing(entry: Entry) | Closed(entry: Entry)

  datatype Phase = Idle | Discovering(source: seq<Item>) | Outdating(source: seq<Item>)

  /** closes counts, for every gRPC client ever created, how often it was closed. */
  datatype Pool = Pool(
    entries: map<NodeId, Entry>,
    closes: map<Client, nat>,
    workers: map<WorkerId, Worker>,
    phase: Phase)

  const EMPTY_POOL := Pool(map[], map[], map[], Idle)

  datatype Step =
    | StartRound(source: seq<Item>)
    | Check(w: WorkerId)
    | CreateFails(w: WorkerId)
    | CreateClient(w: WorkerId, client: Client)
    | FirstSyncFails(w: WorkerId)
    | InsertEntry(w: WorkerId)
    | StartOutdated
    | Decide(w: WorkerId)
    | CloseEntry(w: WorkerId)
    | RemoveEntry(w: WorkerId)
    | FinishRound
    | CloseCluster

  function Uids(source: seq<Item>): set<string> {
    set i | 0 <= i < |source| :: source[i].uid
  }

  function ItemWorkers(source: seq<Item>): (r: set<WorkerId>)
    ensures forall w :: w in r ==> w.OfItem? && w.index < |source|
  {
    set i: nat | i < |source| :: OfItem(i)
  }

  function NodeWorkers(entries: map<NodeId, Entry>): (r: set<WorkerId>)
    ensures forall w :: w in r ==> w.OfNode? && w.node in entries
  {
    set n | n in entries :: OfNode(n)
  }

  predicate Held(s: Pool, c: Client) {
    exists n | n in s.entries :: s.entries[n].client == c
  }

  function Goto(s: Pool, w: WorkerId, next: Worker): Pool {
    s.(workers := s.workers[w := next])
  }

  function End(s: Pool, w: WorkerId): Pool {
    s.(workers := s.workers - {w})
  }

  function Closing(s: Pool, c: Client): Pool {
    if c in s.closes then s.(closes := s.closes[c := s.closes[c] + 1]) else s
  }

  /** None when the step is not the next one of its goroutine. */
  function Exec(s: Pool, step: Step): Option<Pool> {
    match step
    case StartRound(source) =>
      if !s.phase.Idle? then None
      else Some(s.(phase := Discovering(source),
                   workers := map w | w in ItemWorkers(source) :: Checking(source[w.index])))
    case StartOutdated =>
      if !(s.phase.Discovering? && s.workers == map[]) then None
      else Some(s.(phase := Outdating(s.phase.source),
                   workers := map w | w in NodeWorkers(s.entries) :: Deciding(s.entries[w.node])))
    case FinishRound =>
      if !(s.phase.Outdating? && s.workers == map[]) then None else Some(s.(phase := Idle))
    case CloseCluster =>
      Some(s.(closes := map c | c in s.closes :: s.closes[c] + if Held(s, c) then 1 else 0))
    case _ => if step.w in s.workers then ExecWorker(s, step, s.workers[step.w]) else None
  }

  function ExecWorker(s: Pool, step: Step, worker: Worker): Option<Pool>
    requires !step.StartRound? && !step.StartOutdated? && !step.FinishRound? && !step.CloseCluster?
  {
    match (step, worker)
    case (Check(w), Checking(item)) => Some(if item.node in s.entries then End(s, w) else Goto(s, w, Creating(item)))
    case (CreateFails(w), Creating(item)) => Some(End(s, w))
    case (CreateClient(w, c), Creating(item)) =>
      if c in s.closes then None else Some(Goto(s, w, Holding(item, c)).(closes := s.closes[c := 0]))
    case (FirstSyncFails(w), Holding(item, c)) => Some(End(Closing(s, c), w))
    case (InsertEntry(w), Holding(item, c)) =>
      Some(End(s, w).(entries := s.entries[item.node := Entry(item.node, item.uid, c)]))
    case (Decide(w), Deciding(entry)) =>
      if !s.phase.Outdating? then None
      else Some(if entry.uid in Uids(s.phase.source) then End(s, w) else Goto(s, w, Removing(entry)))
    case (CloseEntry(w), Removing(entry)) => Some(Goto(Closing(s, entry.client), w, Closed(entry)))
    case (RemoveEntry(w), Closed(entry)) => Some(End(s, w).(entries := s.entries - {entry.node}))
    case _ => None
  }

  /** Step k leads from state k to state k + 1. */
  ghost predicate Follows(states: seq<Pool>, steps: seq<Step>, k: nat)
    requires k < |steps| && k + 1 < |states|
  {
    Exec(states[k], steps[k]) == Some(states[k + 1])
  }

  ghost predicate IsRun(states: seq<Pool>, steps: seq<Step>) {
    && |states| == |steps| + 1
    && forall k: nat :: k < |steps| ==> Follows(states, steps, k)
  }

  // ---------------------------------------------------------------------------------------
  // The client ledger
  // ---------------------------------------------------------------------------------------

  ghost predicate EntriesOk(s: Pool) {
    && (forall n :: n in s.entries ==> s.entries[n].node == n && s.entries[n].client in s.closes)
    && (forall n, m :: n in s.entries && m in s.entries && n != m ==> s.entries[n].client != s.entries[m].client)
  }

  /** A goroutine past its check found no entry for its node, and there still is none. */
  ghost predicate DiscovererOk(s: Pool, w: WorkerId)
    requires s.phase.Discovering? && w in s.workers
  {
    var worker := s.workers[w];
    && (worker.Checking? || worker.Creating? || worker.Holding?)
    && w.OfItem? && w.index < |s.phase.source| && worker.item == s.phase.source[w.index]
    && (!worker.Checking? ==> worker.item.node !in s.entries)
    && (worker.Holding? ==> worker.client in s.closes && s.closes[worker.client] == 0 && !Held(s, worker.client))
  }

  /** Two goroutines for one node both find it pooled; two clients in hand are different. */
  ghost predicate NoClash(s: Pool, w: WorkerId, v: WorkerId)
    requires s.phase.Discovering? && w in s.workers && v in s.workers
    requires DiscovererOk(s, w) && DiscovererOk(s, v)
  {
    && (s.workers[w].item.node == s.workers[v].item.node ==> s.workers[w].item.node in s.entries)
    && (s.workers[w].Holding? && s.workers[v].Holding? ==> s.workers[w].client != s.workers[v].client)
  }

  ghost predicate DiscoverersOk(s: Pool)
    requires s.phase.Discovering?
  {
    && (forall w :: w in s.workers ==> DiscovererOk(s, w))
    && (forall w, v :: w in s.workers && v in s.workers && w != v ==> NoClash(s, w, v))
  }

  ghost predicate RemoversOk(s: Pool) {
    forall w :: w in s.workers ==>
      && (s.workers[w].Deciding? || s.workers[w].Removing? || s.workers[w].Closed?)
      && w == OfNode(s.workers[w].entry.node)
      && w.node in s.entries && s.entries[w.node] == s.workers[w].entry
  }

  ghost predicate WorkersOk(s: Pool)
  {
    match s.phase
    case Idle => s.workers == map[]
    case Discovering(_) => DiscoverersOk(s)
    case Outdating(_) => RemoversOk(s)
  }

  ghost predicate InHand(s: Pool, c: Client) {
    exists w :: w in s.workers && s.workers[w].Holding? && s.workers[w].client == c
  }

  predicate BeingRemoved(s: Pool, n: NodeId) {
    OfNode(n) in s.workers && s.workers[OfNode(n)].Closed?
  }

  ghost predicate ClosesOk(s: Pool) {
    && (forall n :: n in s.entries && s.entries[n].client in s.closes
                    ==> s.closes[s.entries[n].client] == if BeingRemoved(s, n) then 1 else 0)
    && (forall c :: c in s.closes ==> s.closes[c] == 1 || (s.closes[c] == 0 && (Held(s, c) || InHand(s, c))))
  }

  ghost predicate Ledger(s: Pool) {
    EntriesOk(s) && WorkersOk(s) && ClosesOk(s)
  }

  /** The source names no node twice, unless that node is pooled already. */
  predicate NoDoubleDiscovery(source: seq<Item>, entries: map<NodeId, Entry>) {
    forall i, j | 0 <= i < j < |source| :: source[i].node == source[j].node ==> source[i].node in entries
  }

  predicate MayRun(s: Pool, step: Step) {
    && (step.StartRound? ==> NoDoubleDiscovery(step.source, s.entries))
    && !step.CloseCluster?
  }

  lemma StartKeepsLedger(s: Pool, step: Step)
    requires Ledger(s) && Exec(s, step).Some? && MayRun(s, step)
    requires step.StartRound? || step.StartOutdated? || step.FinishRound?
    ensures Ledger(Exec(s, step).value)
  {
    var s' := Exec(s, step).value;
    forall c | c in s.closes && Held(s, c) ensures Held(s', c) {
      var n :| n in s.entries && s.entries[n].client == c;
      assert s'.entries[n].client == c;
    }
    assert forall c :: !InHand(s, c);
    assert forall n :: n in s.entries ==> !BeingRemoved(s, n) && !BeingRemoved(s', n);
  }

  lemma CheckKeepsWorkers(s: Pool, w: WorkerId)
    requires EntriesOk(s) && s.phase.Discovering? && DiscoverersOk(s) && w in s.workers && s.workers[w].Checking?
    ensures var s' := Exec(s, Check(w)).value; EntriesOk(s') && DiscoverersOk(s')
  {
    var s' := Exec(s, Check(w)).value;
    assert DiscovererOk(s, w);
    assert forall v :: v in s'.workers ==> DiscovererOk(s, v) && DiscovererOk(s', v);
    assert forall v, u :: v in s'.workers && u in s'.workers && u != v ==> NoClash(s, u, v) && NoClash(s', u, v);
  }

  lemma EndKeepsWorkers(s: Pool, w: WorkerId)
    requires EntriesOk(s) && s.phase.Discovering? && DiscoverersOk(s) && w in s.workers
    ensures EntriesOk(End(s, w)) && DiscoverersOk(End(s, w))
  {
  }

  lemma CreateKeepsWorkers(s: Pool, w: WorkerId, c: Client)
    requires EntriesOk(s) && s.phase.Discovering? && DiscoverersOk(s) && w in s.workers && s.workers[w].Creating? && c !in s.closes
    ensures var s' := Exec(s, CreateClient(w, c)).value; EntriesOk(s') && DiscoverersOk(s')
  {
    var s' := Exec(s, CreateClient(w, c)).value;
    assert DiscovererOk(s, w);
    assert forall v :: v in s'.workers ==> DiscovererOk(s, v) && DiscovererOk(s', v);
    assert forall v, u :: v in s'.workers && u in s'.workers && u != v ==> NoClash(s, u, v) && NoClash(s', u, v);
  }

  lemma FirstSyncFailsKeepsWorkers(s: Pool, w: WorkerId)
    requires EntriesOk(s) && s.phase.Discovering? && DiscoverersOk(s) && w in s.workers && s.workers[w].Holding?
    ensures var s' := Exec(s, FirstSyncFails(w)).value; EntriesOk(s') && DiscoverersOk(s')
  {
  }

  lemma InsertKeepsWorkers(s: Pool, w: WorkerId)
    requires EntriesOk(s) && s.phase.Discovering? && DiscoverersOk(s) && w in s.workers && s.workers[w].Holding?
    ensures var s' := Exec(s, InsertEntry(w)).value; EntriesOk(s') && DiscoverersOk(s')
  {
    var s' := Exec(s, InsertEntry(w)).value;
    var node, c := s.workers[w].item.node, s.workers[w].client;
    forall n | n in s.entries ensures s.entries[n].client != c && n != node {
    }
    forall v | v in s'.workers && s'.workers[v].Holding? ensures !Held(s', s'.workers[v].client) {
      assert s.workers[v] == s'.workers[v] && !Held(s, s.workers[v].client);
    }
    forall v | v in s'.workers && !s'.workers[v].Checking? ensures s'.workers[v].item.node !in s'.entries {
      assert s.workers[v] == s'.workers[v];
    }
  }

  lemma DiscovererKeepsWorkers(s: Pool, step: Step)
    requires Ledger(s) && s.phase.Discovering? && Exec(s, step).Some? && MayRun(s, step) && !step.StartOutdated?
    ensures var s' := Exec(s, step).value; s'.phase == s.phase && EntriesOk(s') && DiscoverersOk(s')
  {
    match step
    case Check(w) => CheckKeepsWorkers(s, w);
    case CreateFails(w) => EndKeepsWorkers(s, w);
    case CreateClient(w, c) => CreateKeepsWorkers(s, w, c);
    case FirstSyncFails(w) => FirstSyncFailsKeepsWorkers(s, w);
    case InsertEntry(w) => InsertKeepsWorkers(s, w);
    case _ =>
  }

  lemma DiscovererKeepsCloses(s: Pool, step: Step)
    requires Ledger(s) && s.phase.Discovering? && Exec(s, step).Some? && MayRun(s, step) && !step.StartOutdated?
    ensures ClosesOk(Exec(s, step).value)
  {
    var s' := Exec(s, step).value;
    var w := step.w;
    forall n | n in s.entries && n in s'.entries ensures s'.entries[n] == s.entries[n] && !BeingRemoved(s, n) && !BeingRemoved(s', n) {
    }
    forall c | c in s'.closes && s'.closes[c] != 1 ensures s'.closes[c] == 0 && (Held(s', c) || InHand(s', c)) {
      if c !in s.closes {
        assert s'.workers[w] == Holding(s.workers[w].item, c);
      } else if Held(s, c) {
        var n :| n in s.entries && s.entries[n].client == c;
        assert s'.entries[n].client == c;
      } else {
        var v :| v in s.workers && s.workers[v].Holding? && s.workers[v].client == c;
        if v in s'.workers {
          assert s'.workers[v] == s.workers[v];
        } else {
          assert s'.entries[s.workers[v].item.node].client == c;
        }
      }
    }
  }

  lemma StillHeld(s: Pool, s': Pool, gone: set<NodeId>)
    requires ClosesOk(s) && s.phase.Outdating? && RemoversOk(s)
    requires forall n :: n in s.entries && n !in gone ==> n in s'.entries && s'.entries[n] == s.entries[n]
    requires forall c :: c in s'.closes && s'.closes[c] != 1 ==> c in s.closes && s.closes[c] == s'.closes[c]
    requires forall n :: n in s.entries && n in gone ==> s.entries[n].client in s.closes && s.closes[s.entries[n].client] == 1
    ensures forall c :: c in s'.closes ==> s'.closes[c] == 1 || (s'.closes[c] == 0 && Held(s', c))
  {
    forall c | c in s'.closes && s'.closes[c] != 1 ensures s'.closes[c] == 0 && Held(s', c) {
      assert !InHand(s, c);
      var n :| n in s.entries && s.entries[n].client == c;
      assert n in s'.entries && s'.entries[n].client == c;
    }
  }

  lemma DecideKeepsLedger(s: Pool, w: WorkerId)
    requires Ledger(s) && s.phase.Outdating? && Exec(s, Decide(w)).Some?
    ensures Ledger(Exec(s, Decide(w)).value)
  {
    var s' := Exec(s, Decide(w)).value;
    assert s'.entries == s.entries && s'.closes == s.closes && s'.phase == s.phase;
    DecisionLeavesRest(s, w, s');
    StillHeld(s, s', {});
  }

  lemma DecisionLeavesRest(s: Pool, w: WorkerId, s': Pool)
    requires EntriesOk(s) && s.phase.Outdating? && RemoversOk(s) && w in s.workers && s.workers[w].Deciding?
    requires s' == s.(workers := s.workers - {w}) || s' == s.(workers := s.workers[w := Removing(s.workers[w].entry)])
    ensures EntriesOk(s') && RemoversOk(s')
    ensures forall n :: BeingRemoved(s', n) == BeingRemoved(s, n)
  {
  }

  lemma CloseKeepsLedger(s: Pool, w: WorkerId)
    requires Ledger(s) && s.phase.Outdating? && Exec(s, CloseEntry(w)).Some?
    ensures Ledger(Exec(s, CloseEntry(w)).value)
  {
    var entry := s.workers[w].entry;
    assert s.entries[w.node] == entry && !BeingRemoved(s, w.node) && entry.client in s.closes;
    var s' := s.(closes := s.closes[entry.client := 1], workers := s.workers[w := Closed(entry)]);
    assert Exec(s, CloseEntry(w)) == Some(s');
    ClosingLeavesRest(s, w, s');
    ClosingKeepsCloses(s, w, s');
  }

  lemma ClosingLeavesRest(s: Pool, w: WorkerId, s': Pool)
    requires EntriesOk(s) && s.phase.Outdating? && RemoversOk(s) && w in s.workers && s.workers[w].entry.client in s.closes
    requires s' == s.(closes := s.closes[s.workers[w].entry.client := 1], workers := s.workers[w := Closed(s.workers[w].entry)])
    ensures EntriesOk(s') && RemoversOk(s')
  {
  }

  lemma ClosingKeepsCloses(s: Pool, w: WorkerId, s': Pool)
    requires EntriesOk(s) && ClosesOk(s) && s.phase.Outdating? && RemoversOk(s) && w in s.workers
    requires s' == s.(closes := s.closes[s.workers[w].entry.client := 1], workers := s.workers[w := Closed(s.workers[w].entry)])
    ensures ClosesOk(s')
  {
    StillHeld(s, s', {});
    forall n | n in s.entries ensures BeingRemoved(s', n) == (BeingRemoved(s, n) || n == w.node) {
      assert w == OfNode(w.node);
    }
  }

  lemma RemovalLeavesRest(s: Pool, w: WorkerId, s': Pool)
    requires EntriesOk(s) && s.phase.Outdating? && RemoversOk(s) && w in s.workers
    requires s' == s.(entries := s.entries - {w.node}, workers := s.workers - {w})
    ensures EntriesOk(s') && RemoversOk(s')
  {
  }

  lemma RemoveKeepsLedger(s: Pool, w: WorkerId)
    requires Ledger(s) && s.phase.Outdating? && Exec(s, RemoveEntry(w)).Some?
    ensures Ledger(Exec(s, RemoveEntry(w)).value)
  {
    assert s.entries[w.node] == s.workers[w].entry && BeingRemoved(s, w.node);
    var s' := s.(entries := s.entries - {w.node}, workers := s.workers - {w});
    assert Exec(s, RemoveEntry(w)) == Some(s');
    RemovalLeavesRest(s, w, s');
    RemovalKeepsCloses(s, w, s');
  }

  lemma RemovalKeepsCloses(s: Pool, w: WorkerId, s': Pool)
    requires EntriesOk(s) && ClosesOk(s) && s.phase.Outdating? && RemoversOk(s) && w in s.workers && s.workers[w].Closed?
    requires s' == s.(entries := s.entries - {w.node}, workers := s.workers - {w})
    ensures ClosesOk(s')
  {
    assert BeingRemoved(s, w.node);
    StillHeld(s, s', {w.node});
    forall n | n in s'.entries ensures n in s.entries && BeingRemoved(s', n) == BeingRemoved(s, n) {
      assert OfNode(n) != w;
    }
  }

  lemma RemoverKeepsLedger(s: Pool, step: Step)
    requires Ledger(s) && s.phase.Outdating? && Exec(s, step).Some? && MayRun(s, step) && !step.FinishRound?
    ensures Ledger(Exec(s, step).value)
  {
    match step
    case Decide(w) => DecideKeepsLedger(s, w);
    case CloseEntry(w) => CloseKeepsLedger(s, w);
    case RemoveEntry(w) => RemoveKeepsLedger(s, w);
    case _ =>
  }

  /** No interleaving of a round's goroutines, whichever creations fail, upsets the ledger. */
  lemma StepKeepsLedger(s: Pool, step: Step)
    requires Ledger(s) && Exec(s, step).Some? && MayRun(s, step)
    ensures Ledger(Exec(s, step).value)
  {
    if step.StartRound? || step.StartOutdated? || step.FinishRound? {
      StartKeepsLedger(s, step);
    } else if s.phase.Discovering? {
      DiscovererKeepsWorkers(s, step);
      DiscovererKeepsCloses(s, step);
    } else {
      RemoverKeepsLedger(s, step);
    }
  }

  lemma {:induction false} RunKeepsLedger(states: seq<Pool>, steps: seq<Step>, n: nat)
    requires IsRun(states, steps) && states[0] == EMPTY_POOL && n < |states|
    requires forall k :: 0 <= k < |steps| ==> MayRun(states[k], steps[k])
    ensures Ledger(states[n])
  {
    if n > 0 {
      RunKeepsLedger(states, steps, n - 1);
      assert Follows(states, steps, n - 1);
      StepKeepsLedger(states[n - 1], steps[n - 1]);
    }
  }

  /**
   Between rounds of every run each client ever created is either open and held by exactly one
   entry, stored under its own NodeID, or was closed exactly once and is held by none.
   */
  lemma ClientsAreHeldOrClosed(states: seq<Pool>, steps: seq<Step>, n: nat, c: Client)
    requires IsRun(states, steps) && states[0] == EMPTY_POOL && n < |states|
    requires forall k :: 0 <= k < |steps| ==> MayRun(states[k], steps[k])
    requires states[n].phase.Idle? && c in states[n].closes
    ensures var s := states[n];
            || (s.closes[c] == 1 && !Held(s, c))
            || (s.closes[c] == 0 && exists node :: node in s.entries && s.entries[node].client == c && s.entries[node].node == node
                                                   && forall m :: m in s.entries && s.entries[m].client == c ==> m == node)
  {
    RunKeepsLedger(states, steps, n);
    var s := states[n];
    assert !InHand(s, c);
    if Held(s, c) {
      var node :| node in s.entries && s.entries[node].client == c;
      assert !BeingRemoved(s, node);
    }
  }

  // ---------------------------------------------------------------------------------------
  // A node discovered twice loses a client
  // ---------------------------------------------------------------------------------------

  /** An open client that no entry and no goroutine knows. */
  ghost predicate Lost(s: Pool, c: Client) {
    && c in s.closes && s.closes[c] == 0 && !Held(s, c)
    && forall w :: w in s.workers && (s.workers[w].Holding? || s.workers[w].Deciding? || s.workers[w].Removing? || s.workers[w].Closed?)
                   ==> ClientOf(s.workers[w]) != c
  }

  function ClientOf(worker: Worker): Client
    requires !worker.Checking? && !worker.Creating?
  {
    if worker.Holding? then worker.client else worker.entry.client
  }

  lemma StepKeepsLost(s: Pool, step: Step, c: Client)
    requires Lost(s, c) && Exec(s, step).Some?
    ensures Lost(Exec(s, step).value, c)
  {
    var s' := Exec(s, step).value;
    forall n | n in s'.entries ensures s'.entries[n].client != c {
    }
    forall w | w in s'.workers && !s'.workers[w].Checking? && !s'.workers[w].Creating? ensures ClientOf(s'.workers[w]) != c {
      if step.StartOutdated? {
        assert s'.workers[w].entry == s.entries[w.node];
      }
    }
  }

  /** A lost client is never closed, not even by closing the cluster. */
  lemma {:induction false} LostForever(states: seq<Pool>, steps: seq<Step>, n: nat, c: Client)
    requires IsRun(states, steps) && Lost(states[0], c) && n < |states|
    ensures Lost(states[n], c)
  {
    if n > 0 {
      LostForever(states, steps, n - 1, c);
      assert Follows(states, steps, n - 1);
      StepKeepsLost(states[n - 1], steps[n - 1], c);
    }
  }

  /** The state in which two goroutines, for one absent node, have both passed the check and created a client. */
  ghost predicate BothHold(s: Pool, a: WorkerId, b: WorkerId, c: Client, d: Client) {
    && a != b && a in s.workers && b in s.workers
    && s.workers[a].Holding? && s.workers[a].client == c
    && s.workers[b].Holding? && s.workers[b].client == d
    && s.workers[a].item.node == s.workers[b].item.node
    && c in s.closes && s.closes[c] == 0 && c != d && !Held(s, c)
    && forall w :: w in s.workers && w != a && w != b ==> s.workers[w].Checking?
  }

  lemma BothInsert(s: Pool, a: WorkerId, b: WorkerId, c: Client, d: Client)
    requires BothHold(s, a, b, c, d)
    ensures Exec(s, InsertEntry(a)).Some?
    ensures Exec(Exec(s, InsertEntry(a)).value, InsertEntry(b)).Some?
    ensures Lost(Exec(Exec(s, InsertEntry(a)).value, InsertEntry(b)).value, c)
  {
    var s1 := Exec(s, InsertEntry(a)).value;
    assert s1.workers[b] == s.workers[b];
    var s2 := Exec(s1, InsertEntry(b)).value;
    forall n | n in s2.entries ensures s2.entries[n].client != c {
      assert n != s.workers[a].item.node ==> n in s.entries && s2.entries[n] == s.entries[n];
    }
  }

  lemma BothCreate(s: Pool, a: WorkerId, b: WorkerId, c: Client, d: Client) returns (s1: Pool, s2: Pool, s3: Pool, s4: Pool)
    requires a != b && a in s.workers && b in s.workers && c !in s.closes && d !in s.closes && c != d && !Held(s, c)
    requires forall w :: w in s.workers ==> s.workers[w].Checking?
    requires s.workers[a].item.node == s.workers[b].item.node && s.workers[a].item.node !in s.entries
    ensures Exec(s, Check(a)) == Some(s1) && Exec(s1, Check(b)) == Some(s2)
    ensures Exec(s2, CreateClient(a, c)) == Some(s3) && Exec(s3, CreateClient(b, d)) == Some(s4)
    ensures BothHold(s4, a, b, c, d)
  {
    s1 := Goto(s, a, Creating(s.workers[a].item));
    s2 := Goto(s1, b, Creating(s.workers[b].item));
    s3 := Goto(s2, a, Holding(s.workers[a].item, c)).(closes := s.closes[c := 0]);
    s4 := Goto(s3, b, Holding(s.workers[b].item, d)).(closes := s3.closes[d := 0]);
  }

  /** Two goroutines for one absent node both pass the check, and the later insert hides the earlier one's client. */
  lemma DoubleDiscoveryLosesClient(s: Pool, source: seq<Item>, i: nat, j: nat, c: Client, d: Client)
    returns (states: seq<Pool>, steps: seq<Step>)
    requires Ledger(s) && s.phase.Idle? && i < j < |source|
    requires source[i].node == source[j].node && source[i].node !in s.entries
    requires c !in s.closes && d !in s.closes && c != d
    ensures IsRoundFrom(s, source, states, steps)
    ensures Lost(states[|steps|], c)
  {
    var a, b := OfItem(i), OfItem(j);
    assert a in ItemWorkers(source) && b in ItemWorkers(source);
    var s1 := Exec(s, StartRound(source)).value;
    var s2, s3, s4, s5 := BothCreate(s1, a, b, c, d);
    BothInsert(s5, a, b, c, d);
    var s6 := Exec(s5, InsertEntry(a)).value;
    var s7 := Exec(s6, InsertEntry(b)).value;
    states, steps := [s, s1], [StartRound(source)];
    states, steps := Extend(states, steps, Check(a), s2);
    states, steps := Extend(states, steps, Check(b), s3);
    states, steps := Extend(states, steps, CreateClient(a, c), s4);
    states, steps := Extend(states, steps, CreateClient(b, d), s5);
    states, steps := Extend(states, steps, InsertEntry(a), s6);
    states, steps := Extend(states, steps, InsertEntry(b), s7);
  }

  lemma Extend(states: seq<Pool>, steps: seq<Step>, step: Step, next: Pool) returns (states': seq<Pool>, steps': seq<Step>)
    requires IsRun(states, steps) && steps != [] && Exec(states[|steps|], step) == Some(next)
    requires !step.StartRound? && !step.CloseCluster?
    requires forall k :: 0 < k < |steps| ==> !steps[k].StartRound? && !steps[k].CloseCluster?
    ensures IsRun(states', steps') && |steps'| == |steps| + 1 && states'[0] == states[0] && steps'[0] == steps[0]
    ensures states'[|steps'|] == next
    ensures forall k :: 0 < k < |steps'| ==> !steps'[k].StartRound? && !steps'[k].CloseCluster?
  {
    states', steps' := states + [next], steps + [step];
    forall k: nat | k < |steps'| ensures Follows(states', steps', k) {
      assert k < |steps| ==> Follows(states, steps, k);
    }
  }

  /** A run of one round over source, from s. */
  ghost predicate IsRoundFrom(s: Pool, source: seq<Item>, states: seq<Pool>, steps: seq<Step>) {
    && IsRun(states, steps) && states[0] == s && steps != [] && steps[0] == StartRound(source)
    && forall k :: 0 < k < |steps| ==> !steps[k].StartRound? && !steps[k].CloseCluster?
  }

  lemma {:induction false} RoundKeepsLedger(s: Pool, source: seq<Item>, states: seq<Pool>, steps: seq<Step>, n: nat)
    requires Ledger(s) && IsRoundFrom(s, source, states, steps) && NoDoubleDiscovery(source, s.entries) && n < |states|
    ensures Ledger(states[n])
  {
    if n > 0 {
      RoundKeepsLedger(s, source, states, steps, n - 1);
      assert Follows(states, steps, n - 1);
      StepKeepsLedger(states[n - 1], steps[n - 1]);
    }
  }

  lemma {:induction false} FreshClient(closes: set<Client>) returns (c: Client)
    ensures forall d :: d in closes ==> d < c
  {
    if closes == {} {
      c := 0;
    } else {
      var d :| d in closes;
      var rest := FreshClient(closes - {d});
      c := if d < rest then rest else d + 1;
      assert forall e :: e in closes ==> e == d || e in closes - {d};
    }
  }

  /** A round can lose a client exactly when the source names an unpooled node twice. */
  lemma RoundLosesNoClientIff(s: Pool, source: seq<Item>)
    requires Ledger(s) && s.phase.Idle?
    ensures NoDoubleDiscovery(source, s.entries)
            <==> forall states, steps, c :: IsRoundFrom(s, source, states, steps) ==> !Lost(states[|steps|], c)
  {
    if NoDoubleDiscovery(source, s.entries) {
      forall states, steps, c | IsRoundFrom(s, source, states, steps) ensures !Lost(states[|steps|], c) {
        RoundKeepsLedger(s, source, states, steps, |steps|);
        assert ClosesOk(states[|steps|]);
      }
    } else {
      var i, j :| 0 <= i < j < |source| && source[i].node == source[j].node && source[i].node !in s.entries;
      var c := FreshClient(s.closes.Keys);
      var states, steps := DoubleDiscoveryLosesClient(s, source, i, j, c, c + 1);
      assert IsRoundFrom(s, source, states, steps) && Lost(states[|steps|], c);
    }
  }
}
