/**
 The API's shutdown: serve goroutines, the watcher that drains the servers, the main goroutine that
 waits for all of them, runs the cleanups and returns.  Any goroutine may take the next step.
 */
module Shutdown {
  import opened TemplateTables

  datatype Server = Http | Grpc | Edge | Pprof

  /** Pprof is drained by the watcher itself, after the other three. */
  datatype Drain = NotStarted | Running | Finished(clean: bool)

  datatype Watcher = Watching | Awake | Unready | Draining | StoppingPprof | WatcherDone

  /** deferred counts the deferred calls of run() already made, last registered first. */
  datatype Main = WaitingForServers | Cleaning(next: nat) | Deferring(deferred: nat, code: nat) | Exited(code: nat)

  datatype State = State(
    serving: set<Server>,
    inFlight: nat,         // HTTP requests, whose contexts derive from the root context
    hijacked: nat,         // those on connections the h2c handler took over, which Shutdown does not wait for
    signalled: bool,       // signalCtx is cancelled
    serveEnded: bool,      // serveErrCtx is cancelled
    rootCancelled: bool,
    healthy: bool,
    watcher: Watcher,
    http: Drain,
    grpc: Drain,
    edge: Drain,
    main: Main,
    onceDone: bool,
    slots: seq<bool>,      // which of the cleanupFns are not yet nil
    runs: seq<nat>,        // how often each cleanup was started
    cleaning: set<nat>,    // cleanups started and not finished
    exitCode: nat)

  function Start(cleanups: nat): State {
    State({Http, Grpc, Edge, Pprof}, 0, 0, false, false, false, true, Watching, NotStarted, NotStarted, NotStarted,
          WaitingForServers, false, seq(cleanups, _ => true), seq(cleanups, _ => 0), {}, 0)
  }

  datatype Step =
    // environment
    | Signal
    | RequestArrives(takenOver: bool)
    | RequestEnds(takenOver: bool)
    // serve goroutines
    | ServeReturns(server: Server, failed: bool)
    // watcher
    | Wake
    | MarkUnready
    | StartDrains
    | DrainEnds(server: Server, clean: bool) // not clean: the bounded stop ran into its deadline
    | StopPprof
    | PprofStops
    // main
    | ServersDone
    | StartCleanup
    | CleanupEnds(index: nat, failed: bool)
    | CleanupsDone
    | RunDeferred

  predicate IsEnvironment(step: Step) {
    step.Signal? || step.RequestArrives? || step.RequestEnds?
  }

  /** The server's Shutdown, GracefulStop or Stop has been called, so its Serve call returns. */
  predicate StopRequested(s: State, server: Server) {
    match server
    case Http => !s.http.NotStarted?
    case Grpc => !s.grpc.NotStarted?
    case Edge => !s.edge.NotStarted?
    case Pprof => s.watcher.StoppingPprof? || s.watcher.WatcherDone?
  }

  function Failing(s: State, failed: bool): State {
    if failed then s.(exitCode := s.exitCode + 1) else s
  }

  predicate IsWatcherStep(step: Step) {
    step.Wake? || step.MarkUnready? || step.StartDrains? || step.DrainEnds? || step.StopPprof? || step.PprofStops?
  }

  predicate IsMainStep(step: Step) {
    step.ServersDone? || step.StartCleanup? || step.CleanupEnds? || step.CleanupsDone? || step.RunDeferred?
  }

  /** None when the step's goroutine is not at that point, or has to wait there. */
  function Exec(s: State, step: Step): Option<State> {
    if IsWatcherStep(step) then ExecWatcher(s, step)
    else if IsMainStep(step) then ExecMain(s, step)
    else ExecServe(s, step)
  }

  function ExecServe(s: State, step: Step): Option<State>
    requires IsEnvironment(step) || step.ServeReturns?
  {
    match step
    case Signal => Some(s.(signalled := true))
    case RequestArrives(takenOver) =>
      // an open taken-over connection may carry further requests at any time
      if !takenOver && !(Http in s.serving && s.http.NotStarted?) then None
      else Some(s.(inFlight := s.inFlight + if takenOver then 0 else 1, hijacked := s.hijacked + if takenOver then 1 else 0))
    case RequestEnds(takenOver) =>
      if (if takenOver then s.hijacked else s.inFlight) == 0 then None
      else Some(s.(inFlight := s.inFlight - if takenOver then 0 else 1, hijacked := s.hijacked - if takenOver then 1 else 0))
    case ServeReturns(server, failed) =>
      if server !in s.serving || (!failed && !StopRequested(s, server)) then None
      else if server.Pprof? then Some(s.(serving := s.serving - {server}))
      else Some(Failing(s, failed).(serving := s.serving - {server}, serveEnded := true))
  }

  function ExecWatcher(s: State, step: Step): Option<State>
    requires IsWatcherStep(step)
  {
    match step
    case Wake =>
      if s.watcher.Watching? && (s.signalled || s.serveEnded) then Some(s.(watcher := Awake)) else None
    case MarkUnready => if s.watcher.Awake? then Some(s.(watcher := Unready, healthy := false)) else None
    case StartDrains =>
      if s.watcher.Unready? then Some(s.(watcher := Draining, http := Running, grpc := Running, edge := Running)) else None
    case DrainEnds(server, clean) =>
      if MayEndDrain(s, server, clean) then Some(DrainEnded(s, server, clean)) else None
    case StopPprof =>
      if s.watcher.Draining? && s.http.Finished? && s.grpc.Finished? && s.edge.Finished?
      then Some(s.(watcher := StoppingPprof)) else None
    case PprofStops => if s.watcher.StoppingPprof? then Some(s.(watcher := WatcherDone)) else None
  }

  predicate MayEndDrain(s: State, server: Server, clean: bool) {
    match server
    case Http => s.http.Running? && (clean ==> s.inFlight == 0)
    case Grpc => s.grpc.Running?
    case Edge => s.edge.Running?
    case Pprof => false
  }

  /** Only the HTTP drain's deadline counts as an error. */
  function DrainEnded(s: State, server: Server, clean: bool): State {
    s.(http := if server.Http? then Finished(clean) else s.http,
       grpc := if server.Grpc? then Finished(clean) else s.grpc,
       edge := if server.Edge? then Finished(clean) else s.edge,
       exitCode := s.exitCode + if server.Http? && !clean then 1 else 0)
  }

  function ExecMain(s: State, step: Step): Option<State>
    requires IsMainStep(step)
  {
    match step
    case ServersDone =>
      if s.main.WaitingForServers? && s.serving == {} && s.watcher.WatcherDone?
      then Some(EnterCleanup(s)) else None
    case StartCleanup =>
      if !(s.main.Cleaning? && s.main.next < |s.slots| && s.main.next < |s.runs|) then None
      else
        var i := s.main.next;
        if !s.slots[i] then Some(s.(main := Cleaning(i + 1)))
        else Some(s.(main := Cleaning(i + 1), slots := s.slots[i := false], runs := s.runs[i := s.runs[i] + 1],
                     cleaning := s.cleaning + {i}))
    case CleanupEnds(i, failed) =>
      if i in s.cleaning then Some(Failing(s, failed).(cleaning := s.cleaning - {i})) else None
    case CleanupsDone =>
      if s.main.Cleaning? && s.main.next >= |s.slots| && s.cleaning == {} then Some(s.(main := Deferring(0, s.exitCode))) else None
    case RunDeferred => if s.main.Deferring? then ExecDeferred(s, s.main.deferred, s.main.code) else None
  }

  /**
   The deferred calls that matter here, in the order they run: wg.Wait, serveErrCancel, sigCancel,
   cleanup, and last the root context's cancel.
   */
  function ExecDeferred(s: State, k: nat, code: nat): Option<State> {
    if k == 0 && !(s.serving == {} && s.watcher.WatcherDone?) then None
    else Some(s.(main := AfterDeferred(s, k, code),
                 serveEnded := s.serveEnded || k == 1,
                 signalled := s.signalled || k == 2,
                 onceDone := s.onceDone || k == 3,
                 rootCancelled := s.rootCancelled || k >= 4))
  }

  function AfterDeferred(s: State, k: nat, code: nat): Main {
    if k < 3 || (k == 3 && s.onceDone) then Deferring(k + 1, code)
    else if k == 3 then Cleaning(0)
    else Exited(code)
  }

  /** cleanupOnce.Do. */
  function EnterCleanup(s: State): State {
    s.(main := Cleaning(0), onceDone := true)
  }

  ghost predicate IsRun(states: seq<State>, steps: seq<Step>) {
    && |states| == |steps| + 1
    && forall k :: 0 <= k < |steps| ==> Exec(states[k], steps[k]) == Some(states[k + 1])
  }

  // ---------------------------------------------------------------------------------------
  // Safety
  // ---------------------------------------------------------------------------------------

  predicate ServersAndDrainEnded(s: State) {
    s.serving == {} && s.watcher.WatcherDone? && s.http.Finished? && s.grpc.Finished? && s.edge.Finished?
  }

  /** How far the main goroutine has come with the cleanups. */
  ghost predicate CleanupsAt(s: State, next: nat) {
    && next <= |s.runs| == |s.slots|
    && (forall i :: 0 <= i < |s.runs| ==> s.runs[i] == (if i < next then 1 else 0) && (s.slots[i] <==> i >= next))
    && (forall i :: i in s.cleaning ==> i < next)
  }

  ghost predicate DrainsFollowWatcher(s: State) {
    match s.watcher
    case Watching => s.http.NotStarted? && s.grpc.NotStarted? && s.edge.NotStarted? && s.healthy
    case Awake => s.http.NotStarted? && s.grpc.NotStarted? && s.edge.NotStarted? && s.healthy
    case Unready => s.http.NotStarted? && s.grpc.NotStarted? && s.edge.NotStarted? && !s.healthy
    case Draining => !s.http.NotStarted? && !s.grpc.NotStarted? && !s.edge.NotStarted? && !s.healthy
    case _ => s.http.Finished? && s.grpc.Finished? && s.edge.Finished? && !s.healthy
  }

  ghost predicate MainInv(s: State) {
    match s.main
    case WaitingForServers => CleanupsAt(s, 0) && s.cleaning == {} && !s.onceDone && !s.rootCancelled
    case Cleaning(next) => CleanupsAt(s, next) && s.onceDone && !s.rootCancelled && ServersAndDrainEnded(s)
    case Deferring(_, code) =>
      && CleanupsAt(s, |s.runs|) && s.cleaning == {} && s.onceDone && !s.rootCancelled && ServersAndDrainEnded(s)
      && code == s.exitCode
    case Exited(code) =>
      CleanupsAt(s, |s.runs|) && s.cleaning == {} && s.onceDone && s.rootCancelled && ServersAndDrainEnded(s)
      && code == s.exitCode
  }

  ghost predicate Inv(s: State) {
    && DrainsFollowWatcher(s)
    && MainInv(s)
    && (!s.watcher.Watching? ==> s.signalled || s.serveEnded)
    && (s.serving * {Http, Grpc, Edge} != {Http, Grpc, Edge} ==> s.serveEnded)
    && (s.http == Finished(true) ==> s.inFlight == 0)
  }

  lemma EnvironmentKeepsInv(s: State, step: Step)
    requires Inv(s) && IsEnvironment(step) && ExecServe(s, step).Some?
    ensures Inv(ExecServe(s, step).value)
  {
    var s' := ExecServe(s, step).value;
    EnvironmentLeavesRest(s, step);
    assert s'.serving == s.serving && s'.exitCode == s.exitCode && s'.healthy == s.healthy;
    RestKeepsInv(s, s');
  }

  lemma ServeReturnKeepsInv(s: State, server: Server, failed: bool)
    requires Inv(s) && ExecServe(s, ServeReturns(server, failed)).Some?
    ensures Inv(ExecServe(s, ServeReturns(server, failed)).value)
  {
    var s' := ExecServe(s, ServeReturns(server, failed)).value;
    ServeReturnLeavesRest(s, server, failed);
    assert s.main.WaitingForServers?;
    RestKeepsInv(s, s');
  }

  /** Nothing the watcher or the main goroutine is at has changed. */
  lemma RestKeepsInv(s: State, s': State)
    requires Inv(s) && s'.main == s.main && s'.slots == s.slots && s'.cleaning == s.cleaning && s'.runs == s.runs
    requires s'.watcher == s.watcher && s'.http == s.http && s'.grpc == s.grpc && s'.edge == s.edge && s'.healthy == s.healthy
    requires s'.onceDone == s.onceDone && s'.rootCancelled == s.rootCancelled
    requires s'.serving <= s.serving && (s.main.WaitingForServers? || s'.exitCode == s.exitCode)
    requires (s.signalled ==> s'.signalled) && (s.serveEnded ==> s'.serveEnded)
    requires s'.serving * {Http, Grpc, Edge} != {Http, Grpc, Edge} ==> s'.serveEnded
    requires s'.http == Finished(true) ==> s'.inFlight == 0
    ensures Inv(s')
  {
    CleanupsStay(s, s', match s.main
                        case WaitingForServers => 0
                        case Cleaning(next) => next
                        case _ => |s.runs|);
  }

  lemma ServeKeepsInv(s: State, step: Step)
    requires Inv(s) && Exec(s, step).Some? && (IsEnvironment(step) || step.ServeReturns?)
    ensures Inv(Exec(s, step).value)
  {
    if step.ServeReturns? {
      ServeReturnKeepsInv(s, step.server, step.failed);
    } else {
      EnvironmentKeepsInv(s, step);
    }
  }

  lemma WatcherKeepsInv(s: State, step: Step)
    requires Inv(s) && Exec(s, step).Some?
    requires IsWatcherStep(step)
    ensures Inv(Exec(s, step).value)
  {
    var s' := Exec(s, step).value;
    assert s'.main == s.main && s'.runs == s.runs && s'.slots == s.slots && s'.cleaning == s.cleaning && s'.serving == s.serving;
    assert s.main.WaitingForServers?;
    CleanupsStay(s, s', 0);
  }

  lemma StartCleanupKeepsInv(s: State)
    requires Inv(s) && ExecMain(s, StartCleanup).Some?
    ensures Inv(ExecMain(s, StartCleanup).value)
  {
    var s' := ExecMain(s, StartCleanup).value;
    assert CleanupsAt(s', s.main.next + 1);
  }

  lemma CleanupEndsKeepsInv(s: State, index: nat, failed: bool)
    requires Inv(s) && ExecMain(s, CleanupEnds(index, failed)).Some?
    ensures Inv(ExecMain(s, CleanupEnds(index, failed)).value)
  {
    assert s.main.Cleaning?;
    CleanupsStay(s, ExecMain(s, CleanupEnds(index, failed)).value, s.main.next);
  }

  lemma DeferredKeepsInv(s: State)
    requires Inv(s) && s.main.Deferring? && ExecDeferred(s, s.main.deferred, s.main.code).Some?
    ensures Inv(ExecDeferred(s, s.main.deferred, s.main.code).value)
  {
    var s' := ExecDeferred(s, s.main.deferred, s.main.code).value;
    DeferredLeavesRest(s);
    CleanupsStay(s, s', |s.runs|);
    assert DrainsFollowWatcher(s');
    assert s'.main.Deferring? || s'.main.Exited?;
  }

  lemma CleanupsStay(s: State, s': State, next: nat)
    requires CleanupsAt(s, next) && s'.runs == s.runs && s'.slots == s.slots && s'.cleaning <= s.cleaning
    ensures CleanupsAt(s', next)
  {
  }

  lemma MainKeepsInv(s: State, step: Step)
    requires Inv(s) && Exec(s, step).Some?
    requires IsMainStep(step)
    ensures Inv(Exec(s, step).value)
  {
    match step
    case StartCleanup => StartCleanupKeepsInv(s);
    case CleanupEnds(index, failed) => CleanupEndsKeepsInv(s, index, failed);
    case RunDeferred => DeferredKeepsInv(s);
    case CleanupsDone => CleanupsStay(s, Exec(s, step).value, |s.runs|);
    case _ =>
  }

  lemma StepKeepsInv(s: State, step: Step)
    requires Inv(s) && Exec(s, step).Some?
    ensures Inv(Exec(s, step).value)
  {
    if IsWatcherStep(step) {
      WatcherKeepsInv(s, step);
    } else if IsMainStep(step) {
      MainKeepsInv(s, step);
    } else {
      ServeKeepsInv(s, step);
    }
  }

  function Errors(steps: seq<Step>): nat {
    if steps == [] then 0
    else Errors(steps[..|steps| - 1]) + (if CountsAsError(steps[|steps| - 1]) then 1 else 0)
  }

  /** The failures that raise the exit code; the profiler's own never do, nor does a forced gRPC stop. */
  predicate CountsAsError(step: Step) {
    || (step.ServeReturns? && step.failed && !step.server.Pprof?)
    || (step.DrainEnds? && step.server.Http? && !step.clean)
    || (step.CleanupEnds? && step.failed)
  }

  lemma ServeCountsErrors(s: State, step: Step)
    requires (IsEnvironment(step) || step.ServeReturns?) && ExecServe(s, step).Some?
    ensures ExecServe(s, step).value.exitCode == s.exitCode + if CountsAsError(step) then 1 else 0
    ensures |ExecServe(s, step).value.runs| == |s.runs| && ExecServe(s, step).value.http == s.http
  {
  }

  /** The HTTP drain stays as it is, starts, or ends by the step that ends it. */
  predicate HttpDrainStep(s: State, step: Step, s': State) {
    s'.http == s.http || s'.http.Running? || (s'.http.Finished? && step == DrainEnds(Http, s'.http.clean))
  }

  lemma WatcherCountsErrors(s: State, step: Step)
    requires IsWatcherStep(step) && ExecWatcher(s, step).Some?
    ensures ExecWatcher(s, step).value.exitCode == s.exitCode + if CountsAsError(step) then 1 else 0
    ensures |ExecWatcher(s, step).value.runs| == |s.runs|
    ensures HttpDrainStep(s, step, ExecWatcher(s, step).value)
  {
  }

  lemma MainCountsErrors(s: State, step: Step)
    requires IsMainStep(step) && ExecMain(s, step).Some?
    ensures ExecMain(s, step).value.exitCode == s.exitCode + if CountsAsError(step) then 1 else 0
    ensures |ExecMain(s, step).value.runs| == |s.runs| && ExecMain(s, step).value.http == s.http
  {
    MainLeavesRest(s, step);
  }

  lemma StepCountsErrors(s: State, step: Step)
    requires Exec(s, step).Some?
    ensures Exec(s, step).value.exitCode == s.exitCode + if CountsAsError(step) then 1 else 0
    ensures |Exec(s, step).value.runs| == |s.runs|
    ensures HttpDrainStep(s, step, Exec(s, step).value)
  {
    if IsWatcherStep(step) {
      WatcherCountsErrors(s, step);
    } else if IsMainStep(step) {
      MainCountsErrors(s, step);
    } else {
      ServeCountsErrors(s, step);
    }
  }

  lemma {:induction false} RunKeepsInv(states: seq<State>, steps: seq<Step>, cleanups: nat, n: nat)
    requires IsRun(states, steps) && states[0] == Start(cleanups) && n < |states|
    ensures Inv(states[n]) && states[n].exitCode == Errors(steps[..n]) && |states[n].runs| == cleanups
  {
    if n > 0 {
      RunKeepsInv(states, steps, cleanups, n - 1);
      assert Exec(states[n - 1], steps[n - 1]) == Some(states[n]);
      StepKeepsInv(states[n - 1], steps[n - 1]);
      StepCountsErrors(states[n - 1], steps[n - 1]);
      assert steps[..n][..n - 1] == steps[..n - 1];
    }
  }

  /**
   In every interleaving health checks fail before anything is drained, and the profiler is stopped
   after the servers; a cleanup starts at most once and only after every Serve call has returned and
   the drain has ended; the root context is cancelled only once run() has made its last call,
   after all cleanups; and run() returns the number of failures there were.
   */
  lemma ShutdownIsOrderly(states: seq<State>, steps: seq<Step>, cleanups: nat, n: nat)
    requires IsRun(states, steps) && states[0] == Start(cleanups) && n < |states|
    ensures var s := states[n];
            && |s.runs| == cleanups
            && (forall i :: 0 <= i < cleanups && s.runs[i] > 0 ==> s.runs[i] == 1 && ServersAndDrainEnded(s))
            && (s.rootCancelled ==> s.main.Exited?)
            && (!s.http.NotStarted? || !s.grpc.NotStarted? || !s.edge.NotStarted? ==> !s.healthy)
            && (StopRequested(s, Pprof) ==> s.http.Finished? && s.grpc.Finished? && s.edge.Finished?)
            && (s.main.Exited? ==>
              && (forall i :: 0 <= i < cleanups ==> s.runs[i] == 1) && s.cleaning == {}
              && s.main.code == Errors(steps[..n]))
  {
    RunKeepsInv(states, steps, cleanups, n);
  }

  /** A request still running when the root context goes away outlived the HTTP drain deadline, and the exit code shows it. */
  lemma {:induction false} CutOffRequestsShowInExitCode(states: seq<State>, steps: seq<Step>, cleanups: nat, n: nat)
    requires IsRun(states, steps) && states[0] == Start(cleanups) && n < |states|
    requires states[n].http.Finished? && !states[n].http.clean
    ensures states[n].exitCode > 0
  {
    if n > 0 {
      assert Exec(states[n - 1], steps[n - 1]) == Some(states[n]);
      StepCountsErrors(states[n - 1], steps[n - 1]);
      if states[n - 1].http == states[n].http {
        CutOffRequestsShowInExitCode(states, steps, cleanups, n - 1);
      }
    }
  }

  /** Exit code 0 means that no request the server tracks was running when the root context was cancelled. */
  lemma CleanExitMeansNoRequestCutOff(states: seq<State>, steps: seq<Step>, cleanups: nat, n: nat)
    requires IsRun(states, steps) && states[0] == Start(cleanups) && n < |states|
    requires states[n].main.Exited? && states[n].main.code == 0
    ensures states[n].inFlight == 0
  {
    RunKeepsInv(states, steps, cleanups, n);
    if !states[n].http.clean {
      CutOffRequestsShowInExitCode(states, steps, cleanups, n);
    }
  }

  // ---------------------------------------------------------------------------------------
  // Progress
  // ---------------------------------------------------------------------------------------

  predicate Triggered(s: State) {
    s.signalled || s.serveEnded
  }

  function DrainRank(d: Drain): nat {
    match d
    case NotStarted => 2
    case Running => 1
    case Finished(_) => 0
  }

  function WatcherRank(w: Watcher): nat {
    match w
    case Watching => 5
    case Awake => 4
    case Unready => 3
    case Draining => 2
    case StoppingPprof => 1
    case WatcherDone => 0
  }

  function MainRank(s: State): nat {
    match s.main
    case WaitingForServers => 2 * |s.slots| + 8
    case Cleaning(next) => (if next <= |s.slots| then 2 * (|s.slots| - next) else 0) + |s.cleaning| + 7
    case Deferring(deferred, _) => if deferred < 5 then 6 - deferred else 1
    case Exited(_) => 0
  }

  /** Steps of the process still to come, at most. */
  function Remaining(s: State): nat {
    |s.serving| + WatcherRank(s.watcher) + DrainRank(s.http) + DrainRank(s.grpc) + DrainRank(s.edge) + MainRank(s)
  }

  lemma StartCleanupCounts(s: State)
    requires ExecMain(s, StartCleanup).Some?
    ensures MainRank(ExecMain(s, StartCleanup).value) < MainRank(s)
  {
    assert |s.cleaning + {s.main.next}| <= |s.cleaning| + 1;
  }

  lemma CleanupEndsCounts(s: State, index: nat, failed: bool)
    requires s.main.Cleaning? && ExecMain(s, CleanupEnds(index, failed)).Some?
    ensures MainRank(ExecMain(s, CleanupEnds(index, failed)).value) < MainRank(s)
  {
    assert |s.cleaning - {index}| == |s.cleaning| - 1;
  }

  lemma DeferredCounts(s: State)
    requires s.onceDone && s.main.Deferring? && ExecDeferred(s, s.main.deferred, s.main.code).Some?
    ensures MainRank(ExecDeferred(s, s.main.deferred, s.main.code).value) < MainRank(s)
  {
  }

  lemma MainStepsCount(s: State, step: Step)
    requires MainInv(s) && IsMainStep(step) && ExecMain(s, step).Some?
    ensures MainRank(ExecMain(s, step).value) < MainRank(s)
  {
    match step
    case StartCleanup => StartCleanupCounts(s);
    case CleanupEnds(index, failed) => CleanupEndsCounts(s, index, failed);
    case RunDeferred => DeferredCounts(s);
    case _ =>
  }

  lemma ServeStepsCount(s: State, step: Step)
    requires (IsEnvironment(step) || step.ServeReturns?) && ExecServe(s, step).Some?
    ensures var s' := ExecServe(s, step).value;
            if IsEnvironment(step) then Remaining(s') == Remaining(s) else Remaining(s') < Remaining(s)
  {
    ServeLeavesRest(s, step);
    var s' := ExecServe(s, step).value;
    assert MainRank(s') == MainRank(s);
  }

  ghost predicate ServeRest(s: State, s': State, ended: nat) {
    && s'.main == s.main && s'.slots == s.slots && s'.cleaning == s.cleaning && s'.watcher == s.watcher && s'.runs == s.runs
    && s'.http == s.http && s'.grpc == s.grpc && s'.edge == s.edge
    && |s'.serving| == |s.serving| - ended
  }

  lemma ServeReturnLeavesRest(s: State, server: Server, failed: bool)
    requires ExecServe(s, ServeReturns(server, failed)).Some?
    ensures ServeRest(s, ExecServe(s, ServeReturns(server, failed)).value, 1)
  {
    assert |s.serving - {server}| == |s.serving| - 1;
  }

  lemma EnvironmentLeavesRest(s: State, step: Step)
    requires IsEnvironment(step) && ExecServe(s, step).Some?
    ensures ServeRest(s, ExecServe(s, step).value, 0)
  {
  }

  lemma ServeLeavesRest(s: State, step: Step)
    requires (IsEnvironment(step) || step.ServeReturns?) && ExecServe(s, step).Some?
    ensures ServeRest(s, ExecServe(s, step).value, if step.ServeReturns? then 1 else 0)
  {
    if step.ServeReturns? {
      ServeReturnLeavesRest(s, step.server, step.failed);
    } else {
      EnvironmentLeavesRest(s, step);
    }
  }

  lemma WatcherStepsCount(s: State, step: Step)
    requires Inv(s) && IsWatcherStep(step) && ExecWatcher(s, step).Some?
    ensures Remaining(ExecWatcher(s, step).value) < Remaining(s)
  {
    var s' := ExecWatcher(s, step).value;
    assert s'.main == s.main && s'.slots == s.slots && s'.cleaning == s.cleaning && s'.serving == s.serving;
  }

  /** Every step of the process brings the end nearer; requests and further signals do not push it away. */
  lemma StepsCount(s: State, step: Step)
    requires Inv(s) && Exec(s, step).Some?
    ensures var s' := Exec(s, step).value;
            if IsEnvironment(step) then Remaining(s') == Remaining(s) else Remaining(s') < Remaining(s)
  {
    if IsWatcherStep(step) {
      WatcherStepsCount(s, step);
    } else if IsMainStep(step) {
      MainStepsCount(s, step);
      MainLeavesRest(s, step);
    } else {
      ServeStepsCount(s, step);
    }
  }

  lemma MainLeavesRest(s: State, step: Step)
    requires IsMainStep(step) && ExecMain(s, step).Some?
    ensures var s' := ExecMain(s, step).value;
            && s'.serving == s.serving && s'.watcher == s.watcher && s'.http == s.http && s'.grpc == s.grpc && s'.edge == s.edge
            && |s'.runs| == |s.runs|
            && s'.exitCode == s.exitCode + if CountsAsError(step) then 1 else 0
  {
    match step
    case RunDeferred => DeferredLeavesRest(s);
    case _ =>
  }

  lemma DeferredLeavesRest(s: State)
    requires s.main.Deferring? && ExecDeferred(s, s.main.deferred, s.main.code).Some?
    ensures var s' := ExecDeferred(s, s.main.deferred, s.main.code).value;
            && s'.serving == s.serving && s'.watcher == s.watcher && s'.http == s.http && s'.grpc == s.grpc && s'.edge == s.edge
            && s'.runs == s.runs && s'.slots == s.slots && s'.cleaning == s.cleaning && s'.exitCode == s.exitCode
            && s'.healthy == s.healthy && s'.inFlight == s.inFlight
  {
  }

  function ProcessSteps(steps: seq<Step>): nat {
    if steps == [] then 0
    else ProcessSteps(steps[..|steps| - 1]) + (if IsEnvironment(steps[|steps| - 1]) then 0 else 1)
  }

  lemma {:induction false} RunsAreBounded(states: seq<State>, steps: seq<Step>, cleanups: nat, n: nat)
    requires IsRun(states, steps) && states[0] == Start(cleanups) && n < |states|
    ensures ProcessSteps(steps[..n]) + Remaining(states[n]) <= 2 * cleanups + 23
  {
    if n > 0 {
      RunsAreBounded(states, steps, cleanups, n - 1);
      RunKeepsInv(states, steps, cleanups, n - 1);
      assert Exec(states[n - 1], steps[n - 1]) == Some(states[n]);
      StepsCount(states[n - 1], steps[n - 1]);
      assert steps[..n][..n - 1] == steps[..n - 1];
    }
  }

  /** The process is never stuck once triggered: until run() has returned, one of its goroutines can move. */
  lemma SomeoneCanMove(s: State) returns (step: Step)
    requires Inv(s) && Triggered(s) && !s.main.Exited?
    ensures !IsEnvironment(step) && Exec(s, step).Some?
    ensures CountsAsError(step) ==> s.watcher.Draining? && s.http.Running?
  {
    match s.watcher {
      case Watching => step := Wake;
      case Awake => step := MarkUnready;
      case Unready => step := StartDrains;
      case Draining =>
        if s.http.Running? {
          step := DrainEnds(Http, false);
        } else if s.grpc.Running? {
          step := DrainEnds(Grpc, false);
        } else if s.edge.Running? {
          step := DrainEnds(Edge, false);
        } else {
          step := StopPprof;
        }
      case StoppingPprof => step := PprofStops;
      case WatcherDone =>
        if server :| server in s.serving {
          step := ServeReturns(server, false);
        } else if s.main.WaitingForServers? {
          step := ServersDone;
        } else if s.main.Cleaning? && s.main.next < |s.slots| {
          step := StartCleanup;
        } else if i :| i in s.cleaning {
          step := CleanupEnds(i, false);
        } else if s.main.Cleaning? {
          step := CleanupsDone;
        } else {
          step := RunDeferred;
        }
    }
  }

  /**
   Whichever way the goroutines are scheduled: a run that has been triggered and in which no
   goroutine can move any more has returned from run(), and no run has more process steps than
   2 * cleanups + 23; so every trigger leads to the end.
   */
  lemma TriggerLeadsToExit(states: seq<State>, steps: seq<Step>, cleanups: nat)
    requires IsRun(states, steps) && states[0] == Start(cleanups)
    ensures ProcessSteps(steps) <= 2 * cleanups + 23
    ensures var last := states[|steps|];
            Triggered(last) && (forall step :: !IsEnvironment(step) ==> Exec(last, step).None?) ==> last.main.Exited?
  {
    RunsAreBounded(states, steps, cleanups, |steps|);
    RunKeepsInv(states, steps, cleanups, |steps|);
    assert steps[..|steps|] == steps;
    var last := states[|steps|];
    if Triggered(last) && !last.main.Exited? {
      var step := SomeoneCanMove(last);
    }
  }

  // ---------------------------------------------------------------------------------------
  // What a clean exit does not say
  // ---------------------------------------------------------------------------------------

  lemma SomeoneCanMoveCleanly(s: State) returns (step: Step)
    requires Inv(s) && Triggered(s) && !s.main.Exited? && s.inFlight == 0
    ensures !IsEnvironment(step) && !CountsAsError(step) && Exec(s, step).Some?
  {
    if s.watcher.Draining? && s.http.Running? {
      step := DrainEnds(Http, true);
    } else {
      step := SomeoneCanMove(s);
    }
  }

  lemma WatcherKeepsRequests(s: State, step: Step)
    requires IsWatcherStep(step) && ExecWatcher(s, step).Some?
    ensures var s' := ExecWatcher(s, step).value;
            s'.inFlight == s.inFlight && s'.hijacked == s.hijacked && Triggered(s') == Triggered(s)
  {
  }

  lemma MainKeepsRequests(s: State, step: Step)
    requires IsMainStep(step) && ExecMain(s, step).Some?
    ensures var s' := ExecMain(s, step).value;
            s'.inFlight == s.inFlight && s'.hijacked == s.hijacked && (Triggered(s) ==> Triggered(s'))
  {
  }

  lemma ServeReturnKeepsRequests(s: State, server: Server, failed: bool)
    requires ExecServe(s, ServeReturns(server, failed)).Some?
    ensures var s' := ExecServe(s, ServeReturns(server, failed)).value;
            s'.inFlight == s.inFlight && s'.hijacked == s.hijacked && (Triggered(s) ==> Triggered(s'))
  {
  }

  lemma ProcessKeepsRequests(s: State, step: Step)
    requires !IsEnvironment(step) && Exec(s, step).Some?
    ensures Exec(s, step).value.inFlight == s.inFlight && Exec(s, step).value.hijacked == s.hijacked
    ensures Triggered(s) ==> Triggered(Exec(s, step).value)
  {
    if IsWatcherStep(step) {
      WatcherKeepsRequests(s, step);
    } else if IsMainStep(step) {
      MainKeepsRequests(s, step);
    } else {
      ServeReturnKeepsRequests(s, step.server, step.failed);
    }
  }

  /** A triggered process without tracked requests can run to its end without a failure, whatever runs on taken-over connections. */
  lemma {:induction false} CleanFinish(s: State) returns (states: seq<State>, steps: seq<Step>)
    requires Inv(s) && Triggered(s) && s.inFlight == 0
    ensures IsRun(states, steps) && states[0] == s
    ensures states[|steps|].main.Exited? && states[|steps|].hijacked == s.hijacked && states[|steps|].exitCode == s.exitCode
    decreases Remaining(s)
  {
    if s.main.Exited? {
      states, steps := [s], [];
    } else {
      var step := SomeoneCanMoveCleanly(s);
      var next := Exec(s, step).value;
      StepKeepsInv(s, step);
      StepsCount(s, step);
      StepCountsErrors(s, step);
      ProcessKeepsRequests(s, step);
      var rest, more := CleanFinish(next);
      states, steps := [s] + rest, [step] + more;
    }
  }

  /** So with exit code 0 any number of requests on taken-over connections may have been cut off. */
  lemma CleanExitCanCutOffHijacked(cleanups: nat) returns (states: seq<State>, steps: seq<Step>)
    ensures IsRun(states, steps) && states[0] == Start(cleanups)
    ensures states[|steps|].main.Exited? && states[|steps|].exitCode == 0 && states[|steps|].hijacked == 1
  {
    var s0 := Start(cleanups);
    var s1 := s0.(hijacked := 1);
    var s2 := s1.(signalled := true);
    assert Inv(s2);
    var rest, more := CleanFinish(s2);
    states, steps := [s0, s1] + rest, [RequestArrives(true), Signal] + more;
  }

  /** Without a signal and without a Serve call returning, nothing is drained and nothing cleaned up. */
  lemma {:induction false} NoTriggerNoShutdown(states: seq<State>, steps: seq<Step>, cleanups: nat, n: nat)
    requires IsRun(states, steps) && states[0] == Start(cleanups) && n < |states|
    requires forall k :: 0 <= k < n ==> !steps[k].Signal? && !(steps[k].ServeReturns? && !steps[k].server.Pprof?)
    ensures var s := states[n];
            && s.healthy && s.watcher.Watching? && s.main.WaitingForServers? && {Http, Grpc, Edge} <= s.serving
            && !s.signalled && !s.serveEnded && s.http.NotStarted? && s.grpc.NotStarted? && s.edge.NotStarted?
            && (forall i :: 0 <= i < |s.runs| ==> s.runs[i] == 0)
  {
    if n > 0 {
      NoTriggerNoShutdown(states, steps, cleanups, n - 1);
      RunKeepsInv(states, steps, cleanups, n - 1);
      assert Exec(states[n - 1], steps[n - 1]) == Some(states[n]);
    }
  }
}
