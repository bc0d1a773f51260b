/**
 The time window of a log query, computed from a clock that is read once per log source, and the
 fallback from one source to the next.
 */
module LogWindow {
  import opened TemplateTables

  datatype Direction = Forward | Backward

  const LOGS_OLDEST_LIMIT: int := 7 * 24 * 3600 * 1_000_000_000 // seven days in nanoseconds

  const SEVEN_DAYS: int := 604_800_000_000_000

  function Max(a: int, b: int): int {
    if a < b then b else a
  }

  /** What the caller asked for, before the retention limit. */
  function Requested(now: int, cursor: Option<int>, direction: Direction): (int, int) {
    match (cursor, direction)
    case (None, _) => (now - LOGS_OLDEST_LIMIT, now)
    case (Some(c), Forward) => (c, c + LOGS_OLDEST_LIMIT)
    case (Some(c), Backward) => (c - LOGS_OLDEST_LIMIT, c)
  }

  predicate Covers(window: (int, int), t: int) {
    window.0 <= t <= window.1
  }

  /** The requested interval cut off at the retention limit; a single point if nothing is left. */
  function Window(now: int, cursor: Option<int>, direction: Direction): (int, int) {
    var oldest, asked := now - LOGS_OLDEST_LIMIT, Requested(now, cursor, direction);
    (Max(oldest, asked.0), Max(oldest, asked.1))
  }

  /**
   LogQueryWindow for the clock reading now.  The last of its three clamps never changes anything:
   swapped says whether it fired.
   */
  method LogQueryWindow(now: int, cursor: Option<int>, direction: Direction) returns (start: int, end: int, swapped: bool)
    ensures (start, end) == Window(now, cursor, direction)
    ensures cursor.None? ==> start == now - SEVEN_DAYS && end == now
    ensures cursor.Some? && direction.Forward? ==>
              && cursor.value <= start
              && (cursor.value >= now - SEVEN_DAYS ==> start == cursor.value && end == cursor.value + SEVEN_DAYS)
              && (cursor.value < now - SEVEN_DAYS ==> start == now - SEVEN_DAYS && (end == cursor.value + SEVEN_DAYS || end == start))
    ensures cursor.Some? && direction.Backward? ==>
              && (cursor.value >= now - SEVEN_DAYS ==> end == cursor.value)
              && (cursor.value < now - SEVEN_DAYS ==> start == end == now - SEVEN_DAYS)
              && (start == cursor.value - SEVEN_DAYS || start == now - SEVEN_DAYS)
    ensures !swapped
    ensures now - LOGS_OLDEST_LIMIT <= start <= end <= start + LOGS_OLDEST_LIMIT
    ensures forall t :: Covers(Requested(now, cursor, direction), t) && now - LOGS_OLDEST_LIMIT <= t ==> Covers((start, end), t)
    ensures now - LOGS_OLDEST_LIMIT <= Requested(now, cursor, direction).1 ==>
              forall t :: Covers((start, end), t) ==> Covers(Requested(now, cursor, direction), t)
  {
    var oldestAllowedStart := now - LOGS_OLDEST_LIMIT;
    start, end, swapped := oldestAllowedStart, now, false;
    if cursor.Some? {
      if direction.Forward? {
        start := cursor.value;
        end := start + LOGS_OLDEST_LIMIT;
      } else {
        end := cursor.value;
        start := end - LOGS_OLDEST_LIMIT;
      }
    }
    if start < oldestAllowedStart {
      start := oldestAllowedStart;
    }
    if end < oldestAllowedStart {
      end := oldestAllowedStart;
    }
    swapped := start > end;
    if swapped {
      start := end;
    }
  }

  ghost predicate Within(a: int, b: int, elapsed: int) {
    a <= b <= a + elapsed
  }

  /**
   GetBuildLogs reads the clock for the persistent source, getBuildLogsWithSources again for the
   builder: each end of the second window lies at most the elapsed time after that of the first.
   */
  lemma WindowsAgree(first: int, second: int, cursor: Option<int>, direction: Direction)
    requires first <= second
    ensures Within(Window(first, cursor, direction).0, Window(second, cursor, direction).0, second - first)
    ensures Within(Window(first, cursor, direction).1, Window(second, cursor, direction).1, second - first)
  {
  }

  /** They are the same window exactly when the clock stood still or the cursor keeps both ends inside the retention. */
  lemma WindowsEqualIff(first: int, second: int, cursor: Option<int>, direction: Direction)
    requires first <= second
    ensures Window(first, cursor, direction) == Window(second, cursor, direction)
            <==> first == second || (cursor.Some? && Requested(second, cursor, direction).0 >= second - LOGS_OLDEST_LIMIT)
  {
    var a, b := Window(first, cursor, direction), Window(second, cursor, direction);
    if cursor.None? {
      assert a.1 == first && b.1 == second;
    } else {
      assert Requested(first, cursor, direction) == Requested(second, cursor, direction);
    }
  }

  // ---------------------------------------------------------------------------------------
  // Sources
  // ---------------------------------------------------------------------------------------

  datatype LogsSource = Temporary | Persistent

  datatype Fetch<T, E> = Entries(entries: T) | Unavailable(error: E)

  predicate CheckSourceType(source: Option<LogsSource>, sourceType: LogsSource) {
    source.None? || source.value == sourceType
  }

  /** The fetches tried in turn; builder is what asking the node's instance would give, if it is pooled. */
  function Sources<T, E>(nodeId: Option<string>, instances: map<string, Fetch<T, E>>, source: Option<LogsSource>,
                         persistent: Fetch<T, E>): seq<Fetch<T, E>> {
    (if nodeId.Some? && CheckSourceType(source, Temporary) && nodeId.value in instances then [instances[nodeId.value]] else [])
    + (if CheckSourceType(source, Persistent) then [persistent] else [])
  }

  /** The builder's temporary logs come before the persistent ones; asking for one kind leaves out the other. */
  lemma SourceOrder<T, E>(nodeId: Option<string>, instances: map<string, Fetch<T, E>>, source: Option<LogsSource>, persistent: Fetch<T, E>)
    ensures var all := Sources(nodeId, instances, source, persistent);
            var pooled := nodeId.Some? && nodeId.value in instances;
            match source
            case None => all == if pooled then [instances[nodeId.value], persistent] else [persistent]
            case Some(Temporary) => all == if pooled then [instances[nodeId.value]] else []
            case Some(Persistent) => all == [persistent]
  {
  }

  datatype Answer<T, E> = Found(entries: T) | Error(error: E) | Nothing

  /**
   getBuildLogsWithSources: the first source that succeeds answers and no later one is asked; with
   none, the last failure; with no source at all, neither entries nor an error.
   */
  method GetBuildLogsWithSources<T, E>(nodeId: Option<string>, instances: map<string, Fetch<T, E>>, source: Option<LogsSource>,
                                       persistent: Fetch<T, E>)
    returns (answer: Answer<T, E>, asked: nat)
    ensures var all := Sources(nodeId, instances, source, persistent);
            && asked <= |all|
            && (answer.Found? ==> asked > 0 && all[asked - 1] == Entries(answer.entries)
                                  && forall k :: 0 <= k < asked - 1 ==> all[k].Unavailable?)
            && (!answer.Found? ==> asked == |all| && forall k :: 0 <= k < |all| ==> all[k].Unavailable?)
            && (answer.Error? ==> all != [] && all[|all| - 1] == Unavailable(answer.error))
            && (answer.Nothing? <==> all == [])
    ensures source == Some(Persistent) ==>
              answer == match persistent case Entries(entries) => Found(entries) case Unavailable(error) => Error(error)
    ensures source != Some(Persistent) && nodeId.Some? && nodeId.value in instances && instances[nodeId.value].Entries? ==>
              answer == Found(instances[nodeId.value].entries) && asked == 1
    ensures source == None && persistent.Entries? && (nodeId.Some? && nodeId.value in instances ==> instances[nodeId.value].Unavailable?) ==>
              answer == Found(persistent.entries)
  {
    SourceOrder(nodeId, instances, source, persistent);
    var sources: seq<Fetch<T, E>> := [];
    if nodeId.Some? && CheckSourceType(source, Temporary) {
      if nodeId.value in instances {
        sources := sources + [instances[nodeId.value]];
      }
    }
    if CheckSourceType(source, Persistent) {
      sources := sources + [persistent];
    }
    assert sources == Sources(nodeId, instances, source, persistent);
    assert source != Some(Persistent) && nodeId.Some? && nodeId.value in instances ==> sources != [] && sources[0] == instances[nodeId.value];
    answer, asked := Nothing, 0;
    for i := 0 to |sources|
      invariant asked == i && (forall k :: 0 <= k < i ==> sources[k].Unavailable?)
      invariant answer == if i == 0 then Nothing else Error(sources[i - 1].error)
    {
      asked := asked + 1;
      match sources[i] {
        case Entries(entries) =>
          answer := Found(entries);
          return;
        case Unavailable(error) => answer := Error(error);
      }
    }
  }

  /** No entries and no error: exactly when only temporary logs are wanted and the builder is not pooled. */
  lemma SilentlyEmptyIff<T, E>(nodeId: Option<string>, instances: map<string, Fetch<T, E>>, source: Option<LogsSource>,
                               persistent: Fetch<T, E>)
    ensures Sources(nodeId, instances, source, persistent) == []
            <==> source == Some(Temporary) && !(nodeId.Some? && nodeId.value in instances)
  {
  }
}
