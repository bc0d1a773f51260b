/**
 The three team metric queries over one set of samples: bucketed sums and maxima, and what their
 answers say about each other.  Numbers are exact.
 */
module TeamMetrics {
  import opened TemplateTables
  import opened Keyset

  datatype Sample = Sample(ts: int, value: real)

  /** timestamp BETWEEN start AND end. */
  function Between(samples: seq<Sample>, start: int, end: int): seq<Sample> {
    if samples == [] then []
    else if start <= samples[0].ts <= end then [samples[0]] + Between(samples[1..], start, end)
    else Between(samples[1..], start, end)
  }

  /** The range filter keeps exactly the samples from start to end, with their multiplicity. */
  lemma {:induction false} BetweenKeeps(samples: seq<Sample>, start: int, end: int, x: Sample)
    ensures multiset(Between(samples, start, end))[x] == if start <= x.ts <= end then multiset(samples)[x] else 0
    decreases |samples|
  {
    if samples != [] {
      var rest := samples[1..];
      BetweenKeeps(rest, start, end, x);
      assert samples == [samples[0]] + rest;
      assert multiset(samples) == multiset{samples[0]} + multiset(rest);
      assert multiset([samples[0]] + Between(rest, start, end)) == multiset{samples[0]} + multiset(Between(rest, start, end));
    }
  }

  /** toStartOfInterval. */
  function Bucket(ts: int, step: int): int
    requires step > 0
  {
    ts - ts % step
  }

  function Buckets(samples: seq<Sample>, step: int): set<int>
    requires step > 0
  {
    set i | 0 <= i < |samples| :: Bucket(samples[i].ts, step)
  }

  function Total(samples: seq<Sample>): real {
    if samples == [] then 0.0 else samples[0].value + Total(samples[1..])
  }

  function BucketSum(samples: seq<Sample>, b: int, step: int): real
    requires step > 0
  {
    if samples == [] then 0.0
    else (if Bucket(samples[0].ts, step) == b then samples[0].value else 0.0) + BucketSum(samples[1..], b, step)
  }

  /** v is the greatest value among the samples that satisfy keep. */
  ghost predicate IsMaxValue(samples: seq<Sample>, keep: Sample -> bool, v: real) {
    && (exists i :: 0 <= i < |samples| && keep(samples[i]) && samples[i].value == v)
    && (forall i :: 0 <= i < |samples| && keep(samples[i]) ==> samples[i].value <= v)
  }

  function InBucket(b: int, step: int): Sample -> bool
    requires step > 0
  {
    (s: Sample) => Bucket(s.ts, step) == b
  }

  lemma {:induction false} MaxValueExists(samples: seq<Sample>, keep: Sample -> bool)
    requires exists i :: 0 <= i < |samples| && keep(samples[i])
    ensures exists v :: IsMaxValue(samples, keep, v)
    decreases |samples|
  {
    var rest := samples[1..];
    if exists i :: 0 <= i < |rest| && keep(rest[i]) {
      MaxValueExists(rest, keep);
      var w :| IsMaxValue(rest, keep, w);
      assert forall i :: 0 < i < |samples| ==> samples[i] == rest[i - 1];
      var k :| 0 <= k < |rest| && keep(rest[k]) && rest[k].value == w;
      assert samples[k + 1] == rest[k];
      assert IsMaxValue(samples, keep, if keep(samples[0]) && samples[0].value > w then samples[0].value else w);
    } else {
      forall i | 0 < i < |samples| ensures !keep(samples[i]) {
        assert rest[i - 1] == samples[i];
      }
      assert IsMaxValue(samples, keep, samples[0].value);
    }
  }

  /** The one number IsMaxValue describes. */
  ghost function MaxIn(samples: seq<Sample>, b: int, step: int): (v: real)
    requires step > 0 && b in Buckets(samples, step)
    ensures IsMaxValue(samples, InBucket(b, step), v)
  {
    var i :| 0 <= i < |samples| && Bucket(samples[i].ts, step) == b;
    assert InBucket(b, step)(samples[i]);
    MaxValueExists(samples, InBucket(b, step));
    var v :| IsMaxValue(samples, InBucket(b, step), v);
    v
  }

  /** toInt64 of a float: towards zero. */
  function ToInt(r: real): int {
    if r >= 0.0 then r.Floor else -(-r).Floor
  }

  lemma ToIntMonotone(a: real, b: real)
    requires a <= b
    ensures ToInt(a) <= ToInt(b)
  {
    assert a >= 0.0 ==> a.Floor <= b.Floor;
    assert b < 0.0 ==> (-b).Floor <= (-a).Floor;
  }

  datatype Row = Row(ts: int, startedRate: real, concurrent: int)

  ghost function RowAt(created: seq<Sample>, gauge: seq<Sample>, step: int, b: int): Row
    requires step > 0
  {
    Row(b,
        if b in Buckets(created, step) then BucketSum(created, b, step) / step as real else 0.0,
        if b in Buckets(gauge, step) then ToInt(MaxIn(gauge, b, step)) else 0)
  }

  function Earlier(): (int, int) -> bool {
    (a: int, b: int) => a < b
  }

  /** all_ts: UNION DISTINCT, in ascending order. */
  ghost function AllBuckets(created: seq<Sample>, gauge: seq<Sample>, step: int): (r: seq<int>)
    requires step > 0
    ensures IsListing(Earlier(), Buckets(created, step) + Buckets(gauge, step), r)
  {
    Sorted(Earlier(), Buckets(created, step) + Buckets(gauge, step))
  }

  /** QueryTeamMetrics over the samples in range. */
  ghost function Metrics(created: seq<Sample>, gauge: seq<Sample>, step: int): seq<Row>
    requires step > 0
  {
    var bs := AllBuckets(created, gauge, step);
    seq(|bs|, i requires 0 <= i < |bs| => RowAt(created, gauge, step, bs[i]))
  }

  // ---------------------------------------------------------------------------------------
  // What a row covers
  // ---------------------------------------------------------------------------------------

  /** The instants of the step that begins at from. */
  predicate InStep(ts: int, from: int, step: int) {
    from <= ts < from + step
  }

  lemma BucketIsStep(ts: int, b: int, step: int)
    requires step > 0
    ensures Bucket(ts, step) == b <==> b % step == 0 && InStep(ts, b, step)
  {
    var q, r := ts / step, ts % step;
    assert ts == q * step + r;
    MultipleOf(q, step);
    if b % step == 0 && InStep(ts, b, step) {
      OneMultiple(ts - r, b, step);
    }
  }

  lemma MultipleOf(q: int, step: int)
    requires step > 0
    ensures (q * step) % step == 0
  {
    var m := q * step;
    assert m == (m / step) * step + m % step;
    var d := q - m / step;
    assert d * step == m % step;
    assert d >= 1 ==> d * step >= step;
    assert d <= -1 ==> d * step <= -step;
  }

  lemma OneMultiple(a: int, b: int, step: int)
    requires step > 0 && a % step == 0 && b % step == 0 && -step < a - b < step
    ensures a == b
  {
    var d := a / step - b / step;
    assert a - b == d * step;
    assert d >= 1 ==> d * step >= step;
    assert d <= -1 ==> d * step <= -step;
  }

  /** The sum of the values in the step that begins at from. */
  function StepSum(samples: seq<Sample>, from: int, step: int): real {
    if samples == [] then 0.0
    else (if InStep(samples[0].ts, from, step) then samples[0].value else 0.0) + StepSum(samples[1..], from, step)
  }

  lemma {:induction false} BucketSumIsStepSum(samples: seq<Sample>, b: int, step: int)
    requires step > 0 && b % step == 0
    ensures BucketSum(samples, b, step) == StepSum(samples, b, step)
    decreases |samples|
  {
    if samples != [] {
      BucketIsStep(samples[0].ts, b, step);
      BucketSumIsStepSum(samples[1..], b, step);
    }
  }

  /** v is the greatest value in the step that begins at from. */
  ghost predicate IsStepMax(samples: seq<Sample>, from: int, step: int, v: real) {
    && (exists i :: 0 <= i < |samples| && InStep(samples[i].ts, from, step) && samples[i].value == v)
    && (forall i :: 0 <= i < |samples| && InStep(samples[i].ts, from, step) ==> samples[i].value <= v)
  }

  lemma MaxInIsStepMax(samples: seq<Sample>, b: int, step: int)
    requires step > 0 && b % step == 0 && b in Buckets(samples, step)
    ensures IsStepMax(samples, b, step, MaxIn(samples, b, step))
  {
    var v := MaxIn(samples, b, step);
    forall i | 0 <= i < |samples| ensures InBucket(b, step)(samples[i]) <==> InStep(samples[i].ts, b, step) {
      BucketIsStep(samples[i].ts, b, step);
    }
    var i :| 0 <= i < |samples| && InBucket(b, step)(samples[i]) && samples[i].value == v;
    assert InStep(samples[i].ts, b, step);
  }

  ghost predicate HasSampleIn(samples: seq<Sample>, from: int, step: int) {
    exists i :: 0 <= i < |samples| && InStep(samples[i].ts, from, step)
  }

  lemma BucketHasSample(samples: seq<Sample>, b: int, step: int)
    requires step > 0 && b % step == 0
    ensures b in Buckets(samples, step) <==> HasSampleIn(samples, b, step)
  {
    forall i | 0 <= i < |samples| ensures Bucket(samples[i].ts, step) == b <==> InStep(samples[i].ts, b, step) {
      BucketIsStep(samples[i].ts, b, step);
    }
    if b in Buckets(samples, step) {
      var i :| 0 <= i < |samples| && Bucket(samples[i].ts, step) == b;
      assert InStep(samples[i].ts, b, step);
    }
    if HasSampleIn(samples, b, step) {
      var i :| 0 <= i < |samples| && InStep(samples[i].ts, b, step);
      assert Bucket(samples[i].ts, step) == b;
    }
  }

  /** The row says about its own step: rate times step is the sum, the concurrency the cut maximum, of the samples in it. */
  ghost predicate CoversItsStep(created: seq<Sample>, gauge: seq<Sample>, step: int, row: Row)
    requires step > 0
  {
    && row.ts % step == 0
    && (HasSampleIn(created, row.ts, step) || HasSampleIn(gauge, row.ts, step))
    && Started(row, step) == StepSum(created, row.ts, step)
    && (if HasSampleIn(gauge, row.ts, step) then exists v :: IsStepMax(gauge, row.ts, step, v) && row.concurrent == ToInt(v)
        else row.concurrent == 0)
  }

  lemma BucketIsMultiple(samples: seq<Sample>, b: int, step: int)
    requires step > 0 && b in Buckets(samples, step)
    ensures b % step == 0
  {
    var i :| 0 <= i < |samples| && Bucket(samples[i].ts, step) == b;
    BucketIsStep(samples[i].ts, b, step);
  }

  lemma RowCoversItsStep(created: seq<Sample>, gauge: seq<Sample>, step: int, b: int)
    requires step > 0 && b in Buckets(created, step) + Buckets(gauge, step)
    ensures CoversItsStep(created, gauge, step, RowAt(created, gauge, step, b))
  {
    if b in Buckets(created, step) {
      BucketIsMultiple(created, b, step);
    } else {
      BucketIsMultiple(gauge, b, step);
    }
    BucketHasSample(created, b, step);
    BucketHasSample(gauge, b, step);
    RateOfBucket(created, gauge, step, b);
    BucketSumIsStepSum(created, b, step);
    if b in Buckets(gauge, step) {
      MaxInIsStepMax(gauge, b, step);
    }
  }

  /** Every row covers exactly its own step, the rows ascend, and every sample lies in the step of exactly one row. */
  lemma RowsCoverTheirSteps(created: seq<Sample>, gauge: seq<Sample>, step: int)
    requires step > 0
    ensures var rows := Metrics(created, gauge, step);
            && (forall i :: 0 <= i < |rows| ==> CoversItsStep(created, gauge, step, rows[i]))
            && (forall i, j :: 0 <= i < j < |rows| ==> rows[i].ts + step <= rows[j].ts)
            && (forall s :: s in created || s in gauge ==> exists i :: 0 <= i < |rows| && InStep(s.ts, rows[i].ts, step))
  {
    var rows, bs := Metrics(created, gauge, step), AllBuckets(created, gauge, step);
    forall i | 0 <= i < |rows| ensures CoversItsStep(created, gauge, step, rows[i]) && rows[i].ts == bs[i] {
      BucketOfRow(created, gauge, step, i);
      RowCoversItsStep(created, gauge, step, rows[i].ts);
    }
    forall i, j | 0 <= i < j < |rows| ensures rows[i].ts + step <= rows[j].ts {
      assert Earlier()(bs[i], bs[j]);
      if rows[j].ts < rows[i].ts + step {
        OneMultiple(rows[i].ts, rows[j].ts, step);
      }
    }
    forall s | s in created || s in gauge ensures exists i :: 0 <= i < |rows| && InStep(s.ts, rows[i].ts, step) {
      SampleIsCovered(created, gauge, step, s);
    }
  }

  lemma SampleIsCovered(created: seq<Sample>, gauge: seq<Sample>, step: int, s: Sample)
    requires step > 0 && (s in created || s in gauge)
    ensures exists i :: 0 <= i < |Metrics(created, gauge, step)| && InStep(s.ts, Metrics(created, gauge, step)[i].ts, step)
  {
    var b := Bucket(s.ts, step);
    assert b in Buckets(created, step) + Buckets(gauge, step) by {
      if s in created {
        var i :| 0 <= i < |created| && created[i] == s;
        assert Bucket(created[i].ts, step) in Buckets(created, step);
      } else {
        var i :| 0 <= i < |gauge| && gauge[i] == s;
        assert Bucket(gauge[i].ts, step) in Buckets(gauge, step);
      }
    }
    var i := RowOf(created, gauge, step, b);
    BucketIsStep(s.ts, b, step);
  }

  /** toInt64 cuts towards zero. */
  lemma ToIntCuts(r: real)
    ensures r >= 0.0 ==> ToInt(r) as real <= r < (ToInt(r) + 1) as real
    ensures r <= 0.0 ==> (ToInt(r) - 1) as real < r <= ToInt(r) as real
  {
    if r < 0.0 {
      var n := (-r).Floor;
      assert n as real <= -r < (n + 1) as real;
      assert (-n) as real == -(n as real) && (-n - 1) as real == -((n + 1) as real);
    }
  }

  // ---------------------------------------------------------------------------------------
  // Conservation: rate times step sums to the total
  // ---------------------------------------------------------------------------------------

  function SumBuckets(samples: seq<Sample>, bs: seq<int>, step: int): real
    requires step > 0
  {
    if bs == [] then 0.0 else BucketSum(samples, bs[0], step) + SumBuckets(samples, bs[1..], step)
  }

  predicate DistinctBuckets(bs: seq<int>) {
    forall i, j | 0 <= i < j < |bs| :: bs[i] != bs[j]
  }

  lemma {:induction false} SumBucketsOfNone(bs: seq<int>, step: int)
    requires step > 0
    ensures SumBuckets([], bs, step) == 0.0
    decreases |bs|
  {
    if bs != [] {
      SumBucketsOfNone(bs[1..], step);
    }
  }

  /** A sample is counted by the one bucket it lies in. */
  lemma {:induction false} SumBucketsCons(x: Sample, rest: seq<Sample>, bs: seq<int>, step: int)
    requires step > 0 && DistinctBuckets(bs)
    ensures SumBuckets([x] + rest, bs, step) == SumBuckets(rest, bs, step) + if Bucket(x.ts, step) in bs then x.value else 0.0
    decreases |bs|
  {
    if bs != [] {
      SumBucketsCons(x, rest, bs[1..], step);
      assert ([x] + rest)[1..] == rest;
      assert bs == [bs[0]] + bs[1..];
      assert Bucket(x.ts, step) in bs <==> Bucket(x.ts, step) == bs[0] || Bucket(x.ts, step) in bs[1..];
    }
  }

  lemma {:induction false} BucketsPartition(samples: seq<Sample>, bs: seq<int>, step: int)
    requires step > 0 && DistinctBuckets(bs) && forall b :: b in Buckets(samples, step) ==> b in bs
    ensures SumBuckets(samples, bs, step) == Total(samples)
    decreases |samples|
  {
    if samples == [] {
      SumBucketsOfNone(bs, step);
    } else {
      var rest := samples[1..];
      forall b | b in Buckets(rest, step) ensures b in bs {
        var i :| 0 <= i < |rest| && Bucket(rest[i].ts, step) == b;
        assert samples[i + 1] == rest[i];
        assert b in Buckets(samples, step);
      }
      BucketsPartition(rest, bs, step);
      assert samples == [samples[0]] + rest;
      assert Bucket(samples[0].ts, step) in Buckets(samples, step);
      SumBucketsCons(samples[0], rest, bs, step);
    }
  }

  lemma {:induction false} EmptyBucketSumsToZero(samples: seq<Sample>, b: int, step: int)
    requires step > 0 && b !in Buckets(samples, step)
    ensures BucketSum(samples, b, step) == 0.0
    decreases |samples|
  {
    if samples != [] {
      var rest := samples[1..];
      forall i | 0 <= i < |rest| ensures Bucket(rest[i].ts, step) != b {
        assert samples[i + 1] == rest[i] && Bucket(samples[i + 1].ts, step) in Buckets(samples, step);
      }
      assert Bucket(samples[0].ts, step) in Buckets(samples, step);
      EmptyBucketSumsToZero(rest, b, step);
    }
  }

  /** Sandboxes started in the row's bucket. */
  function Started(row: Row, step: int): real {
    row.startedRate * step as real
  }

  function RateTimesStep(rows: seq<Row>, step: int): real {
    if rows == [] then 0.0 else Started(rows[0], step) + RateTimesStep(rows[1..], step)
  }

  lemma {:induction false} RowsSumBuckets(created: seq<Sample>, gauge: seq<Sample>, step: int, bs: seq<int>, rows: seq<Row>)
    requires step > 0 && |rows| == |bs| && forall i :: 0 <= i < |bs| ==> rows[i] == RowAt(created, gauge, step, bs[i])
    ensures RateTimesStep(rows, step) == SumBuckets(created, bs, step)
    decreases |bs|
  {
    if bs != [] {
      RowsSumBuckets(created, gauge, step, bs[1..], rows[1..]);
      RateOfBucket(created, gauge, step, bs[0]);
      assert rows[0] == RowAt(created, gauge, step, bs[0]);
    }
  }

  lemma DivideThenMultiply(v: real, step: int)
    requires step > 0
    ensures (v / step as real) * step as real == v
  {
  }

  lemma RateOfBucket(created: seq<Sample>, gauge: seq<Sample>, step: int, b: int)
    requires step > 0
    ensures Started(RowAt(created, gauge, step, b), step) == BucketSum(created, b, step)
  {
    DivideThenMultiply(BucketSum(created, b, step), step);
    if b !in Buckets(created, step) {
      EmptyBucketSumsToZero(created, b, step);
    }
  }

  /** Summing rate times step over the rows gives back every started sandbox in range, for any samples. */
  lemma RatesAddUpToTotal(created: seq<Sample>, gauge: seq<Sample>, step: int)
    requires step > 0
    ensures RateTimesStep(Metrics(created, gauge, step), step) == Total(created)
  {
    var bs := AllBuckets(created, gauge, step);
    RowsSumBuckets(created, gauge, step, bs, Metrics(created, gauge, step));
    forall b | b in Buckets(created, step) ensures b in bs {
      assert b in Elements(bs);
    }
    forall i, j | 0 <= i < j < |bs| ensures bs[i] != bs[j] {
      assert Earlier()(bs[i], bs[j]);
    }
    BucketsPartition(created, bs, step);
  }

  // ---------------------------------------------------------------------------------------
  // The maxima agree
  // ---------------------------------------------------------------------------------------

  lemma RowOf(created: seq<Sample>, gauge: seq<Sample>, step: int, b: int) returns (i: nat)
    requires step > 0 && b in Buckets(created, step) + Buckets(gauge, step)
    ensures i < |Metrics(created, gauge, step)| && Metrics(created, gauge, step)[i] == RowAt(created, gauge, step, b)
  {
    var bs := AllBuckets(created, gauge, step);
    assert b in Elements(bs);
    i :| i < |bs| && bs[i] == b;
  }

  lemma BucketOfRow(created: seq<Sample>, gauge: seq<Sample>, step: int, i: nat)
    requires step > 0 && i < |Metrics(created, gauge, step)|
    ensures var row := Metrics(created, gauge, step)[i];
            row.ts in Buckets(created, step) + Buckets(gauge, step) && row == RowAt(created, gauge, step, row.ts)
  {
    var bs := AllBuckets(created, gauge, step);
    assert bs[i] in Elements(bs);
  }

  ghost predicate IsTopRate(rows: seq<Row>, v: real) {
    (exists i :: 0 <= i < |rows| && rows[i].startedRate == v) && forall i :: 0 <= i < |rows| ==> rows[i].startedRate <= v
  }

  ghost predicate IsTopConcurrent(rows: seq<Row>, v: int) {
    (exists i :: 0 <= i < |rows| && rows[i].concurrent == v) && forall i :: 0 <= i < |rows| ==> rows[i].concurrent <= v
  }

  /** QueryMaxStartRateTeamMetrics answers (ts, v): argMax and max over the bucket sums. */
  ghost predicate IsMaxStartRate(created: seq<Sample>, step: int, ts: int, v: real)
    requires step > 0
  {
    && ts in Buckets(created, step) && v == BucketSum(created, ts, step) / step as real
    && forall b :: b in Buckets(created, step) ==> BucketSum(created, b, step) <= BucketSum(created, ts, step)
  }

  /** QueryMaxConcurrentTeamMetrics answers (ts, v). */
  ghost predicate IsMaxConcurrent(gauge: seq<Sample>, ts: int, v: real) {
    && (exists i :: 0 <= i < |gauge| && gauge[i].ts == ts && gauge[i].value == v)
    && forall i :: 0 <= i < |gauge| ==> gauge[i].value <= v
  }

  lemma DivideKeepsOrder(a: real, b: real, step: int)
    requires step > 0 && a <= b
    ensures a / step as real <= b / step as real
  {
  }

  lemma DivideKeepsSign(v: real, step: int)
    requires step > 0
    ensures v / step as real >= 0.0 <==> v >= 0.0
  {
    assert v == (v / step as real) * step as real;
  }

  /**
   The row at the answered time shows the answered rate, and the answer is the greatest rate of all
   rows exactly when it is not negative or no row lacks created samples.
   */
  lemma MaxStartRateIsTopRowIff(created: seq<Sample>, gauge: seq<Sample>, step: int, ts: int, v: real)
    requires step > 0 && IsMaxStartRate(created, step, ts, v)
    ensures exists i :: 0 <= i < |Metrics(created, gauge, step)| && Metrics(created, gauge, step)[i].ts == ts
                        && Metrics(created, gauge, step)[i].startedRate == v
    ensures IsTopRate(Metrics(created, gauge, step), v) <==> v >= 0.0 || Buckets(gauge, step) <= Buckets(created, step)
  {
    var rows := Metrics(created, gauge, step);
    var k := RowOf(created, gauge, step, ts);
    assert rows[k].ts == ts && rows[k].startedRate == v;
    if v >= 0.0 || Buckets(gauge, step) <= Buckets(created, step) {
      forall i | 0 <= i < |rows| ensures rows[i].startedRate <= v {
        BucketOfRow(created, gauge, step, i);
        if rows[i].ts in Buckets(created, step) {
          DivideKeepsOrder(BucketSum(created, rows[i].ts, step), BucketSum(created, ts, step), step);
        }
      }
    } else {
      var b :| b in Buckets(gauge, step) && b !in Buckets(created, step);
      var j := RowOf(created, gauge, step, b);
      assert rows[j].startedRate == 0.0;
    }
  }

  lemma ConcurrentUpTo(gauge: seq<Sample>, step: int, b: int, v: real)
    requires step > 0 && b in Buckets(gauge, step) && forall i :: 0 <= i < |gauge| ==> gauge[i].value <= v
    ensures ToInt(MaxIn(gauge, b, step)) <= ToInt(v)
  {
    var m := MaxIn(gauge, b, step);
    var i :| 0 <= i < |gauge| && InBucket(b, step)(gauge[i]) && gauge[i].value == m;
    ToIntMonotone(m, v);
  }

  lemma ConcurrentAttained(gauge: seq<Sample>, step: int, ts: int, v: real)
    requires step > 0 && IsMaxConcurrent(gauge, ts, v)
    ensures Bucket(ts, step) in Buckets(gauge, step) && MaxIn(gauge, Bucket(ts, step), step) == v
  {
    var i :| 0 <= i < |gauge| && gauge[i].ts == ts && gauge[i].value == v;
    assert InBucket(Bucket(ts, step), step)(gauge[i]);
    var m := MaxIn(gauge, Bucket(ts, step), step);
    var k :| 0 <= k < |gauge| && InBucket(Bucket(ts, step), step)(gauge[k]) && gauge[k].value == m;
  }

  /**
   The row whose bucket holds the answered time shows the answered maximum, cut to an integer; and
   that is the greatest of all rows exactly when it is not negative or no row lacks gauge samples.
   */
  lemma MaxConcurrentIsTopRowIff(created: seq<Sample>, gauge: seq<Sample>, step: int, ts: int, v: real)
    requires step > 0 && IsMaxConcurrent(gauge, ts, v)
    ensures exists i :: 0 <= i < |Metrics(created, gauge, step)| && Metrics(created, gauge, step)[i].ts == Bucket(ts, step)
                        && Metrics(created, gauge, step)[i].concurrent == ToInt(v)
    ensures IsTopConcurrent(Metrics(created, gauge, step), ToInt(v))
            <==> ToInt(v) >= 0 || Buckets(created, step) <= Buckets(gauge, step)
  {
    var rows := Metrics(created, gauge, step);
    ConcurrentAttained(gauge, step, ts, v);
    var k := RowOf(created, gauge, step, Bucket(ts, step));
    assert rows[k].ts == Bucket(ts, step) && rows[k].concurrent == ToInt(v);
    if ToInt(v) >= 0 || Buckets(created, step) <= Buckets(gauge, step) {
      forall i | 0 <= i < |rows| ensures rows[i].concurrent <= ToInt(v) {
        BucketOfRow(created, gauge, step, i);
        if rows[i].ts in Buckets(gauge, step) {
          ConcurrentUpTo(gauge, step, rows[i].ts, v);
        }
      }
    } else {
      var b :| b in Buckets(created, step) && b !in Buckets(gauge, step);
      var j := RowOf(created, gauge, step, b);
      assert rows[j].concurrent == 0;
    }
  }

  predicate IsIntegral(r: real) {
    ToInt(r) as real == r
  }

  /** The greatest concurrency of the rows equals the queried peak iff the peak is integral and not hidden by an empty bucket. */
  lemma PeakIsTopRowIff(created: seq<Sample>, gauge: seq<Sample>, step: int, ts: int, v: real)
    requires step > 0 && IsMaxConcurrent(gauge, ts, v)
    ensures (exists top: int :: IsTopConcurrent(Metrics(created, gauge, step), top) && top as real == v)
            <==> IsIntegral(v) && (v >= 0.0 || Buckets(created, step) <= Buckets(gauge, step))
  {
    MaxConcurrentIsTopRowIff(created, gauge, step, ts, v);
    var rows := Metrics(created, gauge, step);
    if top: int :| IsTopConcurrent(rows, top) && top as real == v {
      IntegralOf(top);
      assert IsTopConcurrent(rows, ToInt(v));
    }
    if IsIntegral(v) && (v >= 0.0 || Buckets(created, step) <= Buckets(gauge, step)) {
      assert IsTopConcurrent(rows, ToInt(v));
    }
  }

  lemma IntegralOf(n: int)
    ensures ToInt(n as real) == n && IsIntegral(n as real)
  {
    assert -(n as real) == (-n) as real;
  }

  /** A fractional peak is cut: the rows show 1 where the maximum query answers 1.5. */
  lemma FractionalPeakIsCut(step: int)
    requires step > 0
    ensures var gauge := [Sample(0, 1.5)];
            && IsMaxConcurrent(gauge, 0, 1.5) && IsTopConcurrent(Metrics([], gauge, step), 1)
            && !exists top: int :: IsTopConcurrent(Metrics([], gauge, step), top) && top as real == 1.5
  {
    var gauge := [Sample(0, 1.5)];
    assert gauge[0].ts == 0 && gauge[0].value == 1.5;
    assert ToInt(1.5) == 1;
    MaxConcurrentIsTopRowIff([], gauge, step, 0, 1.5);
    PeakIsTopRowIff([], gauge, step, 0, 1.5);
  }

  ghost predicate NonNegative(samples: seq<Sample>) {
    forall i :: 0 <= i < |samples| ==> samples[i].value >= 0.0
  }

  lemma {:induction false} BucketSumNonNegative(samples: seq<Sample>, b: int, step: int)
    requires step > 0 && NonNegative(samples)
    ensures BucketSum(samples, b, step) >= 0.0
    decreases |samples|
  {
    if samples != [] {
      BucketSumNonNegative(samples[1..], b, step);
    }
  }

  lemma {:induction false} BetweenKeepsSign(samples: seq<Sample>, start: int, end: int)
    requires NonNegative(samples)
    ensures NonNegative(Between(samples, start, end))
    decreases |samples|
  {
    if samples != [] {
      BetweenKeepsSign(samples[1..], start, end);
    }
  }

  /** For counters and gauges, which are never negative, the three queries over one range agree. */
  lemma QueriesAgree(createdTable: seq<Sample>, gaugeTable: seq<Sample>, start: int, end: int, step: int,
                     rateAt: int, rate: real, peakAt: int, peak: real)
    requires step > 0 && NonNegative(createdTable) && NonNegative(gaugeTable)
    requires IsMaxStartRate(Between(createdTable, start, end), step, rateAt, rate)
    requires IsMaxConcurrent(Between(gaugeTable, start, end), peakAt, peak)
    ensures var created, gauge := Between(createdTable, start, end), Between(gaugeTable, start, end);
            var rows := Metrics(created, gauge, step);
            IsTopRate(rows, rate) && IsTopConcurrent(rows, ToInt(peak)) && RateTimesStep(rows, step) == Total(created)
  {
    var created, gauge := Between(createdTable, start, end), Between(gaugeTable, start, end);
    BetweenKeepsSign(createdTable, start, end);
    BetweenKeepsSign(gaugeTable, start, end);
    BucketSumNonNegative(created, rateAt, step);
    DivideKeepsSign(BucketSum(created, rateAt, step), step);
    MaxStartRateIsTopRowIff(created, gauge, step, rateAt, rate);
    MaxConcurrentIsTopRowIff(created, gauge, step, peakAt, peak);
    RatesAddUpToTotal(created, gauge, step);
  }
}
