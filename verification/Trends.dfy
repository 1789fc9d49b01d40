// One-pass trend bucketing of stored observations. Times are integers in microseconds.
module Trends {
  import opened Arithmetic
  import opened Common

  // What json.loads(metrics).get(metric) may be: a number that is not a bool, or anything else.
  datatype Metric = Number(x: real) | Other

  datatype Observation = Observation(kind: string, source: string, controller: string, site: string,
                                     observedAt: int, metrics: map<string, Metric>)

  datatype Query = Query(kind: string, metric: string, start: int, end: int, bucketSeconds: int,
                         source: Option<string>, controller: Option<string>, site: Option<string>)

  datatype Bucket = Bucket(start: int, end: int, present: bool, value: Option<real>, count: nat)

  datatype Trend = Buckets(bs: seq<Bucket>) | Invalid

  const METRICS := map[
    "site_health" := {"subsystem_total", "healthy", "issues"},
    "device_counts" := {"total", "online", "offline"},
    "client_counts" := {"total", "wired", "wireless"},
    "traffic" := {"rx_bytes", "tx_bytes"},
    "protect_health" := {"total", "online", "offline"}]

  const SECOND := 1000000

  function Width(q: Query): int { q.bucketSeconds * SECOND }

  function BucketCount(q: Query): int
    requires q.bucketSeconds > 0
  {
    (q.end - q.start) / Width(q)
  }

  predicate ValidQuery(q: Query)
  {
    && q.kind in METRICS && q.metric in METRICS[q.kind] && q.start < q.end && 60 <= q.bucketSeconds <= 86400
    && 1 <= BucketCount(q) <= 1000
  }

  // The WHERE clause.
  predicate Selects(q: Query, o: Observation)
  {
    && o.kind == q.kind && q.start <= o.observedAt < q.end
    && (q.source.Some? ==> o.source == q.source.value)
    && (q.controller.Some? ==> o.controller == q.controller.value)
    && (q.site.Some? ==> o.site == q.site.value)
  }

  function Value(q: Query, o: Observation): Option<real>
  {
    if q.metric in o.metrics && o.metrics[q.metric].Number? then Some(o.metrics[q.metric].x) else None
  }

  // ---- per-bucket filtering ----

  predicate Within(q: Query, o: Observation, lo: int, hi: int)
  {
    Selects(q, o) && lo <= o.observedAt < hi && Value(q, o).Some?
  }

  // The numeric samples from lo up to hi, in row order.
  function Samples(q: Query, rows: seq<Observation>, lo: int, hi: int): seq<real>
  {
    if rows == [] then []
    else
      var last := rows[|rows| - 1];
      Samples(q, rows[..|rows| - 1], lo, hi) + if Within(q, last, lo, hi) then [Value(q, last).value] else []
  }

  function Sum(xs: seq<real>): real
  {
    if xs == [] then 0.0 else Sum(xs[..|xs| - 1]) + xs[|xs| - 1]
  }

  function Mean(xs: seq<real>): real
    requires xs != []
  {
    Sum(xs) / (|xs| as real)
  }

  function Lo(q: Query, i: int): int { q.start + Width(q) * i }

  function BucketOf(q: Query, rows: seq<Observation>, i: int): Bucket
  {
    var xs := Samples(q, rows, Lo(q, i), Lo(q, i + 1));
    Bucket(Lo(q, i), Lo(q, i + 1), xs != [], if xs == [] then None else Some(Mean(xs)), |xs|)
  }

  // ---- counted and added up row by row ----

  // A row of the kind, source, controller and site asked for, observed in the range and from lo up to hi, with
  // a number for the metric.
  predicate Counted(q: Query, o: Observation, lo: int, hi: int)
  {
    && o.kind == q.kind && q.start <= o.observedAt < q.end && lo <= o.observedAt < hi
    && q.source in {None, Some(o.source)} && q.controller in {None, Some(o.controller)}
    && q.site in {None, Some(o.site)} && q.metric in o.metrics && o.metrics[q.metric].Number?
  }

  function CountOf(q: Query, rows: seq<Observation>, lo: int, hi: int): nat
  {
    if rows == [] then 0
    else
      var last := |rows| - 1;
      CountOf(q, rows[..last], lo, hi) + if Counted(q, rows[last], lo, hi) then 1 else 0
  }

  function TotalOf(q: Query, rows: seq<Observation>, lo: int, hi: int): real
  {
    if rows == [] then 0.0
    else
      var last := |rows| - 1;
      TotalOf(q, rows[..last], lo, hi)
      + if Counted(q, rows[last], lo, hi) then rows[last].metrics[q.metric].x else 0.0
  }

  lemma {:induction false} SamplesAreCounted(q: Query, rows: seq<Observation>, lo: int, hi: int)
    ensures |Samples(q, rows, lo, hi)| == CountOf(q, rows, lo, hi)
    ensures Sum(Samples(q, rows, lo, hi)) == TotalOf(q, rows, lo, hi)
  {
    if rows != [] {
      var init, last := rows[..|rows| - 1], rows[|rows| - 1];
      SamplesAreCounted(q, init, lo, hi);
      SumMore(Samples(q, init, lo, hi), if Value(q, last).Some? then Value(q, last).value else 0.0);
      assert Within(q, last, lo, hi) <==> Counted(q, last, lo, hi);
    }
  }

  // A bucket counts the rows of its interval, and its value times that count is what they add up to.
  ghost predicate Averages(q: Query, rows: seq<Observation>, b: Bucket)
  {
    && b.count == CountOf(q, rows, b.start, b.end) && (b.present <==> b.count > 0) && (b.value.Some? <==> b.count > 0)
    && (b.value.Some? ==> b.value.value * (b.count as real) == TotalOf(q, rows, b.start, b.end))
  }

  lemma BucketAverages(q: Query, rows: seq<Observation>, i: int)
    ensures Averages(q, rows, BucketOf(q, rows, i))
  {
    SamplesAreCounted(q, rows, Lo(q, i), Lo(q, i + 1));
  }

  // ---- the one-pass index map ----

  function Collected(values: map<int, seq<real>>, i: int): seq<real>
  {
    if i in values then values[i] else []
  }

  lemma LoStep(q: Query, i: int)
    ensures Lo(q, i + 1) == Lo(q, i) + Width(q)
  {}

  lemma IndexIsBucket(q: Query, t: int, i: int)
    requires q.bucketSeconds > 0
    ensures (t - q.start) / Width(q) == i <==> Lo(q, i) <= t < Lo(q, i + 1)
  {
    LoStep(q, i);
    DivMod(t - q.start, Width(q), i);
  }

  // At least one bucket fits, and at most 1000 do.
  lemma SpanOfBuckets(q: Query)
    requires q.bucketSeconds > 0
    ensures 1 <= BucketCount(q) <= 1000
      <==> 1000000 * q.bucketSeconds <= q.end - q.start < 1001000000 * q.bucketSeconds
  {
    var n := BucketCount(q);
    DivMod(q.end - q.start, Width(q), n);
    if n < 1 { StepsOf(n, 1, Width(q)); } else if n > 1 { StepsOf(1, n, Width(q)); }
    if n < 1001 { StepsOf(n, 1001, Width(q)); } else if n > 1001 { StepsOf(1001, n, Width(q)); }
  }

  method CollectValues(q: Query, rows: seq<Observation>) returns (values: map<int, seq<real>>)
    requires ValidQuery(q)
    ensures forall i :: 0 <= i < BucketCount(q) ==> Collected(values, i) == Samples(q, rows, Lo(q, i), Lo(q, i + 1))
  {
    values := map[];
    var j := 0;
    while j < |rows|
      invariant 0 <= j <= |rows|
      invariant forall i :: 0 <= i < BucketCount(q) ==>
        Collected(values, i) == Samples(q, rows[..j], Lo(q, i), Lo(q, i + 1))
    {
      var o := rows[j];
      assert rows[..j + 1][..j] == rows[..j] && rows[..j + 1][j] == o;
      if Selects(q, o) {
        var index := (o.observedAt - q.start) / Width(q);
        forall i { IndexIsBucket(q, o.observedAt, i); }
        if 0 <= index < BucketCount(q) && Value(q, o).Some? {
          values := values[index := (if index in values then values[index] else []) + [Value(q, o).value]];
        }
      }
      j := j + 1;
    }
    assert rows[..j] == rows;
  }

  method AverageOf(samples: seq<real>) returns (value: Option<real>)
    ensures value == if samples == [] then None else Some(Mean(samples))
  {
    value := if samples != [] then Some(Sum(samples) / (|samples| as real)) else None;
  }

  method BuildBuckets(q: Query, rows: seq<Observation>, values: map<int, seq<real>>) returns (bs: seq<Bucket>)
    requires ValidQuery(q)
    requires forall i :: 0 <= i < BucketCount(q) ==> Collected(values, i) == Samples(q, rows, Lo(q, i), Lo(q, i + 1))
    ensures |bs| == BucketCount(q) && forall i :: 0 <= i < |bs| ==> bs[i] == BucketOf(q, rows, i)
  {
    bs := [];
    var index := 0;
    while index < BucketCount(q)
      invariant 0 <= index <= BucketCount(q) && |bs| == index
      invariant forall i :: 0 <= i < index ==> bs[i] == BucketOf(q, rows, i)
    {
      var bucketStart := q.start + Width(q) * index;
      var samples := if index in values then values[index] else [];
      assert samples == Collected(values, index);
      LoStep(q, index);
      var value := AverageOf(samples);
      bs := bs + [Bucket(bucketStart, bucketStart + Width(q), samples != [], value, |samples|)];
      index := index + 1;
    }
  }

  method QueryTrend(q: Query, rows: seq<Observation>) returns (r: Trend)
    ensures r.Buckets? <==> ValidQuery(q)
    ensures r.Buckets? ==> q.kind in METRICS && q.metric in METRICS[q.kind] && 60 <= q.bucketSeconds <= 86400
    ensures q.kind in METRICS && q.metric in METRICS[q.kind] && 60 <= q.bucketSeconds <= 86400 ==>
      (r.Buckets? <==> 1000000 * q.bucketSeconds <= q.end - q.start < 1001000000 * q.bucketSeconds)
    ensures r.Buckets? ==> |r.bs| == BucketCount(q) && forall i :: 0 <= i < |r.bs| ==> r.bs[i] == BucketOf(q, rows, i)
    ensures r.Buckets? ==> forall i :: 0 <= i < |r.bs| ==> Averages(q, rows, r.bs[i])
  {
    if q.bucketSeconds > 0 { SpanOfBuckets(q); }
    if q.kind !in METRICS || q.metric !in METRICS[q.kind] { return Invalid; }
    if q.end <= q.start { return Invalid; }
    if !(60 <= q.bucketSeconds <= 86400) { return Invalid; }
    if BucketCount(q) < 1 || BucketCount(q) > 1000 { return Invalid; }
    var values := CollectValues(q, rows);
    var bs := BuildBuckets(q, rows, values);
    forall i | 0 <= i < |bs| ensures Averages(q, rows, bs[i]) { BucketAverages(q, rows, i); }
    return Buckets(bs);
  }

  // ---- what the buckets are ----

  // They tile [start, start + n * width), which is inside the range asked for.
  lemma BucketsTile(q: Query, rows: seq<Observation>)
    requires ValidQuery(q)
    ensures BucketOf(q, rows, 0).start == q.start
    ensures forall i :: BucketOf(q, rows, i).end == BucketOf(q, rows, i + 1).start
    ensures forall i :: BucketOf(q, rows, i).end == BucketOf(q, rows, i).start + Width(q)
    ensures Lo(q, BucketCount(q)) <= q.end < Lo(q, BucketCount(q) + 1)
  {
    forall i { LoStep(q, i); }
    IndexIsBucket(q, q.end, BucketCount(q));
  }

  lemma LoGrows(q: Query, i: int, j: int)
    requires i <= j && q.bucketSeconds > 0
    ensures Lo(q, i) <= Lo(q, j)
  {
    if i < j { StepsOf(i, j, Width(q)); }
  }

  // A sample in the span is in the bucket the index names, and in no other.
  lemma ExactlyOneBucket(q: Query, o: Observation, j: int)
    requires ValidQuery(q)
    ensures var i := (o.observedAt - q.start) / Width(q);
      && (Within(q, o, q.start, Lo(q, BucketCount(q)))
          <==> 0 <= i < BucketCount(q) && Within(q, o, Lo(q, i), Lo(q, i + 1)))
      && (Within(q, o, Lo(q, j), Lo(q, j + 1)) ==> i == j)
  {
    var i, n := (o.observedAt - q.start) / Width(q), BucketCount(q);
    IndexIsBucket(q, o.observedAt, i);
    IndexIsBucket(q, o.observedAt, j);
    if i < n { LoGrows(q, i + 1, n); } else { LoGrows(q, n, i); }
    if i < 0 { LoGrows(q, i + 1, 0); } else { LoGrows(q, 0, i); }
  }

  lemma {:induction false} SamplesSplit(q: Query, rows: seq<Observation>, lo: int, mid: int, hi: int)
    requires lo <= mid <= hi
    ensures |Samples(q, rows, lo, hi)| == |Samples(q, rows, lo, mid)| + |Samples(q, rows, mid, hi)|
    ensures Sum(Samples(q, rows, lo, hi)) == Sum(Samples(q, rows, lo, mid)) + Sum(Samples(q, rows, mid, hi))
  {
    if rows != [] {
      var init, last := rows[..|rows| - 1], rows[|rows| - 1];
      SamplesSplit(q, init, lo, mid, hi);
      SumMore(Samples(q, init, lo, hi), if Value(q, last).Some? then Value(q, last).value else 0.0);
      SumMore(Samples(q, init, lo, mid), if Value(q, last).Some? then Value(q, last).value else 0.0);
      SumMore(Samples(q, init, mid, hi), if Value(q, last).Some? then Value(q, last).value else 0.0);
    }
  }

  lemma SumMore(xs: seq<real>, x: real)
    ensures Sum(xs + [x]) == Sum(xs) + x && xs + [] == xs
  {
    assert (xs + [x])[..|xs|] == xs;
  }

  function CountUpTo(q: Query, rows: seq<Observation>, n: nat): nat
  {
    if n == 0 then 0 else CountUpTo(q, rows, n - 1) + BucketOf(q, rows, n - 1).count
  }

  // The sample counts add up to the number of numeric samples in the span.
  lemma {:induction false} CountsAddUp(q: Query, rows: seq<Observation>, n: nat)
    requires ValidQuery(q)
    ensures CountUpTo(q, rows, n) == |Samples(q, rows, q.start, Lo(q, n))|
  {
    if n == 0 {
      NoSamples(q, rows, q.start);
    } else {
      CountsAddUp(q, rows, n - 1);
      LoGrows(q, 0, n - 1);
      LoStep(q, n - 1);
      SamplesSplit(q, rows, q.start, Lo(q, n - 1), Lo(q, n));
    }
  }

  function Weight(b: Bucket): real
  {
    if b.value.Some? then b.value.value * (b.count as real) else 0.0
  }

  function TotalUpTo(q: Query, rows: seq<Observation>, n: nat): real
  {
    if n == 0 then 0.0 else TotalUpTo(q, rows, n - 1) + Weight(BucketOf(q, rows, n - 1))
  }

  lemma TotalsSplit(q: Query, rows: seq<Observation>, lo: int, mid: int, hi: int)
    requires lo <= mid <= hi
    ensures TotalOf(q, rows, lo, hi) == TotalOf(q, rows, lo, mid) + TotalOf(q, rows, mid, hi)
  {
    SamplesSplit(q, rows, lo, mid, hi);
    SamplesAreCounted(q, rows, lo, hi);
    SamplesAreCounted(q, rows, lo, mid);
    SamplesAreCounted(q, rows, mid, hi);
  }

  lemma BucketTotal(q: Query, rows: seq<Observation>, i: int)
    ensures TotalOf(q, rows, Lo(q, i), Lo(q, i + 1)) == Weight(BucketOf(q, rows, i))
  {
    BucketAverages(q, rows, i);
    SamplesAreCounted(q, rows, Lo(q, i), Lo(q, i + 1));
  }

  lemma LoInOrder(q: Query, n: nat)
    requires q.bucketSeconds > 0
    ensures q.start <= Lo(q, n) <= Lo(q, n + 1)
  {
    LoGrows(q, 0, n);
    LoStep(q, n);
  }

  // Values times counts add up to the sum of the numeric samples in the span.
  lemma {:induction false} ValuesAddUp(q: Query, rows: seq<Observation>, n: nat)
    requires ValidQuery(q)
    ensures TotalUpTo(q, rows, n) == TotalOf(q, rows, q.start, Lo(q, n))
  {
    if n == 0 {
      NoSamples(q, rows, q.start);
      SamplesAreCounted(q, rows, q.start, q.start);
    } else {
      ValuesAddUp(q, rows, n - 1);
      LoInOrder(q, n - 1);
      TotalsSplit(q, rows, q.start, Lo(q, n - 1), Lo(q, n));
      BucketTotal(q, rows, n - 1);
    }
  }

  lemma {:induction false} TotalsOfConcat(q: Query, a: seq<Observation>, b: seq<Observation>, lo: int, hi: int)
    ensures CountOf(q, a + b, lo, hi) == CountOf(q, a, lo, hi) + CountOf(q, b, lo, hi)
    ensures TotalOf(q, a + b, lo, hi) == TotalOf(q, a, lo, hi) + TotalOf(q, b, lo, hi)
  {
    if b == [] {
      assert a + b == a;
    } else {
      TotalsOfConcat(q, a, b[..|b| - 1], lo, hi);
      assert (a + b)[..|a + b| - 1] == a + b[..|b| - 1];
    }
  }

  lemma RowAnywhere(q: Query, before: seq<Observation>, o: Observation, after: seq<Observation>, lo: int, hi: int)
    ensures CountOf(q, before + [o] + after, lo, hi) == CountOf(q, before + after, lo, hi) + CountOf(q, [o], lo, hi)
    ensures TotalOf(q, before + [o] + after, lo, hi) == TotalOf(q, before + after, lo, hi) + TotalOf(q, [o], lo, hi)
  {
    TotalsOfConcat(q, before + [o], after, lo, hi);
    TotalsOfConcat(q, before, [o], lo, hi);
    TotalsOfConcat(q, before, after, lo, hi);
  }

  lemma TakeOut<T>(xs: seq<T>, j: nat)
    requires j < |xs|
    ensures xs == xs[..j] + [xs[j]] + xs[j + 1..]
    ensures multiset(xs) == multiset(xs[..j] + xs[j + 1..]) + multiset{xs[j]}
  {
    assert xs == xs[..j] + [xs[j]] + xs[j + 1..];
  }

  lemma SameWithout<T>(xs: seq<T>, ys: seq<T>, j: nat)
    requires multiset(xs) == multiset(ys) && xs != [] && j < |ys| && ys[j] == xs[|xs| - 1]
    ensures multiset(xs[..|xs| - 1]) == multiset(ys[..j] + ys[j + 1..])
  {
    TakeOut(xs, |xs| - 1);
    TakeOut(ys, j);
    assert xs[..|xs| - 1] + xs[|xs|..] == xs[..|xs| - 1];
    assert multiset(xs[..|xs| - 1]) == multiset(xs) - multiset{ys[j]};
  }

  lemma LastRow(q: Query, a: seq<Observation>, lo: int, hi: int)
    requires a != []
    ensures var init, last := a[..|a| - 1], a[|a| - 1];
      && CountOf(q, a, lo, hi) == CountOf(q, init, lo, hi) + CountOf(q, [last], lo, hi)
      && TotalOf(q, a, lo, hi) == TotalOf(q, init, lo, hi) + TotalOf(q, [last], lo, hi)
  {
    TotalsOfConcat(q, a[..|a| - 1], [a[|a| - 1]], lo, hi);
    assert a[..|a| - 1] + [a[|a| - 1]] == a;
  }

  lemma {:induction false} TotalsForgetOrder(q: Query, a: seq<Observation>, b: seq<Observation>, lo: int, hi: int)
    requires multiset(a) == multiset(b)
    ensures CountOf(q, a, lo, hi) == CountOf(q, b, lo, hi) && TotalOf(q, a, lo, hi) == TotalOf(q, b, lo, hi)
  {
    assert |multiset(a)| == |a| && |multiset(b)| == |b|;
    if a != [] {
      assert a[|a| - 1] in multiset(b);
      var j :| 0 <= j < |b| && b[j] == a[|a| - 1];
      var before, after := b[..j], b[j + 1..];
      SameWithout(a, b, j);
      TakeOut(b, j);
      TotalsForgetOrder(q, a[..|a| - 1], before + after, lo, hi);
      RowAnywhere(q, before, b[j], after, lo, hi);
      LastRow(q, a, lo, hi);
    }
  }

  // In whatever order the rows come, the buckets are the same.
  lemma BucketForgetsOrder(q: Query, rows: seq<Observation>, other: seq<Observation>, i: int)
    requires multiset(rows) == multiset(other)
    ensures BucketOf(q, rows, i) == BucketOf(q, other, i)
  {
    TotalsForgetOrder(q, rows, other, Lo(q, i), Lo(q, i + 1));
    SamplesAreCounted(q, rows, Lo(q, i), Lo(q, i + 1));
    SamplesAreCounted(q, other, Lo(q, i), Lo(q, i + 1));
  }

  lemma {:induction false} NoSamples(q: Query, rows: seq<Observation>, t: int)
    ensures Samples(q, rows, t, t) == []
  {
    if rows != [] { NoSamples(q, rows[..|rows| - 1], t); }
  }

  lemma {:induction false} SumBetween(xs: seq<real>, lo: real, hi: real)
    requires forall i :: 0 <= i < |xs| ==> lo <= xs[i] <= hi
    ensures lo * (|xs| as real) <= Sum(xs) <= hi * (|xs| as real)
  {
    if xs != [] {
      var n := |xs| - 1;
      SumBetween(xs[..n], lo, hi);
      assert lo * (|xs| as real) == lo * (n as real) + lo && hi * (|xs| as real) == hi * (n as real) + hi;
    }
  }

  lemma MeanBetween(xs: seq<real>, lo: real, hi: real)
    requires xs != [] && forall i :: 0 <= i < |xs| ==> lo <= xs[i] <= hi
    ensures lo <= Mean(xs) <= hi
  {
    SumBetween(xs, lo, hi);
    Quotient(Sum(xs), |xs| as real, lo, hi);
  }

  // A bucket has a value exactly when a sample falls in it, and the value lies between any bounds on
  // its samples, so between their minimum and maximum.
  lemma ValueIsBetweenSamples(q: Query, rows: seq<Observation>, i: int, lo: real, hi: real)
    requires var xs := Samples(q, rows, Lo(q, i), Lo(q, i + 1)); forall k :: 0 <= k < |xs| ==> lo <= xs[k] <= hi
    ensures var b := BucketOf(q, rows, i);
      && (b.present <==> exists k :: 0 <= k < |rows| && Within(q, rows[k], b.start, b.end))
      && (b.present <==> b.value.Some?) && (b.present <==> b.count > 0)
      && (b.present ==> lo <= b.value.value <= hi)
  {
    var xs := Samples(q, rows, Lo(q, i), Lo(q, i + 1));
    PresentIffSample(q, rows, Lo(q, i), Lo(q, i + 1));
    if xs != [] { MeanBetween(xs, lo, hi); }
  }

  lemma {:induction false} PresentIffSample(q: Query, rows: seq<Observation>, lo: int, hi: int)
    ensures Samples(q, rows, lo, hi) != [] <==> exists k :: 0 <= k < |rows| && Within(q, rows[k], lo, hi)
  {
    if rows != [] {
      var init := rows[..|rows| - 1];
      PresentIffSample(q, init, lo, hi);
      assert forall k :: 0 <= k < |init| ==> init[k] == rows[k];
    }
  }

  // ---- the value in float arithmetic ----

  // Each operation yields the exact result, rounded.
  function FloatSum(fl: real -> real, xs: seq<real>): real
  {
    if xs == [] then 0.0 else fl(FloatSum(fl, xs[..|xs| - 1]) + xs[|xs| - 1])
  }

  function FloatMean(fl: real -> real, xs: seq<real>): real
    requires xs != []
  {
    fl(FloatSum(fl, xs) / (|xs| as real))
  }

  ghost predicate KeepsOrder(fl: real -> real)
  {
    forall x, y :: x <= y ==> fl(x) <= fl(y)
  }

  // No partial sum needs rounding.
  predicate ExactSums(fl: real -> real, xs: seq<real>)
  {
    forall n :: 0 <= n <= |xs| ==> fl(Sum(xs[..n])) == Sum(xs[..n])
  }

  lemma {:induction false} FloatSumIsExact(fl: real -> real, xs: seq<real>)
    requires ExactSums(fl, xs)
    ensures FloatSum(fl, xs) == Sum(xs)
  {
    if xs != [] {
      var init := xs[..|xs| - 1];
      assert forall n :: 0 <= n <= |init| ==> init[..n] == xs[..n];
      FloatSumIsExact(fl, init);
      assert xs[..|xs|] == xs;
    }
  }

  // Bounds that are floats themselves bound the float value when no partial sum needs rounding.
  lemma FloatValueIsBetweenSamples(fl: real -> real, q: Query, rows: seq<Observation>, i: int, lo: real, hi: real)
    requires KeepsOrder(fl) && fl(lo) == lo && fl(hi) == hi && BucketOf(q, rows, i).present
    requires var xs := Samples(q, rows, Lo(q, i), Lo(q, i + 1));
      ExactSums(fl, xs) && forall k :: 0 <= k < |xs| ==> lo <= xs[k] <= hi
    ensures lo <= FloatMean(fl, Samples(q, rows, Lo(q, i), Lo(q, i + 1))) <= hi
  {
    var xs := Samples(q, rows, Lo(q, i), Lo(q, i + 1));
    FloatSumIsExact(fl, xs);
    MeanBetween(xs, lo, hi);
  }

  predicate Whole(x: real)
  {
    x.Floor as real == x
  }

  lemma {:induction false} SumIsWhole(xs: seq<real>)
    requires forall k :: 0 <= k < |xs| ==> Whole(xs[k])
    ensures Whole(Sum(xs))
  {
    if xs != [] {
      SumIsWhole(xs[..|xs| - 1]);
      assert Whole(xs[|xs| - 1]);
      assert Sum(xs) == (Sum(xs[..|xs| - 1]).Floor + xs[|xs| - 1].Floor) as real;
    }
  }

  // Counts and bytes, while their sums stay where every integer is a float: up to 2 ** 53.
  lemma IntegersSumExactly(fl: real -> real, xs: seq<real>, limit: int)
    requires forall x :: Whole(x) && -limit <= x.Floor <= limit ==> fl(x) == x
    requires forall k :: 0 <= k < |xs| ==> Whole(xs[k])
    requires forall n :: 0 <= n <= |xs| ==> -limit <= Sum(xs[..n]).Floor <= limit
    ensures ExactSums(fl, xs)
  {
    forall n | 0 <= n <= |xs| ensures fl(Sum(xs[..n])) == Sum(xs[..n]) {
      SumIsWhole(xs[..n]);
    }
  }

  // Where the sums are rounded the value can exceed every sample: three times the float nearest to 0.1.
  lemma TenthsExceed(fl: real -> real)
    requires var tenth := 3602879701896397.0 / 36028797018963968.0;
      && fl(tenth) == tenth && fl(tenth + tenth) == tenth + tenth
      && fl(tenth + tenth + tenth) == 1351079888211149.0 / 4503599627370496.0
      && fl(1351079888211149.0 / 4503599627370496.0 / 3.0) == 7205759403792795.0 / 72057594037927936.0
    ensures var tenth := 3602879701896397.0 / 36028797018963968.0;
      FloatMean(fl, [tenth, tenth, tenth]) > tenth
  {
    var tenth := 3602879701896397.0 / 36028797018963968.0;
    assert [tenth, tenth, tenth][..2] == [tenth, tenth] && [tenth, tenth][..1] == [tenth] && [tenth][..0] == [];
    assert FloatSum(fl, [tenth]) == tenth;
    assert FloatSum(fl, [tenth, tenth]) == tenth + tenth;
  }
}
