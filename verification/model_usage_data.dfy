/** `ModelUsageData`: one node of the per-model-type usage statistics tree,
    holding how many times a model was built, the total time that took in
    nanoseconds, and the statistics of the models built inside it.

    The node is an immutable value and each mutator a function from the old
    node to the new one. The counters are unbounded integers: the 64-bit
    wrap-around of the source's `AtomicLong`s is assumed never to happen. */
module Monitoring {
  import opened Common

  /** `TimeUnit.NANOSECONDS.toMillis` divides by this. */
  const NanosPerMilli: int := 1_000_000

  datatype UsageData = UsageData(count: int, totalTime: int, subModels: map<TypeId, UsageData>)

  /** A newly constructed node: nothing recorded, no sub-models. */
  function Fresh(): (n: UsageData)
    ensures n.count == 0 && n.totalTime == 0 && n.subModels == map[]
  {
    UsageData(0, 0, map[])
  }

  /** `addTimeMeasurement`: one more invocation, taking `t` nanoseconds. */
  function AddTimeMeasurement(n: UsageData, t: int): (r: UsageData)
    ensures r.count == n.count + 1
    ensures r.totalTime == n.totalTime + t
    ensures r.subModels == n.subModels
  {
    n.(count := n.count + 1, totalTime := n.totalTime + t)
  }

  /** `getTotalTime`: the total time in whole milliseconds, truncated toward
      zero as Java's `long` division does. */
  function TotalTimeMillis(n: UsageData): (ms: int)
    ensures 0 <= n.totalTime ==> 0 <= ms && ms * NanosPerMilli <= n.totalTime < ms * NanosPerMilli + NanosPerMilli
    ensures n.totalTime < 0 ==> ms <= 0 && ms * NanosPerMilli - NanosPerMilli < n.totalTime <= ms * NanosPerMilli
  {
    if n.totalTime >= 0 then n.totalTime / NanosPerMilli else -((-n.totalTime) / NanosPerMilli)
  }

  /** `add`: merges the other node's counters into this one; neither node's
      sub-models take part. */
  function Add(n: UsageData, other: UsageData): (r: UsageData)
    ensures r.count == n.count + other.count
    ensures r.totalTime == n.totalTime + other.totalTime
    ensures r.subModels == n.subModels
  {
    n.(count := n.count + other.count, totalTime := n.totalTime + other.totalTime)
  }

  /** `copy`: a snapshot of the counters, without sub-models. */
  function Copy(n: UsageData): (r: UsageData)
    ensures r.count == n.count && r.totalTime == n.totalTime
    ensures r.subModels == map[]
  {
    UsageData(n.count, n.totalTime, map[])
  }

  /** `clearSubModels`: forgets every sub-model, keeps the counters. */
  function ClearSubModels(n: UsageData): (r: UsageData)
    ensures r.subModels == map[]
    ensures r.count == n.count && r.totalTime == n.totalTime
  {
    n.(subModels := map[])
  }

  /** `addTimeMeasurement` called once for each of `ts`, in order. */
  function MeasureAll(n: UsageData, ts: seq<int>): UsageData
    decreases |ts|
  {
    if |ts| == 0 then n else MeasureAll(AddTimeMeasurement(n, ts[0]), ts[1..])
  }

  function Sum(ts: seq<int>): int
    decreases |ts|
  {
    if |ts| == 0 then 0 else ts[0] + Sum(ts[1..])
  }

  lemma {:induction false} SumAppend(a: seq<int>, b: seq<int>)
    ensures Sum(a + b) == Sum(a) + Sum(b)
    decreases |a|
  {
    if |a| == 0 {
      assert a + b == b;
    } else {
      assert (a + b)[1..] == a[1..] + b;
      SumAppend(a[1..], b);
    }
  }

  /** Each measurement adds one to the count and its own time to the total,
      and measurements never touch the sub-models. */
  lemma {:induction false} MeasurementsAccumulate(n: UsageData, ts: seq<int>)
    ensures MeasureAll(n, ts).count == n.count + |ts|
    ensures MeasureAll(n, ts).totalTime == n.totalTime + Sum(ts)
    ensures MeasureAll(n, ts).subModels == n.subModels
    decreases |ts|
  {
    if |ts| > 0 {
      MeasurementsAccumulate(AddTimeMeasurement(n, ts[0]), ts[1..]);
    }
  }

  /** From a fresh node, `k` measurements give count `k` and their exact sum
      as total time, with no sub-models. */
  lemma MeasurementsFromFresh(ts: seq<int>)
    ensures MeasureAll(Fresh(), ts) == UsageData(|ts|, Sum(ts), map[])
  {
    MeasurementsAccumulate(Fresh(), ts);
  }

  /** Merging the node of one measurement history into the node of another
      gives the counters of the two histories run one after the other. */
  lemma AddMergesHistories(a: seq<int>, b: seq<int>)
    ensures Add(MeasureAll(Fresh(), a), MeasureAll(Fresh(), b)) == MeasureAll(Fresh(), a + b)
  {
    var left := MeasureAll(Fresh(), a);
    var right := MeasureAll(Fresh(), b);
    MeasurementsFromFresh(a);
    MeasurementsFromFresh(b);
    MeasurementsFromFresh(a + b);
    SumAppend(a, b);
    assert left == UsageData(|a|, Sum(a), map[]);
    assert right == UsageData(|b|, Sum(b), map[]);
    var merged := Add(left, right);
    assert merged.count == |a| + |b| && merged.totalTime == Sum(a) + Sum(b) && merged.subModels == map[];
    assert merged == UsageData(merged.count, merged.totalTime, merged.subModels);
  }

  /** A copy keeps the counters the original had when it was taken, however
      many measurements the original records afterwards, and merging the copy
      into a fresh node gives back exactly those counters. */
  lemma CopyIsSnapshot(n: UsageData, ts: seq<int>)
    ensures var snapshot := Copy(n);
            var later := MeasureAll(n, ts);
            && snapshot.count == n.count && snapshot.totalTime == n.totalTime
            && later.count == snapshot.count + |ts|
            && later.totalTime == snapshot.totalTime + Sum(ts)
            && Add(Fresh(), snapshot) == UsageData(n.count, n.totalTime, map[])
  {
    MeasurementsAccumulate(n, ts);
  }

  /** Clearing the sub-models and recording measurements commute. */
  lemma {:induction false} ClearCommutesWithMeasurements(n: UsageData, ts: seq<int>)
    ensures ClearSubModels(MeasureAll(n, ts)) == MeasureAll(ClearSubModels(n), ts)
    decreases |ts|
  {
    if |ts| > 0 {
      ClearCommutesWithMeasurements(AddTimeMeasurement(n, ts[0]), ts[1..]);
    }
  }

  /** Three measurements of 1, 2 and 3 ms: count 3, 6 000 000 ns in all,
      which `getTotalTime` reports as 6 ms. */
  lemma ThreeMeasurements()
    ensures var n := MeasureAll(Fresh(), [1_000_000, 2_000_000, 3_000_000]);
            n.count == 3 && n.totalTime == 6_000_000 && TotalTimeMillis(n) == 6
  {
    MeasurementsFromFresh([1_000_000, 2_000_000, 3_000_000]);
  }

  /** The outcome of a mutator that may throw part-way: the node it leaves
      behind and whether it threw. */
  datatype Update = Update(node: UsageData, threw: bool)

  /** `addTimeMeasurement` as written, on a boxed `Long` that may be null:
      the count is incremented before the argument is unboxed, so a null
      measurement throws only after the count has moved. */
  function AddBoxedTimeMeasurement(n: UsageData, t: Option<int>): (u: Update)
    ensures u.threw <==> t.None?
    ensures u.node.count == n.count + 1
    ensures u.node.subModels == n.subModels
    ensures t.Some? ==> u.node == AddTimeMeasurement(n, t.value)
    ensures t.None? ==> u.node.totalTime == n.totalTime
  {
    var counted := n.(count := n.count + 1);
    match t
    case None => Update(counted, true)
    case Some(nanos) => Update(counted.(totalTime := counted.totalTime + nanos), false)
  }

  /** A null measurement on a fresh node throws, yet leaves a node claiming
      one invocation that took no time. */
  lemma NullMeasurementIsHalfRecorded()
    ensures var u := AddBoxedTimeMeasurement(Fresh(), None);
            u.threw && u.node.count == 1 && u.node.totalTime == 0 && u.node != Fresh()
  {
  }

  /** `addTimeMeasurement` with the argument checked before anything changes:
      a null measurement throws and leaves the node as it was. */
  function AddCheckedTimeMeasurement(n: UsageData, t: Option<int>): (u: Update)
    ensures u.threw <==> t.None?
    ensures u.threw ==> u.node == n
    ensures !u.threw ==> u.node == AddTimeMeasurement(n, t.value)
  {
    match t
    case None => Update(n, true)
    case Some(nanos) => Update(AddTimeMeasurement(n, nanos), false)
  }

  /** With the check in front, a sequence of boxed measurements leaves the
      node exactly as the non-null ones alone would. */
  lemma {:induction false} CheckedMeasurementsSkipNulls(n: UsageData, ts: seq<Option<int>>)
    ensures CheckedMeasureAll(n, ts) == MeasureAll(n, NonNull(ts))
    decreases |ts|
  {
    if |ts| > 0 {
      var rest := NonNull(ts[1..]);
      if ts[0].Some? {
        CheckedMeasurementsSkipNulls(AddTimeMeasurement(n, ts[0].value), ts[1..]);
        var kept := [ts[0].value] + rest;
        assert kept[0] == ts[0].value && kept[1..] == rest;
      } else {
        CheckedMeasurementsSkipNulls(n, ts[1..]);
        assert [] + rest == rest;
      }
    }
  }

  /** The boxed measurements of `ts` applied in order with the check, each
      caller catching the exception of a null one. */
  function CheckedMeasureAll(n: UsageData, ts: seq<Option<int>>): UsageData
    decreases |ts|
  {
    if |ts| == 0 then n else CheckedMeasureAll(AddCheckedTimeMeasurement(n, ts[0]).node, ts[1..])
  }

  /** The non-null values of `ts`, in order. */
  function NonNull(ts: seq<Option<int>>): seq<int>
    decreases |ts|
  {
    if |ts| == 0 then [] else (if ts[0].Some? then [ts[0].value] else []) + NonNull(ts[1..])
  }
}
