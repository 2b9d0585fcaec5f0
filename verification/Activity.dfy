/**
 The activity chart of a session: the choice of a bucket width and the layout of the
 buckets over the visible messages.
 */
module Activity {
  import opened Numbers
  import opened Sequences

  const MAX_INT64: int := 0x7FFF_FFFF_FFFF_FFFF

  type Int64 = x: int | -MAX_INT64 - 1 <= x <= MAX_INT64

  /** Two's complement wrap-around of a sum. */
  function Wrap(x: int): Int64 {
    (x + MAX_INT64 + 1) % (2 * (MAX_INT64 + 1)) - MAX_INT64 - 1
  }

  function Abs(x: int): nat {
    if x < 0 then -x else x
  }

  // ----- The bucket width -----

  const INTERVAL_STEPS: seq<int> := [60, 120, 300, 600, 900, 1800, 3600, 7200]

  const MAX_BUCKETS := 50

  predicate Closer(step: int, best: int, target: int) {
    Abs(step - target) < Abs(best - target) || (Abs(step - target) == Abs(best - target) && step > best)
  }

  /** The step closest to the target; of two, the larger. */
  function Nearest(steps: seq<int>, target: int): (best: int)
    requires steps != []
    ensures best in steps
  {
    if |steps| == 1 then steps[0] else
    var best := Nearest(steps[..|steps| - 1], target);
    if Closer(steps[|steps| - 1], best, target) then steps[|steps| - 1] else best
  }

  lemma {:induction false} NearestIsClosest(steps: seq<int>, target: int)
    requires steps != []
    ensures forall k :: 0 <= k < |steps| ==> !Closer(steps[k], Nearest(steps, target), target)
  {
    if |steps| > 1 {
      NearestIsClosest(steps[..|steps| - 1], target);
      assert forall k :: 0 <= k < |steps| - 1 ==> steps[k] == steps[..|steps| - 1][k];
    }
  }

  function Snap(duration: Int64): int {
    if duration <= 0 || duration / 30 <= 60 then 60 else
    var best := Nearest(INTERVAL_STEPS, duration / 30);
    if duration / best + 1 > MAX_BUCKETS then TruncDiv(Wrap(duration + 48), 49) else best
  }

  method SnapInterval(duration: Int64) returns (best: int)
    ensures best == Snap(duration)
  {
    if duration <= 0 { return 60; }
    var target := duration / 30;
    if target <= 60 { return 60; }
    best := NearestStep(INTERVAL_STEPS, target);
    if duration / best + 1 > MAX_BUCKETS {
      best := TruncDiv(Wrap(duration + MAX_BUCKETS - 2), MAX_BUCKETS - 1);
    }
  }

  method NearestStep(steps: seq<int>, target: int) returns (best: int)
    requires steps != []
    ensures best == Nearest(steps, target)
  {
    best := steps[0];
    var bestDist := Abs(steps[0] - target);
    for k := 0 to |steps|
      invariant best == if k == 0 then steps[0] else Nearest(steps[..k], target)
      invariant bestDist == Abs(best - target)
    {
      var step := steps[k];
      var d := Abs(step - target);
      assert steps[..k + 1][..k] == steps[..k];
      if d < bestDist || (d == bestDist && step > best) {
        bestDist := d;
        best := step;
      }
    }
    assert steps[..|steps|] == steps;
  }

  lemma QuotientBound(x: nat, y: int, n: nat)
    requires y > 0
    ensures x / y <= n <==> x < (n + 1) * y
  {
    assert x == x / y * y + x % y;
    if x / y <= n { assert (x / y) * y <= n * y; }
    if x / y >= n + 1 { assert (x / y) * y >= (n + 1) * y; }
  }

  lemma WidthFits(duration: nat, width: int)
    requires width > 0
    ensures duration / width + 1 <= MAX_BUCKETS <==> duration < 50 * width
  {
    QuotientBound(duration, width, 49);
  }

  lemma ScaledWidth(duration: Int64)
    requires duration > 0
    ensures TruncDiv(Wrap(duration + 48), 49) > 0 <==> duration <= MAX_INT64 - 48
    ensures duration <= MAX_INT64 - 48 ==> duration < 50 * TruncDiv(Wrap(duration + 48), 49)
  {
  }

  /**
   The width is positive and keeps the buckets of the duration within the maximum, exactly up to 48 short
   of the largest duration.
   */
  lemma SnapBoundsBuckets(duration: Int64)
    ensures (Snap(duration) > 0 && (duration >= 0 ==> duration / Snap(duration) + 1 <= MAX_BUCKETS))
            <==> duration <= MAX_INT64 - 48
  {
    if duration > 0 {
      WidthFits(duration, 60);
      if duration / 30 > 60 {
        var best := Nearest(INTERVAL_STEPS, duration / 30);
        WidthFits(duration, best);
        ScaledWidth(duration);
        if Snap(duration) > 0 { WidthFits(duration, Snap(duration)); }
      }
    }
  }

  // ----- The layout -----

  /** A stored message: whether it is visible, its time in seconds if it parses, its role and ordinal. */
  datatype Row = Row(visible: bool, time: Option<real>, role: string, ordinal: int)

  predicate IsCharted(r: Row) {
    r.visible && r.time.Some?
  }

  /** A real truncated toward zero. */
  function Trunc(x: real): int {
    if x >= 0.0 then x.Floor else -((-x).Floor)
  }

  /** Where the buckets start and how wide they are. */
  datatype Scale = Scale(anchor: int, width: int)

  function IndexOf(s: Scale, time: real): int
    requires s.width > 0
  {
    Trunc((time - s.anchor as real) / s.width as real)
  }

  predicate InBucket(s: Scale, r: Row, i: int)
    requires s.width > 0
  {
    IsCharted(r) && IndexOf(s, r.time.value) == i
  }

  /** How many rows of a role fall into a bucket. */
  function Tally(rows: seq<Row>, s: Scale, role: string, i: int): nat
    requires s.width > 0
  {
    if rows == [] then 0 else
    Tally(rows[..|rows| - 1], s, role, i)
    + if InBucket(s, rows[|rows| - 1], i) && rows[|rows| - 1].role == role then 1 else 0
  }

  /** The smallest ordinal in a bucket, if it has any. */
  function FirstOrdinal(rows: seq<Row>, s: Scale, i: int): Option<int>
    requires s.width > 0
  {
    if rows == [] then None else
    var first := FirstOrdinal(rows[..|rows| - 1], s, i);
    var last := rows[|rows| - 1];
    if InBucket(s, last, i) && (first.None? || last.ordinal < first.value) then Some(last.ordinal) else first
  }

  function Earliest(rows: seq<Row>): Option<real> {
    if rows == [] then None else
    var min := Earliest(rows[..|rows| - 1]);
    var last := rows[|rows| - 1];
    if IsCharted(last) && (min.None? || last.time.value < min.value) then last.time else min
  }

  function Latest(rows: seq<Row>): Option<real> {
    if rows == [] then None else
    var max := Latest(rows[..|rows| - 1]);
    var last := rows[|rows| - 1];
    if IsCharted(last) && (max.None? || last.time.value > max.value) then last.time else max
  }

  lemma {:induction false} Extremes(rows: seq<Row>)
    ensures Earliest(rows).Some? == Latest(rows).Some?
    ensures Earliest(rows).Some? ==> Earliest(rows).value <= Latest(rows).value
    ensures forall r :: r in rows && IsCharted(r) ==>
            Earliest(rows).Some? && Earliest(rows).value <= r.time.value <= Latest(rows).value
    ensures Earliest(rows).Some? ==> exists r :: r in rows && IsCharted(r) && r.time == Earliest(rows)
    ensures Latest(rows).Some? ==> exists r :: r in rows && IsCharted(r) && r.time == Latest(rows)
  {
    if rows != [] {
      Extremes(rows[..|rows| - 1]);
      assert rows == rows[..|rows| - 1] + [rows[|rows| - 1]];
      assert rows[|rows| - 1] in rows;
    }
  }

  // Times the store can read lie between the years -4713 and 9999.
  const MIN_TIME := -210866760000.0
  const MAX_TIME := 253402300800.0

  ghost predicate Readable(rows: seq<Row>) {
    forall r :: r in rows && r.time.Some? ==> MIN_TIME <= r.time.value <= MAX_TIME
  }

  ghost predicate HasTimes(rows: seq<Row>) {
    Readable(rows) && Earliest(rows).Some? && Latest(rows).Some?
  }

  /** The time from the earliest to the latest charted row, in whole seconds. */
  ghost function Duration(rows: seq<Row>): (d: Int64)
    requires HasTimes(rows)
    ensures 0.0 <= d as real <= Latest(rows).value - Earliest(rows).value < (d + 1) as real
    ensures d < 500_000_000_000
  {
    Extremes(rows);
    Trunc(Latest(rows).value - Earliest(rows).value)
  }

  /** The scale of the chart: anchored at the whole second of the earliest charted row. */
  ghost function ScaleOf(rows: seq<Row>): (s: Scale)
    requires HasTimes(rows)
    ensures s.width > 0 && Duration(rows) < 50 * s.width
  {
    SnapBoundsBuckets(Duration(rows));
    WidthFits(Duration(rows), Snap(Duration(rows)));
    Scale(Trunc(Earliest(rows).value), Snap(Duration(rows)))
  }

  // ----- Where a row falls -----

  lemma QuotientAtLeast(x: real, w: int, n: int)
    requires w > 0
    ensures x / w as real >= n as real <==> x >= (n * w) as real
  {
    assert x == (x / w as real) * w as real;
    if x / w as real >= n as real { assert (x / w as real) * w as real >= n as real * w as real; }
    if x / w as real < n as real { assert (x / w as real) * w as real < n as real * w as real; }
  }

  /**
   A row at or after the anchor falls into the bucket whose interval holds it; one less than a width
   before, into the first.
   */
  lemma IndexMeans(s: Scale, time: real, i: int)
    requires s.width > 0
    ensures time >= s.anchor as real ==>
            (IndexOf(s, time) == i <==>
             (s.anchor + i * s.width) as real <= time < (s.anchor + (i + 1) * s.width) as real)
    ensures (s.anchor - s.width) as real < time < s.anchor as real ==> IndexOf(s, time) == 0
  {
    var x := time - s.anchor as real;
    QuotientAtLeast(x, s.width, i);
    QuotientAtLeast(x, s.width, i + 1);
    QuotientAtLeast(x, s.width, 0);
    QuotientAtLeast(x, s.width, -1);
    assert time >= s.anchor as real ==> x / s.width as real >= 0.0;
  }

  lemma IndexMonotone(s: Scale, time: real, later: real)
    requires s.width > 0 && (s.anchor - s.width) as real < time <= later
    ensures IndexOf(s, time) <= IndexOf(s, later)
  {
    IndexMeans(s, time, IndexOf(s, time));
    IndexMeans(s, later, IndexOf(s, later));
    QuotientAtLeast(later - s.anchor as real, s.width, 0);
    QuotientAtLeast(later - s.anchor as real, s.width, IndexOf(s, time));
  }

  ghost function BucketCount(rows: seq<Row>): int
    requires HasTimes(rows)
  {
    IndexOf(ScaleOf(rows), Latest(rows).value) + 1
  }

  lemma AnchorNearEarliest(rows: seq<Row>)
    requires HasTimes(rows)
    ensures var anchor, min := ScaleOf(rows).anchor as real, Earliest(rows).value;
            anchor - 1.0 < min < anchor + 1.0 && (min < anchor <==> min < 0.0 && min.Floor as real != min)
  {
    TruncNear(Earliest(rows).value);
  }

  lemma TruncNear(x: real)
    ensures Trunc(x) as real - 1.0 < x < Trunc(x) as real + 1.0
    ensures x < Trunc(x) as real <==> x < 0.0 && x.Floor as real != x
  {
    if x < 0.0 {
      var n := (-x).Floor;
      assert n as real <= -x < n as real + 1.0;
      if x == (-n) as real { FloorIs(x, -n); } else { FloorIs(x, -n - 1); }
    }
  }

  lemma FloorIs(x: real, n: int)
    requires n as real <= x < n as real + 1.0
    ensures x.Floor == n
  {
  }

  /** Every charted row falls into one of the buckets. */
  lemma ChartedRowsHaveBuckets(rows: seq<Row>)
    requires HasTimes(rows)
    ensures forall r :: r in rows && IsCharted(r) ==> 0 <= IndexOf(ScaleOf(rows), r.time.value) < BucketCount(rows)
  {
    var s, min, max := ScaleOf(rows), Earliest(rows).value, Latest(rows).value;
    Extremes(rows);
    AnchorNearEarliest(rows);
    forall r | r in rows && IsCharted(r) ensures 0 <= IndexOf(s, r.time.value) < BucketCount(rows) {
      IndexNotNegative(s, r.time.value);
      IndexMonotone(s, r.time.value, max);
    }
  }

  /** There are at most 51 buckets. */
  lemma BucketsAreBounded(rows: seq<Row>)
    requires HasTimes(rows)
    ensures 1 <= BucketCount(rows) <= MAX_BUCKETS + 1
    ensures BucketCount(rows) <= MAX_BUCKETS
            <==> Latest(rows).value < (ScaleOf(rows).anchor + 50 * ScaleOf(rows).width) as real
  {
    Extremes(rows);
    AnchorNearEarliest(rows);
    IndexBelow(ScaleOf(rows), Latest(rows).value, 50);
    IndexBelow(ScaleOf(rows), Latest(rows).value, 51);
    IndexNotNegative(ScaleOf(rows), Latest(rows).value);
  }

  lemma TightStep(duration: Int64, k: nat)
    requires k < |INTERVAL_STEPS| && duration == 50 * INTERVAL_STEPS[k] - 1
    requires Nearest(INTERVAL_STEPS, duration / 30) == INTERVAL_STEPS[k]
    ensures duration == 5999 || duration == 359999
  {
    NearestIsClosest(INTERVAL_STEPS, duration / 30);
    if k < 7 { assert !Closer(INTERVAL_STEPS[k + 1], INTERVAL_STEPS[k], duration / 30); }
  }

  lemma NearestIs7200()
    ensures Nearest(INTERVAL_STEPS, 11999) == 7200
  {
    NearestIsClosest(INTERVAL_STEPS, 11999);
    assert !Closer(INTERVAL_STEPS[7], Nearest(INTERVAL_STEPS, 11999), 11999);
  }

  /** Only two durations fill their fifty buckets to the last second. */
  lemma TightDurations(duration: Int64)
    requires 0 <= duration <= MAX_INT64 - 48
    ensures duration == 50 * Snap(duration) - 1 <==> duration == 5999 || duration == 359999
  {
    NearestOf199();
    NearestIs7200();
    if duration / 30 > 60 {
      var best := Nearest(INTERVAL_STEPS, duration / 30);
      if duration / best + 1 <= MAX_BUCKETS {
        var k :| 0 <= k < |INTERVAL_STEPS| && INTERVAL_STEPS[k] == best;
        if duration == 50 * best - 1 { TightStep(duration, k); }
      } else {
        TightScaled(duration);
      }
    }
  }

  lemma TightScaled(duration: Int64)
    requires 49 < duration <= MAX_INT64 - 48
    ensures duration != 50 * TruncDiv(Wrap(duration + 48), 49) - 1
  {
    assert Wrap(duration + 48) == duration + 48;
  }

  /**
   There are 51 buckets exactly if the whole seconds from first to last row number 5999 or 359999, and
   the fractions carry over.
   */
  lemma FiftyOneBucketsIff(rows: seq<Row>)
    requires HasTimes(rows)
    ensures BucketCount(rows) > MAX_BUCKETS <==>
            && (Duration(rows) == 5999 || Duration(rows) == 359999)
            && Latest(rows).value - Trunc(Earliest(rows).value) as real >= (Duration(rows) + 1) as real
  {
    BucketsAreBounded(rows);
    AnchorNearEarliest(rows);
    TightDurations(Duration(rows));
  }

  lemma IndexBelow(s: Scale, time: real, n: nat)
    requires s.width > 0 && n > 0
    ensures IndexOf(s, time) < n <==> time < (s.anchor + n * s.width) as real
  {
    QuotientAtLeast(time - s.anchor as real, s.width, n);
    QuotientAtLeast(time - s.anchor as real, s.width, 0);
  }

  lemma IndexNotNegative(s: Scale, time: real)
    requires s.width > 0 && (s.anchor - s.width) as real < time
    ensures IndexOf(s, time) >= 0
  {
    IndexMeans(s, time, 0);
    QuotientAtLeast(time - s.anchor as real, s.width, 0);
  }

  /** The bound of 50 can be missed by one: the anchor is up to a second before the earliest row. */
  lemma FiftyOneBuckets()
    ensures var rows := [Row(true, Some(0.9), "user", 0), Row(true, Some(6000.8), "assistant", 1)];
            HasTimes(rows) && ScaleOf(rows).width == 120 && BucketCount(rows) == 51
  {
    var rows := [Row(true, Some(0.9), "user", 0), Row(true, Some(6000.8), "assistant", 1)];
    ExtremesOfTwo(rows[0], rows[1]);
    NearestOf199();
    assert ScaleOf(rows) == Scale(0, 120);
    IndexMeans(Scale(0, 120), 6000.8, 50);
  }

  lemma ExtremesOfTwo(x: Row, y: Row)
    requires IsCharted(x) && IsCharted(y) && x.time.value < y.time.value
    ensures Earliest([x, y]) == x.time && Latest([x, y]) == y.time
  {
    assert [x, y][..1] == [x] && [x][..0] == [];
    assert Earliest([x]) == x.time && Latest([x]) == x.time;
  }

  lemma NearestOf199()
    ensures Nearest(INTERVAL_STEPS, 199) == 120
  {
    NearestIsClosest(INTERVAL_STEPS, 199);
    assert !Closer(INTERVAL_STEPS[1], Nearest(INTERVAL_STEPS, 199), 199);
  }

  ghost predicate WithinItsBucket(s: Scale, r: Row)
    requires s.width > 0 && IsCharted(r)
  {
    var i := IndexOf(s, r.time.value);
    (s.anchor + i * s.width) as real <= r.time.value < (s.anchor + (i + 1) * s.width) as real
  }

  /**
   Each row lies between the start and the end of its bucket, exactly if the earliest time is not
   negative or a whole second.
   */
  lemma BucketsHoldTheirRows(rows: seq<Row>)
    requires HasTimes(rows)
    ensures (forall r :: r in rows && IsCharted(r) ==> WithinItsBucket(ScaleOf(rows), r))
            <==> Earliest(rows).value >= 0.0 || Earliest(rows).value.Floor as real == Earliest(rows).value
  {
    var s, min := ScaleOf(rows), Earliest(rows).value;
    Extremes(rows);
    AnchorNearEarliest(rows);
    forall r | r in rows && IsCharted(r) ensures WithinItsBucket(s, r) <==> r.time.value >= s.anchor as real {
      WithinIffAfterAnchor(s, r);
    }
  }

  lemma WithinIffAfterAnchor(s: Scale, r: Row)
    requires s.width > 0 && IsCharted(r) && (s.anchor - s.width) as real < r.time.value
    ensures WithinItsBucket(s, r) <==> r.time.value >= s.anchor as real
  {
    IndexMeans(s, r.time.value, IndexOf(s, r.time.value));
  }

  // ----- Nothing is lost -----

  predicate IsChartedAs(r: Row, role: string) {
    IsCharted(r) && r.role == role
  }

  function ChartedAs(rows: seq<Row>, role: string): nat {
    if rows == [] then 0 else
    ChartedAs(rows[..|rows| - 1], role) + if IsChartedAs(rows[|rows| - 1], role) then 1 else 0
  }

  function TotalTally(rows: seq<Row>, s: Scale, role: string, n: nat): nat
    requires s.width > 0
  {
    if n == 0 then 0 else TotalTally(rows, s, role, n - 1) + Tally(rows, s, role, n - 1)
  }

  lemma {:induction false} TotalTallyStep(rows: seq<Row>, s: Scale, role: string, n: nat)
    requires s.width > 0 && rows != []
    ensures TotalTally(rows, s, role, n) == TotalTally(rows[..|rows| - 1], s, role, n)
            + if IsChartedAs(rows[|rows| - 1], role) && 0 <= IndexOf(s, rows[|rows| - 1].time.value) < n then 1 else 0
  {
    if n > 0 { TotalTallyStep(rows, s, role, n - 1); }
  }

  lemma {:induction false} TalliesOf(rows: seq<Row>, s: Scale, role: string, n: nat)
    requires s.width > 0
    requires forall r :: r in rows && IsCharted(r) ==> 0 <= IndexOf(s, r.time.value) < n
    ensures TotalTally(rows, s, role, n) == ChartedAs(rows, role)
  {
    if rows == [] {
      TotalTallyOfNone(s, role, n);
    } else {
      assert forall r :: r in rows[..|rows| - 1] ==> r in rows;
      TalliesOf(rows[..|rows| - 1], s, role, n);
      TotalTallyStep(rows, s, role, n);
      assert rows[|rows| - 1] in rows;
    }
  }

  lemma {:induction false} TotalTallyOfNone(s: Scale, role: string, n: nat)
    requires s.width > 0
    ensures TotalTally([], s, role, n) == 0
  {
    if n > 0 { TotalTallyOfNone(s, role, n - 1); }
  }

  /** The counts of a role over all buckets add up to the charted rows of that role. */
  lemma TalliesAddUp(rows: seq<Row>, role: string)
    requires HasTimes(rows)
    ensures BucketCount(rows) >= 0 && TotalTally(rows, ScaleOf(rows), role, BucketCount(rows)) == ChartedAs(rows, role)
  {
    BucketsAreBounded(rows);
    ChartedRowsHaveBuckets(rows);
    TalliesOf(rows, ScaleOf(rows), role, BucketCount(rows));
  }

  // ----- The response -----

  datatype Bucket = Bucket(start: int, end: int, userCount: nat, assistantCount: nat, firstOrdinal: Option<int>)

  /** A row of the grouped query. */
  datatype Group = Group(userCount: nat, assistantCount: nat, firstOrdinal: Option<int>)

  /** The grouped query: one group for each bucket that holds a charted row. */
  function Grouped(rows: seq<Row>, s: Scale): map<int, Group>
    requires s.width > 0
  {
    map i | i in (set r | r in rows && IsCharted(r) :: IndexOf(s, r.time.value)) ::
      Group(Tally(rows, s, "user", i), Tally(rows, s, "assistant", i), FirstOrdinal(rows, s, i))
  }

  /** Bucket `i` of the chart, whether or not a row falls into it. */
  ghost function BucketAt(rows: seq<Row>, s: Scale, i: int): Bucket
    requires s.width > 0
  {
    Bucket(s.anchor + i * s.width, s.anchor + (i + 1) * s.width,
           Tally(rows, s, "user", i), Tally(rows, s, "assistant", i), FirstOrdinal(rows, s, i))
  }

  lemma {:induction false} EmptyBucket(rows: seq<Row>, s: Scale, i: int)
    requires s.width > 0 && forall r :: r in rows ==> !InBucket(s, r, i)
    ensures Tally(rows, s, "user", i) == Tally(rows, s, "assistant", i) == 0 && FirstOrdinal(rows, s, i) == None
  {
    if rows != [] {
      assert forall r :: r in rows[..|rows| - 1] ==> r in rows;
      EmptyBucket(rows[..|rows| - 1], s, i);
      assert rows[|rows| - 1] in rows;
    }
  }

  /** The first ordinal of a bucket is the least ordinal in it. */
  lemma {:induction false} FirstOrdinalIsLeast(rows: seq<Row>, s: Scale, i: int)
    requires s.width > 0
    ensures FirstOrdinal(rows, s, i).None? <==> forall r :: r in rows ==> !InBucket(s, r, i)
    ensures FirstOrdinal(rows, s, i).Some? ==>
            && (exists r :: r in rows && InBucket(s, r, i) && r.ordinal == FirstOrdinal(rows, s, i).value)
            && (forall r :: r in rows && InBucket(s, r, i) ==> FirstOrdinal(rows, s, i).value <= r.ordinal)
  {
    if rows != [] {
      FirstOrdinalIsLeast(rows[..|rows| - 1], s, i);
      assert rows == rows[..|rows| - 1] + [rows[|rows| - 1]];
      assert rows[|rows| - 1] in rows;
    }
  }

  method GetSessionActivity(rows: seq<Row>) returns (buckets: array<Bucket>, width: int, total: nat)
    requires Readable(rows)
    ensures total == |rows| && fresh(buckets)
    ensures Earliest(rows).None? ==> buckets.Length == 0 && width == 0
    ensures HasTimes(rows) ==>
            && width == ScaleOf(rows).width
            && buckets.Length == BucketCount(rows)
            && forall i :: 0 <= i < buckets.Length ==> buckets[i] == BucketAt(rows, ScaleOf(rows), i)
  {
    total := |rows|;
    Extremes(rows);
    var min, max := Earliest(rows), Latest(rows);
    if min.None? || max.None? {
      buckets := new Bucket[0];
      width := 0;
      return;
    }
    var duration := Trunc(max.value - min.value);
    assert duration == Duration(rows);
    width := SnapInterval(duration);
    var s := Scale(Trunc(min.value), width);
    assert s == ScaleOf(rows);
    var populated := Grouped(rows, s);
    var maxIndex := HighestIndex(populated);
    LatestIsHighest(rows);
    buckets := new Bucket[maxIndex + 1];
    FillBuckets(buckets, populated, rows, s);
  }

  /** Fills the buckets from the groups, gaps included. */
  method FillBuckets(buckets: array<Bucket>, populated: map<int, Group>, ghost rows: seq<Row>, s: Scale)
    requires s.width > 0 && populated == Grouped(rows, s)
    modifies buckets
    ensures forall i :: 0 <= i < buckets.Length ==> buckets[i] == BucketAt(rows, s, i)
  {
    for i := 0 to buckets.Length
      invariant forall j :: 0 <= j < i ==> buckets[j] == BucketAt(rows, s, j)
    {
      var start := s.anchor + i * s.width;
      var bucket := Bucket(start, start + s.width, 0, 0, None);
      if i in populated {
        var g := populated[i];
        bucket := bucket.(userCount := g.userCount, assistantCount := g.assistantCount, firstOrdinal := g.firstOrdinal);
      } else {
        NotGrouped(rows, s, i);
      }
      buckets[i] := bucket;
    }
  }

  lemma NotGrouped(rows: seq<Row>, s: Scale, i: int)
    requires s.width > 0 && i !in Grouped(rows, s)
    ensures Tally(rows, s, "user", i) == Tally(rows, s, "assistant", i) == 0 && FirstOrdinal(rows, s, i) == None
  {
    forall r | r in rows ensures !InBucket(s, r, i) {
      if IsCharted(r) { assert IndexOf(s, r.time.value) in Grouped(rows, s); }
    }
    EmptyBucket(rows, s, i);
  }

  lemma HasElement(s: set<int>)
    requires s != {}
    ensures exists i :: i in s
  {
    assert (forall i :: i !in s) ==> s == {};
  }

  /** The largest index of the grouped query, or zero. */
  method HighestIndex(populated: map<int, Group>) returns (highest: nat)
    ensures forall i :: i in populated ==> i <= highest
    ensures highest == 0 || highest in populated
  {
    highest := 0;
    var left := populated.Keys;
    while left != {}
      invariant left <= populated.Keys
      invariant forall i :: i in populated ==> i in left || i <= highest
      invariant highest == 0 || highest in populated
      decreases |left|
    {
      HasElement(left);
      var i :| i in left;
      if i > highest { highest := i; }
      left := left - {i};
    }
  }

  lemma LatestIsHighest(rows: seq<Row>)
    requires HasTimes(rows)
    ensures BucketCount(rows) - 1 in Grouped(rows, ScaleOf(rows))
    ensures forall i :: i in Grouped(rows, ScaleOf(rows)) ==> 0 <= i < BucketCount(rows)
  {
    Extremes(rows);
    ChartedRowsHaveBuckets(rows);
    var r :| r in rows && IsCharted(r) && r.time == Latest(rows);
    assert IndexOf(ScaleOf(rows), r.time.value) in Grouped(rows, ScaleOf(rows));
  }
}
