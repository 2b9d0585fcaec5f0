/**
 The merging of assistant rows into generation events: neighbouring rows of a session join if they
 are less than two seconds apart or carry the same request, and each event gives at most one
 speed sample.
 */
module SpeedBursts {
  import opened Sequences

  /** A row in conversation order; times in nanoseconds, if they parse, and that of the message before it. */
  datatype Row = Row(
    session: string, agent: string, role: string, time: Option<int>, tokens: Option<int>, model: string,
    previous: Option<int>, request: string)

  /** Output tokens over a window; the rate is their quotient. */
  datatype Sample = Sample(session: string, agent: string, model: string, tokens: int, window: int, end: int)

  /** The rows from `first` up to, not including, `end`. */
  datatype Burst = Burst(first: nat, end: nat)

  const MIN_TOKENS := 32
  const MAX_WINDOW := 1_800_000_000_000
  const BURST_GAP := 2_000_000_000

  predicate IsOutput(r: Row) {
    r.role == "assistant" && r.time.Some?
  }

  predicate Joined(a: Row, b: Row) {
    && IsOutput(a) && IsOutput(b) && a.session == b.session
    && (b.time.value - a.time.value < BURST_GAP || (b.request != "" && b.request == a.request))
  }

  /** Row `k` extends the event of the row before it. */
  predicate JoinedAt(rows: seq<Row>, k: int) {
    0 < k < |rows| && Joined(rows[k - 1], rows[k])
  }

  // ----- The events -----

  /** A longest stretch of rows each of which extends the event of the one before. */
  ghost predicate IsBurst(rows: seq<Row>, b: Burst) {
    && b.first < b.end <= |rows| && IsOutput(rows[b.first])
    && !JoinedAt(rows, b.first) && !JoinedAt(rows, b.end)
    && forall k :: b.first < k < b.end ==> JoinedAt(rows, k)
  }

  function EndOf(rows: seq<Row>, j: nat): (e: nat)
    requires j <= |rows|
    ensures j <= e <= |rows| && !JoinedAt(rows, e)
    ensures forall k :: j <= k < e ==> JoinedAt(rows, k)
    decreases |rows| - j
  {
    if JoinedAt(rows, j) then EndOf(rows, j + 1) else j
  }

  function BurstsFrom(rows: seq<Row>, i: nat): seq<Burst>
    decreases |rows| - i
  {
    if i >= |rows| then []
    else if !IsOutput(rows[i]) then BurstsFrom(rows, i + 1)
    else [Burst(i, EndOf(rows, i + 1))] + BurstsFrom(rows, EndOf(rows, i + 1))
  }

  function Bursts(rows: seq<Row>): seq<Burst> {
    BurstsFrom(rows, 0)
  }

  lemma BurstEndsAt(rows: seq<Row>, i: nat, b: Burst)
    requires i < |rows| && IsBurst(rows, b) && b.first == i
    ensures b.end == EndOf(rows, i + 1)
  {
    assert !JoinedAt(rows, b.end) && !JoinedAt(rows, EndOf(rows, i + 1));
  }

  lemma {:induction false} BurstsFromAreExact(rows: seq<Row>, i: nat)
    requires i <= |rows| && !JoinedAt(rows, i)
    ensures forall b :: b in BurstsFrom(rows, i) <==> b.first >= i && IsBurst(rows, b)
    decreases |rows| - i
  {
    if i < |rows| {
      if !IsOutput(rows[i]) {
        BurstsFromAreExact(rows, i + 1);
      } else {
        var e := EndOf(rows, i + 1);
        BurstsFromAreExact(rows, e);
        forall b: Burst | b.first >= i && IsBurst(rows, b) ensures b == Burst(i, e) || b.first >= e {
          assert !JoinedAt(rows, b.first);
          if b.first == i { BurstEndsAt(rows, i, b); }
        }
      }
    }
  }

  /** The events are exactly the longest joined stretches. */
  lemma BurstsAreExact(rows: seq<Row>)
    ensures forall b :: b in Bursts(rows) <==> IsBurst(rows, b)
  {
    BurstsFromAreExact(rows, 0);
  }

  lemma {:induction false} BurstsFromAreInOrder(rows: seq<Row>, i: nat)
    ensures forall k :: 0 <= k < |BurstsFrom(rows, i)| ==>
            i <= BurstsFrom(rows, i)[k].first < BurstsFrom(rows, i)[k].end
    ensures forall k, l :: 0 <= k < l < |BurstsFrom(rows, i)| ==>
            BurstsFrom(rows, i)[k].end <= BurstsFrom(rows, i)[l].first
    decreases |rows| - i
  {
    if i < |rows| {
      if IsOutput(rows[i]) {
        BurstsFromAreInOrder(rows, EndOf(rows, i + 1));
      } else {
        BurstsFromAreInOrder(rows, i + 1);
      }
    }
  }

  /** The events come in conversation order and do not overlap. */
  lemma BurstsAreInOrder(rows: seq<Row>)
    ensures var bs := Bursts(rows); forall k, l :: 0 <= k < l < |bs| ==> bs[k].first < bs[k].end <= bs[l].first
  {
    BurstsFromAreInOrder(rows, 0);
  }

  predicate Contains(b: Burst, k: int) {
    b.first <= k < b.end
  }

  lemma {:induction false} StartOf(rows: seq<Row>, k: nat) returns (i: nat)
    requires k < |rows| && IsOutput(rows[k])
    ensures i <= k && IsOutput(rows[i]) && !JoinedAt(rows, i) && forall m :: i < m <= k ==> JoinedAt(rows, m)
  {
    if JoinedAt(rows, k) { i := StartOf(rows, k - 1); } else { i := k; }
  }

  /** Every row of output is in exactly one event, and no other row is in one. */
  lemma EachOutputIsInOneBurst(rows: seq<Row>, k: nat)
    requires k < |rows|
    ensures IsOutput(rows[k]) <==> exists b :: b in Bursts(rows) && Contains(b, k)
    ensures forall b, c :: b in Bursts(rows) && c in Bursts(rows) && Contains(b, k) && Contains(c, k) ==> b == c
  {
    BurstsAreExact(rows);
    if IsOutput(rows[k]) {
      var i := StartOf(rows, k);
      var b := Burst(i, EndOf(rows, k + 1));
      assert IsBurst(rows, b) && Contains(b, k);
    }
    forall b, c | IsBurst(rows, b) && IsBurst(rows, c) && Contains(b, k) && Contains(c, k) ensures b == c {
      assert !JoinedAt(rows, b.first) && !JoinedAt(rows, c.first);
      BurstEndsAt(rows, b.first, b);
      BurstEndsAt(rows, b.first, c);
    }
    forall b | IsBurst(rows, b) && Contains(b, k) ensures IsOutput(rows[k]) {
      if k > b.first { assert JoinedAt(rows, k); }
    }
  }

  /**
   Two rows of output are in one event exactly if every row after the first of them, up to the second,
   extends the event before it.
   */
  lemma InOneBurstIff(rows: seq<Row>, k: nat, l: nat)
    requires k < l < |rows| && IsOutput(rows[k])
    ensures (exists b :: b in Bursts(rows) && Contains(b, k) && Contains(b, l))
            <==> forall m :: k < m <= l ==> JoinedAt(rows, m)
  {
    BurstsAreExact(rows);
    EachOutputIsInOneBurst(rows, k);
    if forall m :: k < m <= l ==> JoinedAt(rows, m) {
      var b :| b in Bursts(rows) && Contains(b, k);
      assert !JoinedAt(rows, b.end);
    }
  }

  /** Neighbouring fragments of one response are in one event, however far apart in time. */
  lemma NeighbouringFragmentsMerge(rows: seq<Row>, k: nat)
    requires 0 < k < |rows| && IsOutput(rows[k - 1]) && IsOutput(rows[k])
    requires rows[k - 1].session == rows[k].session && rows[k - 1].request == rows[k].request != ""
    ensures exists b :: b in Bursts(rows) && Contains(b, k - 1) && Contains(b, k)
  {
    InOneBurstIff(rows, k - 1, k);
  }

  /** Fragments of one response with a row of another request between them, seconds apart, are not merged. */
  lemma SharedRequestSplits() returns (rows: seq<Row>)
    ensures |rows| == 3 && rows[0].request == rows[2].request == "a" && rows[0].session == rows[2].session
    ensures !exists b :: b in Bursts(rows) && Contains(b, 0) && Contains(b, 2)
  {
    var a := Row("s", "", "assistant", Some(0), Some(40), "m", Some(-1), "a");
    rows := [a, a.(time := Some(BURST_GAP), request := "b"), a.(time := Some(2 * BURST_GAP))];
    InOneBurstIff(rows, 0, 2);
    assert !JoinedAt(rows, 1);
  }

  // ----- Tokens -----

  lemma StretchIsTimed(rows: seq<Row>, i: nat, j: nat)
    requires i < j <= |rows| && IsOutput(rows[i]) && forall k :: i < k < j ==> JoinedAt(rows, k)
    ensures forall k :: i <= k < j ==> IsOutput(rows[k])
    ensures forall r :: r in rows[i..j] ==> r.time.Some?
    ensures rows[j - 1].session == rows[i].session && IsOutput(rows[j - 1])
  {
    forall k | i <= k < j ensures IsOutput(rows[k]) {
      if i < k { assert JoinedAt(rows, k); }
    }
    SessionStays(rows, i, j);
  }

  lemma {:induction false} SessionStays(rows: seq<Row>, i: nat, j: nat)
    requires i < j <= |rows| && forall k :: i < k < j ==> JoinedAt(rows, k)
    ensures rows[j - 1].session == rows[i].session
  {
    if i + 1 < j {
      assert JoinedAt(rows, j - 1);
      SessionStays(rows, i, j - 1);
    }
  }

  function TokensOf(r: Row): int {
    if r.tokens.Some? then r.tokens.value else 0
  }

  function Tokens(rows: seq<Row>): int {
    if rows == [] then 0 else Tokens(rows[..|rows| - 1]) + TokensOf(rows[|rows| - 1])
  }

  /** The tokens of all rows of output. */
  function OutputTokens(rows: seq<Row>, i: nat): int
    requires i <= |rows|
    decreases |rows| - i
  {
    if i == |rows| then 0 else (if IsOutput(rows[i]) then TokensOf(rows[i]) else 0) + OutputTokens(rows, i + 1)
  }

  function MergedTokens(rows: seq<Row>, bs: seq<Burst>): int
    requires forall b :: b in bs ==> b.first <= b.end <= |rows|
  {
    if bs == [] then 0 else Tokens(rows[bs[0].first..bs[0].end]) + MergedTokens(rows, bs[1..])
  }

  lemma {:induction false} StretchTokens(rows: seq<Row>, i: nat, j: nat)
    requires i <= j <= |rows| && forall k :: i <= k < j ==> IsOutput(rows[k])
    ensures OutputTokens(rows, i) == Tokens(rows[i..j]) + OutputTokens(rows, j)
  {
    if i < j {
      StretchTokens(rows, i, j - 1);
      assert rows[i..j][..j - 1 - i] == rows[i..j - 1];
    }
  }

  lemma {:induction false} TokensFromConserved(rows: seq<Row>, i: nat)
    requires i <= |rows|
    ensures forall b :: b in BurstsFrom(rows, i) ==> b.first <= b.end <= |rows|
    ensures MergedTokens(rows, BurstsFrom(rows, i)) == OutputTokens(rows, i)
    decreases |rows| - i
  {
    if i < |rows| {
      if IsOutput(rows[i]) {
        var e := EndOf(rows, i + 1);
        TokensFromConserved(rows, e);
        StretchIsTimed(rows, i, e);
        StretchTokens(rows, i, e);
        assert BurstsFrom(rows, i)[1..] == BurstsFrom(rows, e);
      } else {
        TokensFromConserved(rows, i + 1);
      }
    }
  }

  /** Merging loses no token and counts none twice. */
  lemma TokensAreConserved(rows: seq<Row>)
    ensures forall b :: b in Bursts(rows) ==> b.first <= b.end <= |rows|
    ensures MergedTokens(rows, Bursts(rows)) == OutputTokens(rows, 0)
  {
    TokensFromConserved(rows, 0);
  }

  // ----- The samples -----

  function ModelOf(burst: seq<Row>): string
    requires burst != []
  {
    var last := burst[|burst| - 1].model;
    if |burst| == 1 || last != "" then last else ModelOf(burst[..|burst| - 1])
  }

  function LatestOf(burst: seq<Row>): int
    requires burst != [] && forall r :: r in burst ==> r.time.Some?
  {
    var last := burst[|burst| - 1].time.value;
    if |burst| == 1 then last else
    var before := LatestOf(burst[..|burst| - 1]);
    if last > before then last else before
  }

  lemma {:induction false} LatestIsMaximal(burst: seq<Row>)
    requires burst != [] && forall r :: r in burst ==> r.time.Some?
    ensures forall r :: r in burst ==> r.time.value <= LatestOf(burst)
    ensures exists r :: r in burst && r.time.value == LatestOf(burst)
  {
    if |burst| > 1 {
      var front, last := burst[..|burst| - 1], burst[|burst| - 1];
      assert burst == front + [last] && last in burst;
      LatestIsMaximal(front);
    } else {
      assert burst == [burst[0]] && burst[0] in burst;
    }
  }

  /** At most one sample: the window runs from the message before the event to its latest row. */
  function SampleOf(burst: seq<Row>): seq<Sample>
    requires burst != [] && forall r :: r in burst ==> r.time.Some?
  {
    var first := burst[0];
    if first.previous.None? || Tokens(burst) < MIN_TOKENS then [] else
    var window := LatestOf(burst) - first.previous.value;
    if 0 < window <= MAX_WINDOW
    then [Sample(first.session, first.agent, ModelOf(burst), Tokens(burst), window, LatestOf(burst))]
    else []
  }

  function SamplesFrom(rows: seq<Row>, i: nat): seq<Sample>
    decreases |rows| - i
  {
    if i >= |rows| then []
    else if !IsOutput(rows[i]) then SamplesFrom(rows, i + 1)
    else
      var e := EndOf(rows, i + 1);
      StretchIsTimed(rows, i, e);
      SampleOf(rows[i..e]) + SamplesFrom(rows, e)
  }

  /** The samples of the events, in order. */
  function Samples(rows: seq<Row>): seq<Sample> {
    SamplesFrom(rows, 0)
  }

  /** The sample is that of an event. */
  ghost predicate IsSampleOf(rows: seq<Row>, b: Burst, x: Sample) {
    && IsBurst(rows, b) && (forall r :: r in rows[b.first..b.end] ==> r.time.Some?)
    && SampleOf(rows[b.first..b.end]) == [x]
  }

  lemma {:induction false} SamplesFromAreExact(rows: seq<Row>, i: nat)
    requires i <= |rows| && !JoinedAt(rows, i)
    ensures forall x :: x in SamplesFrom(rows, i) <==> exists b: Burst :: b.first >= i && IsSampleOf(rows, b, x)
    decreases |rows| - i
  {
    if i < |rows| {
      if !IsOutput(rows[i]) {
        SamplesFromAreExact(rows, i + 1);
      } else {
        var e := EndOf(rows, i + 1);
        StretchIsTimed(rows, i, e);
        SamplesFromAreExact(rows, e);
        BurstsFromAreExact(rows, i);
        BurstsFromAreExact(rows, e);
        assert IsBurst(rows, Burst(i, e));
        forall b: Burst | b.first >= i && IsBurst(rows, b) ensures b == Burst(i, e) || b.first >= e {
          assert b in BurstsFrom(rows, i);
        }
        forall x ensures x in SamplesFrom(rows, i) <==> exists b: Burst :: b.first >= i && IsSampleOf(rows, b, x) {
          SamplesAt(rows, i, e, x);
        }
      }
    }
  }

  lemma SamplesAt(rows: seq<Row>, i: nat, e: nat, x: Sample)
    requires i < e <= |rows| && IsOutput(rows[i]) && e == EndOf(rows, i + 1) && IsBurst(rows, Burst(i, e))
    requires forall r :: r in rows[i..e] ==> r.time.Some?
    requires forall b: Burst :: b.first >= i && IsBurst(rows, b) ==> b == Burst(i, e) || b.first >= e
    requires x in SamplesFrom(rows, e) <==> exists b: Burst :: b.first >= e && IsSampleOf(rows, b, x)
    ensures x in SamplesFrom(rows, i) <==> exists b: Burst :: b.first >= i && IsSampleOf(rows, b, x)
  {
    var own := SampleOf(rows[i..e]);
    assert x in own <==> IsSampleOf(rows, Burst(i, e), x);
    if b: Burst :| b.first >= i && IsSampleOf(rows, b, x) && b != Burst(i, e) { assert b.first >= e; }
  }

  /** The samples are exactly those of the events that qualify. */
  lemma SamplesAreExact(rows: seq<Row>)
    ensures forall x :: x in Samples(rows) <==> exists b :: IsSampleOf(rows, b, x)
    ensures forall x :: x in Samples(rows) ==> x.tokens >= MIN_TOKENS && 0 < x.window <= MAX_WINDOW
  {
    SamplesFromAreExact(rows, 0);
  }

  /** What one more row adds to an event. */
  lemma MergeOneMore(rows: seq<Row>, i: nat, j: nat)
    requires i < j < |rows| && JoinedAt(rows, j) && forall r :: r in rows[i..j] ==> r.time.Some?
    ensures forall r :: r in rows[i..j + 1] ==> r.time.Some?
    ensures Tokens(rows[i..j + 1]) == Tokens(rows[i..j]) + TokensOf(rows[j])
    ensures ModelOf(rows[i..j + 1]) == if rows[j].model != "" then rows[j].model else ModelOf(rows[i..j])
    ensures LatestOf(rows[i..j + 1])
            == if rows[j].time.value > LatestOf(rows[i..j]) then rows[j].time.value else LatestOf(rows[i..j])
  {
    assert rows[i..j + 1] == rows[i..j] + [rows[j]];
    assert rows[i..j + 1][..j - i] == rows[i..j];
  }

  method SpeedEventsFromMessages(rows: seq<Row>) returns (samples: seq<Sample>)
    ensures samples == Samples(rows)
  {
    samples := [];
    var i := 0;
    while i < |rows|
      invariant 0 <= i <= |rows|
      invariant samples + SamplesFrom(rows, i) == Samples(rows)
    {
      var first := rows[i];
      if first.role != "assistant" || first.time.None? {
        i := i + 1;
        continue;
      }
      var sample, j := MergeBurst(rows, i);
      assert samples + sample + SamplesFrom(rows, j) == samples + (sample + SamplesFrom(rows, j));
      samples := samples + sample;
      i := j;
    }
  }

  /** Merges the rows of the event that starts at row `i`. */
  method MergeRows(rows: seq<Row>, i: nat) returns (j: nat, tokens: int, model: string, end: int)
    requires i < |rows| && IsOutput(rows[i])
    ensures j == EndOf(rows, i + 1) && forall r :: r in rows[i..j] ==> r.time.Some?
    ensures tokens == Tokens(rows[i..j]) && model == ModelOf(rows[i..j]) && end == LatestOf(rows[i..j])
  {
    var first := rows[i];
    var lastTime, lastRequest := first.time.value, first.request;
    tokens, model, end := TokensOf(first), first.model, first.time.value;
    j := i + 1;
    assert rows[i..j] == [first];
    while j < |rows|
      invariant i < j <= |rows| && EndOf(rows, j) == EndOf(rows, i + 1)
      invariant forall r :: r in rows[i..j] ==> r.time.Some?
      invariant IsOutput(rows[j - 1]) && rows[j - 1].session == first.session
      invariant lastTime == rows[j - 1].time.value && lastRequest == rows[j - 1].request
      invariant tokens == Tokens(rows[i..j]) && model == ModelOf(rows[i..j]) && end == LatestOf(rows[i..j])
    {
      var next := rows[j];
      if next.session != first.session || next.role != "assistant" || next.time.None? { break; }
      if next.time.value - lastTime >= BURST_GAP && !(next.request != "" && next.request == lastRequest) { break; }
      MergeOneMore(rows, i, j);
      tokens := tokens + TokensOf(next);
      if next.model != "" { model := next.model; }
      if next.time.value > end { end := next.time.value; }
      lastTime, lastRequest := next.time.value, next.request;
      j := j + 1;
    }
  }

  /** Merges the event that starts at row `i`, and samples it if it qualifies. */
  method MergeBurst(rows: seq<Row>, i: nat) returns (sample: seq<Sample>, j: nat)
    requires i < |rows| && IsOutput(rows[i])
    ensures j == EndOf(rows, i + 1) && forall r :: r in rows[i..j] ==> r.time.Some?
    ensures sample == SampleOf(rows[i..j])
  {
    var tokens, model, end;
    j, tokens, model, end := MergeRows(rows, i);
    var first := rows[i];
    sample := [];
    if first.previous.Some? && tokens >= MIN_TOKENS {
      var window := end - first.previous.value;
      if 0 < window <= MAX_WINDOW { sample := [Sample(first.session, first.agent, model, tokens, window, end)]; }
    }
  }
}
