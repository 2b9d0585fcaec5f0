/** The fold of session signals into groups by agent, by project and by date. */
module SignalAnalytics {
  import opened Sequences
  import opened Grouping

  datatype SignalRow = SignalRow(
    agent: string, project: string, date: string, healthScore: Option<nat>, healthGrade: Option<string>,
    outcome: string, outcomeConfidence: string,
    failures: nat, retries: nat, editChurn: nat, compactions: nat, midTaskCompactions: nat,
      contextPressure: Option<real>)

  datatype Group = Group(count: nat, scoreSum: nat, scoreCount: nat, completed: nat, failures: nat)

  const EMPTY := Group(0, 0, 0, 0, 0)

  function AgentOf(r: SignalRow): string { r.agent }
  function ProjectOf(r: SignalRow): string { r.project }
  function DateOf(r: SignalRow): string { r.date }

  function One(r: SignalRow): nat { 1 }
  function Score(r: SignalRow): nat { if r.healthScore.Some? then r.healthScore.value else 0 }
  function Scored(r: SignalRow): nat { if r.healthScore.Some? then 1 else 0 }
  function Completed(r: SignalRow): nat { if r.outcome == "completed" then 1 else 0 }
  function Failures(r: SignalRow): nat { r.failures }
  function Errored(r: SignalRow): nat { if r.outcome == "errored" then 1 else 0 }
  function Abandoned(r: SignalRow): nat { if r.outcome == "abandoned" then 1 else 0 }

  function Retries(r: SignalRow): nat { r.retries }
  function EditChurn(r: SignalRow): nat { r.editChurn }
  function Failing(r: SignalRow): nat { if r.failures > 0 then 1 else 0 }
  function Compactions(r: SignalRow): nat { r.compactions }
  function Compacted(r: SignalRow): nat { if r.compactions > 0 then 1 else 0 }
  function MidTaskCompactions(r: SignalRow): nat { r.midTaskCompactions }
  function MidTaskCompacted(r: SignalRow): nat { if r.midTaskCompactions > 0 then 1 else 0 }
  function Measured(r: SignalRow): nat { if r.contextPressure.Some? then 1 else 0 }
  function Pressed(r: SignalRow): nat { if r.contextPressure.Some? && r.contextPressure.value >= 0.8 then 1 else 0 }

  // The value a row counts for in a distribution, if it has one.
  function Named(value: string): Option<string> { if value == "" then None else Some(value) }
  function GradeOf(r: SignalRow): Option<string> { if r.healthGrade.Some? then Named(r.healthGrade.value) else None }
  function OutcomeOf(r: SignalRow): Option<string> { Named(r.outcome) }
  function ConfidenceOf(r: SignalRow): Option<string> { Named(r.outcomeConfidence) }

  /** The figures of one group, each a sum over its rows. */
  function GroupAt(rows: seq<SignalRow>, key: SignalRow -> string, k: string): Group {
    Group(SumAt(rows, key, k, One), SumAt(rows, key, k, Score), SumAt(rows, key, k, Scored),
          SumAt(rows, key, k, Completed), SumAt(rows, key, k, Failures))
  }

  /** The map holds the figures of every group that has a row, and no other. */
  ghost predicate Holds(groups: map<string, Group>, rows: seq<SignalRow>, key: SignalRow -> string) {
    && (forall k :: k in groups <==> exists r :: r in rows && key(r) == k)
    && (forall k :: k in groups ==> groups[k] == GroupAt(rows, key, k))
  }

  lemma {:induction false} AbsentIsEmpty(rows: seq<SignalRow>, key: SignalRow -> string, k: string)
    requires forall r :: r in rows ==> key(r) != k
    ensures GroupAt(rows, key, k) == EMPTY
  {
    if rows != [] {
      assert forall r :: r in rows[..|rows| - 1] ==> r in rows;
      AbsentIsEmpty(rows[..|rows| - 1], key, k);
      assert rows[|rows| - 1] in rows;
    }
  }

  method Accumulate(before: Group, r: SignalRow) returns (g: Group)
    ensures g == Plus(before, r)
  {
    g := before.(count := before.count + 1, failures := before.failures + r.failures);
    if r.healthScore.Some? { g := g.(scoreSum := g.scoreSum + r.healthScore.value, scoreCount := g.scoreCount + 1); }
    if r.outcome == "completed" { g := g.(completed := g.completed + 1); }
  }

  method Tally(groups: map<string, Group>, ghost rows: seq<SignalRow>, key: SignalRow -> string, r: SignalRow)
    returns (more: map<string, Group>)
    requires Holds(groups, rows, key)
    ensures Holds(more, rows + [r], key)
  {
    var k := key(r);
    var g := EMPTY;
    if k in groups { g := groups[k]; } else { AbsentIsEmpty(rows, key, k); }
    g := Accumulate(g, r);
    more := groups[k := g];
    forall j
      ensures GroupAt(rows + [r], key, j) == if j == k then Plus(GroupAt(rows, key, j), r) else GroupAt(rows, key, j) {
      OneMoreRow(rows, key, r, j);
    }
    assert r in rows + [r];
  }

  function Plus(g: Group, r: SignalRow): Group {
    Group(g.count + 1, g.scoreSum + Score(r), g.scoreCount + Scored(r), g.completed + Completed(r),
      g.failures + r.failures)
  }

  lemma OneMoreRow(rows: seq<SignalRow>, key: SignalRow -> string, r: SignalRow, j: string)
    ensures GroupAt(rows + [r], key, j) == if key(r) == j then Plus(GroupAt(rows, key, j), r) else GroupAt(rows, key, j)
  {
    assert (rows + [r])[..|rows|] == rows;
  }

  // ----- Distributions and trend outcomes -----

  /** The map holds, for every value that a row has, how many rows have it. */
  ghost predicate Counts(dist: map<string, nat>, rows: seq<SignalRow>, value: SignalRow -> Option<string>) {
    && (forall v :: v in dist <==> exists r :: r in rows && value(r) == Some(v))
    && (forall v :: v in dist ==> dist[v] == SumAt(rows, value, Some(v), One))
  }

  lemma {:induction false} AbsentIsZero(rows: seq<SignalRow>, value: SignalRow -> Option<string>, v: string)
    requires forall r :: r in rows ==> value(r) != Some(v)
    ensures SumAt(rows, value, Some(v), One) == 0
  {
    if rows != [] {
      assert forall r :: r in rows[..|rows| - 1] ==> r in rows;
      AbsentIsZero(rows[..|rows| - 1], value, v);
      assert rows[|rows| - 1] in rows;
    }
  }

  method CountValue(dist: map<string, nat>, ghost rows: seq<SignalRow>, value: SignalRow -> Option<string>,
          r: SignalRow)
    returns (more: map<string, nat>)
    requires Counts(dist, rows, value)
    ensures Counts(more, rows + [r], value)
  {
    forall v
      ensures SumAt(rows + [r], value, Some(v), One)
              == SumAt(rows, value, Some(v), One) + if value(r) == Some(v) then 1 else 0
    {
      assert (rows + [r])[..|rows|] == rows;
    }
    assert r in rows + [r];
    var own := value(r);
    if own.None? { return dist; }
    var before := 0;
    if own.value in dist { before := dist[own.value]; } else { AbsentIsZero(rows, value, own.value); }
    more := dist[own.value := before + 1];
  }

  datatype Outcomes = Outcomes(errored: nat, abandoned: nat)

  /** The errored and abandoned sessions of every date with a row. */
  ghost predicate HoldsOutcomes(extras: map<string, Outcomes>, rows: seq<SignalRow>) {
    && (forall d :: d in extras <==> exists r :: r in rows && r.date == d)
    && (forall d :: d in extras ==>
       extras[d] == Outcomes(SumAt(rows, DateOf, d, Errored), SumAt(rows, DateOf, d, Abandoned)))
  }

  lemma {:induction false} AbsentHasNoOutcomes(rows: seq<SignalRow>, d: string)
    requires forall r :: r in rows ==> r.date != d
    ensures SumAt(rows, DateOf, d, Errored) == SumAt(rows, DateOf, d, Abandoned) == 0
  {
    if rows != [] {
      assert forall r :: r in rows[..|rows| - 1] ==> r in rows;
      AbsentHasNoOutcomes(rows[..|rows| - 1], d);
      assert rows[|rows| - 1] in rows;
    }
  }

  method NoteOutcome(extras: map<string, Outcomes>, ghost rows: seq<SignalRow>, r: SignalRow)
    returns (more: map<string, Outcomes>)
    requires HoldsOutcomes(extras, rows)
    ensures HoldsOutcomes(more, rows + [r])
  {
    assert (rows + [r])[..|rows|] == rows;
    assert r in rows + [r];
    var e := Outcomes(0, 0);
    if r.date in extras { e := extras[r.date]; } else { AbsentHasNoOutcomes(rows, r.date); }
    if r.outcome == "errored" { e := e.(errored := e.errored + 1); }
    if r.outcome == "abandoned" { e := e.(abandoned := e.abandoned + 1); }
    more := extras[r.date := e];
  }

  // ----- Tool and context health -----

  lemma {:induction false} CountIsLength(rows: seq<SignalRow>)
    ensures Sum(rows, One) == |rows|
  {
    if rows != [] { CountIsLength(rows[..|rows| - 1]); }
  }

  datatype Health = Health(
    failures: nat, retries: nat, editChurn: nat, failing: nat, compactions: nat, compacted: nat,
    midTaskCompactions: nat, midTaskCompacted: nat, measured: nat, pressed: nat)

  /** The health figures, each a sum over the rows, from which the rates and averages are rounded. */
  function HealthOf(rows: seq<SignalRow>): Health {
    Health(Sum(rows, Failures), Sum(rows, Retries), Sum(rows, EditChurn), Sum(rows, Failing), Sum(rows, Compactions),
      Sum(rows, Compacted),
           Sum(rows, MidTaskCompactions), Sum(rows, MidTaskCompacted), Sum(rows, Measured), Sum(rows, Pressed))
  }

  method CheckHealth(h: Health, ghost rows: seq<SignalRow>, r: SignalRow) returns (more: Health)
    requires h == HealthOf(rows)
    ensures more == HealthOf(rows + [r])
  {
    more := h.(failures := h.failures + r.failures, retries := h.retries + r.retries,
      editChurn := h.editChurn + r.editChurn);
    if r.failures > 0 { more := more.(failing := more.failing + 1); }
    if r.compactions > 0 { more := more.(compacted := more.compacted + 1); }
    more := more.(compactions := more.compactions + r.compactions);
    more := more.(midTaskCompactions := more.midTaskCompactions + r.midTaskCompactions);
    if r.midTaskCompactions > 0 { more := more.(midTaskCompacted := more.midTaskCompacted + 1); }
    if r.contextPressure.Some? {
      more := more.(measured := more.measured + 1);
      if r.contextPressure.value >= 0.8 { more := more.(pressed := more.pressed + 1); }
    }
    assert (rows + [r])[..|rows|] == rows;
  }

  lemma {:induction false} SumBelow(rows: seq<SignalRow>, less: SignalRow -> nat, more: SignalRow -> nat)
    requires forall r :: less(r) <= more(r)
    ensures Sum(rows, less) <= Sum(rows, more)
  {
    if rows != [] { SumBelow(rows[..|rows| - 1], less, more); }
  }

  /** No rate is above one: the sessions of each kind are some of those they are compared with. */
  lemma HealthIsBounded(rows: seq<SignalRow>)
    ensures var h := HealthOf(rows);
            && h.failing <= |rows| && h.failing <= h.failures && h.compacted <= |rows| && h.compacted <= h.compactions
            && h.midTaskCompacted <= h.midTaskCompactions && h.pressed <= h.measured <= |rows|
  {
    CountIsLength(rows);
    SumBelow(rows, Failing, One);
    SumBelow(rows, Failing, Failures);
    SumBelow(rows, Compacted, One);
    SumBelow(rows, Compacted, Compactions);
    SumBelow(rows, MidTaskCompacted, MidTaskCompactions);
    SumBelow(rows, Pressed, Measured);
    SumBelow(rows, Measured, One);
  }

  // ----- The aggregation -----

  datatype Signals = Signals(
    byAgent: map<string, Group>, byProject: map<string, Group>, byDate: map<string, Group>,
      outcomesByDate: map<string, Outcomes>,
    grades: map<string, nat>, outcomes: map<string, nat>, confidences: map<string, nat>, health: Health,
    scoreSum: nat, scored: nat, unscored: nat)

  ghost predicate HoldsGroups(s: Signals, rows: seq<SignalRow>) {
    && Holds(s.byAgent, rows, AgentOf) && Holds(s.byProject, rows, ProjectOf) && Holds(s.byDate, rows, DateOf)
    && HoldsOutcomes(s.outcomesByDate, rows)
  }

  ghost predicate HoldsCounts(s: Signals, rows: seq<SignalRow>) {
    && Counts(s.grades, rows, GradeOf) && Counts(s.outcomes, rows, OutcomeOf)
    && Counts(s.confidences, rows, ConfidenceOf)
    && s.health == HealthOf(rows) && s.scoreSum == Sum(rows, Score)
    && s.scored == Sum(rows, Scored) && s.scored + s.unscored == |rows|
  }

  /** What an aggregation of the rows holds. */
  ghost predicate Aggregates(s: Signals, rows: seq<SignalRow>) {
    HoldsGroups(s, rows) && HoldsCounts(s, rows)
  }

  method AddSignal(s: Signals, ghost rows: seq<SignalRow>, r: SignalRow) returns (more: Signals)
    requires Aggregates(s, rows)
    ensures Aggregates(more, rows + [r])
  {
    var grades := CountValue(s.grades, rows, GradeOf, r);
    var outcomes := CountValue(s.outcomes, rows, OutcomeOf, r);
    var confidences := CountValue(s.confidences, rows, ConfidenceOf, r);
    var health := CheckHealth(s.health, rows, r);
    var byAgent := Tally(s.byAgent, rows, AgentOf, r);
    var byProject := Tally(s.byProject, rows, ProjectOf, r);
    var byDate := Tally(s.byDate, rows, DateOf, r);
    var outcomesByDate := NoteOutcome(s.outcomesByDate, rows, r);
    assert (rows + [r])[..|rows|] == rows;
    var scored, unscored, scoreSum := s.scored, s.unscored, s.scoreSum;
    if r.healthScore.Some? {
      scored, scoreSum := scored + 1, scoreSum + r.healthScore.value;
    } else {
      unscored := unscored + 1;
    }
    more := Signals(byAgent, byProject, byDate, outcomesByDate, grades, outcomes, confidences, health, scoreSum,
      scored, unscored);
  }

  method AggregateSignals(rows: seq<SignalRow>) returns (s: Signals)
    ensures Aggregates(s, rows)
  {
    s := Signals(map[], map[], map[], map[], map[], map[], map[], Health(0, 0, 0, 0, 0, 0, 0, 0, 0, 0), 0, 0, 0);
    for i := 0 to |rows|
      invariant Aggregates(s, rows[..i])
    {
      assert rows[..i + 1] == rows[..i] + [rows[i]];
      s := AddSignal(s, rows[..i], rows[i]);
    }
    assert rows[..|rows|] == rows;
  }

  /** How many rows count for a distribution. */
  function CountValued(rows: seq<SignalRow>, value: SignalRow -> Option<string>): nat {
    if rows == [] then 0 else CountValued(rows[..|rows| - 1], value) + if value(rows[|rows| - 1]).Some? then 1 else 0
  }

  function TotalOfValues(dist: map<string, nat>, values: seq<string>): nat
    requires forall v :: v in values ==> v in dist
  {
    if values == [] then 0 else TotalOfValues(dist, values[..|values| - 1]) + dist[values[|values| - 1]]
  }

  function Wrapped(values: seq<string>): (keys: seq<Option<string>>)
    ensures |keys| == |values| && forall k :: 0 <= k < |values| ==> keys[k] == Some(values[k])
  {
    seq(|values|, k requires 0 <= k < |values| => Some(values[k]))
  }

  lemma {:induction false} TotalIsOverValues(dist: map<string, nat>, values: seq<string>, rows: seq<SignalRow>,
          value: SignalRow -> Option<string>)
    requires Counts(dist, rows, value) && forall v :: v in values ==> v in dist
    ensures TotalOfValues(dist, values) == SumOver(Wrapped(values), rows, value, One)
  {
    if values != [] {
      TotalIsOverValues(dist, values[..|values| - 1], rows, value);
      assert Wrapped(values)[..|values| - 1] == Wrapped(values[..|values| - 1]);
    }
  }

  lemma {:induction false} ValuedRowsAddUp(keys: seq<Option<string>>, rows: seq<SignalRow>,
          value: SignalRow -> Option<string>)
    requires Distinct(keys) && forall r :: r in rows ==> (value(r) in keys <==> value(r).Some?)
    ensures SumOver(keys, rows, value, One) == CountValued(rows, value)
  {
    if rows == [] {
      NothingToSum(keys, value, One);
    } else {
      assert rows == rows[..|rows| - 1] + [rows[|rows| - 1]];
      ValuedRowsAddUp(keys, rows[..|rows| - 1], value);
      SumOverStep(keys, rows, value, One);
      assert rows[|rows| - 1] in rows;
    }
  }

  /** A distribution, in whatever order it is visited, adds up to the rows that have a value. */
  lemma DistributionsConserve(dist: map<string, nat>, values: seq<string>, rows: seq<SignalRow>,
          value: SignalRow -> Option<string>)
    requires Counts(dist, rows, value) && Distinct(values) && forall v :: v in values <==> v in dist
    ensures TotalOfValues(dist, values) == CountValued(rows, value)
  {
    forall r | r in rows ensures value(r) in Wrapped(values) <==> value(r).Some? {
      if value(r).Some? {
        assert value(r).value in values;
        var k :| 0 <= k < |values| && values[k] == value(r).value;
        assert Wrapped(values)[k] == value(r);
      }
    }
    TotalIsOverValues(dist, values, rows, value);
    ValuedRowsAddUp(Wrapped(values), rows, value);
  }

  function TotalOf(groups: map<string, Group>, keys: seq<string>): Group
    requires forall k :: k in keys ==> k in groups
  {
    if keys == [] then EMPTY else
    var front, g := TotalOf(groups, keys[..|keys| - 1]), groups[keys[|keys| - 1]];
    Group(front.count + g.count, front.scoreSum + g.scoreSum, front.scoreCount + g.scoreCount,
          front.completed + g.completed, front.failures + g.failures)
  }

  lemma {:induction false} TotalIsSumOver(groups: map<string, Group>, keys: seq<string>, rows: seq<SignalRow>,
          key: SignalRow -> string)
    requires Holds(groups, rows, key) && forall k :: k in keys ==> k in groups
    ensures TotalOf(groups, keys)
            == Group(SumOver(keys, rows, key, One), SumOver(keys, rows, key, Score), SumOver(keys, rows, key, Scored),
                                           SumOver(keys, rows, key, Completed), SumOver(keys, rows, key, Failures))
  {
    if keys != [] { TotalIsSumOver(groups, keys[..|keys| - 1], rows, key); }
  }

  /**
   In whatever order the groups are visited, every figure adds up to that of all rows; the counts add up
   to the rows.
   */
  lemma GroupsConserve(groups: map<string, Group>, keys: seq<string>, rows: seq<SignalRow>, key: SignalRow -> string)
    requires Holds(groups, rows, key) && Distinct(keys) && forall k :: k in keys <==> k in groups
    ensures TotalOf(groups, keys)
            == Group(|rows|, Sum(rows, Score), Sum(rows, Scored), Sum(rows, Completed), Sum(rows, Failures))
  {
    assert forall r :: r in rows ==> key(r) in groups;
    TotalIsSumOver(groups, keys, rows, key);
    GroupsAddUp(keys, rows, key, One);
    GroupsAddUp(keys, rows, key, Score);
    GroupsAddUp(keys, rows, key, Scored);
    GroupsAddUp(keys, rows, key, Completed);
    GroupsAddUp(keys, rows, key, Failures);
    CountIsLength(rows);
  }

  /** The figures of a group do not depend on the order of the rows. */
  lemma GroupsIgnoreOrder(a: seq<SignalRow>, b: seq<SignalRow>, key: SignalRow -> string, k: string)
    requires multiset(a) == multiset(b)
    ensures GroupAt(a, key, k) == GroupAt(b, key, k)
  {
    SumAtPermutation(a, b, key, k, One);
    SumAtPermutation(a, b, key, k, Score);
    SumAtPermutation(a, b, key, k, Scored);
    SumAtPermutation(a, b, key, k, Completed);
    SumAtPermutation(a, b, key, k, Failures);
  }

  lemma SameMembers(a: seq<SignalRow>, b: seq<SignalRow>)
    requires multiset(a) == multiset(b)
    ensures forall r :: r in a <==> r in b
  {
    assert forall r :: r in a <==> r in multiset(a);
    assert forall r :: r in b <==> r in multiset(b);
  }

  lemma GroupMapsAgree(x: map<string, Group>, y: map<string, Group>, a: seq<SignalRow>, b: seq<SignalRow>,
          key: SignalRow -> string)
    requires multiset(a) == multiset(b) && Holds(x, a, key) && Holds(y, b, key)
    ensures x == y
  {
    SameMembers(a, b);
    forall k | k in x ensures k in y && x[k] == y[k] { GroupsIgnoreOrder(a, b, key, k); }
  }

  /** A distribution does not depend on the order of the rows. */
  lemma DistributionsIgnoreOrder(x: map<string, nat>, y: map<string, nat>, a: seq<SignalRow>, b: seq<SignalRow>,
                                 value: SignalRow -> Option<string>)
    requires multiset(a) == multiset(b) && Counts(x, a, value) && Counts(y, b, value)
    ensures x == y
  {
    SameMembers(a, b);
    forall v | v in x ensures v in y && x[v] == y[v] { SumAtPermutation(a, b, value, Some(v), One); }
  }

  lemma OutcomesIgnoreOrder(x: map<string, Outcomes>, y: map<string, Outcomes>, a: seq<SignalRow>, b: seq<SignalRow>)
    requires multiset(a) == multiset(b) && HoldsOutcomes(x, a) && HoldsOutcomes(y, b)
    ensures x == y
  {
    SameMembers(a, b);
    forall d | d in x ensures d in y && x[d] == y[d] {
      SumAtPermutation(a, b, DateOf, d, Errored);
      SumAtPermutation(a, b, DateOf, d, Abandoned);
    }
  }

  lemma HealthIgnoresOrder(a: seq<SignalRow>, b: seq<SignalRow>)
    requires multiset(a) == multiset(b)
    ensures HealthOf(a) == HealthOf(b)
  {
    SumPermutation(a, b, Failures);
    SumPermutation(a, b, Retries);
    SumPermutation(a, b, EditChurn);
    SumPermutation(a, b, Failing);
    SumPermutation(a, b, Compactions);
    SumPermutation(a, b, Compacted);
    SumPermutation(a, b, MidTaskCompactions);
    SumPermutation(a, b, MidTaskCompacted);
    SumPermutation(a, b, Measured);
    SumPermutation(a, b, Pressed);
  }

  /** The whole aggregation is determined by the rows, in whatever order they come. */
  lemma SignalsIgnoreOrder(s: Signals, t: Signals, a: seq<SignalRow>, b: seq<SignalRow>)
    requires multiset(a) == multiset(b) && Aggregates(s, a) && Aggregates(t, b)
    ensures s == t
  {
    GroupMapsAgree(s.byAgent, t.byAgent, a, b, AgentOf);
    GroupMapsAgree(s.byProject, t.byProject, a, b, ProjectOf);
    GroupMapsAgree(s.byDate, t.byDate, a, b, DateOf);
    OutcomesIgnoreOrder(s.outcomesByDate, t.outcomesByDate, a, b);
    DistributionsIgnoreOrder(s.grades, t.grades, a, b, GradeOf);
    DistributionsIgnoreOrder(s.outcomes, t.outcomes, a, b, OutcomeOf);
    DistributionsIgnoreOrder(s.confidences, t.confidences, a, b, ConfidenceOf);
    HealthIgnoresOrder(a, b);
    SumPermutation(a, b, Score);
    SumPermutation(a, b, Scored);
    assert |multiset(a)| == |a| && |multiset(b)| == |b|;
  }
}
