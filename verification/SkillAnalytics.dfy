/**
 The fold of skill rows: calls by skill, by agent and by trend bucket, and the latest use,
 whose timestamps need not parse.
 */
module SkillAnalytics {
  import opened Sequences
  import opened Strings
  import opened Grouping

  datatype SkillRow = SkillRow(
    sessionID: string, skillName: string, agent: string, project: string, date: string, lastUsedAt: string, count: int)

  /** `trim` trims white space, `parse` reads a timestamp, `bucket` gives the trend bucket of a date. */
  datatype Reading = Reading(trim: string -> string, parse: string -> Option<int>, bucket: string -> string) {
    function NameOf(r: SkillRow): string {
      trim(r.skillName)
    }

    /** Rows without a name or a positive count are ignored. */
    function Weight(r: SkillRow): nat {
      if NameOf(r) == "" || r.count <= 0 then 0 else r.count
    }

    function NameAndAgent(r: SkillRow): (string, string) {
      (NameOf(r), r.agent)
    }

    function NameAndProject(r: SkillRow): (string, string) {
      (NameOf(r), r.project)
    }

    function BucketAndName(r: SkillRow): (string, string) {
      (bucket(r.date), NameOf(r))
    }

    function AgentWeight(r: SkillRow): nat {
      if r.agent == "" then 0 else Weight(r)
    }

    function ProjectWeight(r: SkillRow): nat {
      if r.project == "" then 0 else Weight(r)
    }

    function DatedWeight(r: SkillRow): nat {
      if r.date == "" then 0 else Weight(r)
    }

    function TimeOf(s: string): Option<int> {
      if s == "" then None else parse(s)
    }

    /** Whether one timestamp is after another: by instant if both parse, parsed ones before others, others by text. */
    predicate After(candidate: string, current: string) {
      var x, y := TimeOf(candidate), TimeOf(current);
      if x.Some? && y.Some? then x.value > y.value
      else if x.Some? then true
      else if y.Some? then false
      else LexLe(current, candidate) && candidate != current
    }
  }

  // ----- The order of timestamps -----

  /** Being after is a strict weak order: irreflexive, transitive, and so is not being after. */
  lemma AfterIsStrictWeakOrder(c: Reading, x: string, y: string, z: string)
    ensures !c.After(x, x)
    ensures c.After(x, y) && c.After(y, z) ==> c.After(x, z)
    ensures !c.After(x, y) && !c.After(y, z) ==> !c.After(x, z)
  {
    LexTotal(x, y);
    LexTotal(y, z);
    LexTotal(x, z);
    if LexLe(z, y) && LexLe(y, x) { LexTransitive(z, y, x); }
    if LexLe(x, y) && LexLe(y, z) { LexTransitive(x, y, z); }
  }

  /** Two timestamps neither of which is after the other are the same text, or the same instant. */
  lemma TiesAreInstants(c: Reading, x: string, y: string)
    requires !c.After(x, y) && !c.After(y, x)
    ensures x == y || (c.TimeOf(x).Some? && c.TimeOf(x) == c.TimeOf(y))
  {
    LexTotal(x, y);
  }

  // ----- The fold -----

  datatype Usage = Usage(calls: nat, sessions: set<string>, agents: map<string, nat>, projects: map<string, nat>,
    lastUsedAt: string)

  datatype Folded = Folded(bySkill: map<string, Usage>, trend: map<string, map<string, nat>>, total: nat)

  const NO_USAGE := Usage(0, {}, map[], map[], "")

  function Get<K, V>(m: map<K, V>, k: K, default: V): V {
    if k in m then m[k] else default
  }

  function Bumped(m: map<string, nat>, k: string, n: nat): map<string, nat> {
    m[k := Get(m, k, 0) + n]
  }

  function Used(u: Usage, r: SkillRow, c: Reading): Usage {
    Usage(u.calls + c.Weight(r),
          if r.sessionID != "" then u.sessions + {r.sessionID} else u.sessions,
          if r.agent != "" then Bumped(u.agents, r.agent, c.Weight(r)) else u.agents,
          if r.project != "" then Bumped(u.projects, r.project, c.Weight(r)) else u.projects,
          if c.After(r.lastUsedAt, u.lastUsedAt) then r.lastUsedAt else u.lastUsedAt)
  }

  function Trended(trend: map<string, map<string, nat>>, r: SkillRow, c: Reading): map<string, map<string, nat>> {
    if r.date == "" then trend
    else trend[c.bucket(r.date) := Bumped(Get(trend, c.bucket(r.date), map[]), c.NameOf(r), c.Weight(r))]
  }

  function Added(f: Folded, r: SkillRow, c: Reading): Folded {
    if c.Weight(r) == 0 then f
    else Folded(f.bySkill[c.NameOf(r) := Used(Get(f.bySkill, c.NameOf(r), NO_USAGE), r, c)], Trended(f.trend, r, c),
      f.total + c.Weight(r))
  }

  function Fold(rows: seq<SkillRow>, c: Reading): Folded {
    if rows == [] then Folded(map[], map[], 0) else
    Added(Fold(rows[..|rows| - 1], c), rows[|rows| - 1], c)
  }

  method BuildSkills(rows: seq<SkillRow>, c: Reading) returns (f: Folded)
    ensures f == Fold(rows, c)
  {
    f := Folded(map[], map[], 0);
    for k := 0 to |rows|
      invariant f == Fold(rows[..k], c)
    {
      assert rows[..k + 1][..k] == rows[..k];
      f := AddRow(f, rows[k], c);
    }
    assert rows[..|rows|] == rows;
  }

  method UseSkill(before: Usage, r: SkillRow, c: Reading) returns (u: Usage)
    requires c.Weight(r) > 0
    ensures u == Used(before, r, c)
  {
    u := before.(calls := before.calls + r.count);
    if r.sessionID != "" { u := u.(sessions := u.sessions + {r.sessionID}); }
    if r.agent != "" { u := u.(agents := Bumped(u.agents, r.agent, r.count)); }
    if r.project != "" { u := u.(projects := Bumped(u.projects, r.project, r.count)); }
    if c.After(r.lastUsedAt, u.lastUsedAt) { u := u.(lastUsedAt := r.lastUsedAt); }
  }

  method AddRow(before: Folded, r: SkillRow, c: Reading) returns (f: Folded)
    ensures f == Added(before, r, c)
  {
    var name := c.trim(r.skillName);
    if name == "" || r.count <= 0 { return before; }
    var u := UseSkill(if name in before.bySkill then before.bySkill[name] else NO_USAGE, r, c);
    var trend := before.trend;
    if r.date != "" {
      var date := c.bucket(r.date);
      var entry := if date in trend then trend[date] else map[];
      trend := trend[date := Bumped(entry, name, r.count)];
    }
    f := Folded(before.bySkill[name := u], trend, before.total + r.count);
  }

  // ----- What the fold counts -----

  function UsageOf(f: Folded, name: string): Usage {
    Get(f.bySkill, name, NO_USAGE)
  }

  function TrendCalls(f: Folded, key: (string, string)): nat {
    Get(Get(f.trend, key.0, map[]), key.1, 0)
  }

  predicate UsesSkill(r: SkillRow, c: Reading, name: string) {
    c.NameOf(r) == name && c.Weight(r) > 0
  }

  lemma {:induction false} CallsAreSums(rows: seq<SkillRow>, c: Reading, name: string)
    ensures UsageOf(Fold(rows, c), name).calls == SumAt(rows, c.NameOf, name, c.Weight)
    ensures name in Fold(rows, c).bySkill <==> UsageOf(Fold(rows, c), name).calls > 0
    ensures Fold(rows, c).total == Sum(rows, c.Weight)
  {
    if rows != [] { CallsAreSums(rows[..|rows| - 1], c, name); }
  }

  lemma {:induction false} AgentCallsAreSums(rows: seq<SkillRow>, c: Reading, name: string, agent: string)
    ensures Get(UsageOf(Fold(rows, c), name).agents, agent, 0)
            == SumAt(rows, c.NameAndAgent, (name, agent), c.AgentWeight)
  {
    if rows != [] { AgentCallsAreSums(rows[..|rows| - 1], c, name, agent); }
  }

  lemma {:induction false} ProjectCallsAreSums(rows: seq<SkillRow>, c: Reading, name: string, project: string)
    ensures Get(UsageOf(Fold(rows, c), name).projects, project, 0)
            == SumAt(rows, c.NameAndProject, (name, project), c.ProjectWeight)
  {
    if rows != [] { ProjectCallsAreSums(rows[..|rows| - 1], c, name, project); }
  }

  /** The sessions of a skill are those of the rows that use it and name a session. */
  lemma {:induction false} SessionsAreExact(rows: seq<SkillRow>, c: Reading, name: string, session: string)
    ensures session in UsageOf(Fold(rows, c), name).sessions <==>
            session != "" && exists r :: r in rows && UsesSkill(r, c, name) && r.sessionID == session
  {
    if rows != [] {
      var front, last := rows[..|rows| - 1], rows[|rows| - 1];
      SessionsAreExact(front, c, name, session);
      assert rows == front + [last];
    }
  }

  lemma {:induction false} TrendCallsAreSums(rows: seq<SkillRow>, c: Reading, key: (string, string))
    ensures TrendCalls(Fold(rows, c), key) == SumAt(rows, c.BucketAndName, key, c.DatedWeight)
  {
    if rows != [] { TrendCallsAreSums(rows[..|rows| - 1], c, key); }
  }

  /**
   One row changes the usage of its own skill and its own trend entry, by its count, and nothing of
   another skill or bucket.
   */
  lemma RowTouchesOnlyItsOwn(f: Folded, r: SkillRow, c: Reading, name: string, key: (string, string))
    ensures var g := Added(f, r, c);
            && g.total == f.total + c.Weight(r)
            && (name != c.NameOf(r) ==> UsageOf(g, name) == UsageOf(f, name))
            && UsageOf(g, c.NameOf(r)).calls == UsageOf(f, c.NameOf(r)).calls + c.Weight(r)
            && TrendCalls(g, key) == TrendCalls(f, key) + (if key == c.BucketAndName(r) then c.DatedWeight(r) else 0)
            && (c.Weight(r) > 0 ==> !c.After(r.lastUsedAt, UsageOf(g, c.NameOf(r)).lastUsedAt))
            && !c.After(UsageOf(f, name).lastUsedAt, UsageOf(g, name).lastUsedAt)
  {
    var last := UsageOf(f, name).lastUsedAt;
    AfterIsStrictWeakOrder(c, last, r.lastUsedAt, last);
    AfterIsStrictWeakOrder(c, r.lastUsedAt, last, r.lastUsedAt);
  }

  function TotalCalls(f: Folded, names: seq<string>): nat {
    if names == [] then 0 else TotalCalls(f, names[..|names| - 1]) + UsageOf(f, names[|names| - 1]).calls
  }

  function TotalTrend(f: Folded, keys: seq<(string, string)>): nat {
    if keys == [] then 0 else TotalTrend(f, keys[..|keys| - 1]) + TrendCalls(f, keys[|keys| - 1])
  }

  lemma {:induction false} TotalCallsAreSums(rows: seq<SkillRow>, c: Reading, names: seq<string>)
    ensures TotalCalls(Fold(rows, c), names) == SumOver(names, rows, c.NameOf, c.Weight)
  {
    if names != [] {
      TotalCallsAreSums(rows, c, names[..|names| - 1]);
      CallsAreSums(rows, c, names[|names| - 1]);
    }
  }

  lemma {:induction false} TotalTrendAreSums(rows: seq<SkillRow>, c: Reading, keys: seq<(string, string)>)
    ensures TotalTrend(Fold(rows, c), keys) == SumOver(keys, rows, c.BucketAndName, c.DatedWeight)
  {
    if keys != [] {
      TotalTrendAreSums(rows, c, keys[..|keys| - 1]);
      TrendCallsAreSums(rows, c, keys[|keys| - 1]);
    }
  }

  lemma {:induction false} RowWeighsInGroup<K>(rows: seq<SkillRow>, r: SkillRow, key: SkillRow -> K,
          weight: SkillRow -> nat)
    requires r in rows
    ensures SumAt(rows, key, key(r), weight) >= weight(r)
  {
    assert rows == rows[..|rows| - 1] + [rows[|rows| - 1]];
    if r in rows[..|rows| - 1] { RowWeighsInGroup(rows[..|rows| - 1], r, key, weight); }
  }

  /** The calls of all skills, in whatever order the map is visited, add up to the total. */
  lemma SkillCallsAddUp(rows: seq<SkillRow>, c: Reading, names: seq<string>)
    requires Distinct(names) && forall name :: name in names <==> name in Fold(rows, c).bySkill
    ensures TotalCalls(Fold(rows, c), names) == Fold(rows, c).total
  {
    forall r | r in rows && c.Weight(r) > 0 ensures c.NameOf(r) in names {
      RowWeighsInGroup(rows, r, c.NameOf, c.Weight);
      CallsAreSums(rows, c, c.NameOf(r));
    }
    GroupsAddUp(names, rows, c.NameOf, c.Weight);
    TotalCallsAreSums(rows, c, names);
    CallsAreSums(rows, c, "");
  }

  /** The trend buckets add up to the calls of the rows that carry a date. */
  lemma TrendAddsUp(rows: seq<SkillRow>, c: Reading, keys: seq<(string, string)>)
    requires Distinct(keys)
    requires forall key :: TrendCalls(Fold(rows, c), key) > 0 ==> key in keys
    ensures TotalTrend(Fold(rows, c), keys) == Sum(rows, c.DatedWeight)
  {
    forall r | r in rows && c.DatedWeight(r) > 0 ensures c.BucketAndName(r) in keys {
      RowWeighsInGroup(rows, r, c.BucketAndName, c.DatedWeight);
      TrendCallsAreSums(rows, c, c.BucketAndName(r));
    }
    GroupsAddUp(keys, rows, c.BucketAndName, c.DatedWeight);
    TotalTrendAreSums(rows, c, keys);
  }

  lemma SameRows(a: seq<SkillRow>, b: seq<SkillRow>)
    requires multiset(a) == multiset(b)
    ensures forall r :: r in a <==> r in b
  {
    assert forall r :: r in a <==> r in multiset(a);
    assert forall r :: r in b <==> r in multiset(b);
  }

  /**
   Calls, per skill, agent, project and trend bucket, and the sessions of a skill do not depend on the
   order of the rows.
   */
  lemma CountsIgnoreOrder(a: seq<SkillRow>, b: seq<SkillRow>, c: Reading, name: string, group: string,
          key: (string, string))
    requires multiset(a) == multiset(b)
    ensures UsageOf(Fold(a, c), name).calls == UsageOf(Fold(b, c), name).calls
    ensures Get(UsageOf(Fold(a, c), name).agents, group, 0) == Get(UsageOf(Fold(b, c), name).agents, group, 0)
    ensures Get(UsageOf(Fold(a, c), name).projects, group, 0) == Get(UsageOf(Fold(b, c), name).projects, group, 0)
    ensures TrendCalls(Fold(a, c), key) == TrendCalls(Fold(b, c), key)
    ensures UsageOf(Fold(a, c), name).sessions == UsageOf(Fold(b, c), name).sessions
  {
    CallsIgnoreOrder(a, b, c, name, group, key);
    SameRows(a, b);
    forall session ensures session in UsageOf(Fold(a, c), name).sessions
      <==> session in UsageOf(Fold(b, c), name).sessions {
      SessionsAreExact(a, c, name, session);
      SessionsAreExact(b, c, name, session);
    }
  }

  lemma CallsIgnoreOrder(a: seq<SkillRow>, b: seq<SkillRow>, c: Reading, name: string, group: string,
          key: (string, string))
    requires multiset(a) == multiset(b)
    ensures UsageOf(Fold(a, c), name).calls == UsageOf(Fold(b, c), name).calls
    ensures Get(UsageOf(Fold(a, c), name).agents, group, 0) == Get(UsageOf(Fold(b, c), name).agents, group, 0)
    ensures Get(UsageOf(Fold(a, c), name).projects, group, 0) == Get(UsageOf(Fold(b, c), name).projects, group, 0)
    ensures TrendCalls(Fold(a, c), key) == TrendCalls(Fold(b, c), key)
  {
    CallsAreSums(a, c, name);
    CallsAreSums(b, c, name);
    AgentCallsAreSums(a, c, name, group);
    AgentCallsAreSums(b, c, name, group);
    ProjectCallsAreSums(a, c, name, group);
    ProjectCallsAreSums(b, c, name, group);
    TrendCallsAreSums(a, c, key);
    TrendCallsAreSums(b, c, key);
    SumAtPermutation(a, b, c.NameOf, name, c.Weight);
    SumAtPermutation(a, b, c.NameAndAgent, (name, group), c.AgentWeight);
    SumAtPermutation(a, b, c.NameAndProject, (name, group), c.ProjectWeight);
    SumAtPermutation(a, b, c.BucketAndName, key, c.DatedWeight);
  }

  // ----- The latest use -----

  function LastUsed(rows: seq<SkillRow>, c: Reading, name: string): string {
    UsageOf(Fold(rows, c), name).lastUsedAt
  }

  lemma LastUsedStep(rows: seq<SkillRow>, c: Reading, name: string)
    requires rows != []
    ensures var front, r := rows[..|rows| - 1], rows[|rows| - 1];
            LastUsed(rows, c, name)
            == if UsesSkill(r, c, name) && c.After(r.lastUsedAt, LastUsed(front, c, name)) then r.lastUsedAt
              else LastUsed(front, c, name)
  {
  }

  /** No use of a skill is after the one shown, which is that of a row, or empty. */
  lemma {:induction false} LastUsedIsMaximal(rows: seq<SkillRow>, c: Reading, name: string)
    ensures forall r :: r in rows && UsesSkill(r, c, name) ==> !c.After(r.lastUsedAt, LastUsed(rows, c, name))
    ensures LastUsed(rows, c, name) == "" || exists r ::
            r in rows && UsesSkill(r, c, name) && r.lastUsedAt == LastUsed(rows, c, name)
  {
    if rows != [] {
      var front, last := rows[..|rows| - 1], rows[|rows| - 1];
      LastUsedIsMaximal(front, c, name);
      LastUsedStep(rows, c, name);
      assert rows == front + [last];
      assert last in rows;
      forall r | r in rows && UsesSkill(r, c, name) ensures !c.After(r.lastUsedAt, LastUsed(rows, c, name)) {
        LastUsedBeats(c, r.lastUsedAt, LastUsed(front, c, name), last.lastUsedAt);
      }
    }
  }

  lemma LastUsedBeats(c: Reading, x: string, before: string, candidate: string)
    ensures !c.After(x, before) && c.After(candidate, before) ==> !c.After(x, candidate)
    ensures !c.After(candidate, candidate)
  {
    AfterIsStrictWeakOrder(c, x, candidate, before);
    AfterIsStrictWeakOrder(c, candidate, before, x);
  }

  lemma {:induction false} FirstStays(first: SkillRow, rows: seq<SkillRow>, c: Reading, name: string)
    requires UsesSkill(first, c, name) && c.After(first.lastUsedAt, "")
    requires forall r :: r in rows && UsesSkill(r, c, name) ==> !c.After(r.lastUsedAt, first.lastUsedAt)
    ensures LastUsed([first] + rows, c, name) == first.lastUsedAt
  {
    var all := [first] + rows;
    LastUsedStep(all, c, name);
    if rows == [] {
      assert all[..|all| - 1] == [];
    } else {
      assert all[..|all| - 1] == [first] + rows[..|rows| - 1];
      FirstStays(first, rows[..|rows| - 1], c, name);
      assert rows[|rows| - 1] in rows;
    }
  }

  /** A use of the skill that no other use is after. */
  ghost predicate IsLatest(rows: seq<SkillRow>, c: Reading, name: string, r: SkillRow) {
    r in rows && UsesSkill(r, c, name) && forall x :: x in rows && UsesSkill(x, c, name) ==>
      !c.After(x.lastUsedAt, r.lastUsedAt)
  }

  /** All latest uses of the skill are written the same. */
  ghost predicate LatestWrittenAlike(rows: seq<SkillRow>, c: Reading, name: string) {
    forall r, s :: IsLatest(rows, c, name, r) && IsLatest(rows, c, name, s) ==> r.lastUsedAt == s.lastUsedAt
  }

  /** The text shown is that of a latest use, and a use is latest exactly if the one shown is not after it. */
  lemma LatestAreTiedWithShown(rows: seq<SkillRow>, c: Reading, name: string)
    ensures forall r :: r in rows && UsesSkill(r, c, name) ==>
              (IsLatest(rows, c, name, r) <==> !c.After(LastUsed(rows, c, name), r.lastUsedAt))
    ensures (exists r :: r in rows && UsesSkill(r, c, name)) ==>
              exists r :: IsLatest(rows, c, name, r) && r.lastUsedAt == LastUsed(rows, c, name)
  {
    var shown := LastUsed(rows, c, name);
    LastUsedIsMaximal(rows, c, name);
    forall r | r in rows && UsesSkill(r, c, name) ensures IsLatest(rows, c, name, r)
      <==> !c.After(shown, r.lastUsedAt) {
      EmptyIsFirst(c, r.lastUsedAt);
      forall x | x in rows && UsesSkill(x, c, name) && !c.After(shown, r.lastUsedAt)
        ensures !c.After(x.lastUsedAt, r.lastUsedAt) {
        AfterIsStrictWeakOrder(c, x.lastUsedAt, shown, r.lastUsedAt);
      }
    }
    AfterIsStrictWeakOrder(c, shown, shown, shown);
    if r :| r in rows && UsesSkill(r, c, name) { EmptyIsFirst(c, r.lastUsedAt); }
  }

  /** The text shown is the same for every order of the rows exactly if all latest uses are written the same. */
  lemma LastUsedIgnoresOrderIff(rows: seq<SkillRow>, c: Reading, name: string)
    ensures (forall other :: multiset(other) == multiset(rows) ==> LastUsed(other, c, name) == LastUsed(rows, c, name))
            <==> LatestWrittenAlike(rows, c, name)
  {
    LatestAreTiedWithShown(rows, c, name);
    if r :| IsLatest(rows, c, name, r) && r.lastUsedAt != LastUsed(rows, c, name) {
      var other := RivalFirst(rows, c, name, r);
    } else {
      forall other | multiset(other) == multiset(rows) ensures LastUsed(other, c, name) == LastUsed(rows, c, name) {
        SameLast(rows, other, c, name);
      }
    }
  }

  lemma RivalFirst(rows: seq<SkillRow>, c: Reading, name: string, r: SkillRow) returns (other: seq<SkillRow>)
    requires r in rows && UsesSkill(r, c, name)
    requires !c.After(LastUsed(rows, c, name), r.lastUsedAt) && r.lastUsedAt != LastUsed(rows, c, name)
    ensures multiset(other) == multiset(rows) && LastUsed(other, c, name) == r.lastUsedAt
  {
    var i :| 0 <= i < |rows| && rows[i] == r;
    other := [r] + (rows[..i] + rows[i + 1..]);
    assert rows == rows[..i] + [r] + rows[i + 1..];
    LastUsedIsMaximal(rows, c, name);
    TiesAreInstants(c, r.lastUsedAt, LastUsed(rows, c, name));
    forall x | x in rows[..i] + rows[i + 1..] && UsesSkill(x, c, name) ensures !c.After(x.lastUsedAt, r.lastUsedAt) {
      assert x in rows;
      AfterIsStrictWeakOrder(c, x.lastUsedAt, LastUsed(rows, c, name), r.lastUsedAt);
    }
    FirstStays(r, rows[..i] + rows[i + 1..], c, name);
  }

  lemma SameLast(rows: seq<SkillRow>, other: seq<SkillRow>, c: Reading, name: string)
    requires multiset(other) == multiset(rows)
    requires forall r :: r in rows && UsesSkill(r, c, name) && !c.After(LastUsed(rows, c, name), r.lastUsedAt)
               ==> r.lastUsedAt == LastUsed(rows, c, name)
    ensures LastUsed(other, c, name) == LastUsed(rows, c, name)
  {
    forall r ensures r in rows <==> r in other {
      assert r in rows <==> r in multiset(rows);
      assert r in other <==> r in multiset(other);
    }
    var x, y := LastUsed(rows, c, name), LastUsed(other, c, name);
    LastUsedIsMaximal(rows, c, name);
    LastUsedIsMaximal(other, c, name);
    EmptyIsFirst(c, x);
    EmptyIsFirst(c, y);
    if y != "" {
      var r :| r in other && UsesSkill(r, c, name) && r.lastUsedAt == y;
      if x != "" { assert !c.After(x, y); }
    } else {
      TiesAreInstants(c, x, y);
    }
  }

  lemma EmptyIsFirst(c: Reading, s: string)
    ensures s != "" ==> c.After(s, "")
    ensures !c.After("", s)
  {
    LexTotal("", s);
  }

  /** Two uses at one instant, written with different offsets: the row that comes first decides what is shown. */
  lemma OffsetsMakeOrderMatter(c: Reading, x: SkillRow, y: SkillRow)
    requires UsesSkill(x, c, c.NameOf(x)) && UsesSkill(y, c, c.NameOf(x))
    requires x.lastUsedAt != y.lastUsedAt && c.TimeOf(x.lastUsedAt).Some?
    requires c.TimeOf(x.lastUsedAt) == c.TimeOf(y.lastUsedAt)
    ensures LastUsed([x, y], c, c.NameOf(x)) == x.lastUsedAt && LastUsed([y, x], c, c.NameOf(x)) == y.lastUsedAt
  {
    EmptyIsFirst(c, x.lastUsedAt);
    EmptyIsFirst(c, y.lastUsedAt);
    FirstStays(x, [y], c, c.NameOf(x));
    FirstStays(y, [x], c, c.NameOf(x));
    assert [x] + [y] == [x, y] && [y] + [x] == [y, x];
  }
}
