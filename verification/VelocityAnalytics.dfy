/**
 The velocity of sessions: turn cycles, first response and active time of one, and their totals by agent
 and complexity.
 */
module VelocityAnalytics {
  import opened Sequences
  import opened Grouping
  import SpeedBursts

  /** A message of a session, in conversation order; times in nanoseconds, if they parse. */
  datatype Message = Message(role: string, time: Option<int>, length: nat, tokens: Option<int>, model: string)

  const MAX_CYCLE := 1_800_000_000_000
  const MAX_GAP := 300_000_000_000

  // ----- One session -----

  /** The time between two messages, if both times parse. */
  function Delta(a: Message, b: Message): Option<int> {
    if a.time.Some? && b.time.Some? then Some(b.time.value - a.time.value) else None
  }

  function Gap(a: Message, b: Message): nat {
    match Delta(a, b)
    case None => 0
    case Some(d) => if d <= 0 then 0 else if d > MAX_GAP then MAX_GAP else d
  }

  function ActiveTime(msgs: seq<Message>): nat {
    if |msgs| < 2 then 0 else ActiveTime(msgs[..|msgs| - 1]) + Gap(msgs[|msgs| - 2], msgs[|msgs| - 1])
  }

  predicate IsCycle(a: Message, b: Message) {
    a.role == "user" && b.role == "assistant" && Delta(a, b).Some? && 0 < Delta(a, b).value <= MAX_CYCLE
  }

  function TurnCycles(msgs: seq<Message>): seq<int> {
    if |msgs| < 2 then [] else
    TurnCycles(msgs[..|msgs| - 1])
    + if IsCycle(msgs[|msgs| - 2], msgs[|msgs| - 1]) then [Delta(msgs[|msgs| - 2], msgs[|msgs| - 1]).value] else []
  }

  predicate Is(m: Message, role: string) {
    m.role == role && m.time.Some?
  }

  /** Message `j` is the first timed one of its role from `i` on. */
  ghost predicate IsFirst(msgs: seq<Message>, role: string, i: int, j: int) {
    0 <= i <= j < |msgs| && Is(msgs[j], role) && forall k :: i <= k < j ==> !Is(msgs[k], role)
  }

  /** Active time is at most five minutes for each message after the first. */
  lemma {:induction false} ActiveTimeIsBounded(msgs: seq<Message>)
    requires msgs != []
    ensures ActiveTime(msgs) <= MAX_GAP * (|msgs| - 1)
  {
    if |msgs| > 1 { ActiveTimeIsBounded(msgs[..|msgs| - 1]); }
  }

  /** Turn cycles are positive, at most half an hour, and fewer than the messages. */
  lemma {:induction false} TurnCyclesAreBounded(msgs: seq<Message>)
    ensures forall d :: d in TurnCycles(msgs) ==> 0 < d <= MAX_CYCLE
    ensures msgs != [] ==> |TurnCycles(msgs)| < |msgs|
  {
    if |msgs| > 1 { TurnCyclesAreBounded(msgs[..|msgs| - 1]); }
  }

  /** The first timed message of a role from `i` on, or the number of messages. */
  function FirstFrom(msgs: seq<Message>, role: string, i: nat): (j: nat)
    requires i <= |msgs|
    ensures j == |msgs| || IsFirst(msgs, role, i, j)
    ensures j == |msgs| ==> forall k :: i <= k < |msgs| ==> !Is(msgs[k], role)
    decreases |msgs| - i
  {
    if i == |msgs| || Is(msgs[i], role) then i else FirstFrom(msgs, role, i + 1)
  }

  /** The time from the first timed user message to its first timed reply, as a list of at most one. */
  function FirstResponses(msgs: seq<Message>): seq<nat> {
    var user := FirstFrom(msgs, "user", 0);
    if user == |msgs| then [] else
    var reply := FirstFrom(msgs, "assistant", user + 1);
    if reply == |msgs| then [] else
    var d := msgs[reply].time.value - msgs[user].time.value;
    [if d < 0 then 0 else d]
  }

  /** Message `j` is the first timed reply to the first timed user message `i`. */
  ghost predicate Answers(msgs: seq<Message>, i: int, j: int) {
    IsFirst(msgs, "user", 0, i) && IsFirst(msgs, "assistant", i + 1, j)
  }

  /**
   A first response is recorded exactly if there is such a pair, and is the time between them; skewed
   clocks count as zero.
   */
  lemma FirstResponseIsExact(msgs: seq<Message>)
    ensures FirstResponses(msgs) == [] <==> forall i, j :: !Answers(msgs, i, j)
    ensures forall i, j :: Answers(msgs, i, j) ==>
              var d := msgs[j].time.value - msgs[i].time.value; FirstResponses(msgs) == [if d < 0 then 0 else d]
  {
    var user := FirstFrom(msgs, "user", 0);
    if user < |msgs| {
      var reply := FirstFrom(msgs, "assistant", user + 1);
      if reply < |msgs| { assert Answers(msgs, user, reply); }
    }
  }

  /** The assistant messages as rows for speed samples, each with the time of the message before it, of any role. */
  function SpeedRows(msgs: seq<Message>): seq<SpeedBursts.Row> {
    if msgs == [] then [] else
    var front, m := msgs[..|msgs| - 1], msgs[|msgs| - 1];
    SpeedRows(front)
    + if m.role == "assistant"
      then [SpeedBursts.Row("", "", "assistant", m.time, m.tokens, m.model,
        if front == [] then None else front[|front| - 1].time, "")]
      else []
  }

  function SpeedSamples(msgs: seq<Message>): seq<SpeedBursts.Sample> {
    SpeedBursts.Samples(SpeedRows(msgs))
  }

  method SpeedOf(msgs: seq<Message>) returns (samples: seq<SpeedBursts.Sample>)
    ensures samples == SpeedSamples(msgs)
  {
    var rows, lag := [], None;
    for i := 0 to |msgs|
      invariant rows == SpeedRows(msgs[..i]) && lag == if i == 0 then None else msgs[i - 1].time
    {
      assert msgs[..i + 1][..i] == msgs[..i];
      var m := msgs[i];
      if m.role == "assistant" {
        rows := rows + [SpeedBursts.Row("", "", "assistant", m.time, m.tokens, m.model, lag, "")];
      }
      lag := m.time;
    }
    assert msgs[..|msgs|] == msgs;
    samples := SpeedBursts.SpeedEventsFromMessages(rows);
  }

  method FirstOf(msgs: seq<Message>, role: string, i: nat) returns (j: nat)
    requires i <= |msgs|
    ensures j == FirstFrom(msgs, role, i)
  {
    j := i;
    while j < |msgs| && !Is(msgs[j], role)
      invariant i <= j <= |msgs| && FirstFrom(msgs, role, i) == FirstFrom(msgs, role, j)
    {
      j := j + 1;
    }
  }

  method FirstResponse(msgs: seq<Message>) returns (list: seq<nat>)
    ensures list == FirstResponses(msgs)
  {
    var user := FirstOf(msgs, "user", 0);
    if user == |msgs| { return []; }
    var reply := FirstOf(msgs, "assistant", user + 1);
    if reply == |msgs| { return []; }
    var d := msgs[reply].time.value - msgs[user].time.value;
    return [if d < 0 then 0 else d];
  }

  method Walk(msgs: seq<Message>) returns (cycles: seq<int>, active: nat)
    requires msgs != []
    ensures cycles == TurnCycles(msgs) && active == ActiveTime(msgs)
  {
    cycles, active := [], 0;
    for i := 1 to |msgs|
      invariant cycles == TurnCycles(msgs[..i]) && active == ActiveTime(msgs[..i])
    {
      assert msgs[..i + 1][..i] == msgs[..i];
      var d := Delta(msgs[i - 1], msgs[i]);
      if d.None? { continue; }
      if msgs[i - 1].role == "user" && msgs[i].role == "assistant" && 0 < d.value <= MAX_CYCLE {
        cycles := cycles + [d.value];
      }
      if d.value > 0 { active := active + if d.value > MAX_GAP then MAX_GAP else d.value; }
    }
    assert msgs[..|msgs|] == msgs;
  }

  // ----- All sessions -----

  /** A session: its messages and tool calls, and the agent and complexity bucket it counts for. */
  datatype Session = Session(agent: string, complexity: string, msgs: seq<Message>, toolCalls: nat)

  function AgentOf(s: Session): string { s.agent }
  function ComplexityOf(s: Session): string { s.complexity }

  /** Sessions of fewer than two messages are left out; the others count for throughput if they have active time. */
  predicate IsMeasured(s: Session) {
    |s.msgs| >= 2
  }

  predicate IsActive(s: Session) {
    IsMeasured(s) && ActiveTime(s.msgs) > 0
  }

  function AssistantLength(msgs: seq<Message>): nat {
    if msgs == [] then 0 else
    AssistantLength(msgs[..|msgs| - 1]) + if msgs[|msgs| - 1].role == "assistant" then msgs[|msgs| - 1].length else 0
  }

  function Measured(s: Session): nat { if IsMeasured(s) then 1 else 0 }
  function Cycles(s: Session): seq<int> { if IsMeasured(s) then TurnCycles(s.msgs) else [] }
  function Firsts(s: Session): seq<nat> { if IsMeasured(s) then FirstResponses(s.msgs) else [] }
  function Speeds(s: Session): seq<SpeedBursts.Sample> { if IsMeasured(s) then SpeedSamples(s.msgs) else [] }
  function Messages(s: Session): nat { if IsActive(s) then |s.msgs| else 0 }
  function Chars(s: Session): nat { if IsActive(s) then AssistantLength(s.msgs) else 0 }
  function Tools(s: Session): nat { if IsActive(s) then s.toolCalls else 0 }
  function Active(s: Session): nat { if IsActive(s) then ActiveTime(s.msgs) else 0 }

  /** What an accumulator holds: the turn cycles, first responses and speed samples themselves, and sums. */
  datatype Totals = Totals(
    cycles: seq<int>, firsts: seq<nat>, speeds: seq<SpeedBursts.Sample>,
    sessions: nat, messages: nat, chars: nat, toolCalls: nat, active: nat)

  const NOTHING := Totals([], [], [], 0, 0, 0, 0, 0)

  function OwnOf(s: Session): Totals {
    Totals(Cycles(s), Firsts(s), Speeds(s), Measured(s), Messages(s), Chars(s), Tools(s), Active(s))
  }

  function TotalsOf(sessions: seq<Session>): Totals {
    Totals(Concat(sessions, Cycles), Concat(sessions, Firsts), Concat(sessions, Speeds),
           Sum(sessions, Measured), Sum(sessions, Messages), Sum(sessions, Chars), Sum(sessions, Tools),
             Sum(sessions, Active))
  }

  function TotalsAt(sessions: seq<Session>, key: Session -> string, k: string): Totals {
    Totals(ConcatAt(sessions, key, k, Cycles), ConcatAt(sessions, key, k, Firsts), ConcatAt(sessions, key, k, Speeds),
           SumAt(sessions, key, k, Measured), SumAt(sessions, key, k, Messages), SumAt(sessions, key, k, Chars),
           SumAt(sessions, key, k, Tools), SumAt(sessions, key, k, Active))
  }

  /** The map holds the totals of every group that has a measured session, and no other. */
  ghost predicate Holds(groups: map<string, Totals>, sessions: seq<Session>, key: Session -> string) {
    && (forall k :: k in groups <==> exists s :: s in sessions && IsMeasured(s) && key(s) == k)
    && (forall k :: k in groups ==> groups[k] == TotalsAt(sessions, key, k))
  }

  lemma {:induction false} UnmeasuredIsNothing(sessions: seq<Session>, key: Session -> string, k: string)
    requires forall s :: s in sessions && IsMeasured(s) ==> key(s) != k
    ensures TotalsAt(sessions, key, k) == NOTHING
  {
    if sessions != [] {
      assert forall s :: s in sessions[..|sessions| - 1] ==> s in sessions;
      UnmeasuredIsNothing(sessions[..|sessions| - 1], key, k);
      assert sessions[|sessions| - 1] in sessions;
    }
  }

  /** What one measured session adds to the totals it counts for. */
  method Measure(s: Session) returns (own: Totals)
    requires IsMeasured(s)
    ensures own == OwnOf(s)
  {
    var cycles, active := Walk(s.msgs);
    var chars := 0;
    for i := 0 to |s.msgs|
      invariant chars == AssistantLength(s.msgs[..i])
    {
      assert s.msgs[..i + 1][..i] == s.msgs[..i];
      if s.msgs[i].role == "assistant" { chars := chars + s.msgs[i].length; }
    }
    assert s.msgs[..|s.msgs|] == s.msgs;
    var firsts := FirstResponse(s.msgs);
    var speeds := SpeedOf(s.msgs);
    own := Totals(cycles, firsts, speeds, 1, 0, 0, 0, 0);
    if active > 0 { own := Totals(cycles, firsts, speeds, 1, |s.msgs|, chars, s.toolCalls, active); }
  }

  function Combined(t: Totals, u: Totals): Totals {
    Totals(t.cycles + u.cycles, t.firsts + u.firsts, t.speeds + u.speeds, t.sessions + u.sessions,
           t.messages + u.messages, t.chars + u.chars, t.toolCalls + u.toolCalls, t.active + u.active)
  }

  method Credit(groups: map<string, Totals>, ghost sessions: seq<Session>, key: Session -> string, s: Session,
          own: Totals)
    returns (more: map<string, Totals>)
    requires Holds(groups, sessions, key) && IsMeasured(s) && own == OwnOf(s)
    ensures Holds(more, sessions + [s], key)
  {
    var k := key(s);
    var before := NOTHING;
    if k in groups { before := groups[k]; } else { UnmeasuredIsNothing(sessions, key, k); }
    more := groups[k := Combined(before, own)];
    forall j
      ensures TotalsAt(sessions + [s], key, j)
              == if j == k then Combined(TotalsAt(sessions, key, j), own) else TotalsAt(sessions, key, j)
    {
      OneMoreSession(sessions, key, s, j);
    }
    assert s in sessions + [s];
  }

  lemma OneMoreSession(sessions: seq<Session>, key: Session -> string, s: Session, j: string)
    ensures TotalsAt(sessions + [s], key, j)
            == if key(s) == j then Combined(TotalsAt(sessions, key, j), OwnOf(s)) else TotalsAt(sessions, key, j)
  {
    assert (sessions + [s])[..|sessions|] == sessions;
  }

  lemma SkipUnmeasured(groups: map<string, Totals>, sessions: seq<Session>, key: Session -> string, s: Session)
    requires Holds(groups, sessions, key) && !IsMeasured(s)
    ensures Holds(groups, sessions + [s], key)
  {
    forall j ensures TotalsAt(sessions + [s], key, j) == TotalsAt(sessions, key, j) {
      NothingMore(sessions, key, s, j);
    }
  }

  lemma NothingMore(sessions: seq<Session>, key: Session -> string, s: Session, j: string)
    requires !IsMeasured(s)
    ensures TotalsAt(sessions + [s], key, j) == TotalsAt(sessions, key, j)
  {
    assert (sessions + [s])[..|sessions|] == sessions;
  }

  lemma OverallStep(sessions: seq<Session>, s: Session)
    ensures TotalsOf(sessions + [s])
            == if IsMeasured(s) then Combined(TotalsOf(sessions), OwnOf(s)) else TotalsOf(sessions)
  {
    assert (sessions + [s])[..|sessions|] == sessions;
  }

  method Velocity(sessions: seq<Session>)
    returns (overall: Totals, byAgent: map<string, Totals>, byComplexity: map<string, Totals>)
    ensures overall == TotalsOf(sessions)
    ensures Holds(byAgent, sessions, AgentOf) && Holds(byComplexity, sessions, ComplexityOf)
  {
    overall, byAgent, byComplexity := NOTHING, map[], map[];
    for i := 0 to |sessions|
      invariant overall == TotalsOf(sessions[..i])
      invariant Holds(byAgent, sessions[..i], AgentOf) && Holds(byComplexity, sessions[..i], ComplexityOf)
    {
      var s := sessions[i];
      assert sessions[..i + 1] == sessions[..i] + [s];
      OverallStep(sessions[..i], s);
      if |s.msgs| < 2 {
        SkipUnmeasured(byAgent, sessions[..i], AgentOf, s);
        SkipUnmeasured(byComplexity, sessions[..i], ComplexityOf, s);
        continue;
      }
      var own := Measure(s);
      overall := Combined(overall, own);
      byAgent := Credit(byAgent, sessions[..i], AgentOf, s, own);
      byComplexity := Credit(byComplexity, sessions[..i], ComplexityOf, s, own);
    }
    assert sessions[..|sessions|] == sessions;
  }

  function Grand(groups: map<string, Totals>, keys: seq<string>): Totals
    requires forall k :: k in keys ==> k in groups
  {
    if keys == [] then NOTHING else Combined(Grand(groups, keys[..|keys| - 1]), groups[keys[|keys| - 1]])
  }

  lemma {:induction false} GrandLists(groups: map<string, Totals>, keys: seq<string>, sessions: seq<Session>,
          key: Session -> string)
    requires Holds(groups, sessions, key) && forall k :: k in keys ==> k in groups
    ensures multiset(Grand(groups, keys).cycles) == AllOver(keys, sessions, key, Cycles)
    ensures multiset(Grand(groups, keys).firsts) == AllOver(keys, sessions, key, Firsts)
    ensures multiset(Grand(groups, keys).speeds) == AllOver(keys, sessions, key, Speeds)
  {
    if keys != [] { GrandLists(groups, keys[..|keys| - 1], sessions, key); }
  }

  lemma {:induction false} GrandSums(groups: map<string, Totals>, keys: seq<string>, sessions: seq<Session>,
          key: Session -> string)
    requires Holds(groups, sessions, key) && forall k :: k in keys ==> k in groups
    ensures var g := Grand(groups, keys);
            && g.sessions == SumOver(keys, sessions, key, Measured)
            && g.messages == SumOver(keys, sessions, key, Messages)
            && g.chars == SumOver(keys, sessions, key, Chars) && g.toolCalls == SumOver(keys, sessions, key, Tools)
            && g.active == SumOver(keys, sessions, key, Active)
  {
    if keys != [] { GrandSums(groups, keys[..|keys| - 1], sessions, key); }
  }

  /** The same lists, in some order, and the same sums. */
  ghost predicate HoldTheSame(t: Totals, u: Totals) {
    && multiset(t.cycles) == multiset(u.cycles) && multiset(t.firsts) == multiset(u.firsts)
    && multiset(t.speeds) == multiset(u.speeds)
    && t.(cycles := [], firsts := [], speeds := []) == u.(cycles := [], firsts := [], speeds := [])
  }

  /**
   The accumulators by agent, and those by complexity, hold together the overall turn cycles and first
   responses, and add up to the overall sums.
   */
  lemma GroupsAddUpToOverall(groups: map<string, Totals>, keys: seq<string>, sessions: seq<Session>,
          key: Session -> string)
    requires Holds(groups, sessions, key) && Distinct(keys) && forall k :: k in keys <==> k in groups
    ensures HoldTheSame(Grand(groups, keys), TotalsOf(sessions))
  {
    assert forall s :: s in sessions && IsMeasured(s) ==> key(s) in groups;
    GrandLists(groups, keys, sessions, key);
    GrandSums(groups, keys, sessions, key);
    GroupsHoldAll(keys, sessions, key, Cycles);
    GroupsHoldAll(keys, sessions, key, Firsts);
    GroupsHoldAll(keys, sessions, key, Speeds);
    GroupsAddUp(keys, sessions, key, Measured);
    GroupsAddUp(keys, sessions, key, Messages);
    GroupsAddUp(keys, sessions, key, Chars);
    GroupsAddUp(keys, sessions, key, Tools);
    GroupsAddUp(keys, sessions, key, Active);
  }

  /** Neither the overall accumulator nor that of a group depends on the order of the sessions. */
  lemma TotalsIgnoreOrder(a: seq<Session>, b: seq<Session>, key: Session -> string, k: string)
    requires multiset(a) == multiset(b)
    ensures HoldTheSame(TotalsOf(a), TotalsOf(b)) && HoldTheSame(TotalsAt(a, key, k), TotalsAt(b, key, k))
  {
    OverallIgnoresOrder(a, b);
    GroupIgnoresOrder(a, b, key, k);
  }

  lemma OverallIgnoresOrder(a: seq<Session>, b: seq<Session>)
    requires multiset(a) == multiset(b)
    ensures HoldTheSame(TotalsOf(a), TotalsOf(b))
  {
    ConcatPermutation(a, b, Cycles);
    ConcatPermutation(a, b, Firsts);
    ConcatPermutation(a, b, Speeds);
    SumPermutation(a, b, Measured);
    SumPermutation(a, b, Messages);
    SumPermutation(a, b, Chars);
    SumPermutation(a, b, Tools);
    SumPermutation(a, b, Active);
  }

  lemma GroupIgnoresOrder(a: seq<Session>, b: seq<Session>, key: Session -> string, k: string)
    requires multiset(a) == multiset(b)
    ensures HoldTheSame(TotalsAt(a, key, k), TotalsAt(b, key, k))
  {
    ConcatAtPermutation(a, b, key, k, Cycles);
    ConcatAtPermutation(a, b, key, k, Firsts);
    ConcatAtPermutation(a, b, key, k, Speeds);
    SumAtPermutation(a, b, key, k, Measured);
    SumAtPermutation(a, b, key, k, Messages);
    SumAtPermutation(a, b, key, k, Chars);
    SumAtPermutation(a, b, key, k, Tools);
    SumAtPermutation(a, b, key, k, Active);
  }
}
