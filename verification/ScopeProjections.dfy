/** Per-session statistics and timing of matched rows. */
module ScopeProjections {
  import opened Sequences
  import opened MessageScope

  datatype MessageStats = MessageStats(
    messages: int, userMessages: int, assistantMessages: int, toolUseMessages: int, thinkingMessages: int,
    outputTokens: int, hasOutputTokens: bool)

  datatype TimingMessage = TimingMessage(role: string, time: LocalTime, valid: bool, contentLength: int)

  predicate IsUserMessage(row: ScopedMessage) { row.role == "user" && !row.isSystem }
  predicate IsAssistantMessage(row: ScopedMessage) { row.role == "assistant" }
  predicate IsToolUse(row: ScopedMessage) { row.role == "assistant" && row.hasToolUse }
  predicate IsThinking(row: ScopedMessage) { row.hasThinking }
  predicate ReportsTokens(row: ScopedMessage) { row.hasOutputTokens }

  function TokenSum(rows: seq<ScopedMessage>): int {
    if rows == [] then 0
    else TokenSum(rows[..|rows| - 1]) + (if rows[|rows| - 1].hasOutputTokens then rows[|rows| - 1].outputTokens else 0)
  }

  /** The statistics, each as the number of rows of one kind. */
  function StatsOf(rows: seq<ScopedMessage>): MessageStats {
    MessageStats(|rows|, |Filter(rows, IsUserMessage)|, |Filter(rows, IsAssistantMessage)|,
                 |Filter(rows, IsToolUse)|, |Filter(rows, IsThinking)|,
                 TokenSum(rows), |Filter(rows, ReportsTokens)| > 0)
  }

  method ScopeStats(rows: seq<ScopedMessage>) returns (s: MessageStats)
    ensures s == StatsOf(rows)
  {
    s := MessageStats(0, 0, 0, 0, 0, 0, false);
    for k := 0 to |rows|
      invariant s == StatsOf(rows[..k])
    {
      var row := rows[k];
      assert rows[..k + 1][..k] == rows[..k];
      s := s.(messages := s.messages + 1);
      if row.role == "user" {
        if !row.isSystem { s := s.(userMessages := s.userMessages + 1); }
      } else if row.role == "assistant" {
        s := s.(assistantMessages := s.assistantMessages + 1);
        if row.hasToolUse { s := s.(toolUseMessages := s.toolUseMessages + 1); }
      }
      if row.hasThinking { s := s.(thinkingMessages := s.thinkingMessages + 1); }
      if row.hasOutputTokens {
        s := s.(outputTokens := s.outputTokens + row.outputTokens, hasOutputTokens := true);
      }
    }
    assert rows[..|rows|] == rows;
  }

  function Combine(a: MessageStats, b: MessageStats): MessageStats {
    MessageStats(a.messages + b.messages, a.userMessages + b.userMessages, a.assistantMessages + b.assistantMessages,
                 a.toolUseMessages + b.toolUseMessages, a.thinkingMessages + b.thinkingMessages,
                 a.outputTokens + b.outputTokens, a.hasOutputTokens || b.hasOutputTokens)
  }

  /** Statistics of a concatenation are the sums of the parts. */
  lemma StatsAdditive(a: seq<ScopedMessage>, b: seq<ScopedMessage>)
    ensures StatsOf(a + b) == Combine(StatsOf(a), StatsOf(b))
  {
    FilterAppend(a, b, IsUserMessage);
    FilterAppend(a, b, IsAssistantMessage);
    FilterAppend(a, b, IsToolUse);
    FilterAppend(a, b, IsThinking);
    FilterAppend(a, b, ReportsTokens);
    TokenSumAppend(a, b);
  }

  lemma {:induction false} TokenSumAppend(a: seq<ScopedMessage>, b: seq<ScopedMessage>)
    ensures TokenSum(a + b) == TokenSum(a) + TokenSum(b)
  {
    if b == [] {
      assert a + b == a;
    } else {
      assert (a + b)[..|a + b| - 1] == a + b[..|b| - 1];
      TokenSumAppend(a, b[..|b| - 1]);
    }
  }

  /** Statistics do not depend on the order of the rows. */
  lemma StatsPermutation(a: seq<ScopedMessage>, b: seq<ScopedMessage>)
    requires multiset(a) == multiset(b)
    ensures StatsOf(a) == StatsOf(b)
  {
    assert |a| == |multiset(a)| == |multiset(b)| == |b|;
    FilterLength(a, b, IsUserMessage);
    FilterLength(a, b, IsAssistantMessage);
    FilterLength(a, b, IsToolUse);
    FilterLength(a, b, IsThinking);
    FilterLength(a, b, ReportsTokens);
    TokenSumPermutation(a, b);
  }

  lemma FilterLength(a: seq<ScopedMessage>, b: seq<ScopedMessage>, p: ScopedMessage -> bool)
    requires multiset(a) == multiset(b)
    ensures |Filter(a, p)| == |Filter(b, p)|
  {
    FilterCount(a, p);
    FilterCount(b, p);
    assert multiset(Filter(a, p)) == multiset(Filter(b, p));
    assert |Filter(a, p)| == |multiset(Filter(a, p))| && |Filter(b, p)| == |multiset(Filter(b, p))|;
  }

  lemma {:induction false} TokenSumPermutation(a: seq<ScopedMessage>, b: seq<ScopedMessage>)
    requires multiset(a) == multiset(b)
    ensures TokenSum(a) == TokenSum(b)
  {
    if a == [] {
      assert |b| == |multiset(b)| == |multiset(a)| == 0;
    } else {
      var k := RemoveLast(a, b);
      TokenSumPermutation(a[..|a| - 1], b[..k] + b[k + 1..]);
      assert b == b[..k] + [b[k]] + b[k + 1..];
      TokenSumAppend(b[..k] + [b[k]], b[k + 1..]);
      TokenSumAppend(b[..k], [b[k]]);
      TokenSumAppend(b[..k], b[k + 1..]);
      assert [b[k]][..0] == [];
    }
  }

  // ----- Timing -----

  ghost predicate ByOrdinal(rows: seq<ScopedMessage>) {
    forall i, j :: 0 <= i < j < |rows| ==> rows[i].ordinal <= rows[j].ordinal
  }

  function WithOrdinal(rows: seq<ScopedMessage>, ordinal: int): seq<ScopedMessage> {
    Filter(rows, (row: ScopedMessage) => row.ordinal == ordinal)
  }

  /** Puts `row` behind every row of a sorted sequence whose ordinal is not greater. */
  function Insert(row: ScopedMessage, rows: seq<ScopedMessage>): seq<ScopedMessage> {
    if rows == [] || rows[|rows| - 1].ordinal <= row.ordinal then rows + [row]
    else Insert(row, rows[..|rows| - 1]) + [rows[|rows| - 1]]
  }

  /** The stable sort by ordinal. */
  function StableSort(rows: seq<ScopedMessage>): seq<ScopedMessage> {
    if rows == [] then [] else Insert(rows[|rows| - 1], StableSort(rows[..|rows| - 1]))
  }

  lemma {:induction false} InsertPermutes(row: ScopedMessage, rows: seq<ScopedMessage>)
    ensures multiset(Insert(row, rows)) == multiset(rows) + multiset{row}
  {
    if rows != [] && rows[|rows| - 1].ordinal > row.ordinal {
      assert rows == rows[..|rows| - 1] + [rows[|rows| - 1]];
      InsertPermutes(row, rows[..|rows| - 1]);
    }
  }

  lemma {:induction false} InsertOrders(row: ScopedMessage, rows: seq<ScopedMessage>)
    requires ByOrdinal(rows)
    ensures ByOrdinal(Insert(row, rows))
    ensures forall r :: r in Insert(row, rows) ==> r == row || r in rows
  {
    if rows != [] && rows[|rows| - 1].ordinal > row.ordinal {
      InsertOrders(row, rows[..|rows| - 1]);
      var inserted := Insert(row, rows[..|rows| - 1]);
      forall k | 0 <= k < |inserted| ensures inserted[k].ordinal <= rows[|rows| - 1].ordinal {
        assert inserted[k] in inserted;
      }
    }
  }

  lemma {:induction false} InsertIsStable(row: ScopedMessage, rows: seq<ScopedMessage>, ordinal: int)
    requires ByOrdinal(rows)
    ensures WithOrdinal(Insert(row, rows), ordinal)
            == WithOrdinal(rows, ordinal) + (if row.ordinal == ordinal then [row] else [])
  {
    if rows == [] || rows[|rows| - 1].ordinal <= row.ordinal {
      assert (rows + [row])[..|rows|] == rows;
    } else {
      var front, last := rows[..|rows| - 1], rows[|rows| - 1];
      InsertIsStable(row, front, ordinal);
      var inserted := Insert(row, front);
      assert (inserted + [last])[..|inserted|] == inserted;
      var here, tail := if row.ordinal == ordinal then [row] else [], if last.ordinal == ordinal then [last] else [];
      assert WithOrdinal(rows, ordinal) == WithOrdinal(front, ordinal) + tail;
      assert here == [] || tail == [];
    }
  }

  /** The sort orders the rows and keeps them all. */
  lemma {:induction false} StableSortSorts(rows: seq<ScopedMessage>)
    ensures ByOrdinal(StableSort(rows))
    ensures multiset(StableSort(rows)) == multiset(rows)
  {
    if rows != [] {
      assert rows == rows[..|rows| - 1] + [rows[|rows| - 1]];
      StableSortSorts(rows[..|rows| - 1]);
      InsertOrders(rows[|rows| - 1], StableSort(rows[..|rows| - 1]));
      InsertPermutes(rows[|rows| - 1], StableSort(rows[..|rows| - 1]));
    }
  }

  /** The sort keeps rows of equal ordinal in their order. */
  lemma {:induction false} StableSortIsStable(rows: seq<ScopedMessage>, ordinal: int)
    ensures WithOrdinal(StableSort(rows), ordinal) == WithOrdinal(rows, ordinal)
  {
    if rows != [] {
      StableSortIsStable(rows[..|rows| - 1], ordinal);
      StableSortSorts(rows[..|rows| - 1]);
      InsertIsStable(rows[|rows| - 1], StableSort(rows[..|rows| - 1]), ordinal);
    }
  }

  function TimingFrom(row: ScopedMessage): TimingMessage {
    TimingMessage(row.role, row.localTime, row.hasLocalTime, row.contentLength)
  }

  /** The timing view: the rows by ordinal, whatever order they were handed on in. */
  method ScopeTiming(rows: seq<ScopedMessage>) returns (timing: seq<TimingMessage>)
    ensures timing == Map(StableSort(rows), TimingFrom)
  {
    var ordered := StableSort(rows);
    timing := [];
    for k := 0 to |ordered|
      invariant timing == Map(ordered[..k], TimingFrom)
    {
      var row := ordered[k];
      timing := timing + [TimingMessage(row.role, row.localTime, row.hasLocalTime, row.contentLength)];
    }
    assert ordered[..|ordered|] == ordered;
  }

  /** The matched rows of a stream in stream order. */
  ghost function MatchedIndices(f: ScopeFilter, rows: seq<MessageInput>): seq<int> {
    Indices(|rows|, i => 0 <= i < |rows| && Matched(f, rows, i))
  }

  ghost function RowAt(rows: seq<MessageInput>, i: int): ScopedMessage {
    if 0 <= i < |rows| then ScopedFrom(rows[i]) else RowDefault()
  }

  ghost function RowDefault(): ScopedMessage {
    ScopedMessage("", 0, "", "", false, false, false, "", LocalTime(0, 0, 0), false, 0, false, 0)
  }

  lemma EmitOrderPermutesMatched(f: ScopeFilter, rows: seq<MessageInput>)
    ensures multiset(EmitOrder(f, rows)) == multiset(MatchedIndices(f, rows))
  {
    var order := EmitOrder(f, rows);
    EmitOrderIsExact(f, rows);
    EmitOrderInRange(f, rows);
    IndicesMembers(|rows|, i => 0 <= i < |rows| && Matched(f, rows, i));
    forall k, l | 0 <= k < l < |order| ensures order[k] != order[l] {
      assert order[k] in order;
      var j :| MatchedBy(f, rows, order[k], j);
    }
    forall i ensures i in order <==> i in MatchedIndices(f, rows) {
      assert i in order <==> 0 <= i < |rows| && Matched(f, rows, i);
    }
    DistinctSameElements(order, MatchedIndices(f, rows));
  }

  /** A sorted permutation of a strictly sorted sequence is that sequence. */
  lemma {:induction false} SortedIsUnique(a: seq<ScopedMessage>, b: seq<ScopedMessage>)
    requires multiset(a) == multiset(b)
    requires ByOrdinal(a)
    requires forall i, j :: 0 <= i < j < |b| ==> b[i].ordinal < b[j].ordinal
    ensures a == b
  {
    assert |a| == |multiset(a)| == |multiset(b)| == |b|;
    if a != [] {
      var k := RemoveLast(a, b);
      assert b[|b| - 1] in multiset(a);
      assert b[|b| - 1] in a;
      assert b[..k] + b[k + 1..] == b[..|b| - 1];
      SortedIsUnique(a[..|a| - 1], b[..|b| - 1]);
    }
  }

  ghost predicate StrictlyOrdered(rows: seq<MessageInput>) {
    forall i, j :: 0 <= i < j < |rows| ==> rows[i].ordinal < rows[j].ordinal
  }

  /** Sorting undoes the emit order: the timing view lists the matched rows in conversation order. */
  lemma TimingIsConversationOrder(f: ScopeFilter, rows: seq<MessageInput>)
    requires StrictlyOrdered(rows)
    ensures StableSort(Emits(f, rows)) == Map(MatchedIndices(f, rows), i => RowAt(rows, i))
  {
    var order, indices := EmitOrder(f, rows), MatchedIndices(f, rows);
    var row := i => RowAt(rows, i);
    EmitOrderInRange(f, rows);
    EmitOrderPermutesMatched(f, rows);
    MapPermutation(order, indices, row);
    assert Emits(f, rows) == Map(order, row);
    StableSortSorts(Emits(f, rows));
    IndicesMembers(|rows|, i => 0 <= i < |rows| && Matched(f, rows, i));
    forall k, l | 0 <= k < l < |indices| ensures Map(indices, row)[k].ordinal < Map(indices, row)[l].ordinal {
      assert indices[k] in indices && indices[l] in indices;
    }
    SortedIsUnique(StableSort(Emits(f, rows)), Map(indices, row));
  }

  // ----- The day and hour targets -----

  function AnyTime(f: ScopeFilter): ScopeFilter {
    f.(dayOfWeek := None, hour := None)
  }

  /** Reducing under day and hour targets is reducing without them and filtering what comes out. */
  lemma {:induction false} DayHourIsAPostFilter(f: ScopeFilter, rows: seq<MessageInput>)
    requires WellGrouped(rows)
    ensures Emits(f, rows) == Filter(Emits(AnyTime(f), rows), f.AdmitsScoped)
  {
    ReduceRefinesSpec(f, rows);
    ReduceRefinesSpec(AnyTime(f), rows);
    ReduceAnyTime(f, rows);
    FilterMap(MatchedRows(AnyTime(f), rows), ScopedFrom, f.AdmitsScoped, f.Admits);
  }

  lemma AllTimesThenSome(f: ScopeFilter, matched: seq<MessageInput>, rows: seq<MessageInput>)
    ensures Filter(matched + Filter(rows, AnyTime(f).Admits), f.Admits)
            == Filter(matched, f.Admits) + Filter(rows, f.Admits)
  {
    FilterAll(rows, AnyTime(f).Admits);
    FilterAppend(matched, rows, f.Admits);
  }

  /** The two reductions are in step: same session, same buffer, and one has matched what the other keeps. */
  ghost predicate InStep(f: ScopeFilter, st: Pairing, any: Pairing) {
    st.session == any.session && st.pending == any.pending && st.matched == Filter(any.matched, f.Admits)
  }

  lemma FeedAnyTime(f: ScopeFilter, st: Pairing, any: Pairing, row: MessageInput)
    requires InStep(f, st, any)
    ensures InStep(f, Feed(f, st, row), Feed(AnyTime(f), any, row))
  {
    AllTimesThenSome(f, any.matched, Handed(f, Buffered(st, row), row));
  }

  lemma {:induction false} ReduceAnyTime(f: ScopeFilter, rows: seq<MessageInput>)
    ensures InStep(f, Reduce(f, rows), Reduce(AnyTime(f), rows))
  {
    if rows != [] {
      var front := rows[..|rows| - 1];
      ReduceAnyTime(f, front);
      FeedAnyTime(f, Reduce(f, front), Reduce(AnyTime(f), front), rows[|rows| - 1]);
    }
  }
}
