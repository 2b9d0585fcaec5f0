/**
 Model-scoped analytics: which candidate message rows count for a model filter,
 and in which order they are handed on.

 The first half states it on a finished stream of rows, by looking ahead for the
 assistant row that answers a user turn. The second half is the one-pass form that
 buffers user turns, and the proof that it computes the same rows in the same order.
 */
module MessageScope {
  import opened Sequences

  /** A localized time: an instant and the calendar fields that the filter reads (Sunday is weekday 0). */
  datatype LocalTime = LocalTime(instant: int, weekday: nat, hour: nat)

  datatype ScopeFilter = ScopeFilter(models: set<string>, dayOfWeek: Option<int>, hour: Option<int>) {
    /** Whether a localized time meets the day and hour targets (Monday is day 0). */
    predicate MatchesDayHour(t: LocalTime, has: bool) {
      if dayOfWeek.None? && hour.None? then true
      else if !has then false
      else if dayOfWeek.Some? && (t.weekday + 6) % 7 != dayOfWeek.value then false
      else if hour.Some? && t.hour != hour.value then false
      else true
    }

    predicate Admits(row: MessageInput) {
      MatchesDayHour(row.localTime, row.hasLocalTime)
    }

    predicate AdmitsScoped(row: ScopedMessage) {
      MatchesDayHour(row.localTime, row.hasLocalTime)
    }

    predicate Selects(row: MessageInput) {
      row.model in models
    }
  }

  /** A candidate row, as a backend reads it. */
  datatype MessageInput = MessageInput(
    sessionID: string, ordinal: int, role: string, model: string, isSystem: bool,
    timestamp: string, localTime: LocalTime, hasLocalTime: bool,
    hasThinking: bool, hasToolUse: bool,
    outputTokens: int, hasOutputTokens: bool, contentLength: int, content: string)

  /** A matched row. */
  datatype ScopedMessage = ScopedMessage(
    sessionID: string, ordinal: int, role: string, content: string, isSystem: bool,
    hasThinking: bool, hasToolUse: bool,
    timestamp: string, localTime: LocalTime, hasLocalTime: bool,
    outputTokens: int, hasOutputTokens: bool, contentLength: int)

  function ScopedFrom(row: MessageInput): ScopedMessage {
    ScopedMessage(row.sessionID, row.ordinal, row.role, row.content, row.isSystem,
                  row.hasThinking, row.hasToolUse,
                  row.timestamp, row.localTime, row.hasLocalTime,
                  row.outputTokens, row.hasOutputTokens, row.contentLength)
  }

  /** A user turn that carries no model of its own: it counts only through the assistant that answers it. */
  predicate IsPromptTurn(row: MessageInput) {
    row.role == "user" && !row.isSystem && row.model == ""
  }

  // ----- The rows a filter selects, by looking ahead -----

  ghost predicate SameSession(rows: seq<MessageInput>, i: int, j: int)
    requires 0 <= i < |rows| && 0 <= j < |rows|
  {
    rows[i].sessionID == rows[j].sessionID
  }

  /** Rows of a session are contiguous, and within a session ordinals never decrease. */
  ghost predicate WellGrouped(rows: seq<MessageInput>) {
    forall i, k {:trigger SameSession(rows, i, k)} :: 0 <= i < k < |rows| && SameSession(rows, i, k) ==>
      && rows[i].ordinal <= rows[k].ordinal
      && forall j :: i < j < k ==> SameSession(rows, i, j)
  }

  ghost predicate IsAssistantOf(rows: seq<MessageInput>, session: string, k: int)
    requires 0 <= k < |rows|
  {
    rows[k].sessionID == session && rows[k].role == "assistant"
  }

  /** Row `j` is the first assistant row of row `i`'s session after row `i`. */
  ghost predicate NextAssistant(rows: seq<MessageInput>, i: int, j: int) {
    && 0 <= i < j < |rows|
    && IsAssistantOf(rows, rows[i].sessionID, j)
    && forall k :: i < k < j ==> !IsAssistantOf(rows, rows[i].sessionID, k)
  }

  /** The arrival of row `j` is what makes row `i` count. */
  ghost predicate MatchedBy(f: ScopeFilter, rows: seq<MessageInput>, i: int, j: int)
    requires 0 <= i < |rows|
  {
    if IsPromptTurn(rows[i]) then NextAssistant(rows, i, j) && f.Selects(rows[j])
    else i == j && f.Selects(rows[i])
  }

  ghost predicate Matched(f: ScopeFilter, rows: seq<MessageInput>, i: int)
    requires 0 <= i < |rows|
  {
    f.Admits(rows[i]) && exists j :: MatchedBy(f, rows, i, j)
  }

  /** The rows handed on when row `j` arrives, by ascending index. */
  ghost function Batch(f: ScopeFilter, rows: seq<MessageInput>, j: nat): seq<int>
    requires j < |rows|
  {
    Indices(j + 1, i => 0 <= i < |rows| && MatchedBy(f, rows, i, j) && f.Admits(rows[i]))
  }

  /** The indices handed on over the whole stream: batch after batch. */
  ghost function EmitOrder(f: ScopeFilter, rows: seq<MessageInput>): (order: seq<int>) {
    if rows == [] then []
    else EmitOrder(f, rows[..|rows| - 1]) + Batch(f, rows, |rows| - 1)
  }

  ghost function At(rows: seq<MessageInput>, indices: seq<int>): (picked: seq<MessageInput>)
    requires forall k :: 0 <= k < |indices| ==> 0 <= indices[k] < |rows|
  {
    seq(|indices|, k requires 0 <= k < |indices| => rows[indices[k]])
  }

  lemma {:induction false} EmitOrderInRange(f: ScopeFilter, rows: seq<MessageInput>)
    ensures forall k :: 0 <= k < |EmitOrder(f, rows)| ==> 0 <= EmitOrder(f, rows)[k] < |rows|
  {
    if rows != [] {
      EmitOrderInRange(f, rows[..|rows| - 1]);
      BatchMembers(f, rows, |rows| - 1);
      forall k | 0 <= k < |EmitOrder(f, rows)| ensures 0 <= EmitOrder(f, rows)[k] < |rows| {
        var front := EmitOrder(f, rows[..|rows| - 1]);
        if k >= |front| { assert Batch(f, rows, |rows| - 1)[k - |front|] in Batch(f, rows, |rows| - 1); }
      }
    }
  }

  lemma BatchMembers(f: ScopeFilter, rows: seq<MessageInput>, j: nat)
    requires j < |rows|
    ensures forall i :: i in Batch(f, rows, j) <==> 0 <= i <= j && MatchedBy(f, rows, i, j) && f.Admits(rows[i])
    ensures forall k, l :: 0 <= k < l < |Batch(f, rows, j)| ==> Batch(f, rows, j)[k] < Batch(f, rows, j)[l]
  {
    IndicesMembers(j + 1, i => 0 <= i < |rows| && MatchedBy(f, rows, i, j) && f.Admits(rows[i]));
  }

  /** The matched rows of a stream in emit order. */
  ghost function MatchedRows(f: ScopeFilter, rows: seq<MessageInput>): seq<MessageInput> {
    EmitOrderInRange(f, rows);
    At(rows, EmitOrder(f, rows))
  }

  ghost function Emits(f: ScopeFilter, rows: seq<MessageInput>): seq<ScopedMessage> {
    Map(MatchedRows(f, rows), ScopedFrom)
  }

  /** What a prefix of the stream decides is not changed by the rows that follow. */
  lemma MatchedByPrefix(f: ScopeFilter, rows: seq<MessageInput>, n: nat, i: int, j: int)
    requires 0 <= i < n <= |rows| && j < n
    ensures MatchedBy(f, rows[..n], i, j) == MatchedBy(f, rows, i, j)
  {
    if NextAssistant(rows[..n], i, j) {
      forall k | i < k < j ensures !IsAssistantOf(rows, rows[i].sessionID, k) {
        assert !IsAssistantOf(rows[..n], rows[i].sessionID, k);
      }
    }
    if NextAssistant(rows, i, j) {
      assert IsAssistantOf(rows[..n], rows[i].sessionID, j);
      forall k | i < k < j ensures !IsAssistantOf(rows[..n], rows[i].sessionID, k) {
        assert !IsAssistantOf(rows, rows[i].sessionID, k);
      }
    }
  }

  /** A row is matched by at most one arrival, and never by an earlier one. */
  lemma MatchedByUnique(f: ScopeFilter, rows: seq<MessageInput>, i: int, j: int, j': int)
    requires 0 <= i < |rows| && MatchedBy(f, rows, i, j) && MatchedBy(f, rows, i, j')
    ensures j == j' && i <= j < |rows|
  {
  }

  /**
   Exactly the matched rows are emitted, each once, ordered by (index of the row that
   triggered it, own index).
   */
  lemma {:induction false} EmitOrderIsExact(f: ScopeFilter, rows: seq<MessageInput>)
    ensures forall i :: i in EmitOrder(f, rows) <==> 0 <= i < |rows| && Matched(f, rows, i)
    ensures forall k, l, j, j' ::
              0 <= k < l < |EmitOrder(f, rows)|
              && 0 <= EmitOrder(f, rows)[k] < |rows| && MatchedBy(f, rows, EmitOrder(f, rows)[k], j)
              && 0 <= EmitOrder(f, rows)[l] < |rows| && MatchedBy(f, rows, EmitOrder(f, rows)[l], j')
              ==> j < j' || (j == j' && EmitOrder(f, rows)[k] < EmitOrder(f, rows)[l])
  {
    if rows != [] {
      var n := |rows| - 1;
      var init := rows[..n];
      var front, batch := EmitOrder(f, init), Batch(f, rows, n);
      EmitOrderIsExact(f, init);
      EmitOrderInRange(f, init);
      BatchMembers(f, rows, n);
      forall i | 0 <= i < n ensures i in front <==> f.Admits(rows[i]) && exists j :: j < n && MatchedBy(f, rows, i, j) {
        MatchedBefore(f, rows, i);
      }
      forall i ensures i in EmitOrder(f, rows) <==> 0 <= i < |rows| && Matched(f, rows, i) {
        EmittedIffMatched(f, rows, i, front, batch);
      }
      forall k, l, j, j' |
        0 <= k < l < |front + batch|
        && 0 <= (front + batch)[k] < |rows| && MatchedBy(f, rows, (front + batch)[k], j)
        && 0 <= (front + batch)[l] < |rows| && MatchedBy(f, rows, (front + batch)[l], j')
        ensures j < j' || (j == j' && (front + batch)[k] < (front + batch)[l])
      {
        OrderStep(f, rows, front, batch, k, l, j, j');
      }
    }
  }

  lemma MatchedBefore(f: ScopeFilter, rows: seq<MessageInput>, i: int)
    requires 0 <= i < |rows| - 1
    ensures Matched(f, rows[..|rows| - 1], i)
            <==> f.Admits(rows[i]) && exists j :: j < |rows| - 1 && MatchedBy(f, rows, i, j)
  {
    var n := |rows| - 1;
    if Matched(f, rows[..n], i) {
      var j :| MatchedBy(f, rows[..n], i, j);
      MatchedByUnique(f, rows[..n], i, j, j);
      MatchedByPrefix(f, rows, n, i, j);
    }
    if j :| j < n && MatchedBy(f, rows, i, j) {
      MatchedByPrefix(f, rows, n, i, j);
    }
  }

  lemma EmittedIffMatched(f: ScopeFilter, rows: seq<MessageInput>, i: int, front: seq<int>, batch: seq<int>)
    requires rows != []
    requires forall i :: i in front ==> 0 <= i < |rows| - 1
    requires forall i :: 0 <= i < |rows| - 1 ==>
      (i in front <==> f.Admits(rows[i]) && exists j :: j < |rows| - 1 && MatchedBy(f, rows, i, j))
    requires forall i :: i in batch <==> 0 <= i < |rows| && MatchedBy(f, rows, i, |rows| - 1) && f.Admits(rows[i])
    ensures i in front + batch <==> 0 <= i < |rows| && Matched(f, rows, i)
  {
    if 0 <= i < |rows| && Matched(f, rows, i) {
      var j :| MatchedBy(f, rows, i, j);
      MatchedByUnique(f, rows, i, j, j);
      assert j == |rows| - 1 ==> i in batch;
      assert j < |rows| - 1 ==> i in front;
    }
  }

  lemma OrderStep(f: ScopeFilter, rows: seq<MessageInput>, front: seq<int>, batch: seq<int>, k: int, l: int, j: int,
          j': int)
    requires rows != []
    requires var init := rows[..|rows| - 1];
      && front == EmitOrder(f, init)
      && (forall i :: i in front ==> 0 <= i < |init| && Matched(f, init, i))
      && (forall k, l, j, j' ::
            0 <= k < l < |front|
            && 0 <= front[k] < |init| && MatchedBy(f, init, front[k], j)
            && 0 <= front[l] < |init| && MatchedBy(f, init, front[l], j')
            ==> j < j' || (j == j' && front[k] < front[l]))
    requires forall i :: i in batch ==> 0 <= i < |rows| && MatchedBy(f, rows, i, |rows| - 1)
    requires forall k, l :: 0 <= k < l < |batch| ==> batch[k] < batch[l]
    requires 0 <= k < l < |front + batch|
    requires 0 <= (front + batch)[k] < |rows| && MatchedBy(f, rows, (front + batch)[k], j)
    requires 0 <= (front + batch)[l] < |rows| && MatchedBy(f, rows, (front + batch)[l], j')
    ensures j < j' || (j == j' && (front + batch)[k] < (front + batch)[l])
  {
    var n := |rows| - 1;
    var init := rows[..n];
    if k < |front| {
      assert front[k] in front;
      TriggerOfFront(f, rows, front[k], j);
      if l < |front| {
        assert front[l] in front;
        TriggerOfFront(f, rows, front[l], j');
      } else {
        assert batch[l - |front|] in batch;
        MatchedByUnique(f, rows, batch[l - |front|], j', n);
      }
    } else {
      assert batch[k - |front|] in batch && batch[l - |front|] in batch;
      MatchedByUnique(f, rows, batch[k - |front|], j, n);
      MatchedByUnique(f, rows, batch[l - |front|], j', n);
    }
  }

  lemma TriggerOfFront(f: ScopeFilter, rows: seq<MessageInput>, i: int, j: int)
    requires 0 <= i < |rows| - 1 && Matched(f, rows[..|rows| - 1], i) && MatchedBy(f, rows, i, j)
    ensures j < |rows| - 1 && MatchedBy(f, rows[..|rows| - 1], i, j)
  {
    var init := rows[..|rows| - 1];
    var j0 :| MatchedBy(f, init, i, j0);
    MatchedByUnique(f, init, i, j0, j0);
    MatchedByPrefix(f, rows, |rows| - 1, i, j0);
    MatchedByUnique(f, rows, i, j0, j);
  }

  // ----- The same rows in one pass -----

  /** What the one-pass form remembers of the rows it has read, and what it has handed on. */
  datatype Pairing = Pairing(session: Option<string>, pending: seq<MessageInput>, matched: seq<MessageInput>)

  /** The buffered turns that `row` may answer: those of its own session. */
  function Buffered(st: Pairing, row: MessageInput): seq<MessageInput> {
    if st.session == Some(row.sessionID) then st.pending else []
  }

  /** The turns still buffered once `row` has arrived. */
  function Kept(waiting: seq<MessageInput>, row: MessageInput): seq<MessageInput> {
    if IsPromptTurn(row) then waiting + [row] else if row.role == "assistant" then [] else waiting
  }

  /** What the arrival of `row` makes count, when `waiting` are the turns it may answer. */
  function Handed(f: ScopeFilter, waiting: seq<MessageInput>, row: MessageInput): seq<MessageInput> {
    if IsPromptTurn(row) || !f.Selects(row) then [] else if row.role == "assistant" then waiting + [row] else [row]
  }

  function Feed(f: ScopeFilter, st: Pairing, row: MessageInput): Pairing {
    var waiting := Buffered(st, row);
    Pairing(Some(row.sessionID), Kept(waiting, row), st.matched + Filter(Handed(f, waiting, row), f.Admits))
  }

  function Reduce(f: ScopeFilter, rows: seq<MessageInput>): Pairing {
    if rows == [] then Pairing(None, [], [])
    else Feed(f, Reduce(f, rows[..|rows| - 1]), rows[|rows| - 1])
  }

  /** Row `i` is a prompt turn of the current session that no assistant has answered yet. */
  ghost predicate IsOpen(rows: seq<MessageInput>, i: int) {
    && 0 <= i < |rows|
    && IsPromptTurn(rows[i])
    && rows[i].sessionID == rows[|rows| - 1].sessionID
    && forall k :: i < k < |rows| ==> !IsAssistantOf(rows, rows[i].sessionID, k)
  }

  ghost function Open(rows: seq<MessageInput>): (open: seq<int>)
    ensures forall k :: 0 <= k < |open| ==> 0 <= open[k] < |rows|
  {
    IndicesMembers(|rows|, i => IsOpen(rows, i));
    var open := Indices(|rows|, i => IsOpen(rows, i));
    assert forall k :: 0 <= k < |open| ==> open[k] in open;
    open
  }

  /** The prompt turns still open when the last row of `rows` arrives. */
  ghost function Waiting(rows: seq<MessageInput>): (waiting: seq<int>)
    requires rows != []
    ensures forall k :: 0 <= k < |waiting| ==> 0 <= waiting[k] < |rows| - 1
  {
    var init := rows[..|rows| - 1];
    if init != [] && init[|init| - 1].sessionID == rows[|rows| - 1].sessionID then Open(init) else []
  }

  /** Row `i` is a prompt turn that the last row, if it is an assistant of the session, would answer. */
  ghost predicate AwaitsLast(rows: seq<MessageInput>, i: int) {
    && 0 <= i < |rows| - 1
    && IsPromptTurn(rows[i])
    && rows[i].sessionID == rows[|rows| - 1].sessionID
    && forall k :: i < k < |rows| - 1 ==> !IsAssistantOf(rows, rows[i].sessionID, k)
  }

  lemma SessionIsContiguous(rows: seq<MessageInput>, i: int)
    requires WellGrouped(rows) && 0 <= i < |rows| - 1 && rows[i].sessionID == rows[|rows| - 1].sessionID
    ensures rows[|rows| - 2].sessionID == rows[|rows| - 1].sessionID
  {
    assert SameSession(rows, i, |rows| - 1);
    assert i < |rows| - 2 ==> SameSession(rows, i, |rows| - 2);
  }

  lemma OpenIsAwaiting(rows: seq<MessageInput>, i: int)
    requires |rows| >= 2 && rows[|rows| - 2].sessionID == rows[|rows| - 1].sessionID && 0 <= i < |rows| - 1
    ensures IsOpen(rows[..|rows| - 1], i) == AwaitsLast(rows, i)
  {
    var init := rows[..|rows| - 1];
    if IsOpen(init, i) {
      forall k | i < k < |rows| - 1 ensures !IsAssistantOf(rows, rows[i].sessionID, k) {
        assert !IsAssistantOf(init, init[i].sessionID, k);
      }
    }
    if AwaitsLast(rows, i) {
      forall k | i < k < |init| ensures !IsAssistantOf(init, init[i].sessionID, k) {
        assert !IsAssistantOf(rows, rows[i].sessionID, k);
      }
    }
  }

  lemma OpenAreAwaiting(rows: seq<MessageInput>)
    requires |rows| > 1 && WellGrouped(rows) && rows[|rows| - 2].sessionID == rows[|rows| - 1].sessionID
    ensures Open(rows[..|rows| - 1]) == Indices(|rows| - 1, i => AwaitsLast(rows, i))
  {
    var n, init := |rows| - 1, rows[..|rows| - 1];
    forall i | 0 <= i < n ensures IsOpen(init, i) == AwaitsLast(rows, i) { OpenIsAwaiting(rows, i); }
    IndicesAgree(n, i => IsOpen(init, i), i => AwaitsLast(rows, i));
  }

  /** In a well-grouped stream, the open turns are those that the arriving row may answer. */
  lemma WaitingIsAwaiting(rows: seq<MessageInput>)
    requires rows != [] && WellGrouped(rows)
    ensures Waiting(rows) == Indices(|rows| - 1, i => AwaitsLast(rows, i))
  {
    var n := |rows| - 1;
    var init := rows[..n];
    if n > 0 && rows[n - 1].sessionID == rows[n].sessionID {
      OpenAreAwaiting(rows);
    } else {
      forall i | 0 <= i < n ensures !AwaitsLast(rows, i) {
        if AwaitsLast(rows, i) { SessionIsContiguous(rows, i); }
      }
      IndicesNone(n, i => AwaitsLast(rows, i));
    }
  }

  lemma OpenStep(rows: seq<MessageInput>)
    requires rows != [] && WellGrouped(rows)
    ensures Open(rows) ==
            if IsPromptTurn(rows[|rows| - 1]) then Waiting(rows) + [|rows| - 1]
            else if rows[|rows| - 1].role == "assistant" then []
            else Waiting(rows)
  {
    var n := |rows| - 1;
    WaitingIsAwaiting(rows);
    assert Open(rows) == Indices(n, i => IsOpen(rows, i)) + (if IsOpen(rows, n) then [n] else []);
    if rows[n].role == "assistant" {
      forall i | 0 <= i < n ensures !IsOpen(rows, i) {
        assert rows[i].sessionID == rows[n].sessionID ==> IsAssistantOf(rows, rows[i].sessionID, n);
      }
      IndicesNone(n, i => IsOpen(rows, i));
    } else {
      forall i | 0 <= i < n ensures IsOpen(rows, i) == AwaitsLast(rows, i) {
        assert !IsAssistantOf(rows, rows[i].sessionID, n);
      }
      IndicesAgree(n, i => IsOpen(rows, i), i => AwaitsLast(rows, i));
    }
  }

  /** The rows that the arrival of the last row makes count, before the day and hour test. */
  ghost function Candidates(f: ScopeFilter, rows: seq<MessageInput>): (candidates: seq<int>)
    requires rows != []
    ensures forall k :: 0 <= k < |candidates| ==> 0 <= candidates[k] < |rows|
  {
    var last := rows[|rows| - 1];
    if IsPromptTurn(last) || !f.Selects(last) then []
    else if last.role == "assistant" then Waiting(rows) + [|rows| - 1]
    else [|rows| - 1]
  }

  lemma BatchStep(f: ScopeFilter, rows: seq<MessageInput>)
    requires rows != [] && WellGrouped(rows)
    ensures Batch(f, rows, |rows| - 1) == Filter(Candidates(f, rows), i => 0 <= i < |rows| && f.Admits(rows[i]))
  {
    var n := |rows| - 1;
    var last := rows[n];
    var byLast := i => 0 <= i < |rows| && MatchedBy(f, rows, i, n);
    var admitted := i => 0 <= i < |rows| && f.Admits(rows[i]);
    WaitingIsAwaiting(rows);
    forall i | 0 <= i < n
      ensures byLast(i) <==> AwaitsLast(rows, i) && last.role == "assistant" && f.Selects(last)
    {
      assert IsAssistantOf(rows, rows[i].sessionID, n)
        <==> rows[i].sessionID == last.sessionID && last.role == "assistant";
    }
    assert byLast(n) <==> !IsPromptTurn(last) && f.Selects(last);
    if last.role == "assistant" && f.Selects(last) {
      IndicesAgree(n, byLast, i => AwaitsLast(rows, i));
    } else {
      IndicesNone(n, byLast);
    }
    assert Indices(n + 1, byLast) == Candidates(f, rows);
    IndicesFilter(n + 1, byLast, admitted, i => 0 <= i < |rows| && MatchedBy(f, rows, i, n) && f.Admits(rows[i]));
    IndicesAgree(n + 1, i => 0 <= i < |rows| && MatchedBy(f, rows, i, n) && f.Admits(rows[i]),
                 i => 0 <= i < |rows| && MatchedBy(f, rows, i, n) && f.Admits(rows[i]));
  }

  lemma {:induction false} AtFilter(f: ScopeFilter, rows: seq<MessageInput>, indices: seq<int>)
    requires forall k :: 0 <= k < |indices| ==> 0 <= indices[k] < |rows|
    ensures var admitted := Filter(indices, i => 0 <= i < |rows| && f.Admits(rows[i]));
      && (forall k :: 0 <= k < |admitted| ==> 0 <= admitted[k] < |rows|)
      && At(rows, admitted) == Filter(At(rows, indices), f.Admits)
  {
    if indices != [] {
      var front := indices[..|indices| - 1];
      AtFilter(f, rows, front);
      assert At(rows, indices)[..|indices| - 1] == At(rows, front);
    }
  }

  lemma WellGroupedPrefix(rows: seq<MessageInput>, n: nat)
    requires WellGrouped(rows) && n <= |rows|
    ensures WellGrouped(rows[..n])
  {
    forall i, k | 0 <= i < k < n && SameSession(rows[..n], i, k)
      ensures rows[i].ordinal <= rows[k].ordinal
      ensures forall j :: i < j < k ==> SameSession(rows[..n], i, j)
    {
      assert SameSession(rows, i, k);
      assert forall j :: i < j < k ==> SameSession(rows, i, j) ==> SameSession(rows[..n], i, j);
    }
  }

  lemma MatchedRowsStep(f: ScopeFilter, rows: seq<MessageInput>)
    requires rows != [] && WellGrouped(rows)
    ensures MatchedRows(f, rows)
            == MatchedRows(f, rows[..|rows| - 1]) + Filter(At(rows, Candidates(f, rows)), f.Admits)
  {
    BatchStep(f, rows);
    AtFilter(f, rows, Candidates(f, rows));
    EmitOrderInRange(f, rows[..|rows| - 1]);
    EmitOrderInRange(f, rows);
    var batch := Batch(f, rows, |rows| - 1);
    assert At(rows, EmitOrder(f, rows)) == At(rows, EmitOrder(f, rows[..|rows| - 1])) + At(rows, batch);
    assert At(rows, EmitOrder(f, rows[..|rows| - 1])) == At(rows[..|rows| - 1], EmitOrder(f, rows[..|rows| - 1]));
  }

  lemma BufferedAreWaiting(rows: seq<MessageInput>, st: Pairing)
    requires rows != []
    requires var init := rows[..|rows| - 1];
      && st.pending == At(init, Open(init))
      && st.session == if init == [] then None else Some(init[|init| - 1].sessionID)
    ensures Buffered(st, rows[|rows| - 1]) == At(rows, Waiting(rows))
  {
  }

  lemma HandedAreCandidates(f: ScopeFilter, rows: seq<MessageInput>)
    requires rows != []
    ensures Handed(f, At(rows, Waiting(rows)), rows[|rows| - 1]) == At(rows, Candidates(f, rows))
    ensures At(rows, Waiting(rows)) + [rows[|rows| - 1]] == At(rows, Waiting(rows) + [|rows| - 1])
  {
    var n := |rows| - 1;
    assert At(rows, Waiting(rows) + [n]) == At(rows, Waiting(rows)) + [rows[n]];
    assert At(rows, [n]) == [rows[n]];
  }

  /** The buffered turns, just before the last row is read, are the waiting ones. */
  lemma FeedStep(f: ScopeFilter, rows: seq<MessageInput>, st: Pairing)
    requires rows != [] && WellGrouped(rows)
    requires var init := rows[..|rows| - 1];
      && st.pending == At(init, Open(init))
      && st.session == if init == [] then None else Some(init[|init| - 1].sessionID)
    ensures var next := Feed(f, st, rows[|rows| - 1]);
      && next.matched == st.matched + Filter(At(rows, Candidates(f, rows)), f.Admits)
      && next.pending == At(rows, Open(rows))
  {
    BufferedAreWaiting(rows, st);
    HandedAreCandidates(f, rows);
    OpenStep(rows);
  }

  /** The one-pass form computes the matched rows in emit order, and buffers exactly the open turns. */
  lemma {:induction false} ReduceRefinesSpec(f: ScopeFilter, rows: seq<MessageInput>)
    requires WellGrouped(rows)
    ensures Reduce(f, rows).matched == MatchedRows(f, rows)
    ensures Reduce(f, rows).pending == At(rows, Open(rows))
    ensures Reduce(f, rows).session == if rows == [] then None else Some(rows[|rows| - 1].sessionID)
  {
    if rows == [] {
      EmitOrderInRange(f, rows);
      IndicesNone(0, i => IsOpen(rows, i));
    } else {
      var init := rows[..|rows| - 1];
      WellGroupedPrefix(rows, |rows| - 1);
      ReduceRefinesSpec(f, init);
      FeedStep(f, rows, Reduce(f, init));
      MatchedRowsStep(f, rows);
    }
  }
}
