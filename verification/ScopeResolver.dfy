/**
 Resolving a model-filtered request: session ids are deduplicated, queried in chunks,
 and every chunk is reduced by a reducer of its own. What comes out per session is the
 same as from one reducer over all rows.
 */
module ScopeResolver {
  import opened Sequences
  import opened MessageScope
  import opened ScopeReducers

  /** At most this many ids are bound in one query. */
  const MAX_SQL_VARS: nat := 500

  function RowsOf(rows: seq<MessageInput>, id: string): seq<MessageInput> {
    Filter(rows, (row: MessageInput) => row.sessionID == id)
  }

  function MessagesOf(messages: seq<ScopedMessage>, id: string): seq<ScopedMessage> {
    Filter(messages, (message: ScopedMessage) => message.sessionID == id)
  }

  // ----- Session locality -----

  lemma WellGroupedInit(rows: seq<MessageInput>)
    requires rows != [] && WellGrouped(rows)
    ensures WellGrouped(rows[..|rows| - 1]) && Continues(rows[..|rows| - 1], rows[|rows| - 1])
  {
    assert rows == rows[..|rows| - 1] + [rows[|rows| - 1]];
    ContinuesIsNecessary(rows[..|rows| - 1], rows[|rows| - 1]);
  }

  lemma RowsOfStep(rows: seq<MessageInput>, id: string)
    requires rows != []
    ensures var init, last := rows[..|rows| - 1], rows[|rows| - 1];
      RowsOf(rows, id) == if last.sessionID == id then RowsOf(init, id) + [last] else RowsOf(init, id)
  {
  }

  /** The rows of one session, taken out of a well-grouped stream, are well grouped and end where the session does. */
  lemma {:induction false} RowsOfWellGrouped(rows: seq<MessageInput>, id: string)
    requires WellGrouped(rows)
    ensures WellGrouped(RowsOf(rows, id))
    ensures rows != [] && rows[|rows| - 1].sessionID == id
            ==> RowsOf(rows, id) != [] && RowsOf(rows, id)[|RowsOf(rows, id)| - 1] == rows[|rows| - 1]
  {
    if rows != [] {
      var init, last := rows[..|rows| - 1], rows[|rows| - 1];
      WellGroupedInit(rows);
      RowsOfWellGrouped(init, id);
      RowsOfStep(rows, id);
      if last.sessionID == id {
        ContinuesInSession(init, last);
        ContinuesIsSufficient(RowsOf(init, id), last);
      }
    }
  }

  /** If a row may follow a stream, it may follow the part of the stream that is of its own session. */
  lemma ContinuesInSession(rows: seq<MessageInput>, row: MessageInput)
    requires WellGrouped(rows) && Continues(rows, row)
    requires rows != [] && rows[|rows| - 1].sessionID == row.sessionID
             ==> RowsOf(rows, row.sessionID) != []
                 && RowsOf(rows, row.sessionID)[|RowsOf(rows, row.sessionID)| - 1] == rows[|rows| - 1]
    ensures Continues(RowsOf(rows, row.sessionID), row)
    ensures (rows == [] || rows[|rows| - 1].sessionID != row.sessionID) ==> RowsOf(rows, row.sessionID) == []
  {
    if rows == [] || rows[|rows| - 1].sessionID != row.sessionID { RowsOfAbsent(rows, row.sessionID); }
  }

  lemma RowsOfAbsent(rows: seq<MessageInput>, id: string)
    requires id !in Sessions(rows)
    ensures RowsOf(rows, id) == []
  {
    assert forall row :: row in rows ==> row.sessionID in Sessions(rows);
    FilterAll(rows, (row: MessageInput) => row.sessionID == id);
  }

  /** What the arrival of `row` hands on, when `waiting` are the turns it may answer. */
  function Added(f: ScopeFilter, waiting: seq<MessageInput>, row: MessageInput): seq<MessageInput> {
    Filter(Handed(f, waiting, row), f.Admits)
  }

  lemma BufferedIsOfSession(f: ScopeFilter, rows: seq<MessageInput>, row: MessageInput)
    requires WellGrouped(rows)
    ensures forall r :: r in Buffered(Reduce(f, rows), row) ==> r.sessionID == row.sessionID
  {
    var waiting := Buffered(Reduce(f, rows), row);
    ReduceRefinesSpec(f, rows);
    IndicesMembers(|rows|, i => IsOpen(rows, i));
    forall r | r in waiting ensures r.sessionID == row.sessionID {
      var k :| 0 <= k < |waiting| && waiting[k] == r;
      assert Open(rows)[k] in Open(rows);
    }
  }

  lemma AddedOfSession(f: ScopeFilter, waiting: seq<MessageInput>, row: MessageInput, id: string)
    requires forall r :: r in waiting ==> r.sessionID == row.sessionID
    ensures RowsOf(Added(f, waiting, row), id) == if row.sessionID == id then Added(f, waiting, row) else []
  {
    FilterMembers(Handed(f, waiting, row), f.Admits);
    FilterAll(Added(f, waiting, row), (r: MessageInput) => r.sessionID == id);
  }

  /** The turns buffered for a row are the same if only the row's own session has been read. */
  lemma BufferedIsLocal(f: ScopeFilter, rows: seq<MessageInput>, row: MessageInput)
    requires WellGrouped(rows) && Continues(rows, row)
    requires rows != [] && rows[|rows| - 1].sessionID == row.sessionID
             ==> Reduce(f, rows).pending == Reduce(f, RowsOf(rows, row.sessionID)).pending
    ensures Buffered(Reduce(f, rows), row) == Buffered(Reduce(f, RowsOf(rows, row.sessionID)), row)
  {
    RowsOfWellGrouped(rows, row.sessionID);
    ContinuesInSession(rows, row);
    ReduceRefinesSpec(f, rows);
    ReduceRefinesSpec(f, RowsOf(rows, row.sessionID));
  }

  /** The one-pass form works session by session: the rows of other sessions make no difference. */
  lemma {:induction false} ReduceIsLocal(f: ScopeFilter, rows: seq<MessageInput>, id: string)
    requires WellGrouped(rows)
    ensures RowsOf(Reduce(f, rows).matched, id) == Reduce(f, RowsOf(rows, id)).matched
    ensures rows != [] && rows[|rows| - 1].sessionID == id
            ==> Reduce(f, rows).pending == Reduce(f, RowsOf(rows, id)).pending
  {
    if rows != [] {
      var init, last := rows[..|rows| - 1], rows[|rows| - 1];
      WellGroupedInit(rows);
      ReduceIsLocal(f, init, id);
      var st := Reduce(f, init);
      var waiting := Buffered(st, last);
      BufferedIsOfSession(f, init, last);
      AddedOfSession(f, waiting, last, id);
      FilterAppend(st.matched, Added(f, waiting, last), (row: MessageInput) => row.sessionID == id);
      RowsOfStep(rows, id);
      if last.sessionID == id {
        BufferedIsLocal(f, init, last);
        assert RowsOf(rows, id)[..|RowsOf(rows, id)| - 1] == RowsOf(init, id);
      }
    }
  }

  /** What a stream emits for a session is what the session's own rows emit. */
  lemma EmitsIsLocal(f: ScopeFilter, rows: seq<MessageInput>, id: string)
    requires WellGrouped(rows)
    ensures MessagesOf(Emits(f, rows), id) == Emits(f, RowsOf(rows, id))
  {
    RowsOfWellGrouped(rows, id);
    ReduceIsLocal(f, rows, id);
    ReduceRefinesSpec(f, rows);
    ReduceRefinesSpec(f, RowsOf(rows, id));
    FilterMap(MatchedRows(f, rows), ScopedFrom,
              (message: ScopedMessage) => message.sessionID == id, (row: MessageInput) => row.sessionID == id);
  }

  // ----- Deduplication and chunks -----

  /** The first occurrences of `ids`, in order. */
  function FirstOccurrences(ids: seq<string>): seq<string> {
    if ids == [] then []
    else FirstOccurrences(ids[..|ids| - 1]) + (if ids[|ids| - 1] in ids[..|ids| - 1] then [] else [ids[|ids| - 1]])
  }

  lemma {:induction false} FirstOccurrencesAreDistinct(ids: seq<string>)
    ensures Distinct(FirstOccurrences(ids))
    ensures forall id :: id in FirstOccurrences(ids) <==> id in ids
  {
    if ids != [] {
      assert ids == ids[..|ids| - 1] + [ids[|ids| - 1]];
      FirstOccurrencesAreDistinct(ids[..|ids| - 1]);
    }
  }

  method Dedupe(ids: seq<string>) returns (unique: seq<string>)
    ensures unique == FirstOccurrences(ids)
  {
    var seen: set<string> := {};
    unique := [];
    for k := 0 to |ids|
      invariant seen == set id | id in ids[..k]
      invariant unique == FirstOccurrences(ids[..k])
    {
      assert ids[..k + 1][..k] == ids[..k];
      assert ids[..k + 1] == ids[..k] + [ids[k]];
      if ids[k] in seen { continue; }
      seen := seen + {ids[k]};
      unique := unique + [ids[k]];
    }
    assert ids[..|ids|] == ids;
  }

  /** `ids` cut into pieces of the bind limit, the last one shorter. */
  function Chunks(ids: seq<string>): seq<seq<string>> {
    if ids == [] then []
    else if |ids| <= MAX_SQL_VARS then [ids]
    else [ids[..MAX_SQL_VARS]] + Chunks(ids[MAX_SQL_VARS..])
  }

  /** Everything that the chunks emit, chunk after chunk. */
  ghost function EmitsOfChunks(f: ScopeFilter, chunks: seq<seq<string>>,
          query: seq<string> -> seq<MessageInput>): seq<ScopedMessage>
  {
    if chunks == [] then [] else Emits(f, query(chunks[0])) + EmitsOfChunks(f, chunks[1..], query)
  }

  // ----- Resolution -----

  /** Matched messages by session; a session without any has no entry. */
  ghost function BySession(messages: seq<ScopedMessage>): map<string, seq<ScopedMessage>> {
    map message | message in messages :: message.sessionID := MessagesOf(messages, message.sessionID)
  }

  datatype Resolution =
    | Unscoped                                                // no model filter: the caller keeps its own path
    | Refused                                                 // a query returned rows that are not grouped
    | Scoped(bySession: map<string, seq<ScopedMessage>>)

  class MessageCollector {
    var bySession: map<string, seq<ScopedMessage>>
    ghost var collected: seq<ScopedMessage>

    ghost predicate Valid()
      reads this
    {
      bySession == BySession(collected)
    }

    constructor ()
      ensures Valid() && collected == []
    {
      bySession, collected := map[], [];
    }

    /** The reducers' callback: appends a message to its session. */
    method Emit(message: ScopedMessage)
      requires Valid()
      modifies this
      ensures Valid() && collected == old(collected) + [message]
    {
      var id := message.sessionID;
      bySession := bySession[id := (if id in bySession then bySession[id] else []) + [message]];
      CollectOne(collected, message);
      collected := collected + [message];
    }

    method EmitAll(messages: seq<ScopedMessage>)
      requires Valid()
      modifies this
      ensures Valid() && collected == old(collected) + messages
    {
      for k := 0 to |messages|
        invariant Valid() && collected == old(collected) + messages[..k]
      {
        Emit(messages[k]);
      }
      assert messages[..|messages|] == messages;
    }
  }

  lemma MessagesOfAppend(messages: seq<ScopedMessage>, message: ScopedMessage, id: string)
    ensures MessagesOf(messages + [message], id)
            == MessagesOf(messages, id) + (if message.sessionID == id then [message] else [])
  {
    FilterAppend(messages, [message], (m: ScopedMessage) => m.sessionID == id);
    FilterOne(message, (m: ScopedMessage) => m.sessionID == id);
  }

  lemma CollectOne(messages: seq<ScopedMessage>, message: ScopedMessage)
    ensures var groups, id := BySession(messages), message.sessionID;
      BySession(messages + [message]) == groups[id := (if id in groups then groups[id] else []) + [message]]
  {
    var groups, next, id := BySession(messages), BySession(messages + [message]), message.sessionID;
    BySessionEntries(messages);
    BySessionEntries(messages + [message]);
    var expected := groups[id := (if id in groups then groups[id] else []) + [message]];
    forall other ensures other in next <==> other in expected
                 ensures other in next ==> next[other] == expected[other]
    {
      MessagesOfAppend(messages, message, other);
    }
    SameEntries(next, expected);
  }

  lemma SameEntries<T>(a: map<string, T>, b: map<string, T>)
    requires forall key :: key in a <==> key in b
    requires forall key :: key in a ==> a[key] == b[key]
    ensures a == b
  {
  }

  lemma BySessionEntries(messages: seq<ScopedMessage>)
    ensures forall id :: id in BySession(messages) <==> MessagesOf(messages, id) != []
    ensures forall id :: id in BySession(messages) ==> BySession(messages)[id] == MessagesOf(messages, id)
  {
    forall id ensures id in BySession(messages) <==> MessagesOf(messages, id) != [] {
      var own := MessagesOf(messages, id);
      FilterMembers(messages, (message: ScopedMessage) => message.sessionID == id);
      if own != [] { assert own[0] in own; }
    }
  }

  /** Pushes one row, and collects what it hands on. */
  method PushInto(reducer: ScopeReducer, row: MessageInput, collector: MessageCollector)
    returns (accepted: bool, ghost out: seq<ScopedMessage>)
    requires reducer.Valid() && collector.Valid()
    modifies reducer, collector
    ensures reducer.Valid() && collector.Valid()
    ensures accepted <==> WellGrouped(old(reducer.history) + [row])
    ensures accepted ==>
      && reducer.history == old(reducer.history) + [row]
      && Emits(reducer.filter, reducer.history) == Emits(reducer.filter, old(reducer.history)) + out
      && collector.collected == old(collector.collected) + out
  {
    var messages;
    accepted, messages := reducer.Push(row);
    out := messages;
    if accepted { collector.EmitAll(messages); }
  }

  /** Reduces one chunk's rows into the collector, up to the first row that breaks the grouping. */
  method ReduceChunk(f: ScopeFilter, rows: seq<MessageInput>, collector: MessageCollector) returns (ok: bool)
    requires collector.Valid()
    modifies collector
    ensures collector.Valid()
    ensures ok <==> WellGrouped(rows)
    ensures ok ==> collector.collected == old(collector.collected) + Emits(f, rows)
  {
    var reducer := new ScopeReducer(f);
    NothingEmitted(f);
    for k := 0 to |rows|
      invariant fresh(reducer) && reducer.Valid() && reducer.filter == f && reducer.history == rows[..k]
      invariant collector.Valid() && collector.collected == old(collector.collected) + Emits(f, rows[..k])
    {
      assert rows[..k + 1] == rows[..k] + [rows[k]];
      ghost var before := Emits(f, rows[..k]);
      var accepted, out := PushInto(reducer, rows[k], collector);
      if !accepted {
        if WellGrouped(rows) { WellGroupedPrefix(rows, k + 1); }
        return false;
      }
      AppendAssociates(old(collector.collected), before, out);
    }
    assert rows[..|rows|] == rows;
    ok := true;
  }

  lemma NothingEmitted(f: ScopeFilter)
    ensures Emits(f, []) == []
  {
    EmitOrderInRange(f, []);
  }

  /** Every chunk's query returns grouped rows. */
  ghost predicate AllGrouped(chunks: seq<seq<string>>, query: seq<string> -> seq<MessageInput>) {
    chunks == [] || (WellGrouped(query(chunks[0])) && AllGrouped(chunks[1..], query))
  }

  /** Reduces the rows of every chunk of `unique` into the collector, each chunk with a reducer of its own. */
  method ReduceChunks(f: ScopeFilter, unique: seq<string>, query: seq<string> -> seq<MessageInput>,
          collector: MessageCollector)
    returns (ok: bool)
    requires collector.Valid() && collector.collected == []
    modifies collector
    ensures collector.Valid()
    ensures ok <==> AllGrouped(Chunks(unique), query)
    ensures ok ==> collector.collected == EmitsOfChunks(f, Chunks(unique), query)
  {
    ChunksFromEnds(f, unique, query);
    var i := 0;
    while i < |unique|
      invariant 0 <= i && collector.Valid()
      invariant AllGrouped(ChunksFrom(unique, 0), query) == AllGrouped(ChunksFrom(unique, i), query)
      invariant EmitsOfChunks(f, ChunksFrom(unique, 0), query)
                == collector.collected + EmitsOfChunks(f, ChunksFrom(unique, i), query)
    {
      ok := ReduceOneChunk(f, unique, query, i, collector);
      if !ok { return; }
      i := i + MAX_SQL_VARS;
    }
    ok := true;
  }

  /** Queries and reduces the chunk that starts at `i`. */
  method ReduceOneChunk(f: ScopeFilter, unique: seq<string>, query: seq<string> -> seq<MessageInput>, i: nat,
          collector: MessageCollector)
    returns (ok: bool)
    requires i < |unique| && collector.Valid()
    modifies collector
    ensures collector.Valid()
    ensures AllGrouped(ChunksFrom(unique, i), query) == (ok && AllGrouped(ChunksFrom(unique, i + MAX_SQL_VARS), query))
    ensures ok ==> old(collector.collected) + EmitsOfChunks(f, ChunksFrom(unique, i), query)
                   == collector.collected + EmitsOfChunks(f, ChunksFrom(unique, i + MAX_SQL_VARS), query)
  {
    var end := if i + MAX_SQL_VARS < |unique| then i + MAX_SQL_VARS else |unique|;
    var rows := query(unique[i..end]);
    ChunkStep(f, unique, query, i);
    AppendAssociates(collector.collected, Emits(f, rows),
      EmitsOfChunks(f, ChunksFrom(unique, i + MAX_SQL_VARS), query));
    ok := ReduceChunk(f, rows, collector);
  }

  /** The chunks that start at or after `i`. */
  ghost function ChunksFrom(ids: seq<string>, i: nat): seq<seq<string>> {
    if i < |ids| then Chunks(ids[i..]) else []
  }

  lemma ChunksFromEnds(f: ScopeFilter, ids: seq<string>, query: seq<string> -> seq<MessageInput>)
    ensures ChunksFrom(ids, 0) == Chunks(ids)
    ensures forall i: nat :: i >= |ids| ==> ChunksFrom(ids, i) == []
    ensures AllGrouped([], query) && EmitsOfChunks(f, [], query) == []
  {
    assert ids[0..] == ids;
  }

  lemma ChunkStep(f: ScopeFilter, ids: seq<string>, query: seq<string> -> seq<MessageInput>, i: nat)
    requires i < |ids|
    ensures var chunk := ids[i..if i + MAX_SQL_VARS < |ids| then i + MAX_SQL_VARS else |ids|];
      && AllGrouped(ChunksFrom(ids, i), query)
         == (WellGrouped(query(chunk)) && AllGrouped(ChunksFrom(ids, i + MAX_SQL_VARS), query))
      && EmitsOfChunks(f, ChunksFrom(ids, i), query)
         == Emits(f, query(chunk)) + EmitsOfChunks(f, ChunksFrom(ids, i + MAX_SQL_VARS), query)
  {
    var end := if i + MAX_SQL_VARS < |ids| then i + MAX_SQL_VARS else |ids|;
    var chunks, next := ChunksFrom(ids, i), ChunksFrom(ids, i + MAX_SQL_VARS);
    assert end < |ids| ==> ids[i..][MAX_SQL_VARS..] == ids[end..];
    assert chunks[0] == ids[i..end];
    assert chunks[1..] == next;
  }

  /** Resolves a request over an arbitrary query. */
  method Resolve(hasModel: bool, f: ScopeFilter, ids: seq<string>, query: seq<string> -> seq<MessageInput>)
    returns (resolution: Resolution)
    ensures resolution.Unscoped? <==> !hasModel
    ensures resolution.Refused? <==> hasModel && !AllGrouped(Chunks(FirstOccurrences(ids)), query)
    ensures resolution.Scoped? ==>
              resolution.bySession == BySession(EmitsOfChunks(f, Chunks(FirstOccurrences(ids)), query))
  {
    if !hasModel { return Unscoped; }
    var unique := Dedupe(ids);
    var collector := new MessageCollector();
    var ok := ReduceChunks(f, unique, query, collector);
    return if ok then Scoped(collector.bySession) else Refused;
  }

  // ----- Chunking makes no difference -----

  /** The rows of a query for `ids` over a table: grouped, and each session's rows in table order. */
  ghost predicate Answers(rows: seq<MessageInput>, ids: seq<string>, table: string -> seq<MessageInput>) {
    && WellGrouped(rows)
    && (forall row :: row in rows ==> row.sessionID in ids)
    && (forall id :: id in ids ==> RowsOf(rows, id) == table(id))
  }

  lemma AnswerEmits(f: ScopeFilter, rows: seq<MessageInput>, ids: seq<string>, table: string -> seq<MessageInput>,
          id: string)
    requires Answers(rows, ids, table)
    ensures MessagesOf(Emits(f, rows), id) == if id in ids then Emits(f, table(id)) else []
  {
    EmitsIsLocal(f, rows, id);
    if id !in ids {
      RowsOfAbsent(rows, id);
      EmitOrderInRange(f, []);
    }
  }

  lemma {:induction false} ChunksEmit(f: ScopeFilter, ids: seq<string>, query: seq<string> -> seq<MessageInput>,
                                      table: string -> seq<MessageInput>, id: string)
    requires Distinct(ids)
    requires forall chunk :: chunk in Chunks(ids) ==> Answers(query(chunk), chunk, table)
    ensures MessagesOf(EmitsOfChunks(f, Chunks(ids), query), id) == if id in ids then Emits(f, table(id)) else []
    decreases |ids|
  {
    if ids != [] {
      var chunks := Chunks(ids);
      var head, rest := chunks[0], if |ids| <= MAX_SQL_VARS then [] else ids[MAX_SQL_VARS..];
      assert ids == head + rest;
      assert Chunks(rest) == chunks[1..];
      assert id in head ==> id !in rest;
      ChunksEmit(f, rest, query, table, id);
      AnswerEmits(f, query(head), head, table, id);
      FilterAppend(Emits(f, query(head)), EmitsOfChunks(f, Chunks(rest), query),
                   (message: ScopedMessage) => message.sessionID == id);
    }
  }

  /**
   Per session, a chunked resolution gives what one reducer over all rows of the request
   gives, which is what the session's own rows give.
   */
  lemma ChunkingIsInvisible(f: ScopeFilter, ids: seq<string>, query: seq<string> -> seq<MessageInput>,
                            table: string -> seq<MessageInput>, all: seq<MessageInput>)
    requires forall chunk :: chunk in Chunks(FirstOccurrences(ids)) ==> Answers(query(chunk), chunk, table)
    requires Answers(all, ids, table)
    ensures var bySession := BySession(EmitsOfChunks(f, Chunks(FirstOccurrences(ids)), query));
      && bySession == BySession(Emits(f, all))
      && forall id :: (id in bySession <==> id in ids && Emits(f, table(id)) != [])
                      && (id in bySession ==> bySession[id] == Emits(f, table(id)))
  {
    var unique := FirstOccurrences(ids);
    FirstOccurrencesAreDistinct(ids);
    var chunked, whole := EmitsOfChunks(f, Chunks(unique), query), Emits(f, all);
    forall id ensures MessagesOf(chunked, id) == (if id in ids then Emits(f, table(id)) else [])
              ensures MessagesOf(whole, id) == (if id in ids then Emits(f, table(id)) else [])
    {
      ChunksEmit(f, unique, query, table, id);
      AnswerEmits(f, all, ids, table, id);
    }
    BySessionEntries(chunked);
    BySessionEntries(whole);
  }
}
