/** The streaming reducer: rows are pushed one at a time, and matched rows are handed on as soon as they are known. */
module ScopeReducers {
  import opened Sequences
  import opened MessageScope

  ghost function Sessions(rows: seq<MessageInput>): set<string> {
    set row | row in rows :: row.sessionID
  }

  /** When one more row keeps a stream well grouped, told from its last row and the sessions already seen. */
  ghost predicate Continues(rows: seq<MessageInput>, row: MessageInput) {
    || rows == []
    || (var last := rows[|rows| - 1];
        if row.sessionID == last.sessionID then last.ordinal <= row.ordinal else row.sessionID !in Sessions(rows))
  }

  lemma ContinuesIsNecessary(rows: seq<MessageInput>, row: MessageInput)
    requires WellGrouped(rows + [row])
    ensures WellGrouped(rows) && Continues(rows, row)
  {
    var all, n := rows + [row], |rows|;
    WellGroupedPrefix(all, n);
    assert all[..n] == rows;
    if rows != [] {
      assert rows[n - 1].sessionID == row.sessionID ==> SameSession(all, n - 1, n);
      if i :| 0 <= i < n && rows[i].sessionID == row.sessionID {
        assert SameSession(all, i, n);
        assert i < n - 1 ==> SameSession(all, i, n - 1);
      }
    }
  }

  lemma ContinuesIsSufficient(rows: seq<MessageInput>, row: MessageInput)
    requires WellGrouped(rows) && Continues(rows, row)
    ensures WellGrouped(rows + [row])
  {
    var all, n := rows + [row], |rows|;
    forall i, k | 0 <= i < k <= n && SameSession(all, i, k)
      ensures all[i].ordinal <= all[k].ordinal
      ensures forall j :: i < j < k ==> SameSession(all, i, j)
    {
      var last := if k < n then k else n - 1;
      assert k == n ==> rows[i].sessionID in Sessions(rows);
      assert SameSession(rows, i, last);
      forall j | i < j < k ensures SameSession(all, i, j) {
        assert SameSession(rows, i, j);
      }
    }
  }

  class ScopeReducer {
    const filter: ScopeFilter
    var session: string
    var lastOrd: int
    var started: bool
    var pending: seq<ScopedMessage>
    var seen: set<string>
    /** The rows accepted so far. */
    ghost var history: seq<MessageInput>

    ghost predicate Valid()
      reads this
    {
      && Tracks()
      && pending == Map(Reduce(filter, history).pending, ScopedFrom)
    }

    /** The grouping state agrees with the accepted rows. */
    ghost predicate Tracks()
      reads this
    {
      && WellGrouped(history)
      && started == (history != [])
      && (started ==> session == history[|history| - 1].sessionID && lastOrd == history[|history| - 1].ordinal)
      && seen == Sessions(history) - (if started then {session} else {})
    }

    constructor (f: ScopeFilter)
      ensures Valid() && filter == f && history == []
    {
      filter := f;
      session, lastOrd, started, pending, seen := "", 0, false, [], {};
      history := [];
    }

    /**
     Feeds one candidate row; `out` are the rows handed on by this call. The row is
     refused, and nothing changes, exactly when it breaks the grouping of the stream.
     */
    method Push(row: MessageInput) returns (ok: bool, out: seq<ScopedMessage>)
      requires Valid()
      modifies this
      ensures Valid()
      ensures ok <==> WellGrouped(old(history) + [row])
      ensures ok ==> history == old(history) + [row]
      ensures ok ==> Emits(filter, history) == Emits(filter, old(history)) + out
      ensures !ok ==> out == [] && unchanged(this)
    {
      ghost var waiting := Buffered(Reduce(filter, history), row);
      ReduceRefinesSpec(filter, history);
      ok := Enter(row);
      if !ok { return false, []; }
      out := Pair(row, waiting);
      assert history[..|history| - 1] == old(history);
      EmitsStep(filter, old(history), row);
    }

    /** The grouping check, and the move to the row's session, whose buffer starts empty. */
    method Enter(row: MessageInput) returns (ok: bool)
      requires Tracks()
      modifies this
      ensures ok <==> WellGrouped(old(history) + [row])
      ensures ok ==> Tracks() && history == old(history) + [row]
      ensures ok ==>
        pending == if old(started) && old(session) != row.sessionID then [] else old(pending)
      ensures !ok ==> unchanged(this)
    {
      if WellGrouped(history + [row]) { ContinuesIsNecessary(history, row); }
      if !started {
        started := true;
        session := row.sessionID;
      } else if row.sessionID == session {
        if row.ordinal < lastOrd { return false; }
      } else {
        if row.sessionID in seen { return false; }
        seen := seen + {session};
        session := row.sessionID;
        pending := [];
      }
      lastOrd := row.ordinal;
      ContinuesIsSufficient(history, row);
      assert Sessions(history + [row]) == Sessions(history) + {row.sessionID};
      history := history + [row];
      ok := true;
    }

    /** Buffers a prompt turn, or decides the row and the turns it answers. */
    method Pair(row: MessageInput, ghost waiting: seq<MessageInput>) returns (out: seq<ScopedMessage>)
      requires pending == Map(waiting, ScopedFrom)
      modifies this`pending
      ensures pending == Map(Kept(waiting, row), ScopedFrom)
      ensures out == Map(Filter(Handed(filter, waiting, row), filter.Admits), ScopedFrom)
    {
      var scoped := ScopedFrom(row);
      if row.role == "user" && !row.isSystem && row.model == "" {
        pending := pending + [scoped];
        return [];
      }
      var selected := row.model in filter.models;
      if row.role == "assistant" {
        if selected {
          EmittedRows(waiting, row);
          var flushed := Flush();
          var own := AppendMatched(scoped);
          return flushed + own;
        }
        pending := [];
      } else if selected {
        EmittedRows([], row);
        out := AppendMatched(scoped);
        return;
      }
      return [];
    }

    /** Hands on the buffered turns that meet the day and hour targets, and empties the buffer. */
    method Flush() returns (out: seq<ScopedMessage>)
      modifies this`pending
      ensures pending == [] && out == Filter(old(pending), filter.AdmitsScoped)
    {
      out := [];
      var k := 0;
      while k < |pending|
        invariant 0 <= k <= |pending| && pending == old(pending)
        invariant out == Filter(pending[..k], filter.AdmitsScoped)
      {
        assert pending[..k + 1][..k] == pending[..k];
        var one := AppendMatched(pending[k]);
        out := out + one;
        k := k + 1;
      }
      assert pending[..k] == pending;
      pending := [];
    }

    method AppendMatched(row: ScopedMessage) returns (out: seq<ScopedMessage>)
      ensures out == if filter.AdmitsScoped(row) then [row] else []
    {
      if !filter.MatchesDayHour(row.localTime, row.hasLocalTime) { return []; }
      return [row];
    }

    /** Filtering the scoped copies is the same as copying the filtered rows. */
    lemma EmittedRows(waiting: seq<MessageInput>, row: MessageInput)
      ensures Filter(Map(waiting, ScopedFrom), filter.AdmitsScoped)
              + (if filter.AdmitsScoped(ScopedFrom(row)) then [ScopedFrom(row)] else [])
              == Map(Filter(waiting + [row], filter.Admits), ScopedFrom)
    {
      FilterAppend(waiting, [row], filter.Admits);
      FilterOne(row, filter.Admits);
      FilterMap(waiting, ScopedFrom, filter.AdmitsScoped, filter.Admits);
    }
  }

  lemma EmitsStep(f: ScopeFilter, rows: seq<MessageInput>, row: MessageInput)
    requires WellGrouped(rows) && WellGrouped(rows + [row])
    ensures Emits(f, rows + [row])
            == Emits(f, rows) + Map(Filter(Handed(f, Buffered(Reduce(f, rows), row), row), f.Admits), ScopedFrom)
  {
    assert (rows + [row])[..|rows|] == rows;
    ReduceRefinesSpec(f, rows);
    ReduceRefinesSpec(f, rows + [row]);
  }
}
