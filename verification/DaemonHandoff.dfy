/**
 How a serving daemon makes itself known: it holds the start lock while it starts, then
 writes a runtime record under its pid, and only after that gives the lock up.

 Processes are born with pids that may have been used before, and may die at any point.
 Other processes probe the start lock by taking it for a moment, and sweep the records of
 dead processes: they list a record, find its process gone or replaced, and remove the
 file at the record's path.
 */
module DaemonHandoff {
  import opened Sequences

  datatype Phase =
    | Booting            // not a daemon, or not one yet
    | Starting           // past MarkDaemonStarting
    | Recorded           // runtime record written
    | Serving            // start lock given up
    | Fallback           // the record could not be written; the start lock is kept
    | Stopping           // shutdown has begun
    | Removed            // own record removed
    | Unmarked

  /** A process: its pid, and whether its MarkDaemonStarting took the lock and its record was written. */
  datatype Process = Process(pid: int, phase: Phase, marked: bool, recorded: bool)

  datatype Holder = ByMark(process: nat) | ByProbe(process: nat)

  /** A sweeper's view: at the path of `pid` it saw the record of process `owner`. */
  datatype Listing = Listing(pid: int, owner: nat)

  datatype Event =
    | Spawn(pid: int)
    | Exit(i: nat)
    | Mark(i: nat, error: bool)
    | WriteRecord(i: nat, ok: bool)
    | Handoff(i: nat)
    | Stop(i: nat)
    | RemoveOwn(i: nat)
    | Unmark(i: nat)
    | Probe(j: nat)
    | EndProbe(j: nat)
    | List(j: nat, pid: int)
    | Sweep(j: nat)

  /** Processes are named by the order of their birth; `records` maps a pid's path to the process that wrote it. */
  datatype State = State(
    live: map<nat, Process>, born: nat, start: Option<Holder>,
    records: map<int, nat>, listings: map<nat, Listing>)

  const INITIAL := State(map[], 0, None, map[], map[])

  predicate At(s: State, i: nat, phase: Phase) {
    i in s.live && s.live[i].phase == phase
  }

  predicate Enabled(s: State, e: Event) {
    match e
    case Spawn(pid) => forall i :: i in s.live ==> s.live[i].pid != pid
    case Exit(i) => i in s.live
    case Mark(i, _) => At(s, i, Booting)
    case WriteRecord(i, _) => At(s, i, Starting)
    case Handoff(i) => At(s, i, Recorded)
    case Stop(i) => At(s, i, Starting) || At(s, i, Serving) || At(s, i, Fallback)
    case RemoveOwn(i) => At(s, i, Stopping)
    case Unmark(i) => At(s, i, Removed)
    case Probe(j) => j in s.live && s.start.None?
    case EndProbe(j) => s.start == Some(ByProbe(j))
    case List(j, pid) => j in s.live && pid in s.records
    case Sweep(j) => j in s.listings && s.listings[j].owner !in s.live
  }

  function Free(start: Option<Holder>, h: Holder): Option<Holder> {
    if start == Some(h) then None else start
  }

  function Apply(s: State, e: Event): State
    requires Enabled(s, e)
  {
    match e
    case Spawn(pid) => s.(live := s.live[s.born := Process(pid, Booting, false, false)], born := s.born + 1)
    case Exit(i) => s.(live := s.live - {i}, listings := s.listings - {i},
                       start := Free(Free(s.start, ByMark(i)), ByProbe(i)))
    case Mark(i, error) =>
      var taken := !error && s.start.None?;
      s.(live := s.live[i := s.live[i].(phase := Starting, marked := taken)],
         start := if taken then Some(ByMark(i)) else s.start)
    case WriteRecord(i, ok) =>
      s.(live := s.live[i := s.live[i].(phase := if ok then Recorded else Fallback, recorded := ok)],
         records := if ok then s.records[s.live[i].pid := i] else s.records)
    case Handoff(i) => s.(live := s.live[i := s.live[i].(phase := Serving)], start := Free(s.start, ByMark(i)))
    case Stop(i) => s.(live := s.live[i := s.live[i].(phase := Stopping)])
    case RemoveOwn(i) => s.(live := s.live[i := s.live[i].(phase := Removed)],
                            records := if s.live[i].recorded then s.records - {s.live[i].pid} else s.records)
    case Unmark(i) => s.(live := s.live[i := s.live[i].(phase := Unmarked)], start := Free(s.start, ByMark(i)))
    case Probe(j) => s.(start := Some(ByProbe(j)))
    case EndProbe(j) => s.(start := None)
    case List(j, pid) => s.(listings := s.listings[j := Listing(pid, s.records[pid])])
    case Sweep(j) => s.(records := s.records - {s.listings[j].pid}, listings := s.listings - {j})
  }

  function After(run: seq<Event>): Option<State> {
    if run == [] then Some(INITIAL)
    else
      var before := After(run[..|run| - 1]);
      if before.Some? && Enabled(before.value, run[|run| - 1]) then Some(Apply(before.value, run[|run| - 1])) else None
  }

  predicate IsRun(run: seq<Event>) {
    After(run).Some?
  }

  predicate KeepsLock(p: Process) {
    p.marked && (p.phase.Starting? || p.phase.Recorded? || p.phase.Fallback?)
  }

  /** A daemon whose start lock was taken holds it until its record is written, or throughout if that fails. */
  predicate LockKept(s: State) {
    && (forall i :: i in s.live && KeepsLock(s.live[i]) ==> s.start == Some(ByMark(i)))
    && (s.start.Some? ==> s.start.value.process in s.live)
    && (s.start.Some? && s.start.value.ByMark? ==>
          s.live[s.start.value.process].marked && !s.live[s.start.value.process].phase.Booting?)
  }

  predicate PidsDiffer(s: State) {
    forall i, j :: i in s.live && j in s.live && s.live[i].pid == s.live[j].pid ==> i == j
  }

  predicate Consistent(s: State) {
    && (forall i :: i in s.live ==> i < s.born)
    && PidsDiffer(s)
    && (forall i :: i in s.live && s.live[i].phase.Booting? ==> !s.live[i].marked)
    && (forall pid :: pid in s.records ==> s.records[pid] < s.born)
    && (forall j :: j in s.listings ==> s.listings[j].owner < s.born)
  }

  lemma PidsDifferStep(s: State, e: Event)
    requires Consistent(s) && Enabled(s, e)
    ensures PidsDiffer(Apply(s, e))
  {
  }

  lemma ConsistentStep(s: State, e: Event)
    requires Consistent(s) && Enabled(s, e)
    ensures Consistent(Apply(s, e))
  {
    PidsDifferStep(s, e);
  }

  lemma HolderKeptStep(s: State, e: Event, i: nat)
    requires Consistent(s) && LockKept(s) && Enabled(s, e)
    requires i in Apply(s, e).live && KeepsLock(Apply(s, e).live[i])
    ensures Apply(s, e).start == Some(ByMark(i))
  {
    if i in s.live && KeepsLock(s.live[i]) { assert s.start == Some(ByMark(i)); }
  }

  lemma LockKeptStep(s: State, e: Event)
    requires Consistent(s) && LockKept(s) && Enabled(s, e)
    ensures LockKept(Apply(s, e))
  {
    forall i | i in Apply(s, e).live && KeepsLock(Apply(s, e).live[i]) ensures Apply(s, e).start == Some(ByMark(i)) {
      HolderKeptStep(s, e, i);
    }
  }

  /**
   In every run, a starting daemon that took the start lock holds it, whatever probers, sweepers and
   deaths there are.
   */
  lemma {:induction false} StartLockIsKept(run: seq<Event>)
    requires IsRun(run)
    ensures Consistent(After(run).value) && LockKept(After(run).value)
  {
    if run != [] {
      StartLockIsKept(run[..|run| - 1]);
      ConsistentStep(After(run[..|run| - 1]).value, run[|run| - 1]);
      LockKeptStep(After(run[..|run| - 1]).value, run[|run| - 1]);
    }
  }

  predicate HasRecord(p: Process) {
    p.phase.Recorded? || p.phase.Serving?
  }

  /** A daemon's record is on disk from its writing until shutdown begins. */
  predicate RecordsKept(s: State) {
    forall i :: i in s.live && HasRecord(s.live[i]) ==> s.live[i].pid in s.records && s.records[s.live[i].pid] == i
  }

  /** A daemon that took the start lock is visible: by the lock or by its record. */
  predicate Visible(s: State, i: nat)
    requires i in s.live
  {
    s.start == Some(ByMark(i)) || (s.live[i].pid in s.records && s.records[s.live[i].pid] == i)
  }

  predicate UpAndRunning(p: Process) {
    p.marked && (p.phase.Starting? || p.phase.Recorded? || p.phase.Serving? || p.phase.Fallback?)
  }

  /** The step sweeps away the record of a live daemon that has not begun to shut down. */
  predicate SweepsLive(s: State, e: Event) {
    && e.Sweep? && e.j in s.listings && s.listings[e.j].pid in s.records
    && var owner := s.records[s.listings[e.j].pid];
       owner in s.live && HasRecord(s.live[owner]) && s.live[owner].pid == s.listings[e.j].pid
  }

  /** Of all steps, exactly those sweeps lose a record. */
  lemma RecordsStep(s: State, e: Event)
    requires Consistent(s) && RecordsKept(s) && Enabled(s, e)
    ensures RecordsKept(Apply(s, e)) <==> !SweepsLive(s, e)
  {
    var next := Apply(s, e);
    if SweepsLive(s, e) {
      var owner := s.records[s.listings[e.j].pid];
      assert owner in next.live && HasRecord(next.live[owner]);
    } else {
      forall i | i in next.live && HasRecord(next.live[i])
        ensures next.live[i].pid in next.records && next.records[next.live[i].pid] == i
      {
        assert i in s.live;
        if e.Sweep? { assert HasRecord(s.live[i]); }
      }
    }
  }

  // ----- Exactly when every daemon is visible -----

  /** Records and listings are of the paths of those who wrote them; a serving daemon has given the start lock up. */
  predicate OwnersMatch(s: State) {
    && (forall j :: j in s.listings && s.listings[j].owner in s.live ==>
       s.live[s.listings[j].owner].pid == s.listings[j].pid)
    && (forall pid :: pid in s.records && s.records[pid] in s.live ==> s.live[s.records[pid]].pid == pid)
  }

  lemma OwnersMatchStep(s: State, e: Event)
    requires Consistent(s) && OwnersMatch(s) && Enabled(s, e)
    ensures OwnersMatch(Apply(s, e))
  {
  }

  predicate ServersGaveUp(s: State) {
    forall i :: i in s.live && s.live[i].phase.Serving? ==> s.start != Some(ByMark(i))
  }

  lemma ServersGaveUpStep(s: State, e: Event)
    requires Consistent(s) && LockKept(s) && ServersGaveUp(s) && Enabled(s, e)
    ensures ServersGaveUp(Apply(s, e))
  {
  }

  lemma {:induction false} RunsKeepOrder(run: seq<Event>)
    requires IsRun(run)
    ensures var s := After(run).value; Consistent(s) && LockKept(s) && OwnersMatch(s) && ServersGaveUp(s)
  {
    StartLockIsKept(run);
    if run != [] {
      RunsKeepOrder(run[..|run| - 1]);
      OwnersMatchStep(After(run[..|run| - 1]).value, run[|run| - 1]);
      ServersGaveUpStep(After(run[..|run| - 1]).value, run[|run| - 1]);
    }
  }

  predicate AllVisible(s: State) {
    forall i :: i in s.live && UpAndRunning(s.live[i]) ==> Visible(s, i)
  }

  ghost predicate AllVisibleAt(run: seq<Event>, n: int)
    requires 0 <= n <= |run|
  {
    After(run[..n]).Some? && AllVisible(After(run[..n]).value)
  }

  predicate HasOwnRecord(s: State, i: nat)
    requires i in s.live
  {
    s.live[i].pid in s.records && s.records[s.live[i].pid] == i
  }

  /**
   The step sweeps a path that has been rewritten since it was listed, by the daemon `w`, which took the
   start lock.
   */
  predicate SweepsRewritten(s: State, e: Event, w: nat) {
    && e.Sweep? && e.j in s.listings && s.listings[e.j].pid in s.records
    && s.records[s.listings[e.j].pid] == w && w != s.listings[e.j].owner
    && w in s.live && s.live[w].marked && HasRecord(s.live[w])
  }

  ghost predicate SweepsRewrittenAt(run: seq<Event>, m: int, w: nat)
    requires 0 <= m < |run|
  {
    After(run[..m]).Some? && SweepsRewritten(After(run[..m]).value, run[m], w)
  }

  ghost predicate ServesAt(run: seq<Event>, m: int, w: nat)
    requires 0 <= m < |run|
  {
    After(run[..m]).Some? && At(After(run[..m]).value, w, Serving)
  }

  /** Step `m` sweeps away what a daemon has written that serves already, or hands off later. */
  ghost predicate HarmfulSweepAt(run: seq<Event>, m: int)
    requires 0 <= m < |run|
  {
    exists w :: SweepsRewrittenAt(run, m, w) && (ServesAt(run, m, w) || HandsOffAfter(run, m, w))
  }

  ghost predicate HandsOffAfter(run: seq<Event>, m: int, w: nat) {
    0 <= m && exists k :: m < k < |run| && run[k] == Handoff(w)
  }

  /** Only a serving daemon without its record is out of sight. */
  lemma VisibleIff(s: State, i: nat)
    requires LockKept(s) && ServersGaveUp(s) && i in s.live && UpAndRunning(s.live[i])
    ensures Visible(s, i) <==> !s.live[i].phase.Serving? || HasOwnRecord(s, i)
  {
  }

  /** A daemon loses its record only by a sweep of the rewritten path. */
  lemma OnlySweepsLose(s: State, e: Event, i: nat)
    requires Consistent(s) && OwnersMatch(s) && Enabled(s, e)
    requires i in Apply(s, e).live && HasRecord(Apply(s, e).live[i]) && Apply(s, e).live[i].marked
    requires !HasOwnRecord(Apply(s, e), i)
    ensures i in s.live && HasRecord(s.live[i]) && s.live[i].marked
    ensures HasOwnRecord(s, i) ==> SweepsRewritten(s, e, i) && Apply(s, e).live[i].phase == s.live[i].phase
    ensures Apply(s, e).live[i].phase.Serving? ==> s.live[i].phase.Serving? || e == Handoff(i)
  {
  }

  lemma SweptInLonger(run: seq<Event>, n: int, m: int, w: nat)
    requires 0 <= m < n <= |run|
    ensures SweepsRewrittenAt(run[..n], m, w) == SweepsRewrittenAt(run, m, w)
    ensures ServesAt(run[..n], m, w) == ServesAt(run, m, w)
    ensures HandsOffAfter(run[..n], m, w) ==> HandsOffAfter(run, m, w)
  {
    assert run[..n][..m] == run[..m];
    if HandsOffAfter(run[..n], m, w) {
      var k :| m < k < n && run[..n][k] == Handoff(w);
      assert run[k] == Handoff(w);
    }
  }

  /** A daemon without its record has had it swept away, and has handed off since if it serves now. */
  lemma {:induction false} LostRecordWasSwept(run: seq<Event>, i: nat) returns (m: int)
    requires IsRun(run)
    requires var s := After(run).value; i in s.live && HasRecord(s.live[i]) && s.live[i].marked && !HasOwnRecord(s, i)
    ensures 0 <= m < |run| && SweepsRewrittenAt(run, m, i)
    ensures At(After(run).value, i, Serving) ==> ServesAt(run, m, i) || HandsOffAfter(run, m, i)
  {
    var n := |run| - 1;
    var init := run[..n];
    RunsKeepOrder(init);
    var s := After(init).value;
    OnlySweepsLose(s, run[n], i);
    if HasOwnRecord(s, i) {
      m := n;
    } else {
      m := LostRecordWasSwept(init, i);
      SweptInLonger(run, n, m, i);
      if run[n] == Handoff(i) { assert HandsOffAfter(run, m, i); }
    }
  }

  /** Past its writing, a lost record is lost for good. */
  predicate LostForGood(s: State, w: nat) {
    w in s.live ==> s.live[w].marked && !s.live[w].phase.Booting? && !s.live[w].phase.Starting? && !HasOwnRecord(s, w)
  }

  lemma LostStep(s: State, e: Event, w: nat)
    requires Consistent(s) && Enabled(s, e) && LostForGood(s, w) && w < s.born
    ensures LostForGood(Apply(s, e), w) && w < Apply(s, e).born
  {
  }

  lemma SweptIsLost(s: State, e: Event, w: nat)
    requires Consistent(s) && OwnersMatch(s) && Enabled(s, e) && SweepsRewritten(s, e, w)
    ensures LostForGood(Apply(s, e), w) && w < Apply(s, e).born && w in Apply(s, e).live
    ensures Apply(s, e).live[w] == s.live[w]
  {
  }

  lemma {:induction false} StaysLost(run: seq<Event>, m: int, w: nat)
    requires IsRun(run) && 0 <= m < |run| && SweepsRewrittenAt(run, m, w)
    ensures LostForGood(After(run).value, w) && w < After(run).value.born
  {
    var n := |run| - 1;
    RunsKeepOrder(run[..n]);
    if m == n {
      SweptIsLost(After(run[..n]).value, run[n], w);
    } else {
      SweptInLonger(run, n, m, w);
      StaysLost(run[..n], m, w);
      LostStep(After(run[..n]).value, run[n], w);
    }
  }

  lemma {:induction false} PrefixIsRun(run: seq<Event>, n: int)
    requires IsRun(run) && 0 <= n <= |run|
    ensures IsRun(run[..n])
  {
    if n == |run| {
      assert run[..n] == run;
    } else {
      assert run[..|run| - 1][..n] == run[..n];
      PrefixIsRun(run[..|run| - 1], n);
    }
  }

  /** A daemon whose record was swept away is out of sight as soon as it serves. */
  lemma ServesUnseen(run: seq<Event>, n: int, m: int, w: nat)
    requires IsRun(run) && 0 <= m < n <= |run| && SweepsRewrittenAt(run, m, w)
    requires IsRun(run[..n]) && At(After(run[..n]).value, w, Serving)
    ensures !AllVisibleAt(run, n)
  {
    SweptInLonger(run, n, m, w);
    StaysLost(run[..n], m, w);
    RunsKeepOrder(run[..n]);
    VisibleIff(After(run[..n]).value, w);
  }

  lemma ServerUnseen(run: seq<Event>, m: int, w: nat)
    requires IsRun(run) && 0 <= m < |run| && SweepsRewrittenAt(run, m, w) && ServesAt(run, m, w)
    ensures !AllVisibleAt(run, m + 1)
  {
    PrefixIsRun(run, m + 1);
    assert run[..m + 1][..m] == run[..m];
    RunsKeepOrder(run[..m]);
    SweptIsLost(After(run[..m]).value, run[m], w);
    ServesUnseen(run, m + 1, m, w);
  }

  lemma HandoffUnseen(run: seq<Event>, m: int, w: nat, k: int)
    requires IsRun(run) && 0 <= m < k < |run| && SweepsRewrittenAt(run, m, w) && run[k] == Handoff(w)
    ensures !AllVisibleAt(run, k + 1)
  {
    PrefixIsRun(run, k + 1);
    assert run[..k + 1][..k] == run[..k];
    ServesUnseen(run, k + 1, m, w);
  }

  lemma HarmMeansUnseen(run: seq<Event>, m: int, w: nat) returns (n: int)
    requires IsRun(run) && 0 <= m < |run| && SweepsRewrittenAt(run, m, w)
    requires ServesAt(run, m, w) || HandsOffAfter(run, m, w)
    ensures 0 <= n <= |run| && !AllVisibleAt(run, n)
  {
    if ServesAt(run, m, w) {
      n := m + 1;
      ServerUnseen(run, m, w);
    } else {
      var k :| m < k < |run| && run[k] == Handoff(w);
      n := k + 1;
      HandoffUnseen(run, m, w, k);
    }
  }

  lemma UnseenMeansHarm(run: seq<Event>, n: int) returns (m: int)
    requires IsRun(run) && 0 <= n <= |run| && !AllVisibleAt(run, n)
    ensures 0 <= m < |run| && HarmfulSweepAt(run, m)
  {
    PrefixIsRun(run, n);
    RunsKeepOrder(run[..n]);
    var s := After(run[..n]).value;
    var i :| i in s.live && UpAndRunning(s.live[i]) && !Visible(s, i);
    VisibleIff(s, i);
    m := LostRecordWasSwept(run[..n], i);
    SweptInLonger(run, n, m, i);
  }

  /**
   Every daemon that took the start lock is visible throughout a run, until it begins to shut down,
   exactly if no sweep hits a path that such a daemon has rewritten since it was listed, and the
   daemon serves already or hands off later in the run.
   */
  lemma VisibleIffNoHarmfulSweep(run: seq<Event>)
    requires IsRun(run)
    ensures (forall n :: 0 <= n <= |run| ==> AllVisibleAt(run, n))
            <==> forall m :: 0 <= m < |run| ==> !HarmfulSweepAt(run, m)
  {
    if n :| 0 <= n <= |run| && !AllVisibleAt(run, n) {
      var m := UnseenMeansHarm(run, n);
    }
    if m :| 0 <= m < |run| && HarmfulSweepAt(run, m) {
      var w :| SweepsRewrittenAt(run, m, w) && (ServesAt(run, m, w) || HandsOffAfter(run, m, w));
      var n := HarmMeansUnseen(run, m, w);
    }
  }

  // ----- When the handoff has no gap -----

  /** Nobody's stale listing is of the path that process `i` is about to write. */
  predicate PathUnlisted(s: State, i: nat)
    requires i in s.live
  {
    forall j :: j in s.listings ==> s.listings[j].pid != s.live[i].pid || s.listings[j].owner in s.live
  }

  ghost predicate WritesUnlisted(run: seq<Event>) {
    forall n :: 0 <= n < |run| ==> WriteUnlistedAt(run, n)
  }

  ghost predicate WriteUnlistedAt(run: seq<Event>, n: int)
    requires 0 <= n < |run|
  {
    (run[n].WriteRecord? && run[n].ok && After(run[..n]).Some? && run[n].i in After(run[..n]).value.live)
    ==> PathUnlisted(After(run[..n]).value, run[n].i)
  }

  /** No listing that will be swept is of a live daemon's path. */
  predicate ListingsHarmless(s: State) {
    forall i, j :: i in s.live && HasRecord(s.live[i]) && j in s.listings && s.listings[j].pid == s.live[i].pid
      ==> s.listings[j].owner in s.live
  }

  lemma HarmlessStep(s: State, e: Event)
    requires Consistent(s) && OwnersMatch(s) && RecordsKept(s) && ListingsHarmless(s) && Enabled(s, e)
    requires e.WriteRecord? && e.ok ==> PathUnlisted(s, e.i)
    ensures ListingsHarmless(Apply(s, e)) && !SweepsLive(s, e)
  {
    var next := Apply(s, e);
    forall i, j | i in next.live && HasRecord(next.live[i]) && j in next.listings
      && next.listings[j].pid == next.live[i].pid
      ensures next.listings[j].owner in next.live
    {
      assert i in s.live;
      if j in s.listings && s.listings[j] == next.listings[j] && HasRecord(s.live[i]) {
        assert s.listings[j].owner in s.live;
        assert s.live[s.listings[j].owner].pid == s.live[i].pid;
      }
    }
  }

  lemma KeptMeansVisible(s: State)
    requires LockKept(s) && RecordsKept(s)
    ensures forall i :: i in s.live && UpAndRunning(s.live[i]) ==> Visible(s, i)
  {
  }

  lemma {:induction false} UnlistedRecordsAreKept(run: seq<Event>)
    requires IsRun(run) && WritesUnlisted(run)
    ensures var s := After(run).value; RecordsKept(s) && ListingsHarmless(s) && OwnersMatch(s)
  {
    if run != [] {
      var init, n := run[..|run| - 1], |run| - 1;
      forall k | 0 <= k < n ensures WriteUnlistedAt(init, k) {
        assert WriteUnlistedAt(run, k) && init[..k] == run[..k];
      }
      UnlistedRecordsAreKept(init);
      StartLockIsKept(init);
      assert WriteUnlistedAt(run, n) && run[..n] == init;
      UnlistedStep(After(init).value, run[n]);
    }
  }

  lemma UnlistedStep(s: State, e: Event)
    requires Consistent(s) && OwnersMatch(s) && RecordsKept(s) && ListingsHarmless(s) && Enabled(s, e)
    requires e.WriteRecord? && e.ok ==> PathUnlisted(s, e.i)
    ensures var next := Apply(s, e); RecordsKept(next) && ListingsHarmless(next) && OwnersMatch(next)
  {
    OwnersMatchStep(s, e);
    HarmlessStep(s, e);
    RecordsStep(s, e);
  }

  /**
   If no record is written to a path that some sweeper has listed for a dead process, a daemon
   that took the start lock is visible at every instant until its shutdown begins.
   */
  lemma HandoffHasNoGap(run: seq<Event>, i: nat)
    requires IsRun(run) && WritesUnlisted(run)
    requires i in After(run).value.live && UpAndRunning(After(run).value.live[i])
    ensures Visible(After(run).value, i)
  {
    StartLockIsKept(run);
    UnlistedRecordsAreKept(run);
    KeptMeansVisible(After(run).value);
  }

  // ----- The condition is needed -----

  lemma Grow(run: seq<Event>, s: State, e: Event) returns (longer: seq<Event>, next: State)
    requires After(run) == Some(s) && Enabled(s, e)
    ensures longer == run + [e] && next == Apply(s, e) && After(longer) == Some(next)
  {
    longer, next := run + [e], Apply(s, e);
    assert longer[..|run|] == run;
  }

  /** A daemon has crashed and left its record; a sweeper has listed it. */
  lemma CrashedAndListed() returns (run: seq<Event>, s: State)
    ensures After(run) == Some(s)
    ensures s == State(map[1 := Process(8, Booting, false, false)], 2, None, map[7 := 0], map[1 := Listing(7, 0)])
  {
    run, s := [], INITIAL;
    run, s := Grow(run, s, Spawn(7));
    run, s := Grow(run, s, Spawn(8));
    run, s := Grow(run, s, Mark(0, false));
    run, s := Grow(run, s, WriteRecord(0, true));
    run, s := Grow(run, s, Exit(0));
    run, s := Grow(run, s, List(1, 7));
    assert s.live == map[1 := Process(8, Booting, false, false)];
  }

  /**
   Before the sweeper acts, a new daemon is born with the crashed one's pid, and writes its
   record to the listed path. The sweep removes it, and the daemon serves unseen.
   */
  lemma ReusedPidIsSweptAway() returns (run: seq<Event>)
    ensures IsRun(run)
    ensures var s := After(run).value; 2 in s.live && UpAndRunning(s.live[2]) && !Visible(s, 2)
  {
    var s;
    run, s := CrashedAndListed();
    run, s := Grow(run, s, Spawn(7));
    run, s := Grow(run, s, Mark(2, false));
    run, s := Grow(run, s, WriteRecord(2, true));
    run, s := Grow(run, s, Handoff(2));
    run, s := Grow(run, s, Sweep(1));
  }

  /** A daemon that dies while starting leaves no start lock behind. */
  lemma DeathFreesTheStartLock(run: seq<Event>, i: nat)
    requires IsRun(run) && i in After(run).value.live
    ensures IsRun(run + [Exit(i)])
    ensures var s := After(run + [Exit(i)]).value;
            s.start.Some? ==> s.start.value.process != i && s.start.value.process in s.live
  {
    assert (run + [Exit(i)])[..|run|] == run;
    StartLockIsKept(run);
    StartLockIsKept(run + [Exit(i)]);
  }
}
