/**
 The single-flight pid file of the background workers: created exclusively, holding the
 pid of its owner, and reclaimed by a contender that finds the recorded process dead.

 Contenders in any number of processes interleave; processes are born and die at any
 point, pids may be used again, and the file may hold anything at the beginning.
 */
module PidLock {
  import opened Sequences

  datatype Content = Empty | Unparseable | Pid(pid: int)

  /** The lock file, and the contender that created it, if one did. */
  datatype LockFile = LockFile(owner: Option<nat>, content: Content)

  datatype Phase =
    | Trying
    | Created                // the file exists, its pid is not written yet
    | Holding
    | Reading                // the file existed
    | Judging(recorded: int, from: Option<nat>) // read a pid, in the file `from` created; its liveness is not known yet
    | Reclaiming(from: Option<nat>)             // judged it dead
    | Retrying
    | Refused
    | Released

  datatype Contender = Contender(pid: int, phase: Phase)

  datatype Event =
    | Born(pid: int)
    | Die(pid: int)
    | Begin(pid: int)
    | Create(c: nat)
    | WritePid(c: nat, ok: bool)
    | Read(c: nat)
    | Judge(c: nat)
    | Remove(c: nat, ok: bool)
    | Retry(c: nat)
    | Fail(c: nat)           // an unexpected error of the first create or of the read
    | Release(c: nat)

  datatype State = State(file: Option<LockFile>, alive: set<int>, contenders: map<nat, Contender>, begun: nat)

  function Initial(left: Option<Content>): State {
    State(if left.None? then None else Some(LockFile(None, left.value)), {}, map[], 0)
  }

  predicate At(s: State, c: nat, phase: Phase) {
    c in s.contenders && s.contenders[c].phase == phase
  }

  predicate Enabled(s: State, e: Event) {
    match e
    case Born(pid) => pid > 0 && pid !in s.alive
    case Die(pid) => pid in s.alive
    case Begin(pid) => pid in s.alive
    case Create(c) => At(s, c, Trying)
    case WritePid(c, _) => At(s, c, Created)
    case Read(c) => At(s, c, Reading)
    case Judge(c) => c in s.contenders && s.contenders[c].phase.Judging?
    case Remove(c, _) => c in s.contenders && s.contenders[c].phase.Reclaiming?
    case Retry(c) => At(s, c, Retrying)
    case Fail(c) => At(s, c, Trying) || At(s, c, Reading)
    case Release(c) => At(s, c, Holding)
  }

  function Move(s: State, c: nat, phase: Phase): State
    requires c in s.contenders
  {
    s.(contenders := s.contenders[c := s.contenders[c].(phase := phase)])
  }

  function Apply(s: State, e: Event): State
    requires Enabled(s, e)
  {
    match e
    case Born(pid) => s.(alive := s.alive + {pid})
    case Die(pid) => s.(alive := s.alive - {pid},
                        contenders := map c | c in s.contenders && s.contenders[c].pid != pid :: s.contenders[c])
    case Begin(pid) => s.(contenders := s.contenders[s.begun := Contender(pid, Trying)], begun := s.begun + 1)
    case Create(c) =>
      if s.file.None? then Move(s, c, Created).(file := Some(LockFile(Some(c), Empty))) else Move(s, c, Reading)
    case WritePid(c, ok) =>
      // The write goes to the file this contender created, whether or not it is still the lock file.
      var own := ok && s.file.Some? && s.file.value.owner == Some(c);
      Move(s, c, Holding).(file := if own then Some(LockFile(Some(c), Pid(s.contenders[c].pid))) else s.file)
    case Read(c) =>
      Move(s, c, if s.file.Some? && s.file.value.content.Pid? && s.file.value.content.pid > 0
                 then Judging(s.file.value.content.pid, s.file.value.owner) else Refused)
    case Judge(c) =>
      Move(s, c, if s.contenders[c].phase.recorded in s.alive then Refused else Reclaiming(s.contenders[c].phase.from))
    case Remove(c, ok) => Move(s, c, Retrying).(file := if ok then None else s.file)
    case Retry(c) =>
      if s.file.None? then Move(s, c, Created).(file := Some(LockFile(Some(c), Empty))) else Move(s, c, Refused)
    case Fail(c) => Move(s, c, Refused)
    case Release(c) => Move(s, c, Released).(file := None)
  }

  function After(left: Option<Content>, run: seq<Event>): Option<State> {
    if run == [] then Some(Initial(left))
    else
      var before := After(left, run[..|run| - 1]);
      if before.Some? && Enabled(before.value, run[|run| - 1]) then Some(Apply(before.value, run[|run| - 1])) else None
  }

  predicate IsRun(left: Option<Content>, run: seq<Event>) {
    After(left, run).Some?
  }

  /** A live contender that was told it has the lock, or is about to be. */
  predicate Owns(s: State, c: nat) {
    c in s.contenders && (s.contenders[c].phase.Created? || s.contenders[c].phase.Holding?)
  }

  /** Every owner's file is the lock file; so there is at most one owner. */
  predicate Exclusive(s: State) {
    forall c :: c in s.contenders && Owns(s, c) ==> s.file.Some? && s.file.value.owner == Some(c)
  }

  /** The step removes, as stale, a lock file whose owner is alive. */
  predicate Steals(s: State, e: Event) {
    && e.Remove? && e.ok
    && s.file.Some? && s.file.value.owner.Some? && Owns(s, s.file.value.owner.value)
  }

  /** The book-keeping that every run keeps: ids are fresh, contenders' processes are alive. */
  predicate Consistent(s: State) {
    && (forall c :: c in s.contenders ==> c < s.begun && s.contenders[c].pid in s.alive)
    && (s.file.Some? && s.file.value.owner.Some? ==> s.file.value.owner.value < s.begun)
    && (forall pid :: pid in s.alive ==> pid > 0)
  }

  lemma ConsistentStep(s: State, e: Event)
    requires Consistent(s) && Enabled(s, e)
    ensures Consistent(Apply(s, e))
  {
  }

  lemma {:induction false} RunsAreConsistent(left: Option<Content>, run: seq<Event>)
    requires IsRun(left, run)
    ensures Consistent(After(left, run).value)
  {
    if run != [] {
      RunsAreConsistent(left, run[..|run| - 1]);
      ConsistentStep(After(left, run[..|run| - 1]).value, run[|run| - 1]);
    }
  }

  /** Of all steps, exactly the thefts break exclusiveness. */
  lemma ExclusiveStep(s: State, e: Event)
    requires Consistent(s) && Exclusive(s) && Enabled(s, e)
    ensures Exclusive(Apply(s, e)) <==> !Steals(s, e)
  {
    var next := Apply(s, e);
    if Steals(s, e) {
      assert Owns(next, s.file.value.owner.value);
    } else {
      forall c | c in next.contenders && Owns(next, c) ensures next.file.Some? && next.file.value.owner == Some(c) {
        if c in s.contenders && Owns(s, c) { assert s.file.value.owner == Some(c); }
      }
    }
  }

  ghost predicate AlwaysExclusive(left: Option<Content>, run: seq<Event>) {
    forall n :: 0 <= n <= |run| ==> ExclusiveAt(left, run, n)
  }

  ghost predicate ExclusiveAt(left: Option<Content>, run: seq<Event>, n: int)
    requires 0 <= n <= |run|
  {
    After(left, run[..n]).Some? && Exclusive(After(left, run[..n]).value)
  }

  lemma ExclusiveByPrefix(left: Option<Content>, run: seq<Event>)
    requires run != []
    ensures AlwaysExclusive(left, run) <==> AlwaysExclusive(left, run[..|run| - 1]) && ExclusiveAt(left, run, |run|)
  {
    var init, n := run[..|run| - 1], |run| - 1;
    forall k | 0 <= k <= n ensures ExclusiveAt(left, run, k) == ExclusiveAt(left, init, k) {
      assert init[..k] == run[..k];
    }
  }

  // ----- When there is at most one owner -----

  predicate AtMostOne(s: State) {
    forall c, c' :: c in s.contenders && c' in s.contenders && Owns(s, c) && Owns(s, c') ==> c == c'
  }

  ghost predicate AtMostOneAt(left: Option<Content>, run: seq<Event>, n: int)
    requires 0 <= n <= |run|
  {
    After(left, run[..n]).Some? && AtMostOne(After(left, run[..n]).value)
  }

  ghost predicate AlwaysAtMostOne(left: Option<Content>, run: seq<Event>) {
    forall n :: 0 <= n <= |run| ==> AtMostOneAt(left, run, n)
  }

  lemma ExclusiveMeansOne(s: State)
    requires Exclusive(s)
    ensures AtMostOne(s)
  {
  }

  /**
   The step removes a file that is no longer the one its contender read, and that `o`, which is alive,
   has created.
   */
  predicate Robs(s: State, e: Event, o: nat) {
    && e.Remove? && e.ok && e.c in s.contenders && s.contenders[e.c].phase.Reclaiming?
    && s.file.Some? && s.file.value.owner == Some(o) && o in s.contenders && s.contenders[e.c].phase.from != Some(o)
  }

  /** The step creates a lock file. */
  predicate Creates(s: State, e: Event) {
    (e.Create? || e.Retry?) && s.file.None?
  }

  /** The step ends the ownership of `o`: its release, or the death of its process. */
  predicate GivesUp(s: State, e: Event, o: nat) {
    e == Release(o) || (e.Die? && o in s.contenders && e.pid == s.contenders[o].pid)
  }

  ghost predicate RobsAt(left: Option<Content>, run: seq<Event>, m: int, o: nat)
    requires 0 <= m < |run|
  {
    After(left, run[..m]).Some? && Robs(After(left, run[..m]).value, run[m], o)
  }

  ghost predicate CreatesAt(left: Option<Content>, run: seq<Event>, n: int)
    requires 0 <= n < |run|
  {
    After(left, run[..n]).Some? && Creates(After(left, run[..n]).value, run[n])
  }

  ghost predicate GivesUpAt(left: Option<Content>, run: seq<Event>, k: int, o: nat)
    requires 0 <= k < |run|
  {
    After(left, run[..k]).Some? && GivesUp(After(left, run[..k]).value, run[k], o)
  }

  /** `o` is robbed of its file at step `m` and has not given up since. */
  ghost predicate StandsRobbed(left: Option<Content>, run: seq<Event>, m: int, o: nat) {
    0 <= m < |run| && RobsAt(left, run, m, o) && forall k :: m < k < |run| ==> !GivesUpAt(left, run, k, o)
  }

  /** A file is created at step `n` while somebody stands robbed. */
  ghost predicate ClashAt(left: Option<Content>, run: seq<Event>, n: int) {
    0 <= n < |run| && CreatesAt(left, run, n) && exists m, o :: StandsRobbed(left, run[..n], m, o)
  }

  /** What a contender knows of the creator of the file it has read, and a file of its creator. */
  predicate KnowsCreators(s: State) {
    && (s.file.Some? && s.file.value.owner.Some? ==> IsCreatorOf(s, s.file.value.owner.value, s.file.value.content))
    && forall c :: c in s.contenders ==> KnowsCreator(s, s.contenders[c].phase)
  }

  predicate KnowsCreator(s: State, phase: Phase) {
    && (phase.Judging? && phase.from.Some? ==> HasPid(s, phase.from.value, phase.recorded))
    && (phase.Reclaiming? && phase.from.Some? ==> phase.from.value < s.begun && phase.from.value !in s.contenders)
  }

  predicate IsCreatorOf(s: State, o: nat, content: Content) {
    o in s.contenders ==> Owns(s, o) && (content.Pid? ==> content.pid == s.contenders[o].pid)
  }

  predicate HasPid(s: State, o: nat, pid: int) {
    o < s.begun && (o in s.contenders ==> s.contenders[o].pid == pid)
  }

  lemma FileCreatorStep(s: State, e: Event)
    requires Consistent(s) && KnowsCreators(s) && Enabled(s, e)
    ensures var f := Apply(s, e).file;
            f.Some? && f.value.owner.Some? ==> IsCreatorOf(Apply(s, e), f.value.owner.value, f.value.content)
  {
  }

  lemma KnowsCreatorStep(s: State, e: Event, c: nat)
    requires Consistent(s) && KnowsCreators(s) && Enabled(s, e) && c in Apply(s, e).contenders
    ensures KnowsCreator(Apply(s, e), Apply(s, e).contenders[c].phase)
  {
    if c in s.contenders { assert KnowsCreator(s, s.contenders[c].phase); }
  }

  lemma KnowsCreatorsStep(s: State, e: Event)
    requires Consistent(s) && KnowsCreators(s) && Enabled(s, e)
    ensures KnowsCreators(Apply(s, e))
  {
    FileCreatorStep(s, e);
    forall c | c in Apply(s, e).contenders ensures KnowsCreator(Apply(s, e), Apply(s, e).contenders[c].phase) {
      KnowsCreatorStep(s, e, c);
    }
  }

  lemma {:induction false} RunsKnowCreators(left: Option<Content>, run: seq<Event>)
    requires IsRun(left, run)
    ensures Consistent(After(left, run).value) && KnowsCreators(After(left, run).value)
  {
    RunsAreConsistent(left, run);
    if run != [] {
      RunsKnowCreators(left, run[..|run| - 1]);
      KnowsCreatorsStep(After(left, run[..|run| - 1]).value, run[|run| - 1]);
    }
  }

  predicate HasFile(s: State, o: nat) {
    s.file.Some? && s.file.value.owner == Some(o)
  }

  /** A sole owner loses its file only by being robbed. */
  lemma OnlyRobberyTakesFiles(s: State, e: Event, o: nat)
    requires Consistent(s) && KnowsCreators(s) && AtMostOne(s) && Enabled(s, e)
    requires Owns(Apply(s, e), o) && !HasFile(Apply(s, e), o)
    ensures Owns(s, o) && (HasFile(s, o) ==> Robs(s, e, o)) && !GivesUp(s, e, o)
  {
  }

  lemma PrefixAt(left: Option<Content>, run: seq<Event>, n: int, k: int)
    requires 0 <= k < n <= |run|
    ensures run[..n][..k] == run[..k] && run[..n][k] == run[k]
  {
  }

  lemma StandsOneLonger(left: Option<Content>, run: seq<Event>, m: int, o: nat)
    requires run != [] && StandsRobbed(left, run[..|run| - 1], m, o) && !GivesUpAt(left, run, |run| - 1, o)
    ensures StandsRobbed(left, run, m, o)
  {
    var n := |run| - 1;
    PrefixAt(left, run, n, m);
    forall k | m < k < |run| ensures !GivesUpAt(left, run, k, o) {
      if k < n { PrefixAt(left, run, n, k); assert !GivesUpAt(left, run[..n], k, o); }
    }
  }

  lemma EarlierAtMostOne(left: Option<Content>, run: seq<Event>, init: seq<Event>)
    requires run != [] && init == run[..|run| - 1] && forall n :: 0 <= n < |run| ==> AtMostOneAt(left, run, n)
    ensures IsRun(left, init) && AtMostOne(After(left, init).value)
    ensures forall k :: 0 <= k < |init| ==> AtMostOneAt(left, init, k)
  {
    var n := |run| - 1;
    assert AtMostOneAt(left, run, n);
    forall k | 0 <= k < n ensures AtMostOneAt(left, init, k) {
      PrefixAt(left, run, n, k);
      assert AtMostOneAt(left, run, k);
    }
  }

  /** As long as there has been at most one owner, an owner without the lock file stands robbed. */
  lemma {:induction false} FilelessOwnerWasRobbed(left: Option<Content>, run: seq<Event>, o: nat) returns (m: int)
    requires IsRun(left, run) && Owns(After(left, run).value, o) && !HasFile(After(left, run).value, o)
    requires forall n :: 0 <= n < |run| ==> AtMostOneAt(left, run, n)
    ensures StandsRobbed(left, run, m, o)
  {
    var n := |run| - 1;
    var init := run[..n];
    EarlierAtMostOne(left, run, init);
    RunsKnowCreators(left, init);
    OnlyRobberyTakesFiles(After(left, init).value, run[n], o);
    if HasFile(After(left, init).value, o) {
      m := n;
    } else {
      m := FilelessOwnerWasRobbed(left, init, o);
      StandsOneLonger(left, run, m, o);
    }
  }

  /** Of all steps, only a create can add an owner. */
  lemma OnlyCreatesAdd(s: State, e: Event)
    requires Consistent(s) && AtMostOne(s) && Enabled(s, e) && !AtMostOne(Apply(s, e))
    ensures Creates(s, e) && exists o :: o in s.contenders && Owns(s, o)
  {
  }

  lemma RobbedOwns(s: State, e: Event, o: nat)
    requires KnowsCreators(s) && Enabled(s, e) && Robs(s, e, o)
    ensures Owns(Apply(s, e), o)
  {
  }

  lemma OwnsOn(s: State, e: Event, o: nat)
    requires Consistent(s) && Enabled(s, e) && Owns(s, o) && !GivesUp(s, e, o)
    ensures Owns(Apply(s, e), o)
  {
  }

  lemma {:induction false} RobbedStillOwns(left: Option<Content>, run: seq<Event>, m: int, o: nat)
    requires IsRun(left, run) && StandsRobbed(left, run, m, o)
    ensures Owns(After(left, run).value, o)
  {
    var n := |run| - 1;
    var init := run[..n];
    RunsKnowCreators(left, init);
    if m == n {
      RobbedOwns(After(left, init).value, run[n], o);
    } else {
      assert !GivesUpAt(left, run, n, o);
      PrefixAt(left, run, n, m);
      forall k | m < k < n ensures !GivesUpAt(left, init, k, o) {
        PrefixAt(left, run, n, k);
        assert !GivesUpAt(left, run, k, o);
      }
      RobbedStillOwns(left, init, m, o);
      OwnsOn(After(left, init).value, run[n], o);
    }
  }

  lemma SecondOwnerMeansClash(left: Option<Content>, run: seq<Event>)
    requires IsRun(left, run) && run != [] && forall n :: 0 <= n < |run| ==> AtMostOneAt(left, run, n)
    requires !AtMostOne(After(left, run).value)
    ensures ClashAt(left, run, |run| - 1)
  {
    var init := run[..|run| - 1];
    var s := After(left, init).value;
    EarlierAtMostOne(left, run, init);
    RunsKnowCreators(left, init);
    OnlyCreatesAdd(s, run[|run| - 1]);
    var o :| o in s.contenders && Owns(s, o);
    var m := FilelessOwnerWasRobbed(left, init, o);
  }

  lemma ClashMeansSecondOwner(left: Option<Content>, run: seq<Event>)
    requires IsRun(left, run) && ClashAt(left, run, |run| - 1)
    ensures !AtMostOne(After(left, run).value)
  {
    var init := run[..|run| - 1];
    var m, o :| StandsRobbed(left, init, m, o);
    RobbedStillOwns(left, init, m, o);
    CreateAddsOwner(After(left, init).value, run[|run| - 1], o);
  }

  lemma CreateAddsOwner(s: State, e: Event, o: nat)
    requires Enabled(s, e) && Creates(s, e) && Owns(s, o)
    ensures !AtMostOne(Apply(s, e))
  {
    assert Owns(Apply(s, e), e.c) && Owns(Apply(s, e), o);
  }

  /**
   There is at most one owner throughout a run exactly if no file is created while an owner stands
   robbed: some contender has removed that owner's file, which was no longer the file it had read,
   and the owner has neither released nor died since.
   */
  lemma {:induction false} AtMostOneIffNoClash(left: Option<Content>, run: seq<Event>)
    requires IsRun(left, run)
    ensures AlwaysAtMostOne(left, run) <==> forall n :: 0 <= n < |run| ==> !ClashAt(left, run, n)
  {
    if run == [] {
      assert run[..0] == run;
    } else {
      var init, n := run[..|run| - 1], |run| - 1;
      AtMostOneIffNoClash(left, init);
      forall k | 0 <= k <= n ensures AtMostOneAt(left, run, k) == AtMostOneAt(left, init, k) {
        assert init[..k] == run[..k];
      }
      forall k | 0 <= k < n ensures ClashAt(left, run, k) == ClashAt(left, init, k) {
        PrefixAt(left, run, n, k);
      }
      if AlwaysAtMostOne(left, init) {
        assert run[..|run|] == run;
        forall k | 0 <= k <= n ensures AtMostOneAt(left, run, k) { assert AtMostOneAt(left, init, k); }
        if !AtMostOne(After(left, run).value) { SecondOwnerMeansClash(left, run); }
        if ClashAt(left, run, n) { ClashMeansSecondOwner(left, run); assert !AtMostOneAt(left, run, |run|); }
      } else {
        var k :| 0 <= k < n && ClashAt(left, init, k);
        var j :| 0 <= j <= n && !AtMostOneAt(left, init, j);
        assert ClashAt(left, run, k) && !AtMostOneAt(left, run, j);
      }
    }
  }

  // ----- When reclaiming is safe -----

  /** The step replaces, removes or creates the lock file. */
  predicate ChangesFile(s: State, e: Event)
    requires Enabled(s, e)
  {
    Apply(s, e).file != s.file
  }

  /** Contender `c` has read a pid and has not yet removed the file. */
  predicate InSection(s: State, c: nat) {
    c in s.contenders && (s.contenders[c].phase.Judging? || s.contenders[c].phase.Reclaiming?)
  }

  /** While a contender is between its read and its removal, nobody else touches the file. */
  ghost predicate SectionsUndisturbed(left: Option<Content>, run: seq<Event>) {
    forall n, c :: 0 <= n < |run| ==> !DisturbedAt(left, run, n, c)
  }

  ghost predicate DisturbedAt(left: Option<Content>, run: seq<Event>, n: int, c: nat)
    requires 0 <= n < |run|
  {
    && After(left, run[..n]).Some? && Enabled(After(left, run[..n]).value, run[n])
    && InSection(After(left, run[..n]).value, c)
    && run[n] != Remove(c, true)
    && ChangesFile(After(left, run[..n]).value, run[n])
  }

  /** What a contender in its section knows as long as it is undisturbed. */
  predicate SectionKnows(s: State) {
    && (forall c :: c in s.contenders ==> PhaseKnows(s, s.contenders[c].phase))
    && (s.file.Some? && s.file.value.owner.Some? && s.file.value.content.Pid? && Owns(s, s.file.value.owner.value) ==>
          s.file.value.content.pid == s.contenders[s.file.value.owner.value].pid)
  }

  predicate PhaseKnows(s: State, phase: Phase) {
    && (phase.Judging? ==> s.file.Some? && s.file.value.content == Pid(phase.recorded))
    && (phase.Reclaiming? ==> s.file.Some? && OwnerGone(s))
  }

  predicate OwnerGone(s: State)
    requires s.file.Some?
  {
    s.file.value.content.Pid? && (s.file.value.owner.Some? ==> !Owns(s, s.file.value.owner.value))
  }

  predicate Undisturbed(s: State, e: Event)
    requires Enabled(s, e)
  {
    forall c :: c in s.contenders && InSection(s, c) && e != Remove(c, true) ==> !ChangesFile(s, e)
  }

  lemma PhaseKnowsStep(s: State, e: Event, c: nat)
    requires Consistent(s) && Exclusive(s) && SectionKnows(s) && Enabled(s, e) && Undisturbed(s, e)
    requires c in Apply(s, e).contenders
    ensures PhaseKnows(Apply(s, e), Apply(s, e).contenders[c].phase)
  {
    if c in s.contenders {
      assert PhaseKnows(s, s.contenders[c].phase);
      if InSection(s, c) && e != Remove(c, true) { assert !ChangesFile(s, e); }
    }
  }

  lemma SectionStep(s: State, e: Event)
    requires Consistent(s) && Exclusive(s) && SectionKnows(s) && Enabled(s, e) && Undisturbed(s, e)
    ensures SectionKnows(Apply(s, e)) && !Steals(s, e)
  {
    forall c | c in Apply(s, e).contenders ensures PhaseKnows(Apply(s, e), Apply(s, e).contenders[c].phase) {
      PhaseKnowsStep(s, e, c);
    }
    if e.Remove? { assert PhaseKnows(s, s.contenders[e.c].phase); }
  }

  lemma UndisturbedByPrefix(left: Option<Content>, run: seq<Event>)
    requires run != [] && SectionsUndisturbed(left, run) && IsRun(left, run)
    ensures SectionsUndisturbed(left, run[..|run| - 1])
    ensures Undisturbed(After(left, run[..|run| - 1]).value, run[|run| - 1])
  {
    var init, n := run[..|run| - 1], |run| - 1;
    forall k, c | 0 <= k < n ensures !DisturbedAt(left, init, k, c) {
      assert init[..k] == run[..k] && !DisturbedAt(left, run, k, c);
    }
    var s := After(left, init).value;
    forall c | c in s.contenders && InSection(s, c) && run[n] != Remove(c, true) ensures !ChangesFile(s, run[n]) {
      assert !DisturbedAt(left, run, n, c);
    }
  }

  /** If reclaim sections are undisturbed, every owner's file stays the lock file, and there is at most one owner. */
  lemma {:induction false} UndisturbedIsExclusive(left: Option<Content>, run: seq<Event>)
    requires IsRun(left, run) && SectionsUndisturbed(left, run)
    ensures AlwaysExclusive(left, run) && AlwaysAtMostOne(left, run) && SectionKnows(After(left, run).value)
  {
    if run == [] {
      assert run[..0] == run;
    } else {
      var init, n := run[..|run| - 1], |run| - 1;
      UndisturbedByPrefix(left, run);
      UndisturbedIsExclusive(left, init);
      RunsAreConsistent(left, init);
      assert ExclusiveAt(left, init, n) && init[..n] == init && run[..|run|] == run;
      SectionStep(After(left, init).value, run[n]);
      ExclusiveStep(After(left, init).value, run[n]);
      ExclusiveByPrefix(left, run);
    }
    forall k | 0 <= k <= |run| ensures AtMostOneAt(left, run, k) {
      assert ExclusiveAt(left, run, k);
      ExclusiveMeansOne(After(left, run[..k]).value);
    }
  }

  // ----- The condition is needed -----

  lemma Grow(left: Option<Content>, run: seq<Event>, s: State, e: Event) returns (longer: seq<Event>, next: State)
    requires After(left, run) == Some(s) && Enabled(s, e)
    ensures longer == run + [e] && next == Apply(s, e) && After(left, longer) == Some(next)
    ensures Readers(longer) == Readers(run) + (if e.Read? then {e.c} else {})
  {
    longer, next := run + [e], Apply(s, e);
    assert longer[..|run|] == run;
  }

  lemma BothBegin() returns (run: seq<Event>, s: State)
    ensures After(Some(Pid(9)), run) == Some(s)
    ensures s
            == State(Some(LockFile(None, Pid(9))), {1}, map[0 := Contender(1, Reading), 1 := Contender(1, Reading)], 2)
  {
    var left := Some(Pid(9));
    s, run := Initial(left), [];
    run, s := Grow(left, run, s, Born(1));
    run, s := Grow(left, run, s, Begin(1));
    run, s := Grow(left, run, s, Begin(1));
    run, s := Grow(left, run, s, Create(0));
    run, s := Grow(left, run, s, Create(1));
  }

  /** Two contenders in one process have judged the same stale file dead. */
  lemma BothJudge() returns (run: seq<Event>, s: State)
    ensures After(Some(Pid(9)), run) == Some(s)
    ensures s == State(Some(LockFile(None, Pid(9))), {1},
                       map[0 := Contender(1, Reclaiming(None)), 1 := Contender(1, Reclaiming(None))], 2)
  {
    var left := Some(Pid(9));
    run, s := BothBegin();
    run, s := Grow(left, run, s, Read(0));
    run, s := Grow(left, run, s, Read(1));
    run, s := Grow(left, run, s, Judge(0));
    run, s := Grow(left, run, s, Judge(1));
  }

  /** Two contenders judge the same stale file dead; the second removes what the first has created. */
  lemma TwoReclaimersBothHold() returns (run: seq<Event>)
    ensures IsRun(Some(Pid(9)), run)
    ensures Owns(After(Some(Pid(9)), run).value, 0) && Owns(After(Some(Pid(9)), run).value, 1)
  {
    var left := Some(Pid(9));
    var s;
    run, s := BothJudge();
    run, s := Grow(left, run, s, Remove(0, true));
    run, s := Grow(left, run, s, Retry(0));
    run, s := Grow(left, run, s, Remove(1, true));
    run, s := Grow(left, run, s, Retry(1));
  }

  /** The contenders that read the file of another. */
  function Readers(run: seq<Event>): set<nat> {
    if run == [] then {}
    else Readers(run[..|run| - 1]) + (if run[|run| - 1].Read? then {run[|run| - 1].c} else {})
  }

  /** Only contenders that have read the file are ever in a reclaim section. */
  lemma {:induction false} SectionsBeginWithRead(left: Option<Content>, run: seq<Event>, n: nat, c: nat)
    requires n <= |run| && IsRun(left, run[..n]) && InSection(After(left, run[..n]).value, c)
    ensures c in Readers(run)
  {
    if n < |run| {
      assert run[..|run| - 1][..n] == run[..n];
      SectionsBeginWithRead(left, run[..|run| - 1], n, c);
    } else {
      assert run[..n] == run;
      var init := run[..n - 1];
      if InSection(After(left, init).value, c) {
        assert init[..n - 1] == init;
        SectionsBeginWithRead(left, init, n - 1, c);
      }
    }
  }

  /**
   That no two reclaim sections overlap is not enough. One contender reads the pid of a live
   holder; before it looks at the process, the holder releases and exits and another contender
   takes the lock afresh, without any reclaim; the reader then removes that file.
   */
  lemma LateJudgeSteals() returns (run: seq<Event>)
    ensures IsRun(None, run)
    ensures Owns(After(None, run).value, 1) && Owns(After(None, run).value, 2)
    ensures forall n: nat, c: nat ::
            n <= |run| && IsRun(None, run[..n]) && InSection(After(None, run[..n]).value, c) ==> c == 1
  {
    var s;
    run, s := LateJudgeReads();
    run, s := Grow(None, run, s, Release(0));
    run, s := Grow(None, run, s, Die(1));
    assert s.contenders == map[1 := Contender(2, Judging(1, Some(0))), 2 := Contender(2, Trying)];
    run, s := Grow(None, run, s, Create(2));
    run, s := Grow(None, run, s, Judge(1));
    run, s := Grow(None, run, s, Remove(1, true));
    run, s := Grow(None, run, s, Retry(1));
    forall n: nat, c: nat | n <= |run| && IsRun(None, run[..n]) && InSection(After(None, run[..n]).value, c)
      ensures c == 1
    {
      SectionsBeginWithRead(None, run, n, c);
    }
  }

  /** The first half: a holder in process 1, and a contender in process 2 that has read its pid. */
  lemma LateJudgeReads() returns (run: seq<Event>, s: State)
    ensures After(None, run) == Some(s) && Readers(run) == {1}
    ensures s == State(Some(LockFile(Some(0), Pid(1))), {1, 2},
                       map[0 := Contender(1, Holding), 1 := Contender(2, Judging(1, Some(0))),
                         2 := Contender(2, Trying)], 3)
  {
    run, s := LateJudgeSetting();
    run, s := Grow(None, run, s, Create(0));
    run, s := Grow(None, run, s, WritePid(0, true));
    run, s := Grow(None, run, s, Create(1));
    run, s := Grow(None, run, s, Read(1));
  }

  lemma LateJudgeSetting() returns (run: seq<Event>, s: State)
    ensures After(None, run) == Some(s) && Readers(run) == {}
    ensures s == State(None, {1, 2},
                       map[0 := Contender(1, Trying), 1 := Contender(2, Trying), 2 := Contender(2, Trying)], 3)
  {
    s, run := Initial(None), [];
    run, s := Grow(None, run, s, Born(1));
    run, s := Grow(None, run, s, Born(2));
    run, s := Grow(None, run, s, Begin(1));
    run, s := Grow(None, run, s, Begin(2));
    run, s := Grow(None, run, s, Begin(2));
  }

  // ----- A file without a readable pid -----

  /** The file holds no pid, and nobody is left who would remove it: no owner, no contender that judged another file. */
  predicate Wedged(s: State) {
    && s.file.Some? && (!s.file.value.content.Pid? || s.file.value.content.pid <= 0)
    && forall c :: c in s.contenders ==> !Owns(s, c) && !InSection(s, c) && !s.contenders[c].phase.Retrying?
  }

  /** Such a file is never stolen, and nobody ever gets the lock. */
  lemma {:induction false} UnreadablePidIsNeverReclaimed(left: Option<Content>, run: seq<Event>, more: seq<Event>)
    requires IsRun(left, run) && Wedged(After(left, run).value)
    requires IsRun(left, run + more)
    ensures var s := After(left, run + more).value;
      s.file == After(left, run).value.file && forall c :: c in s.contenders ==> !Owns(s, c)
    ensures Wedged(After(left, run + more).value)
  {
    if more == [] {
      assert run + more == run;
    } else {
      assert (run + more)[..|run + more| - 1] == run + more[..|more| - 1];
      UnreadablePidIsNeverReclaimed(left, run, more[..|more| - 1]);
      WedgedStep(After(left, run + more[..|more| - 1]).value, more[|more| - 1]);
    }
  }

  lemma WedgedStep(s: State, e: Event)
    requires Wedged(s) && Enabled(s, e)
    ensures Wedged(Apply(s, e)) && Apply(s, e).file == s.file
  {
  }

  /** An owner that dies between creating the file and writing its pid leaves such a file behind. */
  lemma DeathBeforeWriteWedges() returns (run: seq<Event>)
    ensures IsRun(None, run) && Wedged(After(None, run).value)
  {
    var s := Initial(None);
    run := [];
    run, s := Grow(None, run, s, Born(1));
    run, s := Grow(None, run, s, Begin(1));
    run, s := Grow(None, run, s, Create(0));
    run, s := Grow(None, run, s, Die(1));
  }

  /** The first half of a reclaim: a contender finds the recorded process dead. */
  lemma FindsItStale(left: Option<Content>, run: seq<Event>, s: State, pid: int)
    returns (longer: seq<Event>, next: State)
    requires After(left, run) == Some(s) && Consistent(s) && pid in s.alive
    requires s.file.Some? && s.file.value.content.Pid? && s.file.value.content.pid > 0
    requires s.file.value.content.pid !in s.alive
    ensures run <= longer && After(left, longer) == Some(next)
    ensures next.file == s.file && At(next, s.begun, Reclaiming(s.file.value.owner))
    ensures next.contenders[s.begun].pid == pid
  {
    var c := s.begun;
    longer, next := Grow(left, run, s, Begin(pid));
    longer, next := Grow(left, longer, next, Create(c));
    longer, next := Grow(left, longer, next, Read(c));
    longer, next := Grow(left, longer, next, Judge(c));
  }

  /** The second half: it removes the file, creates its own and writes its pid. */
  lemma TakesOver(left: Option<Content>, run: seq<Event>, s: State, c: nat) returns (longer: seq<Event>, next: State)
    requires After(left, run) == Some(s) && c in s.contenders && s.contenders[c].phase.Reclaiming?
    ensures run <= longer && After(left, longer) == Some(next)
    ensures At(next, c, Holding) && next.file == Some(LockFile(Some(c), Pid(s.contenders[c].pid)))
  {
    longer, next := Grow(left, run, s, Remove(c, true));
    longer, next := Grow(left, longer, next, Retry(c));
    longer, next := Grow(left, longer, next, WritePid(c, true));
  }

  /** A stale file that names a dead process is reclaimed by the next contender, if nobody interferes. */
  lemma StaleFileIsReclaimed(left: Option<Content>, run: seq<Event>, pid: int) returns (longer: seq<Event>, c: nat)
    requires IsRun(left, run)
    requires var s := After(left, run).value;
      s.file.Some? && s.file.value.content.Pid? && s.file.value.content.pid > 0
      && s.file.value.content.pid !in s.alive && pid in s.alive
    ensures run <= longer && IsRun(left, longer) && At(After(left, longer).value, c, Holding)
    ensures After(left, longer).value.file == Some(LockFile(Some(c), Pid(pid)))
  {
    var s := After(left, run).value;
    RunsAreConsistent(left, run);
    c := s.begun;
    longer, s := FindsItStale(left, run, s, pid);
    longer, s := TakesOver(left, longer, s, c);
  }
}
