/**
 Who may write the SQLite archive: every opener takes an operating-system file lock
 before it opens the archive and gives it back after it has closed it.

 Any number of processes run any number of openers; their atomic steps interleave, and a
 process may die at any point, upon which the operating system frees its lock. The
 advisory checks before the lock are arbitrary answers.
 */
module WriteOwnership {
  import opened Sequences

  datatype Progress =
    | Validating
    | Locking
    | Opening            // holds the lock, db.Open is under way
    | Configuring        // archive open
    | Storing            // archive open and configured, the owner is not recorded yet
    | Open               // handed to the caller
    | ConfigFailed       // archive open, to be closed again
    | Closed             // archive closed, the lock still held
    | Finished

  /** From the start of db.Open to the archive's Close, an opener may write. */
  predicate HasArchive(p: Progress) {
    p.Opening? || p.Configuring? || p.Storing? || p.Open? || p.ConfigFailed?
  }

  /** An opener: it runs in a process, and is the handle through which the lock is held. */
  datatype Opener = Opener(process: nat, progress: Progress)

  datatype Event =
    | Start(opener: nat, process: nat)
    | Validate(opener: nat, ok: bool)
    | TryLock(opener: nat, error: bool)
    | OpenArchive(opener: nat, ok: bool)
    | Configure(opener: nat, ok: bool)
    | Store(opener: nat)
    | CloseArchive(opener: nat)
    | Unlock(opener: nat, ok: bool)
    | Die(process: nat)

  datatype State = State(openers: map<nat, Opener>, holder: Option<nat>)

  const INITIAL := State(map[], None)

  predicate At(s: State, opener: nat, p: Progress) {
    opener in s.openers && s.openers[opener].progress == p
  }

  predicate Enabled(s: State, e: Event) {
    match e
    case Start(o, _) => o !in s.openers
    case Validate(o, _) => At(s, o, Validating)
    case TryLock(o, _) => At(s, o, Locking)
    case OpenArchive(o, _) => At(s, o, Opening)
    case Configure(o, _) => At(s, o, Configuring)
    case Store(o) => At(s, o, Storing)
    case CloseArchive(o) => At(s, o, Open) || At(s, o, ConfigFailed)
    case Unlock(o, _) => At(s, o, Closed)
    case Die(_) => true
  }

  function Move(s: State, opener: nat, p: Progress): State
    requires opener in s.openers
  {
    s.(openers := s.openers[opener := s.openers[opener].(progress := p)])
  }

  function Apply(s: State, e: Event): State
    requires Enabled(s, e)
  {
    match e
    case Start(o, p) => s.(openers := s.openers[o := Opener(p, Validating)])
    case Validate(o, ok) => Move(s, o, if ok then Locking else Finished)
    case TryLock(o, error) =>
      if error || s.holder.Some? then Move(s, o, Finished) else Move(s, o, Opening).(holder := Some(o))
    case OpenArchive(o, ok) => Move(s, o, if ok then Configuring else Closed)
    case Configure(o, ok) => Move(s, o, if ok then Storing else ConfigFailed)
    case Store(o) => Move(s, o, Open)
    case CloseArchive(o) => Move(s, o, Closed)
    case Unlock(o, ok) => Move(s, o, Finished).(holder := if ok then None else s.holder)
    case Die(p) => State(
      map o | o in s.openers && s.openers[o].process != p :: s.openers[o],
      if s.holder.Some? && s.holder.value in s.openers && s.openers[s.holder.value].process == p then None
        else s.holder)
  }

  function After(run: seq<Event>): Option<State> {
    if run == [] then Some(INITIAL)
    else
      var before := After(run[..|run| - 1]);
      if before.Some? && Enabled(before.value, run[|run| - 1]) then Some(Apply(before.value, run[|run| - 1])) else None
  }

  predicate IsRun(run: seq<Event>) {
    After(run).Some?
  }

  /** Openers between taking and giving back the lock hold it, and only a live opener that took it does. */
  predicate Owned(s: State) {
    && (forall o :: o in s.openers && (HasArchive(s.openers[o].progress) || s.openers[o].progress.Closed?) ==>
       s.holder == Some(o))
    && (s.holder.Some? ==>
          s.holder.value in s.openers
          && var p := s.openers[s.holder.value].progress; HasArchive(p) || p.Closed? || p.Finished?)
  }

  lemma OwnedStep(s: State, e: Event)
    requires Owned(s) && Enabled(s, e)
    ensures Owned(Apply(s, e))
  {
    var next := Apply(s, e);
    forall o | o in next.openers && (HasArchive(next.openers[o].progress) || next.openers[o].progress.Closed?)
      ensures next.holder == Some(o)
    {
      assert o in s.openers;
    }
  }

  lemma {:induction false} RunsAreOwned(run: seq<Event>)
    requires IsRun(run)
    ensures Owned(After(run).value)
  {
    if run != [] {
      RunsAreOwned(run[..|run| - 1]);
      OwnedStep(After(run[..|run| - 1]).value, run[|run| - 1]);
    }
  }

  lemma {:induction false} PrefixesAreRuns(run: seq<Event>, n: nat)
    requires IsRun(run) && n <= |run|
    ensures IsRun(run[..n])
  {
    if n < |run| {
      PrefixesAreRuns(run[..|run| - 1], n);
      assert run[..|run| - 1][..n] == run[..n];
    } else {
      assert run[..n] == run;
    }
  }

  /** At no instant of any run do two openers have the archive, in one process or in two. */
  lemma SingleWriter(run: seq<Event>, n: nat, o: nat, o': nat)
    requires IsRun(run) && n <= |run|
    ensures IsRun(run[..n])
    ensures var s := After(run[..n]).value;
            (&& o in s.openers && HasArchive(s.openers[o].progress)
             && o' in s.openers && HasArchive(s.openers[o'].progress)) ==> o == o'
  {
    PrefixesAreRuns(run, n);
    RunsAreOwned(run[..n]);
  }

  /** While no unlock has failed, the lock is held exactly while an opener is between taking and giving it back. */
  lemma {:induction false} LockIsNotLeaked(run: seq<Event>)
    requires IsRun(run)
    requires forall k :: 0 <= k < |run| ==> !(run[k].Unlock? && !run[k].ok)
    ensures var s := After(run).value;
      s.holder.Some? ==> s.holder.value in s.openers && !s.openers[s.holder.value].progress.Finished?
  {
    if run != [] {
      RunsAreOwned(run[..|run| - 1]);
      LockIsNotLeaked(run[..|run| - 1]);
    }
  }

  /** A dead process blocks nobody: whatever it was doing, after its death it holds no lock and no archive. */
  lemma DeathFreesTheLock(run: seq<Event>, process: nat)
    requires IsRun(run)
    ensures IsRun(run + [Die(process)])
    ensures var s := After(run + [Die(process)]).value;
      && (forall o :: o in s.openers ==> s.openers[o].process != process)
      && (s.holder.Some? ==> s.holder.value in s.openers && s.openers[s.holder.value].process != process)
  {
    assert (run + [Die(process)])[..|run|] == run;
    RunsAreOwned(run);
    RunsAreOwned(run + [Die(process)]);
  }

  /** When the lock is free, a new opener whose checks pass gets the archive. */
  lemma FreeLockIsTaken(run: seq<Event>, opener: nat, process: nat)
    requires IsRun(run) && After(run).value.holder.None? && opener !in After(run).value.openers
    ensures var more :=
            [Start(opener, process), Validate(opener, true), TryLock(opener, false), OpenArchive(opener, true),
                         Configure(opener, true), Store(opener)];
      IsRun(run + more) && At(After(run + more).value, opener, Open)
  {
    Extend(run, Start(opener, process));
    var r1 := run + [Start(opener, process)];
    Extend(r1, Validate(opener, true));
    var r2 := r1 + [Validate(opener, true)];
    Extend(r2, TryLock(opener, false));
    var r3 := r2 + [TryLock(opener, false)];
    Extend(r3, OpenArchive(opener, true));
    var r4 := r3 + [OpenArchive(opener, true)];
    Extend(r4, Configure(opener, true));
    var r5 := r4 + [Configure(opener, true)];
    Extend(r5, Store(opener));
    assert run + [Start(opener, process), Validate(opener, true), TryLock(opener, false), OpenArchive(opener, true),
                  Configure(opener, true), Store(opener)] == r5 + [Store(opener)];
  }

  lemma Extend(run: seq<Event>, e: Event)
    requires IsRun(run) && Enabled(After(run).value, e)
    ensures After(run + [e]) == Some(Apply(After(run).value, e))
  {
    assert (run + [e])[..|run|] == run;
  }

  // ----- The open and close functions -----

  /** The shared lock file and the openers that use it; each method performs its steps without interruption. */
  class Archive {
    var holder: Option<nat>
    /** Which open database belongs to which lock handle, in this process. */
    var writeOwnerLocks: map<nat, nat>
    ghost var openers: map<nat, Opener>
    ghost var run: seq<Event>

    ghost predicate Valid()
      reads this
    {
      After(run) == Some(State(openers, holder))
    }

    constructor ()
      ensures Valid() && run == []
    {
      holder, writeOwnerLocks, openers, run := None, map[], map[], [];
    }

    ghost method Record(e: Event, next: map<nat, Opener>)
      requires After(run).Some? && After(run).value.openers == openers && Enabled(After(run).value, e)
      requires Apply(After(run).value, e) == State(next, holder)
      modifies this`run, this`openers
      ensures Valid() && run == old(run) + [e] && openers == next
    {
      Extend(run, e);
      openers := next;
      run := run + [e];
    }

    /**
     Opens the archive for writing through handle `opener`: refused by the advisory check,
     by a lock that another opener holds, or by a failing open or configuration; in every
     refusal the archive is closed and the lock is as it was, unless its unlock fails.
     */
    method OpenWriteDB(opener: nat, process: nat, checksPass: bool, lockError: bool, openOk: bool, configOk: bool,
            unlockOk: bool)
      returns (ok: bool)
      requires Valid() && opener !in openers
      modifies this
      ensures Valid() && opener in openers
      ensures ok <==> checksPass && !lockError && old(holder).None? && openOk && configOk
      ensures openers == old(openers)[opener := Opener(process, if ok then Open else Finished)]
      ensures holder
              == if ok || (checksPass && !lockError && old(holder).None? && !unlockOk) then Some(opener)
              else old(holder)
      ensures writeOwnerLocks == if ok then old(writeOwnerLocks)[opener := opener] else old(writeOwnerLocks)
      ensures old(run) <= run
    {
      ValidateOwnership(opener, process, checksPass);
      if !checksPass { return false; }
      ok := AcquireWriteOwnerLock(opener, lockError);
      if !ok { return; }
      ok := OpenLocked(opener, openOk, configOk, unlockOk);
    }

    /** The advisory check of a new opener. */
    method ValidateOwnership(opener: nat, process: nat, checksPass: bool)
      requires Valid() && opener !in openers
      modifies this`openers, this`run
      ensures Valid() && run == old(run) + [Start(opener, process), Validate(opener, checksPass)]
      ensures openers == old(openers)[opener := Opener(process, if checksPass then Locking else Finished)]
    {
      Record(Start(opener, process), openers[opener := Opener(process, Validating)]);
      Record(Validate(opener, checksPass),
        openers[opener := Opener(process, if checksPass then Locking else Finished)]);
    }

    /** Takes the lock without waiting. */
    method AcquireWriteOwnerLock(opener: nat, lockError: bool) returns (ok: bool)
      requires Valid() && opener in openers && openers[opener].progress.Locking?
      modifies this`holder, this`openers, this`run
      ensures Valid() && run == old(run) + [TryLock(opener, lockError)]
      ensures ok <==> !lockError && old(holder).None?
      ensures holder == if ok then Some(opener) else old(holder)
      ensures openers == old(openers)[opener := Opener(old(openers)[opener].process, if ok then Opening else Finished)]
    {
      var locked := !lockError && holder.None?;
      if locked { holder := Some(opener); }
      Record(TryLock(opener, lockError),
             openers[opener := Opener(openers[opener].process, if locked then Opening else Finished)]);
      ok := locked;
    }

    /** Opens and configures the archive under the lock; on failure closes what was opened and unlocks. */
    method OpenLocked(opener: nat, openOk: bool, configOk: bool, unlockOk: bool) returns (ok: bool)
      requires Valid() && opener in openers && openers[opener].progress.Opening? && holder == Some(opener)
      modifies this
      ensures Valid() && old(run) <= run
      ensures ok <==> openOk && configOk
      ensures holder == if ok || !unlockOk then Some(opener) else None
      ensures openers == old(openers)[opener := Opener(old(openers)[opener].process, if ok then Open else Finished)]
      ensures writeOwnerLocks == if ok then old(writeOwnerLocks)[opener := opener] else old(writeOwnerLocks)
    {
      ghost var p := openers[opener].process;
      Record(OpenArchive(opener, openOk), openers[opener := Opener(p, if openOk then Configuring else Closed)]);
      if !openOk {
        Release(opener, unlockOk);
        return false;
      }
      Record(Configure(opener, configOk), openers[opener := Opener(p, if configOk then Storing else ConfigFailed)]);
      if !configOk {
        Abandon(opener, unlockOk);
        return false;
      }
      writeOwnerLocks := writeOwnerLocks[opener := opener];
      Record(Store(opener), openers[opener := Opener(p, Open)]);
      ok := true;
    }

    /** Closes an archive that could not be configured, and gives the lock back. */
    method Abandon(opener: nat, unlockOk: bool)
      requires Valid() && opener in openers && openers[opener].progress.ConfigFailed? && holder == Some(opener)
      modifies this`holder, this`openers, this`run
      ensures Valid() && run == old(run) + [CloseArchive(opener), Unlock(opener, unlockOk)]
      ensures holder == if unlockOk then None else Some(opener)
      ensures openers == old(openers)[opener := Opener(old(openers)[opener].process, Finished)]
    {
      Record(CloseArchive(opener), openers[opener := Opener(openers[opener].process, Closed)]);
      Release(opener, unlockOk);
    }

    /**
     Gives the lock back once the archive is closed; if that fails, the operating system frees it with
     the process.
     */
    method Release(opener: nat, unlockOk: bool)
      requires Valid() && opener in openers && openers[opener].progress.Closed? && holder == Some(opener)
      modifies this`holder, this`openers, this`run
      ensures Valid() && run == old(run) + [Unlock(opener, unlockOk)]
      ensures holder == if unlockOk then None else Some(opener)
      ensures openers == old(openers)[opener := Opener(old(openers)[opener].process, Finished)]
    {
      if unlockOk { holder := None; }
      Record(Unlock(opener, unlockOk), openers[opener := Opener(openers[opener].process, Finished)]);
    }

    /**
     Closes an open archive, and only then gives the lock back, even if the close reports an
     error; the first error is reported. A close that reports an error has closed the archive.
     */
    method CloseWriteDB(opener: nat, closeOk: bool, unlockOk: bool) returns (ok: bool)
      requires Valid() && opener in openers && openers[opener].progress.Open? && opener in writeOwnerLocks
      modifies this
      ensures Valid() && run == old(run) + [CloseArchive(opener), Unlock(opener, unlockOk)]
      ensures ok <==> closeOk && unlockOk
      ensures holder == if unlockOk then None else Some(opener)
      ensures writeOwnerLocks == old(writeOwnerLocks) - {opener}
      ensures openers == old(openers)[opener := Opener(old(openers)[opener].process, Finished)]
    {
      RunsAreOwned(run);
      Record(CloseArchive(opener), openers[opener := Opener(openers[opener].process, Closed)]);
      ok := closeOk;
      writeOwnerLocks := writeOwnerLocks - {opener};
      Release(opener, unlockOk);
      if ok { ok := unlockOk; }
    }
  }
}
