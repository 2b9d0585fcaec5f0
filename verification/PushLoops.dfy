/**
 The watch loop: notifications of changed files are debounced, a ticker sets a lower rate,
 and one push follows the other.

 Notifiers, the debounce timers, the floor ticker, cancellation and the loop itself take
 turns in any order. A run is the sequence of their atomic steps, and every statement
 below is about all runs.
 */
module PushLoops {
  import opened Sequences

  datatype Reason = Change | Interval | Shutdown

  datatype Phase =
    | Selecting              // blocked in select
    | Pushing(reason: Reason)
    | Returned

  datatype Event =
    // the surroundings
    | Notify                 // a goroutine calls NotifyDirty
    | Cancel                 // the context is cancelled
    | Tick                   // the floor ticker ticks
    | Expire(timer: nat)     // a debounce timer delivers on its channel
    // the loop
    | TakeDirty
    | TakeFire
    | TakeFloor
    | TakeDone
    | PushReturns

  datatype State = State(
    dirty: bool,             // the notification channel holds its one token
    floor: bool,             // the ticker channel holds its one tick
    cancelled: bool,
    created: nat,            // debounce timers made so far, named 0, 1, ...
    expired: set<nat>,       // those that have delivered
    armed: bool,
    fire: Option<nat>,       // the timer the loop waits for
    phase: Phase)

  const INITIAL := State(false, false, false, 0, {}, false, None, Selecting)

  /** Which steps are possible; among several ready channels a select takes any. */
  predicate Enabled(s: State, e: Event) {
    match e
    case Notify | Cancel | Tick => true
    case Expire(t) => t < s.created && t !in s.expired
    case TakeDirty => s.phase.Selecting? && s.dirty
    case TakeFire => s.phase.Selecting? && s.fire.Some? && s.fire.value in s.expired
    case TakeFloor => s.phase.Selecting? && s.floor
    case TakeDone => s.phase.Selecting? && s.cancelled
    case PushReturns => s.phase.Pushing?
  }

  function Apply(s: State, e: Event): State
    requires Enabled(s, e)
  {
    match e
    case Notify => s.(dirty := true)                       // a full channel drops the send
    case Cancel => s.(cancelled := true)
    case Tick => s.(floor := true)                         // a full channel drops the tick
    case Expire(t) => s.(expired := s.expired + {t})
    case TakeDirty =>
      if s.armed then s.(dirty := false)
      else s.(dirty := false, armed := true, fire := Some(s.created), created := s.created + 1)
    case TakeFire => s.(armed := false, fire := None, phase := Pushing(Change))
    case TakeFloor => s.(floor := false, armed := false, fire := None, phase := Pushing(Interval))
    case TakeDone => s.(phase := Pushing(Shutdown))
    case PushReturns => s.(phase := if s.phase.reason.Shutdown? then Returned else Selecting)
  }

  /** The state after a run, if the run is possible. */
  function After(run: seq<Event>): Option<State> {
    if run == [] then Some(INITIAL)
    else
      var before := After(run[..|run| - 1]);
      if before.Some? && Enabled(before.value, run[|run| - 1]) then Some(Apply(before.value, run[|run| - 1])) else None
  }

  predicate IsRun(run: seq<Event>) {
    After(run).Some?
  }

  predicate StartsPush(e: Event) {
    e.TakeFire? || e.TakeFloor? || e.TakeDone?
  }

  /** Whether a notification completed after the latest push began, or at all if none did. */
  predicate Unpushed(run: seq<Event>) {
    run != [] && (run[|run| - 1].Notify? || (!StartsPush(run[|run| - 1]) && Unpushed(run[..|run| - 1])))
  }

  /** The notification at `k` completed after the latest push began. */
  ghost predicate UnpushedAt(run: seq<Event>, k: int) {
    0 <= k < |run| && run[k].Notify? && forall j :: k < j < |run| ==> !StartsPush(run[j])
  }

  /** `Unpushed`, told by positions in the run. */
  lemma {:induction false} UnpushedByPosition(run: seq<Event>)
    ensures Unpushed(run) <==> exists k :: UnpushedAt(run, k)
  {
    if run != [] {
      var init, n := run[..|run| - 1], |run| - 1;
      UnpushedByPosition(init);
      if run[n].Notify? {
        assert UnpushedAt(run, n);
      } else if !StartsPush(run[n]) {
        forall k ensures UnpushedAt(run, k) == UnpushedAt(init, k) { assert 0 <= k < n ==> run[k] == init[k]; }
      }
    }
  }

  /** What every step keeps of the loop's own variables. */
  predicate Consistent(s: State) {
    && s.armed == s.fire.Some?
    && (s.fire.Some? ==> s.fire.value < s.created)
    && (forall t :: t in s.expired ==> t < s.created)
    && (s.phase.Returned? || s.phase == Pushing(Shutdown) ==> s.cancelled)
    && (s.phase == Pushing(Change) || s.phase == Pushing(Interval) ==> !s.armed)
  }

  lemma {:induction false} RunsAreConsistent(run: seq<Event>)
    requires IsRun(run)
    ensures Consistent(After(run).value)
  {
    if run != [] { RunsAreConsistent(run[..|run| - 1]); }
  }

  /** No notification is lost: until a push starts after it, the channel holds a token or the loop is armed. */
  lemma {:induction false} NoLostNotification(run: seq<Event>)
    requires IsRun(run) && Unpushed(run)
    ensures After(run).value.dirty || After(run).value.armed
  {
    if !run[|run| - 1].Notify? { NoLostNotification(run[..|run| - 1]); }
  }

  /**
   When the loop has returned, exactly one shutdown push began; every earlier notification was
   followed by a push that started after it, and a later one still sits in the channel.
   */
  lemma {:induction false} ReturnFlushes(run: seq<Event>)
    requires IsRun(run) && After(run).value.phase.Returned?
    ensures exists done :: 0 <= done < |run| && IsFlush(run, done)
    ensures Unpushed(run) ==> After(run).value.dirty
  {
    var last := run[|run| - 1];
    var init := run[..|run| - 1];
    if last == PushReturns {
      var done := FlushBegun(init);
      assert IsFlush(run, done);
    } else {
      ReturnFlushes(init);
      var done :| 0 <= done < |init| && IsFlush(init, done);
      assert IsFlush(run, done);
    }
    if Unpushed(run) {
      UnpushedByPosition(run);
      var k :| UnpushedAt(run, k);
      var flush :| 0 <= flush < |run| && IsFlush(run, flush);
      LateStaysInChannel(run, k, flush);
    }
  }

  lemma LateStaysInChannel(run: seq<Event>, k: int, done: int)
    requires IsRun(run) && UnpushedAt(run, k) && 0 <= done < |run| && IsFlush(run, done)
    ensures After(run).value.dirty
  {
    assert StartsPush(run[done]);
    StaysInChannel(run, k);
  }

  /** A notification that the loop never takes from the channel stays in it. */
  lemma {:induction false} StaysInChannel(run: seq<Event>, k: int)
    requires IsRun(run) && 0 <= k < |run| && run[k].Notify?
    requires forall j :: k < j < |run| ==> !run[j].TakeDirty?
    ensures After(run).value.dirty
  {
    if k < |run| - 1 { StaysInChannel(run[..|run| - 1], k); }
  }

  /**
   After the loop has returned, a notification was served by a later push exactly if it came before the
   shutdown push began.
   */
  lemma ServedIffBeforeFlush(run: seq<Event>, k: nat, done: nat)
    requires IsRun(run) && After(run).value.phase.Returned?
    requires k < |run| && run[k].Notify? && done < |run| && run[done].TakeDone?
    ensures (exists j :: k < j < |run| && StartsPush(run[j])) <==> k < done
    ensures k > done ==> After(run).value.dirty
  {
    ReturnFlushes(run);
    var flush :| 0 <= flush < |run| && IsFlush(run, flush);
    assert flush == done;
    if k > done {
      StaysInChannel(run, k);
    } else {
      assert StartsPush(run[done]);
    }
  }

  /**
   The push that starts at `done` is the shutdown push: no other starts after it, and it follows every
   notification before it.
   */
  ghost predicate IsFlush(run: seq<Event>, done: int)
    requires 0 <= done < |run|
  {
    && run[done].TakeDone?
    && (forall j :: 0 <= j < |run| && j != done ==> !run[j].TakeDone?)
    && (forall j :: done < j < |run| ==> !StartsPush(run[j]) && !run[j].TakeDirty?)
  }

  lemma {:induction false} FlushBegun(run: seq<Event>) returns (done: nat)
    requires IsRun(run) && After(run).value.phase == Pushing(Shutdown)
    ensures done < |run| && IsFlush(run, done)
  {
    var init := run[..|run| - 1];
    if run[|run| - 1].TakeDone? {
      NoFlushYet(init);
      done := |run| - 1;
    } else {
      done := FlushBegun(init);
    }
  }

  lemma {:induction false} NoFlushYet(run: seq<Event>)
    requires IsRun(run) && !After(run).value.phase.Returned? && After(run).value.phase != Pushing(Shutdown)
    ensures forall j :: 0 <= j < |run| ==> !run[j].TakeDone?
  {
    if run != [] { NoFlushYet(run[..|run| - 1]); }
  }

  /** Pushes never overlap: between two starts the earlier push has returned. */
  lemma {:induction false} PushesDoNotOverlap(run: seq<Event>, i: int, j: int)
    requires IsRun(run) && 0 <= i < j < |run| && StartsPush(run[i]) && StartsPush(run[j])
    ensures exists m :: i < m < j && run[m] == PushReturns
  {
    if j == |run| - 1 {
      StillPushing(run[..j], i);
      var m :| i < m < j && run[..j][m] == PushReturns;
      assert run[m] == PushReturns;
    } else {
      var init := run[..|run| - 1];
      PushesDoNotOverlap(init, i, j);
      var m :| i < m < j && init[m] == PushReturns;
      assert run[m] == PushReturns;
    }
  }

  /** A started push that has not returned keeps the loop in its push. */
  lemma {:induction false} StillPushing(run: seq<Event>, i: int)
    requires IsRun(run) && 0 <= i < |run| && StartsPush(run[i])
    ensures After(run).value.phase.Pushing? || exists m :: i < m < |run| && run[m] == PushReturns
  {
    var init := run[..|run| - 1];
    if i < |run| - 1 {
      StillPushing(init, i);
      if m :| i < m < |init| && init[m] == PushReturns {
        assert run[m] == PushReturns;
      } else if run[|run| - 1] == PushReturns {
        assert i < |run| - 1 && run[|run| - 1] == PushReturns;
      }
    }
  }

  /** The step at `a` armed the loop with timer `t`. */
  predicate ArmsWith(run: seq<Event>, a: nat, t: nat)
    requires a < |run|
  {
    && run[a].TakeDirty?
    && After(run[..a]).Some? && !After(run[..a]).value.armed && After(run[..a]).value.created == t
  }

  /** The loop was armed with `t` at `a`, and no push has started since. */
  ghost predicate ArmedSince(run: seq<Event>, a: nat, t: nat) {
    && a < |run|
    && ArmsWith(run, a, t)
    && forall j :: a < j < |run| ==> !StartsPush(run[j])
  }

  /**
   While the loop is armed, its timer is that of the first notification taken since the last
   push start: later notifications do not restart the debounce.
   */
  lemma {:induction false} ArmedByFirst(run: seq<Event>) returns (a: nat)
    requires IsRun(run) && After(run).value.armed && !After(run).value.phase.Returned?
    requires After(run).value.phase != Pushing(Shutdown)
    ensures After(run).value.fire.Some? && ArmedSince(run, a, After(run).value.fire.value)
  {
    RunsAreConsistent(run);
    var init := run[..|run| - 1];
    RunsAreConsistent(init);
    if After(init).value.armed {
      a := ArmedByFirst(init);
      assert init[..a] == run[..a];
    } else {
      a := |run| - 1;
    }
  }

  /** Once armed, the loop stays armed with the same timer until a push starts. */
  lemma {:induction false} ArmedUntilPush(run: seq<Event>, a: nat, t: nat)
    requires IsRun(run) && ArmedSince(run, a, t)
    ensures After(run).value.fire == Some(t)
  {
    var init := run[..|run| - 1];
    assert init[..a] == run[..a];
    if a < |run| - 1 {
      ArmedUntilPush(init, a, t);
      RunsAreConsistent(init);
    } else {
      assert run[..a] == init;
    }
  }

  /**
   A change push is fired by the timer armed last: it expired after it was armed, and no other
   push started in between. So a timer dropped by a floor tick never fires a push.
   */
  lemma {:induction false} ChangePushHasItsTimer(run: seq<Event>, j: nat) returns (a: nat, t: nat, x: nat)
    requires IsRun(run) && j < |run| && run[j].TakeFire?
    ensures a < x < j && ArmsWith(run, a, t) && run[x] == Expire(t)
    ensures forall m :: a < m < j ==> !StartsPush(run[m])
  {
    if j < |run| - 1 {
      var init := run[..|run| - 1];
      a, t, x := ChangePushHasItsTimer(init, j);
      assert init[..a] == run[..a];
    } else {
      var init := run[..j];
      RunsAreConsistent(init);
      a := ArmedByFirst(init);
      t := After(init).value.fire.value;
      x := ExpiredAfterArmed(init, a, t);
      assert init[..a] == run[..a];
    }
  }

  lemma {:induction false} ExpiredAfterArmed(run: seq<Event>, a: nat, t: nat) returns (x: nat)
    requires IsRun(run) && a < |run| && ArmsWith(run, a, t) && t in After(run).value.expired
    ensures a < x < |run| && run[x] == Expire(t)
  {
    var init := run[..|run| - 1];
    RunsAreConsistent(run[..a]);
    assert init[..a] == run[..a];
    if run[|run| - 1] == Expire(t) {
      x := |run| - 1;
    } else {
      x := ExpiredAfterArmed(init, a, t);
    }
  }

  predicate IsNotify(e: Event) { e.Notify? }
  predicate IsChangePush(e: Event) { e.TakeFire? }

  /** Change pushes never outnumber notifications, counting those still under way. */
  lemma {:induction false} ChangePushesBounded(run: seq<Event>)
    requires IsRun(run)
    ensures var s := After(run).value;
      |Filter(run, IsChangePush)| + (if s.armed then 1 else 0) + (if s.dirty then 1 else 0) <= |Filter(run, IsNotify)|
  {
    if run != [] {
      ChangePushesBounded(run[..|run| - 1]);
      RunsAreConsistent(run[..|run| - 1]);
    }
  }

  /**
   A notification leads to a push: whenever one is unpushed and the loop waits in its select,
   the loop reaches a change push by its own steps and the delivery of its timer.
   */
  lemma UnpushedCanFire(run: seq<Event>) returns (more: seq<Event>)
    requires IsRun(run) && Unpushed(run) && After(run).value.phase.Selecting?
    ensures |more| <= 3 && IsRun(run + more) && After(run + more).value.phase == Pushing(Change)
    ensures forall e :: e in more ==> e.TakeDirty? || e.Expire? || e.TakeFire?
  {
    NoLostNotification(run);
    RunsAreConsistent(run);
    more := [];
    assert run + more == run;
    if !After(run).value.armed {
      more := Extend(run, more, TakeDirty);
    }
    RunsAreConsistent(run + more);
    var t := After(run + more).value.fire.value;
    if t !in After(run + more).value.expired {
      more := Extend(run, more, Expire(t));
    }
    more := Extend(run, more, TakeFire);
  }

  lemma Extend(run: seq<Event>, more: seq<Event>, e: Event) returns (longer: seq<Event>)
    requires IsRun(run + more) && Enabled(After(run + more).value, e)
    ensures longer == more + [e] && After(run + longer) == Some(Apply(After(run + more).value, e))
  {
    longer := more + [e];
    assert (run + longer)[..|run + longer| - 1] == run + more;
  }

  /** The loop object: each method is one atomic step, recorded in `run`. */
  class PushLoop {
    var dirty: bool
    var floor: bool
    var cancelled: bool
    var created: nat
    var expired: set<nat>
    var armed: bool
    var fire: Option<nat>
    var phase: Phase
    ghost var run: seq<Event>

    function Now(): State
      reads this
    {
      State(dirty, floor, cancelled, created, expired, armed, fire, phase)
    }

    ghost predicate Valid()
      reads this
    {
      After(run) == Some(Now())
    }

    constructor ()
      ensures Valid() && run == []
    {
      dirty, floor, cancelled, created, expired := false, false, false, 0, {};
      armed, fire, phase, run := false, None, Selecting, [];
    }

    ghost method Record(e: Event, before: State)
      requires After(run) == Some(before) && Enabled(before, e) && Now() == Apply(before, e)
      modifies this`run
      ensures Valid() && run == old(run) + [e]
    {
      assert (run + [e])[..|run|] == run;
      run := run + [e];
    }

    /** Signals that local data changed; never blocks. */
    method NotifyDirty()
      requires Valid()
      modifies this
      ensures Valid() && run == old(run) + [Notify]
    {
      ghost var before := Now();
      if !dirty { dirty := true; }
      Record(Notify, before);
    }

    /** One pass through the loop's select: takes the ready channel that `choice` names. */
    method Select(choice: Event) returns (push: Option<Reason>)
      requires Valid() && (choice.TakeDirty? || StartsPush(choice)) && Enabled(Now(), choice)
      modifies this
      ensures Valid() && run == old(run) + [choice]
      ensures push == match choice
                      case TakeFire => Some(Change)
                      case TakeFloor => Some(Interval)
                      case TakeDone => Some(Shutdown)
                      case _ => None
    {
      ghost var before := Now();
      push := None;
      match choice {
        case TakeDone =>
          push := Some(Shutdown);
        case TakeDirty =>
          dirty := false;
          if !armed {
            armed := true;
            fire := Some(created);
            created := created + 1;
          }
        case TakeFire =>
          armed := false;
          fire := None;
          push := Some(Change);
        case TakeFloor =>
          floor := false;
          armed := false;
          fire := None;
          push := Some(Interval);
      }
      if push.Some? { phase := Pushing(push.value); }
      Record(choice, before);
    }

    /** The push in progress returns, successfully or not; after the shutdown push the loop is done. */
    method FinishPush()
      requires Valid() && phase.Pushing?
      modifies this
      ensures Valid() && run == old(run) + [PushReturns]
      ensures phase == if old(phase) == Pushing(Shutdown) then Returned else Selecting
    {
      ghost var before := Now();
      phase := if phase.reason.Shutdown? then Returned else Selecting;
      Record(PushReturns, before);
    }
  }
}
