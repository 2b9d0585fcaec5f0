/**
 The controller around a background worker: a runtime flag that callers may switch at any
 time, a trigger channel that holds one token, and a loop that runs a cycle on every tick
 or trigger while the flag is on.

 Any number of callers and the loop interleave. A caller of SetEnabled that turned the
 flag on, or of Trigger that found it on, still has to fire; since such callers carry
 nothing else, the state counts them.
 */
module Controllers {
  import opened Sequences

  datatype Phase =
    | Startup                // Run was entered, or will be; the flag has not been read yet
    | Selecting
    | Checking               // a tick or trigger was taken; the flag has not been read yet
    | Starting               // the flag was read as on; the cycle has not started yet
    | Cycling
    | Returned

  datatype Event =
    // callers
    | Switch(on: bool)       // SetEnabled swaps the flag
    | Poke                   // Trigger reads the flag
    | Fire                   // a caller sends on the trigger channel, or drops the send
    | Cancel
    | Tick                   // the ticker ticks
    // the loop
    | TakeTick
    | TakeTrigger
    | TakeDone
    | Check                  // reads the flag
    | StartCycle
    | EndCycle

  datatype State = State(
    enabled: bool,
    token: bool,
    firing: nat,             // callers between reading or swapping the flag and firing
    tick: bool,
    cancelled: bool,
    phase: Phase)

  function Initial(enabled: bool): State {
    State(enabled, false, 0, false, false, Startup)
  }

  predicate Enabled(s: State, e: Event) {
    match e
    case Switch(_) | Poke | Cancel | Tick => true
    case Fire => s.firing > 0
    case TakeTick => s.phase.Selecting? && s.tick
    case TakeTrigger => s.phase.Selecting? && s.token
    case TakeDone => s.phase.Selecting? && s.cancelled
    case Check => s.phase.Startup? || s.phase.Checking?
    case StartCycle => s.phase.Starting?
    case EndCycle => s.phase.Cycling?
  }

  function Apply(s: State, e: Event): State
    requires Enabled(s, e)
  {
    match e
    case Switch(on) => s.(enabled := on, firing := if on && !s.enabled then s.firing + 1 else s.firing)
    case Poke => if s.enabled then s.(firing := s.firing + 1) else s
    case Fire => s.(firing := s.firing - 1, token := true)      // a full channel absorbs the send
    case Cancel => s.(cancelled := true)
    case Tick => s.(tick := true)
    case TakeTick => s.(tick := false, phase := Checking)
    case TakeTrigger => s.(token := false, phase := Checking)
    case TakeDone => s.(phase := Returned)
    case Check => s.(phase := if s.enabled then Starting else Selecting)
    case StartCycle => s.(phase := Cycling)
    case EndCycle => s.(phase := Selecting)
  }

  /** The state after a run that starts with the flag at `enabled`, if the run is possible. */
  function After(enabled: bool, run: seq<Event>): Option<State> {
    if run == [] then Some(Initial(enabled))
    else
      var before := After(enabled, run[..|run| - 1]);
      if before.Some? && Enabled(before.value, run[|run| - 1]) then Some(Apply(before.value, run[|run| - 1])) else None
  }

  lemma OneMoreStep(enabled: bool, run: seq<Event>, e: Event)
    requires After(enabled, run).Some? && Enabled(After(enabled, run).value, e)
    ensures After(enabled, run + [e]) == Some(Apply(After(enabled, run).value, e))
  {
    assert (run + [e])[..|run|] == run;
  }

  predicate IsRun(enabled: bool, run: seq<Event>) {
    After(enabled, run).Some?
  }

  /** Step `k` turns the flag from off to on. */
  predicate TurnsOn(enabled: bool, run: seq<Event>, k: int)
    requires 0 <= k < |run|
  {
    run[k] == Switch(true) && After(enabled, run[..k]).Some? && !After(enabled, run[..k]).value.enabled
  }

  /** No cycle has started since the flag last went from off to on, or since the beginning. */
  predicate Owed(enabled: bool, run: seq<Event>) {
    if run == [] then true
    else if TurnsOn(enabled, run, |run| - 1) then true
    else !run[|run| - 1].StartCycle? && Owed(enabled, run[..|run| - 1])
  }

  /** `Owed`, told by positions: no cycle started after the last off-to-on switch. */
  lemma {:induction false} OwedByPosition(enabled: bool, run: seq<Event>)
    ensures Owed(enabled, run) <==>
            exists k :: OwedSince(enabled, run, k)
  {
    if run == [] {
      assert OwedSince(enabled, run, -1);
    } else {
      var init, n := run[..|run| - 1], |run| - 1;
      OwedByPosition(enabled, init);
      if TurnsOn(enabled, run, n) {
        assert OwedSince(enabled, run, n);
      } else {
        forall k | k < n ensures OwedSince(enabled, run, k) <==> OwedSince(enabled, init, k) && !run[n].StartCycle? {
          if 0 <= k { assert init[..k] == run[..k]; }
        }
      }
    }
  }

  /** The flag went on at `k` (or `k` is the beginning) and no cycle has started since. */
  ghost predicate OwedSince(enabled: bool, run: seq<Event>, k: int) {
    && -1 <= k < |run|
    && (k >= 0 ==> TurnsOn(enabled, run, k))
    && forall j :: k < j < |run| ==> !run[j].StartCycle?
  }

  /** A check of the flag that has begun and may still lead to a cycle. */
  predicate CheckPending(s: State) {
    s.phase.Startup? || s.phase.Checking? || s.phase.Starting?
  }

  /**
   An enable is never forgotten: while the flag is on and no cycle has started since it went
   on, a token is queued, or a caller is about to fire, or the loop has yet to act on a check.
   */
  lemma {:induction false} EnableIsNotForgotten(enabled: bool, run: seq<Event>)
    requires IsRun(enabled, run)
    requires After(enabled, run).value.enabled && Owed(enabled, run)
    ensures var s := After(enabled, run).value; s.token || s.firing > 0 || CheckPending(s)
  {
    if run != [] {
      var init := run[..|run| - 1];
      if After(enabled, init).value.enabled && Owed(enabled, init) { EnableIsNotForgotten(enabled, init); }
    }
  }

  /** At rest with the flag on, a cycle has started since the flag last went on. */
  lemma RestingMeansServed(enabled: bool, run: seq<Event>)
    requires IsRun(enabled, run)
    requires var s := After(enabled, run).value; s.enabled && !s.token && s.firing == 0 && s.phase.Selecting?
    ensures !Owed(enabled, run)
    ensures exists k :: 0 <= k < |run| && run[k].StartCycle? && forall j :: k < j < |run| ==> !TurnsOn(enabled, run, j)
  {
    if Owed(enabled, run) { EnableIsNotForgotten(enabled, run); }
    var k := LastCycle(enabled, run);
  }

  lemma {:induction false} LastCycle(enabled: bool, run: seq<Event>) returns (k: nat)
    requires !Owed(enabled, run)
    ensures k < |run| && run[k].StartCycle? && forall j :: k < j < |run| ==> !TurnsOn(enabled, run, j)
  {
    if run[|run| - 1].StartCycle? {
      k := |run| - 1;
    } else {
      var init := run[..|run| - 1];
      k := LastCycle(enabled, init);
      forall j | k < j < |run| ensures !TurnsOn(enabled, run, j) {
        if j < |init| { assert init[..j] == run[..j] && !TurnsOn(enabled, init, j); }
      }
    }
  }

  /**
   An owed enable can always be served by callers' pending sends and the loop's own steps, unless the
   flag goes off again.
   */
  lemma OwedCanRun(enabled: bool, run: seq<Event>) returns (more: seq<Event>)
    requires IsRun(enabled, run) && Owed(enabled, run)
    requires var s := After(enabled, run).value; s.enabled && !s.phase.Returned?
    ensures 1 <= |more| <= 5 && IsRun(enabled, run + more) && After(enabled, run + more).value.phase.Cycling?
    ensures forall e :: e in more ==> e.Fire? || e.TakeTrigger? || e.Check? || e.StartCycle? || e.EndCycle?
  {
    EnableIsNotForgotten(enabled, run);
    more := Serve(enabled, run);
  }

  /** The steps that remain until a cycle starts, at most. */
  function StepsToCycle(s: State): nat {
    match s.phase
    case Starting => 1
    case Startup | Checking => 2
    case Selecting => if s.token then 3 else 4
    case Cycling => 5
    case Returned => 0
  }

  function NextStep(s: State): Event {
    match s.phase
    case Starting => StartCycle
    case Startup | Checking => Check
    case Selecting => if s.token then TakeTrigger else Fire
    case Cycling | Returned => EndCycle
  }

  lemma {:induction false} Serve(enabled: bool, run: seq<Event>) returns (more: seq<Event>)
    requires IsRun(enabled, run)
    requires var s := After(enabled, run).value;
      s.enabled && !s.phase.Returned? && (s.token || s.firing > 0 || CheckPending(s))
    ensures 1 <= |more| <= StepsToCycle(After(enabled, run).value)
    ensures IsRun(enabled, run + more) && After(enabled, run + more).value.phase.Cycling?
    ensures forall e :: e in more ==> e.Fire? || e.TakeTrigger? || e.Check? || e.StartCycle? || e.EndCycle?
    decreases StepsToCycle(After(enabled, run).value)
  {
    var s := After(enabled, run).value;
    var e := NextStep(s);
    assert (run + [e])[..|run|] == run;
    if s.phase.Starting? {
      more := [e];
    } else {
      var rest := Serve(enabled, run + [e]);
      more := [e] + rest;
      assert run + more == run + [e] + rest;
    }
  }

  /** A cycle starts only after the loop read the flag as on, in the loop's last step before it. */
  lemma {:induction false} CyclesRunWhenEnabled(enabled: bool, run: seq<Event>, j: nat) returns (c: nat)
    requires IsRun(enabled, run) && j < |run| && run[j].StartCycle?
    ensures c < j && run[c].Check? && IsRun(enabled, run[..c]) && After(enabled, run[..c]).value.enabled
    ensures forall m :: c < m < j ==> IsCallerStep(run[m])
  {
    if j < |run| - 1 {
      var init := run[..|run| - 1];
      c := CyclesRunWhenEnabled(enabled, init, j);
      assert init[..c] == run[..c];
    } else {
      c := CheckBefore(enabled, run[..j]);
      assert run[..j][..c] == run[..c];
    }
  }

  lemma {:induction false} CheckBefore(enabled: bool, run: seq<Event>) returns (c: nat)
    requires IsRun(enabled, run) && After(enabled, run).value.phase.Starting?
    ensures c < |run| && run[c].Check? && IsRun(enabled, run[..c]) && After(enabled, run[..c]).value.enabled
    ensures forall m :: c < m < |run| ==> IsCallerStep(run[m])
  {
    var init, last := run[..|run| - 1], run[|run| - 1];
    StartingStep(After(enabled, init).value, last);
    if last.Check? {
      c := |run| - 1;
    } else {
      c := CheckBefore(enabled, init);
      assert init[..c] == run[..c];
    }
  }

  lemma StartingStep(s: State, e: Event)
    requires Enabled(s, e) && Apply(s, e).phase.Starting?
    ensures if e.Check? then s.enabled else s.phase.Starting? && IsCallerStep(e)
  {
  }

  predicate IsCallerStep(e: Event) {
    e.Switch? || e.Poke? || e.Fire? || e.Cancel? || e.Tick?
  }

  // ----- How many cycles -----

  predicate IsCycle(e: Event) { e.StartCycle? }
  predicate IsTickOrPoke(e: Event) { e.Tick? || e.Poke? }

  function Count(run: seq<Event>, p: Event -> bool): nat {
    |Filter(run, p)|
  }

  /** The number of off-to-on switches. */
  function Enables(enabled: bool, run: seq<Event>): nat {
    if run == [] then 0
    else Enables(enabled, run[..|run| - 1]) + (if TurnsOn(enabled, run, |run| - 1) then 1 else 0)
  }

  /** What can still become a cycle. */
  function Credit(s: State): nat {
    (if s.token then 1 else 0) + (if s.tick then 1 else 0) + s.firing + (if CheckPending(s) then 1 else 0)
  }

  lemma CreditStep(s: State, e: Event)
    requires Enabled(s, e)
    ensures Credit(Apply(s, e)) + (if IsCycle(e) then 1 else 0)
            <= Credit(s) + (if e == Switch(true) && !s.enabled then 1 else 0) + (if IsTickOrPoke(e) then 1 else 0)
  {
  }

  /**
   Cycles, together with everything that can still become one, number at most one for the
   startup check, one per off-to-on switch, and one per tick and Trigger call.
   */
  lemma {:induction false} CyclesBounded(enabled: bool, run: seq<Event>)
    requires IsRun(enabled, run)
    ensures Count(run, IsCycle) + Credit(After(enabled, run).value) <= 1 + Enables(enabled, run)
            + Count(run, IsTickOrPoke)
  {
    if run != [] {
      var init := run[..|run| - 1];
      CyclesBounded(enabled, init);
      CreditStep(After(enabled, init).value, run[|run| - 1]);
    }
  }

  /** Without ticks and Trigger calls, a burst of enables never makes a burst of cycles. */
  lemma CyclesPerEnable(enabled: bool, run: seq<Event>)
    requires IsRun(enabled, run)
    requires forall k :: 0 <= k < |run| ==> !IsTickOrPoke(run[k])
    ensures Count(run, IsCycle) <= 1 + Enables(enabled, run)
  {
    CyclesBounded(enabled, run);
    FilterAll(run, IsTickOrPoke);
  }

  /** Between two cycle starts the earlier cycle has ended. */
  lemma {:induction false} CyclesDoNotOverlap(enabled: bool, run: seq<Event>, i: nat, j: nat)
    requires IsRun(enabled, run) && i < j < |run| && run[i].StartCycle? && run[j].StartCycle?
    ensures exists m :: i < m < j && run[m].EndCycle?
  {
    if j == |run| - 1 {
      var m := CycleEnded(enabled, run[..j], i);
      assert run[m].EndCycle?;
    } else {
      var init := run[..|run| - 1];
      CyclesDoNotOverlap(enabled, init, i, j);
      var m :| i < m < j && init[m].EndCycle?;
      assert run[m].EndCycle?;
    }
  }

  lemma {:induction false} CycleEnded(enabled: bool, run: seq<Event>, i: nat) returns (m: nat)
    requires IsRun(enabled, run) && i < |run| && run[i].StartCycle? && !After(enabled, run).value.phase.Cycling?
    ensures i < m < |run| && run[m].EndCycle?
  {
    var init := run[..|run| - 1];
    if run[|run| - 1].EndCycle? {
      m := |run| - 1;
    } else {
      m := CycleEnded(enabled, init, i);
    }
  }

  // ----- The controller object -----

  /**
   The controller's own state; each method is one atomic step of a caller or of the loop,
   recorded in `run`. A caller that got `true` from SwapEnabled or ReadForTrigger goes on
   to call Send.
   */
  class Controller {
    var enabled: bool
    var token: bool
    var tick: bool
    var phase: Phase
    ghost var firing: nat
    ghost var cancelled: bool
    ghost const initially: bool
    ghost var run: seq<Event>

    ghost function Now(): State
      reads this
    {
      State(enabled, token, firing, tick, cancelled, phase)
    }

    ghost predicate Valid()
      reads this
    {
      After(initially, run) == Some(Now())
    }

    constructor (on: bool)
      ensures Valid() && initially == on && run == []
    {
      enabled, token, phase := on, false, Startup;
      firing, tick, cancelled, initially, run := 0, false, false, on, [];
    }

    ghost method Record(e: Event, before: State)
      requires After(initially, run) == Some(before) && Enabled(before, e) && Now() == Apply(before, e)
      modifies this`run
      ensures Valid() && run == old(run) + [e]
    {
      OneMoreStep(initially, run, e);
      run := run + [e];
    }

    /** SetEnabled up to its swap: whether the caller goes on to fire. */
    method SwapEnabled(on: bool) returns (fire: bool)
      requires Valid()
      modifies this
      ensures Valid() && run == old(run) + [Switch(on)]
      ensures fire == (on && !old(enabled))
    {
      ghost var before := Now();
      var prev := enabled;
      enabled := on;
      fire := on && !prev;
      if fire { firing := firing + 1; }
      Record(Switch(on), before);
    }

    /** Trigger up to its read of the flag. */
    method ReadForTrigger() returns (fire: bool)
      requires Valid()
      modifies this
      ensures Valid() && run == old(run) + [Poke]
      ensures fire == old(enabled)
    {
      ghost var before := Now();
      fire := enabled;
      if fire { firing := firing + 1; }
      Record(Poke, before);
    }

    /** The coalescing, non-blocking send. */
    method Send()
      requires Valid() && firing > 0
      modifies this
      ensures Valid() && run == old(run) + [Fire]
    {
      ghost var before := Now();
      if !token { token := true; }
      firing := firing - 1;
      Record(Fire, before);
    }

    /** The loop reads the flag after entering Run, a tick or a trigger: whether a cycle starts. */
    method LoopCheck() returns (cycle: bool)
      requires Valid() && Enabled(Now(), Check)
      modifies this
      ensures Valid() && run == old(run) + [Check]
      ensures cycle == old(enabled)
    {
      ghost var before := Now();
      cycle := enabled;
      phase := if cycle then Starting else Selecting;
      Record(Check, before);
    }

    /** One pass through the loop's select: takes the ready channel that `choice` names. */
    method LoopSelect(choice: Event) returns (stop: bool)
      requires Valid() && (choice.TakeTick? || choice.TakeTrigger? || choice.TakeDone?) && Enabled(Now(), choice)
      modifies this
      ensures Valid() && run == old(run) + [choice]
      ensures stop == choice.TakeDone?
    {
      ghost var before := Now();
      stop := false;
      match choice {
        case TakeDone =>
          phase := Returned;
          stop := true;
        case TakeTick =>
          tick := false;
          phase := Checking;
        case TakeTrigger =>
          token := false;
          phase := Checking;
      }
      Record(choice, before);
    }

    /** The worker's cycle, from its start to its end when nothing happens in between. */
    method LoopCycle()
      requires Valid() && Enabled(Now(), StartCycle)
      modifies this
      ensures Valid() && run == old(run) + [StartCycle, EndCycle]
    {
      ghost var before := Now();
      phase := Cycling;
      Record(StartCycle, before);
      before := Now();
      phase := Selecting;
      Record(EndCycle, before);
    }
  }
}
