/**
 * The feeder state machine of feeder_ctrl.cpp and feeder_ctrl_table.h.
 *
 * `StavKrmitka` holds the state; pending events are bits of the event
 * word. Every 100 ms `execute` ticks the state timer (raising
 * `ev_timer_expired` when it runs out) and then hands each pending event,
 * lowest first, to the action the table names for the current state; an
 * action drives the motor, starts or stops the timer and names the next
 * state. With nothing pending, a stopped motor and no timer, the position
 * task is released so that the device may sleep.
 *
 * The whole machine is given as functions on `Feeder` values (`Perform`,
 * `ExecuteF`), and the class `FeederCtrl` does the same work step by step
 * on the shared objects, proved equal to those functions.
 */
module FeederCtrl {
  import opened Ints
  import opened Common
  import opened ParamTypes
  import opened ParamTable
  import opened Parameters
  import opened SleepCtrl
  import opened ParamValues
  import opened FeederEvents
  import opened Errors
  import opened Motor
  import Weight
  import Debounce

  const FEEDER_CONTROL_TASK_PERIOD_MS: nat := 100
  const MAX_OPEN_CLOSE_TIME_S: nat := 100

  /** `TIME_SCHEDULE(secs)`: the task periods in `secs` seconds. */
  function Schedule(secs: nat): (t: uint32)
    requires secs <= MAX_OPEN_CLOSE_TIME_S
    ensures t * FEEDER_CONTROL_TASK_PERIOD_MS == secs * 1000
    ensures IsTimerRunning(t) <==> secs > 0
  {
    secs * 1000 / FEEDER_CONTROL_TASK_PERIOD_MS
  }

  /** The action functions of feeder_ctrl.cpp that the table refers to. */
  datatype Action =
    | NoAction | FeederError | Closed | Opened | CheckOpen | CheckOpenCurrent
    | CheckClose | CheckCloseCurrent | Stop | BreakClose | BreakOpen
    | RepeatOpen | RepeatClose | UnableOpen | ToClose | UnableClose | ToOpen

  /** One line of feeder_ctrl_table.h: the action for each event in state `s`. */
  function Row(s: nat): (r: seq<Action>)
    requires s < NMR_STATES
    ensures |r| == NMR_EVENTS
  {
    match s
    //      stop      open        close       overload open  overload close  no current   timer expired
    case 0 => [NoAction, ToOpen, ToClose, NoAction, NoAction, NoAction, NoAction]
    case 1 => [Stop, NoAction, BreakOpen, UnableOpen, NoAction, CheckOpen, UnableOpen]
    case 2 => [NoAction, NoAction, ToClose, NoAction, NoAction, NoAction, NoAction]
    case 3 => [Stop, NoAction, BreakOpen, NoAction, RepeatOpen, RepeatOpen, RepeatOpen]
    case 4 => [NoAction, NoAction, BreakOpen, NoAction, NoAction, NoAction, CheckOpenCurrent]
    case 5 => [Stop, BreakClose, NoAction, NoAction, UnableClose, CheckClose, UnableClose]
    case 6 => [NoAction, ToOpen, NoAction, NoAction, NoAction, NoAction, NoAction]
    case 7 => [Stop, BreakClose, NoAction, RepeatClose, NoAction, RepeatClose, RepeatClose]
    case 8 => [NoAction, BreakClose, NoAction, NoAction, NoAction, NoAction, CheckCloseCurrent]
    case 9 => [NoAction, NoAction, ToClose, NoAction, NoAction, NoAction, ToOpen]
    case 10 => [NoAction, ToOpen, NoAction, NoAction, NoAction, NoAction, ToClose]
    case _ => [Stop, Stop, Stop, NoAction, NoAction, NoAction, NoAction]
  }

  /** `state_fun[s][e]`. */
  function Table(s: nat, e: nat): Action
    requires s < NMR_STATES && e < NMR_EVENTS
  {
    Row(s)[e]
  }

  // ---------------------------------------------------------------------
  // the machine as functions

  /** What the state machine reads and writes: the motor's drive state, its timer and the shared world. */
  datatype Feeder = Feeder(motor: MotorState, timer: uint32, w: World)

  /** An action's result: the new world and the state it names (`NOSTATE` to stay). */
  datatype Outcome = Outcome(f: Feeder, next: nat)

  /** The registers the machine reads hold numbers, and the state is one of the twelve. */
  predicate Ready(f: Feeder)
  {
    && Good(f.w)
    && f.w.vals[StavKrmitka].Num? && 0 <= f.w.vals[StavKrmitka].n < NMR_STATES
    && f.w.vals[AktualniProud].Num?
    && f.w.vals[PosledniCasOtevreniS].Num? && f.w.vals[PosledniCasZavreniS].Num?
  }

  /** `StavKrmitka.Get()`. */
  function State(f: Feeder): nat
    requires Ready(f)
  {
    f.w.vals[StavKrmitka].n
  }

  /** The numeric `Set(v)` of register `i`, which is neither the error code nor the history. */
  function SetNumW(w: World, i: nat, v: int32): (r: World)
    requires Good(w) && i < NMR_PARAMETERS && IsNumeric(Def(i).kind) && w.vals[i].Num?
    requires i != ChybovyKod && i != LogHistory
    ensures Good(r) && r.vals == SetNumVals(w.vals, i, v)
  {
    w.(vals := SetNumVals(w.vals, i, v), saved := SetNumSaved(w.vals, w.saved, i, v))
  }

  /** `SetState(s)`: `StavKrmitka.Set(s)`. */
  function SetStateF(f: Feeder, s: nat): (r: Feeder)
    requires Ready(f) && s < NMR_STATES
    ensures Ready(r) && State(r) == s
    ensures r.motor == f.motor && r.timer == f.timer
    ensures r.w.events == f.w.events && r.w.tasks == f.w.tasks && r.w.deb == f.w.deb
  {
    f.(w := SetNumW(f.w, StavKrmitka, s))
  }

  /** `motor.Open()`: drive toward open, clearing the faults motion clears. */
  function OpenF(f: Feeder): (r: Feeder)
    requires Ready(f)
    ensures Ready(r) && r.motor == MotorToOpen && r.timer == f.timer && State(r) == State(f)
    ensures r.w.events == f.w.events && r.w.tasks == f.w.tasks
  {
    ClearAllResult(f.w, MOTION);
    f.(motor := MotorToOpen, w := ClearActionAllW(f.w, MOTION))
  }

  /** `motor.Close()`. */
  function CloseF(f: Feeder): (r: Feeder)
    requires Ready(f)
    ensures Ready(r) && r.motor == MotorToClose && r.timer == f.timer && State(r) == State(f)
    ensures r.w.events == f.w.events && r.w.tasks == f.w.tasks
  {
    ClearAllResult(f.w, MOTION);
    f.(motor := MotorToClose, w := ClearActionAllW(f.w, MOTION))
  }

  /** `TimerStart(secs)`. */
  function Timed(f: Feeder, secs: nat): (r: Feeder)
    requires secs <= MAX_OPEN_CLOSE_TIME_S
  {
    f.(timer := StartTimer(Schedule(secs)))
  }

  /** `feeder_error()`: motor stopped, timer stopped, `ChybaKrmitka`. */
  function Fail(f: Feeder): (o: Outcome)
    requires Ready(f)
  {
    Outcome(f.(motor := MotorStop, timer := StopTimer()), ChybaKrmitka)
  }

  /**
   * `closed()` and `opened()`: the motor stops, the position fault of
   * that direction is cleared, the time of arrival is recorded and the
   * timer stopped; reaching open also asks for a weight measurement.
   */
  function Arrived(f: Feeder, open: bool, now: int32): (o: Outcome)
    requires Ready(f)
    ensures Ready(o.f)
  {
    var k := if open then ERROR_OPEN else ERROR_CLOSE;
    var stamp := if open then PosledniCasOtevreniS else PosledniCasZavreniS;
    var w := SetNumW(ClearW(f.w, k), stamp, now);
    var g := f.(motor := MotorStop, w := w, timer := StopTimer());
    if open then Outcome(g.(w := w.(tasks := w.tasks[WRITE_COMMAND_TASK := true])), Otevreno)
    else Outcome(g, Zavreno)
  }

  /**
   * `unable_open()` and `unable_close()`: the motor stops and the
   * position fault counts the failed attempt; at its fourth the feeder
   * fails, otherwise the motor backs off the other way for 3 s.
   */
  function Unable(f: Feeder, open: bool): (o: Outcome)
    requires Ready(f)
    ensures Ready(o.f)
  {
    var k := if open then ERROR_OPEN else ERROR_CLOSE;
    CheckFrame(f.w, k, true);
    var g := f.(motor := MotorStop, w := CheckW(f.w, k, true));
    if g.w.deb[k].matured then Fail(g)
    else if open then Outcome(CloseF(Timed(g, 3)), UvolneniOtevirani)
    else Outcome(OpenF(Timed(g, 3)), UvolneniZavirani)
  }

  /** The effect of action `a`; `now` is the clock `Now()` reads. */
  function Perform(a: Action, f: Feeder, now: int32): (o: Outcome)
    requires Ready(f)
    ensures Ready(o.f) && o.next <= NOSTATE
  {
    match a
    case NoAction => Outcome(f, NOSTATE)
    case FeederError => Fail(f)
    case Closed => Arrived(f, false, now)
    case Opened => Arrived(f, true, now)
    case CheckOpen => Outcome(Timed(CloseF(f), 2), OvereniOtevreni)
    case CheckOpenCurrent =>
      if f.w.vals[AktualniProud].n > ZERO_CURRENT_THRESHOLD then Arrived(f, true, now) else Fail(f)
    case CheckClose => Outcome(Timed(OpenF(f), 1), OvereniZavreni)
    case CheckCloseCurrent =>
      if f.w.vals[AktualniProud].n > ZERO_CURRENT_THRESHOLD then Arrived(f, false, now) else Fail(f)
    case Stop => Outcome(f.(motor := MotorFastStop, timer := StopTimer()), NeznaznamaPoloha)
    case BreakClose => Outcome(Timed(f.(motor := MotorStop), 3), StopZavirani)
    case BreakOpen => Outcome(Timed(f.(motor := MotorStop), 2), StopOtevirani)
    case RepeatOpen => Outcome(Timed(OpenF(f), MAX_OPEN_CLOSE_TIME_S), Otevirani)
    case RepeatClose => Outcome(Timed(CloseF(f), MAX_OPEN_CLOSE_TIME_S), Zavirani)
    case UnableOpen => Unable(f, true)
    case ToClose => Outcome(Timed(CloseF(f), MAX_OPEN_CLOSE_TIME_S), Zavirani)
    case UnableClose => Unable(f, false)
    case ToOpen => Outcome(Timed(OpenF(f), MAX_OPEN_CLOSE_TIME_S), Otevirani)
  }

  /** The timer step of `execute`: `EndTimer`, and `Event(ev_timer_expired)` when it runs out. */
  function TickF(f: Feeder): (r: Feeder)
    requires Ready(f)
    ensures Ready(r)
  {
    var t := EndTimer(f.timer);
    var g := f.(timer := t.timer);
    if t.expired then g.(w := g.w.(events := g.w.events + {EV_TIMER_EXPIRED},
                                    tasks := g.w.tasks[POSITION_TASK := true]))
    else g
  }

  /** Event `i` of the loop in `execute`: if pending, its action runs, the state follows, the bit is consumed. */
  function StepF(f: Feeder, i: nat, now: int32): (r: Feeder)
    requires Ready(f) && i < NMR_EVENTS
    ensures Ready(r)
  {
    if i in f.w.events then
      var o := Perform(Table(State(f), i), f, now);
      var g := if o.next != NOSTATE then SetStateF(o.f, o.next) else o.f;
      g.(w := g.w.(events := g.w.events - {i}))
    else f
  }

  /** The loop of `execute` after its first `n` rounds. */
  function DrainTo(f: Feeder, n: nat, now: int32): (r: Feeder)
    requires Ready(f) && n <= NMR_EVENTS
    ensures Ready(r)
  {
    if n == 0 then f else StepF(DrainTo(f, n - 1, now), n - 1, now)
  }

  /** `execute()`: the timer, then every pending event, or else the release of the position task. */
  function ExecuteF(f: Feeder, now: int32): (r: Feeder)
    requires Ready(f)
    ensures Ready(r)
  {
    var g := TickF(f);
    if g.w.events != {} then DrainTo(g, NMR_EVENTS, now)
    else if Stopped(g.motor) && !IsTimerRunning(g.timer) then g.(w := g.w.(tasks := g.w.tasks[POSITION_TASK := false]))
    else g
  }

  // ---------------------------------------------------------------------
  // what the machine guarantees

  /** The four states in which the feeder rests. */
  predicate Settled(s: nat)
  {
    s == NeznaznamaPoloha || s == Otevreno || s == Zavreno || s == ChybaKrmitka
  }

  /** The states that drive the motor toward open: the run itself, the back-off after a failed close, the test run after closing. */
  predicate Opening(s: nat)
  {
    s == Otevirani || s == UvolneniZavirani || s == OvereniZavreni
  }

  /** The states that drive the motor toward closed. */
  predicate Closing(s: nat)
  {
    s == Zavirani || s == UvolneniOtevirani || s == OvereniOtevreni
  }

  /** The pauses between a run and the opposite run. */
  predicate Pausing(s: nat)
  {
    s == StopZavirani || s == StopOtevirani
  }

  /**
   * The motor and the timer as state `s` expects them: at rest with no
   * timer in a settled state, running in the state's direction under a
   * timer in a moving state, stopped under a timer in a pause.
   */
  predicate Agrees(s: nat, m: MotorState, running: bool)
  {
    && (Settled(s) ==> Stopped(m) && !running)
    && (Opening(s) ==> m == MotorToOpen && running)
    && (Closing(s) ==> m == MotorToClose && running)
    && (Pausing(s) ==> Stopped(m) && running)
  }

  predicate Consistent(f: Feeder)
    requires Ready(f)
  {
    Agrees(State(f), f.motor, IsTimerRunning(f.timer))
  }

  /** The timer of a moving or pausing state has just run out, and its expiry is pending. */
  predicate Expiring(f: Feeder)
    requires Ready(f)
  {
    && !Settled(State(f)) && Agrees(State(f), f.motor, true)
    && !IsTimerRunning(f.timer) && EV_TIMER_EXPIRED in f.w.events
  }

  /**
   * What an action leaves alone: the pending events and the position
   * task flag; `noaction` changes nothing and is the only action that
   * names no next state.
   */
  lemma PerformFrame(a: Action, f: Feeder, now: int32)
    requires Ready(f)
    ensures var o := Perform(a, f, now);
      && o.f.w.events == f.w.events
      && o.f.w.tasks[POSITION_TASK] == f.w.tasks[POSITION_TASK]
      && (o.next == NOSTATE <==> a == NoAction)
      && (a == NoAction ==> o.f == f)
  {
    CheckFrame(f.w, ERROR_OPEN, true);
    CheckFrame(f.w, ERROR_CLOSE, true);
  }

  /**
   * Every action other than `noaction` leaves the motor and the timer as
   * the state it names expects; in particular the motor never runs
   * without a timer, and no timer is longer than the 100 s limit.
   */
  lemma ActionAgrees(a: Action, f: Feeder, now: int32)
    requires Ready(f) && a != NoAction
    ensures var o := Perform(a, f, now);
      && o.next < NMR_STATES && Agrees(o.next, o.f.motor, IsTimerRunning(o.f.timer))
      && o.f.timer <= Schedule(MAX_OPEN_CLOSE_TIME_S)
  {
  }

  /** Every state with a timer has an action for its expiry. */
  lemma ExpiryHandled(s: nat)
    requires s < NMR_STATES && !Settled(s)
    ensures Table(s, EV_TIMER_EXPIRED) != NoAction
  {
  }

  /** The timer step keeps the agreement, or leaves its expiry pending. */
  lemma TickAgrees(f: Feeder)
    requires Ready(f) && Consistent(f)
    ensures var g := TickF(f);
      Consistent(g) || Expiring(g)
  {
  }

  /** One round of the event loop keeps the agreement, or carries a pending expiry on to its own round. */
  lemma StepAgrees(f: Feeder, i: nat, now: int32)
    requires Ready(f) && i < NMR_EVENTS
    requires Consistent(f) || (i <= EV_TIMER_EXPIRED && Expiring(f))
    ensures var r := StepF(f, i, now);
      Consistent(r) || (i < EV_TIMER_EXPIRED && Expiring(r))
  {
    if i in f.w.events {
      var a := Table(State(f), i);
      PerformFrame(a, f, now);
      if a != NoAction {
        ActionAgrees(a, f, now);
      } else if Expiring(f) && !Consistent(f) {
        ExpiryHandled(State(f));
      }
    }
  }

  lemma {:induction false} DrainAgrees(g: Feeder, n: nat, now: int32)
    requires Ready(g) && n <= NMR_EVENTS && (Consistent(g) || Expiring(g))
    ensures Consistent(DrainTo(g, n, now)) || (n <= EV_TIMER_EXPIRED && Expiring(DrainTo(g, n, now)))
  {
    if n > 0 {
      var m := n - 1;
      var h := DrainTo(g, m, now);
      DrainAgrees(g, m, now);
      StepAgrees(h, m, now);
      assert DrainTo(g, n, now) == StepF(h, m, now);
    }
  }

  /**
   * `execute` keeps the motor and the timer in step with the feeder state:
   * the motor runs only in a moving state, in that state's direction and
   * under a running timer, and a settled state has the motor stopped and
   * no timer.
   */
  lemma ExecuteAgrees(f: Feeder, now: int32)
    requires Ready(f) && Consistent(f)
    ensures Consistent(ExecuteF(f, now))
  {
    TickAgrees(f);
    var g := TickF(f);
    if g.w.events != {} {
      DrainAgrees(g, NMR_EVENTS, now);
    }
  }

  /** One round consumes its own event bit and leaves the position task flag alone. */
  lemma StepFrame(f: Feeder, i: nat, now: int32)
    requires Ready(f) && i < NMR_EVENTS
    ensures var r := StepF(f, i, now);
      && r.w.events == f.w.events - {i}
      && r.w.tasks[POSITION_TASK] == f.w.tasks[POSITION_TASK]
  {
    if i in f.w.events {
      PerformFrame(Table(State(f), i), f, now);
    }
  }

  /** The loop consumes exactly the events below `n` and leaves the position task flag alone. */
  lemma {:induction false} DrainFrame(g: Feeder, n: nat, now: int32)
    requires Ready(g) && n <= NMR_EVENTS
    ensures var r := DrainTo(g, n, now);
      && (forall e :: e in r.w.events <==> e in g.w.events && e >= n)
      && r.w.tasks[POSITION_TASK] == g.w.tasks[POSITION_TASK]
  {
    if n > 0 {
      DrainFrame(g, n - 1, now);
      StepFrame(DrainTo(g, n - 1, now), n - 1, now);
    }
  }

  /**
   * With every pending bit one of the seven events, one `execute`
   * handles them all; the position task is then released by the next
   * `execute` once the motor and the timer are idle.
   */
  lemma ExecuteEmpties(f: Feeder, now: int32)
    requires Ready(f) && forall e :: e in f.w.events ==> e < NMR_EVENTS
    ensures ExecuteF(f, now).w.events == {}
  {
    var g := TickF(f);
    if g.w.events != {} {
      DrainFrame(g, NMR_EVENTS, now);
    }
  }

  /** With nothing pending, a stopped motor and no timer, `execute` releases the position task and changes nothing else. */
  lemma ReleasesWhenIdle(f: Feeder, now: int32)
    requires Ready(f) && f.w.events == {} && Stopped(f.motor) && !IsTimerRunning(f.timer)
    ensures ExecuteF(f, now) == f.(w := f.w.(tasks := f.w.tasks[POSITION_TASK := false]))
  {
  }

  /**
   * `execute` releases a busy position task only with nothing pending,
   * the motor stopped and no timer, which in a consistent machine means
   * a settled state: the device sleeps only at rest.
   */
  lemma ReleasesOnlySettled(f: Feeder, now: int32)
    requires Ready(f) && Consistent(f) && f.w.tasks[POSITION_TASK]
    requires !ExecuteF(f, now).w.tasks[POSITION_TASK]
    ensures var r := ExecuteF(f, now);
      && r.w.events == {} && Stopped(r.motor) && !IsTimerRunning(r.timer)
      && Settled(State(r))
  {
    var g := TickF(f);
    if g.w.events != {} {
      DrainFrame(g, NMR_EVENTS, now);
    } else {
      TickAgrees(f);
    }
  }

  /**
   * A pending bit the loop does not visit, such as `no_event` (bit 8),
   * survives `execute` and keeps the position task busy.
   */
  lemma StrayEventStays(f: Feeder, now: int32, e: nat)
    requires Ready(f) && e in f.w.events && e >= NMR_EVENTS && f.w.tasks[POSITION_TASK]
    ensures var r := ExecuteF(f, now);
      e in r.w.events && r.w.tasks[POSITION_TASK]
  {
    DrainFrame(TickF(f), NMR_EVENTS, now);
  }

  /** `execute` once per clock reading in `times`. */
  function Run(f: Feeder, times: seq<int32>): (r: Feeder)
    requires Ready(f)
    ensures Ready(r)
    decreases |times|
  {
    if times == [] then f else Run(ExecuteF(f, times[0]), times[1..])
  }

  /**
   * Once `no_event` is pending, as the two position faults leave it when
   * their `Check` posts their event as written, no number of `execute`
   * calls releases the position task, so the device never sleeps again.
   */
  lemma {:induction false} NoEventNeverSleeps(f: Feeder, times: seq<int32>)
    requires Ready(f) && NO_EVENT in f.w.events && f.w.tasks[POSITION_TASK]
    ensures var r := Run(f, times);
      NO_EVENT in r.w.events && r.w.tasks[POSITION_TASK]
    decreases |times|
  {
    if times != [] {
      StrayEventStays(f, times[0], NO_EVENT);
      NoEventNeverSleeps(ExecuteF(f, times[0]), times[1..]);
    }
  }

  /**
   * The stop event stops the motor in every consistent state except the
   * two short test runs after reaching an end, where it is ignored.
   */
  lemma StopHonoured(f: Feeder, now: int32)
    requires Ready(f) && Consistent(f) && EV_STOP in f.w.events
    ensures Stopped(StepF(f, EV_STOP, now).motor) <==>
      !(State(f) == OvereniOtevreni || State(f) == OvereniZavreni)
  {
  }

  /** The position fault that counts failed attempts in the given direction. */
  function PositionFault(open: bool): (k: nat)
    ensures k < NMR_FAULTS && (k == ERROR_OPEN <==> open)
  {
    if open then ERROR_OPEN else ERROR_CLOSE
  }

  /**
   * `ChybaKrmitka` holds until a user command: stop, open or close stop
   * the motor and put the feeder in the unknown position, and every
   * other event leaves it failed.
   */
  lemma FailureLatches(f: Feeder, i: nat, now: int32)
    requires Ready(f) && State(f) == ChybaKrmitka && i < NMR_EVENTS
    ensures var r := StepF(f, i, now);
      && State(r) == (if i in f.w.events && i <= EV_CLOSE then NeznaznamaPoloha else ChybaKrmitka)
      && (i in f.w.events && i <= EV_CLOSE ==> r.motor == MotorFastStop && !IsTimerRunning(r.timer))
  {
  }

  /** A failed attempt in the given direction, then the motor restarting that way (`repeat_open`, `repeat_close`). */
  function Retry(f: Feeder, open: bool): (r: Feeder)
    requires Ready(f)
    ensures Ready(r)
  {
    var g := Unable(f, open).f;
    if open then OpenF(g) else CloseF(g)
  }

  /** A failed attempt below the limit adds 25 to the position fault's count and backs off; the restart keeps the count. */
  lemma UnableCounts(f: Feeder, open: bool)
    requires Ready(f)
    requires var d := f.w.deb[PositionFault(open)];
      !d.matured && d.max == Debounce.CNT_MAX_DEFAULT && 0 <= d.cnt && d.cnt + 25 < 100
    ensures var d := f.w.deb[PositionFault(open)];
      && Unable(f, open).next == (if open then UvolneniOtevirani else UvolneniZavirani)
      && Retry(f, open).w.deb[PositionFault(open)] == d.(cnt := d.cnt + 25)
  {
    var k := PositionFault(open);
    CheckSteps(f.w, k, true);
    var g := f.(motor := MotorStop, w := CheckW(f.w, k, true));
    var t := Timed(g, 3);
    ClearPrefixFacts(t.w, MOTION, NMR_FAULTS);
    var o := Unable(f, open);
    ClearPrefixFacts(o.f.w, MOTION, NMR_FAULTS);
  }

  /** The attempt that brings the count to 100 matures the fault: the feeder fails with the motor stopped. */
  lemma UnableMatures(f: Feeder, open: bool)
    requires Ready(f)
    requires var d := f.w.deb[PositionFault(open)];
      !d.matured && d.max == Debounce.CNT_MAX_DEFAULT && 100 <= d.cnt + 25 <= 200
    ensures var o := Unable(f, open);
      o.next == ChybaKrmitka && Stopped(o.f.motor)
  {
    CheckSteps(f.w, PositionFault(open), true);
  }

  /**
   * From a clear position fault, the first three failed attempts in a
   * direction back off and retry; the fourth puts the feeder in
   * `ChybaKrmitka` with the motor stopped.
   */
  lemma FourthFailureFails(f0: Feeder, open: bool)
    requires Ready(f0)
    requires f0.w.deb[PositionFault(open)] == Debounce.Initial(Debounce.CNT_MAX_DEFAULT)
    ensures var back := if open then UvolneniOtevirani else UvolneniZavirani;
      var f1 := Retry(f0, open);
      var f2 := Retry(f1, open);
      var f3 := Retry(f2, open);
      && Unable(f0, open).next == back && Unable(f1, open).next == back && Unable(f2, open).next == back
      && Unable(f3, open).next == ChybaKrmitka && Stopped(Unable(f3, open).f.motor)
  {
    UnableCounts(f0, open);
    var f1 := Retry(f0, open);
    UnableCounts(f1, open);
    var f2 := Retry(f1, open);
    UnableCounts(f2, open);
    UnableMatures(Retry(f2, open), open);
  }

  // ---------------------------------------------------------------------
  // the machine on the shared objects

  class FeederCtrl {
    /** `FeederCtrl::timer`: task periods left before `ev_timer_expired`. */
    var timer: uint32
    const motor: Motor
    const faults: Faults
    /** The event word, the registers and the task flags. */
    const q: EventQueue
    const weight: Weight.Weight

    ghost predicate Valid()
      reads this, motor, motor.current, faults, q, q.regs, q.tasks
    {
      && motor.faults == faults && faults.q == q && weight.q == q
      && motor.Valid()
      && q.regs.vals[StavKrmitka].n < NMR_STATES
    }

    /** What the machine reads and writes, as one value. */
    ghost function Snap(): Feeder
      reads this, motor, faults, faults.q, faults.q.regs, faults.q.tasks
    {
      Feeder(motor.state, timer, faults.W())
    }

    lemma ValidReady()
      requires Valid()
      ensures Ready(Snap())
    {
      faults.ValidGood();
      assert Fits(Def(StavKrmitka), q.regs.vals[StavKrmitka]);
      assert Fits(Def(AktualniProud), q.regs.vals[AktualniProud]);
      assert Fits(Def(PosledniCasOtevreniS), q.regs.vals[PosledniCasOtevreniS]);
      assert Fits(Def(PosledniCasZavreniS), q.regs.vals[PosledniCasZavreniS]);
    }

    /** The machine with its timer stopped, over a motor, its faults and the weight. */
    constructor (m: Motor, wt: Weight.Weight)
      requires m.Valid() && wt.q == m.faults.q
      requires m.faults.q.regs.vals[StavKrmitka].n < NMR_STATES
      ensures Valid() && motor == m && weight == wt && timer == 0
    {
      motor := m;
      faults := m.faults;
      q := m.faults.q;
      weight := wt;
      timer := 0;
    }

    /** `Init()`: the position task is busy until the machine has settled. */
    method Init()
      requires Valid()
      modifies q.tasks
      ensures Valid() && q.tasks[..] == old(q.tasks[..])[POSITION_TASK := true]
    {
      q.tasks[POSITION_TASK] := true;
    }

    /** `IsState(s)`. */
    method IsState(s: nat) returns (b: bool)
      requires Valid()
      ensures b <==> State(Snap()) == s
    {
      ValidReady();
      b := q.regs.vals[StavKrmitka].n == s;
    }

    /** `SetState(s)`. */
    method SetState(s: nat)
      requires Valid() && s < NMR_STATES
      modifies q.regs
      ensures Valid() && Ready(old(Snap())) && Snap() == SetStateF(old(Snap()), s)
    {
      ValidReady();
      var _ := q.regs.SetNum(StavKrmitka, s);
    }

    /** `TimerStart(secs)`. */
    method TimerStart(secs: nat)
      requires secs <= MAX_OPEN_CLOSE_TIME_S
      modifies this
      ensures timer == StartTimer(Schedule(secs))
    {
      timer := StartTimer(Schedule(secs));
    }

    /** `TimerStop()`. */
    method TimerStop()
      modifies this
      ensures timer == StopTimer()
    {
      timer := StopTimer();
    }

    /** `motor.Open()`, seen from the machine. */
    method MotorOpen()
      requires Valid()
      modifies motor, faults, q.regs
      ensures Valid() && Ready(old(Snap())) && Snap() == OpenF(old(Snap()))
    {
      ValidReady();
      ghost var w0 := faults.W();
      motor.Open();
      ClearAllResult(w0, MOTION);
    }

    /** `motor.Close()`, seen from the machine. */
    method MotorClose()
      requires Valid()
      modifies motor, faults, q.regs
      ensures Valid() && Ready(old(Snap())) && Snap() == CloseF(old(Snap()))
    {
      ValidReady();
      ghost var w0 := faults.W();
      motor.Close();
      ClearAllResult(w0, MOTION);
    }

    /** `feeder_error()`. */
    method OnFeederError() returns (next: nat)
      requires Valid()
      modifies this, motor
      ensures Valid() && Ready(old(Snap())) && Outcome(Snap(), next) == Fail(old(Snap()))
    {
      ValidReady();
      motor.Stop();
      TimerStop();
      next := ChybaKrmitka;
    }

    /** The bookkeeping of `closed()` and `opened()`: the direction's position fault cleared, the arrival time stored. */
    method Record(open: bool, now: int32)
      requires Valid()
      modifies faults, q.regs
      ensures Valid() && Ready(old(Snap()))
      ensures Snap() == old(Snap()).(w := SetNumW(ClearW(old(faults.W()), if open then ERROR_OPEN else ERROR_CLOSE),
                                                    if open then PosledniCasOtevreniS else PosledniCasZavreniS, now))
    {
      ValidReady();
      var k := if open then ERROR_OPEN else ERROR_CLOSE;
      faults.Clear(k);
      ghost var w1 := faults.W();
      faults.ValidGood();
      var stamp := if open then PosledniCasOtevreniS else PosledniCasZavreniS;
      var _ := q.regs.SetNum(stamp, now);
      assert faults.W() == SetNumW(w1, stamp, now);
    }

    /** `closed()` and `opened()`. */
    method OnArrived(open: bool, now: int32) returns (next: nat)
      requires Valid()
      modifies this, motor, faults, q.regs, q.tasks
      ensures Valid() && Ready(old(Snap())) && Outcome(Snap(), next) == Arrived(old(Snap()), open, now)
    {
      ValidReady();
      motor.Stop();
      Record(open, now);
      TimerStop();
      if open {
        weight.RunMeasure();
        next := Otevreno;
      } else {
        next := Zavreno;
      }
    }

    /** `check_open_current()` and `check_close_current()`: arrived if the motor still drew current, failed otherwise. */
    method OnCheckCurrent(open: bool, now: int32) returns (next: nat)
      requires Valid()
      modifies this, motor, faults, q.regs, q.tasks
      ensures Valid() && Ready(old(Snap()))
      ensures Outcome(Snap(), next) ==
        if old(Snap()).w.vals[AktualniProud].n > ZERO_CURRENT_THRESHOLD then Arrived(old(Snap()), open, now)
        else Fail(old(Snap()))
    {
      ValidReady();
      if q.regs.vals[AktualniProud].n > ZERO_CURRENT_THRESHOLD {
        next := OnArrived(open, now);
      } else {
        next := OnFeederError();
      }
    }

    /** `check_open()`: a 2 s run back toward closed to test the open end. */
    method OnCheckOpen() returns (next: nat)
      requires Valid()
      modifies this, motor, faults, q.regs
      ensures Valid() && Ready(old(Snap()))
      ensures Snap() == Timed(CloseF(old(Snap())), 2) && next == OvereniOtevreni
    {
      ValidReady();
      MotorClose();
      TimerStart(2);
      next := OvereniOtevreni;
    }

    /** `check_close()`: a 1 s run back toward open to test the closed end. */
    method OnCheckClose() returns (next: nat)
      requires Valid()
      modifies this, motor, faults, q.regs
      ensures Valid() && Ready(old(Snap()))
      ensures Snap() == Timed(OpenF(old(Snap())), 1) && next == OvereniZavreni
    {
      ValidReady();
      MotorOpen();
      TimerStart(1);
      next := OvereniZavreni;
    }

    /** `stop()`: fast stop, timer stopped, position unknown. */
    method OnStop() returns (next: nat)
      requires Valid()
      modifies this, motor
      ensures Valid() && Ready(old(Snap()))
      ensures Snap() == old(Snap()).(motor := MotorFastStop, timer := StopTimer()) && next == NeznaznamaPoloha
    {
      ValidReady();
      motor.StopFast();
      TimerStop();
      next := NeznaznamaPoloha;
    }

    /** `break_close()` and `break_open()`: the motor stops and waits 3 s, or 2 s, before the opposite run. */
    method OnBreak(closing: bool) returns (next: nat)
      requires Valid()
      modifies this, motor
      ensures Valid() && Ready(old(Snap()))
      ensures Snap() == Timed(old(Snap()).(motor := MotorStop), if closing then 3 else 2)
      ensures next == if closing then StopZavirani else StopOtevirani
    {
      ValidReady();
      motor.Stop();
      if closing {
        TimerStart(3);
        next := StopZavirani;
      } else {
        TimerStart(2);
        next := StopOtevirani;
      }
    }

    /** `to_open()` and `repeat_open()`: toward open under the 100 s limit. */
    method OnDriveOpen() returns (next: nat)
      requires Valid()
      modifies this, motor, faults, q.regs
      ensures Valid() && Ready(old(Snap()))
      ensures Snap() == Timed(OpenF(old(Snap())), MAX_OPEN_CLOSE_TIME_S) && next == Otevirani
    {
      ValidReady();
      MotorOpen();
      TimerStart(MAX_OPEN_CLOSE_TIME_S);
      next := Otevirani;
    }

    /** `to_close()` and `repeat_close()`: toward closed under the 100 s limit. */
    method OnDriveClose() returns (next: nat)
      requires Valid()
      modifies this, motor, faults, q.regs
      ensures Valid() && Ready(old(Snap()))
      ensures Snap() == Timed(CloseF(old(Snap())), MAX_OPEN_CLOSE_TIME_S) && next == Zavirani
    {
      ValidReady();
      MotorClose();
      TimerStart(MAX_OPEN_CLOSE_TIME_S);
      next := Zavirani;
    }

    /** The first half of `unable_open()` and `unable_close()`: stop, and count the failed attempt. */
    method CountFailure(open: bool) returns (failed: bool)
      requires Valid()
      modifies motor, faults, q, q.regs, q.tasks
      ensures Valid() && Ready(old(Snap()))
      ensures var k := if open then ERROR_OPEN else ERROR_CLOSE;
        && Snap() == old(Snap()).(motor := MotorStop, w := CheckW(old(faults.W()), k, true))
        && failed == Snap().w.deb[k].matured
    {
      ValidReady();
      motor.Stop();
      var k := if open then ERROR_OPEN else ERROR_CLOSE;
      ghost var w0 := faults.W();
      failed := faults.Check(k, true);
      CheckFrame(w0, k, true);
    }

    /** `unable_open()` and `unable_close()`. */
    method OnUnable(open: bool) returns (next: nat)
      requires Valid()
      modifies this, motor, faults, q, q.regs, q.tasks
      ensures Valid() && Ready(old(Snap())) && Outcome(Snap(), next) == Unable(old(Snap()), open)
    {
      ValidReady();
      var failed := CountFailure(open);
      if failed {
        next := OnFeederError();
      } else {
        TimerStart(3);
        if open {
          MotorClose();
          next := UvolneniOtevirani;
        } else {
          MotorOpen();
          next := UvolneniZavirani;
        }
      }
    }

    /** `state_fun[...][...]()`: the action `a`. */
    method Act(a: Action, now: int32) returns (next: nat)
      requires Valid()
      modifies this, motor, faults, q, q.regs, q.tasks
      ensures Valid() && Ready(old(Snap())) && Outcome(Snap(), next) == Perform(a, old(Snap()), now)
    {
      ValidReady();
      match a
      case NoAction => next := NOSTATE;
      case FeederError => next := OnFeederError();
      case Closed => next := OnArrived(false, now);
      case Opened => next := OnArrived(true, now);
      case CheckOpen => next := OnCheckOpen();
      case CheckOpenCurrent => next := OnCheckCurrent(true, now);
      case CheckClose => next := OnCheckClose();
      case CheckCloseCurrent => next := OnCheckCurrent(false, now);
      case Stop => next := OnStop();
      case BreakClose => next := OnBreak(true);
      case BreakOpen => next := OnBreak(false);
      case RepeatOpen => next := OnDriveOpen();
      case RepeatClose => next := OnDriveClose();
      case UnableOpen => next := OnUnable(true);
      case ToClose => next := OnDriveClose();
      case UnableClose => next := OnUnable(false);
      case ToOpen => next := OnDriveOpen();
    }

    /** One round of the loop in `execute`. */
    method Dispatch(i: nat, now: int32)
      requires Valid() && i < NMR_EVENTS
      modifies this, motor, faults, q, q.regs, q.tasks
      ensures Valid() && Ready(old(Snap())) && Snap() == StepF(old(Snap()), i, now)
    {
      ValidReady();
      if i in q.events {
        var next := Act(Table(q.regs.vals[StavKrmitka].n, i), now);
        if next != NOSTATE {
          SetState(next);
        }
        q.Consume(i);
      }
    }

    /** The timer step of `execute`. */
    method Tick()
      requires Valid()
      modifies this, q, q.tasks
      ensures Valid() && Ready(old(Snap())) && Snap() == TickF(old(Snap()))
    {
      ValidReady();
      var t := EndTimer(timer);
      timer := t.timer;
      if t.expired {
        q.Event(EV_TIMER_EXPIRED);
      }
    }

    /** The `else` branch of `execute`: the position task is released once the motor and the timer are idle. */
    method Release()
      requires Valid()
      modifies q.tasks
      ensures Valid() && Ready(old(Snap()))
      ensures var f := old(Snap());
        Snap() == if Stopped(f.motor) && !IsTimerRunning(f.timer) then f.(w := f.w.(tasks := f.w.tasks[POSITION_TASK := false])) else f
    {
      ValidReady();
      var stopped := motor.IsStopped();
      if stopped && !IsTimerRunning(timer) {
        q.tasks[POSITION_TASK] := false;
      }
    }

    /** The loop of `execute`: every event, lowest first. */
    method Drain(now: int32)
      requires Valid()
      modifies this, motor, faults, q, q.regs, q.tasks
      ensures Valid() && Ready(old(Snap())) && Snap() == DrainTo(old(Snap()), NMR_EVENTS, now)
    {
      ValidReady();
      ghost var g := Snap();
      var i := 0;
      while i < NMR_EVENTS
        invariant i <= NMR_EVENTS && Valid() && Snap() == DrainTo(g, i, now)
      {
        DrainStep(g, i, now);
        i := i + 1;
      }
    }

    /** Round `i` of the loop of `execute`, which started from `g`. */
    method DrainStep(ghost g: Feeder, i: nat, now: int32)
      requires Valid() && Ready(g) && i < NMR_EVENTS && Snap() == DrainTo(g, i, now)
      modifies this, motor, faults, q, q.regs, q.tasks
      ensures Valid() && Snap() == DrainTo(g, i + 1, now)
    {
      Dispatch(i, now);
    }

    /** `execute()`, with `now` the clock the actions record. */
    method Execute(now: int32)
      requires Valid()
      modifies this, motor, faults, q, q.regs, q.tasks
      ensures Valid() && Ready(old(Snap())) && Snap() == ExecuteF(old(Snap()), now)
    {
      Tick();
      if q.events != {} {
        Drain(now);
      } else {
        Release();
      }
    }
  }
}
