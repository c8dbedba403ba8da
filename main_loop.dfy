/**
 * The button handling of main.cpp's `loop()` and the reset-reason mapping
 * of its `setup()`.
 *
 * Every 20 ms the loop reads both buttons. A short press of button 1
 * closes an open (or lost) feeder, of button 2 opens a closed (or lost)
 * one; pressed while the feeder is on its way, either stops it. Button 2
 * held long starts pairing. A press keeps the button task busy, so that
 * the device stays awake, until `btn_timer` runs out.
 *
 * The loop is given as the function `LoopF` on `Panel` values, and the
 * class `MainLoop` does the same work on the shared objects.
 */
module MainLoop {
  import opened Ints
  import opened Common
  import opened ParamTypes
  import opened ParamTable
  import opened Parameters
  import opened SleepCtrl
  import opened ParamValues
  import opened FeederEvents
  import opened Buttons
  import opened EspNowData
  import opened RegisterAccess
  import EspNowCtrl
  import FeederCtrl
  import EspNowClient

  const COMMON_LOOP_TASK_PERIOD_MS: nat := 20

  /** `TIME_SCHEDULE(secs)`: the loop periods in `secs` seconds. */
  function Schedule(secs: nat): (t: nat)
    ensures t * COMMON_LOOP_TASK_PERIOD_MS == secs * 1000
  {
    secs * 1000 / COMMON_LOOP_TASK_PERIOD_MS
  }

  /** `btn_timer` after a short press: 10 s. */
  const PRESS_HOLD: uint32 := 500
  /** `btn_timer` after the long press that starts pairing: 60 s. */
  const PAIRING_HOLD: uint32 := 3000

  lemma Holds()
    ensures PRESS_HOLD == Schedule(10) && PAIRING_HOLD == Schedule(60)
  {
  }

  // ---------------------------------------------------------------------
  // reset reasons

  /**
   * The switch of `setup()` on `rtc_get_reset_reason(0)` as written: the
   * case for 14 stores `rst_External` but has no `break`, so it goes on
   * into `default` and the stored reason ends as `rst_Unknown`.
   */
  function ResetReasonAsWritten(code: int): (r: nat)
  {
    match code
    case 1 => rst_Poweron
    case 3 => rst_Software
    case 12 => rst_Software
    case 5 => rst_Deepsleep
    case 4 => rst_Watchdog
    case 7 => rst_Watchdog
    case 8 => rst_Watchdog
    case 9 => rst_Watchdog
    case 11 => rst_Watchdog
    case 13 => rst_Watchdog
    case 16 => rst_Watchdog
    case 15 => rst_Brownout
    case _ => rst_Unknown
  }

  /** The reset codes the switch names, and the reason each case stores. */
  predicate Listed(code: int)
  {
    code in {1, 3, 4, 5, 7, 8, 9, 11, 12, 13, 14, 15, 16}
  }

  /** The switch with the `break` the case for 14 evidently lacks: 14 is an external reset. */
  function ResetReasonOf(code: int): (r: nat)
    ensures r == rst_Poweron <==> code == 1
    ensures r == rst_Software <==> code == 3 || code == 12
    ensures r == rst_Deepsleep <==> code == 5
    ensures r == rst_Watchdog <==> code in {4, 7, 8, 9, 11, 13, 16}
    ensures r == rst_Brownout <==> code == 15
    ensures r == rst_External <==> code == 14
    ensures r == rst_Unknown <==> !Listed(code)
  {
    if code == 14 then rst_External else ResetReasonAsWritten(code)
  }

  /**
   * The discrepancy: an external reset is recorded as unknown, although
   * the switch has a case for it, and that is the only code affected.
   */
  lemma ExternalResetLost(code: int)
    ensures code == 14 ==> ResetReasonAsWritten(code) == rst_Unknown && ResetReasonOf(code) == rst_External
    ensures code != 14 ==> ResetReasonAsWritten(code) == ResetReasonOf(code)
    ensures ResetReasonAsWritten(code) != rst_External
  {
  }

  // ---------------------------------------------------------------------
  // short presses

  /** What a short press asks of the feeder: nothing, `Event(ev_stop)`, or `EventSourced(e, povel_tlacitkem)`. */
  datatype Command = Nothing | StopCmd | Sourced(e: nat)

  /** Button 1 in feeder state `state`. */
  function CloseButton(state: int): (c: Command)
    ensures c == Sourced(EV_CLOSE) <==> state == Otevreno || state == NeznaznamaPoloha
    ensures c == Nothing <==> state == Zavreno
    ensures c == StopCmd <==> state != Otevreno && state != NeznaznamaPoloha && state != Zavreno
  {
    if state == Otevreno || state == NeznaznamaPoloha then Sourced(EV_CLOSE)
    else if state == Zavreno then Nothing
    else StopCmd
  }

  /** Button 2 in feeder state `state`. */
  function OpenButton(state: int): (c: Command)
    ensures c == Sourced(EV_OPEN) <==> state == Zavreno || state == NeznaznamaPoloha
    ensures c == Nothing <==> state == Otevreno
    ensures c == StopCmd <==> state != Zavreno && state != NeznaznamaPoloha && state != Otevreno
  {
    if state == Zavreno || state == NeznaznamaPoloha then Sourced(EV_OPEN)
    else if state == Otevreno then Nothing
    else StopCmd
  }

  /** The event a command raises, if any. */
  function EventOf(c: Command): (es: set<nat>)
    ensures |es| <= 1
  {
    match c
    case Nothing => {}
    case StopCmd => {EV_STOP}
    case Sourced(e) => {e}
  }

  /** The action the state machine runs for command `c` in state `s`, `NoAction` for no command. */
  function Reaction(s: nat, c: Command): FeederCtrl.Action
    requires s < NMR_STATES
  {
    match c
    case Nothing => FeederCtrl.NoAction
    case StopCmd => FeederCtrl.Table(s, EV_STOP)
    case Sourced(e) => if e < NMR_EVENTS then FeederCtrl.Table(s, e) else FeederCtrl.NoAction
  }

  /**
   * Against the transition table: button 1 starts closing exactly from
   * `Otevreno` and `NeznaznamaPoloha`, button 2 opening exactly from
   * `Zavreno` and `NeznaznamaPoloha`; otherwise a press stops a moving
   * feeder or the fault state, and does nothing in the verification and
   * reversal states, whose rows ignore `ev_stop`. Neither button ever
   * drives the feeder the other way.
   */
  lemma PressReactions(s: nat)
    requires s < NMR_STATES
    ensures Reaction(s, CloseButton(s)) == FeederCtrl.ToClose <==> s == Otevreno || s == NeznaznamaPoloha
    ensures Reaction(s, OpenButton(s)) == FeederCtrl.ToOpen <==> s == Zavreno || s == NeznaznamaPoloha
    ensures Reaction(s, CloseButton(s)) in {FeederCtrl.ToClose, FeederCtrl.Stop, FeederCtrl.NoAction}
    ensures Reaction(s, OpenButton(s)) in {FeederCtrl.ToOpen, FeederCtrl.Stop, FeederCtrl.NoAction}
    ensures s in {Otevirani, UvolneniOtevirani, Zavirani, UvolneniZavirani, ChybaKrmitka} ==>
      Reaction(s, CloseButton(s)) == FeederCtrl.Stop && Reaction(s, OpenButton(s)) == FeederCtrl.Stop
    ensures s in {OvereniOtevreni, OvereniZavreni, StopZavirani, StopOtevirani} ==>
      Reaction(s, CloseButton(s)) == FeederCtrl.NoAction && Reaction(s, OpenButton(s)) == FeederCtrl.NoAction
  {
    if s < 4 {
      if s == 0 {} else if s == 1 {} else if s == 2 {} else { assert s == 3; }
    } else if s < 8 {
      if s == 4 {} else if s == 5 {} else if s == 6 {} else { assert s == 7; }
    } else {
      if s == 8 {} else if s == 9 {} else if s == 10 {} else { assert s == 11; }
    }
  }

  // ---------------------------------------------------------------------
  // the loop as a function of the shared state

  /** Both buttons, `btn_timer`, the event word, the task flags and the registers. */
  datatype Panel = Panel(b1: Btn, b2: Btn, timer: uint32, events: set<nat>, tasks: seq<bool>, r: Bank)

  predicate Fine(p: Panel)
  {
    && |p.tasks| == NUMBER_TASKS && Fitting(p.r.vals)
    && (forall e :: e in p.events ==> e < WORD_BITS)
  }

  /** `StavKrmitka.Get()`. */
  function StateOf(p: Panel): int
    requires Fine(p)
  {
    RegistersFit(p.r.vals);
    p.r.vals[StavKrmitka].n
  }

  lemma RegistersFit(vals: seq<RegVal>)
    requires Fitting(vals)
    ensures vals[StavKrmitka].Num? && vals[PovelOd].Num? && Def(PovelOd).kind == U16
  {
    assert Fits(Def(StavKrmitka), vals[StavKrmitka]);
    assert Fits(Def(PovelOd), vals[PovelOd]);
  }

  /** A command carried out: its event raised, the position task busy, and `PovelOd` set for a sourced one. */
  function CommandF(p: Panel, c: Command): (n: Panel)
    requires Fine(p) && (c.Sourced? ==> c.e < WORD_BITS)
    ensures Fine(n) && n.events == p.events + EventOf(c) && n.b1 == p.b1 && n.b2 == p.b2 && n.timer == p.timer
    ensures StateOf(n) == StateOf(p) && n.tasks[BUTTON_TASK] == p.tasks[BUTTON_TASK]
  {
    RegistersFit(p.r.vals);
    match c
    case Nothing => p
    case StopCmd => p.(events := p.events + {EV_STOP}, tasks := p.tasks[POSITION_TASK := true])
    case Sourced(e) =>
      var v := Bank(p.r.vals[PovelOd := Num(povel_tlacitkem)], SetNumSaved(p.r.vals, p.r.saved, PovelOd, povel_tlacitkem));
      assert Fits(Def(PovelOd), v.vals[PovelOd]);
      assert forall i :: 0 <= i < NMR_PARAMETERS && i != PovelOd ==> v.vals[i] == p.r.vals[i];
      p.(events := p.events + {e}, tasks := p.tasks[POSITION_TASK := true], r := v)
  }

  /** Both buttons read, at time `now`, with pin levels `low1` and `low2`. */
  function ReadBoth(p: Panel, low1: bool, low2: bool, now: uint32, lpt1: uint32, lpt2: uint32): Panel
  {
    p.(b1 := ReadF(p.b1, low1, now, lpt1), b2 := ReadF(p.b2, low2, now, lpt2))
  }

  /** `if (btn1.IsOnEvent())`: the press taken, the timer started, the close button's command. */
  function OnCloseF(p: Panel): (n: Panel)
    requires Fine(p)
    ensures Fine(n) && StateOf(n) == StateOf(p)
    ensures n.b1 == p.b1.(press := false) && n.b2 == p.b2 && n.tasks[BUTTON_TASK] == p.tasks[BUTTON_TASK]
    ensures n.events == p.events + (if p.b1.press then EventOf(CloseButton(StateOf(p))) else {})
    ensures n.timer == if p.b1.press then PRESS_HOLD else p.timer
  {
    var p1 := p.(b1 := p.b1.(press := false));
    if p.b1.press then CommandF(p1.(timer := PRESS_HOLD), CloseButton(StateOf(p))) else p1
  }

  /** `if (btn2.IsOnEvent())`: also marks the button task busy. */
  function OnOpenF(p: Panel): (n: Panel)
    requires Fine(p)
    ensures Fine(n)
    ensures n.b1 == p.b1 && n.b2 == p.b2.(press := false) && n.tasks[BUTTON_TASK] == (p.b2.press || p.tasks[BUTTON_TASK])
    ensures n.events == p.events + (if p.b2.press then EventOf(OpenButton(StateOf(p))) else {})
    ensures n.timer == if p.b2.press then PRESS_HOLD else p.timer
  {
    var p1 := p.(b2 := p.b2.(press := false));
    if p.b2.press then
      CommandF(p1.(tasks := p1.tasks[BUTTON_TASK := true], timer := PRESS_HOLD), OpenButton(StateOf(p)))
    else p1
  }

  /** `if (btn2.IsLongOnEvent())`: the button task busy for a minute and pairing started. */
  function OnLongF(p: Panel): (n: Panel)
    requires Fine(p)
    ensures Fine(n)
    ensures n.b1 == p.b1 && n.b2 == p.b2.(pressLong := false) && n.events == p.events
    ensures n.tasks[BUTTON_TASK] == (p.b2.pressLong || p.tasks[BUTTON_TASK])
    ensures n.timer == if p.b2.pressLong then PAIRING_HOLD else p.timer
  {
    var p1 := p.(b2 := p.b2.(pressLong := false));
    if p.b2.pressLong then
      p1.(tasks := p1.tasks[BUTTON_TASK := true], timer := PAIRING_HOLD, r := EspNowClient.PairingBank(p1.r))
    else p1
  }

  /** `if (EndTimer(btn_timer))`: the button task released when the timer runs out. */
  function TickF(p: Panel): (n: Panel)
    requires Fine(p)
    ensures Fine(n) && n.b1 == p.b1 && n.b2 == p.b2 && n.events == p.events && n.r == p.r
    ensures n.timer == EndTimer(p.timer).timer
    ensures n.tasks[BUTTON_TASK] == (!EndTimer(p.timer).expired && p.tasks[BUTTON_TASK])
  {
    var t := EndTimer(p.timer);
    if t.expired then p.(timer := t.timer, tasks := p.tasks[BUTTON_TASK := false]) else p.(timer := t.timer)
  }

  /** One pass of `loop()`. */
  function LoopF(p: Panel, low1: bool, low2: bool, now: uint32, lpt1: uint32, lpt2: uint32): (n: Panel)
    requires Fine(p)
    ensures Fine(n)
  {
    TickF(OnLongF(OnOpenF(OnCloseF(ReadBoth(p, low1, low2, now, lpt1, lpt2)))))
  }

  /**
   * What one pass does with the presses the two reads detect: each short
   * press raises its button's command for the feeder state at the start of
   * the pass; the button task is busy afterwards exactly when button 2 was
   * pressed, short or long, or it was busy before, unless the timer ran
   * out in this pass; and the timer, restarted by any press (60 s for a
   * long one), has lost one tick.
   */
  lemma LoopEffects(p: Panel, low1: bool, low2: bool, now: uint32, lpt1: uint32, lpt2: uint32)
    requires Fine(p)
    ensures var n := LoopF(p, low1, low2, now, lpt1, lpt2);
      var b1, b2 := ReadF(p.b1, low1, now, lpt1), ReadF(p.b2, low2, now, lpt2);
      var s := StateOf(p);
      var started: uint32 := if b2.pressLong then PAIRING_HOLD else if b1.press || b2.press then PRESS_HOLD else p.timer;
      && n.b1 == b1.(press := false) && n.b2 == b2.(press := false, pressLong := false)
      && n.events == p.events + (if b1.press then EventOf(CloseButton(s)) else {})
                              + (if b2.press then EventOf(OpenButton(s)) else {})
      && n.timer == EndTimer(started).timer
      && n.tasks[BUTTON_TASK] == (!EndTimer(started).expired && (b2.press || b2.pressLong || p.tasks[BUTTON_TASK]))
  {
    var p0 := ReadBoth(p, low1, low2, now, lpt1, lpt2);
    var p1 := OnCloseF(p0);
    assert StateOf(p1) == StateOf(p0) == StateOf(p);
  }

  /**
   * The registers after one pass: a long press of button 2 forgets the
   * master and switches pairing mode; a pass without any press leaves
   * them alone.
   */
  lemma LoopPairing(p: Panel, low1: bool, low2: bool, now: uint32, lpt1: uint32, lpt2: uint32)
    requires Fine(p)
    ensures var n := LoopF(p, low1, low2, now, lpt1, lpt2);
      var b1, b2 := ReadF(p.b1, low1, now, lpt1), ReadF(p.b2, low2, now, lpt2);
      && (b2.pressLong ==>
            && n.r.vals[MasterMacAdresa] == Mac(EspNowCtrl.BROADCAST)
            && (n.r.vals[StavZarizeni] == Num(Parovani) <==> p.r.vals[StavZarizeni] != Num(Parovani)))
      && (!b2.pressLong && !b1.press && !b2.press ==> n.r == p.r)
  {
    var p0 := ReadBoth(p, low1, low2, now, lpt1, lpt2);
    var p2 := OnOpenF(OnCloseF(p0));
    if p0.b2.pressLong {
      EspNowClient.PairingToggles(p2.r);
      assert p2.r.vals[StavZarizeni] == p.r.vals[StavZarizeni] by {
        RegistersFit(p.r.vals);
      }
    }
  }

  class MainLoop {
    const btn1: Button
    const btn2: Button
    /** `btn_timer`. */
    var btnTimer: uint32
    /** `ESPNowClient`, and through it the event word, the registers and `active_tasks`. */
    const client: EspNowClient.Client

    ghost predicate Valid()
      reads this, btn1, btn2, client, client.q, client.q.regs, client.q.tasks, client.weight, client.log
    {
      btn1.Valid() && btn2.Valid() && btn1 != btn2 && client.Valid()
    }

    ghost function Snap(): Panel
      reads this, btn1, btn2, client.q, client.q.regs, client.q.tasks
    {
      var q := client.q;
      Panel(btn1.Snap(), btn2.Snap(), btnTimer, q.events, q.tasks[..], Bank(q.regs.vals, q.regs.saved))
    }

    lemma ValidFine()
      requires Valid()
      ensures Fine(Snap())
    {
    }

    constructor (b1: Button, b2: Button, c: EspNowClient.Client)
      requires b1.Valid() && b2.Valid() && b1 != b2 && c.Valid()
      ensures Valid() && btn1 == b1 && btn2 == b2 && client == c && btnTimer == 0
    {
      btn1, btn2, client := b1, b2, c;
      btnTimer := 0;
    }

    /**
     * The tail of `setup()` that is not another component's `Init`: the
     * button task released, the reset reason recorded, and after a wake-up
     * by the button the task busy for 10 s.
     */
    method Setup(code: int, gpioWake: bool)
      requires Valid()
      modifies this, client.q.tasks, client.q.regs
      ensures Valid() && Fine(old(Snap()))
      ensures client.q.tasks[..] == old(client.q.tasks[..])[BUTTON_TASK := gpioWake]
      ensures btnTimer == if gpioWake then PRESS_HOLD else old(btnTimer)
      ensures Bank(client.q.regs.vals, client.q.regs.saved) ==
        EspNowClient.SetBank(old(Snap()).r, ResetReason, ResetReasonOf(code) as int32)
      ensures client.q.events == old(client.q.events)
    {
      ValidFine();
      var q := client.q;
      q.tasks[BUTTON_TASK] := false;
      EspNowClient.ClientRegisters();
      var _ := q.regs.SetNum(ResetReason, ResetReasonOf(code) as int32);
      if gpioWake {
        q.tasks[BUTTON_TASK] := true;
        btnTimer := StartTimer(PRESS_HOLD);
      }
    }

    /** `loop()`, the pins reading `low1` and `low2` at time `now`; the 20-ms delay is left out. */
    method Loop(low1: bool, low2: bool, now: uint32)
      requires Valid()
      modifies this, btn1, btn2, client.q, client.q.tasks, client.q.regs
      ensures Valid() && Fine(old(Snap()))
      ensures Snap() == LoopF(old(Snap()), low1, low2, now, btn1.longPushTime, btn2.longPushTime)
    {
      ValidFine();
      btn1.Read(low1, now);
      btn2.Read(low2, now);
      OnClose();
      OnOpen();
      OnLong();
      Tick();
    }

    /** `if (btn1.IsOnEvent())`. */
    method OnClose()
      requires Valid()
      modifies this, btn1, client.q, client.q.tasks, client.q.regs
      ensures Valid() && Fine(old(Snap())) && Snap() == OnCloseF(old(Snap()))
    {
      ValidFine();
      var pressed := btn1.IsOnEvent();
      if pressed {
        btnTimer := StartTimer(PRESS_HOLD);
        Command(CloseButton(State()));
      }
    }

    /** `if (btn2.IsOnEvent())`. */
    method OnOpen()
      requires Valid()
      modifies this, btn2, client.q, client.q.tasks, client.q.regs
      ensures Valid() && Fine(old(Snap())) && Snap() == OnOpenF(old(Snap()))
    {
      ValidFine();
      var pressed := btn2.IsOnEvent();
      if pressed {
        client.q.tasks[BUTTON_TASK] := true;
        btnTimer := StartTimer(PRESS_HOLD);
        Command(OpenButton(State()));
      }
    }

    /** `if (btn2.IsLongOnEvent())`. */
    method OnLong()
      requires Valid()
      modifies this, btn2, client.q.tasks, client.q.regs
      ensures Valid() && Fine(old(Snap())) && Snap() == OnLongF(old(Snap()))
    {
      ValidFine();
      var held := btn2.IsLongOnEvent();
      if held {
        client.q.tasks[BUTTON_TASK] := true;
        btnTimer := StartTimer(PAIRING_HOLD);
        client.StartPairing();
      }
    }

    /** `if (EndTimer(btn_timer))`. */
    method Tick()
      requires Valid()
      modifies this, client.q.tasks
      ensures Valid() && Fine(old(Snap())) && Snap() == TickF(old(Snap()))
    {
      ValidFine();
      var t := EndTimer(btnTimer);
      btnTimer := t.timer;
      if t.expired {
        client.q.tasks[BUTTON_TASK] := false;
      }
    }

    /** `StavKrmitka.Get()`. */
    function State(): (s: int)
      requires Valid()
      reads this, btn1, btn2, client, client.q, client.q.regs, client.q.tasks, client.weight, client.log
      ensures Fine(Snap()) && s == StateOf(Snap())
    {
      RegistersFit(client.q.regs.vals);
      client.q.regs.vals[StavKrmitka].n
    }

    /** `FeederCtrl::Event(ev_stop)` or `EventSourced(e, povel_tlacitkem)`, as `c` asks. */
    method Command(c: Command)
      requires Valid() && (c.Sourced? ==> c.e < WORD_BITS)
      modifies client.q, client.q.tasks, client.q.regs
      ensures Valid() && Fine(old(Snap())) && Snap() == CommandF(old(Snap()), c)
    {
      ValidFine();
      match c
      case Nothing =>
      case StopCmd => client.q.Event(EV_STOP);
      case Sourced(e) =>
        EspNowClient.ClientRegisters();
        client.q.EventSourced(e, povel_tlacitkem);
    }
  }
}
