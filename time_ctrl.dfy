/**
 * Sunrise and sunset automation of time_ctrl.h.
 *
 * The master writes the times of the next sunrise and sunset into
 * `CasVychodu` and `CasZapadu`; each tick adds the configured delays,
 * moves the earlier time a day on once both have passed, publishes the
 * adjusted times in `CasOtevreni`/`CasZavreni`, and takes at most one
 * edge: sunset first, then sunrise. An edge needs its own flag clear, sets
 * it and clears the other, and is rate limited to one per hour (or a clock
 * that went backwards); the feeder event is raised only when the matching
 * automation register is on. The flags and `lastEvent` live in RTC memory.
 *
 * The tick is given as the function `TaskF` on `Dial` values, and the
 * class `TimeCtrl` does the same work on the shared objects. The local
 * time-of-day text of a time (`localtime_r` and `strftime`) is a parameter.
 */
module TimeCtrl {
  import opened Ints
  import opened ParamTypes
  import opened ParamTable
  import opened Parameters
  import opened SleepCtrl
  import opened ParamValues
  import opened FeederEvents

  const DAY_S: int := 24 * 60 * 60
  /** The shortest gap between two edges, unless the clock went back. */
  const EVENT_GAP_S: int := 60 * 60

  /** What one tick reads: the clock, the two base times and their delays in minutes. */
  datatype Sky = Sky(now: int, sunrise: int, sunset: int, riseDelay: int, setDelay: int)

  /** The adjusted times a tick works with once the roll is done. */
  datatype Plan = Plan(riseAt: int, setAt: int)

  /** `sunriseFlag`, `sunsetFlag` and `lastEvent`. */
  datatype Marks = Marks(riseFlag: bool, setFlag: bool, last: int)

  /** The edge a tick takes, if any. */
  datatype Edge = NoEdge | SunsetEdge | SunriseEdge

  /** A base time plus its delay in minutes. */
  function Adjusted(base: int, delay: int): (t: int)
    ensures t - base == delay * 60
  {
    base + delay * 60
  }

  /** The adjusted times before the roll. */
  function Unrolled(k: Sky): Plan
  {
    Plan(Adjusted(k.sunrise, k.riseDelay), Adjusted(k.sunset, k.setDelay))
  }

  /** Both times set and both adjusted times in the past. */
  predicate BothPast(k: Sky)
  {
    var u := Unrolled(k);
    k.sunrise != 0 && k.sunset != 0 && u.riseAt < k.now && u.setAt < k.now
  }

  /**
   * The adjusted times after the roll: once both have passed, the earlier
   * moves a day on (sunset when they are equal); otherwise neither moves.
   */
  function Rolled(k: Sky): (p: Plan)
    ensures var u := Unrolled(k);
      && (p.riseAt == u.riseAt || p.setAt == u.setAt)
      && (p != u <==> BothPast(k))
      && (p.riseAt != u.riseAt ==> p.riseAt == u.riseAt + DAY_S && u.riseAt < u.setAt)
      && (p.setAt != u.setAt ==> p.setAt == u.setAt + DAY_S && u.setAt <= u.riseAt)
  {
    var u := Unrolled(k);
    if BothPast(k) then
      if u.riseAt < u.setAt then u.(riseAt := u.riseAt + DAY_S) else u.(setAt := u.setAt + DAY_S)
    else u
  }

  /** More than an hour since the last edge, or the clock went back. */
  predicate RateOk(last: int, now: int)
  {
    last + EVENT_GAP_S < now || now < last
  }

  /** The condition of the sunset branch: the base time set, its adjusted time reached, its flag clear. */
  predicate SunsetDue(k: Sky, p: Plan, m: Marks)
  {
    k.sunset != 0 && k.now >= p.setAt && !m.setFlag
  }

  /** The condition of the sunrise branch. */
  predicate SunriseDue(k: Sky, p: Plan, m: Marks)
  {
    k.sunrise != 0 && k.now >= p.riseAt && !m.riseFlag
  }

  /** The `if … else if` of a tick, on the rolled times. */
  function EdgeOf(k: Sky, p: Plan, m: Marks): (e: Edge)
    ensures e == SunsetEdge <==> SunsetDue(k, p, m) && RateOk(m.last, k.now)
    // sunset has priority: while its branch is taken, sunrise is not looked at
    ensures e == SunriseEdge <==> !SunsetDue(k, p, m) && SunriseDue(k, p, m) && RateOk(m.last, k.now)
  {
    if SunsetDue(k, p, m) then
      if RateOk(m.last, k.now) then SunsetEdge else NoEdge
    else if SunriseDue(k, p, m) then
      if RateOk(m.last, k.now) then SunriseEdge else NoEdge
    else NoEdge
  }

  /** Whether edge `e` raises a feeder event: its automation register is on. */
  function Raises(e: Edge, autoOpen: bool, autoClose: bool): (raise: bool)
    ensures raise <==> (e == SunsetEdge && autoClose) || (e == SunriseEdge && autoOpen)
  {
    match e
    case NoEdge => false
    case SunsetEdge => autoClose
    case SunriseEdge => autoOpen
  }

  /** The flags and `lastEvent` after edge `e` at `now`, `raise` telling whether it raised an event. */
  function Marked(m: Marks, e: Edge, now: int, raise: bool): (n: Marks)
    ensures e == NoEdge ==> n == m
    ensures e == SunsetEdge ==> n.setFlag && !n.riseFlag
    ensures e == SunriseEdge ==> n.riseFlag && !n.setFlag
    ensures n.last == (if e != NoEdge && raise then now else m.last)
  {
    match e
    case NoEdge => m
    case SunsetEdge => Marks(false, true, if raise then now else m.last)
    case SunriseEdge => Marks(true, false, if raise then now else m.last)
  }

  /** What a tick reads besides the marks: the times and the two automation registers. */
  datatype Input = Input(k: Sky, autoOpen: bool, autoClose: bool)

  /** The edge a tick takes from marks `m`. */
  function EdgeAt(m: Marks, t: Input): Edge
  {
    EdgeOf(t.k, Rolled(t.k), m)
  }

  /** The marks after one tick. */
  function MarkStep(m: Marks, t: Input): (n: Marks)
  {
    var e := EdgeAt(m, t);
    Marked(m, e, t.k.now, Raises(e, t.autoOpen, t.autoClose))
  }

  /** The edges a run of ticks takes, in order, leaving out the ticks that take none. */
  function Edges(m: Marks, ts: seq<Input>): (es: seq<Edge>)
    ensures forall i :: 0 <= i < |es| ==> es[i] != NoEdge
    decreases |ts|
  {
    if ts == [] then []
    else
      var e := EdgeAt(m, ts[0]);
      (if e == NoEdge then [] else [e]) + Edges(MarkStep(m, ts[0]), ts[1..])
  }

  /** No two neighbouring edges are the same. */
  predicate Alternating(es: seq<Edge>)
  {
    forall i :: 0 <= i < |es| - 1 ==> es[i] != es[i + 1]
  }

  /**
   * Sunset and sunrise edges alternate: after a sunset edge the next edge,
   * however many ticks later and whatever the times, is a sunrise, and the
   * other way round. The first edge cannot repeat the flag already set.
   */
  lemma {:induction false} EdgesAlternate(m: Marks, ts: seq<Input>)
    requires !(m.riseFlag && m.setFlag)
    ensures Alternating(Edges(m, ts))
    ensures var es := Edges(m, ts);
      |es| > 0 ==> (m.setFlag ==> es[0] == SunriseEdge) && (m.riseFlag ==> es[0] == SunsetEdge)
    decreases |ts|
  {
    if ts != [] {
      var e := EdgeAt(m, ts[0]);
      var n := MarkStep(m, ts[0]);
      EdgesAlternate(n, ts[1..]);
      var rest := Edges(n, ts[1..]);
      if e != NoEdge {
        assert Edges(m, ts) == [e] + rest;
        if |rest| > 0 {
          assert e == SunsetEdge ==> rest[0] == SunriseEdge;
          assert e == SunriseEdge ==> rest[0] == SunsetEdge;
        }
      } else {
        assert n == m;
        assert Edges(m, ts) == [] + rest == rest;
      }
    }
  }

  /** After a tick that raised an event at `now`, no tick in the following hour takes an edge. */
  lemma QuietHour(m: Marks, t: Input, u: Input)
    requires Raises(EdgeAt(m, t), t.autoOpen, t.autoClose)
    requires t.k.now <= u.k.now <= t.k.now + EVENT_GAP_S
    ensures EdgeAt(MarkStep(m, t), u) == NoEdge
  {
    var n := MarkStep(m, t);
    assert n.last == t.k.now;
    assert !RateOk(n.last, u.k.now);
  }

  // ---------------------------------------------------------------------
  // the tick as a function of the shared state

  /** The registers, the event word, the task flags and the marks. */
  datatype Dial = Dial(vals: seq<RegVal>, saved: map<nat, RegVal>, events: set<nat>, tasks: seq<bool>, marks: Marks)

  /** The signed 32-bit registers the task reads or writes. */
  const S32_REGS: set<nat> := {CasVychodu, CasZapadu, PosledniCasOtevreniS, PosledniCasZavreniS}
  /** The signed 16-bit delays. */
  const S16_REGS: set<nat> := {ZpozdeniOtevreni, ZpozdeniZavreni}
  /** The unsigned 16-bit ones: the automation switches and `PovelOd`. */
  const U16_REGS: set<nat> := {AutomatikaOtevreni, AutomatikaZavreni, PovelOd}

  lemma UsedKinds()
    ensures forall i :: i in S32_REGS ==> i < NMR_PARAMETERS && Def(i).kind == S32
    ensures forall i :: i in S16_REGS ==> i < NMR_PARAMETERS && Def(i).kind == S16
    ensures forall i :: i in U16_REGS ==> i < NMR_PARAMETERS && Def(i).kind == U16
    ensures Def(CasOtevreni).kind == Clock && Def(CasZavreni).kind == Clock
    ensures Def(PosledniCasOtevreni).kind == Clock && Def(PosledniCasZavreni).kind == Clock
  {
    BaseKinds();
  }

  lemma BaseKinds()
    ensures Def(CasVychodu).kind == S32 && Def(CasZapadu).kind == S32
    ensures Def(PosledniCasOtevreniS).kind == S32 && Def(PosledniCasZavreniS).kind == S32
  {
  }

  predicate Fine(d: Dial)
  {
    && |d.vals| == NMR_PARAMETERS && |d.tasks| == NUMBER_TASKS
    && (forall i :: i in S32_REGS ==> d.vals[i].Num? && INT32_MIN <= d.vals[i].n <= INT32_MAX)
    && (forall i :: i in S16_REGS ==> d.vals[i].Num? && INT16_MIN <= d.vals[i].n <= INT16_MAX)
    && (forall i :: i in U16_REGS ==> d.vals[i].Num? && 0 <= d.vals[i].n <= UINT16_MAX)
    && (forall e :: e in d.events ==> e < WORD_BITS)
  }

  /** The numeric value of register `i`. */
  function Get(d: Dial, i: nat): int
    requires Fine(d) && (i in S32_REGS || i in S16_REGS || i in U16_REGS)
  {
    d.vals[i].n
  }

  /** `Now()` and the four registers the tick starts from. */
  function SkyOf(d: Dial, now: int): Sky
    requires Fine(d)
  {
    Sky(now, Get(d, CasVychodu), Get(d, CasZapadu), Get(d, ZpozdeniOtevreni), Get(d, ZpozdeniZavreni))
  }

  /** The tick's input as read from `d`. */
  function InputOf(d: Dial, now: int): Input
    requires Fine(d)
  {
    Input(SkyOf(d, now), Get(d, AutomatikaOtevreni) != 0, Get(d, AutomatikaZavreni) != 0)
  }

  /** `Set(v)` of a base time register: the low 32 bits of `t`, persisted in RTC memory when they change. */
  function SetBase(d: Dial, i: nat, t: int): (r: Dial)
    requires Fine(d) && (i == CasVychodu || i == CasZapadu)
    ensures Fine(r) && r.vals == d.vals[i := Num(ToInt32(t))]
    ensures r.events == d.events && r.tasks == d.tasks && r.marks == d.marks
  {
    UsedKinds();
    d.(vals := SetNumVals(d.vals, i, ToInt32(t)), saved := SetNumSaved(d.vals, d.saved, i, ToInt32(t)))
  }

  /** The roll stored back: the base time whose adjusted time moved is set a day on. */
  function StoreRoll(d: Dial, k: Sky, p: Plan): (n: Dial)
    requires Fine(d)
    ensures Fine(n) && n.events == d.events && n.tasks == d.tasks && n.marks == d.marks
  {
    var u := Unrolled(k);
    if p.riseAt != u.riseAt then SetBase(d, CasVychodu, k.sunrise + DAY_S)
    else if p.setAt != u.setAt then SetBase(d, CasZapadu, k.sunset + DAY_S)
    else d
  }

  /** `CasOtevreni` and `CasZavreni` show the adjusted times of the base times that are set. */
  function Show(d: Dial, k: Sky, p: Plan, text: int -> seq<uint8>): (n: Dial)
    requires Fine(d)
    ensures Fine(n) && n.events == d.events && n.tasks == d.tasks && n.marks == d.marks && n.saved == d.saved
  {
    var v1 := if k.sunrise != 0 then d.vals[CasOtevreni := Time(p.riseAt, ClockText(p.riseAt, text(p.riseAt)))] else d.vals;
    var v2 := if k.sunset != 0 then v1[CasZavreni := Time(p.setAt, ClockText(p.setAt, text(p.setAt)))] else v1;
    d.(vals := v2)
  }

  /** `EventSourced(e, povel_casem)`. */
  function RaiseF(d: Dial, e: nat): (n: Dial)
    requires Fine(d) && e < WORD_BITS
    ensures Fine(n) && n.events == d.events + {e} && n.marks == d.marks && n.tasks == d.tasks[POSITION_TASK := true]
  {
    UsedKinds();
    d.(events := d.events + {e}, tasks := d.tasks[POSITION_TASK := true],
       vals := d.vals[PovelOd := Num(povel_casem)], saved := SetNumSaved(d.vals, d.saved, PovelOd, povel_casem))
  }

  /** Edge `e` taken at `now`: its marks, and its event when `raise`. */
  function FireF(d: Dial, e: Edge, now: int, raise: bool): (n: Dial)
    requires Fine(d)
    ensures Fine(n) && n.marks == Marked(d.marks, e, now, raise)
    ensures e != NoEdge && raise ==>
      && n.events == d.events + {if e == SunsetEdge then EV_CLOSE else EV_OPEN}
      && n.tasks == d.tasks[POSITION_TASK := true]
    ensures !(e != NoEdge && raise) ==> n.events == d.events && n.tasks == d.tasks
  {
    var d1 := d.(marks := Marked(d.marks, e, now, raise));
    if e != NoEdge && raise then RaiseF(d1, if e == SunsetEdge then EV_CLOSE else EV_OPEN) else d1
  }

  /** `Task()` at time `now`. */
  function TaskF(d: Dial, now: int, text: int -> seq<uint8>): (n: Dial)
    requires Fine(d)
    ensures Fine(n)
  {
    var t := InputOf(d, now);
    if t.k.sunrise == 0 && t.k.sunset == 0 then d.(tasks := d.tasks[TIME_TASK := false])
    else
      var p := Rolled(t.k);
      var d1 := Show(StoreRoll(d.(tasks := d.tasks[TIME_TASK := true]), t.k, p), t.k, p, text);
      var e := EdgeOf(t.k, p, d1.marks);
      var d2 := FireF(d1, e, now, Raises(e, t.autoOpen, t.autoClose));
      d2.(tasks := d2.tasks[TIME_TASK := false])
  }

  /** The marks a tick leaves are those of `MarkStep`, so `EdgesAlternate` covers every run of `Task`. */
  lemma TaskMarks(d: Dial, now: int, text: int -> seq<uint8>)
    requires Fine(d)
    ensures TaskF(d, now, text).marks == MarkStep(d.marks, InputOf(d, now))
  {
    var t := InputOf(d, now);
    if t.k.sunrise == 0 && t.k.sunset == 0 {
      assert !SunsetDue(t.k, Rolled(t.k), d.marks) && !SunriseDue(t.k, Rolled(t.k), d.marks);
    }
  }

  /**
   * With neither time set, a tick only releases the time task. Otherwise
   * it always releases it too, and no other flag changes except the
   * position task an event marks busy.
   */
  lemma TaskEffects(d: Dial, now: int, text: int -> seq<uint8>)
    requires Fine(d)
    ensures var n, t := TaskF(d, now, text), InputOf(d, now);
      && (t.k.sunrise == 0 && t.k.sunset == 0 ==> n == d.(tasks := d.tasks[TIME_TASK := false]))
      && !n.tasks[TIME_TASK]
      && (forall j :: 0 <= j < NUMBER_TASKS && j != TIME_TASK && j != POSITION_TASK ==> n.tasks[j] == d.tasks[j])
  {
    var t := InputOf(d, now);
    if !(t.k.sunrise == 0 && t.k.sunset == 0) {
      var p := Rolled(t.k);
      var d1 := Show(StoreRoll(d.(tasks := d.tasks[TIME_TASK := true]), t.k, p), t.k, p, text);
      assert forall j :: 0 <= j < NUMBER_TASKS && j != TIME_TASK ==> d1.tasks[j] == d.tasks[j];
    }
  }

  /**
   * The events of a tick: at most one, close exactly for a sunset edge and
   * open exactly for a sunrise edge, each only with its automation
   * register on.
   */
  lemma TaskEvents(d: Dial, now: int, text: int -> seq<uint8>)
    requires Fine(d)
    ensures var n, t := TaskF(d, now, text), InputOf(d, now);
      && (n.events == d.events + {EV_CLOSE} || n.events == d.events + {EV_OPEN} || n.events == d.events)
      && (EV_CLOSE !in d.events && EV_CLOSE in n.events ==> EdgeAt(d.marks, t) == SunsetEdge && t.autoClose)
      && (EV_OPEN !in d.events && EV_OPEN in n.events ==> EdgeAt(d.marks, t) == SunriseEdge && t.autoOpen)
      && (EdgeAt(d.marks, t) == SunsetEdge && t.autoClose ==> n.events == d.events + {EV_CLOSE})
      && (EdgeAt(d.marks, t) == SunriseEdge && t.autoOpen ==> n.events == d.events + {EV_OPEN})
  {
    var t := InputOf(d, now);
    if !(t.k.sunrise == 0 && t.k.sunset == 0) {
      var p := Rolled(t.k);
      var d1 := Show(StoreRoll(d.(tasks := d.tasks[TIME_TASK := true]), t.k, p), t.k, p, text);
      assert d1.marks == d.marks && d1.events == d.events;
    }
  }

  /**
   * The roll and the published times: once both adjusted times have
   * passed, the base time of the earlier one is set a day on and the other
   * kept; each set base time is shown with its delay added, after the roll.
   */
  lemma TaskTimes(d: Dial, now: int, text: int -> seq<uint8>)
    requires Fine(d)
    requires Get(d, CasVychodu) != 0 || Get(d, CasZapadu) != 0
    ensures var n, k := TaskF(d, now, text), SkyOf(d, now);
      var u, p := Unrolled(k), Rolled(k);
      && (BothPast(k) && u.riseAt < u.setAt ==>
           n.vals[CasVychodu] == Num(ToInt32(k.sunrise + DAY_S)) && n.vals[CasZapadu] == d.vals[CasZapadu])
      && (BothPast(k) && u.setAt <= u.riseAt ==>
           n.vals[CasZapadu] == Num(ToInt32(k.sunset + DAY_S)) && n.vals[CasVychodu] == d.vals[CasVychodu])
      && (!BothPast(k) ==> n.vals[CasVychodu] == d.vals[CasVychodu] && n.vals[CasZapadu] == d.vals[CasZapadu])
      && (k.sunrise != 0 ==> n.vals[CasOtevreni] == Time(p.riseAt, ClockText(p.riseAt, text(p.riseAt))))
      && (k.sunset != 0 ==> n.vals[CasZavreni] == Time(p.setAt, ClockText(p.setAt, text(p.setAt))))
      && (k.sunrise == 0 ==> n.vals[CasOtevreni] == d.vals[CasOtevreni])
      && (k.sunset == 0 ==> n.vals[CasZavreni] == d.vals[CasZavreni])
  {
    var k := SkyOf(d, now);
    var p := Rolled(k);
    var d1 := Show(StoreRoll(d.(tasks := d.tasks[TIME_TASK := true]), k, p), k, p, text);
    var e := EdgeOf(k, p, d1.marks);
    var d2 := FireF(d1, e, now, Raises(e, Get(d, AutomatikaOtevreni) != 0, Get(d, AutomatikaZavreni) != 0));
    assert d2.vals == d1.vals || d2.vals == d1.vals[PovelOd := Num(povel_casem)];
  }

  class TimeCtrl {
    /** `sunriseFlag`, in RTC memory. */
    var sunriseFlag: bool
    /** `sunsetFlag`, in RTC memory. */
    var sunsetFlag: bool
    /** `lastEvent`, in RTC memory: when the last event was raised. */
    var lastEvent: int
    /** The event word, and through it the registers and the task flags. */
    const q: EventQueue

    ghost predicate Valid()
      reads this, q, q.regs, q.tasks
    {
      q.Valid()
    }

    ghost function Snap(): Dial
      reads this, q, q.regs, q.tasks
    {
      Dial(q.regs.vals, q.regs.saved, q.events, q.tasks[..], Marks(sunriseFlag, sunsetFlag, lastEvent))
    }

    lemma ValidFine()
      requires Valid()
      ensures Fine(Snap())
    {
      UsedKinds();
      forall i | i in S32_REGS || i in S16_REGS || i in U16_REGS
        ensures Fits(Def(i), q.regs.vals[i])
      {
      }
    }

    /** The RTC variables start zeroed: both flags clear and no event yet. */
    constructor (events: EventQueue)
      requires events.Valid()
      ensures Valid() && q == events && Snap().marks == Marks(false, false, 0)
    {
      q := events;
      sunriseFlag, sunsetFlag, lastEvent := false, false, 0;
    }

    /**
     * `Init()`: the time task is marked busy and the last opening and
     * closing times are shown from their retained copies. The time zone
     * set-up is left out.
     */
    method Init(text: int -> seq<uint8>)
      requires Valid()
      modifies q.tasks, q.regs
      ensures Valid() && Fine(old(Snap()))
      ensures var o, c := Get(old(Snap()), PosledniCasOtevreniS), Get(old(Snap()), PosledniCasZavreniS);
        q.regs.vals == old(q.regs.vals)[PosledniCasOtevreni := Time(o, ClockText(o, text(o)))]
                                       [PosledniCasZavreni := Time(c, ClockText(c, text(c)))]
      ensures q.regs.saved == old(q.regs.saved)
      ensures q.tasks[..] == old(q.tasks[..])[TIME_TASK := true]
    {
      ValidFine();
      q.tasks[TIME_TASK] := true;
      UsedKinds();
      var o := q.regs.vals[PosledniCasOtevreniS].n;
      var c := q.regs.vals[PosledniCasZavreniS].n;
      var _ := q.regs.SetTime(PosledniCasOtevreni, o, text(o));
      var _ := q.regs.SetTime(PosledniCasZavreni, c, text(c));
    }

    /** `Task()` at time `now`. */
    method Task(now: int, text: int -> seq<uint8>)
      requires Valid()
      modifies this, q, q.tasks, q.regs
      ensures Valid() && Fine(old(Snap()))
      ensures Snap() == TaskF(old(Snap()), now, text)
      ensures q.regs.latch == old(q.regs.latch) && q.regs.activeIdx == old(q.regs.activeIdx)
      ensures q.regs.activeRegAdr == old(q.regs.activeRegAdr)
    {
      ValidFine();
      var sunrise := q.regs.vals[CasVychodu].n;
      var sunset := q.regs.vals[CasZapadu].n;
      if sunrise == 0 && sunset == 0 {
        q.tasks[TIME_TASK] := false;
        return;
      }
      q.tasks[TIME_TASK] := true;
      var k := Sky(now, sunrise, sunset, q.regs.vals[ZpozdeniOtevreni].n, q.regs.vals[ZpozdeniZavreni].n);
      var autoOpen, autoClose := q.regs.vals[AutomatikaOtevreni].n != 0, q.regs.vals[AutomatikaZavreni].n != 0;
      var p := Roll(k);
      Publish(k, p, text);
      Fire(k, p, autoOpen, autoClose);
      q.tasks[TIME_TASK] := false;
    }

    /** The roll: once both adjusted times have passed, the base time of the earlier is set a day on. */
    method Roll(k: Sky) returns (p: Plan)
      requires Valid()
      modifies q.regs
      ensures Valid() && Fine(old(Snap()))
      ensures p == Rolled(k) && Snap() == StoreRoll(old(Snap()), k, p)
      ensures q.regs.latch == old(q.regs.latch) && q.regs.activeIdx == old(q.regs.activeIdx)
      ensures q.regs.activeRegAdr == old(q.regs.activeRegAdr)
    {
      ValidFine();
      UsedKinds();
      var riseAt, setAt := Adjusted(k.sunrise, k.riseDelay), Adjusted(k.sunset, k.setDelay);
      if riseAt < k.now && setAt < k.now && k.sunrise != 0 && k.sunset != 0 {
        if riseAt < setAt {
          SetBaseReg(CasVychodu, k.sunrise + DAY_S);
          riseAt := riseAt + DAY_S;
        } else {
          SetBaseReg(CasZapadu, k.sunset + DAY_S);
          setAt := setAt + DAY_S;
        }
      }
      p := Plan(riseAt, setAt);
    }

    /** `CasVychodu.Set(t)` or `CasZapadu.Set(t)`. */
    method SetBaseReg(i: nat, t: int)
      requires Valid() && (i == CasVychodu || i == CasZapadu)
      modifies q.regs
      ensures Valid() && Fine(old(Snap()))
      ensures Snap() == SetBase(old(Snap()), i, t)
      ensures q.regs.latch == old(q.regs.latch) && q.regs.activeIdx == old(q.regs.activeIdx)
      ensures q.regs.activeRegAdr == old(q.regs.activeRegAdr)
    {
      ValidFine();
      UsedKinds();
      var _ := q.regs.SetNum(i, ToInt32(t));
    }

    /** `CasOtevreni.Set(adjustedSunriseTime)` and `CasZavreni.Set(adjustedSunsetTime)` for the base times that are set. */
    method Publish(k: Sky, p: Plan, text: int -> seq<uint8>)
      requires Valid()
      modifies q.regs
      ensures Valid() && Fine(old(Snap()))
      ensures Snap() == Show(old(Snap()), k, p, text)
      ensures q.regs.latch == old(q.regs.latch) && q.regs.activeIdx == old(q.regs.activeIdx)
      ensures q.regs.activeRegAdr == old(q.regs.activeRegAdr)
    {
      ValidFine();
      UsedKinds();
      if k.sunrise != 0 {
        var _ := q.regs.SetTime(CasOtevreni, p.riseAt, text(p.riseAt));
      }
      if k.sunset != 0 {
        var _ := q.regs.SetTime(CasZavreni, p.setAt, text(p.setAt));
      }
    }

    /** The sunset branch, else the sunrise branch. */
    method Fire(k: Sky, p: Plan, autoOpen: bool, autoClose: bool)
      requires Valid()
      modifies this, q, q.tasks, q.regs
      ensures Valid() && Fine(old(Snap()))
      ensures var e := EdgeOf(k, p, old(Snap()).marks);
        Snap() == FireF(old(Snap()), e, k.now, Raises(e, autoOpen, autoClose))
      ensures q.regs.latch == old(q.regs.latch) && q.regs.activeIdx == old(q.regs.activeIdx)
      ensures q.regs.activeRegAdr == old(q.regs.activeRegAdr)
    {
      ValidFine();
      if k.sunset != 0 && k.now >= p.setAt && !sunsetFlag {
        Take(SunsetEdge, k.now, autoClose);
      } else if k.sunrise != 0 && k.now >= p.riseAt && !sunriseFlag {
        Take(SunriseEdge, k.now, autoOpen);
      }
    }

    /**
     * One branch: more than an hour after the last event, or with the
     * clock gone back, its flag is set and the other cleared, and with its
     * automation on the event is raised and its time kept.
     */
    method Take(e: Edge, now: int, auto: bool)
      requires Valid() && e != NoEdge
      modifies this, q, q.tasks, q.regs
      ensures Valid() && Fine(old(Snap()))
      ensures var taken := if RateOk(old(lastEvent), now) then e else NoEdge;
        Snap() == FireF(old(Snap()), taken, now, auto)
      ensures q.regs.latch == old(q.regs.latch) && q.regs.activeIdx == old(q.regs.activeIdx)
      ensures q.regs.activeRegAdr == old(q.regs.activeRegAdr)
    {
      ValidFine();
      UsedKinds();
      if lastEvent + EVENT_GAP_S < now || now < lastEvent {
        sunsetFlag := e == SunsetEdge;
        sunriseFlag := e == SunriseEdge;
        if auto {
          q.EventSourced(if e == SunsetEdge then EV_CLOSE else EV_OPEN, povel_casem);
          lastEvent := now;
        }
      }
    }
  }
}
