/**
 * The door motor of motor.cpp: its drive state, the filtered current
 * sample, the supervision of the three current faults while it runs, and
 * the battery reading. The ADC samples and the LBO pin are parameters;
 * the pin writes and delays are left out.
 */
module Motor {
  import opened Ints
  import opened ParamTypes
  import opened ParamTable
  import opened Parameters
  import opened FeederEvents
  import opened Errors
  import ExpFilter

  /** `MotorState_t`. */
  datatype MotorState = MotorStop | MotorFastStop | MotorToOpen | MotorToClose

  const ZERO_CURRENT_THRESHOLD: int := 25
  const LOW_BATTERY_THRESHOLD: int := 3200
  const BAT_RDIVIDER_R_UP: int := 100
  const BAT_RDIVIDER_R_DOWN: int := 100

  /** `IsStopped()`. */
  predicate Stopped(s: MotorState)
  {
    s == MotorStop || s == MotorFastStop
  }

  /** The register values after `ReadCurrent` stored the filter output `f` in `AktualniProud`. */
  function Sensed(w: World, f: int16): (r: World)
    requires Good(w)
    ensures Good(r)
  {
    w.(vals := w.vals[AktualniProud := Num(f)])
  }

  /**
   * The three `Check` calls of `Run` for the drive state `s`, the current
   * `cur` and the limit `maxc`: the fault of the running direction sees
   * the overcurrent, the other overcurrent fault sees false, `no_current`
   * sees a current under 25; a stopped motor feeds false to all three.
   */
  function Supervise(w: World, s: MotorState, cur: int, maxc: int): (r: World)
    requires Good(w)
    ensures Good(r)
  {
    var run := !Stopped(s);
    var w1 := CheckW(w, Leading(s), run && cur > maxc);
    var w2 := CheckW(w1, Trailing(s), false);
    CheckW(w2, NO_CURRENT, run && cur < ZERO_CURRENT_THRESHOLD)
  }

  /** The overcurrent fault checked first: the one of the running direction, `ovrl_open` when stopped. */
  function Leading(s: MotorState): nat
  {
    if s == MotorToClose then OVRL_CLOSE else OVRL_OPEN
  }

  /** The other overcurrent fault. */
  function Trailing(s: MotorState): nat
  {
    if s == MotorToClose then OVRL_OPEN else OVRL_CLOSE
  }

  /** A `Check(false)` neither activates its fault nor raises an event. */
  lemma QuietCheck(w: World, k: nat)
    requires Good(w) && k < NMR_FAULTS
    ensures var r := CheckW(w, k, false);
      && r.events == w.events
      && forall j :: 0 <= j < NMR_FAULTS && r.deb[j].matured ==> w.deb[j].matured
  {
    CheckSteps(w, k, false);
    CheckRaises(w, k, false);
  }

  /** A stopped motor never activates a fault nor raises an event. */
  lemma StoppedRaisesNothing(w: World, s: MotorState, cur: int, maxc: int)
    requires Good(w) && Stopped(s)
    ensures var r := Supervise(w, s, cur, maxc);
      && r.events == w.events
      && forall j :: 0 <= j < NMR_FAULTS && r.deb[j].matured ==> w.deb[j].matured
  {
    var w1 := CheckW(w, Leading(s), false);
    var w2 := CheckW(w1, Trailing(s), false);
    QuietCheck(w, Leading(s));
    QuietCheck(w1, Trailing(s));
    QuietCheck(w2, NO_CURRENT);
  }

  /**
   * While opening, the closing overcurrent fault is never activated: the
   * only events `Run` can raise are the opening overcurrent and the
   * missing current; symmetrically while closing.
   */
  lemma DirectionalOverload(w: World, s: MotorState, cur: int, maxc: int)
    requires Good(w) && !Stopped(s)
    ensures var r := Supervise(w, s, cur, maxc);
      && var own := if s == MotorToOpen then OVRL_OPEN else OVRL_CLOSE;
      && var other := if s == MotorToOpen then OVRL_CLOSE else OVRL_OPEN;
      && (r.deb[other].matured ==> w.deb[other].matured)
      && r.events <= w.events + {Fault(own).event, EV_NO_CURRENT}
  {
    var own := Leading(s);
    var other := Trailing(s);
    var w1 := CheckW(w, own, cur > maxc);
    var w2 := CheckW(w1, other, false);
    CheckSteps(w, own, cur > maxc);
    CheckRaises(w, own, cur > maxc);
    QuietCheck(w1, other);
    CheckSteps(w2, NO_CURRENT, cur < ZERO_CURRENT_THRESHOLD);
    CheckRaises(w2, NO_CURRENT, cur < ZERO_CURRENT_THRESHOLD);
  }

  /** `x | 0x8000` on an unsigned value: bit 15 is added unless it is already set. */
  function OrBit15(x: nat): (r: nat)
  {
    if (x / 0x8000) % 2 == 1 then x else x + 0x8000
  }

  /** The smoothing step of `ReadBatteryVoltage`: an eighth of the gap, truncated toward zero. */
  function Smooth(last: int, v: int): int
  {
    last + CDiv(v - last, 8)
  }

  /** The two divided samples summed and scaled by the divider ratio, in uint32 arithmetic. */
  function Reading(s1: uint32, s2: uint32): (r: uint32)
  {
    ToUint32(ToUint32(ToUint32(s1 + s2) * (BAT_RDIVIDER_R_UP + BAT_RDIVIDER_R_DOWN)) / (BAT_RDIVIDER_R_DOWN * 2))
  }

  /** With the two equal resistors the reading is the sum of the samples. */
  lemma ReadingIsSum(s1: uint32, s2: uint32)
    requires s1 + s2 < 0x4000
    ensures Reading(s1, s2) == s1 + s2
  {
    var sum := s1 + s2;
    assert ToUint32(sum) == sum;
    assert ToUint32(sum * 200) == sum * 200;
    DivOfMultiple(sum, 200);
  }

  /** The reading smoothed against the previous value's low 15 bits, unless those are 0. */
  function Smoothed(prev: int, raw: uint32): (r: uint32)
  {
    var last := ToUint16(prev) % 0x8000;
    if last != 0 then ToUint32(Smooth(last, ToInt32(raw))) else raw
  }

  /**
   * The value `ReadBatteryVoltage` stores, from the previous register
   * value, two ADC samples of the divided battery voltage and the LBO pin.
   */
  function BatteryValue(prev: int, s1: uint32, s2: uint32, lboLow: bool): int32
  {
    var v := Smoothed(prev, Reading(s1, s2));
    ToInt32(if lboLow then OrBit15(v) else v)
  }

  /**
   * The smoothing moves the value toward the new reading by at most the
   * gap, never past it, and a gap under 8 mV leaves it unchanged.
   */
  lemma SmoothBetween(last: int, v: int)
    ensures Min(last, v) <= Smooth(last, v) <= Max(last, v)
    ensures Abs(v - last) < 8 ==> Smooth(last, v) == last
    ensures Abs(v - last) >= 8 ==> Smooth(last, v) != last
  {
  }

  /** The smoothed voltage stays a 15-bit value. */
  lemma SmoothedRange(prev: int, raw: uint32)
    requires raw < 0x8000
    ensures var last := ToUint16(prev) % 0x8000;
      && Smoothed(prev, raw) == (if last != 0 then Smooth(last, raw) else raw)
      && Smoothed(prev, raw) < 0x8000
  {
    var last := ToUint16(prev) % 0x8000;
    if last != 0 {
      SmoothBetween(last, raw);
    }
  }

  /**
   * For samples of a battery under 16 V, the stored value is the smoothed
   * voltage in its low 15 bits and the LBO state in bit 15.
   */
  lemma BatteryLayout(prev: int, s1: uint32, s2: uint32, lboLow: bool)
    requires s1 + s2 < 0x4000
    ensures var r := BatteryValue(prev, s1, s2, lboLow);
      && var last := ToUint16(prev) % 0x8000;
      && var volt := if last != 0 then Smooth(last, s1 + s2) else s1 + s2;
      && 0 <= volt < 0x8000
      && r == volt + (if lboLow then 0x8000 else 0)
      && r % 0x8000 == volt
      && (r / 0x8000 == 1 <==> lboLow)
  {
    ReadingIsSum(s1, s2);
    SmoothedRange(prev, s1 + s2);
    var v := Smoothed(prev, s1 + s2);
    Bit15(v);
    assert Smoothed(prev, Reading(s1, s2)) == v;
  }

  /** Bit 15 of a 15-bit value is clear, and setting it adds 0x8000. */
  lemma Bit15(v: int)
    requires 0 <= v < 0x8000
    ensures OrBit15(v) == v + 0x8000 && ToInt32(v) == v && ToInt32(v + 0x8000) == v + 0x8000
    ensures v % 0x8000 == v && v / 0x8000 == 0
    ensures (v + 0x8000) % 0x8000 == v && (v + 0x8000) / 0x8000 == 1
  {
  }

  /** `IsLowBattery()` as written: the raw register value, LBO flag included, against 3200. */
  predicate IsLowBatteryAsWritten(stored: int)
  {
    stored < LOW_BATTERY_THRESHOLD
  }

  /** `IsLowBattery()` on the voltage alone: the LBO flag masked off as `ReadBatteryVoltage` masks it. */
  predicate LowBattery(stored: uint16)
  {
    stored % 0x8000 < LOW_BATTERY_THRESHOLD
  }

  /**
   * Whenever the LBO pin reports the battery low, the stored value is at
   * least 0x8000 and the comparison as written says "not low"; a 3.0 V
   * battery read afresh, stored as 0x8000 + 3000, is low to the corrected
   * test.
   */
  lemma LowBatteryFlagHides(prev: int, s1: uint32, s2: uint32)
    requires s1 + s2 < 0x4000
    ensures !IsLowBatteryAsWritten(BatteryValue(prev, s1, s2, true))
    ensures ToUint16(prev) % 0x8000 == 0 && s1 + s2 == 3000 ==>
      BatteryValue(prev, s1, s2, true) == 0x8000 + 3000 && LowBattery(BatteryValue(prev, s1, s2, true))
  {
    BatteryLayout(prev, s1, s2, true);
  }

  /** The corrected test reports low exactly when the smoothed voltage is under 3200 mV, whatever LBO says. */
  lemma LowBatteryIgnoresFlag(prev: int, s1: uint32, s2: uint32, lboLow: bool)
    requires s1 + s2 < 0x4000
    ensures var last := ToUint16(prev) % 0x8000;
      && var volt := if last != 0 then Smooth(last, s1 + s2) else s1 + s2;
      && 0 <= BatteryValue(prev, s1, s2, lboLow) <= UINT16_MAX
      && (LowBattery(BatteryValue(prev, s1, s2, lboLow)) <==> volt < LOW_BATTERY_THRESHOLD)
  {
    BatteryLayout(prev, s1, s2, lboLow);
  }

  class Motor {
    var state: MotorState
    /** The current filter, `ExpFilter current` with its default coefficient. */
    const current: ExpFilter.ExpFilter
    const faults: Faults

    ghost predicate Valid()
      reads this, current, faults, faults.q, faults.q.regs, faults.q.tasks
    {
      faults.Valid() && current.coef == ExpFilter.DEFAULT_COEF
    }

    constructor (f: Faults, filter: ExpFilter.ExpFilter)
      requires f.Valid() && filter.coef == ExpFilter.DEFAULT_COEF
      ensures Valid() && faults == f && current == filter && state == MotorStop
    {
      faults := f;
      current := filter;
      state := MotorStop;
    }

    /** `Open()`: drive toward open; starting the motor clears the faults its motion clears. */
    method Open()
      requires Valid()
      modifies this, faults, faults.q.regs
      ensures Valid() && state == MotorToOpen
      ensures Good(old(faults.W())) && faults.W() == ClearActionAllW(old(faults.W()), MOTION)
    {
      state := MotorToOpen;
      faults.ClearActionAll(MOVE_UP | MOVE_DOWN);
    }

    /** `Close()`: drive toward closed, clearing faults as `Open` does. */
    method Close()
      requires Valid()
      modifies this, faults, faults.q.regs
      ensures Valid() && state == MotorToClose
      ensures Good(old(faults.W())) && faults.W() == ClearActionAllW(old(faults.W()), MOTION)
    {
      state := MotorToClose;
      faults.ClearActionAll(MOVE_UP | MOVE_DOWN);
    }

    method Stop()
      modifies this
      ensures state == MotorStop
    {
      state := MotorStop;
    }

    method StopFast()
      modifies this
      ensures state == MotorFastStop
    {
      state := MotorFastStop;
    }

    method IsStopped() returns (b: bool)
      ensures b <==> Stopped(state)
    {
      b := state == MotorStop || state == MotorFastStop;
    }

    /** `ReadCurrent()`: the ADC sample `adc` through the filter into `AktualniProud`. */
    method ReadCurrent(adc: int32) returns (f: int16)
      requires Valid()
      modifies current, faults.q.regs
      ensures Valid()
      ensures current.val == ExpFilter.Accumulate(old(current.val), current.coef, adc)
      ensures f == ExpFilter.Output(current.val, current.coef)
      ensures Good(old(faults.W())) && faults.W() == Sensed(old(faults.W()), f)
    {
      faults.ValidGood();
      f := current.Input(adc);
      var _ := faults.q.regs.SetNum(AktualniProud, f);
    }

    /**
     * `Run()`: read the current, then feed the three current faults
     * according to the drive state, comparing against `MotorMaxProud`.
     */
    method Run(adc: int32)
      requires Valid()
      modifies current, faults, faults.q, faults.q.regs, faults.q.tasks
      ensures Valid()
      ensures current.val == ExpFilter.Accumulate(old(current.val), current.coef, adc)
      ensures var f := ExpFilter.Output(current.val, current.coef);
        && Good(old(faults.W()))
        && faults.W() == Supervise(Sensed(old(faults.W()), f), state, f, old(faults.q.regs.vals)[MotorMaxProud].n)
    {
      var f := ReadCurrent(adc);
      ghost var w1 := faults.W();
      var maxc := faults.q.regs.vals[MotorMaxProud].n;
      assert maxc == old(faults.q.regs.vals)[MotorMaxProud].n;
      var run := !Stopped(state);
      var _ := faults.Check(Leading(state), run && f > maxc);
      ghost var w2 := faults.W();
      var _ := faults.Check(Trailing(state), false);
      ghost var w3 := faults.W();
      var _ := faults.Check(NO_CURRENT, run && f < ZERO_CURRENT_THRESHOLD);
      assert w2 == CheckW(w1, Leading(state), run && f > maxc);
      assert w3 == CheckW(w2, Trailing(state), false);
    }

    /** `ReadBatteryVoltage()` of `Init`: the smoothed voltage and the LBO flag into `NapetiBaterie`. */
    method ReadBatteryVoltage(s1: uint32, s2: uint32, lboLow: bool)
      requires Valid()
      modifies faults.q.regs
      ensures Valid()
      ensures var v := BatteryValue(old(faults.q.regs.vals)[NapetiBaterie].n, s1, s2, lboLow);
        && faults.q.regs.vals == SetNumVals(old(faults.q.regs.vals), NapetiBaterie, v)
        && faults.q.regs.saved == SetNumSaved(old(faults.q.regs.vals), old(faults.q.regs.saved), NapetiBaterie, v)
      ensures faults.q.regs.latch == old(faults.q.regs.latch)
      ensures faults.q.regs.activeIdx == old(faults.q.regs.activeIdx)
      ensures faults.q.regs.activeRegAdr == old(faults.q.regs.activeRegAdr)
    {
      assert Fits(Def(NapetiBaterie), faults.q.regs.vals[NapetiBaterie]);
      var v := Smoothed(faults.q.regs.vals[NapetiBaterie].n, Reading(s1, s2));
      if lboLow {
        v := OrBit15(v);
      }
      var _ := faults.q.regs.SetNum(NapetiBaterie, ToInt32(v));
    }

    /** `Init()`: one battery reading, then `Stop()`. */
    method Init(s1: uint32, s2: uint32, lboLow: bool)
      requires Valid()
      modifies this, faults.q.regs
      ensures Valid() && state == MotorStop
      ensures var v := BatteryValue(old(faults.q.regs.vals)[NapetiBaterie].n, s1, s2, lboLow);
        && faults.q.regs.vals == SetNumVals(old(faults.q.regs.vals), NapetiBaterie, v)
    {
      ReadBatteryVoltage(s1, s2, lboLow);
      Stop();
    }

    /** `IsLowBattery()` with its comparison corrected to the voltage bits. */
    method IsLowBattery() returns (low: bool)
      requires Valid()
      ensures low <==> LowBattery(faults.q.regs.vals[NapetiBaterie].n)
    {
      assert Fits(Def(NapetiBaterie), faults.q.regs.vals[NapetiBaterie]);
      low := faults.q.regs.vals[NapetiBaterie].n % 0x8000 < LOW_BATTERY_THRESHOLD;
    }
  }
}
