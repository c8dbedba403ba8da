/**
 * The load cell of weight.h: a 24-bit converter read bit by bit, the
 * fill level derived from the two calibration weights, the calibration
 * requests and the automatic refill, which closes the feeder after it has
 * stood open below the refill level long enough and reopens it once
 * closed.
 */
module Weight {
  import opened Ints
  import opened ParamTypes
  import opened ParamTable
  import opened Parameters
  import opened SleepCtrl
  import opened ParamValues
  import opened FeederEvents

  // ---------------------------------------------------------------------
  // the converter

  /** The bits of one conversion, as the data line gives them. */
  const CONVERSION_BITS: nat := 24

  function Pow2(n: nat): (r: nat)
    ensures r >= 1
  {
    if n == 0 then 1 else 2 * Pow2(n - 1)
  }

  lemma Pow2Of24()
    ensures Pow2(CONVERSION_BITS) == 0x100_0000
  {
    assert Pow2(8) == 0x100;
    assert Pow2(16) == 0x1_0000 by { assert Pow2(16) == 0x100 * Pow2(8) by { Pow2Add(8, 8); } }
    Pow2Add(16, 8);
  }

  lemma {:induction false} Pow2Add(a: nat, b: nat)
    ensures Pow2(a + b) == Pow2(a) * Pow2(b)
  {
    if a > 0 {
      Pow2Add(a - 1, b);
    }
  }

  /** The number the bits spell, most significant bit first. */
  function BitsValue(bits: seq<bool>): (r: nat)
    ensures r < Pow2(|bits|)
  {
    if bits == [] then 0
    else 2 * BitsValue(bits[..|bits| - 1]) + (if bits[|bits| - 1] then 1 else 0)
  }

  /**
   * A 24-bit two's complement pattern widened to 32 bits (`conv_res |=
   * 0xFF000000` when bit 23 is set): the signed number with the same low
   * 24 bits.
   */
  function SignExtend24(raw: nat): (v: int32)
    requires raw < 0x100_0000
    ensures -0x80_0000 <= v < 0x80_0000
    ensures (v - raw) % 0x100_0000 == 0
  {
    if raw >= 0x80_0000 then raw - 0x100_0000 else raw
  }

  /** The value of one conversion. */
  function Reading(bits: seq<bool>): (v: int32)
    requires |bits| == CONVERSION_BITS
    ensures -0x80_0000 <= v < 0x80_0000
  {
    Pow2Of24();
    SignExtend24(BitsValue(bits))
  }

  /** `curr /= 2` over the sum of two readings: their mean, rounded toward zero. */
  function Average(a: int32, b: int32): (v: int)
    requires -0x80_0000 <= a < 0x80_0000 && -0x80_0000 <= b < 0x80_0000
    ensures Min(a, b) <= v <= Max(a, b)
    ensures -0x80_0000 <= v < 0x80_0000
    ensures a == b ==> v == a
  {
    CDiv(a + b, 2)
  }

  /**
   * `doConversion`: the 24 data bits shifted in one per clock pulse and
   * sign-extended. Waiting for the data line and the extra pulses that
   * choose the next gain are pin I/O.
   */
  method DoConversion(bits: seq<bool>) returns (v: int32)
    requires |bits| == CONVERSION_BITS
    ensures v == Reading(bits)
  {
    var conv := 0;
    var i := 0;
    while i < CONVERSION_BITS
      invariant i <= CONVERSION_BITS
      invariant conv == BitsValue(bits[..i])
    {
      assert bits[..i + 1][..i] == bits[..i];
      conv := 2 * conv + (if bits[i] then 1 else 0);
      i := i + 1;
    }
    assert bits[..i] == bits;
    Pow2Of24();
    v := SignExtend24(conv);
  }

  /**
   * `Measure`: one conversion to wake the converter, discarded, then the
   * mean of the next two. `frames` are the bits of the three conversions.
   */
  method Measure(frames: seq<seq<bool>>) returns (v: int32)
    requires |frames| == 3 && forall k :: 0 <= k < 3 ==> |frames[k]| == CONVERSION_BITS
    ensures v == Average(Reading(frames[1]), Reading(frames[2]))
  {
    var _ := DoConversion(frames[0]);
    var curr := 0;
    var i := 0;
    while i < 2
      invariant i <= 2
      invariant curr == if i == 0 then 0 else if i == 1 then Reading(frames[1]) else Reading(frames[1]) + Reading(frames[2])
    {
      var c := DoConversion(frames[i + 1]);
      curr := curr + c;
      i := i + 1;
    }
    v := CDiv(curr, 2);
  }

  // ---------------------------------------------------------------------
  // the fill level

  /**
   * The fill level in percent: `(current - empty) * 100 / (full - empty)`
   * in 32-bit arithmetic, truncated toward zero and clamped to 0..100.
   */
  function Filling(cur: int32, empty: int32, full: int32): (p: int)
    requires 0 < empty < full
    ensures 0 <= p <= 100
  {
    var delta := ToInt32(ToInt32(cur - empty) * 100);
    Percent(CDiv(delta, full - empty))
  }

  /** `(x < 0) ? 0 : (x > 100) ? 100 : x`. */
  function Percent(x: int): (p: int)
    ensures 0 <= p <= 100
    ensures 0 <= x <= 100 ==> p == x
  {
    if x < 0 then 0 else if x > 100 then 100 else x
  }

  /** Converter readings: a 24-bit signed value. */
  predicate InRange(x: int)
  {
    -0x80_0000 <= x < 0x80_0000
  }

  /** For converter readings the 32-bit product does not wrap: the level is the plain percentage. */
  lemma FillingExact(cur: int32, empty: int32, full: int32)
    requires 0 < empty < full && InRange(cur) && InRange(full)
    ensures Filling(cur, empty, full) == Percent(CDiv((cur - empty) * 100, full - empty))
  {
    assert INT32_MIN <= cur - empty <= INT32_MAX;
    assert INT32_MIN <= (cur - empty) * 100 <= INT32_MAX;
  }

  /** The empty weight reads 0 %, the full weight 100 %. */
  lemma FillingEnds(empty: int32, full: int32)
    requires 0 < empty < full && InRange(full)
    ensures Filling(empty, empty, full) == 0
    ensures Filling(full, empty, full) == 100
  {
    FillingExact(empty, empty, full);
    FillingExact(full, empty, full);
    MulDiv(full - empty, 100);
  }

  /** Among converter readings, more feed never shows a lower level. */
  lemma FillingMonotone(a: int32, b: int32, empty: int32, full: int32)
    requires 0 < empty < full && InRange(full) && InRange(a) && InRange(b) && a <= b
    ensures Filling(a, empty, full) <= Filling(b, empty, full)
  {
    FillingExact(a, empty, full);
    FillingExact(b, empty, full);
    CDivMonotone((a - empty) * 100, (b - empty) * 100, full - empty);
  }

  /** Division rounding toward zero is monotone in the dividend. */
  lemma CDivMonotone(x: int, y: int, d: int)
    requires x <= y && d > 0
    ensures CDiv(x, d) <= CDiv(y, d)
  {
    if 0 <= x {
      DivMonotone(x, y, d);
    } else if y < 0 {
      DivMonotone(-y, -x, d);
    } else {
      DivMonotone(0, -x, d);
      DivMonotone(0, y, d);
    }
  }

  lemma DivMonotone(x: nat, y: nat, d: nat)
    requires x <= y && d > 0
    ensures x / d <= y / d
  {
    var qx, qy := x / d, y / d;
    assert d * qx <= x;
    assert y < d * (qy + 1);
    MulCancel(d, qx, qy + 1);
  }

  lemma MulCancel(d: int, a: int, b: int)
    requires d > 0 && d * a < d * b
    ensures a < b
  {
    assert d * (b - a) > 0;
  }

  lemma MulDiv(d: nat, k: nat)
    requires d > 0
    ensures (d * k) / d == k
  {
    var q := (d * k) / d;
    assert d * q <= d * k < d * q + d;
    assert d * q < d * (k + 1);
    MulCancel(d, q, k + 1);
    assert d * k < d * (q + 1);
    MulCancel(d, k, q + 1);
  }

  // ---------------------------------------------------------------------
  // the component as a function of its state

  /** What the load-cell code reads and writes: the registers, the event word, the task flags and `weightCnt`. */
  datatype Scale = Scale(
    vals: seq<RegVal>, saved: map<nat, RegVal>, latch: Latches, idx: nat, radr: uint16,
    events: set<nat>, tasks: seq<bool>, cnt: uint32)

  /** The unsigned 16-bit registers the load-cell code reads or writes. */
  const U16_REGS: set<nat> := {StavKrmitka, KalibracePrazdne, KalibracePlne, AktualniVahaProc, PovelOd,
    UrovenDoplneni, AutomatikaDoplnovani, CasProDoplneni, PeriodaKomunikace}
  /** The signed 32-bit ones: the current and the two calibration weights. */
  const S32_REGS: set<nat> := {AktualniVaha, VahaPrazdne, VahaPlne}

  lemma UsedKinds()
    ensures forall i :: i in U16_REGS ==> i < NMR_PARAMETERS && Def(i).kind == U16
    ensures forall i :: i in S32_REGS ==> i < NMR_PARAMETERS && Def(i).kind == S32
  {
  }

  predicate Fine(s: Scale)
  {
    && |s.vals| == NMR_PARAMETERS && |s.tasks| == NUMBER_TASKS
    && (forall i :: i in U16_REGS ==> s.vals[i].Num? && 0 <= s.vals[i].n <= UINT16_MAX)
    && (forall i :: i in S32_REGS ==> s.vals[i].Num? && INT32_MIN <= s.vals[i].n <= INT32_MAX)
    && (forall e :: e in s.events ==> e < WORD_BITS)
  }

  /** The numeric value of register `i`. */
  function Get(s: Scale, i: nat): (v: int)
    requires Fine(s) && (i in U16_REGS || i in S32_REGS)
    ensures i in U16_REGS ==> 0 <= v <= UINT16_MAX
    ensures i in S32_REGS ==> INT32_MIN <= v <= INT32_MAX
  {
    s.vals[i].n
  }

  /** The numeric `Set(v)` of register `i`. */
  function SetS(s: Scale, i: nat, v: int32): (r: Scale)
    requires Fine(s) && (i in U16_REGS || i in S32_REGS)
    ensures Fine(r) && r.events == s.events && r.tasks == s.tasks && r.cnt == s.cnt
    ensures forall j :: 0 <= j < NMR_PARAMETERS && j != i ==> r.vals[j] == s.vals[j]
  {
    UsedKinds();
    s.(vals := SetNumVals(s.vals, i, v), saved := SetNumSaved(s.vals, s.saved, i, v))
  }

  /** A feeder with both calibration weights set, full above empty. */
  predicate Calibrated(s: Scale)
    requires Fine(s)
  {
    var full, empty := Get(s, VahaPlne), Get(s, VahaPrazdne);
    full > 0 && empty > 0 && full > empty
  }

  /**
   * `FillingUpdate`: with usable calibration the level is recomputed while
   * the feeder is open and kept otherwise; without it the level is 0.
   */
  function FillingUpdateF(s: Scale): (r: Scale)
    requires Fine(s)
    ensures Fine(r)
  {
    if Calibrated(s) then
      if Get(s, StavKrmitka) == Otevreno then
        SetS(s, AktualniVahaProc, Filling(Get(s, AktualniVaha), Get(s, VahaPrazdne), Get(s, VahaPlne)))
      else s
    else SetS(s, AktualniVahaProc, 0)
  }

  /** The level register always holds a percentage after an update. */
  lemma FillingUpdateRange(s: Scale)
    requires Fine(s)
    ensures var r := FillingUpdateF(s);
      && (Calibrated(s) && Get(s, StavKrmitka) == Otevreno ==>
            Get(r, AktualniVahaProc) == Filling(Get(s, AktualniVaha), Get(s, VahaPrazdne), Get(s, VahaPlne))
            && 0 <= Get(r, AktualniVahaProc) <= 100)
      && (!Calibrated(s) ==> Get(r, AktualniVahaProc) == 0)
      && (Calibrated(s) && Get(s, StavKrmitka) != Otevreno ==> r == s)
  {
  }

  /**
   * `Init` at each wake-up, after the level update: while the feeder
   * stands open, `weightCnt` grows by the wake period when the level is
   * below the refill level and otherwise shrinks by it if it can; any
   * other state clears it. The sum wraps at 32 bits.
   */
  function InitF(s: Scale): (r: Scale)
    requires Fine(s)
    ensures Fine(r)
  {
    CountF(FillingUpdateF(s))
  }

  /** The `weightCnt` update of `Init`, after the level update. */
  function CountF(u: Scale): (r: Scale)
    requires Fine(u)
    ensures Fine(r)
  {
    var period := Get(u, PeriodaKomunikace);
    var cnt: uint32 :=
      if Get(u, StavKrmitka) == Otevreno then
        if Get(u, AktualniVahaProc) < Get(u, UrovenDoplneni) then ToUint32(u.cnt + period)
        else if u.cnt >= period then u.cnt - period
        else u.cnt
      else 0;
    u.(cnt := cnt)
  }

  /** The two calibration requests, each asking to store the next measurement. */
  function Requests(s: Scale): (bool, bool)
    requires Fine(s)
  {
    var e := Get(s, KalibracePrazdne) == kalibrace_proved;
    var f := Get(s, KalibracePlne) == kalibrace_proved;
    if e && f then (false, false)
    else if (e || f) && Get(s, StavKrmitka) != Otevreno then (false, false)
    else (e, f)
  }

  /** Both requests are withdrawn (`kalibrace_neni`) when they cannot be served. */
  function CancelF(s: Scale): (r: Scale)
    requires Fine(s)
    ensures Fine(r)
  {
    var e := Get(s, KalibracePrazdne) == kalibrace_proved;
    var f := Get(s, KalibracePlne) == kalibrace_proved;
    var s1 := if e && f then SetS(SetS(s, KalibracePlne, kalibrace_neni), KalibracePrazdne, kalibrace_neni) else s;
    var e1, f1 := e && !f, f && !e;
    if (e1 || f1) && Get(s1, StavKrmitka) != Otevreno then
      SetS(SetS(s1, KalibracePlne, kalibrace_neni), KalibracePrazdne, kalibrace_neni)
    else s1
  }

  /**
   * The first half of `Task`: the measurement `tmp` becomes the current
   * weight, and a single pending calibration request on an open feeder
   * stores it as the empty or the full weight and reports itself done.
   */
  function CalibrateF(s: Scale, tmp: int32): (r: Scale)
    requires Fine(s)
    ensures Fine(r)
  {
    var (e, f) := Requests(s);
    var c := SetS(CancelF(s), AktualniVaha, tmp);
    if e then SetS(SetS(c, VahaPrazdne, tmp), KalibracePrazdne, kalibrace_provedena)
    else if f then SetS(SetS(c, VahaPlne, tmp), KalibracePlne, kalibrace_provedena)
    else c
  }

  /** The refill time has run out: `weightCnt` minutes reach `CasProDoplneni`. */
  predicate RefillDue(s: Scale)
    requires Fine(s)
  {
    s.cnt / 60 >= Get(s, CasProDoplneni) && Get(s, StavKrmitka) == Otevreno
  }

  /** `EventSourced(e, povel_vaha)`. */
  function RaiseS(s: Scale, e: nat): (r: Scale)
    requires Fine(s) && e < WORD_BITS
    ensures Fine(r)
  {
    var t := SetS(s, PovelOd, povel_vaha);
    t.(events := t.events + {e}, tasks := t.tasks[POSITION_TASK := true])
  }

  /**
   * The second half of `Task`: a refill that is due closes the feeder when
   * automatic refilling is enabled and restarts the count; a feeder closed
   * by the scale is opened again.
   */
  function RefillF(s: Scale): (r: Scale)
    requires Fine(s)
    ensures Fine(r)
  {
    ReopenF(DueF(s))
  }

  /** A due refill: the close event when automatic refilling is on, and the count restarts. */
  function DueF(s: Scale): (r: Scale)
    requires Fine(s)
    ensures Fine(r)
  {
    if RefillDue(s) then
      (if Get(s, AutomatikaDoplnovani) != 0 then RaiseS(s, EV_CLOSE) else s).(cnt := 0)
    else s
  }

  /** A feeder closed by the scale is opened again. */
  function ReopenF(s: Scale): (r: Scale)
    requires Fine(s)
    ensures Fine(r)
  {
    if Get(s, StavKrmitka) == Zavreno && Get(s, PovelOd) == povel_vaha then RaiseS(s, EV_OPEN) else s
  }

  /** `Task` over the measurement `tmp`. */
  function TaskF(s: Scale, tmp: int32): (r: Scale)
    requires Fine(s)
    ensures Fine(r)
  {
    RefillF(FillingUpdateF(CalibrateF(s, tmp)))
  }

  // ---------------------------------------------------------------------
  // what the load-cell code guarantees

  /**
   * A single calibration request on an open feeder stores the measurement
   * as that weight and reports `kalibrace_provedena`; the other weight is
   * kept.
   */
  lemma CalibrationStored(s: Scale, tmp: int32)
    requires Fine(s) && Get(s, StavKrmitka) == Otevreno
    requires (Get(s, KalibracePrazdne) == kalibrace_proved) != (Get(s, KalibracePlne) == kalibrace_proved)
    ensures var r := CalibrateF(s, tmp);
      && Get(r, AktualniVaha) == tmp
      && (Get(s, KalibracePrazdne) == kalibrace_proved ==>
            Get(r, VahaPrazdne) == tmp && Get(r, KalibracePrazdne) == kalibrace_provedena
            && Get(r, VahaPlne) == Get(s, VahaPlne))
      && (Get(s, KalibracePlne) == kalibrace_proved ==>
            Get(r, VahaPlne) == tmp && Get(r, KalibracePlne) == kalibrace_provedena
            && Get(r, VahaPrazdne) == Get(s, VahaPrazdne))
  {
    if Get(s, KalibracePrazdne) == kalibrace_proved {
      EmptyStored(s, tmp);
    } else {
      FullStored(s, tmp);
    }
  }

  /** `CalibrationStored` for a request of the empty weight. */
  lemma EmptyStored(s: Scale, tmp: int32)
    requires Fine(s) && Get(s, StavKrmitka) == Otevreno
    requires Get(s, KalibracePrazdne) == kalibrace_proved && Get(s, KalibracePlne) != kalibrace_proved
    ensures var r := CalibrateF(s, tmp);
      && Get(r, AktualniVaha) == tmp
      && Get(r, VahaPrazdne) == tmp && Get(r, KalibracePrazdne) == kalibrace_provedena
      && Get(r, VahaPlne) == Get(s, VahaPlne)
  {
    assert CancelF(s) == s;
  }

  /** `CalibrationStored` for a request of the full weight. */
  lemma FullStored(s: Scale, tmp: int32)
    requires Fine(s) && Get(s, StavKrmitka) == Otevreno
    requires Get(s, KalibracePrazdne) != kalibrace_proved && Get(s, KalibracePlne) == kalibrace_proved
    ensures var r := CalibrateF(s, tmp);
      && Get(r, AktualniVaha) == tmp
      && Get(r, VahaPlne) == tmp && Get(r, KalibracePlne) == kalibrace_provedena
      && Get(r, VahaPrazdne) == Get(s, VahaPrazdne)
  {
    assert CancelF(s) == s;
  }

  /**
   * Requests for both weights at once, or a request while the feeder is
   * not open, are withdrawn: both become `kalibrace_neni` and neither
   * weight changes.
   */
  lemma CalibrationRefused(s: Scale, tmp: int32)
    requires Fine(s)
    requires var e, f := Get(s, KalibracePrazdne) == kalibrace_proved, Get(s, KalibracePlne) == kalibrace_proved;
      (e && f) || ((e || f) && Get(s, StavKrmitka) != Otevreno)
    ensures var r := CalibrateF(s, tmp);
      && Get(r, AktualniVaha) == tmp
      && Get(r, KalibracePrazdne) == kalibrace_neni && Get(r, KalibracePlne) == kalibrace_neni
      && Get(r, VahaPrazdne) == Get(s, VahaPrazdne) && Get(r, VahaPlne) == Get(s, VahaPlne)
  {
  }

  /**
   * An open feeder whose refill time has run out is closed by the scale
   * when automatic refilling is on, with `PovelOd` naming the scale; the
   * count restarts either way, and nothing opens it in the same step.
   */
  lemma RefillCloses(s: Scale)
    requires Fine(s) && RefillDue(s)
    ensures var r := RefillF(s);
      && r.cnt == 0
      && (Get(s, AutomatikaDoplnovani) != 0 ==>
            r.events == s.events + {EV_CLOSE} && Get(r, PovelOd) == povel_vaha && r.tasks[POSITION_TASK])
      && (Get(s, AutomatikaDoplnovani) == 0 ==> r.events == s.events && r.vals == s.vals)
  {
  }

  /**
   * The scale opens the feeder exactly when it stands closed by the
   * scale's own command; a feeder closed by any other command stays
   * closed.
   */
  lemma ReopensOnlyOwnClose(s: Scale)
    requires Fine(s) && Get(s, StavKrmitka) == Zavreno
    ensures var r := RefillF(s);
      && (EV_OPEN in r.events <==> EV_OPEN in s.events || Get(s, PovelOd) == povel_vaha)
      && r.cnt == s.cnt
  {
  }

  /** The measurement half of `Task` leaves the feeder state and the event word alone. */
  lemma CalibrateKeepsState(s: Scale, tmp: int32)
    requires Fine(s)
    ensures var r := FillingUpdateF(CalibrateF(s, tmp));
      r.vals[StavKrmitka] == s.vals[StavKrmitka] && r.events == s.events
  {
  }

  /** The refill half raises at most the close and the open event. */
  lemma RefillEvents(s: Scale)
    requires Fine(s)
    ensures var r := RefillF(s);
      r.vals[StavKrmitka] == s.vals[StavKrmitka] && s.events <= r.events <= s.events + {EV_OPEN, EV_CLOSE}
  {
  }

  /** `Task` never changes the feeder state; it only raises the close and the open event. */
  lemma TaskKeepsState(s: Scale, tmp: int32)
    requires Fine(s)
    ensures Get(TaskF(s, tmp), StavKrmitka) == Get(s, StavKrmitka)
    ensures s.events <= TaskF(s, tmp).events <= s.events + {EV_OPEN, EV_CLOSE}
  {
    CalibrateKeepsState(s, tmp);
    RefillEvents(FillingUpdateF(CalibrateF(s, tmp)));
  }

  /**
   * The count at wake-up: cleared unless the feeder is open; below the
   * refill level it grows by the wake period (wrapping at 32 bits), and
   * at or above it never grows.
   */
  lemma InitCounts(s: Scale)
    requires Fine(s)
    ensures var r := InitF(s);
      && (Get(s, StavKrmitka) != Otevreno ==> r.cnt == 0)
      && (Get(s, StavKrmitka) == Otevreno && Get(r, AktualniVahaProc) < Get(r, UrovenDoplneni) ==>
            r.cnt == (s.cnt + Get(r, PeriodaKomunikace)) % 0x1_0000_0000)
      && (Get(s, StavKrmitka) == Otevreno && Get(r, AktualniVahaProc) >= Get(r, UrovenDoplneni) ==>
            r.cnt <= s.cnt && s.cnt - r.cnt <= Get(r, PeriodaKomunikace))
  {
  }

  // ---------------------------------------------------------------------
  // the component on the shared objects

  class Weight {
    /** `weightCnt`, in RTC memory: seconds counted open below the refill level. */
    var weightCnt: uint32
    /** The event word, and through it the registers and the task flags. */
    const q: EventQueue

    ghost predicate Valid()
      reads this, q, q.regs, q.tasks
    {
      q.Valid()
    }

    ghost function Snap(): Scale
      reads this, q, q.regs, q.tasks
    {
      Scale(q.regs.vals, q.regs.saved, q.regs.latch, q.regs.activeIdx, q.regs.activeRegAdr,
        q.events, q.tasks[..], weightCnt)
    }

    lemma ValidFine()
      requires Valid()
      ensures Fine(Snap())
    {
      UsedKinds();
      forall i | i in U16_REGS || i in S32_REGS
        ensures Fits(Def(i), q.regs.vals[i])
      {
      }
    }

    constructor (events: EventQueue, cnt: uint32)
      requires events.Valid()
      ensures Valid() && q == events && weightCnt == cnt
    {
      q := events;
      weightCnt := cnt;
    }

    /** `RunMeasure()`: the write-command task is marked busy; it takes the next measurement. */
    method RunMeasure()
      requires Valid()
      modifies q.tasks
      ensures Valid()
      ensures q.tasks[..] == old(q.tasks[..])[WRITE_COMMAND_TASK := true]
    {
      q.tasks[WRITE_COMMAND_TASK] := true;
    }

    /** `Get()` of a numeric register. */
    method GetReg(i: nat) returns (v: int)
      requires Valid() && (i in U16_REGS || i in S32_REGS)
      ensures Fine(Snap()) && v == Get(Snap(), i)
    {
      ValidFine();
      v := q.regs.vals[i].n;
    }

    /** `Set(v)` of a numeric register. */
    method SetReg(i: nat, v: int32)
      requires Valid() && (i in U16_REGS || i in S32_REGS)
      modifies q.regs
      ensures Valid() && Fine(old(Snap())) && Snap() == SetS(old(Snap()), i, v)
    {
      ValidFine();
      UsedKinds();
      var _ := q.regs.SetNum(i, v);
    }

    /** `FeederCtrl::EventSourced(e, povel_vaha)`. */
    method Raise(e: nat)
      requires Valid() && e < WORD_BITS
      modifies q, q.regs, q.tasks
      ensures Valid() && Fine(old(Snap())) && Snap() == RaiseS(old(Snap()), e)
    {
      ValidFine();
      ghost var t := SetS(Snap(), PovelOd, povel_vaha);
      q.EventSourced(e, povel_vaha);
      assert q.regs.vals == t.vals && q.regs.saved == t.saved;
    }

    method FillingUpdate()
      requires Valid()
      modifies q.regs
      ensures Valid() && Fine(old(Snap())) && Snap() == FillingUpdateF(old(Snap()))
    {
      var full := GetReg(VahaPlne);
      var empty := GetReg(VahaPrazdne);
      if full > 0 && empty > 0 && full > empty {
        var st := GetReg(StavKrmitka);
        if st == Otevreno {
          var cur := GetReg(AktualniVaha);
          SetReg(AktualniVahaProc, Filling(cur, empty, full));
        }
      } else {
        SetReg(AktualniVahaProc, 0);
      }
    }

    method Init()
      requires Valid()
      modifies this, q.regs
      ensures Valid() && Fine(old(Snap())) && Snap() == InitF(old(Snap()))
    {
      FillingUpdate();
      Count();
    }

    method Count()
      requires Valid()
      modifies this
      ensures Valid() && Fine(old(Snap())) && Snap() == CountF(old(Snap()))
    {
      ValidFine();
      ghost var s0 := Snap();
      var st := GetReg(StavKrmitka);
      var period := GetReg(PeriodaKomunikace);
      if st == Otevreno {
        var level := GetReg(AktualniVahaProc);
        var limit := GetReg(UrovenDoplneni);
        if level < limit {
          weightCnt := ToUint32(weightCnt + period);
        } else if weightCnt >= period {
          weightCnt := weightCnt - period;
        }
      } else {
        weightCnt := 0;
      }
      assert Snap() == s0.(cnt := weightCnt);
    }

    /** Both requests set back to `kalibrace_neni`. */
    method Withdraw()
      requires Valid()
      modifies q.regs
      ensures Valid() && Fine(old(Snap()))
      ensures Snap() == SetS(SetS(old(Snap()), KalibracePlne, kalibrace_neni), KalibracePrazdne, kalibrace_neni)
    {
      SetReg(KalibracePlne, kalibrace_neni);
      SetReg(KalibracePrazdne, kalibrace_neni);
    }

    method Calibrate(tmp: int32)
      requires Valid()
      modifies q.regs
      ensures Valid() && Fine(old(Snap())) && Snap() == CalibrateF(old(Snap()), tmp)
    {
      var e, f := Cancel();
      SetReg(AktualniVaha, tmp);
      if e {
        SetReg(VahaPrazdne, tmp);
        SetReg(KalibracePrazdne, kalibrace_provedena);
      } else if f {
        SetReg(VahaPlne, tmp);
        SetReg(KalibracePlne, kalibrace_provedena);
      }
    }

    /** The checks at the head of `Task`: which request to serve, after withdrawing those it cannot. */
    method Cancel() returns (e: bool, f: bool)
      requires Valid()
      modifies q.regs
      ensures Valid() && Fine(old(Snap())) && Snap() == CancelF(old(Snap())) && (e, f) == Requests(old(Snap()))
    {
      var e0 := GetReg(KalibracePrazdne);
      var f0 := GetReg(KalibracePlne);
      e, f := e0 == kalibrace_proved, f0 == kalibrace_proved;
      if e && f {
        e, f := false, false;
        Withdraw();
      }
      var st := GetReg(StavKrmitka);
      if (e || f) && st != Otevreno {
        e, f := false, false;
        Withdraw();
      }
    }

    method Refill()
      requires Valid()
      modifies this, q, q.regs, q.tasks
      ensures Valid() && Fine(old(Snap())) && Snap() == RefillF(old(Snap()))
    {
      Due();
      Reopen();
    }

    method Due()
      requires Valid()
      modifies this, q, q.regs, q.tasks
      ensures Valid() && Fine(old(Snap())) && Snap() == DueF(old(Snap()))
    {
      var limit := GetReg(CasProDoplneni);
      var st := GetReg(StavKrmitka);
      if weightCnt / 60 >= limit && st == Otevreno {
        var auto := GetReg(AutomatikaDoplnovani);
        if auto != 0 {
          Raise(EV_CLOSE);
        }
        weightCnt := 0;
      }
    }

    method Reopen()
      requires Valid()
      modifies q, q.regs, q.tasks
      ensures Valid() && Fine(old(Snap())) && Snap() == ReopenF(old(Snap()))
    {
      var st := GetReg(StavKrmitka);
      var source := GetReg(PovelOd);
      if st == Zavreno && source == povel_vaha {
        Raise(EV_OPEN);
      }
    }

    /** `Task`: measure, calibrate, update the level, then the refill logic. */
    method Task(frames: seq<seq<bool>>)
      requires Valid()
      requires |frames| == 3 && forall k :: 0 <= k < 3 ==> |frames[k]| == CONVERSION_BITS
      modifies this, q, q.regs, q.tasks
      ensures Valid() && Fine(old(Snap()))
      ensures Snap() == TaskF(old(Snap()), Average(Reading(frames[1]), Reading(frames[2])))
    {
      var tmp := Measure(frames);
      Calibrate(tmp);
      FillingUpdate();
      Refill();
    }
  }
}
