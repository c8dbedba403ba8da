/**
 * The register objects of parameters.cpp: one value per table entry, the
 * static lookup cursor (`ActiveIdx`, `ActiveRegAdr`), the static latches
 * shared by all registers of a class (the `int32_reg` read and write
 * halves, `Register::writeString`), and the values persisted in the NV
 * store or in RTC memory.
 */
module Parameters {
  import opened Ints
  import opened ParamTypes
  import opened ParamTable

  /** The state of one register object, by class. */
  datatype RegVal =
    | Num(n: int)                       // `value` of int16_reg, uint16_reg, int32_reg, event_reg
    | Txt(s: seq<uint8>)                // `val` of string_reg
    | Time(t: int, s: seq<uint8>)       // `t_val` and `val` of time_reg
    | Mac(b: seq<uint8>)                // `arr[6]` of mac_reg
    | Hist(h: seq<int>)                 // `history[ERR_HISTORY_CNT]` of log_reg

  /** The value has the shape and range its register class gives it. */
  predicate Fits(d: ParDef, r: RegVal)
  {
    match d.kind
    case U16 => r.Num? && 0 <= r.n <= UINT16_MAX
    case Command => r.Num? && 0 <= r.n <= UINT16_MAX
    case S16 => r.Num? && INT16_MIN <= r.n <= INT16_MAX
    case S32 => r.Num? && INT32_MIN <= r.n <= INT32_MAX
    case Text => r.Txt?
    case Clock => r.Time?
    case MacAddr => r.Mac? && |r.b| == 6
    case ErrLog => r.Hist? && |r.h| == ERR_HISTORY_CNT
  }

  /** The text a time register shows while its time is 0: "--:--". */
  const CLOCK_UNSET: seq<uint8> := [45, 45, 58, 45, 45]

  /** The text a `time_reg` shows for time `t`: "--:--" for 0, else `hhmm`, the local time of day. */
  function ClockText(t: int, hhmm: seq<uint8>): (txt: seq<uint8>)
    ensures t == 0 ==> txt == CLOCK_UNSET
    ensures t != 0 ==> txt == hhmm
  {
    if t == 0 then CLOCK_UNSET else hhmm
  }

  /** A register object before `resetval`: static storage starts zeroed. */
  function Blank(d: ParDef): (r: RegVal)
    ensures Fits(d, r)
  {
    match d.kind
    case Text => Txt([])
    case Clock => Time(0, [])
    case MacAddr => Mac([0, 0, 0, 0, 0, 0])
    case ErrLog => Hist(seq(ERR_HISTORY_CNT, _ => 0))
    case _ => Num(0)
  }

  /** What `resetval()` sets when nothing is persisted for the register. */
  function Initial(d: ParDef): RegVal
  {
    match d.kind
    case S32 => Num(d.def)
    case Text => Txt([])
    case Clock => Time(0, CLOCK_UNSET)
    case MacAddr =>
      var byte: uint8 := d.def % 0x100;
      Mac([byte, byte, byte, byte, byte, byte])
    case ErrLog => Hist(seq(ERR_HISTORY_CNT, _ => 0))
    case _ => Num(ToInt16(d.def))
  }

  /**
   * `resetval()` of entry `i`: an NV or RTC register takes the value it
   * persisted, if any; otherwise, and for RAM registers, the initial value.
   */
  function ResetValue(i: nat, saved: map<nat, RegVal>): (r: RegVal)
    requires i < NMR_PARAMETERS
  {
    if Def(i).store != Ram && i in saved then saved[i] else Initial(Def(i))
  }

  /** Each entry's initial value fits its class: the defaults fit their casts. */
  lemma InitialFits(i: nat)
    requires i < NMR_PARAMETERS
    ensures Fits(Def(i), Initial(Def(i)))
    ensures Def(i).kind != S32 && IsNumeric(Def(i).kind) ==> Initial(Def(i)) == Num(Def(i).def)
  {
    EntryFactsAt(i);
  }

  /** A persist-on-change wrapper: NV and RTC registers store a changed value. */
  function Persist(saved: map<nat, RegVal>, i: nat, v: RegVal, changed: bool): (r: map<nat, RegVal>)
    requires i < NMR_PARAMETERS
    ensures changed && Def(i).store != Ram ==> r == saved[i := v]
    ensures !(changed && Def(i).store != Ram) ==> r == saved
  {
    if changed && Def(i).store != Ram then saved[i := v] else saved
  }

  /** The values after the numeric `Set(v)` of entry `i`. */
  function SetNumVals(vals: seq<RegVal>, i: nat, v: int32): (r: seq<RegVal>)
    requires i < NMR_PARAMETERS && i < |vals| && IsNumeric(Def(i).kind) && vals[i].Num?
    ensures |r| == |vals| && r[i].Num?
  {
    vals[i := Num(SetNumeric(Def(i).kind, vals[i].n, v).value)]
  }

  /** The stored copies after the same `Set`. */
  function SetNumSaved(vals: seq<RegVal>, saved: map<nat, RegVal>, i: nat, v: int32): map<nat, RegVal>
    requires i < NMR_PARAMETERS && i < |vals| && IsNumeric(Def(i).kind) && vals[i].Num?
  {
    var s := SetNumeric(Def(i).kind, vals[i].n, v);
    Persist(saved, i, Num(s.value), s.changed)
  }

  /** The static latches: `int32_reg` read and write halves and `Register::writeString`. */
  datatype Latches = Latches(tmpVal: int32, highReg: uint16, writeString: seq<uint8>)

  // ---------------------------------------------------------------------
  // address lookup

  /** The first entry from `i` on whose span holds `a`. */
  function FindFrom(a: int, i: nat): (r: Option<nat>)
    requires i <= NMR_PARAMETERS
    ensures r.Some? ==> i <= r.value < NMR_PARAMETERS && InSpan(r.value, a)
    ensures r.None? ==> forall j :: i <= j < NMR_PARAMETERS ==> !InSpan(j, a)
    decreases NMR_PARAMETERS - i
  {
    if i == NMR_PARAMETERS then None
    else if InSpan(i, a) then Some(i)
    else FindFrom(a, i + 1)
  }

  /** The entry whose span holds address `a`, if any. */
  function Lookup(a: int): (r: Option<nat>)
  {
    FindFrom(a, 0)
  }

  /** `Lookup` names the one entry whose span holds `a`, and fails only when none does. */
  lemma LookupOwner(a: int, i: nat)
    requires i < NMR_PARAMETERS
    ensures InSpan(i, a) <==> Lookup(a) == Some(i)
  {
    if InSpan(i, a) {
      var r := Lookup(a);
      if r.Some? {
        SpanOwnerUnique(a, i, r.value);
      }
    }
  }

  /** The offset of address `a` in the span of entry `i`: `getidx()`. */
  function Offset(i: nat, a: int): (off: nat)
    requires i < NMR_PARAMETERS && InSpan(i, a)
    ensures off < Size(Def(i))
  {
    SpanNonEmpty(i);
    a - Start(i)
  }

  // ---------------------------------------------------------------------
  // unit reads and writes

  /** A unit read: the unit and the latches after it. */
  datatype UnitRead = UnitRead(out: int16, latch: Latches)

  /** `readregval` of the register class of `d` at unit `off`. */
  function ReadUnit(d: ParDef, v: RegVal, off: nat, l: Latches): (r: UnitRead)
    requires Fits(d, v) && off < Size(d)
  {
    match d.kind
    case S32 =>
      if off == 0 then UnitRead(HighHalf(v.n), l.(tmpVal := v.n))
      else UnitRead(LowHalf(l.tmpVal), l)
    case Text =>
      var w := if off == 0 then v.s else l.writeString;
      UnitRead(TextUnit(w, 2 * off), l.(writeString := w))
    case Clock =>
      var w := if off == 0 then v.s else l.writeString;
      UnitRead(TextUnit(w, 2 * off), l.(writeString := w))
    case MacAddr => UnitRead(MacUnit(v.b, off), l)
    case ErrLog => UnitRead(ToInt16(v.h[off]), l)
    case _ => UnitRead(ToInt16(v.n), l)
  }

  /**
   * A unit write: the units accepted, the new value, the latches, whether
   * the class's `Set` reported a change, and whether a command event is due.
   */
  datatype UnitWrite = UnitWrite(n: uint8, v: RegVal, latch: Latches, changed: bool, raise: bool)

  /**
   * `writeregval` of the register class of `d` at unit `off`. Time
   * registers are left out: every one of them is read-only, so no unit
   * write reaches them.
   */
  function WriteUnit(d: ParDef, v: RegVal, off: nat, inp: int16, l: Latches): (r: UnitWrite)
    requires Fits(d, v) && off < Size(d) && d.kind != Clock
    ensures r.raise <==> d.kind == Command && CheckLimits(d, inp)
  {
    match d.kind
    case S32 =>
      if off == 0 then UnitWrite(1, v, l.(highReg := ToUint16(inp)), false, false)
      else
        var t := Assemble(l.highReg, inp);
        if CheckLimits(d, t) then
          var s := SetS32(v.n, t);
          UnitWrite(1, Num(s.value), l, s.changed, false)
        else UnitWrite(1, v, l, false, false)
    case Text =>
      var w := WriteTextUnit(l.writeString, off, inp, Size(d));
      if w.commit then UnitWrite(1, Txt(w.latch), l.(writeString := w.latch), v.s != w.latch, false)
      else UnitWrite(1, v, l.(writeString := w.latch), false, false)
    case MacAddr => UnitWrite(0, v, l, false, false)
    case ErrLog => UnitWrite(0, v, l, false, false)
    case Command =>
      if CheckLimits(d, inp) then
        var s := SetU16(v.n, inp);
        UnitWrite(1, Num(s.value), l, s.changed, true)
      else UnitWrite(1, v, l, false, false)
    case U16 | S16 =>
      if CheckLimits(d, inp) then
        var s := SetNumeric(d.kind, v.n, inp);
        UnitWrite(1, Num(s.value), l, s.changed, false)
      else UnitWrite(0, v, l, false, false)
  }

  /**
   * A 16-bit register accepts a unit exactly when it is within the limits,
   * and stores it; a rejected unit changes nothing.
   */
  lemma ScalarWrite(d: ParDef, v: RegVal, inp: int16, l: Latches)
    requires Fits(d, v) && (d.kind == U16 || d.kind == S16)
    ensures WriteUnit(d, v, 0, inp, l).n == 1 <==> CheckLimits(d, inp)
    ensures CheckLimits(d, inp) && d.kind == S16 ==> WriteUnit(d, v, 0, inp, l).v == Num(inp)
    ensures CheckLimits(d, inp) && d.kind == U16 && inp >= 0 ==> WriteUnit(d, v, 0, inp, l).v == Num(inp)
    ensures !CheckLimits(d, inp) ==> WriteUnit(d, v, 0, inp, l) == UnitWrite(0, v, l, false, false)
  {
  }

  /** Writing back the unit just read from a 16-bit register leaves its value. */
  lemma ScalarReadWrite(d: ParDef, v: RegVal, l: Latches)
    requires Fits(d, v) && (d.kind == S16 || (d.kind == U16 && v.n <= INT16_MAX)) && CheckLimits(d, v.n)
    ensures WriteUnit(d, v, 0, ReadUnit(d, v, 0, l).out, l).v == v
    ensures !WriteUnit(d, v, 0, ReadUnit(d, v, 0, l).out, l).changed
  {
  }

  /**
   * A 32-bit register: unit 0 latches the value and reads its high half,
   * unit 1 reads the latched low half; writing unit 0 latches the high
   * half and writing unit 1 commits high and low together only within the
   * limits; both writes report one unit.
   */
  lemma Int32Units(d: ParDef, v: RegVal, l: Latches, hi: int16, lo: int16)
    requires Fits(d, v) && d.kind == S32
    ensures ReadUnit(d, v, 0, l) == UnitRead(HighHalf(v.n), l.(tmpVal := v.n))
    ensures ReadUnit(d, v, 1, l.(tmpVal := v.n)).out == LowHalf(v.n)
    ensures WriteUnit(d, v, 0, hi, l) == UnitWrite(1, v, l.(highReg := ToUint16(hi)), false, false)
    ensures var w := WriteUnit(d, v, 1, lo, l.(highReg := ToUint16(hi)));
      var t := Assemble(ToUint16(hi), lo);
      && w.n == 1
      && (CheckLimits(d, t) ==> w.v == Num(t) && (w.changed <==> v.n != t))
      && (!CheckLimits(d, t) ==> w.v == v && !w.changed)
  {
  }

  /** Writing back the two halves just read from a 32-bit register reproduces its value. */
  lemma Int32ReadWrite(d: ParDef, v: RegVal, l: Latches)
    requires Fits(d, v) && d.kind == S32 && CheckLimits(d, v.n)
    ensures var r0 := ReadUnit(d, v, 0, l);
      var r1 := ReadUnit(d, v, 1, r0.latch);
      var w0 := WriteUnit(d, v, 0, r0.out, r1.latch);
      var w1 := WriteUnit(d, w0.v, 1, r1.out, w0.latch);
      w1.v == v && !w1.changed
  {
    HalvesRoundTrip(v.n);
  }

  /** Reading a text register, unit 0 first, yields the units of its text. */
  lemma TextReadUnits(d: ParDef, v: RegVal, l: Latches, off: nat)
    requires Fits(d, v) && (d.kind == Text || d.kind == Clock) && off < Size(d)
    ensures ReadUnit(d, v, 0, l).latch.writeString == v.s
    ensures ReadUnit(d, v, off, ReadUnit(d, v, 0, l).latch).out == TextUnits(v.s, Size(d))[off]
  {
  }

  /** A unit write to a text register commits the latch exactly when `WriteTextUnit` does. */
  lemma TextUnitWrite(d: ParDef, v: RegVal, off: nat, inp: int16, l: Latches)
    requires Fits(d, v) && d.kind == Text && off < Size(d)
    ensures var w := WriteTextUnit(l.writeString, off, inp, Size(d));
      && WriteUnit(d, v, off, inp, l).n == 1
      && WriteUnit(d, v, off, inp, l).latch.writeString == w.latch
      && (w.commit ==> WriteUnit(d, v, off, inp, l).v == Txt(w.latch))
      && (!w.commit ==> WriteUnit(d, v, off, inp, l).v == v)
  {
  }

  /** MAC and error-history registers refuse every unit write. */
  lemma ReadOnlyClasses(d: ParDef, v: RegVal, off: nat, inp: int16, l: Latches)
    requires Fits(d, v) && (d.kind == MacAddr || d.kind == ErrLog) && off < Size(d)
    ensures WriteUnit(d, v, off, inp, l) == UnitWrite(0, v, l, false, false)
  {
  }

  /** A MAC unit carries bytes `2 off` and `2 off + 1`, low byte first. */
  lemma MacReadUnit(d: ParDef, v: RegVal, off: nat, l: Latches)
    requires Fits(d, v) && d.kind == MacAddr && off < Size(d)
    ensures LowByte(ReadUnit(d, v, off, l).out) == v.b[2 * off]
    ensures HighByte(ReadUnit(d, v, off, l).out) == v.b[2 * off + 1]
  {
    MacUnitBytes(v.b, off);
  }

  /**
   * The command register stores an in-limit unit and asks for it to be
   * raised as an event; it reports one unit even when it rejects.
   */
  lemma CommandWrite(d: ParDef, v: RegVal, inp: int16, l: Latches)
    requires Fits(d, v) && d.kind == Command
    ensures WriteUnit(d, v, 0, inp, l).n == 1
    ensures WriteUnit(d, v, 0, inp, l).raise <==> CheckLimits(d, inp)
    ensures CheckLimits(d, inp) && inp >= 0 ==> WriteUnit(d, v, 0, inp, l).v == Num(inp)
    ensures !CheckLimits(d, inp) ==> WriteUnit(d, v, 0, inp, l).v == v
  {
  }

  // ---------------------------------------------------------------------
  // the register objects

  class Registers {
    /** The value of every table entry, by index. */
    var vals: seq<RegVal>
    /** What the NV store (NV registers) and RTC memory (RTC registers) hold, by index. */
    var saved: map<nat, RegVal>
    /** `Register::ActiveIdx` and `Register::ActiveRegAdr`. */
    var activeIdx: nat
    var activeRegAdr: uint16
    var latch: Latches

    ghost predicate Valid()
      reads this
    {
      && |vals| == NMR_PARAMETERS
      && activeIdx <= NMR_PARAMETERS
      && (forall i :: 0 <= i < NMR_PARAMETERS ==> Fits(Def(i), vals[i]))
      && (forall i :: i in saved ==> i < NMR_PARAMETERS && Fits(Def(i), saved[i]))
    }

    /** The numeric value of entry `i`. */
    function NumOf(i: nat): (v: int)
      requires Valid() && i < NMR_PARAMETERS && IsNumeric(Def(i).kind)
      reads this
      ensures Def(i).kind == S32 ==> INT32_MIN <= v <= INT32_MAX
      ensures Def(i).kind == S16 ==> INT16_MIN <= v <= INT16_MAX
      ensures IsUnsigned16(Def(i).kind) ==> 0 <= v <= UINT16_MAX
    {
      vals[i].n
    }

    /**
     * The registers at start-up, before `InitAll`: every object zeroed,
     * `ActiveIdx` past the table, `ActiveRegAdr` invalid; `stored` is what
     * the NV store and RTC memory hold.
     */
    constructor (stored: map<nat, RegVal>)
      requires forall i :: i in stored ==> i < NMR_PARAMETERS && Fits(Def(i), stored[i])
      ensures Valid() && saved == stored
      ensures vals == seq(NMR_PARAMETERS, i requires 0 <= i < NMR_PARAMETERS => Blank(Def(i)))
      ensures activeIdx == NMR_PARAMETERS && activeRegAdr == INVALID_REGADR
    {
      vals := seq(NMR_PARAMETERS, i requires 0 <= i < NMR_PARAMETERS => Blank(Def(i)));
      saved := stored;
      activeIdx := NMR_PARAMETERS;
      activeRegAdr := INVALID_REGADR;
      latch := Latches(0, 0, []);
    }

    /** `resetval()` of entry `i`. */
    method ResetVal(i: nat)
      requires Valid() && i < NMR_PARAMETERS
      modifies this
      ensures Valid()
      ensures vals == old(vals)[i := ResetValue(i, saved)]
      ensures saved == old(saved) && latch == old(latch)
      ensures activeIdx == old(activeIdx) && activeRegAdr == old(activeRegAdr)
    {
      InitialFits(i);
      if Def(i).store != Ram && i in saved {
        vals := vals[i := saved[i]];
      } else {
        vals := vals[i := Initial(Def(i))];
      }
    }

    /** `InitAll()`: every entry in table order takes its reset value. */
    method InitAll()
      requires Valid()
      modifies this
      ensures Valid()
      ensures forall i :: 0 <= i < NMR_PARAMETERS ==> vals[i] == ResetValue(i, saved)
      ensures saved == old(saved) && latch == old(latch)
      ensures activeIdx == old(activeIdx) && activeRegAdr == old(activeRegAdr)
    {
      var i := 0;
      while i < NMR_PARAMETERS
        invariant 0 <= i <= NMR_PARAMETERS && Valid()
        invariant saved == old(saved) && latch == old(latch)
        invariant activeIdx == old(activeIdx) && activeRegAdr == old(activeRegAdr)
        invariant forall j :: 0 <= j < i ==> vals[j] == ResetValue(j, saved)
      {
        ResetVal(i);
        i := i + 1;
      }
    }

    /**
     * `GetPar(a)`: scans every entry once, starting at the cached
     * `ActiveIdx` and wrapping around, for the one whose span holds `a`.
     * A hit leaves the cursor on it with `ActiveRegAdr == a`; a miss parks
     * the cursor past the table with `ActiveRegAdr` invalid.
     */
    method GetPar(a: uint16) returns (r: Option<nat>)
      requires Valid()
      modifies this
      ensures Valid() && vals == old(vals) && saved == old(saved) && latch == old(latch)
      ensures r == Lookup(a)
      ensures r.Some? ==> activeIdx == r.value && activeRegAdr == a
      ensures r.None? ==> activeIdx == NMR_PARAMETERS && activeRegAdr == INVALID_REGADR
    {
      // the cursor is kept in a local and stored back when the scan ends
      var idx := activeIdx;
      ghost var start := if idx >= NMR_PARAMETERS then 0 else idx;
      var i := 0;
      while i < NMR_PARAMETERS
        invariant 0 <= i <= NMR_PARAMETERS && idx <= NMR_PARAMETERS
        invariant i == 0 ==> idx == start || (idx == NMR_PARAMETERS && start == 0)
        invariant i > 0 ==> idx == (if start + i <= NMR_PARAMETERS then start + i else start + i - NMR_PARAMETERS)
        invariant forall j :: 0 <= j < NMR_PARAMETERS && Visited(start, i, j) ==> !InSpan(j, a)
      {
        if idx >= NMR_PARAMETERS {
          idx := 0;
        }
        assert idx == Wrap(start + i);
        var hr := Def(idx).adr;
        if hr == a || (a > hr && a < hr + Size(Def(idx))) {
          activeIdx, activeRegAdr := idx, a;
          LookupOwner(a, idx);
          return Some(idx);
        }
        forall j | 0 <= j < NMR_PARAMETERS && Visited(start, i + 1, j)
          ensures !InSpan(j, a)
        {
          VisitedStep(start, i, j);
        }
        idx := idx + 1;
        i := i + 1;
      }
      forall j | 0 <= j < NMR_PARAMETERS
        ensures !InSpan(j, a)
      {
        VisitedAll(start, j);
      }
      activeIdx, activeRegAdr := NMR_PARAMETERS, INVALID_REGADR;
      r := None;
    }

    /** The virtual `readregval` of entry `i` at unit `off`. */
    method ReadRegVal(i: nat, off: nat) returns (out: int16)
      requires Valid() && i < NMR_PARAMETERS && off < Size(Def(i))
      modifies this
      ensures Valid() && vals == old(vals) && saved == old(saved)
      ensures activeIdx == old(activeIdx) && activeRegAdr == old(activeRegAdr)
      ensures UnitRead(out, latch) == ReadUnit(Def(i), vals[i], off, old(latch))
    {
      var d := Def(i);
      var v := vals[i];
      match d.kind {
        case S32 =>
          if off == 0 {
            latch := latch.(tmpVal := v.n);
            out := HighHalf(latch.tmpVal);
          } else {
            out := LowHalf(latch.tmpVal);
          }
        case Text =>
          if off == 0 {
            latch := latch.(writeString := v.s);
          }
          out := TextUnit(latch.writeString, 2 * off);
        case Clock =>
          if off == 0 {
            latch := latch.(writeString := v.s);
          }
          out := TextUnit(latch.writeString, 2 * off);
        case MacAddr =>
          out := MacUnit(v.b, off);
        case ErrLog =>
          out := ToInt16(v.h[off]);
        case _ =>
          out := ToInt16(v.n);
      }
    }

    /**
     * `ReadReg(out, a)`: one unit of the readable register holding `a`;
     * an address no register holds, or a register that is not readable,
     * reads as `NONDEF_REG_VAL` and reports 0 units.
     */
    method ReadReg(a: uint16) returns (out: int16, n: uint8)
      requires Valid()
      modifies this
      ensures Valid() && vals == old(vals) && saved == old(saved)
      ensures Lookup(a).None? ==>
        out == NONDEF_REG_VAL && n == 0 && latch == old(latch)
        && activeIdx == NMR_PARAMETERS && activeRegAdr == INVALID_REGADR
      ensures Lookup(a).Some? && !IsReadable(Def(Lookup(a).value)) ==>
        out == NONDEF_REG_VAL && n == 0 && latch == old(latch)
        && activeIdx == Lookup(a).value && activeRegAdr == a
      ensures Lookup(a).Some? && IsReadable(Def(Lookup(a).value)) ==>
        var i := Lookup(a).value;
        && n == 1
        && UnitRead(out, latch) == ReadUnit(Def(i), vals[i], Offset(i, a), old(latch))
        && activeIdx == i && activeRegAdr == INVALID_REGADR
    {
      var r := GetPar(a);
      if r.Some? && IsReadable(Def(r.value)) {
        var i := r.value;
        activeRegAdr := a;
        out := ReadRegVal(i, Offset(i, a));
        activeRegAdr := INVALID_REGADR;
        n := 1;
      } else {
        out := NONDEF_REG_VAL;
        n := 0;
      }
    }

    /**
     * The virtual `writeregval` of entry `i` at unit `off`, except that the
     * command register's event is raised by the caller when `raise` says so.
     */
    method WriteRegVal(i: nat, off: nat, inp: int16) returns (n: uint8, raise: bool)
      requires Valid() && i < NMR_PARAMETERS && off < Size(Def(i)) && Def(i).kind != Clock
      modifies this
      ensures Valid()
      ensures var w := WriteUnit(Def(i), old(vals)[i], off, inp, old(latch));
        && n == w.n && raise == w.raise
        && vals == old(vals)[i := w.v] && latch == w.latch
        && saved == Persist(old(saved), i, w.v, w.changed)
      ensures activeIdx == old(activeIdx) && activeRegAdr == old(activeRegAdr)
    {
      var d := Def(i);
      n, raise := 0, false;
      match d.kind {
        case S32 =>
          if off == 0 {
            latch := latch.(highReg := ToUint16(inp));
          } else {
            var t := Assemble(latch.highReg, inp);
            if CheckLimits(d, t) {
              var _ := SetNum(i, t);
            }
          }
          n := 1;
        case Text =>
          n := WriteTextRegVal(i, off, inp);
        case MacAddr =>
          n := 0;
        case ErrLog =>
          n := 0;
        case Command =>
          if CheckLimits(d, inp) {
            var _ := SetNum(i, inp);
            raise := true;
          }
          n := 1;
        case Clock =>
          assert false;
        case _ =>
          if CheckLimits(d, inp) {
            var _ := SetNum(i, inp);
            n := 1;
          }
      }
    }

    /**
     * `string_reg::writeregval`: unit 0 clears the latch; a unit that
     * continues the latched text appends its low and high byte up to a NUL,
     * and the latch is stored at a NUL or on the last unit.
     */
    method WriteTextRegVal(i: nat, off: nat, inp: int16) returns (n: uint8)
      requires Valid() && i < NMR_PARAMETERS && off < Size(Def(i)) && Def(i).kind == Text
      modifies this
      ensures Valid()
      ensures var w := WriteUnit(Def(i), old(vals)[i], off, inp, old(latch));
        && n == w.n && vals == old(vals)[i := w.v] && latch == w.latch
        && saved == Persist(old(saved), i, w.v, w.changed)
      ensures activeIdx == old(activeIdx) && activeRegAdr == old(activeRegAdr)
    {
      var size := Size(Def(i));
      if off == 0 {
        latch := latch.(writeString := []);
      }
      var end := off * 2 > |latch.writeString|;
      if !end {
        var save := false;
        var tc := LowByte(inp);
        save := save || tc == 0;
        if !save {
          latch := latch.(writeString := latch.writeString + [tc]);
        }
        tc := HighByte(inp);
        save := save || tc == 0;
        if !save {
          latch := latch.(writeString := latch.writeString + [tc]);
        }
        save := save || off == size - 1;
        if save {
          var _ := SetText(i, latch.writeString);
        }
      }
      n := 1;
    }

    /**
     * The numeric `Set(v)` of entry `i` (`int16_reg`, `uint16_reg`,
     * `int32_reg`): stores as its class does, reports a change, and the
     * NV and RTC variants persist a changed value.
     */
    method SetNum(i: nat, v: int32) returns (changed: bool)
      requires Valid() && i < NMR_PARAMETERS && IsNumeric(Def(i).kind)
      modifies this
      ensures Valid()
      ensures var s := SetNumeric(Def(i).kind, old(vals)[i].n, v);
        && changed == s.changed
        && vals == old(vals)[i := Num(s.value)]
        && saved == Persist(old(saved), i, Num(s.value), s.changed)
      ensures latch == old(latch) && activeIdx == old(activeIdx) && activeRegAdr == old(activeRegAdr)
    {
      var s := SetNumeric(Def(i).kind, vals[i].n, v);
      changed := s.changed;
      if s.changed {
        vals := vals[i := Num(s.value)];
        if Def(i).store != Ram {
          saved := saved[i := Num(s.value)];
        }
      }
    }

    /** `SetLimit(v)`: `Set` of `v` pulled into the register's limits. */
    method SetLimit(i: nat, v: int32) returns (changed: bool)
      requires Valid() && i < NMR_PARAMETERS && IsNumeric(Def(i).kind)
      modifies this
      ensures Valid()
      ensures var s := SetNumeric(Def(i).kind, old(vals)[i].n, LimitValue(Def(i), v));
        && changed == s.changed
        && vals == old(vals)[i := Num(s.value)]
        && saved == Persist(old(saved), i, Num(s.value), s.changed)
      ensures latch == old(latch) && activeIdx == old(activeIdx) && activeRegAdr == old(activeRegAdr)
    {
      var d := Def(i);
      if v > d.max {
        changed := SetNum(i, d.max);
      } else if v < d.min {
        changed := SetNum(i, d.min);
      } else {
        changed := SetNum(i, v);
      }
    }

    /** `string_reg::Set(txt)`: stores a different text and reports the change; the NV variant persists it. */
    method SetText(i: nat, txt: seq<uint8>) returns (changed: bool)
      requires Valid() && i < NMR_PARAMETERS && Def(i).kind == Text
      modifies this
      ensures Valid()
      ensures changed <==> old(vals)[i].s != txt
      ensures vals == old(vals)[i := Txt(txt)]
      ensures saved == Persist(old(saved), i, Txt(txt), changed)
      ensures latch == old(latch) && activeIdx == old(activeIdx) && activeRegAdr == old(activeRegAdr)
    {
      changed := vals[i].s != txt;
      if changed {
        vals := vals[i := Txt(txt)];
        if Def(i).store != Ram {
          saved := saved[i := Txt(txt)];
        }
      }
    }

    /**
     * `time_reg::Set(t)`: takes the time, and its text becomes "--:--" for
     * 0 and otherwise `hhmm`, the local time of day the caller formatted;
     * reports whether the text changed.
     */
    method SetTime(i: nat, t: int, hhmm: seq<uint8>) returns (changed: bool)
      requires Valid() && i < NMR_PARAMETERS && Def(i).kind == Clock
      modifies this
      ensures Valid()
      ensures vals == old(vals)[i := Time(t, ClockText(t, hhmm))]
      ensures changed <==> old(vals)[i].s != ClockText(t, hhmm)
      ensures saved == old(saved)
      ensures latch == old(latch) && activeIdx == old(activeIdx) && activeRegAdr == old(activeRegAdr)
    {
      var txt := ClockText(t, hhmm);
      changed := vals[i].s != txt;
      vals := vals[i := Time(t, txt)];
    }

    /** `log_reg::Set(err)`: a nonzero code goes to the front of the history, which is persisted. */
    method LogSet(err: nat)
      requires Valid()
      modifies this
      ensures Valid()
      ensures vals == old(vals)[LogHistory := Hist(LogPush(old(vals)[LogHistory].h, err))]
      ensures err != 0 ==> saved == old(saved)[LogHistory := vals[LogHistory]]
      ensures err == 0 ==> saved == old(saved)
      ensures latch == old(latch) && activeIdx == old(activeIdx) && activeRegAdr == old(activeRegAdr)
    {
      assert Def(LogHistory).kind == ErrLog;
      var h := vals[LogHistory].h;
      if err != 0 {
        var moved := [err] + h[..ERR_HISTORY_CNT - 1];
        vals := vals[LogHistory := Hist(moved)];
        saved := saved[LogHistory := Hist(moved)];
      }
    }

    /** `mac_reg_nv::Set(mac)`: copies the six bytes and persists them. */
    method SetMac(mac: seq<uint8>)
      requires Valid() && |mac| == 6
      modifies this
      ensures Valid()
      ensures vals == old(vals)[MasterMacAdresa := Mac(mac)]
      ensures saved == old(saved)[MasterMacAdresa := Mac(mac)]
      ensures latch == old(latch) && activeIdx == old(activeIdx) && activeRegAdr == old(activeRegAdr)
    {
      assert Def(MasterMacAdresa).kind == MacAddr;
      vals := vals[MasterMacAdresa := Mac(mac)];
      saved := saved[MasterMacAdresa := Mac(mac)];
    }
  }

  /** Whether entry `j` is among the first `i` that a scan from `start` visits, wrapping around. */
  predicate Visited(start: nat, i: nat, j: nat)
  {
    if start + i <= NMR_PARAMETERS then start <= j < start + i
    else start <= j || j < start + i - NMR_PARAMETERS
  }

  lemma VisitedStep(start: nat, i: nat, j: nat)
    requires start < NMR_PARAMETERS && i < NMR_PARAMETERS && j < NMR_PARAMETERS
    ensures Visited(start, i + 1, j) <==> Visited(start, i, j) || j == Wrap(start + i)
  {
  }

  lemma VisitedAll(start: nat, j: nat)
    requires start < NMR_PARAMETERS && j < NMR_PARAMETERS
    ensures Visited(start, NMR_PARAMETERS, j)
  {
  }

  /** A scan position taken modulo the table length. */
  function Wrap(p: nat): (k: nat)
    requires p < 2 * NMR_PARAMETERS
    ensures k < NMR_PARAMETERS
  {
    if p < NMR_PARAMETERS then p else p - NMR_PARAMETERS
  }

  /** After a reset every register holds a value of its class. */
  lemma ResetFits(i: nat, saved: map<nat, RegVal>)
    requires i < NMR_PARAMETERS
    requires forall j :: j in saved ==> j < NMR_PARAMETERS && Fits(Def(j), saved[j])
    ensures Fits(Def(i), ResetValue(i, saved))
  {
    InitialFits(i);
  }
}
