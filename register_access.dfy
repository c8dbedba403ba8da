/**
 * `Register::WriteReg` of parameters.cpp: the register found by `GetPar`
 * takes one unit if it is writable, and the command register turns an
 * accepted unit into a feeder event sourced `povel_espnow`. It sits apart
 * from the register objects because raising the event needs the event
 * word.
 */
module RegisterAccess {
  import opened Ints
  import opened ParamTypes
  import opened ParamTable
  import opened Parameters
  import opened SleepCtrl
  import opened ParamValues
  import opened FeederEvents

  /** What a unit write leaves behind: the unit count and everything it may touch. */
  datatype Effect = Effect(
    n: uint8, vals: seq<RegVal>, saved: map<nat, RegVal>, latch: Latches,
    events: set<nat>, tasks: seq<bool>)

  /** Every entry holds a value of its class. */
  predicate Fitting(vals: seq<RegVal>)
  {
    |vals| == NMR_PARAMETERS && forall j :: 0 <= j < NMR_PARAMETERS ==> Fits(Def(j), vals[j])
  }

  /**
   * `iswritable()` then `writeregval(inp)` of entry `i` at unit `off`:
   * a read-only register takes nothing and reports 0 units; an accepted
   * command also stores its source in `PovelOd` and raises the event.
   */
  function WriteEffect(i: nat, off: nat, inp: int16, e: Effect): (r: Effect)
    requires i < NMR_PARAMETERS && off < Size(Def(i)) && Fitting(e.vals) && |e.tasks| == NUMBER_TASKS
  {
    if !IsWritable(Def(i)) then e.(n := 0)
    else
      EntryFactsAt(i);
      var w := WriteUnit(Def(i), e.vals[i], off, inp, e.latch);
      var vals := e.vals[i := w.v];
      var saved := Persist(e.saved, i, w.v, w.changed);
      if w.raise then
        Effect(w.n, vals[PovelOd := Num(povel_espnow)], SetNumSaved(vals, saved, PovelOd, povel_espnow),
               w.latch, e.events + {inp as nat}, e.tasks[POSITION_TASK := true])
      else
        Effect(w.n, vals, saved, w.latch, e.events, e.tasks)
  }

  /** The state a write works on, as an `Effect` with no units counted yet. */
  function Before(q: EventQueue): Effect
    reads q, q.regs, q.tasks
  {
    Effect(0, q.regs.vals, q.regs.saved, q.regs.latch, q.events, q.tasks[..])
  }

  /** The write of entry `i`, which `GetPar` found for address `a`. */
  method WriteFound(q: EventQueue, i: nat, a: uint16, inp: int16) returns (n: uint8)
    requires q.Valid() && i < NMR_PARAMETERS && InSpan(i, a)
    modifies q, q.regs, q.tasks
    ensures q.Valid()
    ensures Before(q).(n := n) == WriteEffect(i, Offset(i, a), inp, old(Before(q)))
    ensures q.regs.activeIdx == old(q.regs.activeIdx) && q.regs.activeRegAdr == old(q.regs.activeRegAdr)
  {
    if IsWritable(Def(i)) {
      EntryFactsAt(i);
      var raise;
      n, raise := q.regs.WriteRegVal(i, Offset(i, a), inp);
      if raise {
        q.EventSourced(inp as nat, povel_espnow);
      }
    } else {
      n := 0;
    }
  }

  /**
   * `WriteReg(inp, a)` as written: the result of `GetPar` is used without
   * a check, so it is only defined for an address some register holds.
   */
  method WriteRegAsWritten(q: EventQueue, inp: int16, a: uint16) returns (n: uint8)
    requires q.Valid() && Lookup(a).Some?
    modifies q, q.regs, q.tasks
    ensures q.Valid()
    ensures Before(q).(n := n) == WriteEffect(Lookup(a).value, Offset(Lookup(a).value, a), inp, old(Before(q)))
    ensures q.regs.activeIdx == Lookup(a).value && q.regs.activeRegAdr == a
  {
    var r := q.regs.GetPar(a);
    n := WriteFound(q, r.value, a, inp);
  }

  /** Addresses 0 and 38 lie in no register's span. */
  lemma UnheldAddresses()
    ensures Lookup(0).None? && Lookup(38).None?
  {
    UnheldBelow13();
    UnheldBelow26();
    UnheldBelow39();
  }

  lemma UnheldBelow13()
    ensures forall i :: 0 <= i < 13 ==> !InSpan(i, 0) && !InSpan(i, 38)
  {
  }

  lemma UnheldBelow26()
    ensures forall i :: 13 <= i < 26 ==> !InSpan(i, 0) && !InSpan(i, 38)
  {
  }

  lemma UnheldBelow39()
    ensures forall i :: 26 <= i < NMR_PARAMETERS ==> !InSpan(i, 0) && !InSpan(i, 38)
  {
  }

  /**
   * `WriteReg(inp, a)` with the missing check: an address no register
   * holds takes nothing and reports 0 units, as `ReadReg` does.
   */
  method WriteReg(q: EventQueue, inp: int16, a: uint16) returns (n: uint8)
    requires q.Valid()
    modifies q, q.regs, q.tasks
    ensures q.Valid()
    ensures Lookup(a).None? ==>
      Before(q).(n := n) == old(Before(q))
      && q.regs.activeIdx == NMR_PARAMETERS && q.regs.activeRegAdr == INVALID_REGADR
    ensures Lookup(a).Some? ==>
      Before(q).(n := n) == WriteEffect(Lookup(a).value, Offset(Lookup(a).value, a), inp, old(Before(q)))
      && q.regs.activeIdx == Lookup(a).value && q.regs.activeRegAdr == a
  {
    var r := q.regs.GetPar(a);
    if r.None? {
      n := 0;
    } else {
      n := WriteFound(q, r.value, a, inp);
    }
  }

  /** A register without the W bit takes nothing and reports 0 units. */
  lemma ReadOnlyRefuses(i: nat, off: nat, inp: int16, e: Effect)
    requires i < NMR_PARAMETERS && off < Size(Def(i)) && Fitting(e.vals) && |e.tasks| == NUMBER_TASKS
    requires !IsWritable(Def(i))
    ensures WriteEffect(i, off, inp, e) == e.(n := 0)
  {
  }

  /**
   * An in-limit unit written to `ManualniOvladani` is stored, raised as
   * the event of that number and recorded as sourced `povel_espnow`; an
   * out-of-limit one is refused but still reported as one unit.
   */
  lemma CommandRaisesEvent(inp: int16, e: Effect)
    requires Fitting(e.vals) && |e.tasks| == NUMBER_TASKS
    ensures var r := WriteEffect(ManualniOvladani, 0, inp, e);
      && r.n == 1
      && (0 <= inp <= 2 ==>
            && r.events == e.events + {inp as nat}
            && r.tasks == e.tasks[POSITION_TASK := true]
            && r.vals[ManualniOvladani] == Num(inp)
            && r.vals[PovelOd] == Num(povel_espnow))
      && (!(0 <= inp <= 2) ==> r.events == e.events && r.vals == e.vals && r.tasks == e.tasks)
  {
    CommandWrite(Def(ManualniOvladani), e.vals[ManualniOvladani], inp, e.latch);
  }

  /**
   * A 16-bit writable register takes an in-limit unit as its value and
   * reports one unit; a unit out of limits is refused with nothing changed.
   */
  lemma ScalarWriteEffect(i: nat, inp: int16, e: Effect)
    requires i < NMR_PARAMETERS && Fitting(e.vals) && |e.tasks| == NUMBER_TASKS
    requires IsWritable(Def(i)) && (Def(i).kind == U16 || Def(i).kind == S16)
    ensures var r := WriteEffect(i, 0, inp, e);
      && (CheckLimits(Def(i), inp) <==> r.n == 1)
      && (CheckLimits(Def(i), inp) && (Def(i).kind == S16 || inp >= 0) ==> r.vals == e.vals[i := Num(inp)])
      && (!CheckLimits(Def(i), inp) ==> r == e.(n := 0))
      && r.events == e.events && r.tasks == e.tasks
  {
    ScalarWrite(Def(i), e.vals[i], inp, e.latch);
  }
}
