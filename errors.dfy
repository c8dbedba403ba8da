/**
 * The fault engine of error.cpp and error_table.h: five fault instances,
 * each a debounce counter with a block mask, a clearing mask, an error
 * code and a feeder event. A fault that matures ORs its block mask into
 * the global `block_active`, raises its event and claims `ChybovyKod` if
 * no other fault holds it. Each instance owns its counter, so the five
 * counters are held here as `DebState` values.
 */
module Errors {
  import opened Ints
  import opened ParamTypes
  import opened ParamTable
  import opened Parameters
  import opened SleepCtrl
  import opened ParamValues
  import opened FeederEvents
  import Debounce

  const MOVE_UP: bv8 := 1
  const MOVE_DOWN: bv8 := 2
  const MOVE_CMD: bv8 := 4
  const SELF_CLEAR: bv8 := 8
  const MOVE_CTRL_BLOCK: bv8 := 16

  /** One `ERROR(...)` line: counter steps up and down, masks, code and event. */
  datatype FaultDef = FaultDef(up: uint8, down: uint8, block: bv8, clearing: bv8, code: nat, event: nat)

  const OVRL_OPEN: nat := 0
  const OVRL_CLOSE: nat := 1
  const NO_CURRENT: nat := 2
  const ERROR_CLOSE: nat := 3
  const ERROR_OPEN: nat := 4
  const NMR_FAULTS: nat := 5

  /** `err_inst[k]`, in the order of error_table.h. */
  function Fault(k: nat): FaultDef
    requires k < NMR_FAULTS
  {
    match k
    case 0 => FaultDef(5, 20, MOVE_UP | MOVE_CTRL_BLOCK, MOVE_UP | MOVE_DOWN, NadProudOtev, EV_OVERLOAD_OPEN)
    case 1 => FaultDef(5, 20, MOVE_DOWN | MOVE_CTRL_BLOCK, MOVE_UP | MOVE_DOWN, NadProudZav, EV_OVERLOAD_CLOSE)
    case 2 => FaultDef(5, 100, MOVE_DOWN | MOVE_UP, MOVE_UP | MOVE_DOWN | SELF_CLEAR, NeniProud, EV_NO_CURRENT)
    case 3 => FaultDef(25, 100, MOVE_CTRL_BLOCK, MOVE_UP | MOVE_DOWN, ChybaZavirani, NO_EVENT)
    case _ => FaultDef(25, 100, MOVE_CTRL_BLOCK, MOVE_UP | MOVE_DOWN, ChybaOtevirani, NO_EVENT)
  }

  predicate SelfClearing(k: nat)
    requires k < NMR_FAULTS
  {
    Fault(k).clearing & SELF_CLEAR != 0
  }

  /** The OR of the block masks of the active faults among the first `n`. */
  function ActiveBlock(deb: seq<Debounce.DebState>, n: nat): bv8
    requires n <= |deb| && n <= NMR_FAULTS
  {
    if n == 0 then 0 else ActiveBlock(deb, n - 1) | Contribution(deb[n - 1], n - 1)
  }

  /** The block bits fault `k` contributes in counter state `s`: its mask while active, none otherwise. */
  function Contribution(s: Debounce.DebState, k: nat): (r: bv8)
    requires k < NMR_FAULTS
    ensures r != 0 <==> s.matured
  {
    if s.matured then Fault(k).block else 0
  }

  /** Everything the fault engine reads or writes. */
  datatype World = World(
    deb: seq<Debounce.DebState>, block: bv8,
    vals: seq<RegVal>, saved: map<nat, RegVal>, latch: Latches, idx: nat, radr: uint16,
    events: set<nat>, tasks: seq<bool>)

  predicate Good(w: World)
  {
    && |w.deb| == NMR_FAULTS && |w.tasks| == NUMBER_TASKS && |w.vals| == NMR_PARAMETERS
    && w.vals[ChybovyKod].Num? && w.vals[LogHistory].Hist? && |w.vals[LogHistory].h| == ERR_HISTORY_CNT
  }

  /** The code in `ChybovyKod`. */
  function Code(w: World): int
    requires Good(w)
  {
    w.vals[ChybovyKod].n
  }

  /** `SetErrCode`: only an empty `ChybovyKod` takes the code, which the history then records. */
  function SetErrCodeW(w: World, k: nat): (r: World)
    requires Good(w) && k < NMR_FAULTS
    ensures Good(r)
  {
    if Code(w) == 0 then
      var h := LogPush(w.vals[LogHistory].h, Fault(k).code);
      w.(vals := w.vals[ChybovyKod := Num(Fault(k).code)][LogHistory := Hist(h)],
         saved := w.saved[LogHistory := Hist(h)])
    else w
  }

  /** `ClearErrCode`: `ChybovyKod` is emptied only while it holds this fault's code. */
  function ClearErrCodeW(w: World, k: nat): (r: World)
    requires Good(w) && k < NMR_FAULTS
    ensures Good(r)
  {
    if Code(w) == Fault(k).code then w.(vals := w.vals[ChybovyKod := Num(0)]) else w
  }

  /** `RestoreError`: the block mask rebuilt from the active faults. */
  function RestoreW(w: World): (r: World)
    requires Good(w)
    ensures Good(r)
  {
    w.(block := ActiveBlock(w.deb, NMR_FAULTS))
  }

  /**
   * The events raised when fault `k` becomes active: its own event, unless
   * that is `no_event`, which names no bit the feeder state machine drains.
   */
  function Raised(k: nat): (r: set<nat>)
    requires k < NMR_FAULTS
    ensures forall e :: e in r ==> e < NMR_EVENTS
    ensures k <= NO_CURRENT <==> r == {Fault(k).event}
    ensures k > NO_CURRENT <==> r == {}
  {
    if Fault(k).event < NMR_EVENTS then {Fault(k).event} else {}
  }

  /** Whether activating fault `k` posts its event: only an event the state machine handles. */
  predicate Posts(k: nat)
    requires k < NMR_FAULTS
  {
    Fault(k).event < NMR_EVENTS
  }

  /**
   * `Check(val)` of fault `k`; when `post` holds, activation posts the
   * fault's event, which also marks the position task busy.
   */
  function CheckWith(w: World, k: nat, val: bool, post: bool): (r: World)
    requires Good(w) && k < NMR_FAULTS
    ensures Good(r)
  {
    var s := w.deb[k];
    if s.matured && !SelfClearing(k) then w
    else
      var s1 := Debounce.Step(Fault(k).up, Fault(k).down, s, val);
      var w1 := w.(deb := w.deb[k := s1]);
      if s1.matured then
        if !s.matured then
          SetErrCodeW(w1.(block := w1.block | Fault(k).block,
                          events := if post then w1.events + {Fault(k).event} else w1.events,
                          tasks := if post then w1.tasks[POSITION_TASK := true] else w1.tasks), k)
        else w1
      else if SelfClearing(k) then ClearErrCodeW(RestoreW(w1), k)
      else w1
  }

  /** The branches of `CheckWith`, one by one. */
  lemma CheckCases(w: World, k: nat, val: bool, post: bool)
    requires Good(w) && k < NMR_FAULTS
    ensures var s := w.deb[k];
      && var s1 := Debounce.Step(Fault(k).up, Fault(k).down, s, val);
      && var w1 := w.(deb := w.deb[k := s1]);
      && var r := CheckWith(w, k, val, post);
      && (s.matured && !SelfClearing(k) ==> r == w)
      && (!(s.matured && !SelfClearing(k)) && s1.matured && !s.matured ==>
            r == SetErrCodeW(w1.(block := w1.block | Fault(k).block,
                                 events := if post then w1.events + {Fault(k).event} else w1.events,
                                 tasks := if post then w1.tasks[POSITION_TASK := true] else w1.tasks), k))
      && (!(s.matured && !SelfClearing(k)) && s1.matured && s.matured ==> r == w1)
      && (!(s.matured && !SelfClearing(k)) && !s1.matured && SelfClearing(k) ==> r == ClearErrCodeW(RestoreW(w1), k))
      && (!(s.matured && !SelfClearing(k)) && !s1.matured && !SelfClearing(k) ==> r == w1)
  {
  }

  /** `Check(val)` of fault `k`, posting only events the state machine handles. */
  function CheckW(w: World, k: nat, val: bool): (r: World)
    requires Good(w) && k < NMR_FAULTS
    ensures Good(r)
  {
    CheckWith(w, k, val, Posts(k))
  }

  /** `Check(val)` as written: `FeederCtrl::Event(event)` is called even for `no_event`. */
  function CheckAsWritten(w: World, k: nat, val: bool): (r: World)
    requires Good(w) && k < NMR_FAULTS
    ensures Good(r)
  {
    CheckWith(w, k, val, true)
  }

  /** Under `Check` a latched fault changes nothing; otherwise only its own counter steps. */
  lemma CheckSteps(w: World, k: nat, val: bool)
    requires Good(w) && k < NMR_FAULTS
    ensures var r := CheckW(w, k, val);
      && (w.deb[k].matured && !SelfClearing(k) ==> r == w)
      && (!(w.deb[k].matured && !SelfClearing(k)) ==>
            r.deb == w.deb[k := Debounce.Step(Fault(k).up, Fault(k).down, w.deb[k], val)])
  {
  }

  /** `Check` raises the fault's event exactly when the fault becomes active, and updates the mask. */
  lemma CheckRaises(w: World, k: nat, val: bool)
    requires Good(w) && k < NMR_FAULTS
    ensures var r := CheckW(w, k, val);
      && (r.deb[k].matured && !w.deb[k].matured ==>
            r.events == w.events + Raised(k) && r.block == w.block | Fault(k).block)
      && (!(r.deb[k].matured && !w.deb[k].matured) ==> r.events == w.events)
      && (r.deb[k].matured == w.deb[k].matured && !(!r.deb[k].matured && SelfClearing(k)) ==> r.block == w.block)
      && (!r.deb[k].matured && SelfClearing(k) ==> r.block == ActiveBlock(r.deb, NMR_FAULTS))
  {
  }

  /** The registers other than `ChybovyKod` and `LogHistory` agree. */
  predicate SameOthers(a: seq<RegVal>, b: seq<RegVal>)
  {
    |a| == |b| && forall i :: 0 <= i < |a| && i != ChybovyKod && i != LogHistory ==> a[i] == b[i]
  }

  /**
   * What `Check` leaves alone: the registers other than the error code and
   * history, and, for the two position faults, the events and task flags.
   */
  lemma CheckFrame(w: World, k: nat, val: bool)
    requires Good(w) && k < NMR_FAULTS
    ensures var r := CheckW(w, k, val);
      && SameOthers(w.vals, r.vals)
      && (k >= ERROR_CLOSE ==> r.events == w.events && r.tasks == w.tasks)
  {
  }

  /** `Clear()` of fault `k`: its counter reset and its code withdrawn. */
  function ClearW(w: World, k: nat): (r: World)
    requires Good(w) && k < NMR_FAULTS
    ensures Good(r)
  {
    ClearErrCodeW(w.(deb := w.deb[k := Debounce.Initial(w.deb[k].max)]), k)
  }

  /** `ClearAction(ev)` of fault `k`: the new state and the returned block mask. */
  function ClearActionW(w: World, k: nat, ev: bv8): (r: (World, bv8))
    requires Good(w) && k < NMR_FAULTS
    ensures Good(r.0)
  {
    if w.deb[k].matured then
      if ev & Fault(k).clearing != 0 then (ClearW(w, k), 0)
      else (SetErrCodeW(w, k), Fault(k).block)
    else (ClearErrCodeW(w, k), 0)
  }

  /** `ClearAction(ev)` applied to the first `n` faults in table order. */
  function ClearPrefix(w: World, ev: bv8, n: nat): (r: World)
    requires Good(w) && n <= NMR_FAULTS
    ensures Good(r)
  {
    if n == 0 then w else ClearActionW(ClearPrefix(w, ev, n - 1), n - 1, ev).0
  }

  /** `ClearActionAll(ev)`. */
  function ClearActionAllW(w: World, ev: bv8): (r: World)
    requires Good(w)
    ensures Good(r)
  {
    RestoreW(ClearPrefix(w, ev, NMR_FAULTS))
  }

  class Faults {
    /** The counters of `err_inst[0..5]`. */
    var deb: seq<Debounce.DebState>
    /** `Error::block_active`. */
    var blockActive: bv8
    /** The event word, and through it the registers and the task flags. */
    const q: EventQueue

    ghost predicate Valid()
      reads this, q, q.regs, q.tasks
    {
      && q.Valid()
      && |deb| == NMR_FAULTS
      && forall k :: 0 <= k < NMR_FAULTS ==> Debounce.Bounded(Fault(k).up, deb[k])
    }

    ghost function W(): World
      reads this, q, q.regs, q.tasks
    {
      World(deb, blockActive, q.regs.vals, q.regs.saved, q.regs.latch, q.regs.activeIdx, q.regs.activeRegAdr,
            q.events, q.tasks[..])
    }

    lemma ValidGood()
      requires Valid()
      ensures Good(W())
    {
      assert Fits(Def(ChybovyKod), q.regs.vals[ChybovyKod]);
      assert Fits(Def(LogHistory), q.regs.vals[LogHistory]);
    }

    /** The faults as constructed: every counter empty with ceiling 100, nothing blocked. */
    constructor (events: EventQueue)
      requires events.Valid()
      ensures Valid() && q == events
      ensures deb == seq(NMR_FAULTS, _ => Debounce.Initial(Debounce.CNT_MAX_DEFAULT)) && blockActive == 0
    {
      q := events;
      deb := seq(NMR_FAULTS, _ => Debounce.Initial(Debounce.CNT_MAX_DEFAULT));
      blockActive := 0;
    }

    /** `IsActive()`: the counter's output. */
    method IsActive(k: nat) returns (a: bool)
      requires Valid() && k < NMR_FAULTS
      ensures a == deb[k].matured
    {
      a := deb[k].matured;
    }

    method SetErrCode(k: nat)
      requires Valid() && k < NMR_FAULTS
      modifies q.regs
      ensures Valid() && Good(old(W())) && W() == SetErrCodeW(old(W()), k)
    {
      ValidGood();
      if q.regs.vals[ChybovyKod].n == 0 {
        var _ := q.regs.SetNum(ChybovyKod, Fault(k).code);
        q.regs.LogSet(Fault(k).code);
      }
    }

    method ClearErrCode(k: nat)
      requires Valid() && k < NMR_FAULTS
      modifies q.regs
      ensures Valid() && Good(old(W())) && W() == ClearErrCodeW(old(W()), k)
    {
      ValidGood();
      if q.regs.vals[ChybovyKod].n == Fault(k).code {
        var _ := q.regs.SetNum(ChybovyKod, 0);
      }
    }

    method RestoreError()
      requires Valid()
      modifies this
      ensures Valid() && Good(old(W())) && W() == RestoreW(old(W()))
    {
      ValidGood();
      var b: bv8 := 0;
      for i := 0 to NMR_FAULTS
        invariant b == ActiveBlock(deb, i)
      {
        if deb[i].matured {
          b := b | Fault(i).block;
        }
      }
      blockActive := b;
    }

    /** `Check(val)` of fault `k`; returns the counter's output. */
    method Check(k: nat, val: bool) returns (out: bool)
      requires Valid() && k < NMR_FAULTS
      modifies this, q, q.regs, q.tasks
      ensures Valid() && Good(old(W())) && W() == CheckW(old(W()), k, val)
      ensures out == deb[k].matured
    {
      ValidGood();
      ghost var w0 := W();
      CheckCases(w0, k, val, Posts(k));
      var isAct := deb[k].matured;
      var noErrorClr := isAct && !SelfClearing(k);
      if !noErrorClr {
        var s := Debounce.Step(Fault(k).up, Fault(k).down, deb[k], val);
        deb := deb[k := s];
        ghost var w1 := W();
        assert w1 == w0.(deb := w0.deb[k := s]);
        if s.matured {
          if !isAct {
            Activate(k);
          }
        } else if SelfClearing(k) {
          RestoreError();
          ClearErrCode(k);
        }
      }
      out := deb[k].matured;
    }

    /** The activation step of `Check`: block bits, event, error code. */
    method Activate(k: nat)
      requires Valid() && k < NMR_FAULTS
      modifies this, q, q.regs, q.tasks
      ensures Valid() && Good(old(W()))
      ensures var w := old(W());
        W() == SetErrCodeW(w.(block := w.block | Fault(k).block,
                              events := if Posts(k) then w.events + {Fault(k).event} else w.events,
                              tasks := if Posts(k) then w.tasks[POSITION_TASK := true] else w.tasks), k)
      ensures deb == old(deb)
    {
      ValidGood();
      blockActive := blockActive | Fault(k).block;
      PostEvent(k);
      SetErrCode(k);
    }

    /** `FeederCtrl::Event(event)` for a fault whose event the state machine handles. */
    method PostEvent(k: nat)
      requires Valid() && k < NMR_FAULTS
      modifies q, q.tasks
      ensures Valid() && Good(old(W()))
      ensures var w := old(W());
        W() == w.(events := if Posts(k) then w.events + {Fault(k).event} else w.events,
                  tasks := if Posts(k) then w.tasks[POSITION_TASK := true] else w.tasks)
    {
      ValidGood();
      if Posts(k) {
        q.Event(Fault(k).event);
      }
    }

    method Clear(k: nat)
      requires Valid() && k < NMR_FAULTS
      modifies this, q.regs
      ensures Valid() && Good(old(W())) && W() == ClearW(old(W()), k)
    {
      ValidGood();
      deb := deb[k := Debounce.Initial(deb[k].max)];
      ClearErrCode(k);
    }

    method ClearAction(k: nat, ev: bv8) returns (b: bv8)
      requires Valid() && k < NMR_FAULTS
      modifies this, q.regs
      ensures Valid() && Good(old(W())) && (W(), b) == ClearActionW(old(W()), k, ev)
    {
      ValidGood();
      b := 0;
      if deb[k].matured {
        if ev & Fault(k).clearing != 0 {
          Clear(k);
        } else {
          b := Fault(k).block;
          SetErrCode(k);
        }
      } else {
        ClearErrCode(k);
      }
    }

    method ClearActionAll(ev: bv8)
      requires Valid()
      modifies this, q.regs
      ensures Valid() && Good(old(W())) && W() == ClearActionAllW(old(W()), ev)
    {
      ValidGood();
      ghost var w0 := W();
      for i := 0 to NMR_FAULTS
        invariant Valid() && W() == ClearPrefix(w0, ev, i)
      {
        var _ := ClearAction(i, ev);
      }
      RestoreError();
    }

    /** `IsBlocked(action)`: some bit of the action is blocked. */
    method IsBlocked(action: bv8) returns (blocked: bool)
      requires Valid()
      ensures blocked <==> action & blockActive != 0
    {
      blocked := action & blockActive != 0;
    }
  }

  /** Only `no_current` clears itself, and every fault lists both motion directions among its clearing actions. */
  lemma TableMasks(k: nat)
    requires k < NMR_FAULTS
    ensures SelfClearing(k) <==> k == NO_CURRENT
    ensures Fault(k).clearing & (MOVE_UP | MOVE_DOWN) == MOVE_UP | MOVE_DOWN
    ensures Fault(k).code != NeniChyba
    ensures forall j :: 0 <= j < NMR_FAULTS && j != k ==> Fault(j).code != Fault(k).code
  {
  }

  /** A bit is in the active block mask exactly when some active fault blocks it. */
  lemma {:induction false} ActiveBlockMeaning(deb: seq<Debounce.DebState>, n: nat, b: bv8)
    requires n <= |deb| && n <= NMR_FAULTS
    ensures ActiveBlock(deb, n) & b != 0 <==> exists k :: 0 <= k < n && Contribution(deb[k], k) & b != 0
  {
    if n > 0 {
      ActiveBlockMeaning(deb, n - 1, b);
      var x := ActiveBlock(deb, n - 1);
      var y := Contribution(deb[n - 1], n - 1);
      assert (x | y) & b == (x & b) | (y & b);
      if y & b != 0 {
        assert Contribution(deb[n - 1], n - 1) & b != 0;
      }
    }
  }

  /** With no fault active nothing is blocked. */
  lemma {:induction false} NoneActiveNoBlock(deb: seq<Debounce.DebState>, n: nat)
    requires n <= |deb| && n <= NMR_FAULTS
    requires forall k :: 0 <= k < n ==> !deb[k].matured
    ensures ActiveBlock(deb, n) == 0
  {
    if n > 0 {
      NoneActiveNoBlock(deb, n - 1);
    }
  }

  /** A fault that becomes active adds its own block bits to the mask. */
  lemma {:induction false} ActiveBlockRaise(deb: seq<Debounce.DebState>, k: nat, s: Debounce.DebState, n: nat)
    requires n <= |deb| && n <= NMR_FAULTS && k < |deb| && k < NMR_FAULTS
    requires s.matured && !deb[k].matured
    ensures ActiveBlock(deb[k := s], n) == ActiveBlock(deb, n) | (if k < n then Fault(k).block else 0)
  {
    if n > 0 {
      var d := deb[k := s];
      var kb := Fault(k).block;
      var a := ActiveBlock(deb, n - 1);
      if n - 1 == k {
        ActiveBlockSame(deb, k, s, n - 1);
        assert ActiveBlock(d, n) == a | kb;
      } else {
        ActiveBlockRaise(deb, k, s, n - 1);
        var y := Contribution(deb[n - 1], n - 1);
        var kk: bv8 := if k < n - 1 then kb else 0;
        assert d[n - 1] == deb[n - 1];
        assert (a | kk) | y == (a | y) | kk;
      }
    }
  }

  /** A fault whose activity does not change leaves the mask alone. */
  lemma {:induction false} ActiveBlockSame(deb: seq<Debounce.DebState>, k: nat, s: Debounce.DebState, n: nat)
    requires n <= |deb| && n <= NMR_FAULTS && k < |deb| && k < NMR_FAULTS
    requires s.matured == deb[k].matured || n <= k
    ensures ActiveBlock(deb[k := s], n) == ActiveBlock(deb, n)
  {
    if n > 0 {
      ActiveBlockSame(deb, k, s, n - 1);
    }
  }

  /** The mask of the active faults. */
  predicate BlockCurrent(w: World)
    requires Good(w)
  {
    w.block == ActiveBlock(w.deb, NMR_FAULTS)
  }

  /** `Check` keeps `block_active` equal to the OR of the active faults' masks. */
  lemma CheckKeepsBlock(w: World, k: nat, val: bool)
    requires Good(w) && k < NMR_FAULTS && BlockCurrent(w)
    ensures BlockCurrent(CheckW(w, k, val))
  {
    CheckSteps(w, k, val);
    CheckRaises(w, k, val);
    if !(w.deb[k].matured && !SelfClearing(k)) {
      MaskFollows(w, CheckW(w, k, val), k);
    }
  }

  /** The mask stays current when one counter changes and the mask is updated as `Check` does. */
  lemma MaskFollows(w: World, r: World, k: nat)
    requires Good(w) && Good(r) && k < NMR_FAULTS && BlockCurrent(w)
    requires r.deb == w.deb[k := r.deb[k]]
    requires r.deb[k].matured && !w.deb[k].matured ==> r.block == w.block | Fault(k).block
    requires r.deb[k].matured == w.deb[k].matured && !(!r.deb[k].matured && SelfClearing(k)) ==> r.block == w.block
    requires !r.deb[k].matured && SelfClearing(k) ==> r.block == ActiveBlock(r.deb, NMR_FAULTS)
    requires w.deb[k].matured && !r.deb[k].matured ==> SelfClearing(k)
    ensures BlockCurrent(r)
  {
    if r.deb[k].matured && !w.deb[k].matured {
      ActiveBlockRaise(w.deb, k, r.deb[k], NMR_FAULTS);
    } else if r.deb[k].matured == w.deb[k].matured {
      ActiveBlockSame(w.deb, k, r.deb[k], NMR_FAULTS);
    }
  }

  /**
   * The error code under `Check`: it is claimed only by a fault that
   * becomes active while no code is held, and then heads the history;
   * another fault's code is never overwritten; only `no_current`, which
   * clears itself, withdraws a code.
   */
  lemma CheckCode(w: World, k: nat, val: bool)
    requires Good(w) && k < NMR_FAULTS
    ensures var r := CheckW(w, k, val);
      && (Code(w) != 0 && Code(w) != Fault(k).code ==> Code(r) == Code(w))
      && (Code(w) == 0 && r.deb[k].matured && !w.deb[k].matured ==>
            Code(r) == Fault(k).code && r.vals[LogHistory].h[0] == Fault(k).code)
      && (Code(r) != Code(w) ==> k == NO_CURRENT || (Code(w) == 0 && !w.deb[k].matured))
  {
    TableMasks(k);
  }

  /** A fault that is active and does not clear itself ignores its input. */
  lemma LatchedIgnoresInput(w: World, k: nat, val: bool)
    requires Good(w) && k < NMR_FAULTS && w.deb[k].matured && k != NO_CURRENT
    ensures CheckW(w, k, val) == w
  {
    TableMasks(k);
  }

  /** `n` consecutive `Check(val)` calls of fault `k`. */
  function CheckRun(w: World, k: nat, val: bool, n: nat): (r: World)
    requires Good(w) && k < NMR_FAULTS
    ensures Good(r)
  {
    if n == 0 then w else CheckW(CheckRun(w, k, val, n - 1), k, val)
  }

  /** The true inputs a fresh fault needs before it becomes active. */
  function Needed(k: nat): nat
    requires k < NMR_FAULTS
  {
    Debounce.CeilDiv(Debounce.CNT_MAX_DEFAULT as nat, Fault(k).up as nat)
  }

  lemma {:induction false} CheckRunFeeds(w: World, k: nat, n: nat)
    requires Good(w) && k < NMR_FAULTS && w.deb[k] == Debounce.Initial(Debounce.CNT_MAX_DEFAULT)
    requires n <= Needed(k)
    ensures CheckRun(w, k, true, n).deb[k] == Debounce.Feed(Fault(k).up, Fault(k).down, w.deb[k], true, n)
  {
    if n > 0 {
      CheckRunFeeds(w, k, n - 1);
      Debounce.MaturesAfter(Fault(k).up, Fault(k).down, w.deb[k]);
      CheckSteps(CheckRun(w, k, true, n - 1), k, true);
    }
  }

  /**
   * A fresh fault becomes active exactly at the Needed(k)-th consecutive
   * true `Check`: the 20th for the three current faults, the 4th for the
   * two position faults; only then is its event raised.
   */
  lemma FaultActivation(w: World, k: nat)
    requires Good(w) && k < NMR_FAULTS && w.deb[k] == Debounce.Initial(Debounce.CNT_MAX_DEFAULT)
    ensures Needed(k) == if k <= NO_CURRENT then 20 else 4
    ensures forall n :: 0 <= n < Needed(k) ==> !CheckRun(w, k, true, n).deb[k].matured
    ensures CheckRun(w, k, true, Needed(k)).deb[k].matured
    ensures Raised(k) <= CheckRun(w, k, true, Needed(k)).events
  {
    var d := Fault(k);
    Debounce.MaturesAfter(d.up, d.down, w.deb[k]);
    forall n | 0 <= n < Needed(k) ensures !CheckRun(w, k, true, n).deb[k].matured {
      CheckRunFeeds(w, k, n);
    }
    CheckRunFeeds(w, k, Needed(k) - 1);
    CheckRunFeeds(w, k, Needed(k));
    CheckRaises(CheckRun(w, k, true, Needed(k) - 1), k, true);
  }

  /**
   * `no_current` at full count clears itself at the first false `Check`:
   * it becomes inactive, its code is withdrawn and the block mask drops its bits.
   */
  lemma NoCurrentSelfClears(w: World)
    requires Good(w) && BlockCurrent(w) && Code(w) == NeniProud
    requires w.deb[NO_CURRENT].matured && w.deb[NO_CURRENT].max == Debounce.CNT_MAX_DEFAULT
    requires Debounce.Bounded(Fault(NO_CURRENT).up, w.deb[NO_CURRENT])
    ensures var r := CheckW(w, NO_CURRENT, false);
      && !r.deb[NO_CURRENT].matured && Code(r) == NeniChyba && BlockCurrent(r)
      && r.events == w.events
  {
    CheckSteps(w, NO_CURRENT, false);
    CheckRaises(w, NO_CURRENT, false);
  }

  /** The motion mask that the motor passes when it starts. */
  const MOTION: bv8 := MOVE_UP | MOVE_DOWN

  /** `ClearAction(ev)` of fault `k` touches only that fault's counter and the error code. */
  lemma ClearActionShape(w: World, k: nat, ev: bv8)
    requires Good(w) && k < NMR_FAULTS
    ensures var r := ClearActionW(w, k, ev).0;
      && r.deb == w.deb[k := if w.deb[k].matured && ev & Fault(k).clearing != 0
                             then Debounce.Initial(w.deb[k].max) else w.deb[k]]
      && r.block == w.block && r.events == w.events && r.tasks == w.tasks
      && r.latch == w.latch && r.idx == w.idx && r.radr == w.radr
      && SameOthers(w.vals, r.vals)
  {
  }

  lemma {:induction false} ClearPrefixFacts(w: World, ev: bv8, n: nat)
    requires Good(w) && n <= NMR_FAULTS
    ensures var r := ClearPrefix(w, ev, n);
      && (forall k :: 0 <= k < NMR_FAULTS ==>
            r.deb[k] == if k < n && w.deb[k].matured && ev & Fault(k).clearing != 0
                        then Debounce.Initial(w.deb[k].max) else w.deb[k])
      && r.block == w.block && r.events == w.events && r.tasks == w.tasks
      && r.latch == w.latch && r.idx == w.idx && r.radr == w.radr
      && SameOthers(w.vals, r.vals)
  {
    if n > 0 {
      ClearPrefixFacts(w, ev, n - 1);
      ClearActionShape(ClearPrefix(w, ev, n - 1), n - 1, ev);
    }
  }

  lemma {:induction false} MotionPrefixCode(w: World, n: nat)
    requires Good(w) && n <= NMR_FAULTS
    ensures Code(ClearPrefix(w, MOTION, n)) ==
      if exists k :: 0 <= k < n && Fault(k).code == Code(w) then NeniChyba else Code(w)
  {
    if n > 0 {
      MotionPrefixCode(w, n - 1);
      TableMasks(n - 1);
    }
  }

  /**
   * `ClearActionAll(ev)`: exactly the active faults that list a bit of
   * `ev` among their clearing actions are reset; the block mask is rebuilt;
   * events and task flags are untouched.
   */
  lemma ClearAllResult(w: World, ev: bv8)
    requires Good(w)
    ensures var r := ClearActionAllW(w, ev);
      && (forall k :: 0 <= k < NMR_FAULTS ==>
            (r.deb[k].matured <==> w.deb[k].matured && ev & Fault(k).clearing == 0))
      && BlockCurrent(r) && r.events == w.events && r.tasks == w.tasks
      && SameOthers(w.vals, r.vals)
  {
    ClearPrefixFacts(w, ev, NMR_FAULTS);
  }

  /**
   * Starting the motor (`ClearActionAll(MOVE_UP | MOVE_DOWN)`) clears every
   * fault, unblocks everything and withdraws any fault's error code.
   */
  lemma MotionClearsAll(w: World)
    requires Good(w)
    ensures var r := ClearActionAllW(w, MOTION);
      && (forall k :: 0 <= k < NMR_FAULTS ==> !r.deb[k].matured)
      && r.block == 0
      && ((exists k :: 0 <= k < NMR_FAULTS && Fault(k).code == Code(w)) ==> Code(r) == NeniChyba)
  {
    var p := ClearPrefix(w, MOTION, NMR_FAULTS);
    ClearPrefixFacts(w, MOTION, NMR_FAULTS);
    forall k | 0 <= k < NMR_FAULTS ensures !p.deb[k].matured {
      TableMasks(k);
    }
    NoneActiveNoBlock(p.deb, NMR_FAULTS);
    MotionPrefixCode(w, NMR_FAULTS);
  }

  /**
   * The two position faults name `no_event`. As written, the fourth failed
   * attempt posts bit 8, which the state machine never drains; with the
   * event filtered, activation posts nothing.
   */
  lemma NoEventPosted(w: World, k: nat)
    requires Good(w) && ERROR_CLOSE <= k < NMR_FAULTS
    requires w.deb[k] == Debounce.DebState(Debounce.CNT_MAX_DEFAULT, 75, false, false)
    ensures CheckAsWritten(w, k, true).deb[k].matured && CheckW(w, k, true).deb[k].matured
    ensures NO_EVENT in CheckAsWritten(w, k, true).events
    ensures CheckW(w, k, true).events == w.events
  {
  }
}
