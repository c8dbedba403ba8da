/**
 * The event word of feeder_ctrl.h: `FeederCtrl::Event` and
 * `EventSourced` OR a bit into the static `events` and mark the position
 * task busy. The word is held as the set of its one-bits, so raising an
 * event twice before it is drained leaves one pending bit. The registers
 * and the task flags are shared with every other component and are
 * reached through the queue.
 */
module FeederEvents {
  import opened Ints
  import opened ParamTypes
  import opened ParamTable
  import opened Parameters
  import opened SleepCtrl
  import opened ParamValues

  // FeederEvents_t
  const EV_STOP: nat := 0
  const EV_OPEN: nat := 1
  const EV_CLOSE: nat := 2
  const EV_OVERLOAD_OPEN: nat := 3
  const EV_OVERLOAD_CLOSE: nat := 4
  const EV_NO_CURRENT: nat := 5
  const EV_TIMER_EXPIRED: nat := 6
  const NMR_EVENTS: nat := 7
  const NO_EVENT: nat := 8

  /** `NOSTATE`: the action result meaning "stay in the current state". */
  const NOSTATE: nat := NMR_STATES

  /** The bits of a 32-bit word. */
  const WORD_BITS: nat := 32

  class EventQueue {
    /** The one-bits of `FeederCtrl::events`. */
    var events: set<nat>
    /** The register objects. */
    const regs: Registers
    /** `active_tasks`. */
    const tasks: array<bool>

    ghost predicate Valid()
      reads this, regs, tasks
    {
      && regs.Valid()
      && tasks.Length == NUMBER_TASKS
      && forall e :: e in events ==> e < WORD_BITS
    }

    /** No event pending; the registers and flags are shared with the caller. */
    constructor (r: Registers, t: array<bool>)
      requires r.Valid() && t.Length == NUMBER_TASKS
      ensures Valid() && events == {} && regs == r && tasks == t
    {
      events := {};
      regs := r;
      tasks := t;
    }

    /** `Event(e)`: bit `e` becomes pending and the position task busy. */
    method Event(e: nat)
      requires Valid() && e < WORD_BITS
      modifies this, tasks
      ensures Valid()
      ensures events == old(events) + {e}
      ensures tasks[..] == old(tasks[..])[POSITION_TASK := true]
    {
      tasks[POSITION_TASK] := true;
      events := events + {e};
    }

    /** `events &= ~(1 << e)` of `execute`: bit `e` is consumed. */
    method Consume(e: nat)
      requires Valid()
      modifies this
      ensures Valid() && events == old(events) - {e}
    {
      events := events - {e};
    }

    /** `EventSourced(e, src)`: `Event(e)`, and `PovelOd` records who asked. */
    method EventSourced(e: nat, src: nat)
      requires Valid() && e < WORD_BITS && src <= povel_neznamy
      modifies this, tasks, regs
      ensures Valid()
      ensures events == old(events) + {e}
      ensures tasks[..] == old(tasks[..])[POSITION_TASK := true]
      ensures regs.vals == old(regs.vals)[PovelOd := Num(src)]
      ensures regs.saved == SetNumSaved(old(regs.vals), old(regs.saved), PovelOd, src)
      ensures regs.latch == old(regs.latch)
      ensures regs.activeIdx == old(regs.activeIdx) && regs.activeRegAdr == old(regs.activeRegAdr)
    {
      tasks[POSITION_TASK] := true;
      events := events + {e};
      var _ := regs.SetNum(PovelOd, src);
    }
  }
}
