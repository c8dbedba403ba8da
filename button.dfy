/**
 * The push buttons of button.h. `Read` samples the pin once per loop pass
 * and debounces it with a counter of `STD_CNT` samples. A push held longer
 * than `long_push_time` milliseconds is a long push; a shorter push is a
 * press, reported when the button is released. The pin level and
 * `millis()` are arguments of `Read`.
 */
module Buttons {
  import opened Ints

  const STD_CNT: nat := 3
  const LONG_PUSH_TIME: uint32 := 2000

  /** `millis() - switchtime` in 32-bit unsigned arithmetic. */
  function Elapsed(now: uint32, since: uint32): (d: uint32)
    ensures now >= since ==> d == now - since
    ensures now < since ==> d == 0x1_0000_0000 - since + now
  {
    (now - since) % 0x1_0000_0000
  }

  /** The fields of a `Button` that `Read` and the event getters change. */
  datatype Btn = Btn(switchtime: uint32, stdcount: uint32,
                     push: bool, longPush: bool, press: bool, pressLong: bool)

  /** What every reachable button state satisfies. */
  predicate Steady(b: Btn)
  {
    b.stdcount <= STD_CNT && (b.longPush ==> b.push)
  }

  /** A button just initialised: no push in progress, nothing to report. */
  predicate Idle(b: Btn)
  {
    b.stdcount == 0 && !b.push && !b.longPush && !b.press && !b.pressLong
  }

  /** `Read()` with the pin reading `low` at time `now`. */
  function ReadF(b: Btn, low: bool, now: uint32, lpt: uint32): (r: Btn)
    ensures Steady(b) ==> Steady(r)
  {
    if low then
      var b1 :=
        if b.stdcount < STD_CNT as uint32 then b.(stdcount := b.stdcount + 1)
        else if !b.push then b.(push := true, switchtime := now)
        else b;
      if b1.push && !b1.longPush && Elapsed(now, b1.switchtime) > lpt
      then b1.(longPush := true, pressLong := true)
      else b1
    else if b.stdcount > 0 then
      b.(stdcount := b.stdcount - 1)
    else
      var short := Elapsed(now, b.switchtime) < lpt && b.push;
      b.(press := b.press || short, push := false, longPush := false)
  }

  /** The debounce counter never leaves 0 .. STD_CNT. */
  lemma CountBounded(b: Btn, low: bool, now: uint32, lpt: uint32)
    requires b.stdcount <= STD_CNT
    ensures ReadF(b, low, now, lpt).stdcount <= STD_CNT
    ensures low && b.stdcount < STD_CNT ==> ReadF(b, low, now, lpt).stdcount == b.stdcount + 1
    ensures !low && b.stdcount > 0 ==> ReadF(b, low, now, lpt).stdcount == b.stdcount - 1
  {
  }

  /**
   * A push starts exactly on a low sample once the counter has reached
   * STD_CNT, and its start time is recorded.
   */
  lemma PushStarts(b: Btn, low: bool, now: uint32, lpt: uint32)
    requires Steady(b)
    ensures var r := ReadF(b, low, now, lpt);
      (!b.push && r.push) <==> (low && b.stdcount == STD_CNT && !b.push)
    ensures var r := ReadF(b, low, now, lpt);
      !b.push && r.push ==> r.switchtime == now
  {
  }

  /**
   * The long push and its one-shot flag are raised only while the pin is
   * low and the push has lasted longer than `lpt`, and a push that has
   * lasted that long always raises them.
   */
  lemma LongPushStarts(b: Btn, low: bool, now: uint32, lpt: uint32)
    requires Steady(b)
    ensures var r := ReadF(b, low, now, lpt);
      !b.longPush && r.longPush ==>
        low && r.push && r.pressLong && Elapsed(now, r.switchtime) > lpt
    ensures var r := ReadF(b, low, now, lpt);
      low && b.push && !b.longPush && Elapsed(now, b.switchtime) > lpt ==>
        r.longPush && r.pressLong
    ensures var r := ReadF(b, low, now, lpt);
      !b.pressLong && r.pressLong ==> !b.longPush && r.longPush
  {
  }

  /**
   * A press is reported exactly when the counter is back at 0 on a high
   * sample, a push was active and it lasted less than `lpt`; the release
   * ends the push and the long push.
   */
  lemma ReleaseRule(b: Btn, low: bool, now: uint32, lpt: uint32)
    requires Steady(b)
    ensures var r := ReadF(b, low, now, lpt);
      (!b.press && r.press) <==>
        (!b.press && !low && b.stdcount == 0 && b.push && Elapsed(now, b.switchtime) < lpt)
    ensures var r := ReadF(b, low, now, lpt);
      (b.push && !r.push) <==> (b.push && !low && b.stdcount == 0)
    ensures var r := ReadF(b, low, now, lpt);
      !r.push ==> !r.longPush
    ensures b.press ==> ReadF(b, low, now, lpt).press
    ensures b.pressLong ==> ReadF(b, low, now, lpt).pressLong
  {
  }

  /**
   * A push released after exactly `lpt` milliseconds is neither a press
   * nor a long push: the press test needs less than `lpt` and the long
   * push test more.
   */
  lemma ExactHoldSilent(b: Btn, low: bool, now: uint32, lpt: uint32)
    requires Steady(b) && b.push && !b.longPush && !b.press && !b.pressLong
    requires Elapsed(now, b.switchtime) == lpt
    ensures var r := ReadF(b, low, now, lpt);
      !r.press && !r.longPush && !r.pressLong
  {
  }

  /** One sample of the pin. */
  datatype Sample = Sample(low: bool, now: uint32)

  /** `Read` over consecutive samples. */
  function Run(b: Btn, ss: seq<Sample>, lpt: uint32): Btn
    decreases |ss|
  {
    if ss == [] then b else Run(ReadF(b, ss[0].low, ss[0].now, lpt), ss[1..], lpt)
  }

  /**
   * From an idle button, four low samples start a push at the fourth
   * one and four high samples end it; the press is reported exactly when
   * the fourth high sample comes less than `lpt` after the push started,
   * and no long push is reported when `lpt` is positive.
   */
  lemma ShortPress(b: Btn, t: seq<uint32>, u: seq<uint32>, lpt: uint32)
    requires Idle(b) && |t| == 4 && |u| == 4 && lpt > 0
    ensures var ss := [Sample(true, t[0]), Sample(true, t[1]), Sample(true, t[2]), Sample(true, t[3]),
                       Sample(false, u[0]), Sample(false, u[1]), Sample(false, u[2]), Sample(false, u[3])];
      var r := Run(b, ss, lpt);
      && (r.press <==> Elapsed(u[3], t[3]) < lpt)
      && !r.push && !r.pressLong && r.stdcount == 0
  {
    var ss := [Sample(true, t[0]), Sample(true, t[1]), Sample(true, t[2]), Sample(true, t[3]),
               Sample(false, u[0]), Sample(false, u[1]), Sample(false, u[2]), Sample(false, u[3])];
    var b1 := ReadF(b, true, t[0], lpt);
    var b2 := ReadF(b1, true, t[1], lpt);
    var b3 := ReadF(b2, true, t[2], lpt);
    var b4 := ReadF(b3, true, t[3], lpt);
    assert b3.stdcount == 3 && !b3.push;
    assert b4.push && b4.switchtime == t[3] && !b4.longPush;
    var b5 := ReadF(b4, false, u[0], lpt);
    var b6 := ReadF(b5, false, u[1], lpt);
    var b7 := ReadF(b6, false, u[2], lpt);
    var b8 := ReadF(b7, false, u[3], lpt);
    assert b7.stdcount == 0 && b7.push && b7.switchtime == t[3] && !b7.press;
    assert Run(b, ss, lpt) == Run(b1, ss[1..], lpt);
    assert Run(b1, ss[1..], lpt) == Run(b2, ss[2..], lpt);
    assert Run(b2, ss[2..], lpt) == Run(b3, ss[3..], lpt);
    assert Run(b3, ss[3..], lpt) == Run(b4, ss[4..], lpt);
    assert Run(b4, ss[4..], lpt) == Run(b5, ss[5..], lpt);
    assert Run(b5, ss[5..], lpt) == Run(b6, ss[6..], lpt);
    assert Run(b6, ss[6..], lpt) == Run(b7, ss[7..], lpt);
    assert Run(b7, ss[7..], lpt) == Run(b8, ss[8..], lpt);
    assert ss[8..] == [];
  }

  /** One button of main.cpp. */
  class Button {
    var switchtime: uint32
    var stdcount: uint32
    const longPushTime: uint32
    var push: bool
    var longPush: bool
    var press: bool
    var pressLong: bool

    ghost function Snap(): Btn
      reads this
    {
      Btn(switchtime, stdcount, push, longPush, press, pressLong)
    }

    ghost predicate Valid()
      reads this
    {
      Steady(Snap())
    }

    /** A global `Button`: zeroed storage, and the long-push time given. */
    constructor (lpt: uint32)
      ensures Valid() && Snap() == Btn(0, 0, false, false, false, false)
      ensures longPushTime == lpt
    {
      switchtime, stdcount := 0, 0;
      longPushTime := lpt;
      push, longPush, press, pressLong := false, false, false, false;
    }

    /** `Init()`: every flag and the counter cleared; the pin set-up is left out. */
    method Init()
      modifies this
      ensures Valid() && Idle(Snap()) && switchtime == old(switchtime)
    {
      push := false;
      press := false;
      pressLong := false;
      longPush := false;
      stdcount := 0;
    }

    /** `Read()` with the pin reading `low` at time `now`. */
    method Read(low: bool, now: uint32)
      requires Valid()
      modifies this
      ensures Valid()
      ensures Snap() == ReadF(old(Snap()), low, now, longPushTime)
    {
      if low {
        if stdcount < STD_CNT as uint32 {
          stdcount := stdcount + 1;
        } else if !push {
          push := true;
          switchtime := now;
        }
        if push && !longPush {
          if Elapsed(now, switchtime) > longPushTime {
            longPush := true;
            pressLong := true;
          }
        }
      } else {
        if stdcount > 0 {
          stdcount := stdcount - 1;
        } else {
          if Elapsed(now, switchtime) < longPushTime && push {
            press := true;
          }
          push := false;
          longPush := false;
        }
      }
    }

    /** `IsOn()`: a debounced push is in progress. */
    function IsOn(): (on: bool)
      reads this
      ensures on == Snap().push
    {
      push
    }

    /** `IsLongOn()`: the push in progress is a long push. */
    function IsLongOn(): (on: bool)
      reads this
      ensures on == Snap().longPush
    {
      longPush
    }

    /** `IsOnEvent()`: reports a pending press once. */
    method IsOnEvent() returns (e: bool)
      requires Valid()
      modifies this
      ensures Valid()
      ensures e == old(press) && Snap() == old(Snap()).(press := false)
    {
      e := press;
      press := false;
    }

    /** `IsLongOnEvent()`: reports a pending long push once. */
    method IsLongOnEvent() returns (e: bool)
      requires Valid()
      modifies this
      ensures Valid()
      ensures e == old(pressLong) && Snap() == old(Snap()).(pressLong := false)
    {
      e := pressLong;
      pressLong := false;
    }
  }
}
