/**
 * The debounce counter of debounce.h: a saturating up/down counter whose
 * `matured` output turns on when the count reaches `max` and turns off
 * only when it has decayed to 0, with a one-shot `matured_event` edge.
 */
module Debounce {
  import opened Ints

  const CNT_MAX_DEFAULT: uint16 := 100

  /** The mutable part of a counter; `inc` and `dec` are fixed at construction. */
  datatype DebState = DebState(max: uint16, cnt: int16, matured: bool, maturedEvent: bool)

  /** A counter as the constructor leaves it. */
  function Initial(max: uint16): DebState
  {
    DebState(max, 0, false, false)
  }

  /** The count lies in [0, max] and one more increment cannot overflow int16. */
  predicate Bounded(inc: uint8, s: DebState)
  {
    0 <= s.cnt <= s.max && s.max + inc <= INT16_MAX
  }

  /** One `Inp(inp)` of a counter with step sizes `inc` and `dec`. */
  function Step(inc: uint8, dec: uint8, s: DebState, inp: bool): (r: DebState)
    ensures r.max == s.max
    // the edge flag is raised only when `matured` goes from false to true
    ensures r.maturedEvent <==> s.maturedEvent || (!s.matured && r.matured)
    // a true input never clears `matured`, a false one never sets it
    ensures inp && s.matured ==> r.matured
    ensures !inp && !s.matured ==> !r.matured
    ensures Bounded(inc, s) ==> Bounded(inc, r)
    ensures Bounded(inc, s) && inp ==> (r.matured <==> s.matured || s.cnt + inc >= s.max)
    ensures Bounded(inc, s) && !inp ==> (r.matured <==> s.matured && s.cnt - dec > 0)
  {
    if inp then
      var c := ToInt16(s.cnt + inc);
      if c >= s.max then DebState(s.max, ToInt16(s.max), true, s.maturedEvent || !s.matured)
      else s.(cnt := c)
    else
      var c := ToInt16(s.cnt - dec);
      if c <= 0 then s.(cnt := 0, matured := false)
      else s.(cnt := c)
  }

  /** `SetMax(maxv)`: a new ceiling; the count is pulled down to it if needed. */
  function SetMaxStep(s: DebState, maxv: uint16): (r: DebState)
    ensures r.max == maxv && r.matured == s.matured && r.maturedEvent == s.maturedEvent
    ensures 0 <= s.cnt <= s.max ==> 0 <= r.cnt <= r.max && r.cnt == Min(s.cnt, maxv)
  {
    if s.max != maxv then
      if maxv <= s.cnt then s.(max := maxv, cnt := ToInt16(maxv)) else s.(max := maxv)
    else s
  }

  /** The state after `n` consecutive `Inp(inp)` calls. */
  function Feed(inc: uint8, dec: uint8, s: DebState, inp: bool, n: nat): DebState
  {
    if n == 0 then s else Step(inc, dec, Feed(inc, dec, s, inp, n - 1), inp)
  }

  function CeilDiv(a: nat, b: nat): nat
    requires b > 0
  {
    (a + b - 1) / b
  }

  lemma CeilDivFacts(a: nat, b: nat)
    requires a > 0 && b > 0
    ensures CeilDiv(a, b) >= 1
    ensures (CeilDiv(a, b) - 1) * b < a <= CeilDiv(a, b) * b
  {
    var k := CeilDiv(a, b);
    var r := (a + b - 1) % b;
    assert a + b - 1 == k * b + r && 0 <= r < b;
    assert (k - 1) * b == k * b - b;
  }

  /**
   * From an empty, unmatured counter, consecutive true inputs raise the
   * count by `inc` each and leave `matured` off while the count is below max.
   */
  lemma {:induction false} RisingBelowMax(inc: uint8, dec: uint8, s: DebState, n: nat)
    requires Bounded(inc, s) && s.cnt == 0 && !s.matured
    requires n * inc < s.max
    ensures Feed(inc, dec, s, true, n) == s.(cnt := n * inc)
  {
    if n > 0 {
      assert (n - 1) * inc == n * inc - inc;
      RisingBelowMax(inc, dec, s, n - 1);
    }
  }

  /**
   * From count 0, `matured` turns on exactly at the ceil(max/inc)-th
   * consecutive true input, together with the one-shot edge.
   */
  lemma MaturesAfter(inc: uint8, dec: uint8, s: DebState)
    requires Bounded(inc, s) && s.cnt == 0 && !s.matured && !s.maturedEvent
    requires inc > 0 && s.max > 0
    ensures forall n: nat :: n < CeilDiv(s.max, inc) ==> !Feed(inc, dec, s, true, n).matured
    ensures Feed(inc, dec, s, true, CeilDiv(s.max, inc)) == DebState(s.max, s.max, true, true)
  {
    var k := CeilDiv(s.max, inc);
    CeilDivFacts(s.max, inc);
    var k1 := k - 1;
    forall n: nat | n < k ensures !Feed(inc, dec, s, true, n).matured {
      MulMono(n, k1, inc);
      RisingBelowMax(inc, dec, s, n);
    }
    var c := k1 * inc;
    assert c + inc == k * inc;
    MaturesAt(inc, dec, s, k1, k, c);
  }

  /** The `k`-th true input, the first to take the count from `(k - 1) * inc` to max, matures the counter. */
  lemma MaturesAt(inc: uint8, dec: uint8, s: DebState, k1: nat, k: nat, c: nat)
    requires Bounded(inc, s) && s.cnt == 0 && !s.matured && !s.maturedEvent
    requires k == k1 + 1 && c == k1 * inc && c < s.max <= c + inc
    ensures Feed(inc, dec, s, true, k) == DebState(s.max, s.max, true, true)
  {
    RisingBelowMax(inc, dec, s, k1);
    assert Feed(inc, dec, s, true, k) == Step(inc, dec, Feed(inc, dec, s, true, k1), true);
  }

  /**
   * A matured counter at count `c` stays matured under false inputs while
   * the count is positive, losing `dec` per input.
   */
  lemma {:induction false} DecayAbove(inc: uint8, dec: uint8, s: DebState, n: nat)
    requires Bounded(inc, s) && s.matured
    requires n * dec < s.cnt
    ensures Feed(inc, dec, s, false, n) == s.(cnt := s.cnt - n * dec)
  {
    if n > 0 {
      assert (n - 1) * dec == n * dec - dec;
      DecayAbove(inc, dec, s, n - 1);
    }
  }

  /**
   * Hysteresis: once matured, `matured` stays on for the first
   * ceil(cnt/dec) - 1 false inputs and turns off at the ceil(cnt/dec)-th.
   */
  lemma DropsAfter(inc: uint8, dec: uint8, s: DebState)
    requires Bounded(inc, s) && s.matured && s.cnt > 0 && dec > 0
    ensures forall n: nat :: n < CeilDiv(s.cnt, dec) ==> Feed(inc, dec, s, false, n).matured
    ensures Feed(inc, dec, s, false, CeilDiv(s.cnt, dec)) == s.(cnt := 0, matured := false)
  {
    var k := CeilDiv(s.cnt, dec);
    CeilDivFacts(s.cnt, dec);
    forall n: nat | n < k ensures Feed(inc, dec, s, false, n).matured {
      MulMono(n, k - 1, dec);
      DecayAbove(inc, dec, s, n);
    }
    DecayAbove(inc, dec, s, k - 1);
    var c := s.cnt - (k - 1) * dec;
    assert 0 < c <= dec;
    assert Feed(inc, dec, s, false, k) == Step(inc, dec, s.(cnt := c), false);
  }

  /** The `Debounce` object: its fields are updated in place by its methods. */
  class Debounce {
    var max: uint16
    const inc: uint8
    const dec: uint8
    var cnt: int16
    var matured: bool
    var maturedEvent: bool

    function State(): DebState
      reads this
    {
      DebState(max, cnt, matured, maturedEvent)
    }

    constructor (incr: uint8, decr: uint8, maxv: uint16)
      ensures inc == incr && dec == decr && State() == Initial(maxv)
    {
      inc, dec := incr, decr;
      cnt, max := 0, maxv;
      matured, maturedEvent := false, false;
    }

    method Inp(input: bool) returns (m: bool)
      modifies this
      ensures State() == Step(inc, dec, old(State()), input)
      ensures m == matured
    {
      if input {
        cnt := ToInt16(cnt + inc);
        if cnt >= max {
          cnt := ToInt16(max);
          if !matured {
            maturedEvent := true;
          }
          matured := true;
        }
      } else {
        cnt := ToInt16(cnt - dec);
        if cnt <= 0 {
          cnt := 0;
          matured := false;
        }
      }
      m := matured;
    }

    /** Reads the output without changing anything (no modifies clause). */
    method Out() returns (m: bool)
      ensures m == matured
    {
      m := matured;
    }

    method SetMax(maxv: uint16)
      modifies this
      ensures State() == SetMaxStep(old(State()), maxv)
    {
      if max != maxv {
        max := maxv;
        if max <= cnt {
          cnt := ToInt16(max);
        }
      }
    }

    method Reset()
      modifies this
      ensures State() == Initial(old(max))
    {
      matured := false;
      maturedEvent := false;
      cnt := 0;
    }

    /** One input, returning the pending edge and clearing it. */
    method InpEvent(input: bool) returns (ev: bool)
      modifies this
      ensures ev == Step(inc, dec, old(State()), input).maturedEvent
      ensures State() == Step(inc, dec, old(State()), input).(maturedEvent := false)
    {
      var _ := Inp(input);
      ev := maturedEvent;
      maturedEvent := false;
    }

    /** Percentage of the way to `max`. */
    method GetMaturity() returns (p: uint16)
      requires max != 0
      ensures 0 <= cnt <= max ==> p <= 100 && p == cnt * 100 / max
    {
      var x := cnt as int * 100;
      if 0 <= cnt <= max {
        DivMono(x, 100 * max, max);
        DivOfMultiple(100, max);
        assert 0 <= x / max <= 100;
        assert CDiv(x, max) == x / max;
      }
      p := ToUint16(CDiv(x, max));
    }

    /** Steps left before the ceiling. */
    method GetCnt() returns (r: uint16)
      ensures 0 <= cnt <= max ==> r == max - cnt
    {
      r := ToUint16(max - cnt);
    }
  }
}
