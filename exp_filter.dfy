/**
 * The integer filter of exp_filter.h. Despite its name, both branches of
 * `Input` store `curr_val * coef`, so the filter returns its input clamped
 * to the int16 range; `INT32_MAX` in `val` marks "no sample yet".
 */
module ExpFilter {
  import opened Ints

  const DEFAULT_COEF: int32 := 16

  /** Saturation to the int16 range. */
  function Clamp16(x: int): int16
  {
    if x > INT16_MAX then INT16_MAX else if x < INT16_MIN then INT16_MIN else x
  }

  predicate ValidCoef(coef: int)
  {
    0 < coef <= 0x1_0000
  }

  /**
   * The accumulator after one `Input(curr)`: the product with wrap-around on
   * both branches, then clamped to [INT16_MIN*coef, INT16_MAX*coef].
   */
  function Accumulate(val: int32, coef: int32, curr: int32): (v: int32)
    requires ValidCoef(coef)
    ensures INT16_MIN * coef <= v <= INT16_MAX * coef
    ensures v != INT32_MAX
  {
    var prod := ToInt32(curr * coef);
    var raw := if val == INT32_MAX then prod else ToInt32(val + ToInt32(prod - val));
    if raw > INT16_MAX * coef then INT16_MAX * coef
    else if raw < INT16_MIN * coef then INT16_MIN * coef
    else raw
  }

  /** `(int16_t)(val / coef)`, the filter output for an accumulator value. */
  function Output(val: int32, coef: int32): int16
    requires ValidCoef(coef)
  {
    ToInt16(CDiv(val, coef))
  }

  /** Adding a difference and wrapping twice gives the target back. */
  lemma WrapAddDifference(val: int32, prod: int32)
    ensures ToInt32(val + ToInt32(prod - val)) == prod
  {
    var d := ToInt32(prod - val);
    var k := (prod - val - d) / 0x1_0000_0000;
    assert prod - val - d == k * 0x1_0000_0000;
    var s := val + d;
    assert s == prod - k * 0x1_0000_0000;
    var r := ToInt32(s);
    var j := (s - r) / 0x1_0000_0000;
    assert s - r == j * 0x1_0000_0000;
    assert prod - r == (j + k) * 0x1_0000_0000;
  }

  lemma OutputOfMultiple(c: int16, coef: int32)
    requires ValidCoef(coef)
    ensures INT16_MIN * coef <= c * coef <= INT16_MAX * coef
    ensures Output(c * coef, coef) == c
  {
    MulMono(INT16_MIN, c, coef);
    MulMono(c, INT16_MAX, coef);
    if c >= 0 {
      DivOfMultiple(c, coef);
    } else {
      var m: int := 0 - c as int;
      assert -(c * coef) == m * coef;
      DivOfMultiple(m, coef);
    }
  }

  /**
   * With no 32-bit overflow in `curr * coef`, `Input` returns its argument
   * clamped to int16, whatever the previous accumulator held: there is no
   * smoothing.
   */
  lemma InputIsClamp(val: int32, coef: int32, curr: int32)
    requires ValidCoef(coef) && INT32_MIN <= curr * coef <= INT32_MAX
    ensures Output(Accumulate(val, coef, curr), coef) == Clamp16(curr)
  {
    if val != INT32_MAX {
      WrapAddDifference(val, curr * coef);
    }
    if curr > INT16_MAX {
      MulMono(INT16_MAX, curr, coef);
      OutputOfMultiple(INT16_MAX as int16, coef);
    } else if curr < INT16_MIN {
      MulMono(curr, INT16_MIN, coef);
      OutputOfMultiple(INT16_MIN as int16, coef);
    } else {
      OutputOfMultiple(curr as int16, coef);
    }
  }

  class ExpFilter {
    var val: int32
    const coef: int32

    constructor (coeficient: int32)
      requires ValidCoef(coeficient)
      ensures coef == coeficient && val == INT32_MAX
    {
      coef := coeficient;
      val := INT32_MAX;
    }

    method Input(curr: int32) returns (r: int16)
      requires ValidCoef(coef)
      modifies this
      ensures val == Accumulate(old(val), coef, curr)
      ensures r == Output(val, coef)
      ensures INT32_MIN <= curr * coef <= INT32_MAX ==> r == Clamp16(curr)
    {
      var prod := ToInt32(curr * coef);
      if val == INT32_MAX {
        val := prod;
      } else {
        val := ToInt32(val + ToInt32(prod - val));
      }
      if val > INT16_MAX * coef {
        val := INT16_MAX * coef;
      } else if val < INT16_MIN * coef {
        val := INT16_MIN * coef;
      }
      r := ToInt16(CDiv(val, coef));
      if INT32_MIN <= curr * coef <= INT32_MAX {
        InputIsClamp(old(val), coef, curr);
      }
    }

    /** The last output again; nothing changes. */
    method Out() returns (r: int16)
      requires ValidCoef(coef)
      ensures r == Output(val, coef)
    {
      r := ToInt16(CDiv(val, coef));
    }

    /** Back to "no sample yet", so the next `Input` takes the first-sample branch. */
    method Reset()
      modifies this
      ensures val == INT32_MAX
    {
      val := INT32_MAX;
    }
  }
}
