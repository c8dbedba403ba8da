/**
 * `chart_reg` of parameters_types.h: a ring buffer of int16 samples with a
 * write index (`headIdx`), a read index (`tailIdx`) and a sample count.
 * The ghost `history` lists every sample written since the last `SetSize`,
 * oldest first, and is what the contracts are stated against.
 */
module Chart {
  import opened Ints
  import opened ParamTypes

  /** The buffer slot `k` places before the write index: the walk of `GetJsonVal`. */
  function Slot(head: nat, k: nat, m: nat): (s: nat)
    requires head < m && k < m
    ensures s < m
  {
    if k < head then head - 1 - k else head + m - 1 - k
  }

  /** The write and read indices after a `Set`. */
  datatype Indices = Indices(head: nat, tail: nat)

  /** The index update of `chart_reg::Set` as written. */
  function StepAsWritten(head: nat, tail: nat, m: nat): (r: Indices)
    requires m > 0
  {
    var h := head + 1;
    var (h1, t1) := if h >= m then (0, if tail == 0 then tail + 1 else tail) else (h, tail);
    var t2 := if t1 == h1 then (if t1 == m - 1 then 0 else t1 + 1) else t1;
    Indices(h1, t2)
  }

  /** With one slot the first `Set` moves the read index past the buffer. */
  lemma SingleSlotOverrun()
    ensures StepAsWritten(0, 0, 1) == Indices(0, 1)
    ensures StepAsWritten(0, 1, 1).tail >= 1
  {
  }

  /** The index after `i` in a buffer of `m` slots. */
  function Next(i: nat, m: nat): (r: nat)
    requires i < m
    ensures r < m
  {
    if i + 1 < m then i + 1 else 0
  }

  /** The index update with the read index wrapped to the buffer size. */
  function Step(head: nat, tail: nat, m: nat): (r: Indices)
    requires head < m && tail < m
    ensures r.head == Next(head, m) && r.tail < m
  {
    var h := head + 1;
    var (h1, t1) := if h >= m then (0, if tail == 0 then Next(tail, m) else tail) else (h, tail);
    var t2 := if t1 == h1 then (if t1 == m - 1 then 0 else t1 + 1) else t1;
    Indices(h1, t2)
  }

  /** For two slots or more the wrapped update is the update as written. */
  lemma StepAgrees(head: nat, tail: nat, m: nat)
    requires 2 <= m && head < m && tail < m
    ensures Step(head, tail, m) == StepAsWritten(head, tail, m)
  {
  }

  /**
   * The read index stays at 0 until the buffer has been filled, and from
   * then on sits one past the write index.
   */
  predicate IndicesFit(head: nat, tail: nat, count: nat, m: nat)
  {
    && head < m && tail < m
    && (count < m ==> head == count && tail == 0)
    && (count >= m ==> tail == Next(head, m))
  }

  lemma StepKeepsIndices(head: nat, tail: nat, count: nat, m: nat)
    requires IndicesFit(head, tail, count, m)
    ensures IndicesFit(Step(head, tail, m).head, Step(head, tail, m).tail, count + 1, m)
  {
  }

  /** Walking back from the advanced write index visits the new slot, then the old walk. */
  lemma SlotAfterStep(head: nat, k: nat, m: nat)
    requires head < m && k < m
    ensures k == 0 ==> Slot(Next(head, m), k, m) == head
    ensures k > 0 ==> Slot(Next(head, m), k, m) == Slot(head, k - 1, m)
    ensures k < m - 1 ==> Slot(head, k, m) != head
  {
  }

  /** The `n` most recent entries of `h`, newest first. */
  function Recent(h: seq<int16>, n: nat): (r: seq<int16>)
    requires n <= |h|
    ensures |r| == n && forall k :: 0 <= k < n ==> r[k] == h[|h| - 1 - k]
  {
    seq(n, k requires 0 <= k < n => h[|h| - 1 - k])
  }

  class ChartReg {
    const d: ParDef
    var buf: array<int16>
    var head: nat
    var tail: nat
    var count: nat
    var newSamples: nat
    ghost var history: seq<int16>

    ghost predicate Valid()
      reads this, buf
    {
      && count == Min(|history|, buf.Length)
      && (buf.Length > 0 ==>
            && IndicesFit(head, tail, |history|, buf.Length)
            && forall k :: 0 <= k < count ==> buf[Slot(head, k, buf.Length)] == history[|history| - 1 - k])
    }

    /** A chart starts with no buffer: it must be sized before samples are written. */
    constructor (def: ParDef)
      ensures Valid() && d == def && buf.Length == 0 && history == []
    {
      d := def;
      buf := new int16[0];
      head, tail, count, newSamples := 0, 0, 0, 0;
      history := [];
    }

    /**
     * `SetSize(sz)`: a fresh buffer of `sz` slots, all holding the default.
     * The count of new samples is left as it was, even above `sz`.
     */
    method SetSize(sz: uint16)
      modifies this
      ensures Valid() && fresh(buf) && buf.Length == sz && history == []
      ensures forall k :: 0 <= k < sz ==> buf[k] == ToInt16(d.def)
      ensures newSamples == old(newSamples)
    {
      buf := new int16[sz];
      head, tail, count := 0, 0, 0;
      history := [];
      ResetVal();
    }

    /** `resetval()`: every slot takes the default. */
    method ResetVal()
      requires Valid() && history == []
      modifies buf
      ensures Valid() && forall k :: 0 <= k < buf.Length ==> buf[k] == ToInt16(d.def)
    {
      var i := 0;
      while i < buf.Length
        invariant 0 <= i <= buf.Length
        invariant forall k :: 0 <= k < i ==> buf[k] == ToInt16(d.def)
      {
        buf[i] := ToInt16(d.def);
        i := i + 1;
      }
    }

    /**
     * `Set(v)`: the sample, clamped to int16, goes to the write slot, the
     * indices advance and the count grows up to the buffer size.
     */
    method Set(v: int32) returns (changed: bool)
      requires Valid() && buf.Length > 0
      modifies this, buf
      ensures Valid() && buf == old(buf) && changed
      ensures history == old(history) + [Clamp16(v)]
      ensures count == Min(old(count) + 1, buf.Length)
      ensures newSamples == old(newSamples)
    {
      var m := buf.Length;
      buf[head] := Clamp16(v);
      var next := Step(head, tail, m);
      StepKeepsIndices(head, tail, |history|, m);
      ghost var oldHead := head;
      ghost var oldHistory := history;
      ghost var oldCount := count;
      head, tail := next.head, next.tail;
      if count < m {
        count := count + 1;
      }
      history := history + [Clamp16(v)];
      forall k | 0 <= k < count
        ensures buf[Slot(head, k, m)] == history[|history| - 1 - k]
      {
        SlotAfterStep(oldHead, k, m);
        if k > 0 {
          SlotAfterStep(oldHead, k - 1, m);
          assert k - 1 < oldCount;
          assert history[|history| - 1 - k] == oldHistory[|oldHistory| - 1 - (k - 1)];
        }
      }
      changed := true;
    }

    /**
     * `SetLimit(v)`: `Set` of `v` pulled into the register limits, counting
     * new samples up to the buffer size; a count that an earlier, larger
     * buffer left above the size stays where it is.
     */
    method SetLimit(v: int32) returns (changed: bool)
      requires Valid() && buf.Length > 0
      modifies this, buf
      ensures Valid() && buf == old(buf) && changed
      ensures history == old(history) + [Clamp16(LimitValue(d, v))]
      ensures newSamples == if old(newSamples) < buf.Length then old(newSamples) + 1 else old(newSamples)
    {
      var w := if v > d.max then d.max else if v < d.min then d.min else v;
      changed := Set(w);
      if changed && newSamples < buf.Length {
        newSamples := newSamples + 1;
      }
    }

    /**
     * `Get()`: the slot under the read index, which is the first sample
     * written until the buffer has been filled, and from then on the
     * sample written `size - 1` samples ago.
     */
    method Get() returns (v: int32)
      requires Valid() && buf.Length > 0
      ensures v == buf[tail]
      ensures 0 < |history| < buf.Length ==> v == history[0]
      ensures |history| >= buf.Length >= 2 ==> v == history[|history| - buf.Length + 1]
      ensures |history| >= buf.Length == 1 ==> v == history[|history| - 1]
    {
      v := buf[tail];
      var m := buf.Length;
      if 0 < |history| < m {
        assert Slot(head, |history| - 1, m) == 0;
      } else if |history| >= m {
        if m > 1 {
          assert Slot(head, m - 2, m) == tail;
        } else {
          assert Slot(head, 0, m) == tail;
        }
      }
    }

    /** `readregval`: the read-index sample as one unit. */
    method ReadRegVal() returns (out: int16, n: uint8)
      requires Valid() && buf.Length > 0
      ensures out == buf[tail] && n == 1
    {
      var v := Get();
      out := ToInt16(v);
      n := 1;
    }

    /**
     * `GetJsonVal`: the stored samples newest first, walking back from the
     * write index; a single sample is emitted twice.
     */
    method GetJsonVal() returns (out: seq<int16>)
      requires Valid()
      ensures count != 1 ==> out == Recent(history, count)
      ensures count == 1 ==> out == Recent(history, 1) + Recent(history, 1)
    {
      out := [];
      var index := head;
      var i := 0;
      while i < count
        invariant 0 <= i <= count
        invariant buf.Length > 0 ==> index < buf.Length
        invariant i > 0 ==> buf.Length > 0 && index == Slot(head, i - 1, buf.Length)
        invariant i == 0 ==> index == head
        invariant count != 1 ==> out == Recent(history, i)
        invariant count == 1 ==> out == (if i == 0 then [] else Recent(history, 1) + Recent(history, 1))
      {
        if index == 0 {
          index := buf.Length - 1;
        } else {
          index := index - 1;
        }
        assert index == Slot(head, i, buf.Length);
        out := out + [buf[index]];
        if count == 1 {
          out := out + [buf[index]];
        }
        i := i + 1;
      }
    }
  }
}
