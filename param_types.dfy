/**
 * Register descriptors and the per-class value semantics of
 * parameters_types.h: limits, access bits, footprint in 16-bit units,
 * what each `Set` stores and reports, what a JSON or text write accepts,
 * and the encodings of multi-unit registers (32-bit halves, two
 * characters per unit, MAC byte pairs, the error history).
 */
module ParamTypes {
  import opened Ints

  // ParDscr_t bits
  const PAR_R: bv16 := 0x01
  const PAR_W: bv16 := 0x02
  const PAR_NV: bv16 := 0x04
  const PAR_FUN: bv16 := 0x08
  const PAR_ACCESS: bv16 := 0x0F
  const PAR_PUBLIC: bv16 := 0x10
  const PAR_INSTALLER: bv16 := 0x20
  const PAR_ESPNOW: bv16 := 0x40
  const PAR_U16: bv16 := 0x100
  const PAR_S16: bv16 := 0x200
  const PAR_S32: bv16 := 0x400
  const PAR_STRING: bv16 := 0x500

  // attribute flags of parameter_values.h
  const FLAGS_NONE: uint8 := 0
  const BOOL_FLAG: uint8 := 0x01
  const COMM_PERIOD_FLAG: uint8 := 0x02
  const CHART_FLAG: uint8 := 0x04
  const FW_VERSION_FLAG: uint8 := 0x08
  const COMMAND_FLAG: uint8 := 0x10
  const STATE_FLAG: uint8 := 0x20

  const ERR_HISTORY_CNT: nat := 16
  const INVALID_REGADR: uint16 := 0xFFFF
  const NONDEF_REG_VAL: int16 := 0

  /** The register class a table entry instantiates. */
  datatype Kind =
    | U16        // uint16_reg and its _nv/_rtc variants
    | S16        // int16_reg and its _nv/_rtc variants
    | S32        // int32_reg and its _nv/_rtc variants
    | Text       // string_reg, string_reg_nv
    | Clock      // time_reg: a time_t and its "HH:MM" text
    | MacAddr    // mac_reg_nv
    | ErrLog     // log_reg
    | Command    // event_reg

  /** Where a value survives: nowhere, the NV store, or RTC memory across deep sleep. */
  datatype Storage = Ram | Nv | Rtc

  /** One `pardef_t` without its name, with the register class it is bound to. */
  datatype ParDef = ParDef(
    min: int32, max: int32, def: int32, dsc: bv16, adr: uint16, atr: uint8,
    kind: Kind, store: Storage)

  predicate IsNumeric(k: Kind)
  {
    k == U16 || k == S16 || k == S32 || k == Command
  }

  predicate IsUnsigned16(k: Kind)
  {
    k == U16 || k == Command
  }

  predicate CheckLimits(d: ParDef, v: int)
  {
    d.min <= v <= d.max
  }

  predicate IsWritable(d: ParDef)
  {
    d.dsc & PAR_W != 0
  }

  predicate IsReadable(d: ParDef)
  {
    d.dsc & PAR_R != 0
  }

  predicate HasFlag(d: ParDef, flag: uint8)
  {
    (d.atr as bv8) & (flag as bv8) != 0
  }

  /** Replaces the access-level bits of a descriptor. */
  function WithLevel(d: ParDef, lvl: bv16): ParDef
  {
    d.(dsc := (d.dsc & !(PAR_PUBLIC | PAR_INSTALLER | PAR_ESPNOW)) | (lvl & (PAR_PUBLIC | PAR_INSTALLER | PAR_ESPNOW)))
  }

  /** `iswritable`/`isreadable` look at the R/W bits only: the access level is ignored. */
  lemma AccessIgnoresLevel(d: ParDef, lvl: bv16)
    ensures IsWritable(WithLevel(d, lvl)) == IsWritable(d)
    ensures IsReadable(WithLevel(d, lvl)) == IsReadable(d)
  {
  }

  /** `getsize()`: how many consecutive 16-bit register addresses the entry occupies. */
  function Size(d: ParDef): (n: int)
    ensures d.kind == S32 ==> n == 2
    ensures d.kind == MacAddr ==> n == 3
    ensures d.kind == ErrLog ==> n == ERR_HISTORY_CNT
    ensures (d.kind == Text || d.kind == Clock) && d.max >= 0 ==> n == (d.max + 1) / 2
    ensures d.kind in {U16, S16, Command} ==> n == 1
  {
    match d.kind
    case S32 => 2
    case MacAddr => 3
    case ErrLog => ERR_HISTORY_CNT
    case Text => CDiv(d.max + 1, 2)
    case Clock => CDiv(d.max + 1, 2)
    case _ => 1
  }

  // ---------------------------------------------------------------------
  // numeric Set

  /** What a `Set` leaves in `value` and whether it reports a change. */
  datatype SetResult = SetResult(value: int, changed: bool)

  /** The value `uint16_reg::Set(v)` aims to store: saturated above, wrapped below. */
  function StoreU16(v: int32): (r: uint16)
    ensures v > UINT16_MAX ==> r == UINT16_MAX
    ensures 0 <= v <= UINT16_MAX ==> r == v
    ensures v < 0 ==> r == (v + 0x1_0000_0000) % 0x1_0000
  {
    if v > UINT16_MAX then UINT16_MAX else ToUint16(ToUint32(v))
  }

  /**
   * `uint16_reg::Set(v)`. The old value is compared through an int16 and
   * back, i.e. modulo 2^16.
   */
  function SetU16(cur: int, v: int32): (r: SetResult)
    ensures r.changed <==> cur % 0x1_0000 != StoreU16(v)
    ensures r.changed ==> r.value == StoreU16(v)
    ensures !r.changed ==> r.value == cur
    ensures 0 <= cur <= UINT16_MAX ==> r.value == StoreU16(v)
  {
    var tmp := StoreU16(v);
    if ToUint16(ToInt16(cur)) != tmp then SetResult(tmp, true) else SetResult(cur, false)
  }

  /** `int16_reg::Set(v)`: saturate to the int16 range, report a change of value. */
  function SetS16(cur: int, v: int32): (r: SetResult)
    ensures r.value == Clamp16(v)
    ensures r.changed <==> cur != Clamp16(v)
  {
    var tmp := if v > INT16_MAX then INT16_MAX else if v < INT16_MIN then INT16_MIN else v;
    if cur != tmp then SetResult(tmp, true) else SetResult(cur, false)
  }

  function Clamp16(v: int): int16
  {
    if v > INT16_MAX then INT16_MAX else if v < INT16_MIN then INT16_MIN else v
  }

  /** `int32_reg::Set(v)`: store as given, report a change of value. */
  function SetS32(cur: int, v: int32): (r: SetResult)
    ensures r.value == v && (r.changed <==> cur != v)
  {
    if cur != v then SetResult(v, true) else SetResult(cur, false)
  }

  /** The virtual `Set` of a numeric register class (`event_reg` stores like `uint16_reg`). */
  function SetNumeric(k: Kind, cur: int, v: int32): (r: SetResult)
    requires IsNumeric(k)
  {
    match k
    case S16 => SetS16(cur, v)
    case S32 => SetS32(cur, v)
    case _ => SetU16(cur, v)
  }

  /** `SetLimit(v)`: `Set` of `v` pulled into `[min, max]` first. */
  function LimitValue(d: ParDef, v: int32): (r: int32)
    ensures v > d.max ==> r == d.max
    ensures v < d.min && v <= d.max ==> r == d.min
    ensures CheckLimits(d, v) ==> r == v
    ensures d.min <= d.max ==> CheckLimits(d, r)
  {
    if v > d.max then d.max else if v < d.min then d.min else v
  }

  // ---------------------------------------------------------------------
  // writes by name: JSON values and text

  /** An ArduinoJson value, as far as the `SetJsonVal` tests can tell. */
  datatype Json = JBool(b: bool) | JInt(i: int32) | JText(s: seq<char>) | JOther

  predicate IsSpace(c: char)
  {
    c == ' ' || c == '\t' || c == '\n' || c == 11 as char || c == 12 as char || c == '\r'
  }

  predicate IsDigit(c: char)
  {
    '0' <= c <= '9'
  }

  /** The leading decimal digits of `s` as a number. */
  function DigitsValue(s: seq<char>, acc: nat): (v: nat)
    ensures v >= acc
    decreases |s|
  {
    if |s| == 0 || !IsDigit(s[0]) then acc
    else DigitsValue(s[1..], acc * 10 + (s[0] as int - '0' as int))
  }

  function SkipSpace(s: seq<char>): (t: seq<char>)
    ensures |t| <= |s| && (|t| > 0 ==> !IsSpace(t[0]))
  {
    if |s| > 0 && IsSpace(s[0]) then SkipSpace(s[1..]) else s
  }

  /**
   * `String::toInt()`, i.e. `atol`: leading white space, an optional
   * sign, then decimal digits; anything else ends the number, and a value
   * beyond the 32-bit range saturates as `strtol` does.
   */
  function TextToInt(s: seq<char>): (v: int32)
    ensures |s| == 0 ==> v == 0
  {
    var t := SkipSpace(s);
    var neg := |t| > 0 && t[0] == '-';
    var u := if |t| > 0 && (t[0] == '-' || t[0] == '+') then t[1..] else t;
    var m := DigitsValue(u, 0);
    var x: int := if neg then 0 - m as int else m;
    if x > INT32_MAX then INT32_MAX else if x < INT32_MIN then INT32_MIN else x
  }

  /** The decimal text of a natural number. */
  function NatText(n: nat): (s: seq<char>)
    ensures |s| > 0 && forall k :: 0 <= k < |s| ==> IsDigit(s[k])
  {
    if n < 10 then [('0' as int + n) as char] else NatText(n / 10) + [('0' as int + n % 10) as char]
  }

  lemma {:induction false} DigitsValueAppend(s: seq<char>, acc: nat, c: char)
    requires forall k :: 0 <= k < |s| ==> IsDigit(s[k])
    requires IsDigit(c)
    ensures DigitsValue(s + [c], acc) == DigitsValue(s, acc) * 10 + (c as int - '0' as int)
    decreases |s|
  {
    if |s| == 0 {
      assert DigitsValue([c], acc) == DigitsValue([], acc * 10 + (c as int - '0' as int));
    } else {
      assert (s + [c])[1..] == s[1..] + [c];
      DigitsValueAppend(s[1..], acc * 10 + (s[0] as int - '0' as int), c);
    }
  }

  lemma {:induction false} NatTextValue(n: nat)
    ensures DigitsValue(NatText(n), 0) == n
  {
    if n >= 10 {
      NatTextValue(n / 10);
      DigitsValueAppend(NatText(n / 10), 0, ('0' as int + n % 10) as char);
    }
  }

  /** A number written as decimal text reads back through `toInt()`. */
  lemma TextToIntOfDecimal(n: nat)
    requires n <= INT32_MAX
    ensures TextToInt(NatText(n)) == n
  {
    NatTextValue(n);
  }

  /**
   * What `int16_reg::SetJsonVal` (and so every 16-bit register class)
   * passes on to `Set`, or `None` when it rejects the value.
   */
  function Json16Value(d: ParDef, j: Json): (r: Option<int32>)
    // a BOOL_FLAG register takes JSON booleans only, as 0/1 and with no limit check
    ensures HasFlag(d, BOOL_FLAG) ==> (r.Some? <==> j.JBool?)
    ensures HasFlag(d, BOOL_FLAG) && j.JBool? ==> r == Some(if j.b then 1 else 0)
    // any other register takes a number or numeric text within its limits
    ensures !HasFlag(d, BOOL_FLAG) ==> (r.Some? <==> JsonNumber(j).Some? && CheckLimits(d, JsonNumber(j).value))
    ensures !HasFlag(d, BOOL_FLAG) && r.Some? ==> r == JsonNumber(j)
  {
    if HasFlag(d, BOOL_FLAG) then
      if j.JBool? then Some(if j.b then 1 else 0) else None
    else
      var n := JsonNumber(j);
      if n.Some? && CheckLimits(d, n.value) then n else None
  }

  /** `is<int>()` then `as<int>()`, else `is<String>()` then `toInt()`. */
  function JsonNumber(j: Json): Option<int32>
  {
    match j
    case JInt(i) => Some(i)
    case JText(s) => Some(TextToInt(s))
    case _ => None
  }

  /** `int32_reg::SetJsonVal`: no boolean branch, otherwise as for 16-bit registers. */
  function Json32Value(d: ParDef, j: Json): (r: Option<int32>)
    ensures r.Some? <==> JsonNumber(j).Some? && CheckLimits(d, JsonNumber(j).value)
    ensures r.Some? ==> r == JsonNumber(j) && CheckLimits(d, r.value)
  {
    var n := JsonNumber(j);
    if n.Some? && CheckLimits(d, n.value) then n else None
  }

  /** `string_reg::SetTxtVal`: text is taken only when shorter than `def.max`. */
  function TxtValue(d: ParDef, s: seq<uint8>): (r: Option<seq<uint8>>)
    ensures r.Some? <==> |s| < d.max
    ensures r.Some? ==> r.value == s
  {
    if |s| < d.max then Some(s) else None
  }

  /** `string_reg::SetJsonVal`: a JSON string shorter than `def.max`. */
  function JsonTextValue(d: ParDef, j: Json): (r: Option<seq<char>>)
    ensures r.Some? <==> j.JText? && |j.s| < d.max
    ensures r.Some? ==> r.value == j.s
  {
    if j.JText? && |j.s| < d.max then Some(j.s) else None
  }

  // ---------------------------------------------------------------------
  // error history

  /**
   * `log_reg::Set(err)`: a nonzero code goes to the front, older codes move
   * back one place and the oldest is dropped; code 0 changes nothing.
   */
  function LogPush(h: seq<int>, code: int): (r: seq<int>)
    requires |h| == ERR_HISTORY_CNT
    ensures |r| == ERR_HISTORY_CNT
    ensures code == 0 ==> r == h
    ensures code != 0 ==> r[0] == code && forall k :: 1 <= k < ERR_HISTORY_CNT ==> r[k] == h[k - 1]
  {
    if code != 0 then [code] + h[..ERR_HISTORY_CNT - 1] else h
  }

  /** Pushing codes one after another lists them most recent first. */
  lemma LogPushRecentFirst(h: seq<int>, a: int, b: int)
    requires |h| == ERR_HISTORY_CNT && a != 0 && b != 0
    ensures LogPush(LogPush(h, a), b)[..2] == [b, a]
    ensures LogPush(LogPush(h, a), b)[2..] == h[..ERR_HISTORY_CNT - 2]
  {
  }

  // ---------------------------------------------------------------------
  // 32-bit registers: two units, high half first

  /** Unit 0 of an `int32_reg`: `(int16_t)((uint32_t)v >> 16)`. */
  function HighHalf(v: int32): int16
  {
    ToInt16(ToUint32(v) / 0x1_0000)
  }

  /** Unit 1 of an `int32_reg`: `(int16_t)((uint32_t)v & 0xffff)`. */
  function LowHalf(v: int32): int16
  {
    ToInt16(ToUint32(v) % 0x1_0000)
  }

  /** The value a write of unit 1 assembles from the latched high unit. */
  function Assemble(high: uint16, low: int16): int32
  {
    ToInt32(high * 0x1_0000 + ToUint16(low))
  }

  lemma Uint16OfInt16(x: int)
    requires 0 <= x <= UINT16_MAX
    ensures ToUint16(ToInt16(x)) == x
  {
  }

  /** Writing back the two halves just read reproduces the value. */
  lemma HalvesRoundTrip(v: int32)
    ensures Assemble(ToUint16(HighHalf(v)), LowHalf(v)) == v
  {
    var u := ToUint32(v);
    var hi, lo := u / 0x1_0000, u % 0x1_0000;
    Uint16OfInt16(hi);
    Uint16OfInt16(lo);
    assert ToUint16(HighHalf(v)) == hi;
    assert ToUint16(LowHalf(v)) == lo;
    assert hi * 0x1_0000 + lo == u;
    Int32OfUint32(v);
  }

  // ---------------------------------------------------------------------
  // MAC registers: byte pairs, low byte first

  /** Unit `idx` of a `mac_reg`: `arr[2 idx + 1] << 8 | arr[2 idx]` as int16. */
  function MacUnit(b: seq<uint8>, idx: nat): int16
    requires 2 * idx + 1 < |b|
  {
    ToInt16(b[2 * idx + 1] as int * 0x100 + b[2 * idx] as int)
  }

  /** The two bytes of a MAC unit come back from its low and high byte. */
  lemma MacUnitBytes(b: seq<uint8>, idx: nat)
    requires 2 * idx + 1 < |b|
    ensures ToUint16(MacUnit(b, idx)) % 0x100 == b[2 * idx]
    ensures ToUint16(MacUnit(b, idx)) / 0x100 == b[2 * idx + 1]
  {
    Uint16OfInt16(b[2 * idx + 1] as int * 0x100 + b[2 * idx] as int);
  }

  // ---------------------------------------------------------------------
  // string registers: two characters per unit, low byte first

  /** `String::charAt(k)`: 0 past the end. */
  function CharAt(s: seq<uint8>, k: nat): uint8
  {
    if k < |s| then s[k] else 0
  }

  /** The unit that holds characters `k` and `k + 1` of `s`. */
  function TextUnit(s: seq<uint8>, k: nat): int16
  {
    ToInt16(CharAt(s, k + 1) as int * 0x100 + CharAt(s, k) as int)
  }

  /** The low and high byte of a unit written over the bus. */
  function LowByte(inp: int16): uint8 { ToUint16(inp) % 0x100 }
  function HighByte(inp: int16): uint8 { ToUint16(inp) / 0x100 }

  /** The latch and whether the string is committed after writing one unit. */
  datatype TextWrite = TextWrite(latch: seq<uint8>, commit: bool)

  /**
   * `string_reg::writeregval` for unit `idx < size`: unit 0 clears the
   * latch; a unit that does not continue the latched text is ignored;
   * otherwise its low and then its high byte are appended up to the first
   * NUL, and the text is committed at a NUL or on the last unit.
   */
  function WriteTextUnit(latch: seq<uint8>, idx: nat, inp: int16, size: nat): (r: TextWrite)
    requires idx < size
    ensures idx * 2 > |if idx == 0 then [] else latch| ==> r == TextWrite(latch, false)
    ensures r.commit ==> LowByte(inp) == 0 || HighByte(inp) == 0 || idx == size - 1
  {
    var w := if idx == 0 then [] else latch;
    if idx * 2 > |w| then TextWrite(latch, false)
    else
      var lo := LowByte(inp);
      var hi := HighByte(inp);
      var save1 := lo == 0;
      var w1 := if !save1 then w + [lo] else w;
      var save2 := save1 || hi == 0;
      var w2 := if !save2 then w1 + [hi] else w1;
      TextWrite(w2, save2 || idx == size - 1)
  }

  predicate NoNul(s: seq<uint8>)
  {
    forall k :: 0 <= k < |s| ==> s[k] != 0
  }

  lemma Uint16OfTextUnit(s: seq<uint8>, k: nat)
    ensures LowByte(TextUnit(s, k)) == CharAt(s, k) && HighByte(TextUnit(s, k)) == CharAt(s, k + 1)
  {
    Uint16OfInt16(CharAt(s, k + 1) as int * 0x100 + CharAt(s, k) as int);
  }

  /**
   * Writing back units 0 .. u of a NUL-free text as they were read leaves
   * the first `2 (u + 1)` characters in the latch, and the write of unit u
   * commits exactly when the text ends inside that unit or it is the last.
   */
  lemma {:induction false} TextUnitsRewrite(s: seq<uint8>, size: nat, u: nat, latch: seq<uint8>)
    requires NoNul(s) && |s| < 2 * size && u < size
    requires u == 0 || latch == s[..Min(2 * u, |s|)]
    requires u == 0 || 2 * u <= |s|
    ensures WriteTextUnit(latch, u, TextUnit(s, 2 * u), size).latch == s[..Min(2 * u + 2, |s|)]
    ensures WriteTextUnit(latch, u, TextUnit(s, 2 * u), size).commit <==> (|s| < 2 * u + 2 || u == size - 1)
  {
    Uint16OfTextUnit(s, 2 * u);
    var w := if u == 0 then [] else latch;
    assert |w| == 2 * u;
    assert w == s[..2 * u];
    var lo := LowByte(TextUnit(s, 2 * u));
    var hi := HighByte(TextUnit(s, 2 * u));
    if 2 * u < |s| {
      assert lo == s[2 * u] && lo != 0;
      assert w + [lo] == s[..2 * u + 1];
      if 2 * u + 1 < |s| {
        assert hi == s[2 * u + 1] && hi != 0;
        assert s[..2 * u + 1] + [hi] == s[..2 * u + 2];
      } else {
        assert hi == 0;
      }
    } else {
      assert lo == 0;
    }
  }

  /** The latch and the last committed text after a run of unit writes. */
  datatype TextRun = TextRun(latch: seq<uint8>, committed: Option<seq<uint8>>)

  /** Units `0 .. n - 1` of `units` written in order, each commit storing the latch. */
  function WriteTextRun(units: seq<int16>, size: nat, n: nat): (r: TextRun)
    requires n <= |units| <= size
    decreases n
  {
    if n == 0 then TextRun([], None)
    else
      var st := WriteTextRun(units, size, n - 1);
      var w := WriteTextUnit(st.latch, n - 1, units[n - 1], size);
      TextRun(w.latch, if w.commit then Some(w.latch) else st.committed)
  }

  /** The units a reader obtains for a text in a register of `size` units. */
  function TextUnits(s: seq<uint8>, size: nat): (units: seq<int16>)
    ensures |units| == size
  {
    seq(size, u requires 0 <= u < size => TextUnit(s, 2 * u))
  }

  lemma {:induction false} TextRunPrefix(s: seq<uint8>, size: nat, n: nat)
    requires NoNul(s) && |s| < 2 * size && n <= |s| / 2
    ensures WriteTextRun(TextUnits(s, size), size, n) == TextRun(s[..2 * n], None)
  {
    if n > 0 {
      TextRunPrefix(s, size, n - 1);
      var units := TextUnits(s, size);
      var prev := WriteTextRun(units, size, n - 1);
      assert units[n - 1] == TextUnit(s, 2 * (n - 1));
      TextUnitsRewrite(s, size, n - 1, prev.latch);
      var w := WriteTextUnit(prev.latch, n - 1, units[n - 1], size);
      assert w.latch == s[..2 * n] && !w.commit;
      assert WriteTextRun(units, size, n) == TextRun(w.latch, prev.committed);
    }
  }

  lemma {:induction false} TextRunAfterCommit(s: seq<uint8>, size: nat, n: nat)
    requires NoNul(s) && |s| < 2 * size && |s| / 2 < n <= size
    ensures WriteTextRun(TextUnits(s, size), size, n) == TextRun(s, Some(s))
  {
    var units := TextUnits(s, size);
    var m := |s| / 2;
    if n == m + 1 {
      TextRunCommits(s, size, m, n);
    } else {
      TextRunAfterCommit(s, size, n - 1);
      UnitPastEndIgnored(s, n - 1, units[n - 1], size);
    }
  }

  /** The unit holding the text's last byte, or the NUL after it, commits the text. */
  lemma TextRunCommits(s: seq<uint8>, size: nat, m: nat, n: nat)
    requires NoNul(s) && |s| < 2 * size && m == |s| / 2 && n == m + 1 && n <= size
    ensures WriteTextRun(TextUnits(s, size), size, n) == TextRun(s, Some(s))
  {
    TextRunPrefix(s, size, m);
    TextUnitsRewrite(s, size, m, s[..2 * m]);
    assert s[..Min(2 * m + 2, |s|)] == s;
  }

  /** A unit that starts past the end of the latched text leaves it alone. */
  lemma UnitPastEndIgnored(latch: seq<uint8>, idx: nat, inp: int16, size: nat)
    requires 0 < idx < size && idx * 2 > |latch|
    ensures WriteTextUnit(latch, idx, inp, size) == TextWrite(latch, false)
  {
  }

  /**
   * Writing back, in order, every unit read from a NUL-free text that fits
   * the register commits exactly that text.
   */
  lemma TextTransferRoundTrip(s: seq<uint8>, size: nat)
    requires NoNul(s) && |s| < 2 * size
    ensures WriteTextRun(TextUnits(s, size), size, size).committed == Some(s)
  {
    TextRunAfterCommit(s, size, size);
  }
}
