/**
 * Countdown timers and MAC address text of common.cpp.
 *
 * A timer is a `uint32_t` counter held by its owner and passed by
 * reference: 0 means stopped, any other value counts the remaining ticks.
 * Here the owner keeps the counter in a field and these functions give
 * the value it holds after each call.
 */
module Common {
  import opened Ints

  /** What one `EndTimer` call returns and leaves in the counter. */
  datatype Tick = Tick(expired: bool, timer: uint32)

  /** `EndTimer(timer)`: one tick of the countdown. */
  function EndTimer(timer: uint32): (r: Tick)
    // a stopped timer stays stopped and never reports expiry
    ensures timer == 0 ==> r == Tick(false, 0)
    // a running timer loses exactly one tick and expires when it reaches 0
    ensures timer != 0 ==> r.timer == timer - 1 && (r.expired <==> r.timer == 0)
    ensures r.expired ==> timer == 1
  {
    if timer != 0 then
      var t := timer - 1;
      Tick(t == 0, t)
    else Tick(false, 0)
  }

  /** `StopTimer`: the value the counter holds afterwards. */
  function StopTimer(): (t: uint32)
    ensures !IsTimerRunning(t)
  {
    0
  }

  /** `StartTimer(timer, value)`: the value the counter holds afterwards. */
  function StartTimer(value: uint32): (t: uint32)
    ensures t == value && (IsTimerRunning(t) <==> value != 0)
  {
    value
  }

  predicate IsTimerRunning(timer: uint32)
  {
    timer != 0
  }

  /** The results of `n` consecutive `EndTimer` calls on a counter starting at `timer`. */
  function Countdown(timer: uint32, n: nat): (rs: seq<bool>)
    ensures |rs| == n
  {
    if n == 0 then [] else
      var r := EndTimer(timer);
      [r.expired] + Countdown(r.timer, n - 1)
  }

  /**
   * After `StartTimer(t, v)` with `v > 0`, calls 1 .. v-1 of `EndTimer`
   * return false, call `v` returns true, and later calls return false.
   */
  lemma {:induction false} StartedTimerExpiresOnce(v: uint32, n: nat)
    requires v > 0
    ensures forall k :: 0 <= k < n ==> (Countdown(StartTimer(v), n)[k] <==> k == v - 1)
  {
    if n > 0 {
      var r := EndTimer(v);
      if v == 1 {
        StoppedTimerStaysQuiet(0, n - 1);
      } else {
        StartedTimerExpiresOnce(v - 1, n - 1);
        assert StartTimer(v - 1) == r.timer;
      }
      var rs := Countdown(v, n);
      var tail := Countdown(r.timer, n - 1);
      assert rs == [r.expired] + tail;
      assert forall j :: 0 <= j < n - 1 ==> (tail[j] <==> j == v - 2);
      forall k | 0 < k < n
        ensures rs[k] <==> k == v - 1
      {
        assert rs[k] == tail[k - 1];
      }
    }
  }

  /** A stopped timer never expires. */
  lemma {:induction false} StoppedTimerStaysQuiet(t: uint32, n: nat)
    requires t == 0
    ensures forall k :: 0 <= k < n ==> !Countdown(t, n)[k]
  {
    if n > 0 {
      StoppedTimerStaysQuiet(0, n - 1);
      assert Countdown(t, n) == [false] + Countdown(0, n - 1);
    }
  }

  // ---------------------------------------------------------------------
  // MAC address text: "XX:XX:XX:XX:XX:XX", upper-case hex

  /** The `%02X` digit for a nibble. */
  function HexDigit(n: int): (c: char)
    requires 0 <= n < 16
    ensures '0' <= c <= '9' || 'A' <= c <= 'F'
  {
    if n < 10 then (('0' as int) + n) as char else (('A' as int) + n - 10) as char
  }

  /** The value of a hex digit as `%X` reads it (either case). */
  function HexValue(c: char): (r: Option<int>)
    ensures r.Some? ==> 0 <= r.value < 16
  {
    if '0' <= c <= '9' then Some(c as int - '0' as int)
    else if 'A' <= c <= 'F' then Some(c as int - 'A' as int + 10)
    else if 'a' <= c <= 'f' then Some(c as int - 'a' as int + 10)
    else None
  }

  lemma HexDigitValue(n: int)
    requires 0 <= n < 16
    ensures HexValue(HexDigit(n)) == Some(n)
  {
  }

  /** `%02X` of one byte: two digits, high nibble first. */
  function HexByte(b: uint8): (s: seq<char>)
    ensures |s| == 2
  {
    [HexDigit(b / 16), HexDigit(b % 16)]
  }

  /** `MacToString(mac)`. */
  function MacToString(mac: seq<uint8>): (s: seq<char>)
    requires |mac| == 6
    ensures |s| == 17
  {
    HexByte(mac[0]) + (":" + (HexByte(mac[1]) + (":" + (HexByte(mac[2]) + (":"
    + (HexByte(mac[3]) + (":" + (HexByte(mac[4]) + (":" + HexByte(mac[5]))))))))))
  }

  /** The text is six two-digit upper-case hex fields separated by ':'. */
  lemma MacTextShape(mac: seq<uint8>)
    requires |mac| == 6
    ensures forall i :: 0 <= i < 6 ==>
      MacToString(mac)[3 * i] == HexDigit(mac[i] / 16) && MacToString(mac)[3 * i + 1] == HexDigit(mac[i] % 16)
    ensures forall i :: 0 <= i < 5 ==> MacToString(mac)[3 * i + 2] == ':'
  {
    var s := MacToString(mac);
    forall i | 0 <= i < 6
      ensures s[3 * i] == HexDigit(mac[i] / 16) && s[3 * i + 1] == HexDigit(mac[i] % 16)
    {
      MacTextIsMacToString(mac);
      MacTextField(mac, 0, i);
    }
    forall i | 0 <= i < 5
      ensures s[3 * i + 2] == ':'
    {
      MacTextIsMacToString(mac);
      MacTextField(mac, 0, i);
    }
  }

  /** Field `i` of the text of bytes `f` .. 5 sits at offset 3 (i - f). */
  lemma {:induction false} MacTextField(mac: seq<uint8>, f: nat, i: nat)
    requires |mac| == 6 && f <= i < 6
    ensures |MacText(mac, f)| == 17 - 3 * f
    ensures MacText(mac, f)[3 * (i - f)] == HexDigit(mac[i] / 16)
    ensures MacText(mac, f)[3 * (i - f) + 1] == HexDigit(mac[i] % 16)
    ensures i < 5 ==> MacText(mac, f)[3 * (i - f) + 2] == ':'
    decreases 6 - f
  {
    var t := MacText(mac, f);
    if f < 5 {
      if i == f {
        MacTextField(mac, f + 1, f + 1);
      } else {
        MacTextField(mac, f + 1, i);
        assert t[3 * (i - f)] == MacText(mac, f + 1)[3 * (i - f - 1)];
        assert t[3 * (i - f) + 1] == MacText(mac, f + 1)[3 * (i - f - 1) + 1];
        if i < 5 {
          assert t[3 * (i - f) + 2] == MacText(mac, f + 1)[3 * (i - f - 1) + 2];
        }
      }
    }
  }

  /** `MacToString` built field by field: the text of bytes `f` .. 5. */
  function MacText(mac: seq<uint8>, f: nat): seq<char>
    requires |mac| == 6 && f < 6
    decreases 6 - f
  {
    HexByte(mac[f]) + if f == 5 then [] else [':'] + MacText(mac, f + 1)
  }

  lemma MacTextIsMacToString(mac: seq<uint8>)
    requires |mac| == 6
    ensures MacToString(mac) == MacText(mac, 0)
  {
    assert MacText(mac, 5) == HexByte(mac[5]);
    assert MacText(mac, 4) == HexByte(mac[4]) + [':'] + MacText(mac, 5);
    assert MacText(mac, 3) == HexByte(mac[3]) + [':'] + MacText(mac, 4);
    assert MacText(mac, 2) == HexByte(mac[2]) + [':'] + MacText(mac, 3);
    assert MacText(mac, 1) == HexByte(mac[1]) + [':'] + MacText(mac, 2);
    assert MacText(mac, 0) == HexByte(mac[0]) + [':'] + MacText(mac, 1);
  }

  /** The number of hex digits (at most 2, the field width) at the head of `s`. */
  function HexRun(s: seq<char>): (d: nat)
    ensures d <= 2 && d <= |s|
    ensures forall k :: 0 <= k < d ==> HexValue(s[k]).Some?
  {
    if 0 < |s| && HexValue(s[0]).Some? then
      if 1 < |s| && HexValue(s[1]).Some? then 2 else 1
    else 0
  }

  /** The value of the `d` hex digits at the head of `s`. */
  function HexField(s: seq<char>, d: nat): (v: uint8)
    requires d <= 2 && d <= |s|
    requires forall k :: 0 <= k < d ==> HexValue(s[k]).Some?
  {
    if d == 0 then 0
    else if d == 1 then HexValue(s[0]).value
    else HexValue(s[0]).value * 16 + HexValue(s[1]).value
  }

  /**
   * The bytes `sscanf(s, "%02X:%02X:%02X:%02X:%02X:%02X")` stores, from
   * field `f` on, with `s` the text not yet consumed: every field after
   * the first needs a ':' first, each field takes one or two hex digits,
   * and the scan stops at the first mismatch, keeping the fields converted
   * before it.
   */
  function ScanFrom(s: seq<char>, f: nat): (vals: seq<uint8>)
    requires f <= 6
    ensures |vals| <= 6 - f
    decreases 6 - f
  {
    if f == 6 then []
    else if f > 0 && !(0 < |s| && s[0] == ':') then []
    else
      var t := if f > 0 then s[1..] else s;
      var d := HexRun(t);
      if d == 0 then [] else [HexField(t, d)] + ScanFrom(t[d..], f + 1)
  }

  function ScanMac(s: seq<char>): (vals: seq<uint8>)
    ensures |vals| <= 6
  {
    ScanFrom(s, 0)
  }

  /** Scanning the text of bytes `f` .. 5 recovers those bytes. */
  lemma {:induction false} ScanMacText(mac: seq<uint8>, f: nat)
    requires |mac| == 6 && f < 6
    ensures ScanFrom(if f == 0 then MacText(mac, 0) else [':'] + MacText(mac, f), f) == mac[f..]
    decreases 6 - f
  {
    var s := if f == 0 then MacText(mac, 0) else [':'] + MacText(mac, f);
    var t := MacText(mac, f);
    assert t[0] == HexDigit(mac[f] / 16) && t[1] == HexDigit(mac[f] % 16);
    HexDigitValue(mac[f] / 16);
    HexDigitValue(mac[f] % 16);
    assert HexRun(t) == 2;
    assert HexField(t, 2) == mac[f];
    if f > 0 {
      assert s[1..] == t;
    }
    assert ScanFrom(s, f) == [mac[f]] + ScanFrom(t[2..], f + 1);
    if f < 5 {
      assert t[2..] == [':'] + MacText(mac, f + 1);
      ScanMacText(mac, f + 1);
      SliceCons(mac, f);
    } else {
      assert t[2..] == [];
    }
  }

  /** A slice is its first element followed by the rest. */
  lemma SliceCons<T>(xs: seq<T>, f: nat)
    requires f < |xs|
    ensures xs[f..] == [xs[f]] + xs[f + 1..]
  {
  }

  /** `StringToMac(MacToString(m))` recovers all six bytes of `m`. */
  lemma MacTextRoundTrip(mac: seq<uint8>)
    requires |mac| == 6
    ensures ScanMac(MacToString(mac)) == mac
  {
    MacTextIsMacToString(mac);
    ScanMacText(mac, 0);
  }

  /**
   * `StringToMac(s, mac)`: a string of any length other than 17 leaves
   * the output untouched; otherwise the scanned fields overwrite the
   * leading bytes and the rest stay as they were.
   */
  method StringToMac(s: seq<char>, mac: array<uint8>)
    requires mac.Length == 6
    modifies mac
    ensures |s| != 17 ==> mac[..] == old(mac[..])
    ensures |s| == 17 ==> mac[..] == ScanMac(s) + old(mac[|ScanMac(s)|..])
  {
    if |s| != 17 {
      return;
    }
    Store(ScanMac(s), mac);
  }

  /** `sscanf` storing the fields it converted, `vals`, one by one from the start of `mac`. */
  method Store(vals: seq<uint8>, mac: array<uint8>)
    requires |vals| <= mac.Length
    modifies mac
    ensures mac[..] == vals + old(mac[..])[|vals|..]
  {
    var i := 0;
    while i < |vals|
      invariant 0 <= i <= |vals|
      invariant mac[..] == vals[..i] + old(mac[..])[i..]
    {
      mac[i] := vals[i];
      i := i + 1;
      assert mac[..] == vals[..i] + old(mac[..])[i..];
    }
    assert vals[..i] == vals;
  }
}
