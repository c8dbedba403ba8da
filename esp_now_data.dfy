/**
 * What the request handlers of esp_now_client.h compute from the
 * registers, as functions: the unit reads of a read request and of the
 * periodic value report, the writes of a write request, the parameter
 * definitions the client announces, and the one register a channel scan
 * changes (`WiFiKanal`, set to 1).
 */
module EspNowData {
  import opened Ints
  import opened ParamTypes
  import opened ParamTable
  import opened Parameters
  import SleepCtrl
  import opened RegisterAccess
  import opened EspNowCtrl
  import opened EspNowFrames

  // ---------------------------------------------------------------------
  // the channel register a scan sets

  /** The register values and their saved copies. */
  datatype Bank = Bank(vals: seq<RegVal>, saved: map<nat, RegVal>)

  /** The address of `WiFiKanal`, the one register a scan writes. */
  const CHANNEL_ADR: nat := 203

  /** `WiFiKanal.Set(1)` at the start of a scan. */
  function Tune(b: Bank): (r: Bank)
    requires Fitting(b.vals)
    ensures Fitting(r.vals) && r.vals == b.vals[WiFiKanal := Num(1)]
    ensures b.vals[WiFiKanal] == Num(1) ==> r == b
    ensures forall i :: i in r.saved && i != WiFiKanal ==> i in b.saved && r.saved[i] == b.saved[i]
  {
    Bank(SetNumVals(b.vals, WiFiKanal, 1), SetNumSaved(b.vals, b.saved, WiFiKanal, 1))
  }

  /** A second scan changes nothing the first did not. */
  lemma TuneTwice(b: Bank)
    requires Fitting(b.vals)
    ensures Tune(Tune(b)) == Tune(b)
    ensures Tune(b).vals[WiFiKanal] == Num(1)
  {
  }

  /** `WiFiKanal` lives at address 203 and nowhere else. */
  lemma ChannelAddress(a: int)
    ensures Lookup(a) == Some(WiFiKanal) <==> a == CHANNEL_ADR
  {
    assert Start(WiFiKanal) == 203 && End(WiFiKanal) == 204;
    assert InSpan(WiFiKanal, a) <==> a == CHANNEL_ADR;
    LookupOwner(a, WiFiKanal);
  }

  // ---------------------------------------------------------------------
  // unit reads

  /** The state a unit read changes besides its result: the latches and the cursor of `GetPar`. */
  datatype Cursor = Cursor(latch: Latches, idx: nat, adr: uint16)

  /** One unit read and the cursor after it. */
  datatype Read = Read(out: int16, c: Cursor)

  /**
   * `ReadReg(&val, a)`: an address no register holds and a register
   * without the R bit read as `NONDEF_REG_VAL`; otherwise the unit at the
   * offset of `a` in the register's span.
   */
  function ReadAt(vals: seq<RegVal>, c: Cursor, a: uint16): (r: Read)
    requires Fitting(vals)
  {
    match Lookup(a)
    case None => Read(NONDEF_REG_VAL, Cursor(c.latch, NMR_PARAMETERS, INVALID_REGADR))
    case Some(i) =>
      if !IsReadable(Def(i)) then Read(NONDEF_REG_VAL, Cursor(c.latch, i, a))
      else
        var u := ReadUnit(Def(i), vals[i], Offset(i, a), c.latch);
        Read(u.out, Cursor(u.latch, i, INVALID_REGADR))
  }

  /** The units of `n` consecutive addresses from `a` on, read in order. */
  datatype Readout = Readout(outs: seq<int16>, c: Cursor)

  function Reads(vals: seq<RegVal>, c: Cursor, a: nat, n: nat): (r: Readout)
    requires Fitting(vals) && a + n <= 0x1_0000
    ensures |r.outs| == n
    decreases n
  {
    if n == 0 then Readout([], c)
    else
      var p := Reads(vals, c, a, n - 1);
      var x := ReadAt(vals, p.c, (a + n - 1) as uint16);
      Readout(p.outs + [x.out], x.c)
  }

  /**
   * Reading `k` units (`p`) and then `j` more from where they stopped
   * (`q`, from `a1` on) is reading `n = k + j` units.
   */
  lemma {:induction false} ReadsAppend(vals: seq<RegVal>, c: Cursor, a: nat, k: nat, j: nat, n: nat, a1: nat, p: Readout, q: Readout)
    requires Fitting(vals) && a + n <= 0x1_0000 && n == k + j && a1 == a + k
    requires p == Reads(vals, c, a, k) && q == Reads(vals, p.c, a1, j)
    ensures Reads(vals, c, a, n) == Readout(p.outs + q.outs, q.c)
    decreases j
  {
    if j == 0 {
      assert q == Readout([], p.c);
      assert p.outs + [] == p.outs;
    } else {
      var j', n', at := j - 1, n - 1, a + n - 1;
      var q' := Reads(vals, p.c, a1, j');
      var whole := Reads(vals, c, a, n');
      ReadsAppend(vals, c, a, k, j', n', a1, p, q');
      assert whole.c == q'.c;
      var x := ReadAt(vals, q'.c, at as uint16);
      ReadsStep(vals, c, a, n', n, at, whole, x);
      ReadsStep(vals, p.c, a1, j', j, at, q', x);
      assert p.outs + q'.outs + [x.out] == p.outs + (q'.outs + [x.out]);
    }
  }

  /** `ReadsSnoc` for named values: the readout `p` of `n` units, then the read `x` at `at`. */
  lemma ReadsStep(vals: seq<RegVal>, c: Cursor, a: nat, n: nat, n': nat, at: nat, p: Readout, x: Read)
    requires Fitting(vals) && a + n' <= 0x1_0000 && n' == n + 1 && at == a + n
    requires p == Reads(vals, c, a, n) && x == ReadAt(vals, p.c, at as uint16)
    ensures Reads(vals, c, a, n') == Readout(p.outs + [x.out], x.c)
  {
    ReadsSnoc(vals, c, a, n);
  }

  /** Reading `n` units and then one more. */
  lemma ReadsSnoc(vals: seq<RegVal>, c: Cursor, a: nat, n: nat)
    requires Fitting(vals) && a + n < 0x1_0000
    ensures var p := Reads(vals, c, a, n);
      var x := ReadAt(vals, p.c, (a + n) as uint16);
      Reads(vals, c, a, n + 1) == Readout(p.outs + [x.out], x.c)
  {
  }

  /** The units of a run of reads: each is the read at its address with the cursor the earlier ones left. */
  lemma {:induction false} ReadsPrefix(vals: seq<RegVal>, c: Cursor, a: nat, n: nat, m: nat)
    requires Fitting(vals) && a + n <= 0x1_0000 && m <= n
    ensures Reads(vals, c, a, m).outs == Reads(vals, c, a, n).outs[..m]
    decreases n
  {
    var outs := Reads(vals, c, a, n).outs;
    if m < n {
      var n' := n - 1;
      var shorter := Reads(vals, c, a, n').outs;
      ReadsPrefix(vals, c, a, n', m);
      ReadsDrop(vals, c, a, n);
      assert shorter == outs[..n'];
      assert shorter[..m] == outs[..m];
    } else {
      assert outs[..n] == outs;
    }
  }

  /** The reads of `n - 1` units are the first of the reads of `n`. */
  lemma ReadsDrop(vals: seq<RegVal>, c: Cursor, a: nat, n: nat)
    requires Fitting(vals) && a + n <= 0x1_0000 && 0 < n
    ensures Reads(vals, c, a, n - 1).outs == Reads(vals, c, a, n).outs[..n - 1]
  {
    var p := Reads(vals, c, a, n - 1);
    var u := ReadAt(vals, p.c, (a + n - 1) as uint16).out;
    assert Reads(vals, c, a, n).outs == p.outs + [u];
  }

  /**
   * A 16-bit register with the R bit reads as its value, whatever was
   * read before it, and an address no register holds reads as 0.
   */
  lemma ReadsScalar(vals: seq<RegVal>, c: Cursor, a: nat, n: nat, k: nat)
    requires Fitting(vals) && a + n <= 0x1_0000 && k < n
    ensures var i := Lookup(a + k);
      i.Some? && IsReadable(Def(i.value)) && Def(i.value).kind in {U16, S16} ==>
        Reads(vals, c, a, n).outs[k] == ToInt16(vals[i.value].n)
    ensures Lookup(a + k).None? ==> Reads(vals, c, a, n).outs[k] == NONDEF_REG_VAL
  {
    ReadsPrefix(vals, c, a, n, k + 1);
    assert Reads(vals, c, a, n).outs[k] == Reads(vals, c, a, k + 1).outs[k];
  }

  /**
   * The two units of a 32-bit register read one after the other are its
   * high and its low half: the first read latches the value the second
   * one returns.
   */
  lemma ReadsInt32(vals: seq<RegVal>, c: Cursor, a: nat, n: nat, k: nat)
    requires Fitting(vals) && a + n <= 0x1_0000 && k + 1 < n
    requires var i := Lookup(a + k);
      i.Some? && IsReadable(Def(i.value)) && Def(i.value).kind == S32 && Start(i.value) == a + k
    ensures var i := Lookup(a + k).value;
      && Reads(vals, c, a, n).outs[k] == HighHalf(vals[i].n)
      && Reads(vals, c, a, n).outs[k + 1] == LowHalf(vals[i].n)
  {
    var i := Lookup(a + k).value;
    ReadsPrefix(vals, c, a, n, k + 2);
    var p := Reads(vals, c, a, k);
    var x := ReadAt(vals, p.c, (a + k) as uint16);
    assert x == Read(HighHalf(vals[i].n), Cursor(p.c.latch.(tmpVal := vals[i].n), i, INVALID_REGADR));
    SpanNonEmpty(i);
    LookupOwner(a + k + 1, i);
    assert Offset(i, a + k + 1) == 1;
    var y := ReadAt(vals, x.c, (a + k + 1) as uint16);
    assert y.out == LowHalf(vals[i].n);
    assert Reads(vals, c, a, k + 2).outs == p.outs + [x.out] + [y.out];
  }

  /**
   * A read after a scan changed `WiFiKanal` leaves the same cursor as
   * before it, and returns the same unit anywhere but at the channel
   * register's address.
   */
  lemma ReadAtTune(vals: seq<RegVal>, c: Cursor, a: uint16)
    requires Fitting(vals) && Fitting(vals[WiFiKanal := Num(1)])
    ensures ReadAt(vals[WiFiKanal := Num(1)], c, a).c == ReadAt(vals, c, a).c
    ensures a != CHANNEL_ADR ==> ReadAt(vals[WiFiKanal := Num(1)], c, a).out == ReadAt(vals, c, a).out
  {
    ChannelAddress(a);
    if Lookup(a) == Some(WiFiKanal) {
      ChannelIsScalar();
    }
  }

  /** `WiFiKanal` is a readable 16-bit register. */
  lemma ChannelIsScalar()
    ensures Def(WiFiKanal).kind == U16 && IsReadable(Def(WiFiKanal)) && Size(Def(WiFiKanal)) == 1
  {
  }

  /** How many units a read request of `nmr` units from `regadr` reads: none when the 16-bit end address wraps. */
  function ReadCount(regadr: uint16, nmr: uint16): (n: nat)
    ensures regadr + n <= 0x1_0000
  {
    if regadr + nmr < 0x1_0000 then nmr else 0
  }

  // ---------------------------------------------------------------------
  // the parameter definitions announced to the master

  /** The entry of table index `i` when it has `Par_ESPNow`, with its name. */
  function EspAt(i: nat): (es: seq<DefEntry>)
    ensures forall k :: 0 <= k < |es| ==> IsEspNow(es[k].d)
    ensures i < NMR_PARAMETERS && IsEspNow(Def(i)) ==> es == [DefEntry(Def(i), Name(i))]
    ensures |es| <= 1
  {
    if i < NMR_PARAMETERS && IsEspNow(Def(i)) then [DefEntry(Def(i), Name(i))] else []
  }

  /** `f(0) + ... + f(n - 1)`. */
  function Concat<T>(f: nat -> seq<T>, n: nat): seq<T>
    decreases n
  {
    if n == 0 then [] else Concat(f, n - 1) + f(n - 1)
  }

  /** What every part of a concatenation holds, the whole does. */
  lemma {:induction false} ConcatAll<T>(f: nat -> seq<T>, n: nat, p: T -> bool)
    requires forall i, k :: 0 <= k < |f(i)| ==> p(f(i)[k])
    ensures forall k :: 0 <= k < |Concat(f, n)| ==> p(Concat(f, n)[k])
    decreases n
  {
    if n > 0 {
      ConcatAll(f, n - 1, p);
      var s, t := Concat(f, n - 1), f(n - 1);
      assert forall k :: |s| <= k < |s + t| ==> (s + t)[k] == t[k - |s|];
    }
  }

  /** Short parts make a short concatenation. */
  lemma {:induction false} ConcatLength<T>(f: nat -> seq<T>, n: nat)
    requires forall i :: |f(i)| <= 1
    ensures |Concat(f, n)| <= n
    decreases n
  {
    if n > 0 {
      ConcatLength(f, n - 1);
    }
  }

  /** Every element of a part below `n` is in the concatenation of the first `n`. */
  lemma {:induction false} ConcatHas<T>(f: nat -> seq<T>, n: nat, i: nat, x: T)
    requires i < n && x in f(i)
    ensures x in Concat(f, n)
    decreases n
  {
    if i < n - 1 {
      ConcatHas(f, n - 1, i, x);
    }
  }

  /** The entries with `Par_ESPNow` among the first `n` of the table, in table order, with their names. */
  function EspEntries(n: nat): (es: seq<DefEntry>)
    requires n <= NMR_PARAMETERS
    ensures |es| <= n
    ensures forall k :: 0 <= k < |es| ==> IsEspNow(es[k].d)
  {
    ConcatLength(EspAt, n);
    ConcatAll(EspAt, n, (e: DefEntry) => IsEspNow(e.d));
    Concat(EspAt, n)
  }

  /** Every `Par_ESPNow` entry below `n` is announced, with its own name. */
  lemma EspEntriesComplete(n: nat, i: nat)
    requires i < n <= NMR_PARAMETERS && IsEspNow(Def(i))
    ensures DefEntry(Def(i), Name(i)) in EspEntries(n)
  {
    ConcatHas(EspAt, n, i, DefEntry(Def(i), Name(i)));
  }

  /** The payload function of a definitions transfer: the position is not sent. */
  function DefsFrame(a: int, es: seq<DefEntry>): seq<uint8>
  {
    DefPayload(es)
  }

  /** The lowest address of a `Par_ESPNow` register below `n`, `UINT16_MAX` when there is none. */
  function FirstAdr(n: nat): (r: uint16)
    requires n <= NMR_PARAMETERS
    ensures forall i :: 0 <= i < n && IsEspNow(Def(i)) ==> r <= Start(i)
    decreases n
  {
    if n == 0 then UINT16_MAX
    else if IsEspNow(Def(n - 1)) && Def(n - 1).adr < FirstAdr(n - 1) then Def(n - 1).adr
    else FirstAdr(n - 1)
  }

  /** One past the highest address of a `Par_ESPNow` register below `n`, 0 when there is none. */
  function LastAdr(n: nat): (r: uint16)
    requires n <= NMR_PARAMETERS
    decreases n
  {
    if n == 0 then 0
    else if IsEspNow(Def(n - 1)) && End(n - 1) > LastAdr(n - 1) then ToUint16(End(n - 1))
    else LastAdr(n - 1)
  }

  /** The first address is that of an ESP-NOW register, 2 or above, unless there is none. */
  lemma {:induction false} FirstAdrAttained(n: nat)
    requires n <= NMR_PARAMETERS
    ensures FirstAdr(n) == UINT16_MAX || 2 <= FirstAdr(n)
    ensures FirstAdr(n) != UINT16_MAX ==> exists i :: 0 <= i < n && IsEspNow(Def(i)) && Start(i) == FirstAdr(n)
    decreases n
  {
    if n > 0 {
      FirstAdrAttained(n - 1);
      if IsEspNow(Def(n - 1)) {
        EspNowAt(n - 1);
      }
    }
  }

  /** `LastAdr` never decreases, and covers the register it looks at. */
  lemma LastAdrStep(n: nat)
    requires 0 < n <= NMR_PARAMETERS
    ensures LastAdr(n - 1) <= LastAdr(n)
    ensures IsEspNow(Def(n - 1)) ==> End(n - 1) <= LastAdr(n)
  {
    if IsEspNow(Def(n - 1)) && End(n - 1) > LastAdr(n - 1) {
      EspNowAt(n - 1);
      var e := End(n - 1);
      assert 0 <= e <= 38;
      assert ToUint16(e) == e;
    }
  }

  /** Every ESP-NOW register ends at or before `LastAdr`. */
  lemma {:induction false} LastAdrBound(n: nat)
    requires n <= NMR_PARAMETERS
    ensures forall i :: 0 <= i < n && IsEspNow(Def(i)) ==> End(i) <= LastAdr(n)
    decreases n
  {
    if n > 0 {
      LastAdrBound(n - 1);
      LastAdrStep(n);
      forall i | 0 <= i < n && IsEspNow(Def(i))
        ensures End(i) <= LastAdr(n)
      {
        if i < n - 1 {
          assert End(i) <= LastAdr(n - 1);
        }
      }
    }
  }

  /** `LastAdr` is 38 at most. */
  lemma {:induction false} LastAdrMax(n: nat)
    requires n <= NMR_PARAMETERS
    ensures LastAdr(n) <= 38
    decreases n
  {
    if n > 0 {
      LastAdrMax(n - 1);
      if IsEspNow(Def(n - 1)) && End(n - 1) > LastAdr(n - 1) {
        EspNowAt(n - 1);
        var e := End(n - 1);
        assert 0 <= e <= 38;
        assert ToUint16(e) == e;
        assert LastAdr(n) == e;
      } else {
        assert LastAdr(n) == LastAdr(n - 1);
      }
    }
  }

  /** `LastAdr` is the end of an ESP-NOW register, unless there is none. */
  lemma {:induction false} LastAdrAttained(n: nat)
    requires n <= NMR_PARAMETERS
    ensures LastAdr(n) != 0 ==> exists i :: 0 <= i < n && IsEspNow(Def(i)) && End(i) == LastAdr(n)
    decreases n
  {
    if n > 0 {
      var m := n - 1;
      LastAdrAttained(m);
      if IsEspNow(Def(m)) && End(m) > LastAdr(m) {
        EspNowAt(m);
        assert LastAdr(n) == End(m);
      } else {
        assert LastAdr(n) == LastAdr(m);
      }
    }
  }

  /**
   * The scan of `sendParamValues` over the table: the lowest address of a
   * `Par_ESPNow` register, and one past the highest unit of one.
   */
  method EspSpan() returns (first: uint16, last: uint16)
    ensures first == FirstAdr(NMR_PARAMETERS) && last == LastAdr(NMR_PARAMETERS)
  {
    first, last := UINT16_MAX, 0;
    for i := 0 to NMR_PARAMETERS
      invariant first == FirstAdr(i) && last == LastAdr(i)
    {
      var d := Def(i);
      if IsEspNow(d) {
        if d.adr < first {
          first := d.adr;
        }
        if End(i) > last as int {
          last := ToUint16(End(i));
        }
      }
    }
  }

  /** An ESP-NOW register starts at `FirstAdr` and ends at or before `LastAdr`. */
  lemma {:induction false} FirstBelowLast(n: nat)
    requires n <= NMR_PARAMETERS && FirstAdr(n) != UINT16_MAX
    ensures FirstAdr(n) < LastAdr(n)
  {
    FirstAdrAttained(n);
    LastAdrBound(n);
    var i :| 0 <= i < n && IsEspNow(Def(i)) && Start(i) == FirstAdr(n) as int;
    SpanNonEmpty(i);
  }

  /**
   * A request from `first` up to `last` within the table's addresses
   * reads `last - first` units: its end does not wrap.
   */
  lemma RequestFits(first: uint16, last: uint16)
    requires first < last <= 38
    ensures ReadCount(first, ToUint16(last as int - first as int)) == last as nat - first as nat
  {
    var nmr := ToUint16(last as int - first as int);
    assert nmr as int == last as int - first as int;
  }

  /** The lowest address of a `Par_ESPNow` register of the table, and one past the highest unit of one: see `SpanBounds`. */
  const SPAN_FIRST: nat := 2
  const SPAN_LAST: nat := 38

  /** `FirstAdr` and `LastAdr` over the whole table: `StavKrmitka` at 2 is the lowest, `RestartCmd` at 37 the highest. */
  lemma SpanBounds()
    ensures FirstAdr(NMR_PARAMETERS) as nat == SPAN_FIRST && LastAdr(NMR_PARAMETERS) as nat == SPAN_LAST
  {
    SpanBoundsFrom(NMR_PARAMETERS);
  }

  /** The same for every prefix of the table that holds `RestartCmd`. */
  lemma SpanBoundsFrom(n: nat)
    requires 37 <= n <= NMR_PARAMETERS
    ensures FirstAdr(n) as nat == SPAN_FIRST && LastAdr(n) as nat == SPAN_LAST
  {
    FirstAdrAttained(n);
    LastAdrBound(n);
    LastAdrMax(n);
    assert IsEspNow(Def(1)) && Start(1) == 2;
    RestartEnd();
  }

  /** `RestartCmd`, the last entry with `Par_ESPNow`, ends at 38. */
  lemma RestartEnd()
    ensures IsEspNow(Def(36)) && End(36) == 38
  {
    assert Def(36) == Plain(37, 0, 0, 1, PAR_U16, RW, INST_ESP, BOOL_FLAG, U16, Ram);
  }

  /**
   * The reads of `sendParamValues`: every unit from the lowest address of
   * a `Par_ESPNow` register up to one past the highest unit of one.
   */
  function SpanReads(vals: seq<RegVal>, c: Cursor): (rd: Readout)
    requires Fitting(vals)
  {
    Reads(vals, c, SPAN_FIRST, SPAN_LAST - SPAN_FIRST)
  }

  /** Reads of a run of addresses that misses the channel register are the same after a scan. */
  lemma {:induction false} ReadsTune(vals: seq<RegVal>, c: Cursor, a: nat, n: nat)
    requires Fitting(vals) && Fitting(vals[WiFiKanal := Num(1)]) && a + n <= 0x1_0000
    requires a + n <= CHANNEL_ADR || CHANNEL_ADR < a
    ensures Reads(vals[WiFiKanal := Num(1)], c, a, n) == Reads(vals, c, a, n)
    decreases n
  {
    if n > 0 {
      ReadsTune(vals, c, a, n - 1);
      var p := Reads(vals, c, a, n - 1);
      ReadsSnoc(vals, c, a, n - 1);
      ReadsSnoc(vals[WiFiKanal := Num(1)], c, a, n - 1);
      ReadAtTune(vals, p.c, (a + n - 1) as uint16);
    }
  }

  /** The span `sendParamValues` reads lies below the channel register, so a scan does not change what it reads. */
  lemma SpanTune(vals: seq<RegVal>, c: Cursor)
    requires Fitting(vals) && Fitting(vals[WiFiKanal := Num(1)])
    ensures SpanReads(vals[WiFiKanal := Num(1)], c) == SpanReads(vals, c)
  {
    ReadsTune(vals, c, SPAN_FIRST, SPAN_LAST - SPAN_FIRST);
  }

  // ---------------------------------------------------------------------
  // write requests

  /** The count field of a request: `nmr` of a `WriteRequestPayload`. */
  function RequestCount(buf: seq<uint8>): uint16
    requires |buf| == MAX_PAYLOAD_SIZE
  {
    FromLe16(buf[2..4])
  }

  /**
   * The values `writeParamsRequestHandler` writes, as written: `nmr`
   * values from the payload area of the receive buffer, whatever the
   * length of the frame (counts that reach beyond the 240-byte area are
   * outside this function).
   */
  function WriteValuesAsWritten(buf: seq<uint8>): (vs: seq<int16>)
    requires |buf| == MAX_PAYLOAD_SIZE && RequestCount(buf) <= MAX_PARAM_READS_WRITES
    ensures |vs| == RequestCount(buf)
  {
    FromValues(buf[4 .. 4 + 2 * RequestCount(buf)])
  }

  /** The values a write request of `len` payload bytes carries: no more than the frame holds. */
  function WriteValues(buf: seq<uint8>, len: nat): (vs: seq<int16>)
    requires |buf| == MAX_PAYLOAD_SIZE && len <= MAX_PAYLOAD_SIZE
    ensures len >= 4 ==> |vs| == Min(RequestCount(buf), (len - 4) / 2)
    ensures len < 4 ==> vs == []
  {
    if len < 4 then []
    else
      var n := Min(RequestCount(buf), (len - 4) / 2);
      FromValues(buf[4 .. 4 + 2 * n])
  }

  /** The values written depend only on the bytes of the frame. */
  lemma WriteValuesInFrame(buf1: seq<uint8>, buf2: seq<uint8>, len: nat)
    requires |buf1| == MAX_PAYLOAD_SIZE && |buf2| == MAX_PAYLOAD_SIZE && len <= MAX_PAYLOAD_SIZE
    requires buf1[..len] == buf2[..len]
    ensures WriteValues(buf1, len) == WriteValues(buf2, len)
  {
    if len >= 4 {
      assert buf1[2..4] == buf1[..len][2..4] && buf2[2..4] == buf2[..len][2..4];
      var n := Min(RequestCount(buf1), (len - 4) / 2);
      assert buf1[4 .. 4 + 2 * n] == buf1[..len][4 .. 4 + 2 * n];
      assert buf2[4 .. 4 + 2 * n] == buf2[..len][4 .. 4 + 2 * n];
    }
  }

  /** A frame whose count matches its length is written in full, as written and as corrected alike. */
  lemma WriteValuesAgree(buf: seq<uint8>, len: nat)
    requires |buf| == MAX_PAYLOAD_SIZE && 4 <= len <= MAX_PAYLOAD_SIZE
    requires len == 4 + 2 * RequestCount(buf)
    ensures RequestCount(buf) <= MAX_PARAM_READS_WRITES
    ensures WriteValues(buf, len) == WriteValuesAsWritten(buf)
  {
  }

  /** The payload area holding a frame, the rest of it left as `rest`. */
  function Area(p: seq<uint8>, rest: seq<uint8>): (buf: seq<uint8>)
    requires |p| <= MAX_PAYLOAD_SIZE
    ensures |buf| == MAX_PAYLOAD_SIZE && buf[..|p|] == p
  {
    p + seq(MAX_PAYLOAD_SIZE - |p|, k requires 0 <= k < MAX_PAYLOAD_SIZE - |p| => if k < |rest| then rest[k] else 0)
  }

  /** A block of values in the read-response format, sent as a write request, writes exactly those values. */
  lemma WriteValuesOfBlock(a: uint16, vs: seq<int16>, rest: seq<uint8>)
    requires |vs| <= MAX_PARAM_READS_WRITES
    ensures WriteValues(Area(ValuesPayload(a, vs), rest), |ValuesPayload(a, vs)|) == vs
  {
    var p := ValuesPayload(a, vs);
    var buf := Area(p, rest);
    assert buf[2..4] == p[2..4] == Le16(|vs|);
    Le16RoundTrip(|vs|);
    assert buf[4 .. 4 + 2 * |vs|] == p[4..] == Values(vs);
    ValuesRoundTrip(vs);
  }

  /**
   * As written, a frame that announces more values than it carries gets
   * the missing ones from whatever the receive buffer held beyond the
   * frame: a request for two values at address 0 carrying one value
   * writes a second value taken from the bytes after the frame, so two
   * buffers holding the same frame lead to different writes.
   */
  lemma WriteValuesAsWrittenReadsPastFrame(rest1: seq<uint8>, rest2: seq<uint8>)
    requires |rest1| >= 2 && |rest2| >= 2 && rest1[..2] == [1, 0] && rest2[..2] == [2, 0]
    ensures var p: seq<uint8> := [0, 0, 2, 0, 5, 0];
      && Area(p, rest1)[..|p|] == Area(p, rest2)[..|p|]
      && WriteValuesAsWritten(Area(p, rest1)) == [5, 1]
      && WriteValuesAsWritten(Area(p, rest2)) == [5, 2]
      && WriteValues(Area(p, rest1), |p|) == [5]
  {
    var p: seq<uint8> := [0, 0, 2, 0, 5, 0];
    var b1, b2 := Area(p, rest1), Area(p, rest2);
    assert b1[2..4] == [2, 0] && b2[2..4] == [2, 0];
    assert b1[6] == rest1[0] && b1[7] == rest1[1];
    assert b1[4..8] == [5, 0, 1, 0];
    assert b2[6] == rest2[0] && b2[7] == rest2[1];
    assert b2[4..8] == [5, 0, 2, 0];
    assert FromValues(b1[4..8]) == [FromI16(b1[4..6])] + FromValues(b1[6..8]);
    assert FromValues(b1[6..8]) == [FromI16(b1[6..8])] + FromValues(b1[8..8]);
    assert FromValues(b2[4..8]) == [FromI16(b2[4..6])] + FromValues(b2[6..8]);
    assert FromValues(b2[6..8]) == [FromI16(b2[6..8])] + FromValues(b2[8..8]);
    assert FromValues(b1[4..6]) == [FromI16(b1[4..6])] + FromValues(b1[6..6]);
  }

  // ---------------------------------------------------------------------
  // the writes of a write request

  /** What a run of unit writes leaves: everything `WriteReg` may touch, and the cursor. */
  datatype Writing = Writing(e: Effect, idx: nat, adr: uint16)

  /** A run whose values all fit their registers. */
  predicate Sound(w: Writing)
  {
    Fitting(w.e.vals) && |w.e.tasks| == SleepCtrl.NUMBER_TASKS
  }

  /**
   * `WriteReg(inp, a)`: nothing and an invalid cursor when no register
   * holds `a`; a run whose values no longer fit is left as it is.
   */
  function WriteAt(w: Writing, a: uint16, inp: int16): Writing
  {
    if !Sound(w) then w
    else match Lookup(a)
      case None => Writing(w.e, NMR_PARAMETERS, INVALID_REGADR)
      case Some(i) => Writing(WriteEffect(i, Offset(i, a), inp, w.e).(n := 0), i, a)
  }

  /** The 16-bit address `k` units after `a`. */
  function Addr(a: nat, k: nat): uint16
  {
    ((a + k) % 0x1_0000) as uint16
  }

  /** The values `vs` written to `a`, `a + 1`, ... one after the other. */
  function Writes(w: Writing, a: nat, vs: seq<int16>): Writing
    decreases |vs|
  {
    if vs == [] then w
    else WriteAt(Writes(w, a, vs[..|vs| - 1]), Addr(a, |vs| - 1), vs[|vs| - 1])
  }

  /** The writes of the first `i + 1` values: those of the first `i`, then value `i` to its address. */
  lemma WritesNext(w: Writing, a: nat, vs: seq<int16>, i: nat)
    requires i < |vs|
    ensures Writes(w, a, vs[..i + 1]) == WriteAt(Writes(w, a, vs[..i]), Addr(a, i), vs[i])
  {
    assert vs[..i + 1][..i] == vs[..i];
  }

  /** Writes to addresses no register holds change nothing but the cursor. */
  lemma {:induction false} WritesUnheld(w: Writing, a: nat, vs: seq<int16>)
    requires Sound(w) && vs != []
    requires forall k :: 0 <= k < |vs| ==> Lookup(Addr(a, k)).None?
    ensures Writes(w, a, vs) == Writing(w.e, NMR_PARAMETERS, INVALID_REGADR)
    decreases |vs|
  {
    var front := vs[..|vs| - 1];
    if front != [] {
      WritesUnheld(w, a, front);
    }
  }
}
