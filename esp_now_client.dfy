/**
 * `ESPNowClient` of esp_now_client.h: the feeder's side of the ESP-NOW
 * link. It scans for the master, answers its requests (parameter
 * definitions, register reads and writes, pairing), and on every wake-up
 * reports its register values, once its log, and finally that it is done.
 *
 * Every transfer is a sequence of messages sent with `CHECK_SEND`; its
 * outcome is stated with `RunF` of esp_now_link.dfy, and what the master
 * receives with `Data` of the delivered frames. A scan sets `WiFiKanal` to
 * 1: a transfer leaves the registers as they were, or with that register
 * retuned (`Retuned`).
 */
module EspNowClient {
  import opened Ints
  import opened ParamTypes
  import opened ParamTable
  import opened Parameters
  import opened ParamValues
  import SleepCtrl
  import opened FeederEvents
  import opened RegisterAccess
  import opened EspNowCtrl
  import opened EspNowLink
  import opened EspNowFrames
  import opened EspNowData
  import SystemLog
  import Weight

  /** The retry count `SendLogsViaEspNow` passes to every log message. */
  const LOG_RETRIES: uint8 := 5

  /** `param_defs_send`, `first_send`, `send_data_before_sleep`. */
  datatype Flags = Flags(paramDefsSend: bool, firstSend: bool, sendDataBeforeSleep: bool)

  /** The registers the client reads or sets have the classes it relies on. */
  lemma ClientRegisters()
    ensures Def(MasterMacAdresa).kind == MacAddr
    ensures Def(WiFiKanal).kind == U16 && Def(StavZarizeni).kind == U16
    ensures Def(PeriodaKomunikace).kind == U16 && Def(ResetReason).kind == U16
  {
  }

  /** Bank `r` is `r0`, with the channel register set to 1 if a scan has run. */
  predicate Retuned(r0: Bank, scanned: bool, r: Bank)
    requires Fitting(r0.vals)
  {
    r == if scanned then Tune(r0) else r0
  }

  /** A transfer without a scan leaves a bank that a scan has already tuned as it is. */
  lemma Untouched(r0: Bank, scanned: bool)
    requires Fitting(r0.vals) && (scanned ==> r0.vals[WiFiKanal] == Num(1))
    ensures Retuned(r0, scanned, r0)
  {
  }

  /** Two transfers one after the other retune at most once. */
  lemma RetunedTrans(r0: Bank, s1: bool, r1: Bank, s2: bool, r2: Bank)
    requires Fitting(r0.vals) && Fitting(r1.vals)
    requires Retuned(r0, s1, r1) && Retuned(r1, s2, r2) && (s1 ==> s2)
    ensures Retuned(r0, s2, r2)
  {
    if s1 {
      TuneTwice(r0);
    }
  }

  /** The wire state a `CHECK_SEND` leaves has seen a scan if the one before it had. */
  lemma AfterKeepsScanned(w: Wire, scan: Option<bool>, l: Link)
    ensures w.scanned ==> After(w, scan, l).scanned
    ensures After(w, scan, l).scanned <==> w.scanned || scan.Some?
  {
  }

  /** A `SendMessage` of `m` adds to `Data` its data frame if it was delivered. */
  lemma DataOfSend(before: seq<Sent>, peer: Mac, m: Msg, ok: bool)
    ensures Data(before + (if ok then Transmission(peer, m.kind, m.payload) else []))
      == Data(before) + (if ok then DataFrame(peer, m) else [])
  {
    if ok {
      DataOfTransmission(before, peer, m);
    } else {
      assert before + [] == before;
    }
  }

  /**
   * One message more after a transfer that delivered everything so far:
   * the frames delivered grow by its data frame exactly when `CHECK_SEND`
   * delivers it, as `Delivers` of the longer transfer says.
   */
  lemma NextData(w0: Wire, peer: Mac, done: seq<Msg>, m: Msg, d0: seq<Sent>, d1: seq<Sent>, d2: seq<Sent>)
    requires RunF(w0, done).ok && d1 == d0 + Delivers(w0, peer, done)
    requires var c := CheckSendF(RunF(w0, done).w.link, m.retries);
      d2 == d1 + (if c.ok then DataFrame(peer, m) else [])
    ensures d2 == d0 + Delivers(w0, peer, done + [m])
  {
    MessageStep(w0, peer, done, m);
    DeliversAll(w0, peer, done);
  }

  /**
   * A transfer of `p` that succeeded, then a transfer of `rest` from the
   * state it left: together they are the transfer of `p + rest`, the peer
   * has got the frames of both, and a scan in the first part stays in the
   * record.
   */
  lemma Chain(w0: Wire, peer: Mac, p: seq<Msg>, rest: seq<Msg>, d0: seq<Sent>, d1: seq<Sent>, d2: seq<Sent>)
    requires RunF(w0, p).ok && d1 == d0 + Delivers(w0, peer, p)
    requires d2 == d1 + Delivers(RunF(w0, p).w, peer, rest)
    ensures var o := RunF(RunF(w0, p).w, rest);
      RunF(w0, p + rest).ok == o.ok && RunF(w0, p + rest).w == o.w
    ensures d2 == d0 + Delivers(w0, peer, p + rest)
    ensures RunF(w0, p).w.scanned ==> RunF(w0, p + rest).w.scanned
  {
    ChainRun(w0, p, rest);
    ChainData(w0, peer, p, rest, d0, d1, d2);
  }

  /** Concatenation groups either way. */
  lemma Associative<T>(a: seq<T>, b: seq<T>, c: seq<T>)
    ensures (a + b) + c == a + (b + c)
  {
  }

  /** The state and result of a transfer in two parts. */
  lemma ChainRun(w0: Wire, p: seq<Msg>, rest: seq<Msg>)
    requires RunF(w0, p).ok
    ensures var o := RunF(RunF(w0, p).w, rest);
      RunF(w0, p + rest).ok == o.ok && RunF(w0, p + rest).w == o.w
    ensures RunF(w0, p).w.scanned ==> RunF(w0, p + rest).w.scanned
  {
    var w1 := RunF(w0, p).w;
    RunAppend(w0, p, rest);
    if w1.scanned {
      RunKeepsScanned(w1, rest);
    }
  }

  /** The frames delivered by a transfer in two parts. */
  lemma ChainData(w0: Wire, peer: Mac, p: seq<Msg>, rest: seq<Msg>, d0: seq<Sent>, d1: seq<Sent>, d2: seq<Sent>)
    requires RunF(w0, p).ok && d1 == d0 + Delivers(w0, peer, p)
    requires d2 == d1 + Delivers(RunF(w0, p).w, peer, rest)
    ensures d2 == d0 + Delivers(w0, peer, p + rest)
  {
    var s, e := Sends(peer, p), Delivers(RunF(w0, p).w, peer, rest);
    assert Delivers(w0, peer, p) == s by {
      DeliversAll(w0, peer, p);
    }
    assert Delivers(w0, peer, p + rest) == s + e by {
      DeliversAppend(w0, peer, p, rest);
    }
    Associative(d0, s, e);
  }

  /** The messages of `sendParamDefs`: the `Par_ESPNow` definitions in table order, five to a message. */
  function DefsPlan(): (plan: seq<Msg>)
    ensures forall k :: 0 <= k < |plan| ==> plan[k].kind == MSG_GET_PARAM_DEFS_RESPONSE && plan[k].retries == SEND_RETRIES as nat
  {
    Plan(MSG_GET_PARAM_DEFS_RESPONSE, SEND_RETRIES as nat, Frames(DefsFrame, 0, EspEntries(NMR_PARAMETERS), MAX_PARAM_DEFS))
  }

  /** Every chunk of at most `b` elements makes a payload that fits in a frame. */
  ghost predicate Framed<T(!new)>(f: (int, seq<T>) -> seq<uint8>, b: nat)
  {
    forall p: int, c: seq<T> :: |c| <= b ==> |f(p, c)| <= MAX_PAYLOAD_SIZE
  }

  /** A definitions message fits in a frame. */
  lemma DefsFit()
    ensures Framed(DefsFrame, MAX_PARAM_DEFS)
  {
    forall p: int, es: seq<DefEntry> | |es| <= MAX_PARAM_DEFS
      ensures |DefsFrame(p, es)| <= MAX_PAYLOAD_SIZE
    {
      assert |DefsFrame(p, es)| == DEF_SIZE * |es| + 1;
    }
  }

  /** The messages `readParamsRequestHandler` sends for the units `outs` read from `a` on, 118 to a message. */
  function ValuesPlan(a: nat, outs: seq<int16>): (plan: seq<Msg>)
    ensures forall k :: 0 <= k < |plan| ==> plan[k].kind == MSG_READ_PARAM_RESPONSE && plan[k].retries == SEND_RETRIES as nat
  {
    Plan(MSG_READ_PARAM_RESPONSE, SEND_RETRIES as nat, Frames(ValuesFrame, a, outs, MAX_PARAM_READS_WRITES))
  }

  /** The messages of `sendParamValues`: the units of `SpanReads`, from the lowest `Par_ESPNow` address on. */
  function SpanPlan(vals: seq<RegVal>, c: Cursor): seq<Msg>
    requires Fitting(vals)
  {
    ValuesPlan(SPAN_FIRST, SpanReads(vals, c).outs)
  }

  /** The answer to a read request: the responses sent and the cursor the reads leave. */
  datatype Reply = Reply(plan: seq<Msg>, c: Cursor)

  /** The read response carrying the units `outs` read from address `a` on. */
  function ValuesMsg(a: nat, outs: seq<int16>): Msg
  {
    Msg(MSG_READ_PARAM_RESPONSE, ValuesFrame(a, outs), SEND_RETRIES as nat)
  }

  /** The `CHECK_SEND` of a read response from wire state `w`. */
  function SendValues(w: Wire): Checked
  {
    CheckSendF(w.link, SEND_RETRIES as nat)
  }

  /** The registers after a `CHECK_SEND` that ran a scan, or not. */
  function TuneAfter(r: Bank, scan: Option<bool>): (r': Bank)
    requires Fitting(r.vals)
    ensures Fitting(r'.vals)
    ensures scan.Some? ==> r'.vals[WiFiKanal] == Num(1)
  {
    if scan.Some? then Tune(r) else r
  }

  /**
   * `readParamsRequestHandler` for `n` units from `a` on, from wire state
   * `w` over registers `r`: it reads up to 118 units, sends them with
   * `CHECK_SEND`, and returns at the first response that is given up on;
   * a scan in one `CHECK_SEND` sets `WiFiKanal` before the next units are
   * read.
   */
  function Answer(w: Wire, r: Bank, c: Cursor, a: nat, n: nat): (t: Reply)
    requires Fitting(r.vals) && a + n <= 0x1_0000
    decreases n
  {
    if n == 0 then Reply([], c)
    else
      var k := if n < MAX_PARAM_READS_WRITES then n else MAX_PARAM_READS_WRITES;
      var rd := Reads(r.vals, c, a, k);
      var s := SendValues(w);
      if !s.ok then Reply([ValuesMsg(a, rd.outs)], rd.c)
      else
        var rest := Answer(After(w, s.scan, s.link), TuneAfter(r, s.scan), rd.c, a + k, n - k);
        Reply([ValuesMsg(a, rd.outs)] + rest.plan, rest.c)
  }

  /** A request of at most 118 units is answered by one response, whatever the link does. */
  lemma AnswerSingle(w: Wire, r: Bank, c: Cursor, a: nat, n: nat)
    requires Fitting(r.vals) && a + n <= 0x1_0000 && n <= MAX_PARAM_READS_WRITES
    ensures var rd := Reads(r.vals, c, a, n);
      Answer(w, r, c, a, n) == Reply(ValuesPlan(a, rd.outs), rd.c)
  {
    var rd := Reads(r.vals, c, a, n);
    if n > 0 {
      var s, a1 := SendValues(w), a + n;
      if s.ok {
        var rest := Answer(After(w, s.scan, s.link), TuneAfter(r, s.scan), rd.c, a1, 0);
        assert [ValuesMsg(a, rd.outs)] + rest.plan == [ValuesMsg(a, rd.outs)];
      }
      ValuesPlanSingle(a, rd.outs);
    }
  }

  /** `sendParamValues` asks for the 36 units of the span: one response, the `SpanPlan`. */
  lemma SpanAnswer(w: Wire, r: Bank, c: Cursor, t: Reply)
    requires Fitting(r.vals) && t == Answer(w, r, c, SPAN_FIRST, SPAN_LAST - SPAN_FIRST)
    ensures t == Reply(SpanPlan(r.vals, c), SpanReads(r.vals, c).c)
  {
    AnswerSingle(w, r, c, SPAN_FIRST, SPAN_LAST - SPAN_FIRST);
  }

  /** At most 118 units go in one response. */
  lemma ValuesPlanSingle(a: nat, outs: seq<int16>)
    requires 0 < |outs| <= MAX_PARAM_READS_WRITES
    ensures ValuesPlan(a, outs) == [ValuesMsg(a, outs)]
  {
    assert Frames(ValuesFrame, a, outs, MAX_PARAM_READS_WRITES) == [ValuesFrame(a, outs)];
  }

  /** Responses for 118 units and then more: the first response, then those of the rest. */
  lemma ValuesPlanCons(a: nat, xs: seq<int16>, ys: seq<int16>)
    requires |xs| == MAX_PARAM_READS_WRITES && ys != []
    ensures ValuesPlan(a, xs + ys) == [ValuesMsg(a, xs)] + ValuesPlan(a + |xs|, ys)
  {
    var k := MAX_PARAM_READS_WRITES;
    var zs := xs + ys;
    assert zs[..k] == xs && zs[k..] == ys;
    var f := Frames(ValuesFrame, a + k, ys, k);
    assert Frames(ValuesFrame, a, zs, k) == [ValuesFrame(a, xs)] + f;
    PlanAppend(MSG_READ_PARAM_RESPONSE, SEND_RETRIES as nat, [ValuesFrame(a, xs)], f);
  }

  /**
   * The reads of more than 118 units: the first 118 `p`, then the rest `q`
   * from `a1` on, and their responses.
   */
  lemma ValuesPlanSplit(r: Bank, c: Cursor, a: nat, n: nat, p: Readout, q: Readout, a1: nat, n1: nat)
    requires Fitting(r.vals) && a + n <= 0x1_0000 && 118 < n && a1 == a + 118 && n1 == n - 118
    requires p == Reads(r.vals, c, a, 118) && q == Reads(r.vals, p.c, a1, n1)
    ensures Reads(r.vals, c, a, n) == Readout(p.outs + q.outs, q.c)
    ensures ValuesPlan(a, p.outs + q.outs) == [ValuesMsg(a, p.outs)] + ValuesPlan(a1, q.outs)
  {
    ReadsAppend(r.vals, c, a, 118, n1, n, a1, p, q);
    ValuesPlanCons(a, p.outs, q.outs);
  }

  /** The reads after a scan, of a run of addresses that misses the channel register, are those before it. */
  lemma ReadsRetuned(r: Bank, scan: Option<bool>, c: Cursor, a: nat, n: nat)
    requires Fitting(r.vals) && a + n <= 0x1_0000
    requires a + n <= CHANNEL_ADR || CHANNEL_ADR < a
    ensures Reads(TuneAfter(r, scan).vals, c, a, n) == Reads(r.vals, c, a, n)
  {
    if scan.Some? {
      ReadsTune(r.vals, c, a, n);
    }
  }

  /**
   * The first response of an answer, read as `rd` and delivered from `w`,
   * leaving the link `w1` and the registers `r1`: the rest of the answer
   * goes on from there, at `a1` with `n1` units left.
   */
  lemma AnswerStep(w: Wire, r: Bank, c: Cursor, a: nat, n: nat, k: nat, rd: Readout, w1: Wire, r1: Bank, a1: nat, n1: nat)
    requires Fitting(r.vals) && a + n <= 0x1_0000 && 0 < n
    requires k == (if n < MAX_PARAM_READS_WRITES then n else MAX_PARAM_READS_WRITES)
    requires rd == Reads(r.vals, c, a, k) && a1 == a + k && n1 == n - k
    requires w1 == After(w, SendValues(w).scan, SendValues(w).link) && r1 == TuneAfter(r, SendValues(w).scan)
    requires SendValues(w).ok
    ensures Answer(w, r, c, a, n) == Reply([ValuesMsg(a, rd.outs)] + Answer(w1, r1, rd.c, a1, n1).plan, Answer(w1, r1, rd.c, a1, n1).c)
  {
  }

  /** A first response that was given up on is the whole answer. */
  lemma AnswerStop(w: Wire, r: Bank, c: Cursor, a: nat, n: nat, k: nat, rd: Readout)
    requires Fitting(r.vals) && a + n <= 0x1_0000 && 0 < n
    requires k == (if n < MAX_PARAM_READS_WRITES then n else MAX_PARAM_READS_WRITES)
    requires rd == Reads(r.vals, c, a, k)
    requires !SendValues(w).ok
    ensures Answer(w, r, c, a, n) == Reply([ValuesMsg(a, rd.outs)], rd.c)
  {
  }

  /**
   * The responses of `t` are the first of `full`, and sent from `w` they
   * end as `full` would; if `full` would be delivered whole, `t` is all of
   * it, leaving cursor `c`.
   */
  ghost predicate Cut(w: Wire, t: Reply, full: seq<Msg>, c: Cursor)
  {
    && |t.plan| <= |full| && t.plan == full[..|t.plan|]
    && RunF(w, t.plan) == RunF(w, full)
    && (RunF(w, full).ok ==> t == Reply(full, c))
  }

  /** A first response that was delivered, before a cut transfer from where it left the link. */
  lemma CutCons(w: Wire, w1: Wire, m: Msg, t: Reply, tail: seq<Msg>, c: Cursor)
    requires RunF(w, [m]).ok && RunF(w, [m]).w == w1 && Cut(w1, t, tail, c)
    ensures Cut(w, Reply([m] + t.plan, t.c), [m] + tail, c)
  {
    assert ([m] + tail)[..1 + |t.plan|] == [m] + t.plan;
    RunAppend(w, [m], t.plan);
    RunAppend(w, [m], tail);
  }

  /** A first response that was given up on ends the transfer. */
  lemma CutFirst(w: Wire, m: Msg, tail: seq<Msg>, c: Cursor)
    requires !RunF(w, [m]).ok
    ensures Cut(w, Reply([m], c), [m] + tail, c)
  {
    assert ([m] + tail)[..1] == [m];
    RunStops(w, [m], tail);
  }

  /** A read response sent from `w`: the transfer goes on exactly when `SendValues` delivers it. */
  lemma ValuesFirst(w: Wire, m: Msg)
    requires m.retries == SEND_RETRIES as nat
    ensures RunF(w, [m]).ok == SendValues(w).ok
    ensures RunF(w, [m]).w == After(w, SendValues(w).scan, SendValues(w).link)
  {
    RunSnoc(w, [], m);
    assert [] + [m] == [m];
  }

  /**
   * Read requests that miss the channel register: the responses sent are
   * the first of those of all the units read at once, with the same
   * outcome; when every response was delivered they are all of them and
   * the cursor is the one the reads leave.
   */
  lemma {:induction false} AnswerUntuned(w: Wire, r: Bank, c: Cursor, a: nat, n: nat)
    requires Fitting(r.vals) && a + n <= 0x1_0000
    requires a + n <= CHANNEL_ADR || CHANNEL_ADR < a
    ensures var rd := Reads(r.vals, c, a, n);
      Cut(w, Answer(w, r, c, a, n), ValuesPlan(a, rd.outs), rd.c)
    decreases n, 2
  {
    if n <= 118 {
      AnswerSingle(w, r, c, a, n);
      var full := ValuesPlan(a, Reads(r.vals, c, a, n).outs);
      assert full[..|full|] == full;
    } else {
      var a1, n1 := a + 118, n - 118;
      var p := Reads(r.vals, c, a, 118);
      var q := Reads(r.vals, p.c, a1, n1);
      ValuesPlanSplit(r, c, a, n, p, q, a1, n1);
      if SendValues(w).ok {
        AnswerJoin(w, r, c, a, n, p, q, After(w, SendValues(w).scan, SendValues(w).link), a1, n1);
      } else {
        var m := ValuesMsg(a, p.outs);
        AnswerStop(w, r, c, a, n, 118, p);
        ValuesFirst(w, m);
        CutFirst(w, m, ValuesPlan(a1, q.outs), p.c);
      }
    }
  }

  /** The first response delivered, joined to the cut transfer of the rest from `a1` on. */
  lemma {:induction false} AnswerJoin(w: Wire, r: Bank, c: Cursor, a: nat, n: nat, p: Readout, q: Readout, w1: Wire, a1: nat, n1: nat)
    requires Fitting(r.vals) && a + n <= 0x1_0000 && 118 < n && a1 == a + 118 && n1 == n - 118
    requires a + n <= CHANNEL_ADR || CHANNEL_ADR < a
    requires SendValues(w).ok && w1 == After(w, SendValues(w).scan, SendValues(w).link)
    requires p == Reads(r.vals, c, a, 118) && q == Reads(r.vals, p.c, a1, n1)
    ensures Cut(w, Answer(w, r, c, a, n), [ValuesMsg(a, p.outs)] + ValuesPlan(a1, q.outs), q.c)
    decreases n, 1
  {
    var m := ValuesMsg(a, p.outs);
    var r1 := TuneAfter(r, SendValues(w).scan);
    var rest := Answer(w1, r1, p.c, a1, n1);
    AnswerStep(w, r, c, a, n, 118, p, w1, r1, a1, n1);
    CutRest(w, r, p.c, a1, n1, q, w1, m, rest, Answer(w, r, c, a, n));
  }

  /**
   * A delivered first response `m`, then the responses `rest` sent from
   * where it left the link and the registers, for the units from `a` on
   * whose reads from cursor `d` give `q`: together they are the reply `t`.
   */
  lemma {:induction false} CutRest(w: Wire, r: Bank, d: Cursor, a: nat, n: nat, q: Readout, w1: Wire, m: Msg, rest: Reply, t: Reply)
    requires Fitting(r.vals) && a + n <= 0x1_0000
    requires a + n <= CHANNEL_ADR || CHANNEL_ADR < a
    requires SendValues(w).ok && w1 == After(w, SendValues(w).scan, SendValues(w).link)
    requires m.retries == SEND_RETRIES as nat
    requires q == Reads(r.vals, d, a, n) && rest == Answer(w1, TuneAfter(r, SendValues(w).scan), d, a, n)
    requires t == Reply([m] + rest.plan, rest.c)
    ensures Cut(w, t, [m] + ValuesPlan(a, q.outs), q.c)
    decreases n + 118, 0
  {
    AnswerTail(w1, r, SendValues(w).scan, d, a, n, q);
    ValuesFirst(w, m);
    CutCons(w, w1, m, rest, ValuesPlan(a, q.outs), q.c);
  }

  /**
   * The responses after a first one that was delivered, from wire state
   * `w1` and the registers as its scan left them, from cursor `d` on,
   * where the reads before the scan give `q`.
   */
  lemma {:induction false} AnswerTail(w1: Wire, r: Bank, scan: Option<bool>, d: Cursor, a: nat, n: nat, q: Readout)
    requires Fitting(r.vals) && a + n <= 0x1_0000
    requires a + n <= CHANNEL_ADR || CHANNEL_ADR < a
    requires q == Reads(r.vals, d, a, n)
    ensures Cut(w1, Answer(w1, TuneAfter(r, scan), d, a, n), ValuesPlan(a, q.outs), q.c)
    decreases n, 3
  {
    ReadsRetuned(r, scan, d, a, n);
    AnswerUntuned(w1, TuneAfter(r, scan), d, a, n);
  }

  /** A message without payload, sent with the default retry count. */
  function Signal(kind: uint8): Msg
  {
    Msg(kind, [], SEND_RETRIES as nat)
  }

  /**
   * `ResetReason.Get() != rst_Deepsleep && !param_defs_send`: a report
   * starts with the definitions after any reset but a wake-up from deep
   * sleep, until they have been tried once.
   */
  function DefsDue(vals: seq<RegVal>, sent: bool): bool
    requires |vals| == NMR_PARAMETERS
  {
    !sent && vals[ResetReason] != Num(rst_Deepsleep)
  }

  /** The definitions a report starts with, if they are due. */
  function DefsPart(defs: bool): seq<Msg>
  {
    if defs then DefsPlan() else []
  }

  /** The time synchronisation request and the logs of the first report since `Init`. */
  function FirstPart(first: bool, logs: seq<Msg>): seq<Msg>
  {
    if first then [Signal(MSG_TIME_SYNC_REQUEST)] + logs else []
  }

  /**
   * The state of a client as the master and the registers see it: the
   * wire, the register bank, the data frames delivered, the read cursor
   * and the flags.
   */
  datatype Snapshot = Snapshot(w: Wire, r: Bank, d: seq<Sent>, c: Cursor, f: Flags)

  /**
   * What a report of `Task` to `peer`, begun in state `s0`, has done when
   * it leaves `s1` with result `res`, `logs` being the messages of the
   * log: the definitions if due, the register values, on the first report
   * since `Init` the time synchronisation request and the logs, then
   * `MSG_TRANSMIT_DONE`, as far as `CHECK_SEND` got through.
   * `param_defs_send` is set once the definitions are tried, `first_send`
   * once the logs got through, and the values are read unless the
   * definitions failed.
   */
  ghost predicate Reported(s0: Snapshot, logs: seq<Msg>, peer: Mac, res: bool, s1: Snapshot)
    requires Fitting(s0.r.vals)
  {
    var defs := DefsDue(s0.r.vals, s0.f.paramDefsSend);
    var body := ReportBody(defs, s0.r.vals, s0.c, !s0.f.firstSend, logs);
    var plan := body + [Signal(MSG_TRANSMIT_DONE)];
    && RunF(s0.w, plan).w == s1.w && s1.d == s0.d + Delivers(s0.w, peer, plan)
    && Retuned(s0.r, s1.w.scanned, s1.r) && res == RunF(s0.w, plan).ok
    && s1.f == s0.f.(paramDefsSend := s0.f.paramDefsSend || defs, firstSend := s0.f.firstSend || RunF(s0.w, body).ok)
    && s1.c == if RunF(s0.w, DefsPart(defs)).ok then SpanReads(s0.r.vals, s0.c).c else s0.c
  }

  /**
   * A report is the part up to the register values, which leaves `s1`
   * with result `ok`, followed by the rest, which leaves `s2`.
   */
  lemma ReportSteps(s0: Snapshot, s1: Snapshot, s2: Snapshot, logs: seq<Msg>, peer: Mac, ok: bool, res: bool)
    requires Fitting(s0.r.vals)
    requires var defs := DefsDue(s0.r.vals, s0.f.paramDefsSend);
      && s1.f == s0.f.(paramDefsSend := s0.f.paramDefsSend || defs)
      && s1.c == (if RunF(s0.w, DefsPart(defs)).ok then SpanReads(s0.r.vals, s0.c).c else s0.c)
      && ok == RunF(s0.w, DefsPart(defs) + SpanPlan(s0.r.vals, s0.c)).ok
    requires var done := DefsPart(DefsDue(s0.r.vals, s0.f.paramDefsSend)) + SpanPlan(s0.r.vals, s0.c);
      var body := done + FirstPart(!s1.f.firstSend, logs);
      var plan := body + [Signal(MSG_TRANSMIT_DONE)];
      && RunF(s0.w, plan).w == s2.w && s2.d == s0.d + Delivers(s0.w, peer, plan)
      && Retuned(s0.r, s2.w.scanned, s2.r) && res == RunF(s0.w, plan).ok
      && s2.c == s1.c && s2.f == s1.f.(firstSend := s1.f.firstSend || RunF(s0.w, body).ok)
    ensures Reported(s0, logs, peer, res, s2)
  {
    var defs := DefsDue(s0.r.vals, s0.f.paramDefsSend);
    Associative(DefsPart(defs), SpanPlan(s0.r.vals, s0.c), FirstPart(!s0.f.firstSend, logs));
    assert s1.f.firstSend == s0.f.firstSend;
    var body := ReportBody(defs, s0.r.vals, s0.c, !s0.f.firstSend, logs);
    assert body == DefsPart(defs) + SpanPlan(s0.r.vals, s0.c) + FirstPart(!s1.f.firstSend, logs);
  }

  /** A report of `Task` up to its closing `MSG_TRANSMIT_DONE`. */
  function ReportBody(defs: bool, vals: seq<RegVal>, c: Cursor, first: bool, logs: seq<Msg>): seq<Msg>
    requires Fitting(vals)
  {
    DefsPart(defs) + (SpanPlan(vals, c) + FirstPart(first, logs))
  }

  /** The messages of `SendLogsViaEspNow`: the byte stream of both log files, older first, 230 bytes to a message. */
  function LogPlan(files: seq<seq<SystemLog.Record>>, w: nat): (plan: seq<Msg>)
    requires |files| == 2 && w < 2
    ensures forall k :: 0 <= k < |plan| ==> plan[k].kind == MSG_GET_LOG_RESPONSE && plan[k].retries == LOG_RETRIES as nat
  {
    Plan(MSG_GET_LOG_RESPONSE, LOG_RETRIES as nat, Frames(LogPayload, 0, SystemLog.Stream(files, w), LOG_CHUNK))
  }

  /** A read response fits in a frame. */
  lemma ValuesFit()
    ensures Framed(ValuesFrame, MAX_PARAM_READS_WRITES)
  {
  }

  /** A log message fits in a frame. */
  lemma LogFit()
    ensures Framed(LogPayload, LOG_CHUNK)
  {
  }

  /** The chunk of `xs` that starts at `pos`, after the chunks `cs` that cover `xs[..pos]`. */
  lemma NextChunk<T>(xs: seq<T>, b: nat, cs: seq<seq<T>>, pos: nat, n: nat, pos': nat, c: seq<T>, rest: seq<T>)
    requires b > 0 && pos < |xs| && Full(cs, b) && Flatten(cs) == xs[..pos]
    requires n == Min(b, |xs| - pos) && pos' == pos + n && c == xs[pos..pos'] && rest == xs[pos'..]
    ensures |Flatten(cs)| == pos && 0 < |c| <= b && (rest != [] ==> |c| == b)
    ensures Flatten(cs) + c + rest == xs && Flatten(cs + [c]) == xs[..pos']
    ensures Flatten(cs + [c]) == Flatten(cs) + c
    ensures pos' < |xs| ==> Full(cs + [c], b)
  {
    FlattenSnoc(cs, c);
    assert Flatten(cs) + c == xs[..pos'];
    assert xs[..pos'] + rest == xs;
  }

  /** The message of chunk `c`, whose payload `f` made at position `at`, follows those of the chunks `cs` before it. */
  lemma ChunkMsg<T>(kind: uint8, r: nat, f: (int, seq<T>) -> seq<uint8>, a: int, b: nat, cs: seq<seq<T>>, c: seq<T>,
                    at: int, payload: seq<uint8>, done: seq<Msg>, part: seq<Msg>)
    requires b > 0 && Full(cs, b) && 0 < |c| <= b
    requires at == a + |Flatten(cs)| && payload == f(at, c)
    requires done == Plan(kind, r, Frames(f, a, Flatten(cs), b)) && part == Plan(kind, r, Frames(f, a, Flatten(cs) + c, b))
    ensures part == done + [Msg(kind, payload, r)]
  {
    PlanOfChunk(kind, r, f, a, b, cs, c);
  }

  /** The state a run of writes works on, read off the event word and its registers. */
  function WritingOf(q: EventQueue): Writing
    reads q, q.regs, q.tasks
  {
    Writing(Before(q), q.regs.activeIdx, q.regs.activeRegAdr)
  }

  /** One `WriteReg(values[i], i + regadr)` of a write request; its unit count is not used. */
  method WriteNext(q: EventQueue, a: uint16, vs: seq<int16>, i: nat, ghost w0: Writing)
    requires q.Valid() && i < |vs| && WritingOf(q) == Writes(w0, a as nat, vs[..i])
    modifies q, q.regs, q.tasks
    ensures q.Valid() && WritingOf(q) == Writes(w0, a as nat, vs[..i + 1])
  {
    WritesNext(w0, a as nat, vs, i);
    WriteOne(q, Addr(a as nat, i), vs[i]);
  }

  /** `WriteReg(inp, a)`, as a step of a run of writes. */
  method WriteOne(q: EventQueue, a: uint16, inp: int16)
    requires q.Valid()
    modifies q, q.regs, q.tasks
    ensures q.Valid() && WritingOf(q) == WriteAt(old(WritingOf(q)), a, inp)
  {
    assert Sound(WritingOf(q));
    var _ := WriteReg(q, inp, a);
  }

  /**
   * The loop of `writeParamsRequestHandler`: `WriteReg(values[i], i +
   * regadr)` for each value in turn, the address taken modulo 2^16.
   */
  method WriteUnits(q: EventQueue, a: uint16, vs: seq<int16>)
    requires q.Valid()
    modifies q, q.regs, q.tasks
    ensures q.Valid() && WritingOf(q) == Writes(old(WritingOf(q)), a as nat, vs)
  {
    ghost var w0 := WritingOf(q);
    var i := 0;
    while i < |vs|
      invariant i <= |vs| && q.Valid()
      invariant WritingOf(q) == Writes(w0, a as nat, vs[..i])
    {
      WriteNext(q, a, vs, i, w0);
      i := i + 1;
    }
    assert vs[..i] == vs;
  }

  // ---------------------------------------------------------------------
  // register changes of the pairing handlers

  /** `Set(v)` of the numeric register `i` on a bank. */
  function SetBank(b: Bank, i: nat, v: int32): (r: Bank)
    requires Fitting(b.vals) && i < NMR_PARAMETERS && IsNumeric(Def(i).kind)
    ensures Fitting(r.vals)
  {
    Bank(SetNumVals(b.vals, i, v), SetNumSaved(b.vals, b.saved, i, v))
  }

  /** `MasterMacAdresa.Set(mac)` on a bank: the value and its saved copy. */
  function MacBank(b: Bank, mac: Mac): (r: Bank)
    requires Fitting(b.vals)
    ensures Fitting(r.vals)
  {
    Bank(b.vals[MasterMacAdresa := Mac(mac)], b.saved[MasterMacAdresa := Mac(mac)])
  }

  /** The registers after `StartPairing`: the master forgotten and the pairing mode switched. */
  function PairingBank(b: Bank): (r: Bank)
    requires Fitting(b.vals)
    ensures Fitting(r.vals)
  {
    SetBank(MacBank(b, BROADCAST), StavZarizeni, Toggled(b.vals[StavZarizeni]))
  }

  /** The registers after a `PAIR_STATE_PAIRED` response from `mac` on `channel`. */
  function AdoptBank(b: Bank, mac: Mac, channel: uint8): (r: Bank)
    requires Fitting(b.vals)
    ensures Fitting(r.vals)
  {
    SetBank(MacBank(b, mac), WiFiKanal, channel as int32)
  }

  /** `StavZarizeni` after `StartPairing`: pairing mode is switched off if on, on otherwise. */
  function Toggled(mode: RegVal): int32
  {
    if mode == Num(Parovani) then NormalniMod as int32 else Parovani as int32
  }

  /**
   * What a `PAIR_STATE_PAIRED` response from `mac` has done, in state
   * `s0` with `master` the master address before it: the master is
   * adopted with its channel and the response counts as heard; if the
   * client was unpaired it goes to `Sparovano` and sends `mac` the
   * definitions, a time synchronisation request, the register values and
   * `MSG_TRANSMIT_DONE`, as far as `CHECK_SEND` got through.
   */
  ghost predicate Paired(s0: Snapshot, master: Mac, mac: Mac, channel: uint8, res: bool, s1: Snapshot)
    requires Fitting(s0.r.vals)
  {
    var r1 := AdoptBank(s0.r, mac, channel);
    var w1 := s0.w.(got := true, scanned := s0.w.scanned && r1.vals[WiFiKanal] == Num(1));
    if master != BROADCAST then res && s1 == s0.(w := w1, r := r1)
    else Introduced(s0.(w := w1, r := SetBank(r1, StavZarizeni, Sparovano as int32)), mac, res, s1)
  }

  /**
   * The introduction to a new master `peer` that a paired response from
   * an unpaired client starts in state `s0`, once `StavZarizeni` is
   * `Sparovano`: the definitions, a time synchronisation request, the
   * register values and `MSG_TRANSMIT_DONE`, as far as `CHECK_SEND` got
   * through; the values are read unless an earlier message failed.
   */
  ghost predicate Introduced(s0: Snapshot, peer: Mac, res: bool, s1: Snapshot)
    requires Fitting(s0.r.vals)
  {
    var head := DefsPlan() + [Signal(MSG_TIME_SYNC_REQUEST)];
    var plan := head + SpanPlan(s0.r.vals, s0.c) + [Signal(MSG_TRANSMIT_DONE)];
    && RunF(s0.w, plan).w == s1.w && s1.d == s0.d + Delivers(s0.w, peer, plan)
    && Retuned(s0.r, s1.w.scanned, s1.r) && res == RunF(s0.w, plan).ok && s1.f == s0.f
    && s1.c == if RunF(s0.w, head).ok then SpanReads(s0.r.vals, s0.c).c else s0.c
  }

  /** Pairing with a new master remembers it and leaves the client paired, whatever the transfer after it does. */
  lemma PairedRemembers(s0: Snapshot, master: Mac, mac: Mac, channel: uint8, res: bool, s1: Snapshot)
    requires Fitting(s0.r.vals) && Paired(s0, master, mac, channel, res, s1)
    ensures s1.r.vals[MasterMacAdresa] == Mac(mac)
    ensures master == BROADCAST ==> s1.r.vals[StavZarizeni] == Num(Sparovano)
  {
    var r1 := AdoptBank(s0.r, mac, channel);
    if master == BROADCAST {
      var r := SetBank(r1, StavZarizeni, Sparovano as int32);
      assert r.vals[MasterMacAdresa] == Mac(mac) && r.vals[StavZarizeni] == Num(Sparovano);
    }
  }

  /** `PeriodaKomunikace_S.Get()`, the sleep time in seconds a `SleepPayload` carries. */
  function Period(vals: seq<RegVal>): uint32
    requires Fitting(vals)
  {
    ClientRegisters();
    assert Fits(Def(PeriodaKomunikace), vals[PeriodaKomunikace]);
    vals[PeriodaKomunikace].n as uint32
  }

  /** `WiFiKanal.Get()` passed to `SetChannel(uint8_t)`: the low byte. */
  function ChannelOf(vals: seq<RegVal>): uint8
    requires Fitting(vals)
  {
    ClientRegisters();
    assert Fits(Def(WiFiKanal), vals[WiFiKanal]);
    (vals[WiFiKanal].n % 0x100) as uint8
  }

  /**
   * What `Sleep` has done for a paired `master`, begun in state `s0`: the
   * register values if a write request asked for them (their outcome is
   * ignored), then one plain `SendMessage` of `MSG_SLEEP` with the
   * communication period, without a rescan.
   */
  ghost predicate Slept(s0: Snapshot, master: Mac, s1: Snapshot)
    requires Fitting(s0.r.vals)
  {
    var pre := if s0.f.sendDataBeforeSleep then SpanPlan(s0.r.vals, s0.c) else [];
    var o := RunF(s0.w, pre);
    var t := SendF(o.w.link, SEND_RETRIES as nat);
    var m := Msg(MSG_SLEEP, SleepPayload(Period(s0.r.vals)), SEND_RETRIES as nat);
    && s1.w == o.w.(link := t.link) && Retuned(s0.r, s1.w.scanned, s1.r)
    && s1.d == s0.d + Delivers(s0.w, master, pre) + (if t.ok then DataFrame(master, m) else [])
    && s1.f == s0.f && s1.c == if s0.f.sendDataBeforeSleep then SpanReads(s0.r.vals, s0.c).c else s0.c
  }

  /** What `ScanForMaster` has done, begun in state `s0`: the channel register set to 1 and a sweep from channel 1. */
  ghost predicate Scanned(s0: Snapshot, found: bool, s1: Snapshot)
    requires Fitting(s0.r.vals)
  {
    var s := ScanF(s0.w.link, 1);
    found == s.found && s1 == s0.(w := Wire(s.link, s.found, 1, true), r := Tune(s0.r))
  }

  /**
   * What the communication of `Task` has done, begun in state `s0` with
   * `master` the master address: a report to a paired master; unpaired,
   * a scan in pairing mode and nothing otherwise.
   */
  ghost predicate Communicated(s0: Snapshot, master: Mac, logs: seq<Msg>, res: bool, s1: Snapshot)
    requires Fitting(s0.r.vals)
  {
    if master != BROADCAST then Reported(s0, logs, master, res, s1)
    else if s0.r.vals[StavZarizeni] == Num(Parovani) then Scanned(s0, res, s1)
    else !res && s1 == s0
  }

  /**
   * `StartPairing` forgets the master and switches pairing mode: on
   * exactly when it was off, so that the next `Task` scans.
   */
  lemma PairingToggles(b: Bank)
    requires Fitting(b.vals)
    ensures var r := PairingBank(b);
      && r.vals[MasterMacAdresa] == Mac(BROADCAST)
      && (r.vals[StavZarizeni] == Num(Parovani) <==> b.vals[StavZarizeni] != Num(Parovani))
  {
    ClientRegisters();
    assert Fits(Def(StavZarizeni), b.vals[StavZarizeni]);
  }

  /**
   * What `pairResponseHandler` has done with the `PairResponsePayload`
   * `p` from `mac`: a paired response as `Paired` says; an initial or
   * expired one from the master itself sets the master back to the
   * broadcast address; any other state changes nothing. Only a failed
   * transfer returns false.
   */
  ghost predicate PairHandled(s0: Snapshot, master: Mac, mac: Mac, p: seq<uint8>, res: bool, s1: Snapshot)
    requires Fitting(s0.r.vals) && |p| >= 3
  {
    if p[2] == PAIR_STATE_PAIRED then Paired(s0, master, mac, p[1], res, s1)
    else if p[2] == PAIR_STATE_INITIAL_REQUEST || p[2] == PAIR_STATE_EXPIRED then
      res && s1 == s0.(r := if mac == master then MacBank(s0.r, BROADCAST) else s0.r)
    else res && s1 == s0
  }

  class Client {
    const radio: Radio
    /** The event word, and through it the registers and `active_tasks`. */
    const q: EventQueue
    const weight: Weight.Weight
    const log: SystemLog.Log
    /** The pairing replies to come: whether one has arrived by each look of a scan. */
    var heard: seq<bool>
    /** `gotMasterResponse`. */
    var got: bool
    var paramDefsSend: bool
    var firstSend: bool
    var sendDataBeforeSleep: bool
    /** Whether a scan has set `WiFiKanal` to 1 since that register was last set otherwise. */
    ghost var scanned: bool

    /** The objects shared with the rest of the firmware are consistent. */
    ghost predicate Shared()
      reads q, q.regs, q.tasks, weight, log
    {
      q.Valid() && weight.q == q && log.Valid() && log.tasks == q.tasks
    }

    ghost predicate Valid()
      reads this`scanned, q, q.regs, q.tasks, weight, log
    {
      Shared() && (scanned ==> q.regs.vals[WiFiKanal] == Num(1))
    }

    /** The link, `gotMasterResponse`, the radio channel, and whether a scan has run. */
    ghost function Air(): Wire
      reads this`heard, this`got, this`scanned, radio
    {
      Wire(Link(radio.statuses, heard), got, radio.channel, scanned)
    }

    ghost function Regs(): Bank
      reads q, q.regs
    {
      Bank(q.regs.vals, q.regs.saved)
    }

    ghost function Cur(): Cursor
      reads q, q.regs
    {
      Cursor(q.regs.latch, q.regs.activeIdx, q.regs.activeRegAdr)
    }

    ghost function Fl(): Flags
      reads this`paramDefsSend, this`firstSend, this`sendDataBeforeSleep
    {
      Flags(paramDefsSend, firstSend, sendDataBeforeSleep)
    }

    /** Everything a report or a request changes, as one value. */
    ghost function Snap(): Snapshot
      reads this, radio, q, q.regs
    {
      Snapshot(Air(), Regs(), Data(radio.delivered), Cur(), Fl())
    }

    /** `MasterMacAdresa.Get()`. */
    function MasterMac(): Mac
      requires q.regs.Valid()
      reads q, q.regs
    {
      ClientRegisters();
      assert Fits(Def(MasterMacAdresa), q.regs.vals[MasterMacAdresa]);
      q.regs.vals[MasterMacAdresa].b
    }

    constructor (r: Radio, events: EventQueue, w: Weight.Weight, l: SystemLog.Log, replies: seq<bool>)
      requires events.Valid() && w.q == events && l.Valid() && l.tasks == events.tasks
      ensures Valid() && radio == r && q == events && weight == w && log == l
      ensures heard == replies && !got && Fl() == Flags(false, false, false) && !scanned
    {
      radio := r;
      q := events;
      weight := w;
      log := l;
      heard := replies;
      got := false;
      paramDefsSend := false;
      firstSend := false;
      sendDataBeforeSleep := false;
      scanned := false;
    }

    /**
     * `ScanForMaster()`: `WiFiKanal` set to 1, then a pairing probe on
     * each channel from 1 until the master answers or channel 13 is done,
     * then back to the channel `WiFiKanal` holds.
     */
    method ScanForMaster() returns (found: bool)
      requires Valid()
      modifies this, radio, q.regs
      ensures Valid() && Fl() == old(Fl()) && Cur() == old(Cur())
      ensures var s := ScanF(old(Air()).link, 1);
        found == s.found && Air() == Wire(s.link, s.found, 1, true)
      ensures Data(radio.delivered) == Data(old(radio.delivered))
      ensures Regs() == Tune(old(Regs()))
    {
      got := false;
      var peer := MasterMac();
      Retune();
      ghost var regs := Regs();
      ghost var s := ScanF(Link(radio.statuses, heard), 1);
      assert s == ScanF(old(Air()).link, 1);
      Sweep(peer);
      assert Regs() == regs && Valid();
      radio.SetChannel(q.regs.vals[WiFiKanal].n as uint8);
      found := got;
      assert Air() == Wire(s.link, s.found, 1, true);
    }

    /** `WiFiKanal.Set(1)` at the start of a scan. */
    method Retune()
      requires Valid()
      modifies this, q.regs
      ensures Valid() && scanned && Regs() == Tune(old(Regs()))
      ensures Fl() == old(Fl()) && Cur() == old(Cur()) && heard == old(heard) && got == old(got)
    {
      ClientRegisters();
      var _ := q.regs.SetNum(WiFiKanal, 1);
      scanned := true;
    }

    /** The probe loop of `ScanForMaster`, from channel 1. */
    method Sweep(peer: Mac)
      requires !got
      modifies this, radio
      ensures var s := ScanF(Link(old(radio.statuses), old(heard)), 1);
        got == s.found && Link(radio.statuses, heard) == s.link
      ensures Data(radio.delivered) == Data(old(radio.delivered))
      ensures scanned == old(scanned) && Fl() == old(Fl())
    {
      ghost var s0 := ScanF(Link(radio.statuses, heard), 1);
      var channel: uint8 := 1;
      while !got
        invariant !got && 1 <= channel as nat <= MAX_CHANNEL
        invariant ScanF(Link(radio.statuses, heard), channel as nat) == s0
        invariant Data(radio.delivered) == Data(old(radio.delivered))
        invariant scanned == old(scanned) && Fl() == old(Fl())
        decreases MAX_CHANNEL - channel as nat
      {
        Probe(peer, channel);
        if got {
          assert s0 == Scan(true, channel as nat, Link(radio.statuses, heard));
          break;
        }
        channel := channel + 1;
        if channel as nat > MAX_CHANNEL {
          assert s0 == Scan(false, MAX_CHANNEL, Link(radio.statuses, heard));
          break;
        }
      }
    }

    /**
     * One pass of the scan loop: the radio on `channel`, a pairing probe,
     * and a look whether the master has answered.
     */
    method Probe(peer: Mac, channel: uint8)
      modifies this, radio
      ensures var l := Link(old(radio.statuses), old(heard));
        var t := SendF(l, SEND_RETRIES as nat).link;
        && got == Answered(t.heard) && Link(radio.statuses, heard) == t.(heard := Later(t.heard))
      ensures radio.channel == channel && Data(radio.delivered) == Data(old(radio.delivered))
      ensures scanned == old(scanned) && Fl() == old(Fl())
    {
      radio.SetChannel(channel);
      ghost var before := radio.delivered;
      var sent := radio.SendMessage(peer, MSG_PAIR_REQUEST, ProbePayload(channel), SEND_RETRIES);
      DataOfSend(before, peer, Msg(MSG_PAIR_REQUEST, ProbePayload(channel), SEND_RETRIES as nat), sent);
      got := Answered(heard);
      heard := Later(heard);
    }

    /**
     * `CHECK_SEND(SendMessage(peer, kind, payload, r), ok)`: up to two
     * tries; after the second failure a scan and, if it found the master,
     * one last try.
     */
    method CheckSend(peer: Mac, kind: uint8, payload: seq<uint8>, r: uint8) returns (ok: bool)
      requires Valid() && |payload| <= MAX_PAYLOAD_SIZE
      modifies this, radio, q.regs
      ensures Valid() && Fl() == old(Fl()) && Cur() == old(Cur())
      ensures var c := CheckSendF(old(Air()).link, r as nat);
        ok == c.ok && Air() == After(old(Air()), c.scan, c.link)
      ensures Data(radio.delivered) == Data(old(radio.delivered)) + (if ok then DataFrame(peer, Msg(kind, payload, r as nat)) else [])
      ensures Retuned(old(Regs()), Air().scanned, Regs())
    {
      ghost var a0 := Air();
      ghost var r0 := Regs();
      ghost var c := CheckSendF(a0.link, r as nat);
      ghost var d0 := Data(radio.delivered);
      ghost var frame := DataFrame(peer, Msg(kind, payload, r as nat));
      CheckSendPolicy(a0.link, r as nat);
      var sent := Tries(peer, kind, payload, r);
      if sent {
        ok := true;
        assert c == Checked(true, None, Air().link);
        assert Data(radio.delivered) == d0 + frame;
        Untouched(r0, a0.scanned);
      } else {
        ghost var s := ScanF(Air().link, 1);
        assert c.scan == Some(s.found);
        assert Data(radio.delivered) == d0 + [] == d0;
        ok := Rescue(peer, kind, payload, r);
        assert ok == c.ok && Air() == Wire(c.link, s.found, 1, true);
      }
    }

    /**
     * The `while` of `CHECK_SEND` up to its last failed try: a try, and a
     * second one if the first failed; false when both failed.
     */
    method Tries(peer: Mac, kind: uint8, payload: seq<uint8>, r: uint8) returns (sent: bool)
      requires |payload| <= MAX_PAYLOAD_SIZE
      modifies radio
      ensures var t1 := SendF(old(Air()).link, r as nat);
        var t2 := SendF(t1.link, r as nat);
        && sent == (t1.ok || t2.ok)
        && Air() == old(Air()).(link := if t1.ok then t1.link else t2.link)
      ensures Data(radio.delivered) == Data(old(radio.delivered)) + (if sent then DataFrame(peer, Msg(kind, payload, r as nat)) else [])
    {
      ghost var a0 := Air();
      ghost var t1 := SendF(a0.link, r as nat);
      var attempts: nat := 0;
      while true
        invariant attempts < COMMUNICATION_ATTEMPTS
        invariant Air() == a0.(link := if attempts == 0 then a0.link else t1.link)
        invariant attempts == 1 ==> !t1.ok
        invariant Data(radio.delivered) == Data(old(radio.delivered))
        decreases COMMUNICATION_ATTEMPTS - attempts
      {
        sent := Try(peer, kind, payload, r);
        if sent {
          break;
        }
        attempts := attempts + 1;
        if attempts >= COMMUNICATION_ATTEMPTS {
          break;
        }
      }
    }

    /** One `SendMessage` of `CHECK_SEND`. */
    method Try(peer: Mac, kind: uint8, payload: seq<uint8>, r: uint8) returns (sent: bool)
      requires |payload| <= MAX_PAYLOAD_SIZE
      modifies radio
      ensures var t := SendF(old(Air()).link, r as nat);
        sent == t.ok && Air() == old(Air()).(link := t.link)
      ensures Data(radio.delivered) == Data(old(radio.delivered)) + (if sent then DataFrame(peer, Msg(kind, payload, r as nat)) else [])
    {
      ghost var before := radio.delivered;
      sent := radio.SendMessage(peer, kind, payload, r);
      DataOfSend(before, peer, Msg(kind, payload, r as nat), sent);
    }

    /** The end of `CHECK_SEND` after the last failed try: a scan and, if it found the master, one more try. */
    method Rescue(peer: Mac, kind: uint8, payload: seq<uint8>, r: uint8) returns (ok: bool)
      requires Valid() && |payload| <= MAX_PAYLOAD_SIZE
      modifies this, radio, q.regs
      ensures Valid() && Fl() == old(Fl()) && Cur() == old(Cur()) && Regs() == Tune(old(Regs()))
      ensures var s := ScanF(old(Air()).link, 1);
        && ok == (s.found && SendF(s.link, r as nat).ok)
        && Air() == Wire(if s.found then SendF(s.link, r as nat).link else s.link, s.found, 1, true)
      ensures Data(radio.delivered) == Data(old(radio.delivered)) + (if ok then DataFrame(peer, Msg(kind, payload, r as nat)) else [])
    {
      var found := ScanForMaster();
      if found {
        ghost var before := radio.delivered;
        ok := radio.SendMessage(peer, kind, payload, r);
        DataOfSend(before, peer, Msg(kind, payload, r as nat), ok);
      } else {
        ok := false;
      }
    }

    /**
     * A transfer of `plan` begun in wire state `w0`, over registers `r0`,
     * with `d0` the data frames delivered before it: it has left the wire
     * state `RunF` gives, the peer has got the data frames of the messages
     * delivered, and the registers are as before apart from a scan.
     */
    ghost predicate Attempted(w0: Wire, r0: Bank, d0: seq<Sent>, peer: Mac, plan: seq<Msg>)
      reads this`heard, this`got, this`scanned, radio, q, q.regs, q.tasks, weight, log
    {
      Valid() && Fitting(r0.vals) && Transferred(w0, r0, d0, peer, plan)
    }

    /** What `Attempted` says of the link, the radio and the registers. */
    ghost predicate Transferred(w0: Wire, r0: Bank, d0: seq<Sent>, peer: Mac, plan: seq<Msg>)
      requires Fitting(r0.vals)
      reads this`heard, this`got, this`scanned, radio, q, q.regs
    {
      && RunF(w0, plan).w == Air()
      && Data(radio.delivered) == d0 + Delivers(w0, peer, plan)
      && Retuned(r0, Air().scanned, Regs())
    }

    /**
     * The next message of a transfer that has delivered everything so
     * far, sent with `CHECK_SEND`.
     */
    method Deliver(peer: Mac, kind: uint8, payload: seq<uint8>, r: uint8,
                   ghost w0: Wire, ghost r0: Bank, ghost d0: seq<Sent>, ghost done: seq<Msg>)
      returns (ok: bool)
      requires |payload| <= MAX_PAYLOAD_SIZE
      requires Attempted(w0, r0, d0, peer, done) && RunF(w0, done).ok
      modifies this, radio, q.regs
      ensures Fl() == old(Fl()) && Cur() == old(Cur())
      ensures var plan := done + [Msg(kind, payload, r as nat)];
        Attempted(w0, r0, d0, peer, plan) && ok == RunF(w0, plan).ok
      ensures var s := CheckSendF(old(Air()).link, r as nat);
        ok == s.ok && Air() == After(old(Air()), s.scan, s.link) && Regs() == TuneAfter(old(Regs()), s.scan)
    {
      ghost var w, regs, d := Air(), Regs(), Data(radio.delivered);
      ok := CheckSend(peer, kind, payload, r);
      ghost var ch := CheckSendF(w.link, r as nat);
      AfterKeepsScanned(w, ch.scan, ch.link);
      RetunedTrans(r0, w.scanned, regs, Air().scanned, Regs());
      NextData(w0, peer, done, Msg(kind, payload, r as nat), d0, d, Data(radio.delivered));
      if ch.scan.None? && w.scanned {
        TuneTwice(r0);
      }
    }

    /**
     * The message of chunk `c` of a chunked transfer whose earlier chunks
     * `cs` were all delivered: delivered, it joins them; refused, it ends
     * the transfer of `Flatten(cs) + c + rest`.
     */
    method SendChunk<T>(peer: Mac, kind: uint8, r: uint8, ghost f: (int, seq<T>) -> seq<uint8>, ghost a: int, ghost b: nat,
                        ghost w0: Wire, ghost r0: Bank, ghost d0: seq<Sent>,
                        ghost cs: seq<seq<T>>, ghost c: seq<T>, ghost rest: seq<T>, ghost at: int, payload: seq<uint8>)
      returns (ok: bool)
      requires at == a + |Flatten(cs)| && |payload| <= MAX_PAYLOAD_SIZE && payload == f(at, c)
      requires b > 0 && Full(cs, b) && 0 < |c| <= b && (rest != [] ==> |c| == b)
      requires var done := Plan(kind, r as nat, Frames(f, a, Flatten(cs), b));
        Attempted(w0, r0, d0, peer, done) && RunF(w0, done).ok
      modifies this, radio, q.regs
      ensures Fl() == old(Fl()) && Cur() == old(Cur())
      ensures var part := Plan(kind, r as nat, Frames(f, a, Flatten(cs) + c, b));
        ok ==> Attempted(w0, r0, d0, peer, part) && RunF(w0, part).ok
      ensures var whole := Plan(kind, r as nat, Frames(f, a, Flatten(cs) + c + rest, b));
        !ok ==> Attempted(w0, r0, d0, peer, whole) && !RunF(w0, whole).ok
    {
      ghost var done := Plan(kind, r as nat, Frames(f, a, Flatten(cs), b));
      ghost var part := Plan(kind, r as nat, Frames(f, a, Flatten(cs) + c, b));
      ChunkMsg(kind, r as nat, f, a, b, cs, c, at, payload, done, part);
      ok := Deliver(peer, kind, payload, r, w0, r0, d0, done);
      if !ok {
        ChunkAbandoned(w0, peer, kind, r as nat, f, a, b, cs, c, rest);
      }
    }

    /** One pass of the transfer loop: the chunk of `xs` starting at `pos`. */
    method SendNext<T(!new)>(peer: Mac, kind: uint8, r: uint8, f: (int, seq<T>) -> seq<uint8>, a: int, xs: seq<T>, b: nat,
                       ghost w0: Wire, ghost r0: Bank, ghost d0: seq<Sent>, ghost cs: seq<seq<T>>, pos: nat)
      returns (ok: bool, ghost cs': seq<seq<T>>, pos': nat)
      requires b > 0 && pos < |xs| && Full(cs, b) && Flatten(cs) == xs[..pos]
      requires Framed(f, b)
      requires var done := Plan(kind, r as nat, Frames(f, a, Flatten(cs), b));
        Attempted(w0, r0, d0, peer, done) && RunF(w0, done).ok
      modifies this, radio, q.regs
      ensures Fl() == old(Fl()) && Cur() == old(Cur())
      ensures ok ==> pos < pos' <= |xs| && (pos' < |xs| ==> Full(cs', b)) && Flatten(cs') == xs[..pos']
      ensures var done := Plan(kind, r as nat, Frames(f, a, Flatten(cs'), b));
        ok ==> Attempted(w0, r0, d0, peer, done) && RunF(w0, done).ok
      ensures var whole := Plan(kind, r as nat, Frames(f, a, xs, b));
        !ok ==> Attempted(w0, r0, d0, peer, whole) && !RunF(w0, whole).ok
    {
      var n := Min(b, |xs| - pos);
      pos' := pos + n;
      var c := xs[pos..pos'];
      ghost var rest := xs[pos'..];
      NextChunk(xs, b, cs, pos, n, pos', c, rest);
      var at := a + pos;
      var payload := f(at, c);
      ok := SendChunk(peer, kind, r, f, a, b, w0, r0, d0, cs, c, rest, at, payload);
      cs' := cs + [c];
    }

    /**
     * A chunked transfer of `xs`: chunks of `b` elements and a last
     * shorter one, each sent with `CHECK_SEND` as the payload `f` makes of
     * it and its position counted from `a`; the first message `CHECK_SEND`
     * gives up on ends it with false.
     */
    method SendAll<T(!new)>(peer: Mac, kind: uint8, r: uint8, f: (int, seq<T>) -> seq<uint8>, a: int, xs: seq<T>, b: nat)
      returns (ok: bool)
      requires Valid() && b > 0
      requires Framed(f, b)
      modifies this, radio, q.regs
      ensures Fl() == old(Fl()) && Cur() == old(Cur())
      ensures var plan := Plan(kind, r as nat, Frames(f, a, xs, b));
        Attempted(old(Air()), old(Regs()), Data(old(radio.delivered)), peer, plan) && ok == RunF(old(Air()), plan).ok
    {
      ghost var w0, r0, d0 := Air(), Regs(), Data(radio.delivered);
      Untouched(r0, w0.scanned);
      assert Frames(f, a, [], b) == [] && Delivers(w0, peer, []) == [];
      assert Data(radio.delivered) == d0 + [];
      ghost var cs: seq<seq<T>> := [];
      var pos := 0;
      ok := true;
      while pos < |xs|
        invariant pos <= |xs| && (pos < |xs| ==> Full(cs, b)) && Flatten(cs) == xs[..pos]
        invariant Framed(f, b)
        invariant Fl() == old(Fl()) && Cur() == old(Cur())
        invariant var done := Plan(kind, r as nat, Frames(f, a, Flatten(cs), b));
          Attempted(w0, r0, d0, peer, done) && RunF(w0, done).ok
        decreases |xs| - pos
      {
        ok, cs, pos := SendNext(peer, kind, r, f, a, xs, b, w0, r0, d0, cs, pos);
        if !ok {
          return;
        }
      }
      assert xs[..pos] == xs;
    }

    /**
     * `sendParamDefs(mac)`: the `Par_ESPNow` definitions in table order,
     * five to a message and the rest in a last one; false when a message
     * could not be delivered.
     */
    method SendParamDefs(peer: Mac) returns (ok: bool)
      requires Valid()
      modifies this, radio, q.regs
      ensures Fl() == old(Fl()) && Cur() == old(Cur())
      ensures Attempted(old(Air()), old(Regs()), Data(old(radio.delivered)), peer, DefsPlan())
      ensures ok == RunF(old(Air()), DefsPlan()).ok
    {
      DefsFit();
      ok := SendAll(peer, MSG_GET_PARAM_DEFS_RESPONSE, SEND_RETRIES, DefsFrame, 0, EspEntries(NMR_PARAMETERS), MAX_PARAM_DEFS);
    }

    /** `SystemLog::SendLogsViaEspNow(mac)`: both log files as one byte stream, older file first. */
    method SendLogs(peer: Mac) returns (ok: bool)
      requires Valid()
      modifies this, radio, q.regs
      ensures Fl() == old(Fl()) && Cur() == old(Cur())
      ensures var plan := LogPlan(log.files, log.writeFile);
        Attempted(old(Air()), old(Regs()), Data(old(radio.delivered)), peer, plan) && ok == RunF(old(Air()), plan).ok
    {
      LogFit();
      var stream := SystemLog.Stream(log.files, log.writeFile);
      ok := SendAll(peer, MSG_GET_LOG_RESPONSE, LOG_RETRIES, LogPayload, 0, stream, LOG_CHUNK);
    }

    /** `Register::ReadReg(&val, a)` on the client's registers. */
    method ReadOne(a: uint16) returns (v: int16)
      requires Valid()
      modifies q.regs
      ensures Valid() && Regs() == old(Regs())
      ensures var x := ReadAt(Regs().vals, old(Cur()), a); v == x.out && Cur() == x.c
    {
      var out, _ := q.regs.ReadReg(a);
      v := out;
    }

    /**
     * The units of `n` addresses from `regadr` on, read in order with
     * `Register::ReadReg`.
     */
    method ReadUnits(regadr: uint16, n: nat) returns (outs: seq<int16>)
      requires Valid() && regadr as nat + n <= 0x1_0000
      modifies q.regs
      ensures Valid() && Regs() == old(Regs())
      ensures Readout(outs, Cur()) == Reads(Regs().vals, old(Cur()), regadr as nat, n)
    {
      ghost var c0 := Cur();
      outs := [];
      var k := 0;
      while k < n
        invariant k <= n && Valid() && Regs() == old(Regs())
        invariant Readout(outs, Cur()) == Reads(Regs().vals, c0, regadr as nat, k)
      {
        ReadsSnoc(Regs().vals, c0, regadr as nat, k);
        var v := ReadOne((regadr as nat + k) as uint16);
        outs := outs + [v];
        k := k + 1;
      }
    }

    /**
     * One response of `readParamsRequestHandler`: up to 118 of the `n`
     * units left from `a` on, read and sent with `CHECK_SEND`; the rest
     * are answered from where it left the link, the registers and the
     * cursor.
     */
    method ReadChunk(peer: Mac, a: nat, n: nat, ghost w0: Wire, ghost r0: Bank, ghost d0: seq<Sent>, ghost done: seq<Msg>)
      returns (ok: bool, a': nat, n': nat, ghost m: Msg, ghost rest: Reply)
      requires 0 < n && a + n <= 0x1_0000
      requires Attempted(w0, r0, d0, peer, done) && RunF(w0, done).ok
      modifies this, radio, q.regs
      ensures Fl() == old(Fl()) && a' + n' == a + n && n' < n && a' <= a + MAX_PARAM_READS_WRITES
      ensures Attempted(w0, r0, d0, peer, done + [m]) && ok == RunF(w0, done + [m]).ok
      ensures rest == Answer(Air(), Regs(), Cur(), a', n')
      ensures Answer(old(Air()), old(Regs()), old(Cur()), a, n)
          == if ok then Reply([m] + rest.plan, rest.c) else Reply([m], Cur())
    {
      ghost var w, r, c := Air(), Regs(), Cur();
      var k := if n < MAX_PARAM_READS_WRITES then n else MAX_PARAM_READS_WRITES;
      var outs := ReadUnits(a as uint16, k);
      ValuesFit();
      m := ValuesMsg(a, outs);
      ok := Deliver(peer, MSG_READ_PARAM_RESPONSE, ValuesFrame(a, outs), SEND_RETRIES, w0, r0, d0, done);
      a', n' := a + k, n - k;
      if ok {
        AnswerStep(w, r, c, a, n, k, Readout(outs, Cur()), Air(), Regs(), a', n');
      } else {
        AnswerStop(w, r, c, a, n, k, Readout(outs, Cur()));
      }
      rest := Answer(Air(), Regs(), Cur(), a', n');
    }

    /**
     * `readParamsRequestHandler(mac, payload)`: the units of the request's
     * addresses, read in order, 118 to a response, each response sent with
     * `CHECK_SEND` before the next units are read and headed by the address
     * of its first unit; the first response given up on ends it with
     * false. An end address that wraps past 0xFFFF reads nothing.
     */
    method ReadParams(peer: Mac, regadr: uint16, regnmr: uint16) returns (ok: bool)
      requires Valid()
      modifies this, radio, q.regs
      ensures Fl() == old(Fl())
      ensures var t := Answer(old(Air()), old(Regs()), old(Cur()), regadr as nat, ReadCount(regadr, regnmr));
        && Cur() == t.c
        && Attempted(old(Air()), old(Regs()), Data(old(radio.delivered)), peer, t.plan)
        && ok == RunF(old(Air()), t.plan).ok
    {
      ghost var w0, r0, c0, d0 := Air(), Regs(), Cur(), Data(radio.delivered);
      var reglast := ((regadr as int + regnmr as int) % 0x1_0000) as uint16;
      var n := if regadr < reglast then (reglast - regadr) as nat else 0;
      assert n == ReadCount(regadr, regnmr);
      Untouched(r0, w0.scanned);
      assert Delivers(w0, peer, []) == [];
      assert Data(radio.delivered) == d0 + [];
      ghost var done: seq<Msg> := [];
      var at: nat, left: nat := regadr as nat, n;
      ghost var whole := Answer(w0, r0, c0, at, left);
      ghost var rest := whole;
      assert whole == Reply([] + rest.plan, rest.c);
      ok := true;
      while 0 < left
        invariant at + left <= 0x1_0000 && Fl() == old(Fl())
        invariant Attempted(w0, r0, d0, peer, done) && RunF(w0, done).ok
        invariant rest == Answer(Air(), Regs(), Cur(), at, left)
        invariant whole == Reply(done + rest.plan, rest.c)
      {
        ghost var m, t;
        ok, at, left, m, t := ReadChunk(peer, at, left, w0, r0, d0, done);
        if !ok {
          return;
        }
        Associative(done, [m], t.plan);
        done, rest := done + [m], t;
      }
      assert rest == Reply([], Cur());
      assert done + [] == done;
    }

    /**
     * `sendParamValues(mac)`: the registers from the lowest `Par_ESPNow`
     * address up to one past the highest such unit, read and sent as
     * `readParamsRequestHandler` answers a request for them. The table
     * has such registers, so the early return for none is dead.
     */
    method SendParamValues(peer: Mac) returns (ok: bool)
      requires Valid()
      modifies this, radio, q.regs
      ensures Fl() == old(Fl())
      ensures var plan := SpanPlan(old(Regs()).vals, old(Cur()));
        && Cur() == SpanReads(old(Regs()).vals, old(Cur())).c
        && Attempted(old(Air()), old(Regs()), Data(old(radio.delivered)), peer, plan)
        && ok == RunF(old(Air()), plan).ok
    {
      var first, last := EspSpan();
      SpanBounds();
      if first == UINT16_MAX {
        assert false;
        return true;
      }
      RequestFits(first, last);
      ok := ReadSpan(peer, first, ToUint16(last as int - first as int));
    }

    /** The `readParamsRequestHandler` call of `sendParamValues`, for the span's 36 units. */
    method ReadSpan(peer: Mac, first: uint16, nmr: uint16) returns (ok: bool)
      requires Valid() && first as nat == SPAN_FIRST && nmr as nat == SPAN_LAST - SPAN_FIRST
      modifies this, radio, q.regs
      ensures Fl() == old(Fl())
      ensures var plan := SpanPlan(old(Regs()).vals, old(Cur()));
        && Cur() == SpanReads(old(Regs()).vals, old(Cur())).c
        && Attempted(old(Air()), old(Regs()), Data(old(radio.delivered)), peer, plan)
        && ok == RunF(old(Air()), plan).ok
    {
      ghost var w0, r0, c0, d0 := Air(), Regs(), Cur(), Data(radio.delivered);
      ghost var t := Answer(w0, r0, c0, SPAN_FIRST, SPAN_LAST - SPAN_FIRST);
      SpanAnswer(w0, r0, c0, t);
      ok := ReadParams(peer, first, nmr);
    }

    /** The `do { ... } while (0)` of `Task` for a paired master `peer`. */
    method Report(peer: Mac) returns (res: bool)
      requires Valid()
      modifies this, radio, q.regs
      ensures Valid()
      ensures Reported(old(Snap()), LogPlan(log.files, log.writeFile), peer, res, Snap())
    {
      ghost var s0 := Snap();
      ghost var logs := LogPlan(log.files, log.writeFile);
      var defs := DefsDue(q.regs.vals, paramDefsSend);
      ghost var opening := DefsPart(defs) + SpanPlan(s0.r.vals, s0.c);
      var ok := Opening(peer, defs);
      ghost var s1 := Snap();
      res := Finish(peer, s0.w, s0.r, s0.d, opening, logs, ok);
      ReportSteps(s0, s1, Snap(), logs, peer, ok, res);
    }

    /** The definitions, if `defs`, then the register values: the part of a report before the logs. */
    method Opening(peer: Mac, defs: bool) returns (ok: bool)
      requires Valid()
      modifies this, radio, q.regs
      ensures Fl() == old(Fl()).(paramDefsSend := old(paramDefsSend) || defs)
      ensures Cur() == if RunF(old(Air()), DefsPart(defs)).ok then SpanReads(old(Regs()).vals, old(Cur())).c else old(Cur())
      ensures var plan := DefsPart(defs) + SpanPlan(old(Regs()).vals, old(Cur()));
        Attempted(old(Air()), old(Regs()), Data(old(radio.delivered)), peer, plan) && ok == RunF(old(Air()), plan).ok
    {
      ghost var w0, r0, d0, c0 := Air(), Regs(), Data(radio.delivered), Cur();
      ok := DefsStage(peer, defs);
      ok := ValuesStage(peer, w0, r0, d0, c0, DefsPart(defs), ok);
    }

    /** The rest of a report after the register values, which all got through if `go`. */
    method Finish(peer: Mac, ghost w0: Wire, ghost r0: Bank, ghost d0: seq<Sent>, ghost done: seq<Msg>, ghost logs: seq<Msg>, go: bool)
      returns (res: bool)
      requires Attempted(w0, r0, d0, peer, done) && go == RunF(w0, done).ok
      requires logs == LogPlan(log.files, log.writeFile)
      modifies this, radio, q.regs
      ensures Valid() && Cur() == old(Cur())
      ensures var body := done + FirstPart(!old(firstSend), logs);
        && Transferred(w0, r0, d0, peer, body + [Signal(MSG_TRANSMIT_DONE)])
        && res == RunF(w0, body + [Signal(MSG_TRANSMIT_DONE)]).ok
        && Fl() == old(Fl()).(firstSend := old(firstSend) || RunF(w0, body).ok)
    {
      ghost var tail := FirstPart(!firstSend, logs);
      var ok := FirstStage(peer, w0, r0, d0, done, logs, go);
      res := SignalStage(peer, MSG_TRANSMIT_DONE, w0, r0, d0, done + tail, ok);
    }

    /** The definitions stage of a report: `sendParamDefs` if they are due, nothing otherwise. */
    method DefsStage(peer: Mac, defs: bool) returns (ok: bool)
      requires Valid()
      modifies this, radio, q.regs
      ensures Fl() == old(Fl()).(paramDefsSend := old(paramDefsSend) || defs) && Cur() == old(Cur())
      ensures Attempted(old(Air()), old(Regs()), Data(old(radio.delivered)), peer, DefsPart(defs))
      ensures ok == RunF(old(Air()), DefsPart(defs)).ok
    {
      if defs {
        paramDefsSend := true;
        ok := SendParamDefs(peer);
      } else {
        ok := true;
        Untouched(Regs(), Air().scanned);
        assert Data(radio.delivered) + [] == Data(radio.delivered);
      }
    }

    /**
     * `sendParamValues` after the messages `done` of a transfer, if they
     * all got through (`go`).
     */
    method ValuesStage(peer: Mac, ghost w0: Wire, ghost r0: Bank, ghost d0: seq<Sent>, ghost c0: Cursor, ghost done: seq<Msg>, go: bool)
      returns (ok: bool)
      requires Attempted(w0, r0, d0, peer, done) && go == RunF(w0, done).ok && Cur() == c0
      modifies this, radio, q.regs
      ensures Fl() == old(Fl()) && Cur() == if go then SpanReads(r0.vals, c0).c else c0
      ensures var plan := done + SpanPlan(r0.vals, c0);
        Attempted(w0, r0, d0, peer, plan) && ok == RunF(w0, plan).ok
    {
      if !go {
        Abandoned(w0, peer, done, SpanPlan(r0.vals, c0));
        return false;
      }
      ghost var w1, r1, d1 := Air(), Regs(), Data(radio.delivered);
      ok := SendParamValues(peer);
      if r1 != r0 {
        SpanTune(r0.vals, c0);
      }
      Chain(w0, peer, done, SpanPlan(r0.vals, c0), d0, d1, Data(radio.delivered));
      RetunedTrans(r0, w1.scanned, r1, Air().scanned, Regs());
    }

    /**
     * On the first report since `Init`, if the messages `done` all got
     * through (`go`): the time synchronisation request and the log
     * messages `logs`, after which `first_send` is set.
     */
    method FirstStage(peer: Mac, ghost w0: Wire, ghost r0: Bank, ghost d0: seq<Sent>, ghost done: seq<Msg>, ghost logs: seq<Msg>, go: bool)
      returns (ok: bool)
      requires Attempted(w0, r0, d0, peer, done) && go == RunF(w0, done).ok
      requires logs == LogPlan(log.files, log.writeFile)
      modifies this, radio, q.regs
      ensures Cur() == old(Cur())
      ensures var plan := done + FirstPart(!old(firstSend), logs);
        Attempted(w0, r0, d0, peer, plan) && ok == RunF(w0, plan).ok
      ensures Fl() == old(Fl()).(firstSend := old(firstSend) || ok)
    {
      if !go {
        Abandoned(w0, peer, done, FirstPart(!firstSend, logs));
        return false;
      }
      if firstSend {
        assert done + [] == done;
        return true;
      }
      ok := SyncAndLogs(peer, w0, r0, d0, done, logs);
      if ok {
        firstSend := true;
      }
    }

    /** The time synchronisation request, then the log messages `logs`, after the messages `done`, which all got through. */
    method SyncAndLogs(peer: Mac, ghost w0: Wire, ghost r0: Bank, ghost d0: seq<Sent>, ghost done: seq<Msg>, ghost logs: seq<Msg>)
      returns (ok: bool)
      requires Attempted(w0, r0, d0, peer, done) && RunF(w0, done).ok
      requires logs == LogPlan(log.files, log.writeFile)
      modifies this, radio, q.regs
      ensures Fl() == old(Fl()) && Cur() == old(Cur())
      ensures var plan := done + ([Signal(MSG_TIME_SYNC_REQUEST)] + logs);
        Attempted(w0, r0, d0, peer, plan) && ok == RunF(w0, plan).ok
    {
      ghost var sync := [Signal(MSG_TIME_SYNC_REQUEST)];
      Associative(done, sync, logs);
      ok := Deliver(peer, MSG_TIME_SYNC_REQUEST, [], SEND_RETRIES, w0, r0, d0, done);
      if ok {
        ok := LogsStage(peer, w0, r0, d0, done + sync);
      } else {
        Abandoned(w0, peer, done + sync, logs);
      }
    }

    /** `SendLogsViaEspNow` after the messages `done` of a transfer that all got through. */
    method LogsStage(peer: Mac, ghost w0: Wire, ghost r0: Bank, ghost d0: seq<Sent>, ghost done: seq<Msg>)
      returns (ok: bool)
      requires Attempted(w0, r0, d0, peer, done) && RunF(w0, done).ok
      modifies this, radio, q.regs
      ensures Fl() == old(Fl()) && Cur() == old(Cur())
      ensures var plan := done + LogPlan(log.files, log.writeFile);
        Attempted(w0, r0, d0, peer, plan) && ok == RunF(w0, plan).ok
    {
      ghost var w1, r1, d1 := Air(), Regs(), Data(radio.delivered);
      ok := SendLogs(peer);
      Chain(w0, peer, done, LogPlan(log.files, log.writeFile), d0, d1, Data(radio.delivered));
      RetunedTrans(r0, w1.scanned, r1, Air().scanned, Regs());
    }

    /**
     * `CHECK_SEND` of the payload-less message `kind` after the messages
     * `done` of a transfer, if they all got through (`go`).
     */
    method SignalStage(peer: Mac, kind: uint8, ghost w0: Wire, ghost r0: Bank, ghost d0: seq<Sent>, ghost done: seq<Msg>, go: bool)
      returns (ok: bool)
      requires Attempted(w0, r0, d0, peer, done) && go == RunF(w0, done).ok
      modifies this, radio, q.regs
      ensures Fl() == old(Fl()) && Cur() == old(Cur())
      ensures var plan := done + [Signal(kind)];
        Attempted(w0, r0, d0, peer, plan) && ok == RunF(w0, plan).ok
    {
      if go {
        ok := Deliver(peer, kind, [], SEND_RETRIES, w0, r0, d0, done);
      } else {
        ok := false;
        Abandoned(w0, peer, done, [Signal(kind)]);
      }
    }

    /**
     * `MSG_WRITE_PARAM_REQUEST`: the values the frame of `len` bytes in the
     * receive buffer `buf` carries, written from its `regAddr` on; then
     * `send_data_before_sleep` is set and the weight task is asked for a
     * measurement.
     */
    method WriteParams(buf: seq<uint8>, len: nat)
      requires Valid() && |buf| == MAX_PAYLOAD_SIZE && len <= MAX_PAYLOAD_SIZE
      modifies this, q, q.regs, q.tasks
      ensures Valid()
      ensures var w := Writes(old(WritingOf(q)), FromLe16(buf[..2]) as nat, WriteValues(buf, len));
        && |w.e.tasks| == SleepCtrl.NUMBER_TASKS
        && WritingOf(q) == w.(e := w.e.(tasks := w.e.tasks[SleepCtrl.WRITE_COMMAND_TASK := true]))
      ensures Fl() == old(Fl()).(sendDataBeforeSleep := true)
      ensures heard == old(heard) && got == old(got)
    {
      WriteUnits(q, FromLe16(buf[..2]), WriteValues(buf, len));
      scanned := scanned && q.regs.vals[WiFiKanal] == Num(1);
      sendDataBeforeSleep := true;
      weight.RunMeasure();
    }

    /**
     * `Task()` while no firmware update runs: the communication task is
     * marked active, then the master is reported to or, unpaired, searched
     * for; the task stays active only if that succeeded and the semaphore
     * was taken within its timeout (`taken`).
     */
    method Task(taken: bool) returns (res: bool)
      requires Valid()
      modifies this, radio, q.regs, q.tasks
      ensures Valid()
      ensures Communicated(old(Snap()), old(MasterMac()), LogPlan(log.files, log.writeFile), res, Snap())
      ensures q.tasks[..] == old(q.tasks[..])[SleepCtrl.COMMUNICATION_TASK := res && taken]
    {
      ghost var t0 := q.tasks[..];
      res := Round();
      Settle(t0, res, taken);
    }

    /** After `Round` marked the task in `t0`, it stays marked only when it succeeded and the semaphore was taken. */
    method Settle(ghost t0: seq<bool>, res: bool, taken: bool)
      requires Valid() && |t0| == q.tasks.Length && q.tasks[..] == t0[SleepCtrl.COMMUNICATION_TASK := true]
      modifies q.tasks
      ensures Valid() && q.tasks[..] == t0[SleepCtrl.COMMUNICATION_TASK := res && taken]
      ensures Snap() == old(Snap())
    {
      if !res || !taken {
        MarkCommunication(false);
        assert t0[SleepCtrl.COMMUNICATION_TASK := true][SleepCtrl.COMMUNICATION_TASK := false]
          == t0[SleepCtrl.COMMUNICATION_TASK := false];
      }
    }

    /** The communication task marked busy, then the communication itself. */
    method Round() returns (res: bool)
      requires Valid()
      modifies this, radio, q.regs, q.tasks
      ensures Valid()
      ensures Communicated(old(Snap()), old(MasterMac()), LogPlan(log.files, log.writeFile), res, Snap()) == true
      ensures q.tasks[..] == old(q.tasks[..])[SleepCtrl.COMMUNICATION_TASK := true]
    {
      MarkCommunication(true);
      res := Communicate();
    }

    /** `active_tasks[COMMUNICATION_TASK] = busy`. */
    method MarkCommunication(busy: bool)
      requires Valid()
      modifies q.tasks
      ensures Valid() && q.tasks[..] == old(q.tasks[..])[SleepCtrl.COMMUNICATION_TASK := busy]
      ensures Snap() == old(Snap()) && MasterMac() == old(MasterMac())
    {
      q.tasks[SleepCtrl.COMMUNICATION_TASK] := busy;
    }

    /** The communication of `Task`: a report to a paired master, a scan in pairing mode, nothing otherwise. */
    method Communicate() returns (res: bool)
      requires Valid()
      modifies this, radio, q.regs
      ensures Valid()
      ensures Communicated(old(Snap()), old(MasterMac()), LogPlan(log.files, log.writeFile), res, Snap())
    {
      var master := MasterMac();
      if master != BROADCAST {
        res := Report(master);
      } else if q.regs.vals[StavZarizeni] == Num(Parovani) {
        res := ScanForMaster();
      } else {
        res := false;
      }
    }

    /**
     * `pairResponseHandler(mac, p)`: a paired response adopts `mac` as
     * the master on the channel it gives and, if the client was unpaired,
     * introduces it; an initial or expired one from the master unpairs.
     */
    method PairResponse(mac: Mac, p: seq<uint8>) returns (res: bool)
      requires Valid() && |p| >= 3
      modifies this, radio, q.regs
      ensures Valid() && PairHandled(old(Snap()), old(MasterMac()), mac, p, res, Snap())
    {
      res := true;
      if p[2] == PAIR_STATE_PAIRED {
        res := Pair(mac, p[1]);
      } else if p[2] == PAIR_STATE_INITIAL_REQUEST || p[2] == PAIR_STATE_EXPIRED {
        if mac == MasterMac() {
          q.regs.SetMac(BROADCAST);
        }
      }
    }

    /** A paired response from `mac` on `channel`: the master adopted, and welcomed if the client was unpaired. */
    method Pair(mac: Mac, channel: uint8) returns (res: bool)
      requires Valid()
      modifies this, radio, q.regs
      ensures Valid() && Paired(old(Snap()), old(MasterMac()), mac, channel, res, Snap())
    {
      res := true;
      var wasBroadcast := Adopt(mac, channel);
      if wasBroadcast {
        res := Welcome(mac);
      }
    }

    /** `gotMasterResponse`, `MasterMacAdresa` and `WiFiKanal` after a paired response. */
    method Adopt(mac: Mac, channel: uint8) returns (wasBroadcast: bool)
      requires Valid()
      modifies this, q.regs
      ensures Valid() && wasBroadcast == (old(MasterMac()) == BROADCAST)
      ensures var r := AdoptBank(old(Regs()), mac, channel);
        Snap() == old(Snap()).(w := old(Air()).(got := true, scanned := old(scanned) && r.vals[WiFiKanal] == Num(1)), r := r)
    {
      got := true;
      wasBroadcast := MasterMac() == BROADCAST;
      q.regs.SetMac(mac);
      ClientRegisters();
      var _ := q.regs.SetNum(WiFiKanal, channel as int32);
      scanned := scanned && q.regs.vals[WiFiKanal] == Num(1);
    }

    /** A new master `peer`, answered by an unpaired client: marked paired, then introduced. */
    method Welcome(peer: Mac) returns (ok: bool)
      requires Valid()
      modifies this, radio, q.regs
      ensures Valid() && Introduced(old(Snap()).(r := SetBank(old(Regs()), StavZarizeni, Sparovano as int32)), peer, ok, Snap())
    {
      SetPaired();
      ok := Introduce(peer);
    }

    /** `StavZarizeni.Set(Sparovano)` when a paired response reaches an unpaired client. */
    method SetPaired()
      requires Valid()
      modifies q.regs
      ensures Valid() && Snap() == old(Snap()).(r := SetBank(old(Regs()), StavZarizeni, Sparovano as int32))
    {
      ClientRegisters();
      var _ := q.regs.SetNum(StavZarizeni, Sparovano as int32);
    }

    /** The messages a paired response makes an unpaired client send its new master `peer`. */
    method Introduce(peer: Mac) returns (ok: bool)
      requires Valid()
      modifies this, radio, q.regs
      ensures Valid() && Introduced(old(Snap()), peer, ok, Snap())
    {
      ghost var w0, r0, d0, c0 := Air(), Regs(), Data(radio.delivered), Cur();
      ok := Greeting(peer);
      ok := Farewell(peer, w0, r0, d0, c0, DefsPlan() + [Signal(MSG_TIME_SYNC_REQUEST)], ok);
    }

    /** The definitions, then a time synchronisation request. */
    method Greeting(peer: Mac) returns (ok: bool)
      requires Valid()
      modifies this, radio, q.regs
      ensures Fl() == old(Fl()) && Cur() == old(Cur())
      ensures var plan := DefsPlan() + [Signal(MSG_TIME_SYNC_REQUEST)];
        Attempted(old(Air()), old(Regs()), Data(old(radio.delivered)), peer, plan) && ok == RunF(old(Air()), plan).ok
    {
      ghost var w0, r0, d0 := Air(), Regs(), Data(radio.delivered);
      ok := SendParamDefs(peer);
      ok := SignalStage(peer, MSG_TIME_SYNC_REQUEST, w0, r0, d0, DefsPlan(), ok);
    }

    /** The register values, then `MSG_TRANSMIT_DONE`, after the messages `done`, which all got through if `go`. */
    method Farewell(peer: Mac, ghost w0: Wire, ghost r0: Bank, ghost d0: seq<Sent>, ghost c0: Cursor, ghost done: seq<Msg>, go: bool)
      returns (ok: bool)
      requires Attempted(w0, r0, d0, peer, done) && go == RunF(w0, done).ok && Cur() == c0
      modifies this, radio, q.regs
      ensures Valid() && Fl() == old(Fl()) && Cur() == if go then SpanReads(r0.vals, c0).c else c0
      ensures var plan := done + SpanPlan(r0.vals, c0) + [Signal(MSG_TRANSMIT_DONE)];
        Transferred(w0, r0, d0, peer, plan) && ok == RunF(w0, plan).ok
    {
      ok := ValuesStage(peer, w0, r0, d0, c0, done, go);
      ok := SignalStage(peer, MSG_TRANSMIT_DONE, w0, r0, d0, done + SpanPlan(r0.vals, c0), ok);
    }

    /**
     * `StartPairing()`: the master is forgotten and pairing mode switched;
     * the semaphore it gives is the `taken` of the next `Task`.
     */
    method StartPairing()
      requires Valid()
      modifies q.regs
      ensures Valid()
      ensures Snap() == old(Snap()).(r := PairingBank(old(Regs())))
    {
      q.regs.SetMac(BROADCAST);
      ClientRegisters();
      var mode := Toggled(q.regs.vals[StavZarizeni]);
      var _ := q.regs.SetNum(StavZarizeni, mode);
    }

    /**
     * `Sleep()`: for a paired master, the register values if a write
     * request asked for them, then `MSG_SLEEP` with the communication
     * period; unpaired, nothing.
     */
    method Sleep()
      requires Valid()
      modifies this, radio, q.regs
      ensures Valid()
      ensures old(MasterMac()) == BROADCAST ==> Snap() == old(Snap())
      ensures old(MasterMac()) != BROADCAST ==> Slept(old(Snap()), old(MasterMac()), Snap())
    {
      var master := MasterMac();
      if master == BROADCAST {
        return;
      }
      ghost var s0 := Snap();
      SleepValues(master, sendDataBeforeSleep);
      ghost var s1 := Snap();
      var period := Period(q.regs.vals);
      ghost var before := radio.delivered;
      var m := Msg(MSG_SLEEP, SleepPayload(period), SEND_RETRIES as nat);
      var _ := radio.SendMessage(master, MSG_SLEEP, SleepPayload(period), SEND_RETRIES);
      DataOfSend(before, master, m, radio.delivered != before);
    }

    /** `sendParamValues` before sleep if `send`, its outcome ignored. */
    method SleepValues(peer: Mac, send: bool)
      requires Valid()
      modifies this, radio, q.regs
      ensures Valid() && Fl() == old(Fl())
      ensures var pre := if send then SpanPlan(old(Regs()).vals, old(Cur())) else [];
        && Transferred(old(Air()), old(Regs()), Data(old(radio.delivered)), peer, pre)
        && Cur() == if send then SpanReads(old(Regs()).vals, old(Cur())).c else old(Cur())
    {
      if send {
        var _ := SendParamValues(peer);
      } else {
        Untouched(Regs(), Air().scanned);
        assert Data(radio.delivered) + [] == Data(radio.delivered);
      }
    }

    /**
     * `Init()`: the radio started (unless its driver fails), tuned to
     * the low byte of `WiFiKanal`, the communication task marked active
     * and the per-boot flags cleared.
     */
    method Init(driverOk: bool)
      requires Valid()
      modifies this, radio, q.tasks
      ensures Valid()
      ensures radio.initDone == (old(radio.initDone) || driverOk) && radio.channel == ChannelOf(q.regs.vals)
      ensures radio.statuses == old(radio.statuses) && radio.air == old(radio.air) && radio.delivered == old(radio.delivered)
      ensures heard == old(heard) && got == old(got) && scanned == old(scanned)
      ensures Fl() == old(Fl()).(firstSend := false, sendDataBeforeSleep := false)
      ensures q.tasks[..] == old(q.tasks[..])[SleepCtrl.COMMUNICATION_TASK := true]
    {
      radio.Init(driverOk);
      radio.SetChannel(ChannelOf(q.regs.vals));
      q.tasks[SleepCtrl.COMMUNICATION_TASK] := true;
      firstSend := false;
      sendDataBeforeSleep := false;
    }

    /**
     * `handleDataReceived(mac, msg, len)` for a message of type `kind`
     * whose payload is the first `len` bytes of the receive buffer's
     * payload area `buf`: a pairing response, a request for the parameter
     * definitions, a read or a write request, or the master's
     * `MSG_TRANSMIT_DONE`, which ends the communication task; any other
     * type changes nothing. `ok` is the result of the handler, which
     * `handleDataReceived` drops.
     */
    method HandleData(mac: Mac, kind: uint8, buf: seq<uint8>, len: nat) returns (ok: bool)
      requires Valid() && |buf| == MAX_PAYLOAD_SIZE && len <= MAX_PAYLOAD_SIZE
      modifies this, radio, q, q.regs, q.tasks
      ensures Valid()
      ensures kind != MSG_WRITE_PARAM_REQUEST ==> q.events == old(q.events)
      ensures kind != MSG_WRITE_PARAM_REQUEST && kind != MSG_TRANSMIT_DONE ==> q.tasks[..] == old(q.tasks[..])
      ensures kind == MSG_PAIR_RESPONSE ==> PairHandled(old(Snap()), old(MasterMac()), mac, buf, ok, Snap())
      ensures kind == MSG_GET_PARAM_DEFS_REQUEST ==>
        && Fl() == old(Fl()) && Cur() == old(Cur())
        && Attempted(old(Air()), old(Regs()), Data(old(radio.delivered)), mac, DefsPlan())
        && ok == RunF(old(Air()), DefsPlan()).ok
      ensures kind == MSG_READ_PARAM_REQUEST ==>
        var t := Answer(old(Air()), old(Regs()), old(Cur()), FromLe16(buf[..2]) as nat, ReadCount(FromLe16(buf[..2]), RequestCount(buf)));
        && Fl() == old(Fl()) && Cur() == t.c
        && Attempted(old(Air()), old(Regs()), Data(old(radio.delivered)), mac, t.plan)
        && ok == RunF(old(Air()), t.plan).ok
      ensures kind == MSG_WRITE_PARAM_REQUEST ==>
        var w := Writes(old(WritingOf(q)), FromLe16(buf[..2]) as nat, WriteValues(buf, len));
        && |w.e.tasks| == SleepCtrl.NUMBER_TASKS
        && WritingOf(q) == w.(e := w.e.(tasks := w.e.tasks[SleepCtrl.WRITE_COMMAND_TASK := true]))
        && Fl() == old(Fl()).(sendDataBeforeSleep := true) && ok
        && heard == old(heard) && got == old(got) && radio.delivered == old(radio.delivered)
      ensures kind == MSG_TRANSMIT_DONE ==>
        ok && Snap() == old(Snap()) && q.tasks[..] == old(q.tasks[..])[SleepCtrl.COMMUNICATION_TASK := false]
      ensures kind !in {MSG_PAIR_RESPONSE, MSG_GET_PARAM_DEFS_REQUEST, MSG_READ_PARAM_REQUEST,
                        MSG_WRITE_PARAM_REQUEST, MSG_TRANSMIT_DONE} ==>
        ok && Snap() == old(Snap())
    {
      ok := true;
      if kind == MSG_PAIR_RESPONSE {
        ok := PairResponse(mac, buf);
      } else if kind == MSG_GET_PARAM_DEFS_REQUEST {
        ok := SendParamDefs(mac);
      } else if kind == MSG_READ_PARAM_REQUEST {
        ok := ReadParams(mac, FromLe16(buf[..2]), RequestCount(buf));
      } else if kind == MSG_WRITE_PARAM_REQUEST {
        WriteParams(buf, len);
      } else if kind == MSG_TRANSMIT_DONE {
        MarkCommunication(false);
      }
    }
  }
}
