/**
 * The delivery policy of esp_now_client.h as functions of what the radio
 * will do. A `Link` lists the statuses the send-status queue will yield
 * and, for each pairing probe of a channel scan, whether a PAIRED response
 * has arrived by the time the scan looks. On top of `SendMessage` this
 * gives `ScanForMaster` (probe channels 1 .. 13 and stop at the first
 * reply), the `CHECK_SEND` macro (two tries, then a scan and, if the
 * master was found, one more try) and a transfer of several frames that
 * stops at the first one `CHECK_SEND` gives up on.
 */
module EspNowLink {
  import opened Ints
  import opened EspNowCtrl

  /** `COMMUNICATION_ATTEMPTS`: tries before `CHECK_SEND` rescans. */
  const COMMUNICATION_ATTEMPTS: nat := 2
  /** `DEVICE_TYPE_FEEDER`, sent in every pairing probe. */
  const DEVICE_TYPE_FEEDER: uint8 := 1

  /** What the radio side will do: statuses, one per wait, and pairing replies, one per probe. */
  datatype Link = Link(st: seq<Status>, heard: seq<bool>)

  /** The outcome of one `SendMessage` and the link after it. */
  datatype Try = Try(ok: bool, link: Link)

  /** `SendMessage` with `r` retries. */
  function SendF(l: Link, r: nat): (t: Try)
    ensures t.link.heard == l.heard
  {
    Try(Delivered(l.st, r), l.(st := Drop(l.st, Attempts(l.st, r))))
  }

  /** Whether a PAIRED response has arrived by the next look; none is left means none arrived. */
  function Answered(h: seq<bool>): bool
  {
    h != [] && h[0]
  }

  /** The replies left after one look. */
  function Later(h: seq<bool>): seq<bool>
  {
    if h == [] then [] else h[1..]
  }

  /** The replies left after `k` looks. */
  function Skip(h: seq<bool>, k: nat): seq<bool>
  {
    if k <= |h| then h[k..] else []
  }

  /** A scan: whether the master answered, the last channel probed, and the link after it. */
  datatype Scan = Scan(found: bool, last: nat, link: Link)

  /**
   * The probe loop of `ScanForMaster` from channel `ch` on: a pairing
   * request on the channel, then a look for a reply; the loop ends at the
   * first reply or after channel `MAX_CHANNEL`.
   */
  function ScanF(l: Link, ch: nat): (s: Scan)
    requires 1 <= ch <= MAX_CHANNEL
    ensures ch <= s.last <= MAX_CHANNEL
    decreases MAX_CHANNEL - ch
  {
    var t := SendF(l, SEND_RETRIES as nat).link;
    var l2 := t.(heard := Later(t.heard));
    if Answered(t.heard) then Scan(true, ch, l2)
    else if ch == MAX_CHANNEL then Scan(false, ch, l2)
    else ScanF(l2, ch + 1)
  }

  /** Look `k` is the first to see a reply. */
  predicate FirstReply(h: seq<bool>, k: nat)
  {
    k < |h| && h[k] && forall j :: 0 <= j < k ==> !h[j]
  }

  /** None of the first `n` looks sees a reply. */
  predicate NoReply(h: seq<bool>, n: nat)
  {
    forall j :: 0 <= j < n && j < |h| ==> !h[j]
  }

  /** What one look leaves to the next ones. */
  lemma LaterShift(h: seq<bool>)
    ensures |Later(h)| == if h == [] then 0 else |h| - 1
    ensures forall j :: 0 <= j < |Later(h)| ==> Later(h)[j] == h[j + 1]
  {
  }

  /**
   * A scan from channel `ch` stops at the first channel whose look sees
   * a reply and reports the master found; when none of the looks for
   * channels `ch` .. 13 sees one, it probes every channel up to 13 and
   * reports it not found.
   */
  lemma {:induction false} ScanStopsAtFirstReply(l: Link, ch: nat)
    requires 1 <= ch <= MAX_CHANNEL
    ensures var s := ScanF(l, ch);
      && (s.found ==> FirstReply(l.heard, s.last - ch))
      && (!s.found ==> s.last == MAX_CHANNEL && NoReply(l.heard, MAX_CHANNEL - ch + 1))
    decreases MAX_CHANNEL - ch
  {
    var h := l.heard;
    var l2 := SendF(l, SEND_RETRIES as nat).link.(heard := Later(h));
    if !Answered(h) && ch < MAX_CHANNEL {
      ScanStopsAtFirstReply(l2, ch + 1);
      LaterShift(h);
    }
  }

  /** Each probe of a scan uses up one look. */
  lemma {:induction false} ScanUsesLooks(l: Link, ch: nat)
    requires 1 <= ch <= MAX_CHANNEL
    ensures ScanF(l, ch).link.heard == Skip(l.heard, ScanF(l, ch).last - ch + 1)
    decreases MAX_CHANNEL - ch
  {
    var h := l.heard;
    var l2 := SendF(l, SEND_RETRIES as nat).link.(heard := Later(h));
    if !Answered(h) && ch < MAX_CHANNEL {
      ScanUsesLooks(l2, ch + 1);
      SkipLater(h, ScanF(l2, ch + 1).last - ch);
    }
  }

  /** A look followed by `k` more uses up `k + 1` looks. */
  lemma SkipLater(h: seq<bool>, k: nat)
    ensures Skip(Later(h), k) == Skip(h, k + 1)
  {
    if h != [] && k + 1 <= |h| {
      assert h[1..][k..] == h[k + 1..];
    }
  }

  /** The outcome of `CHECK_SEND`: the result, the scan it ran if any, and the link after it. */
  datatype Checked = Checked(ok: bool, scan: Option<bool>, link: Link)

  /**
   * The loop of `CHECK_SEND` after `attempts` failed tries: try once
   * more; after the `COMMUNICATION_ATTEMPTS`-th failure, scan and, if
   * the master answered, let one last try decide.
   */
  function TryF(l: Link, r: nat, attempts: nat): (c: Checked)
    requires attempts < COMMUNICATION_ATTEMPTS
    decreases COMMUNICATION_ATTEMPTS - attempts
  {
    var t := SendF(l, r);
    if t.ok then Checked(true, None, t.link)
    else if attempts + 1 >= COMMUNICATION_ATTEMPTS then
      var s := ScanF(t.link, 1);
      if s.found then
        var u := SendF(s.link, r);
        Checked(u.ok, Some(true), u.link)
      else Checked(false, Some(false), s.link)
    else TryF(t.link, r, attempts + 1)
  }

  /** `CHECK_SEND(SendMessage(..., r), res)`. */
  function CheckSendF(l: Link, r: nat): Checked
  {
    TryF(l, r, 0)
  }

  /**
   * The policy of `CHECK_SEND`, spelled out: a success on the first or
   * second try ends it without a scan; two failures start a scan, and
   * then the result is true exactly when the scan found the master and
   * the third try succeeded.
   */
  lemma CheckSendPolicy(l: Link, r: nat)
    ensures var c := CheckSendF(l, r);
      var t1 := SendF(l, r);
      var t2 := SendF(t1.link, r);
      var s := ScanF(t2.link, 1);
      && (t1.ok ==> c == Checked(true, None, t1.link))
      && (!t1.ok && t2.ok ==> c == Checked(true, None, t2.link))
      && (!t1.ok && !t2.ok ==>
            && c.scan == Some(s.found)
            && (c.ok <==> s.found && SendF(s.link, r).ok)
            && c.link == (if s.found then SendF(s.link, r).link else s.link))
  {
  }

  // ---------------------------------------------------------------------
  // what a transfer leaves besides the frames it delivers

  /**
   * The state a transfer touches besides the frames delivered: the link,
   * `gotMasterResponse`, the radio channel, and whether a scan has run,
   * which sets `WiFiKanal` to 1.
   */
  datatype Wire = Wire(link: Link, got: bool, channel: uint8, scanned: bool)

  /**
   * The state after a `CHECK_SEND` whose scan, if it ran one, found the
   * master or not, leaving link `l`: a scan sets the radio channel to 1
   * and `gotMasterResponse` to whether it found the master.
   */
  function After(w: Wire, scan: Option<bool>, l: Link): (r: Wire)
  {
    match scan
    case None => w.(link := l)
    case Some(found) => Wire(l, found, 1, true)
  }

  // ---------------------------------------------------------------------
  // the frames a peer receives

  /** A pairing probe of a scan. */
  predicate IsProbe(s: Sent)
  {
    |s.bytes| > 0 && s.bytes[0] == MSG_PAIR_REQUEST
  }

  /** The delivered frames other than pairing probes: what a transfer is about. */
  function Data(log: seq<Sent>): (d: seq<Sent>)
    ensures |d| <= |log|
    decreases |log|
  {
    if log == [] then []
    else Data(log[..|log| - 1]) + (if IsProbe(log[|log| - 1]) then [] else [log[|log| - 1]])
  }

  /** `Data` of two logs one after the other. */
  lemma {:induction false} DataAppend(a: seq<Sent>, b: seq<Sent>)
    ensures Data(a + b) == Data(a) + Data(b)
    decreases |b|
  {
    if b != [] {
      var b' := b[..|b| - 1];
      assert (a + b)[..|a + b| - 1] == a + b';
      DataAppend(a, b');
    } else {
      assert a + b == a;
    }
  }

  /** A frame that is delivered adds to `Data` exactly the data frame of its message. */
  lemma DataOfTransmission(log: seq<Sent>, peer: Mac, m: Msg)
    ensures Data(log + Transmission(peer, m.kind, m.payload)) == Data(log) + DataFrame(peer, m)
  {
    var t := Transmission(peer, m.kind, m.payload);
    if t == [] {
      assert log + t == log;
    } else {
      assert (log + t)[..|log|] == log;
    }
  }

  // ---------------------------------------------------------------------
  // transfers: messages sent one by one with CHECK_SEND

  /** One message of a transfer: its type, its payload and the `retryCount` of its `SendMessage`. */
  datatype Msg = Msg(kind: uint8, payload: seq<uint8>, retries: nat)

  /**
   * The data frame a delivered message `m` gives `peer`: none for a
   * payload `SendMessage` refuses or for a pairing probe.
   */
  function DataFrame(peer: Mac, m: Msg): (d: seq<Sent>)
    ensures |d| <= 1
  {
    if |m.payload| <= MAX_PAYLOAD_SIZE && m.kind != MSG_PAIR_REQUEST then [Sent(peer, Encode(m.kind, m.payload))] else []
  }

  /** The data frames the messages of `plan` give `peer`. */
  function Sends(peer: Mac, plan: seq<Msg>): (m: seq<Sent>)
    ensures |m| <= |plan|
    decreases |plan|
  {
    if plan == [] then []
    else Sends(peer, plan[..|plan| - 1]) + DataFrame(peer, plan[|plan| - 1])
  }

  /** One message more is one data frame more. */
  lemma SendsSnoc(peer: Mac, p: seq<Msg>, m: Msg)
    ensures Sends(peer, p + [m]) == Sends(peer, p) + DataFrame(peer, m)
  {
    assert (p + [m])[..|p|] == p;
  }

  /** `Sends` of two plans one after the other. */
  lemma {:induction false} SendsAppend(peer: Mac, p: seq<Msg>, q: seq<Msg>)
    ensures Sends(peer, p + q) == Sends(peer, p) + Sends(peer, q)
    decreases |q|
  {
    if q == [] {
      assert p + q == p;
    } else {
      var q' := q[..|q| - 1];
      assert (p + q)[..|p + q| - 1] == p + q';
      SendsAppend(peer, p, q');
    }
  }

  /** What a transfer ends with: its result, the messages delivered, and the state it leaves. */
  datatype Outcome = Outcome(ok: bool, count: nat, w: Wire)

  /** One more message with `CHECK_SEND`, attempted only if the transfer so far succeeded. */
  function Step(u: Outcome, m: Msg): (o: Outcome)
  {
    if !u.ok then u
    else
      var c := CheckSendF(u.w.link, m.retries);
      Outcome(c.ok, if c.ok then u.count + 1 else u.count, After(u.w, c.scan, c.link))
  }

  /**
   * The messages of `plan`, each sent with `CHECK_SEND`, from state `w`,
   * stopping at the first message `CHECK_SEND` gives up on.
   */
  function RunF(w: Wire, plan: seq<Msg>): (o: Outcome)
    ensures o.count <= |plan|
    ensures o.ok <==> o.count == |plan|
    decreases |plan|
  {
    if plan == [] then Outcome(true, 0, w)
    else Step(RunF(w, plan[..|plan| - 1]), plan[|plan| - 1])
  }

  /** One message more: it is attempted only if every earlier one was delivered. */
  lemma RunSnoc(w: Wire, plan: seq<Msg>, m: Msg)
    ensures RunF(w, plan + [m]) == Step(RunF(w, plan), m)
  {
    assert (plan + [m])[..|plan|] == plan;
  }

  /** Once a message has failed, nothing after it is sent. */
  lemma {:induction false} RunStops(w: Wire, p: seq<Msg>, q: seq<Msg>)
    requires !RunF(w, p).ok
    ensures RunF(w, p + q) == RunF(w, p)
    decreases |q|
  {
    if q == [] {
      assert p + q == p;
    } else {
      var q', m := q[..|q| - 1], q[|q| - 1];
      assert p + q == (p + q') + [m];
      RunStops(w, p, q');
      RunSnoc(w, p + q', m);
    }
  }

  /** A transfer made of two parts is the second part run from where the first, if it succeeded, left off. */
  lemma {:induction false} RunAppend(w: Wire, p: seq<Msg>, q: seq<Msg>)
    requires RunF(w, p).ok
    ensures var v := RunF(RunF(w, p).w, q);
      RunF(w, p + q) == v.(count := |p| + v.count)
    decreases |q|
  {
    if q == [] {
      assert p + q == p;
    } else {
      var q', m := q[..|q| - 1], q[|q| - 1];
      assert q == q' + [m];
      assert p + q == (p + q') + [m];
      RunAppend(w, p, q');
      RunSnoc(RunF(w, p).w, q', m);
      RunSnoc(w, p + q', m);
    }
  }

  /** A scan, once run, stays run: no transfer clears `scanned`. */
  lemma {:induction false} RunKeepsScanned(w: Wire, plan: seq<Msg>)
    requires w.scanned
    ensures RunF(w, plan).w.scanned
    decreases |plan|
  {
    if plan != [] {
      RunKeepsScanned(w, plan[..|plan| - 1]);
    }
  }

  /** All retry counts are positive. */
  predicate Retried(plan: seq<Msg>)
  {
    forall k :: 0 <= k < |plan| ==> plan[k].retries > 0
  }

  /**
   * Over a link whose next waits all report success, every message goes
   * out on its first try, no scan runs, one status is used up per
   * message and nothing else changes.
   */
  lemma {:induction false} ReliableRun(w: Wire, plan: seq<Msg>)
    requires Retried(plan) && |plan| <= |w.link.st|
    requires forall i :: 0 <= i < |plan| ==> w.link.st[i] == Success
    ensures RunF(w, plan) == Outcome(true, |plan|, w.(link := w.link.(st := w.link.st[|plan|..])))
    decreases |plan|
  {
    if plan != [] {
      var n := |plan|;
      ReliableRun(w, plan[..n - 1]);
      var l1 := w.link.(st := w.link.st[n - 1..]);
      assert Head(l1.st) == Success;
      assert Tail(l1.st) == w.link.st[n..];
      assert Drop(l1.st, Attempts(l1.st, plan[n - 1].retries)) == w.link.st[n..];
    }
  }

  /** No wait in `st` reports success. */
  predicate Silent(st: seq<Status>)
  {
    forall i :: 0 <= i < |st| ==> st[i] != Success
  }

  /** No look of a scan sees a reply. */
  predicate Unanswered(h: seq<bool>)
  {
    forall k :: 0 <= k < |h| ==> !h[k]
  }

  /** A send over a silent link fails and leaves it silent. */
  lemma SilentSend(l: Link, r: nat)
    requires Silent(l.st)
    ensures !SendF(l, r).ok && Silent(SendF(l, r).link.st)
  {
    DeliveredIsFirstSuccess(l.st, r);
  }

  /** A scan over a silent link without replies fails. */
  lemma {:induction false} DeadScan(l: Link, ch: nat)
    requires 1 <= ch <= MAX_CHANNEL
    requires Silent(l.st) && Unanswered(l.heard)
    ensures !ScanF(l, ch).found
    decreases MAX_CHANNEL - ch
  {
    SilentSend(l, SEND_RETRIES as nat);
    var t := SendF(l, SEND_RETRIES as nat).link;
    var l2 := t.(heard := Later(t.heard));
    if ch < MAX_CHANNEL {
      DeadScan(l2, ch + 1);
    }
  }

  /**
   * When no wait reports success and the master never answers, a
   * non-empty transfer delivers nothing: its first message fails after a
   * scan that finds nobody, which leaves `gotMasterResponse` false and
   * the channel at 1.
   */
  lemma DeadRun(w: Wire, plan: seq<Msg>)
    requires plan != []
    requires Silent(w.link.st) && Unanswered(w.link.heard)
    ensures var o := RunF(w, plan);
      && !o.ok && o.count == 0
      && !o.w.got && o.w.channel == 1 && o.w.scanned
  {
    var r := plan[0].retries;
    SilentSend(w.link, r);
    var t1 := SendF(w.link, r);
    SilentSend(t1.link, r);
    var t2 := SendF(t1.link, r);
    DeadScan(t2.link, 1);
    CheckSendPolicy(w.link, r);
    RunSnoc(w, [], plan[0]);
    assert [] + [plan[0]] == plan[..1];
    RunStops(w, plan[..1], plan[1..]);
    assert plan[..1] + plan[1..] == plan;
  }

  // ---------------------------------------------------------------------
  // chunked transfers

  /** The concatenation of chunks. */
  function Flatten<T>(cs: seq<seq<T>>): (xs: seq<T>)
    decreases |cs|
  {
    if cs == [] then [] else cs[0] + Flatten(cs[1..])
  }

  /** Every chunk is full. */
  predicate Full<T>(cs: seq<seq<T>>, b: nat)
  {
    forall k :: 0 <= k < |cs| ==> |cs[k]| == b
  }

  /** Flattening one chunk more. */
  lemma {:induction false} FlattenSnoc<T>(cs: seq<seq<T>>, c: seq<T>)
    ensures Flatten(cs + [c]) == Flatten(cs) + c
    decreases |cs|
  {
    if cs == [] {
      assert [c][1..] == [];
    } else {
      assert (cs + [c])[1..] == cs[1..] + [c];
      FlattenSnoc(cs[1..], c);
    }
  }

  /**
   * The payloads of a chunked transfer of `xs`: chunks of `b` elements
   * and a final shorter one, each turned into a payload by `f` with the
   * position of its first element, counted from `a`.
   */
  function Frames<T>(f: (int, seq<T>) -> seq<uint8>, a: int, xs: seq<T>, b: nat): (ps: seq<seq<uint8>>)
    requires b > 0
    decreases |xs|
  {
    if xs == [] then []
    else if |xs| <= b then [f(a, xs)]
    else [f(a, xs[..b])] + Frames(f, a + b, xs[b..], b)
  }

  /** A full chunk `c` in front of `r`: the step of `FramesAppend`. */
  lemma FramesPrefix<T>(f: (int, seq<T>) -> seq<uint8>, a: int, c: seq<T>, r: seq<T>, ys: seq<T>, b: nat)
    requires b > 0 && |c| == b
    requires Frames(f, a + b, r + ys, b) == Frames(f, a + b, r, b) + Frames(f, a + b + |r|, ys, b)
    ensures Frames(f, a, c + r + ys, b) == Frames(f, a, c + r, b) + Frames(f, a + b + |r|, ys, b)
  {
    var xs := c + r + ys;
    if r + ys == [] {
      assert xs == c + r == c;
      assert Frames(f, a + b + |r|, ys, b) == [];
    } else {
      assert xs[..b] == c && xs[b..] == r + ys;
      if r == [] {
        assert c + r == c;
        assert r + ys == ys;
      } else {
        assert (c + r)[..b] == c && (c + r)[b..] == r;
      }
    }
  }

  /** Full chunks in front of the rest of a transfer are sent as they are. */
  lemma {:induction false} FramesAppend<T>(f: (int, seq<T>) -> seq<uint8>, a: int, cs: seq<seq<T>>, ys: seq<T>, b: nat)
    requires b > 0 && Full(cs, b)
    ensures Frames(f, a, Flatten(cs) + ys, b) == Frames(f, a, Flatten(cs), b) + Frames(f, a + |Flatten(cs)|, ys, b)
    decreases |cs|
  {
    if cs == [] {
      assert Flatten(cs) + ys == ys;
    } else {
      var c, rest := cs[0], cs[1..];
      assert Full(rest, b);
      FramesAppend(f, a + b, rest, ys, b);
      FramesPrefix(f, a, c, Flatten(rest), ys, b);
      assert Flatten(cs) == c + Flatten(rest);
      assert Flatten(cs) + ys == c + Flatten(rest) + ys;
    }
  }

  /** The payloads of a transfer, with chunks made of `cs` and a final partial chunk `last`. */
  lemma FramesOfChunks<T>(f: (int, seq<T>) -> seq<uint8>, a: int, cs: seq<seq<T>>, last: seq<T>, b: nat)
    requires b > 0 && Full(cs, b) && |last| <= b
    ensures Frames(f, a, Flatten(cs) + last, b) ==
      Frames(f, a, Flatten(cs), b) + (if last == [] then [] else [f(a + |Flatten(cs)|, last)])
  {
    FramesAppend(f, a, cs, last, b);
  }

  // ---------------------------------------------------------------------
  // what a transfer delivers

  /** The messages of type `kind`, sent with `r` retries, carrying the payloads `ps`. */
  function Plan(kind: uint8, r: nat, ps: seq<seq<uint8>>): (plan: seq<Msg>)
    ensures |plan| == |ps|
    ensures forall k :: 0 <= k < |ps| ==> plan[k] == Msg(kind, ps[k], r)
  {
    seq(|ps|, k requires 0 <= k < |ps| => Msg(kind, ps[k], r))
  }

  /** `Plan` of two payload lists one after the other. */
  lemma PlanAppend(kind: uint8, r: nat, ps: seq<seq<uint8>>, qs: seq<seq<uint8>>)
    ensures Plan(kind, r, ps + qs) == Plan(kind, r, ps) + Plan(kind, r, qs)
  {
  }

  /** The data frames a transfer of `plan` from state `w0` delivers to `peer`: those of the messages before the first failure. */
  function Delivers(w0: Wire, peer: Mac, plan: seq<Msg>): (m: seq<Sent>)
  {
    Sends(peer, plan[..RunF(w0, plan).count])
  }

  /** A transfer that succeeded delivered every message. */
  lemma DeliversAll(w0: Wire, peer: Mac, plan: seq<Msg>)
    requires RunF(w0, plan).ok
    ensures Delivers(w0, peer, plan) == Sends(peer, plan)
  {
    assert plan[..|plan|] == plan;
  }

  /**
   * Two transfers one after the other, the second made only if the first
   * succeeded: a failed first part delivers what it delivered alone, and
   * a successful one is followed by what the second part delivers from
   * the state the first left.
   */
  lemma DeliversAppend(w0: Wire, peer: Mac, p: seq<Msg>, q: seq<Msg>)
    ensures var o := RunF(w0, p);
      o.ok ==> Delivers(w0, peer, p + q) == Sends(peer, p) + Delivers(o.w, peer, q)
    ensures !RunF(w0, p).ok ==> Delivers(w0, peer, p + q) == Delivers(w0, peer, p)
  {
    var o := RunF(w0, p);
    if o.ok {
      RunAppend(w0, p, q);
      var k := RunF(o.w, q).count;
      assert RunF(w0, p + q).count == |p| + k;
      assert (p + q)[..|p| + k] == p + q[..k];
      SendsAppend(peer, p, q[..k]);
    } else {
      RunStops(w0, p, q);
      assert (p + q)[..o.count] == p[..o.count];
    }
  }

  /**
   * One message more after a transfer that has delivered everything so
   * far: the transfer goes on exactly when `CHECK_SEND` delivers it, and
   * the peer gets its data frame exactly then.
   */
  lemma MessageStep(w0: Wire, peer: Mac, done: seq<Msg>, m: Msg)
    requires RunF(w0, done).ok
    ensures var w := RunF(w0, done).w;
      var c := CheckSendF(w.link, m.retries);
      var o := RunF(w0, done + [m]);
      && o.ok == c.ok && o.w == After(w, c.scan, c.link)
      && Delivers(w0, peer, done + [m]) == Sends(peer, done) + (if c.ok then DataFrame(peer, m) else [])
  {
    var w := RunF(w0, done).w;
    var c := CheckSendF(w.link, m.retries);
    RunSnoc(w0, done, m);
    DeliversAll(w0, peer, done);
    if c.ok {
      DeliversAll(w0, peer, done + [m]);
      SendsSnoc(peer, done, m);
    } else {
      assert (done + [m])[..|done|] == done;
      assert Sends(peer, done) + [] == Sends(peer, done);
    }
  }

  /** Nothing is sent after a message `CHECK_SEND` gave up on. */
  lemma Abandoned(w0: Wire, peer: Mac, p: seq<Msg>, q: seq<Msg>)
    requires !RunF(w0, p).ok
    ensures RunF(w0, p + q) == RunF(w0, p)
    ensures Delivers(w0, peer, p + q) == Delivers(w0, peer, p)
  {
    RunStops(w0, p, q);
    DeliversAppend(w0, peer, p, q);
  }

  /**
   * The payloads of full chunks `cs` then one more chunk `c` of at most
   * `b` elements: the messages so far, then the message of `c`.
   */
  lemma PlanOfChunk<T>(kind: uint8, r: nat, f: (int, seq<T>) -> seq<uint8>, a: int, b: nat, cs: seq<seq<T>>, c: seq<T>)
    requires b > 0 && Full(cs, b) && 0 < |c| <= b
    ensures Plan(kind, r, Frames(f, a, Flatten(cs) + c, b))
      == Plan(kind, r, Frames(f, a, Flatten(cs), b)) + [Msg(kind, f(a + |Flatten(cs)|, c), r)]
  {
    FramesOfChunks(f, a, cs, c, b);
    PlanAppend(kind, r, Frames(f, a, Flatten(cs), b), [f(a + |Flatten(cs)|, c)]);
  }

  /** The messages of a transfer whose next chunk `c` is followed by `rest`. */
  lemma ChunkThenRest<T>(kind: uint8, r: nat, f: (int, seq<T>) -> seq<uint8>, a: int, b: nat,
                         cs: seq<seq<T>>, c: seq<T>, rest: seq<T>)
    requires b > 0 && Full(cs, b) && 0 < |c| <= b && (rest != [] ==> |c| == b)
    ensures Plan(kind, r, Frames(f, a, Flatten(cs) + c + rest, b))
      == Plan(kind, r, Frames(f, a, Flatten(cs), b)) + [Msg(kind, f(a + |Flatten(cs)|, c), r)]
         + Plan(kind, r, Frames(f, a + |Flatten(cs)| + b, rest, b))
  {
    PlanOfChunk(kind, r, f, a, b, cs, c);
    if rest == [] {
      assert Flatten(cs) + c + rest == Flatten(cs) + c;
      assert Frames(f, a + |Flatten(cs)| + b, rest, b) == [];
      assert Plan(kind, r, []) == [];
    } else {
      FlattenSnoc(cs, c);
      assert Full(cs + [c], b);
      FramesAppend(f, a, cs + [c], rest, b);
      PlanAppend(kind, r, Frames(f, a, Flatten(cs) + c, b), Frames(f, a + |Flatten(cs)| + b, rest, b));
    }
  }

  /**
   * A chunk `c` whose message `CHECK_SEND` gave up on ends the transfer
   * of `Flatten(cs) + c + rest` there: the chunks after it are never
   * sent.
   */
  lemma ChunkAbandoned<T>(w0: Wire, peer: Mac, kind: uint8, r: nat, f: (int, seq<T>) -> seq<uint8>, a: int, b: nat,
                          cs: seq<seq<T>>, c: seq<T>, rest: seq<T>)
    requires b > 0 && Full(cs, b) && 0 < |c| <= b && (rest != [] ==> |c| == b)
    requires !RunF(w0, Plan(kind, r, Frames(f, a, Flatten(cs) + c, b))).ok
    ensures var whole := Plan(kind, r, Frames(f, a, Flatten(cs) + c + rest, b));
      var part := Plan(kind, r, Frames(f, a, Flatten(cs) + c, b));
      RunF(w0, whole) == RunF(w0, part) && Delivers(w0, peer, whole) == Delivers(w0, peer, part)
  {
    var part := Plan(kind, r, Frames(f, a, Flatten(cs) + c, b));
    var tail := Plan(kind, r, Frames(f, a + |Flatten(cs)| + b, rest, b));
    ChunkSplit(kind, r, f, a, b, cs, c, rest);
    Abandoned(w0, peer, part, tail);
  }

  /** The messages of a transfer whose chunk `c` is followed by `rest`: those up to `c`, then those of `rest`. */
  lemma ChunkSplit<T>(kind: uint8, r: nat, f: (int, seq<T>) -> seq<uint8>, a: int, b: nat,
                      cs: seq<seq<T>>, c: seq<T>, rest: seq<T>)
    requires b > 0 && Full(cs, b) && 0 < |c| <= b && (rest != [] ==> |c| == b)
    ensures Plan(kind, r, Frames(f, a, Flatten(cs) + c + rest, b))
      == Plan(kind, r, Frames(f, a, Flatten(cs) + c, b)) + Plan(kind, r, Frames(f, a + |Flatten(cs)| + b, rest, b))
  {
    PlanOfChunk(kind, r, f, a, b, cs, c);
    ChunkThenRest(kind, r, f, a, b, cs, c, rest);
  }
}
