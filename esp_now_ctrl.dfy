/**
 * The ESP-NOW transport of esp_now_ctrl.cpp. A message on the air is a
 * two-byte header (type, payload size) followed by the payload. The
 * receive callback queues frames that fit a `Message`. The receive task
 * passes on only frames whose length matches their header. A send is
 * retried until the driver reports success or the retries run out.
 *
 * The driver is replaced by two sequences:
 * - `statuses`: what the send-status queue delivers, one entry per wait,
 *   where `NoStatus` is a wait that timed out after one second;
 * - `air`: every frame handed to `esp_now_send`;
 * and a third sequence records what the peer got:
 * - `delivered`: every frame whose send ended with a `Success` status.
 * Peers, channels as seen by the driver, power and the Wi-Fi mode are
 * not modelled.
 */
module EspNowCtrl {
  import opened Ints

  const MAX_PAYLOAD_SIZE: nat := 240
  const MAX_PACKET_SIZE: nat := 250
  /** `sizeof(Message) - MAX_PAYLOAD_SIZE`: type and payload size. */
  const HEADER_SIZE: nat := 2
  /** `sizeof(Message)`. */
  const MESSAGE_SIZE: nat := 242
  const MAX_CHANNEL: nat := 13
  const MAX_PARAM_DEFS: nat := 5
  const MAX_PARAM_READS_WRITES: nat := 118
  /** The default `retryCount` of `SendMessage`. */
  const SEND_RETRIES: uint8 := 3

  // MessageType_t
  const MSG_NACK: uint8 := 0
  const MSG_TRANSMIT_DONE: uint8 := 1
  const MSG_PAIR_REQUEST: uint8 := 2
  const MSG_PAIR_RESPONSE: uint8 := 3
  const MSG_READ_PARAM_REQUEST: uint8 := 4
  const MSG_READ_PARAM_RESPONSE: uint8 := 5
  const MSG_WRITE_PARAM_REQUEST: uint8 := 6
  const MSG_WRITE_PARAM_RESPONSE: uint8 := 7
  const MSG_GET_PARAM_DEFS_REQUEST: uint8 := 8
  const MSG_GET_PARAM_DEFS_RESPONSE: uint8 := 9
  const MSG_FW_UPDATE_REQUEST: uint8 := 10
  const MSG_FW_UPDATE_RESPONSE: uint8 := 11
  const MSG_GET_LOG_REQUEST: uint8 := 12
  const MSG_GET_LOG_RESPONSE: uint8 := 13
  const MSG_TIME_SYNC_REQUEST: uint8 := 14
  const MSG_TIME_SYNC_RESPONSE: uint8 := 15
  const MSG_SLEEP: uint8 := 16
  const MSG_BYTE_STREAM: uint8 := 17
  const MSG_DISCOVERY: uint8 := 18
  const MSG_ACK: uint8 := 19

  // PairingState_t
  const PAIR_STATE_INITIAL_REQUEST: uint8 := 0
  const PAIR_STATE_APPROVED: uint8 := 1
  const PAIR_STATE_PAIRED: uint8 := 2
  const PAIR_STATE_EXPIRED: uint8 := 3

  /** A six-byte MAC address. */
  type Mac = m: seq<uint8> | |m| == 6 witness [0, 0, 0, 0, 0, 0]

  const BROADCAST: Mac := [0xFF, 0xFF, 0xFF, 0xFF, 0xFF, 0xFF]

  /** A message: its type and its payload. */
  datatype Frame = Frame(kind: uint8, payload: seq<uint8>)

  /** What the send-status queue yields within one second of a send. */
  datatype Status = Success | Failure | NoStatus

  /** One frame handed to the driver, with its destination. */
  datatype Sent = Sent(peer: Mac, bytes: seq<uint8>)

  /** The bytes `SendMessageRaw` hands to the driver for a payload that fits. */
  function Encode(kind: uint8, payload: seq<uint8>): (bytes: seq<uint8>)
    requires |payload| <= MAX_PAYLOAD_SIZE
    ensures |bytes| == HEADER_SIZE + |payload| <= MESSAGE_SIZE
  {
    [kind, |payload| as uint8] + payload
  }

  /**
   * A received frame of `len` bytes as the receive callback queues it and
   * the receive task checks it: `None` for a frame that is dropped.
   */
  function Receive(data: seq<uint8>): (r: Option<Frame>)
    ensures r.Some? ==> |r.value.payload| <= MAX_PAYLOAD_SIZE
  {
    if |data| > MESSAGE_SIZE then None             // onDataRecv
    else if |data| < HEADER_SIZE then None         // "data too short"
    else if |data| != HEADER_SIZE + data[1] then None   // "incorrect length"
    else Some(Frame(data[0], data[HEADER_SIZE..]))
  }

  /** Every frame the sender builds passes the receiver's checks unchanged. */
  lemma EncodeAccepted(kind: uint8, payload: seq<uint8>)
    requires |payload| <= MAX_PAYLOAD_SIZE
    ensures Receive(Encode(kind, payload)) == Some(Frame(kind, payload))
  {
    var bytes := Encode(kind, payload);
    assert bytes[HEADER_SIZE..] == payload;
  }

  /**
   * The receiver accepts exactly the encodings: an accepted frame is the
   * encoding of what it was accepted as, and anything shorter than the
   * header or longer than its declared payload is dropped.
   */
  lemma AcceptedAreEncodings(data: seq<uint8>)
    ensures Receive(data).Some? ==>
      var f := Receive(data).value;
      |f.payload| <= MAX_PAYLOAD_SIZE && data == Encode(f.kind, f.payload)
    ensures |data| < HEADER_SIZE ==> Receive(data).None?
    ensures |data| >= HEADER_SIZE && |data| != HEADER_SIZE + data[1] ==> Receive(data).None?
    ensures |data| > MESSAGE_SIZE ==> Receive(data).None?
  {
    if Receive(data).Some? {
      var f := Receive(data).value;
      assert data == [data[0], data[1]] + data[HEADER_SIZE..];
      assert data[1] == |f.payload|;
    }
  }

  // ---------------------------------------------------------------------
  // the retry loop of SendMessageInternal

  /** The status the next wait yields: an empty queue times out. */
  function Head(st: seq<Status>): Status
  {
    if st == [] then NoStatus else st[0]
  }

  /** The statuses left after one wait. */
  function Tail(st: seq<Status>): seq<Status>
  {
    if st == [] then [] else st[1..]
  }

  /** Whether one of the first `n` waits yields `Success`. */
  function Delivered(st: seq<Status>, n: nat): (ok: bool)
    decreases n
  {
    n > 0 && (Head(st) == Success || Delivered(Tail(st), n - 1))
  }

  /** How many sends `n` retries make: up to and including the first success. */
  function Attempts(st: seq<Status>, n: nat): (k: nat)
    ensures k <= n
    ensures !Delivered(st, n) ==> k == n
    ensures Delivered(st, n) ==> 1 <= k
    decreases n
  {
    if n == 0 then 0
    else if Head(st) == Success then 1
    else 1 + Attempts(Tail(st), n - 1)
  }

  /** The statuses after `k` waits. */
  function Drop(st: seq<Status>, k: nat): (r: seq<Status>)
  {
    if k <= |st| then st[k..] else []
  }

  /** `k` copies of a transmission. */
  function Repeat(xs: seq<Sent>, k: nat): (r: seq<Sent>)
    decreases k
  {
    if k == 0 then [] else Repeat(xs, k - 1) + xs
  }

  /** What one `SendMessageRaw` puts on the air: nothing for an oversized payload. */
  function Transmission(peer: Mac, kind: uint8, payload: seq<uint8>): (r: seq<Sent>)
    ensures |r| <= 1
  {
    if |payload| > MAX_PAYLOAD_SIZE then [] else [Sent(peer, Encode(kind, payload))]
  }

  /**
   * A send succeeds exactly when one of the first `n` waits yields
   * `Success`, and then the last attempt is the first such wait.
   */
  lemma {:induction false} DeliveredIsFirstSuccess(st: seq<Status>, n: nat)
    ensures Delivered(st, n) <==> exists i :: 0 <= i < n && i < |st| && st[i] == Success
    ensures Delivered(st, n) ==>
      var k := Attempts(st, n);
      k - 1 < |st| && st[k - 1] == Success
      && forall i :: 0 <= i < k - 1 ==> st[i] != Success
    decreases n
  {
    if n > 0 {
      DeliveredIsFirstSuccess(Tail(st), n - 1);
    }
    if n > 0 && st != [] {
      assert Tail(st) == st[1..];
      if Delivered(st, n) && st[0] != Success {
        var k := Attempts(st[1..], n - 1);
        assert Attempts(st, n) == k + 1;
        assert forall i :: 1 <= i < k ==> st[i] == st[1..][i - 1];
      }
      if exists i :: 0 <= i < n && i < |st| && st[i] == Success {
        var i :| 0 <= i < n && i < |st| && st[i] == Success;
        if i > 0 {
          assert st[1..][i - 1] == Success;
        }
      }
    }
  }

  /**
   * One pass of the retry loop after `k` waits with `n` retries left: the
   * wait consumes one status and either ends the send or leaves `n - 1`.
   */
  lemma RetryStep(st: seq<Status>, k: nat, k1: nat, n: nat, n1: nat)
    requires n > 0 && k1 == k + 1 && n1 == n - 1
    ensures Drop(st, k1) == Tail(Drop(st, k))
    ensures Head(Drop(st, k)) == Success ==> Delivered(Drop(st, k), n) && Attempts(Drop(st, k), n) == 1
    ensures Head(Drop(st, k)) != Success ==>
      && Delivered(Drop(st, k), n) == Delivered(Drop(st, k1), n1)
      && Attempts(Drop(st, k), n) == 1 + Attempts(Drop(st, k1), n1)
  {
  }

  class Radio {
    /** `initDone`. */
    var initDone: bool
    /** What the send-status queue will yield, wait by wait. */
    var statuses: seq<Status>
    /** Every frame handed to `esp_now_send`, oldest first. */
    var air: seq<Sent>
    /** The frames sends reported as delivered, oldest first. */
    var delivered: seq<Sent>
    /** The channel last given to `SetChannel`. */
    var channel: uint8

    constructor (st: seq<Status>)
      ensures !initDone && statuses == st && air == [] && delivered == [] && channel == 0
    {
      initDone := false;
      statuses := st;
      air := [];
      delivered := [];
      channel := 0;
    }

    /**
     * `Init()`: does nothing once done; otherwise it is done unless the
     * driver fails to start (`driverOk` false).
     */
    method Init(driverOk: bool)
      modifies this
      ensures initDone == (old(initDone) || driverOk)
      ensures statuses == old(statuses) && air == old(air) && delivered == old(delivered)
      ensures channel == old(channel)
    {
      if initDone {
        return;
      }
      if !driverOk {
        return;
      }
      initDone := true;
    }

    /** `SetChannel(c)`. */
    method SetChannel(c: uint8)
      modifies this
      ensures channel == c
      ensures initDone == old(initDone) && statuses == old(statuses) && air == old(air)
      ensures delivered == old(delivered)
    {
      channel := c;
    }

    /** `SendMessageRaw`: one frame to the driver, none for a payload over 240 bytes. */
    method SendMessageRaw(peer: Mac, kind: uint8, payload: seq<uint8>)
      requires |payload| <= 255
      modifies this
      ensures |payload| > MAX_PAYLOAD_SIZE ==> air == old(air)
      ensures |payload| <= MAX_PAYLOAD_SIZE ==> air == old(air) + [Sent(peer, Encode(kind, payload))]
      ensures initDone == old(initDone) && statuses == old(statuses) && channel == old(channel)
      ensures delivered == old(delivered)
    {
      if |payload| > MAX_PAYLOAD_SIZE {
        return;
      }
      var msg := [kind, |payload| as uint8] + payload;
      air := air + [Sent(peer, msg)];
    }

    /**
     * `SendMessageInternal`: sends, waits for a status, and tries again
     * after a failure or a timeout, at most `retryCount` times.
     */
    method SendMessageInternal(peer: Mac, kind: uint8, payload: seq<uint8>, retryCount: uint8)
      returns (ok: bool)
      requires |payload| <= 255
      modifies this
      ensures ok == Delivered(old(statuses), retryCount as nat)
      ensures statuses == Drop(old(statuses), Attempts(old(statuses), retryCount as nat))
      ensures air == old(air) + Repeat(Transmission(peer, kind, payload), Attempts(old(statuses), retryCount as nat))
      ensures delivered == old(delivered) + (if ok then Transmission(peer, kind, payload) else [])
      ensures initDone == old(initDone) && channel == old(channel)
    {
      ghost var st0 := statuses;
      ghost var tx := Transmission(peer, kind, payload);
      ghost var air0 := air;
      ghost var n: nat := retryCount as nat;
      ghost var k: nat, left: nat := 0, n;
      var retries: uint8 := 0;
      ok := false;
      while retries < retryCount
        invariant !ok
        invariant k == retries as nat <= n && left == n - k
        invariant statuses == Drop(st0, k)
        invariant air == air0 + Repeat(tx, k)
        invariant Delivered(st0, n) == Delivered(statuses, left)
        invariant Attempts(st0, n) == k + Attempts(statuses, left)
        invariant initDone == old(initDone) && channel == old(channel) && delivered == old(delivered)
      {
        ghost var k1, left1 := k + 1, left - 1;
        RetryStep(st0, k, k1, left, left1);
        var status := Attempt(peer, kind, payload);
        if status == Success {
          ok := true;
          break;
        }
        retries := retries + 1;
        k, left := k1, left1;
      }
      if ok {
        delivered := delivered + Transmission(peer, kind, payload);
      }
    }

    /** One pass of the retry loop: a send, then one wait for its status. */
    method Attempt(peer: Mac, kind: uint8, payload: seq<uint8>) returns (status: Status)
      requires |payload| <= 255
      modifies this
      ensures status == Head(old(statuses)) && statuses == Tail(old(statuses))
      ensures air == old(air) + Transmission(peer, kind, payload)
      ensures initDone == old(initDone) && channel == old(channel) && delivered == old(delivered)
    {
      SendMessageRaw(peer, kind, payload);
      status := Head(statuses);
      statuses := Tail(statuses);
    }

    /** `SendMessage(peer, type, payload, size, retryCount)`. */
    method SendMessage(peer: Mac, kind: uint8, payload: seq<uint8>, retryCount: uint8)
      returns (ok: bool)
      requires |payload| <= 255
      modifies this
      ensures ok == Delivered(old(statuses), retryCount as nat)
      ensures statuses == Drop(old(statuses), Attempts(old(statuses), retryCount as nat))
      ensures air == old(air) + Repeat(Transmission(peer, kind, payload), Attempts(old(statuses), retryCount as nat))
      ensures delivered == old(delivered) + (if ok then Transmission(peer, kind, payload) else [])
      ensures initDone == old(initDone) && channel == old(channel)
    {
      ok := SendMessageInternal(peer, kind, payload, retryCount);
    }
  }

  /** One entry of the receive queue: the sender and the bytes received. */
  datatype Item = Item(mac: Mac, data: seq<uint8>)

  class Inbox {
    /** The receive queue, oldest first. */
    var items: seq<Item>

    /** Only frames that fit a `Message` are queued. */
    ghost predicate Valid()
      reads this
    {
      forall k :: 0 <= k < |items| ==> |items[k].data| <= MESSAGE_SIZE
    }

    constructor ()
      ensures Valid() && items == []
    {
      items := [];
    }

    /** `onDataRecv`: queues a frame that fits a `Message`. */
    method OnDataRecv(mac: Mac, data: seq<uint8>)
      requires Valid()
      modifies this
      ensures Valid()
      ensures |data| <= MESSAGE_SIZE ==> items == old(items) + [Item(mac, data)]
      ensures |data| > MESSAGE_SIZE ==> items == old(items)
    {
      if |data| <= MESSAGE_SIZE {
        items := items + [Item(mac, data)];
      }
    }

    /**
     * `Task()`: takes the oldest queued frame and yields its sender and
     * message when its length is consistent with its header.
     */
    method Take() returns (r: Option<(Mac, Frame)>)
      requires Valid()
      modifies this
      ensures Valid()
      ensures old(items) == [] ==> r.None? && items == []
      ensures old(items) != [] ==>
        && items == old(items)[1..]
        && (Receive(old(items)[0].data).None? ==> r.None?)
        && (Receive(old(items)[0].data).Some? ==>
              r == Some((old(items)[0].mac, Receive(old(items)[0].data).value)))
    {
      if items == [] {
        return None;
      }
      var it := items[0];
      items := items[1..];
      if |it.data| < HEADER_SIZE {
        return None;
      }
      if |it.data| != HEADER_SIZE + it.data[1] {
        return None;
      }
      r := Some((it.mac, Frame(it.data[0], it.data[HEADER_SIZE..])));
    }
  }
}
