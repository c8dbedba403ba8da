/**
 * The packed payload layouts of esp_now_ctrl.h as byte sequences, little
 * endian as on the ESP32: a parameter definition (`pardef_t_espnow`) and
 * the `ParamDefsPayload` of up to five of them, the read response
 * (`ReadResponsePayload`, also the layout of a write request), the log
 * chunk (`DataPayload`), the pairing probe and the sleep notice. Every
 * layout comes with the decoder the master applies, and the two are
 * proved inverse; a chunked transfer is proved to rebuild its data when
 * the master places each chunk at the index it carries.
 */
module EspNowFrames {
  import opened Ints
  import opened ParamTypes
  import opened ParamTable
  import opened EspNowCtrl
  import opened EspNowLink

  // ---------------------------------------------------------------------
  // scalars

  /** A `uint16_t` in memory: low byte first. */
  function Le16(v: uint16): (b: seq<uint8>)
    ensures |b| == 2
  {
    [v % 0x100, v / 0x100]
  }

  /** The `uint16_t` two bytes hold. */
  function FromLe16(b: seq<uint8>): uint16
    requires |b| == 2
  {
    b[0] as int + 0x100 * (b[1] as int)
  }

  lemma Le16RoundTrip(v: uint16)
    ensures FromLe16(Le16(v)) == v
  {
  }

  lemma Le16OfBytes(b: seq<uint8>)
    requires |b| == 2
    ensures Le16(FromLe16(b)) == b
  {
  }

  /** A `uint32_t` in memory: low half first. */
  function Le32(v: uint32): (b: seq<uint8>)
    ensures |b| == 4
  {
    Le16(v % 0x1_0000) + Le16(v / 0x1_0000)
  }

  /** The `uint32_t` four bytes hold. */
  function FromLe32(b: seq<uint8>): uint32
    requires |b| == 4
  {
    FromLe16(b[..2]) + 0x1_0000 * FromLe16(b[2..])
  }

  lemma Le32RoundTrip(v: uint32)
    ensures FromLe32(Le32(v)) == v
  {
    var b := Le32(v);
    assert b[..2] == Le16(v % 0x1_0000) && b[2..] == Le16(v / 0x1_0000);
    Le16RoundTrip(v % 0x1_0000);
    Le16RoundTrip(v / 0x1_0000);
  }

  /** An `int16_t` in memory: its two's complement pattern. */
  function I16(v: int16): (b: seq<uint8>)
    ensures |b| == 2
  {
    Le16(ToUint16(v))
  }

  /** The `int16_t` two bytes hold. */
  function FromI16(b: seq<uint8>): int16
    requires |b| == 2
  {
    ToInt16(FromLe16(b))
  }

  lemma I16RoundTrip(v: int16)
    ensures FromI16(I16(v)) == v
  {
    Le16RoundTrip(ToUint16(v));
    if v < 0 {
      assert ToUint16(v) == v + 0x1_0000;
    }
  }

  /** An `int32_t` in memory: its two's complement pattern. */
  function I32(v: int32): (b: seq<uint8>)
    ensures |b| == 4
  {
    Le32(ToUint32(v))
  }

  /** The `int32_t` four bytes hold. */
  function FromI32(b: seq<uint8>): int32
    requires |b| == 4
  {
    ToInt32(FromLe32(b))
  }

  lemma I32RoundTrip(v: int32)
    ensures FromI32(I32(v)) == v
  {
    Le32RoundTrip(ToUint32(v));
    Int32OfUint32(v);
  }

  // ---------------------------------------------------------------------
  // parameter definitions

  /** `sizeof(pardef_t_espnow)`. */
  const DEF_SIZE: nat := 47
  /** `sizeof(ptxt)`. */
  const NAME_SIZE: nat := 32

  /** A table entry as `sendParamDefs` sees it: its descriptor and its name. */
  datatype DefEntry = DefEntry(d: ParDef, name: string)

  /** A character of a name as the byte `char` stores. */
  function CharByte(c: char): uint8
  {
    (c as int) % 0x100
  }

  /**
   * `strncpy(ptxt, name, 31)` then `ptxt[31] = 0`: at most 31 bytes of
   * the name, zero-filled to 32 bytes.
   */
  function NameField(name: string): (b: seq<uint8>)
    ensures |b| == NAME_SIZE
  {
    var n := Min(|name|, NAME_SIZE - 1);
    seq(n, k requires 0 <= k < n => CharByte(name[k])) + seq(NAME_SIZE - n, _ => 0)
  }

  /**
   * The name field holds the first 31 characters of the name followed by
   * zeros: a name without NUL characters reads back truncated to 31.
   */
  lemma NameFieldText(name: string)
    ensures forall k :: 0 <= k < Min(|name|, NAME_SIZE - 1) ==> NameField(name)[k] == CharByte(name[k])
    ensures forall k :: Min(|name|, NAME_SIZE - 1) <= k < NAME_SIZE ==> NameField(name)[k] == 0
    ensures NameField(name)[NAME_SIZE - 1] == 0
  {
  }

  /** One `pardef_t_espnow`: min, max, dsc, adr, flags, ptxt. */
  function DefRecord(e: DefEntry): (b: seq<uint8>)
    ensures |b| == DEF_SIZE
  {
    I32(e.d.min) + I32(e.d.max) + Le32(e.d.dsc as int) + Le16(e.d.adr) + [e.d.atr] + NameField(e.name)
  }

  /** What the master reads from one record. */
  datatype DefInfo = DefInfo(min: int32, max: int32, dsc: uint32, adr: uint16, flags: uint8, ptxt: seq<uint8>)

  /** The master's reading of a 47-byte record. */
  function DecodeDef(b: seq<uint8>): DefInfo
    requires |b| == DEF_SIZE
  {
    DefInfo(FromI32(b[0..4]), FromI32(b[4..8]), FromLe32(b[8..12]), FromLe16(b[12..14]), b[14], b[15..])
  }

  /** A record reads back as the entry's limits, flags, address and name field. */
  lemma DefRoundTrip(e: DefEntry)
    ensures DecodeDef(DefRecord(e)) == DefInfo(e.d.min, e.d.max, e.d.dsc as int, e.d.adr, e.d.atr, NameField(e.name))
  {
    var b := DefRecord(e);
    assert b[0..4] == I32(e.d.min) && b[4..8] == I32(e.d.max);
    assert b[8..12] == Le32(e.d.dsc as int) && b[12..14] == Le16(e.d.adr);
    assert b[15..] == NameField(e.name);
    I32RoundTrip(e.d.min);
    I32RoundTrip(e.d.max);
    Le32RoundTrip(e.d.dsc as int);
    Le16RoundTrip(e.d.adr);
  }

  /** The records of several entries, one after the other. */
  function DefRecords(es: seq<DefEntry>): (b: seq<uint8>)
    ensures |b| == DEF_SIZE * |es|
  {
    if es == [] then [] else DefRecords(es[..|es| - 1]) + DefRecord(es[|es| - 1])
  }

  /**
   * The payload `sendParamDefs` sends for a group of entries: `numParams`
   * then the records, `sizeof(pardef_t_espnow) * n + 1` bytes.
   */
  function DefPayload(es: seq<DefEntry>): (p: seq<uint8>)
    ensures |p| == DEF_SIZE * |es| + 1
  {
    [|es| % 0x100] + DefRecords(es)
  }

  /** The master's reading of consecutive 47-byte records. */
  function DecodeDefRecords(b: seq<uint8>): (r: seq<DefInfo>)
    requires |b| % DEF_SIZE == 0
    decreases |b|
  {
    if b == [] then [] else DecodeDefRecords(b[..|b| - DEF_SIZE]) + [DecodeDef(b[|b| - DEF_SIZE..])]
  }

  /** The master's reading of a definitions payload; its length must match the count. */
  function DecodeDefs(p: seq<uint8>): Option<seq<DefInfo>>
  {
    if |p| >= 1 && (|p| - 1) % DEF_SIZE == 0 && (|p| - 1) / DEF_SIZE == p[0]
    then Some(DecodeDefRecords(p[1..])) else None
  }

  /** What the master reads for an entry. */
  function Info(e: DefEntry): DefInfo
  {
    DefInfo(e.d.min, e.d.max, e.d.dsc as int, e.d.adr, e.d.atr, NameField(e.name))
  }

  /** What the master reads for several entries. */
  function Infos(es: seq<DefEntry>): (r: seq<DefInfo>)
    ensures |r| == |es|
  {
    if es == [] then [] else Infos(es[..|es| - 1]) + [Info(es[|es| - 1])]
  }

  /** The records read back as the entries they came from. */
  lemma {:induction false} DefRecordsRoundTrip(es: seq<DefEntry>)
    ensures DecodeDefRecords(DefRecords(es)) == Infos(es)
    decreases |es|
  {
    if es != [] {
      var b := DefRecords(es);
      assert b == DefRecords(es[..|es| - 1]) + DefRecord(es[|es| - 1]);
      assert b[..|b| - DEF_SIZE] == DefRecords(es[..|es| - 1]);
      assert b[|b| - DEF_SIZE..] == DefRecord(es[|es| - 1]);
      DefRecordsRoundTrip(es[..|es| - 1]);
      DefRoundTrip(es[|es| - 1]);
    }
  }

  /** A definitions payload of at most five entries reads back as those entries. */
  lemma DefsRoundTrip(es: seq<DefEntry>)
    requires |es| <= MAX_PARAM_DEFS
    ensures DecodeDefs(DefPayload(es)) == Some(Infos(es))
    ensures |DefPayload(es)| <= MAX_PAYLOAD_SIZE
  {
    var p := DefPayload(es);
    assert p[1..] == DefRecords(es);
    DecodeCounted(p, |es|);
    DefRecordsRoundTrip(es);
  }

  /** A payload whose count byte matches its number of records is read as those records. */
  lemma DecodeCounted(p: seq<uint8>, n: nat)
    requires n <= MAX_PARAM_DEFS && |p| == DEF_SIZE * n + 1 && p[0] == n
    ensures (|p| - 1) % DEF_SIZE == 0 && DecodeDefs(p) == Some(DecodeDefRecords(p[1..]))
    ensures |p| <= MAX_PAYLOAD_SIZE
  {
    RecordCount(n);
  }

  lemma RecordCount(k: nat)
    ensures (DEF_SIZE * k) % DEF_SIZE == 0 && (DEF_SIZE * k) / DEF_SIZE == k
  {
  }

  // ---------------------------------------------------------------------
  // register values

  /** `int16_t values[]` in memory. */
  function Values(vs: seq<int16>): (b: seq<uint8>)
    ensures |b| == 2 * |vs|
  {
    if vs == [] then [] else I16(vs[0]) + Values(vs[1..])
  }

  /** The `int16_t` values an even number of bytes hold. */
  function FromValues(b: seq<uint8>): (vs: seq<int16>)
    requires |b| % 2 == 0
    ensures |vs| == |b| / 2
    decreases |b|
  {
    if b == [] then [] else [FromI16(b[..2])] + FromValues(b[2..])
  }

  lemma {:induction false} ValuesRoundTrip(vs: seq<int16>)
    ensures FromValues(Values(vs)) == vs
  {
    if vs != [] {
      var b := Values(vs);
      assert b[..2] == I16(vs[0]) && b[2..] == Values(vs[1..]);
      I16RoundTrip(vs[0]);
      ValuesRoundTrip(vs[1..]);
    }
  }

  /**
   * A `ReadResponsePayload` cut to `4 + 2 n` bytes: the address of the
   * first value, the count, the values.
   */
  function ValuesPayload(a: int, vs: seq<int16>): (p: seq<uint8>)
    ensures |p| == 4 + 2 * |vs|
  {
    Le16(ToUint16(a)) + Le16(ToUint16(|vs|)) + Values(vs)
  }

  /** A block of register values: the address of the first one, and the values. */
  datatype Block = Block(adr: uint16, values: seq<int16>)

  /** The master's reading of a read response: the count must match the length. */
  function DecodeValues(p: seq<uint8>): Option<Block>
  {
    if |p| >= 4 && |p| % 2 == 0 && FromLe16(p[2..4]) == (|p| - 4) / 2
    then Some(Block(FromLe16(p[..2]), FromValues(p[4..])))
    else None
  }

  /** A read response reads back as the address and the values it was made of. */
  lemma ValuesPayloadRoundTrip(a: uint16, vs: seq<int16>)
    requires |vs| <= UINT16_MAX
    ensures DecodeValues(ValuesPayload(a, vs)) == Some(Block(a, vs))
  {
    var p := ValuesPayload(a, vs);
    assert p[..2] == Le16(a) && p[2..4] == Le16(|vs|) && p[4..] == Values(vs);
    Le16RoundTrip(a);
    Le16RoundTrip(|vs|);
    ValuesRoundTrip(vs);
  }

  /**
   * The master's reassembly of a run of read responses starting at
   * address `at`: each block must start where the previous one ended.
   */
  function CollectValues(ps: seq<seq<uint8>>, at: int): Option<seq<int16>>
    decreases |ps|
  {
    if ps == [] then Some([])
    else match DecodeValues(ps[0])
      case None => None
      case Some(blk) =>
        if blk.adr != at then None
        else match CollectValues(ps[1..], at + |blk.values|)
          case None => None
          case Some(rest) => Some(blk.values + rest)
  }

  /** The payload `readParamsRequestHandler` builds for a block. */
  function ValuesFrame(a: int, vs: seq<int16>): seq<uint8>
  {
    ValuesPayload(a, vs)
  }

  /**
   * Read responses of at most 118 values, each headed by the address of
   * its first value, rebuild the whole range of values.
   */
  lemma {:induction false} ValuesReassemble(a: nat, xs: seq<int16>)
    requires a + |xs| <= UINT16_MAX + 1
    ensures CollectValues(Frames(ValuesFrame, a, xs, MAX_PARAM_READS_WRITES), a) == Some(xs)
    decreases |xs|
  {
    if xs == [] {
    } else if |xs| <= MAX_PARAM_READS_WRITES {
      ValuesReassembleLast(a, xs);
    } else {
      var a1, head, tail := a + MAX_PARAM_READS_WRITES, xs[..MAX_PARAM_READS_WRITES], xs[MAX_PARAM_READS_WRITES..];
      var rest := Frames(ValuesFrame, a1, tail, MAX_PARAM_READS_WRITES);
      ValuesReassemble(a1, tail);
      ValuesReassembleNext(a, xs, a1, head, tail, rest);
    }
  }

  lemma ValuesReassembleLast(a: nat, xs: seq<int16>)
    requires a + |xs| <= UINT16_MAX + 1 && 0 < |xs| <= MAX_PARAM_READS_WRITES
    ensures CollectValues(Frames(ValuesFrame, a, xs, MAX_PARAM_READS_WRITES), a) == Some(xs)
  {
    ValuesPayloadRoundTrip(a, xs);
    assert Frames(ValuesFrame, a, xs, MAX_PARAM_READS_WRITES) == [ValuesFrame(a, xs)] + [];
    CollectValuesStep(ValuesFrame(a, xs), [], a, a + |xs|, xs, []);
    assert xs + [] == xs;
  }

  /** The first 118 values `head` in one block, then the blocks of the rest `tail` from `a1` on. */
  lemma ValuesReassembleNext(a: nat, xs: seq<int16>, a1: nat, head: seq<int16>, tail: seq<int16>, rest: seq<seq<uint8>>)
    requires a + |xs| <= UINT16_MAX + 1 && |xs| > MAX_PARAM_READS_WRITES && a1 == a + MAX_PARAM_READS_WRITES
    requires head == xs[..MAX_PARAM_READS_WRITES] && tail == xs[MAX_PARAM_READS_WRITES..]
    requires rest == Frames(ValuesFrame, a1, tail, MAX_PARAM_READS_WRITES) && CollectValues(rest, a1) == Some(tail)
    ensures CollectValues(Frames(ValuesFrame, a, xs, MAX_PARAM_READS_WRITES), a) == Some(xs)
  {
    var p := ValuesFrame(a, head);
    assert Frames(ValuesFrame, a, xs, MAX_PARAM_READS_WRITES) == [p] + rest;
    ValuesPayloadRoundTrip(a, head);
    CollectValuesStep(p, rest, a, a1, head, tail);
    assert head + tail == xs;
  }

  /** A block that starts where expected is followed by the blocks after it. */
  lemma CollectValuesStep(p: seq<uint8>, rest: seq<seq<uint8>>, at: uint16, at1: int, c: seq<int16>, r: seq<int16>)
    requires at1 == at + |c| && DecodeValues(p) == Some(Block(at, c)) && CollectValues(rest, at1) == Some(r)
    ensures CollectValues([p] + rest, at) == Some(c + r)
  {
    assert ([p] + rest)[0] == p && ([p] + rest)[1..] == rest;
  }

  // ---------------------------------------------------------------------
  // log chunks

  /** `sizeof(payload.data)` of a `DataPayload`. */
  const LOG_CHUNK: nat := 230

  /** A `DataPayload` cut to `4 + 1 + nmr` bytes: the byte offset, the count, the bytes. */
  function LogPayload(a: int, c: seq<uint8>): (p: seq<uint8>)
    ensures |p| == 5 + |c|
  {
    Le32(ToUint32(a)) + [|c| % 0x100] + c
  }

  /** A chunk of a byte stream: where it starts, and its bytes. */
  datatype Chunk = Chunk(index: uint32, data: seq<uint8>)

  /** The master's reading of a log chunk: the count must match the length. */
  function DecodeLog(p: seq<uint8>): Option<Chunk>
  {
    if |p| >= 5 && p[4] == |p| - 5 then Some(Chunk(FromLe32(p[..4]), p[5..])) else None
  }

  lemma LogPayloadRoundTrip(a: uint32, c: seq<uint8>)
    requires |c| <= LOG_CHUNK
    ensures DecodeLog(LogPayload(a, c)) == Some(Chunk(a, c))
  {
    var p := LogPayload(a, c);
    assert p[..4] == Le32(a) && p[5..] == c;
    Le32RoundTrip(a);
  }

  /** The master's reassembly of log chunks from byte offset `at`: each must start where the last ended. */
  function CollectLog(ps: seq<seq<uint8>>, at: int): Option<seq<uint8>>
    decreases |ps|
  {
    if ps == [] then Some([])
    else match DecodeLog(ps[0])
      case None => None
      case Some(ch) =>
        if ch.index != at then None
        else match CollectLog(ps[1..], at + |ch.data|)
          case None => None
          case Some(rest) => Some(ch.data + rest)
  }

  /** Log chunks of at most 230 bytes, each carrying its byte offset, rebuild the stream. */
  lemma {:induction false} LogReassemble(a: nat, xs: seq<uint8>)
    requires a + |xs| <= 0x1_0000_0000
    ensures CollectLog(Frames(LogPayload, a, xs, LOG_CHUNK), a) == Some(xs)
    decreases |xs|
  {
    if xs == [] {
    } else if |xs| <= LOG_CHUNK {
      LogReassembleLast(a, xs);
    } else {
      LogReassemble(a + LOG_CHUNK, xs[LOG_CHUNK..]);
      LogReassembleNext(a, xs);
    }
  }

  lemma LogReassembleLast(a: nat, xs: seq<uint8>)
    requires a + |xs| <= 0x1_0000_0000 && 0 < |xs| <= LOG_CHUNK
    ensures CollectLog(Frames(LogPayload, a, xs, LOG_CHUNK), a) == Some(xs)
  {
    LogPayloadRoundTrip(a, xs);
    assert Frames(LogPayload, a, xs, LOG_CHUNK) == [LogPayload(a, xs)] + [];
    CollectLogStep(LogPayload(a, xs), [], a, xs, []);
    assert xs + [] == xs;
  }

  lemma LogReassembleNext(a: nat, xs: seq<uint8>)
    requires a + |xs| <= 0x1_0000_0000 && |xs| > LOG_CHUNK
    requires CollectLog(Frames(LogPayload, a + LOG_CHUNK, xs[LOG_CHUNK..], LOG_CHUNK), a + LOG_CHUNK) == Some(xs[LOG_CHUNK..])
    ensures CollectLog(Frames(LogPayload, a, xs, LOG_CHUNK), a) == Some(xs)
  {
    var c, r := xs[..LOG_CHUNK], xs[LOG_CHUNK..];
    var rest := Frames(LogPayload, a + LOG_CHUNK, r, LOG_CHUNK);
    assert Frames(LogPayload, a, xs, LOG_CHUNK) == [LogPayload(a, c)] + rest;
    LogPayloadRoundTrip(a, c);
    CollectLogStep(LogPayload(a, c), rest, a, c, r);
    assert c + r == xs;
  }

  /** A chunk that starts where expected is followed by the chunks after it. */
  lemma CollectLogStep(p: seq<uint8>, rest: seq<seq<uint8>>, at: uint32, c: seq<uint8>, r: seq<uint8>)
    requires DecodeLog(p) == Some(Chunk(at, c)) && CollectLog(rest, at + |c|) == Some(r)
    ensures CollectLog([p] + rest, at) == Some(c + r)
  {
    assert ([p] + rest)[0] == p && ([p] + rest)[1..] == rest;
  }

  // ---------------------------------------------------------------------
  // small payloads

  /** A `PairRequestPayload`: the device type, then the channel probed. */
  function ProbePayload(channel: uint8): (p: seq<uint8>)
    ensures |p| == 2
  {
    [DEVICE_TYPE_FEEDER, channel]
  }

  /** A `SleepPayload`: the sleep time in seconds. */
  function SleepPayload(seconds: uint32): (p: seq<uint8>)
    ensures |p| == 4 && FromLe32(p) == seconds
  {
    Le32RoundTrip(seconds);
    Le32(seconds)
  }
}
