/**
 * The system log of log.cpp. `PutLog` queues a record (at most five wait,
 * a full queue drops the record); `Task` moves one queued record into one
 * of two files of fixed-size records, switching to the other file (and
 * emptying it) once the current one holds more than `NMR_RECORDS`
 * records; `GetLogJson` pages through both files, older file first; the
 * ESP-NOW client streams the raw bytes of both files.
 *
 * The two files are sequences of records; a missing file behaves in every
 * operation exactly like an empty one, so it is modelled as one.
 */
module SystemLog {
  import opened Ints
  import SleepCtrl
  import opened EspNowFrames

  const NMR_RECORDS: nat := 25
  const QUEUE_LENGTH: nat := 5
  const TEXT_SIZE: nat := 80
  /** `sizeof(Log_t)`: a packed 4-byte level, an 8-byte `time_t` and 80 characters. */
  const LOG_SIZE: nat := 92

  type int64 = x: int | -0x8000_0000_0000_0000 <= x < 0x8000_0000_0000_0000

  /** `Verbosity_t`: v_empty, v_error, v_warning, v_info. */
  type Level = x: int | 0 <= x <= 3
  const V_EMPTY: Level := 0
  const V_ERROR: Level := 1
  const V_WARNING: Level := 2
  const V_INFO: Level := 3

  /** `Log_t`, with its text as the C string it holds (the bytes before the terminator). */
  datatype Record = Record(lvl: Level, time: int64, msg: seq<uint8>)

  /** A record `PutLog` can build: at most 79 characters, none of them a terminator. */
  predicate WellFormed(r: Record)
  {
    |r.msg| < TEXT_SIZE && forall k :: 0 <= k < |r.msg| ==> r.msg[k] != 0
  }

  // ---------------------------------------------------------------------
  // The bytes of a record
  // ---------------------------------------------------------------------

  /** A `time_t` in two's complement, least significant byte first. */
  function I64(t: int64): (b: seq<uint8>)
    ensures |b| == 8
  {
    var u := t % 0x1_0000_0000_0000_0000;
    Le32(u % 0x1_0000_0000) + Le32(u / 0x1_0000_0000)
  }

  function FromI64(b: seq<uint8>): int64
    requires |b| == 8
  {
    var u := FromLe32(b[..4]) as int + 0x1_0000_0000 * FromLe32(b[4..]) as int;
    if u < 0x8000_0000_0000_0000 then u else u - 0x1_0000_0000_0000_0000
  }

  lemma I64RoundTrip(t: int64)
    ensures FromI64(I64(t)) == t
  {
    var u := t % 0x1_0000_0000_0000_0000;
    var b := I64(t);
    assert b[..4] == Le32(u % 0x1_0000_0000) && b[4..] == Le32(u / 0x1_0000_0000);
    Le32RoundTrip(u % 0x1_0000_0000);
    Le32RoundTrip(u / 0x1_0000_0000);
  }

  /** `log_txt` after `strncpy(log_txt, msg, 79)` and the terminator: the message, then zeros. */
  function TextField(msg: seq<uint8>): (f: seq<uint8>)
    ensures |f| == TEXT_SIZE
  {
    var n := Min(|msg|, TEXT_SIZE - 1);
    msg[..n] + seq(TEXT_SIZE - n, _ => 0)
  }

  /** The C string a character field holds: its bytes up to the first zero. */
  function CText(f: seq<uint8>): (s: seq<uint8>)
    ensures |s| <= |f|
  {
    if f == [] || f[0] == 0 then [] else [f[0]] + CText(f[1..])
  }

  lemma {:induction false} CTextOfPadded(m: seq<uint8>, z: seq<uint8>)
    requires forall k :: 0 <= k < |m| ==> m[k] != 0
    requires |z| > 0 && z[0] == 0
    ensures CText(m + z) == m
    decreases |m|
  {
    if m == [] {
      assert m + z == z;
    } else {
      assert (m + z)[0] == m[0];
      assert (m + z)[1..] == m[1..] + z;
      CTextOfPadded(m[1..], z);
      assert m == [m[0]] + m[1..];
    }
  }

  /** The 92 bytes a record occupies in a log file. */
  function RecordBytes(r: Record): (b: seq<uint8>)
    ensures |b| == LOG_SIZE
  {
    Le32(r.lvl) + I64(r.time) + TextField(r.msg)
  }

  /** What `GetLogJson` reports of 92 stored bytes: level, time and text. */
  function DecodeRecord(b: seq<uint8>): (r: Option<Record>)
    requires |b| == LOG_SIZE
  {
    var lvl := FromLe32(b[..4]);
    if lvl <= 3 then Some(Record(lvl, FromI64(b[4..12]), CText(b[12..]))) else None
  }

  /** A record `PutLog` built reads back unchanged from its stored bytes. */
  lemma RecordRoundTrip(r: Record)
    requires WellFormed(r)
    ensures DecodeRecord(RecordBytes(r)) == Some(r)
  {
    var b := RecordBytes(r);
    assert b[..4] == Le32(r.lvl);
    assert b[4..12] == I64(r.time);
    assert b[12..] == TextField(r.msg);
    Le32RoundTrip(r.lvl);
    I64RoundTrip(r.time);
    var n := Min(|r.msg|, TEXT_SIZE - 1);
    assert r.msg[..n] == r.msg;
    CTextOfPadded(r.msg, seq(TEXT_SIZE - n, _ => 0));
  }

  /** The bytes of a file: its records back to back. */
  function Bytes(rs: seq<Record>): (b: seq<uint8>)
    ensures |b| == LOG_SIZE * |rs|
  {
    if rs == [] then [] else Bytes(rs[..|rs| - 1]) + RecordBytes(rs[|rs| - 1])
  }

  /** Record `i` of a file occupies bytes `92 * i` up to `92 * (i + 1)`. */
  lemma {:induction false} BytesAt(rs: seq<Record>, i: nat)
    requires i < |rs|
    ensures LOG_SIZE * (i + 1) <= |Bytes(rs)|
    ensures Bytes(rs)[LOG_SIZE * i .. LOG_SIZE * (i + 1)] == RecordBytes(rs[i])
    decreases |rs|
  {
    var m := |rs| - 1;
    var front := Bytes(rs[..m]);
    assert Bytes(rs) == front + RecordBytes(rs[m]);
    if i < m {
      BytesAt(rs[..m], i);
      assert rs[..m][i] == rs[i];
    } else {
      assert |front| == LOG_SIZE * i;
    }
  }

  /** The byte stream the ESP-NOW client sends: the file not being written, then the one being written. */
  function Stream(files: seq<seq<Record>>, w: nat): seq<uint8>
    requires |files| == 2 && w < 2
  {
    Bytes(files[1 - w]) + Bytes(files[w])
  }

  // ---------------------------------------------------------------------
  // The two files
  // ---------------------------------------------------------------------

  /** Every stored record, oldest first: the file not being written, then the one being written. */
  function All(files: seq<seq<Record>>, w: nat): seq<Record>
    requires |files| == 2 && w < 2
  {
    files[1 - w] + files[w]
  }

  /** One record written by `Task`: the new file contents and the file written next time. */
  datatype Store = Store(files: seq<seq<Record>>, writeFile: nat)

  function Append(files: seq<seq<Record>>, w: nat, r: Record): (s: Store)
    requires |files| == 2 && w < 2
    ensures |s.files| == 2 && s.writeFile < 2
  {
    if |files[w]| > NMR_RECORDS then Store(files[1 - w := [r]], 1 - w)
    else Store(files[w := files[w] + [r]], w)
  }

  /**
   * Writing a record keeps the newest ones: the stored records after the
   * write end with the new record, follow on from the stored records
   * before it (nothing in between is lost), and at least the newest
   * `NMR_RECORDS + 1` of the old ones survive.
   */
  lemma AppendKeepsNewest(files: seq<seq<Record>>, w: nat, r: Record)
    requires |files| == 2 && w < 2
    ensures var s := Append(files, w, r);
      var before := All(files, w) + [r];
      var after := All(s.files, s.writeFile);
      |after| <= |before| && after == before[|before| - |after|..]
    ensures var s := Append(files, w, r);
      |All(s.files, s.writeFile)| >= Min(|All(files, w)|, NMR_RECORDS + 1) + 1
  {
    var s := Append(files, w, r);
    var before := All(files, w) + [r];
    if |files[w]| > NMR_RECORDS {
      assert s.files[1 - s.writeFile] == files[w] && s.files[s.writeFile] == [r];
      assert before == files[1 - w] + (files[w] + [r]);
    } else {
      assert s.files[1 - w] == files[1 - w] && s.files[w] == files[w] + [r];
      assert All(s.files, w) == before;
    }
  }

  /**
   * The file sizes `Task` can leave behind, starting from two empty files:
   * the written file holds at most `NMR_RECORDS + 1` records, and the
   * other one is either untouched (empty, before the first switch) or the
   * full file that was switched away from.
   */
  predicate Reach(files: seq<seq<Record>>, w: nat)
  {
    && |files| == 2 && w < 2
    && |files[w]| <= NMR_RECORDS + 1
    && (if w == 0 then |files[1]| == 0 || |files[1]| == NMR_RECORDS + 1
        else |files[0]| == NMR_RECORDS + 1)
  }

  lemma AppendReach(files: seq<seq<Record>>, w: nat, r: Record)
    requires Reach(files, w)
    ensures Reach(Append(files, w, r).files, Append(files, w, r).writeFile)
  {
  }

  /** `Init` as written: a file of at least `NMR_RECORDS` records makes the other file the one written. */
  function InitChoiceAsWritten(files: seq<seq<Record>>): (w: nat)
    requires |files| == 2
    ensures w < 2
  {
    var w0 := if |files[0]| >= NMR_RECORDS then 1 else 0;
    if |files[1]| >= NMR_RECORDS then 0 else w0
  }

  /** `Init` with the test `Task` uses: more than `NMR_RECORDS` records. */
  function InitChoice(files: seq<seq<Record>>): (w: nat)
    requires |files| == 2
    ensures w < 2
  {
    var w0 := if |files[0]| > NMR_RECORDS then 1 else 0;
    if |files[1]| > NMR_RECORDS then 0 else w0
  }

  /**
   * After a restart, the corrected choice writes the next record exactly
   * where the firmware before the restart would have, in every state
   * `Task` can reach except the one where both files are full (which the
   * sizes alone cannot tell apart).
   */
  lemma InitResumes(files: seq<seq<Record>>, w: nat, r: Record)
    requires Reach(files, w)
    requires !(|files[0]| == NMR_RECORDS + 1 && |files[1]| == NMR_RECORDS + 1)
    ensures Append(files, InitChoice(files), r) == Append(files, w, r)
  {
    if w == 0 && |files[0]| == NMR_RECORDS + 1 && |files[1]| == 0 {
      assert files[1] + [r] == [r];
    }
  }

  /**
   * The choice as written loses records: with 26 records in the first
   * file and 25 in the second, the second being written, a restart
   * chooses the first, and the next record empties the second, where the
   * firmware before the restart would have appended to it: the 25 newest
   * records are gone while the 26 older ones stay.
   */
  lemma InitAsWrittenLosesNewest(a: seq<Record>, b: seq<Record>, r: Record)
    requires |a| == NMR_RECORDS + 1 && |b| == NMR_RECORDS
    ensures Reach([a, b], 1)
    ensures InitChoiceAsWritten([a, b]) == 0
    ensures Append([a, b], InitChoiceAsWritten([a, b]), r) == Store([a, [r]], 1)
    ensures Append([a, b], 1, r) == Store([a, b + [r]], 1)
  {
    assert [a, b][1 := [r]] == [a, [r]];
    assert [a, b][1 := b + [r]] == [a, b + [r]];
  }

  /** The records `GetLogJson` reports: up to `n` of them, starting at `pos`; none from past the end. */
  function Page(all: seq<Record>, pos: nat, n: nat): (p: seq<Record>)
    ensures |p| == if pos <= |all| then Min(n, |all| - pos) else 0
    ensures forall k :: 0 <= k < |p| ==> p[k] == all[pos + k]
  {
    if pos <= |all| then all[pos .. Min(pos + n, |all|)] else []
  }

  /** Consecutive pages make up the page of their combined size. */
  lemma PageSplit(all: seq<Record>, pos: nat, n: nat, m: nat)
    requires pos <= |all|
    ensures Min(pos + n, |all|) <= |all|
    ensures Page(all, pos, n) + Page(all, Min(pos + n, |all|), m) == Page(all, pos, n + m)
  {
    var mid := Min(pos + n, |all|);
    var a := Page(all, pos, n);
    var b := Page(all, mid, m);
    var c := Page(all, pos, n + m);
    assert |a + b| == |c|;
    forall k | 0 <= k < |c|
      ensures (a + b)[k] == c[k]
    {
      if k < |a| {
      } else {
        assert (a + b)[k] == b[k - |a|] == all[mid + k - |a|];
      }
    }
  }

  // ---------------------------------------------------------------------
  // The log
  // ---------------------------------------------------------------------

  /** `PutLog`: the record built from a message, a level and a time (0 meaning now). */
  function Entry(msg: seq<uint8>, lvl: Level, t: int64, now: int64): (r: Record)
    ensures WellFormed(r) <== forall k :: 0 <= k < |msg| ==> msg[k] != 0
    ensures r.time == (if t != 0 then t else now) && r.lvl == lvl
    ensures r.msg == msg[..Min(|msg|, TEXT_SIZE - 1)]
  {
    Record(lvl, if t != 0 then t else now, msg[..Min(|msg|, TEXT_SIZE - 1)])
  }

  class Log {
    /** The contents of `/log_a.txt` and `/log_b.txt`. */
    var files: seq<seq<Record>>
    var writeFile: nat
    /** The FreeRTOS queue, oldest record first. */
    var queue: seq<Record>
    const tasks: array<bool>

    ghost predicate Valid()
      reads this
    {
      |files| == 2 && writeFile < 2 && |queue| <= QUEUE_LENGTH && tasks.Length == SleepCtrl.NUMBER_TASKS
    }

    ghost function Records(): seq<Record>
      reads this
      requires Valid()
    {
      All(files, writeFile)
    }

    /** The log over the files found in flash; `Init` chooses the file to write. */
    constructor (stored: seq<seq<Record>>, activeTasks: array<bool>)
      requires |stored| == 2 && activeTasks.Length == SleepCtrl.NUMBER_TASKS
      ensures Valid() && files == stored && writeFile == 0 && queue == []
      ensures tasks == activeTasks
    {
      files := stored;
      writeFile := 0;
      queue := [];
      tasks := activeTasks;
    }

    /** `Init()`: the task flag raised, an empty queue, and the file to write chosen from the file sizes. */
    method Init()
      requires Valid()
      modifies this, tasks
      ensures Valid() && files == old(files) && queue == []
      ensures writeFile == InitChoice(files)
      ensures tasks[..] == old(tasks[..])[SleepCtrl.FILE_SYSTEM_TASK := true]
    {
      tasks[SleepCtrl.FILE_SYSTEM_TASK] := true;
      queue := [];
      writeFile := 0;
      if |files[0]| > NMR_RECORDS {
        writeFile := 1;
      }
      if |files[1]| > NMR_RECORDS {
        writeFile := 0;
      }
    }

    /** `PutLog(msg, lvl, t)`: the record is queued when the queue has room, and dropped otherwise. */
    method PutLog(msg: seq<uint8>, lvl: Level, t: int64, now: int64)
      requires Valid()
      modifies this
      ensures Valid() && files == old(files) && writeFile == old(writeFile)
      ensures queue == if |old(queue)| < QUEUE_LENGTH then old(queue) + [Entry(msg, lvl, t, now)] else old(queue)
    {
      var item := Record(lvl, if t != 0 then t else now, msg[..Min(|msg|, TEXT_SIZE - 1)]);
      if |queue| < QUEUE_LENGTH {
        queue := queue + [item];
      }
    }

    /**
     * `Task()`: the flag is lowered; a queued record (an empty queue stands
     * for the receive timing out) raises it again and is written by `Append`.
     */
    method Task()
      requires Valid()
      modifies this, tasks
      ensures Valid()
      ensures old(queue) == [] ==> queue == [] && files == old(files) && writeFile == old(writeFile)
      ensures old(queue) != [] ==>
        queue == old(queue)[1..] && Store(files, writeFile) == Append(old(files), old(writeFile), old(queue)[0])
      ensures tasks[..] == old(tasks[..])[SleepCtrl.FILE_SYSTEM_TASK := old(queue) != []]
    {
      tasks[SleepCtrl.FILE_SYSTEM_TASK] := false;
      if queue != [] {
        var item := queue[0];
        queue := queue[1..];
        tasks[SleepCtrl.FILE_SYSTEM_TASK] := true;
        if |files[writeFile]| > NMR_RECORDS {
          writeFile := 1 - writeFile;
          files := files[writeFile := [item]];
        } else {
          files := files[writeFile := files[writeFile] + [item]];
        }
      }
    }

    /**
     * `GetLogJson(doc, pos, nmr_max)`: the total number of stored records,
     * and `Page(Records(), pos, nmr_max)`, read from the older file and
     * then from the file being written. A position past the last record
     * reports none.
     */
    method GetLogJson(pos0: nat, nmrMax0: nat) returns (total: nat, items: seq<Record>)
      requires Valid()
      ensures total == |Records()|
      ensures items == Page(Records(), pos0, nmrMax0)
      ensures pos0 >= |Records()| ==> items == []
    {
      var older := files[1 - writeFile];
      var newer := files[writeFile];
      var pos := pos0;
      var nmrMax := nmrMax0;
      items := [];
      total := |older|;
      if pos < |older| {
        var nmr := |older| - pos;
        if nmr >= nmrMax {
          nmr := nmrMax;
          nmrMax := 0;
        } else {
          nmrMax := nmrMax - nmr;
        }
        items := ReadRecords(older, pos, nmr);
        pos := 0;
      } else {
        pos := pos - |older|;
      }
      total := total + |newer|;
      ghost var first := items;
      ghost var pos2, n2 := pos, nmrMax;
      if nmrMax > 0 {
        if pos + nmrMax > |newer| {
          // past the end `file_items - pos` wraps around to a large count
          nmrMax := if pos <= |newer| then |newer| - pos else (|newer| - pos) % 0x1_0000_0000;
        }
        var more := ReadRecords(newer, pos, nmrMax);
        items := items + more;
      }
      GetLogJsonPage(older, newer, pos0, nmrMax0, first, pos2, n2);
    }
  }

  /**
   * The read loop of `GetLogJson`: up to `n` whole records of a file from
   * record `pos` on; a read that finds no whole record ends it.
   */
  method ReadRecords(file: seq<Record>, pos: nat, n: nat) returns (items: seq<Record>)
    ensures items == Page(file, pos, n)
  {
    items := [];
    var k := pos;
    var left := n;
    while left > 0 && k < |file|
      invariant pos <= k && k + left == pos + n
      invariant k <= |file| ==> items == file[pos..k]
      invariant k > |file| ==> k == pos && items == []
      decreases left
    {
      items := items + [file[k]];
      k := k + 1;
      left := left - 1;
    }
  }

  /** The pages of the two files read one after the other form the page of the whole log. */
  lemma GetLogJsonPage(older: seq<Record>, newer: seq<Record>, pos: nat, n: nat,
                       first: seq<Record>, pos2: nat, n2: nat)
    requires pos < |older| ==>
      first == Page(older, pos, n) && pos2 == 0 && n2 == (if |older| - pos < n then n - (|older| - pos) else 0)
    requires pos >= |older| ==> first == [] && pos2 == pos - |older| && n2 == n
    ensures first + Page(newer, pos2, n2) == Page(older + newer, pos, n)
  {
    var all := older + newer;
    var a := first + Page(newer, pos2, n2);
    var c := Page(all, pos, n);
    assert |a| == |c|;
    forall k | 0 <= k < |c|
      ensures a[k] == c[k]
    {
      if k < |first| {
      } else {
        assert a[k] == newer[pos2 + k - |first|];
      }
    }
  }
}
