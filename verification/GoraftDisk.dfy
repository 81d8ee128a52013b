/** The metadata file of goraft: one page of header, then one fixed-size record for each log entry.
    Only the header and the changed tail of the log are written. */
module GoraftDisk {

  type Byte = b: int | 0 <= b < 256

  type Bytes = seq<Byte>

  const U64 := 0x1_0000_0000_0000_0000

  type Word = w: int | 0 <= w < U64

  datatype Entry = Entry(command: Bytes, term: Word)

  type Log = seq<Entry>

  const PAGE_SIZE := 4096
  const ENTRY_HEADER := 16
  const ENTRY_SIZE := 128

  /** The entry that every log has at index 0. */
  const DUMMY := Entry([], 0)

  predicate Storable(e: Entry) {
    |e.command| <= ENTRY_SIZE - ENTRY_HEADER
  }

  predicate AllStorable(log: Log) {
    StorableFrom(log, 0)
  }

  /** Every entry from `from` on fits into a record. */
  predicate StorableFrom(log: Log, from: nat) {
    forall i {:trigger Storable(log[i])} :: from <= i < |log| ==> Storable(log[i])
  }

  // ---------------------------------------------------------------------------------------
  // Little-endian words

  function Pow256(n: nat): (r: int)
    ensures r > 0
  {
    if n == 0 then 1 else 256 * Pow256(n - 1)
  }

  function PutWord(x: int, n: nat): (r: Bytes)
    requires x >= 0
    ensures |r| == n
  {
    if n == 0 then [] else [x % 256] + PutWord(x / 256, n - 1)
  }

  function GetWord(bs: Bytes): (r: int)
    ensures r >= 0
  {
    if bs == [] then 0 else bs[0] + 256 * GetWord(bs[1..])
  }

  lemma {:induction false} GetPutWord(x: int, n: nat)
    requires 0 <= x < Pow256(n)
    ensures GetWord(PutWord(x, n)) == x
  {
    if n > 0 {
      GetPutWord(x / 256, n - 1);
      assert PutWord(x, n)[1..] == PutWord(x / 256, n - 1);
    }
  }

  /** The number of bytes of a word. */
  const WORD: Bytes := [0, 0, 0, 0, 0, 0, 0, 0]

  function Put64(x: int): (r: Bytes)
    requires x >= 0
    ensures |r| == 8
  {
    PutWord(x, |WORD|)
  }

  /** The lowest byte comes first. */
  lemma LowestFirst(bs: Bytes)
    requires |bs| == 8
    ensures GetWord(bs) ==
              bs[0] as int + 0x100 * (bs[1] as int) + 0x1_0000 * (bs[2] as int) + 0x100_0000 * (bs[3] as int)
              + 0x1_0000_0000 * (bs[4] as int) + 0x100_0000_0000 * (bs[5] as int)
              + 0x1_0000_0000_0000 * (bs[6] as int) + 0x100_0000_0000_0000 * (bs[7] as int)
  {
    WordFrom(bs, 0);
    WordFrom(bs, 1);
    WordFrom(bs, 2);
    WordFrom(bs, 3);
    WordFrom(bs, 4);
    WordFrom(bs, 5);
    WordFrom(bs, 6);
    WordFrom(bs, 7);
    assert bs[0..] == bs && bs[8..] == [];
  }

  lemma WordFrom(bs: Bytes, k: nat)
    requires k < |bs|
    ensures GetWord(bs[k..]) == bs[k] + 256 * GetWord(bs[k + 1..])
  {
    assert bs[k..][1..] == bs[k + 1..];
  }

  lemma Pow256Of8()
    ensures Pow256(8) == U64
  {
    assert Pow256(2) == 0x1_0000;
    assert Pow256(4) == 0x1_0000_0000;
    assert Pow256(6) == 0x1_0000_0000_0000;
  }

  lemma GetPut64(x: Word)
    ensures GetWord(Put64(x)) == x
  {
    Pow256Of8();
    GetPutWord(x, |WORD|);
  }

  function Zeros(n: nat): (r: Bytes)
    ensures |r| == n && forall i :: 0 <= i < n ==> r[i] == 0
  {
    seq(n, _ => 0)
  }

  lemma {:induction false} GetZeros(n: nat)
    ensures GetWord(Zeros(n)) == 0
  {
    if n > 0 {
      assert Zeros(n)[1..] == Zeros(n - 1);
      GetZeros(n - 1);
    }
  }

  // ---------------------------------------------------------------------------------------
  // Records

  /** The bytes of one entry. What is left of the previous record in the buffer stays behind the command. */
  function Record(e: Entry, buf: Bytes): (r: Bytes)
    requires Storable(e) && |buf| == ENTRY_SIZE
    ensures |r| == ENTRY_SIZE
  {
    Put64(e.term) + Put64(|e.command|) + e.command + buf[ENTRY_HEADER + |e.command|..]
  }

  /** Reading a record fails if its length field points beyond it. */
  datatype Option<T> = None | Some(value: T)

  function DecodeRecord(bs: Bytes): Option<Entry>
    requires |bs| == ENTRY_SIZE
  {
    var term, n := GetWord(bs[..8]), GetWord(bs[8..16]);
    if term < U64 && n <= ENTRY_SIZE - ENTRY_HEADER then Some(Entry(bs[16..16 + n], term)) else None
  }

  lemma RecordDecodes(e: Entry, buf: Bytes)
    requires Storable(e) && |buf| == ENTRY_SIZE
    ensures DecodeRecord(Record(e, buf)) == Some(e)
  {
    var r, n := Record(e, buf), |e.command|;
    GetPut64(e.term);
    GetPut64(n);
    assert r[..8] == Put64(e.term);
    assert r[8..16] == Put64(n);
    assert r[16..16 + n] == e.command;
  }

  lemma ZerosDecode()
    ensures DecodeRecord(Zeros(ENTRY_SIZE)) == Some(DUMMY)
  {
    assert Zeros(ENTRY_SIZE)[..8] == Zeros(8) && Zeros(ENTRY_SIZE)[8..16] == Zeros(8);
    GetZeros(8);
    assert Zeros(ENTRY_SIZE)[16..16] == [];
  }

  /** The records of the entries from `from` on, written one after the other through one buffer. */
  function Records(log: Log, from: nat, buf: Bytes): (r: Bytes)
    requires from <= |log| && StorableFrom(log, from) && |buf| == ENTRY_SIZE
    ensures |r| == ENTRY_SIZE * (|log| - from)
    decreases |log| - from
  {
    if from == |log| then []
    else
      var rec := Record(log[from], buf);
      rec + Records(log, from + 1, rec)
  }

  lemma {:induction false} RecordsDecode(log: Log, from: nat, buf: Bytes, i: nat)
    requires from <= i < |log| && StorableFrom(log, from) && |buf| == ENTRY_SIZE
    ensures var o := ENTRY_SIZE * (i - from);
            DecodeRecord(Records(log, from, buf)[o..o + ENTRY_SIZE]) == Some(log[i])
    decreases i - from
  {
    var rec := Record(log[from], buf);
    var all, rest := Records(log, from, buf), Records(log, from + 1, rec);
    var o := ENTRY_SIZE * (i - from);
    if i == from {
      RecordDecodes(log[from], buf);
      assert all[o..o + ENTRY_SIZE] == rec;
    } else {
      RecordsDecode(log, from + 1, rec, i);
      assert all[o..o + ENTRY_SIZE] == rest[o - ENTRY_SIZE..o];
    }
  }

  // ---------------------------------------------------------------------------------------
  // The file

  /** Writing past the end of the file leaves a hole, which reads as zeros. */
  function WriteAt(file: Bytes, off: nat, bs: Bytes): (r: Bytes)
    ensures |r| == if |file| < off + |bs| then off + |bs| else |file|
  {
    var n := if |file| < off + |bs| then off + |bs| else |file|;
    seq(n, i requires 0 <= i < n => if off <= i < off + |bs| then bs[i - off] else if i < |file| then file[i] else 0)
  }

  /** What was written is read back. */
  lemma ReadWritten(file: Bytes, off: nat, bs: Bytes, a: nat, b: nat)
    requires off <= a <= b <= off + |bs|
    ensures WriteAt(file, off, bs)[a..b] == bs[a - off..b - off]
  {
    var w, r := WriteAt(file, off, bs)[a..b], bs[a - off..b - off];
    forall i | 0 <= i < b - a
      ensures w[i] == r[i]
    {
      assert w[i] == WriteAt(file, off, bs)[a + i];
    }
  }

  /** What is outside the written stretch stays. */
  lemma ReadOther(file: Bytes, off: nat, bs: Bytes, a: nat, b: nat)
    requires a <= b <= |file| && (b <= off || off + |bs| <= a)
    ensures WriteAt(file, off, bs)[a..b] == file[a..b]
  {
  }

  /** A hole reads as zeros. */
  lemma ReadHole(file: Bytes, off: nat, bs: Bytes, a: nat, b: nat)
    requires |file| <= a <= b <= off
    ensures WriteAt(file, off, bs)[a..b] == Zeros(b - a)
  {
  }

  function Page(term: Word, votedFor: Word, lenLog: Word): (r: Bytes)
    ensures |r| == PAGE_SIZE
  {
    Put64(term) + Put64(votedFor) + Put64(lenLog) + Zeros(PAGE_SIZE - 24)
  }

  lemma PageDecodes(term: Word, votedFor: Word, lenLog: Word)
    ensures var p := Page(term, votedFor, lenLog);
            GetWord(p[..8]) == term && GetWord(p[8..16]) == votedFor && GetWord(p[16..24]) == lenLog
  {
    var p := Page(term, votedFor, lenLog);
    GetPut64(term);
    GetPut64(votedFor);
    GetPut64(lenLog);
    assert p[..8] == Put64(term);
    assert p[8..16] == Put64(votedFor);
    assert p[16..24] == Put64(lenLog);
  }

  function RecordOffset(i: nat): nat {
    PAGE_SIZE + ENTRY_SIZE * i
  }

  /** How many entries at the end of the log are written. Zero stands for all of them. */
  function Tail(len: nat, writeLog: bool, nNew: nat): (r: nat)
    ensures r <= len
  {
    if !writeLog then 0 else if nNew == 0 || nNew > len then len else nNew
  }

  function WithHeader(file: Bytes, term: Word, votedFor: Word, lenLog: Word): Bytes {
    WriteAt(file, 0, Page(term, votedFor, lenLog))
  }

  function WithRecords(file: Bytes, log: Log, from: nat): Bytes
    requires from <= |log| && StorableFrom(log, from)
  {
    WriteAt(file, RecordOffset(from), Records(log, from, Zeros(ENTRY_SIZE)))
  }

  /** The file after a persist. */
  function Persist(file: Bytes, term: Word, votedFor: Word, log: Log, writeLog: bool, nNew: nat): Bytes
    requires StorableFrom(log, |log| - Tail(|log|, writeLog, nNew)) && |log| < U64
  {
    var f1 := WithHeader(file, term, votedFor, |log|);
    var n := Tail(|log|, writeLog, nNew);
    if n > 0 then WithRecords(f1, log, |log| - n) else f1
  }

  // ---------------------------------------------------------------------------------------
  // Restoring

  datatype Restored = Panic | Blank | State(term: int, votedFor: int, log: Log)

  /** The entries from `i` to `len`, read one record at a time; a short read is fatal. */
  function ReadLog(file: Bytes, i: nat, len: nat): Option<Log>
    requires i <= len
    decreases len - i
  {
    if i == len then Some([])
    else if |file| < RecordOffset(i + 1) then None
    else
      match (DecodeRecord(file[RecordOffset(i)..RecordOffset(i + 1)]), ReadLog(file, i + 1, len))
      case (Some(e), Some(rest)) => Some([e] + rest)
      case _ => None
  }

  /** An empty file is a first start. */
  function Restore(file: Bytes): Restored {
    if file == [] then Blank
    else if |file| < PAGE_SIZE then Panic
    else
      match ReadLog(file, 0, GetWord(file[16..24]))
      case Some(log) => State(GetWord(file[..8]), GetWord(file[8..16]), if log == [] then [DUMMY] else log)
      case None => Panic
  }

  /** Every entry from `i` on is in its place in the file. */
  predicate Stored(file: Bytes, log: Log, i: nat) {
    forall j {:trigger StoredAt(file, log[j], j)} :: i <= j < |log| ==> StoredAt(file, log[j], j)
  }

  predicate StoredAt(file: Bytes, e: Entry, j: nat) {
    RecordOffset(j + 1) <= |file| && DecodeRecord(file[RecordOffset(j)..RecordOffset(j + 1)]) == Some(e)
  }

  lemma {:induction false} ReadStored(file: Bytes, log: Log, i: nat)
    requires i <= |log| && Stored(file, log, i)
    ensures ReadLog(file, i, |log|) == Some(log[i..])
    decreases |log| - i
  {
    if i < |log| {
      assert StoredAt(file, log[i], i);
      ReadStored(file, log, i + 1);
      assert log[i..] == [log[i]] + log[i + 1..];
    }
  }

  // ---------------------------------------------------------------------------------------
  // Runs of changes and persists

  /** What is in memory and what is in the file. `logged` says that log entries have been written. */
  datatype Saved = Saved(term: Word, votedFor: Word, log: Log, file: Bytes, logged: bool)

  const FRESH := Saved(0, 0, [DUMMY], [], false)

  /** The server changes its term or vote, or keeps the log up to some index and puts new entries behind it, and persists. */
  datatype Change = Vote(term: Word, votedFor: Word) | Log(keep: nat, entries: Log)

  ghost predicate Allowed(s: Saved, ch: Change) {
    ch.Log? ==> 1 <= ch.keep <= |s.log| && AllStorable(ch.entries) && ch.keep + |ch.entries| < U64
  }

  function Changed(s: Saved, ch: Change): Saved
    requires |s.log| < U64 && AllStorable(s.log)
    requires ch.Log? ==> ch.keep <= |s.log| && AllStorable(ch.entries) && ch.keep + |ch.entries| < U64
  {
    match ch
    case Vote(term, votedFor) =>
      s.(term := term, votedFor := votedFor, file := Persist(s.file, term, votedFor, s.log, false, 0))
    case Log(keep, entries) =>
      var log := s.log[..keep] + entries;
      s.(log := log, file := Persist(s.file, s.term, s.votedFor, log, true, |entries|), logged := true)
  }

  /** The file says what memory says. Until entries are written there is at most the header of a log with
      the dummy entry alone. */
  predicate InSync(s: Saved) {
    && 1 <= |s.log| < U64 && AllStorable(s.log) && s.log[0] == DUMMY
    && (s.logged ==> HeaderOk(s) && Stored(s.file, s.log, 0))
    && (!s.logged ==> s.log == [DUMMY] && (s.file == [] || (HeaderOk(s) && |s.file| == PAGE_SIZE)))
  }

  predicate HeaderOk(s: Saved) {
    && |s.file| >= PAGE_SIZE
    && GetWord(s.file[..8]) == s.term && GetWord(s.file[8..16]) == s.votedFor && GetWord(s.file[16..24]) == |s.log|
  }

  lemma PrefixSlice(f: Bytes, p: Bytes, n: nat, a: nat, b: nat)
    requires a <= b <= n <= |f| && f[..n] == p
    ensures f[a..b] == p[a..b]
  {
  }

  lemma HeaderRead(f: Bytes, term: Word, votedFor: Word, lenLog: Word)
    requires |f| >= PAGE_SIZE && f[..PAGE_SIZE] == Page(term, votedFor, lenLog)
    ensures GetWord(f[..8]) == term && GetWord(f[8..16]) == votedFor && GetWord(f[16..24]) == lenLog
  {
    var p := Page(term, votedFor, lenLog);
    PageDecodes(term, votedFor, lenLog);
    PrefixSlice(f, p, PAGE_SIZE, 0, 8);
    PrefixSlice(f, p, PAGE_SIZE, 8, 16);
    PrefixSlice(f, p, PAGE_SIZE, 16, 24);
    assert f[0..8] == f[..8] && p[0..8] == p[..8];
  }

  lemma HeaderWritten(file: Bytes, page: Bytes)
    ensures |WriteAt(file, 0, page)| >= |page| && WriteAt(file, 0, page)[..|page|] == page
  {
    ReadWritten(file, 0, page, 0, |page|);
  }

  /** Writing the header leaves every record alone. */
  lemma HeaderKeepsRecords(file: Bytes, page: Bytes, log: Log, i: nat)
    requires |page| == PAGE_SIZE && Stored(file, log, i)
    ensures Stored(WriteAt(file, 0, page), log, i)
  {
    forall j | i <= j < |log|
      ensures StoredAt(WriteAt(file, 0, page), log[j], j)
    {
      assert StoredAt(file, log[j], j);
      ReadOther(file, 0, page, RecordOffset(j), RecordOffset(j + 1));
    }
  }

  lemma VoteInSync(s: Saved, ch: Change)
    requires InSync(s) && ch.Vote?
    ensures InSync(Changed(s, ch))
  {
    var s' := Changed(s, ch);
    var page := Page(ch.term, ch.votedFor, |s.log|);
    HeaderWritten(s.file, page);
    HeaderRead(s'.file, ch.term, ch.votedFor, |s.log|);
    if s.logged {
      HeaderKeepsRecords(s.file, page, s.log, 0);
    }
  }

  /** The records of the new tail are in place after the write. */
  lemma TailStored(file: Bytes, log: Log, keep: nat)
    requires keep <= |log| && StorableFrom(log, keep)
    ensures Stored(WriteAt(file, RecordOffset(keep), Records(log, keep, Zeros(ENTRY_SIZE))), log, keep)
  {
    var bs := Records(log, keep, Zeros(ENTRY_SIZE));
    forall j | keep <= j < |log|
      ensures StoredAt(WriteAt(file, RecordOffset(keep), bs), log[j], j)
    {
      RecordsDecode(log, keep, Zeros(ENTRY_SIZE), j);
      ReadWritten(file, RecordOffset(keep), bs, RecordOffset(j), RecordOffset(j + 1));
    }
  }

  /** The records before the tail are as they were: written earlier, or the hole of the dummy entry. */
  lemma HeadStored(file: Bytes, before: Log, keep: nat, bs: Bytes, j: nat)
    requires j < keep <= |before|
    requires Stored(file, before, 0) || (before == [DUMMY] && |file| == PAGE_SIZE)
    ensures StoredAt(WriteAt(file, RecordOffset(keep), bs), before[j], j)
  {
    if Stored(file, before, 0) {
      assert StoredAt(file, before[j], j);
      ReadOther(file, RecordOffset(keep), bs, RecordOffset(j), RecordOffset(j + 1));
    } else {
      ReadHole(file, RecordOffset(keep), bs, RecordOffset(j), RecordOffset(j + 1));
      ZerosDecode();
    }
  }

  lemma LogStored(file: Bytes, before: Log, keep: nat, entries: Log)
    requires keep <= |before| && AllStorable(before[..keep] + entries)
    requires Stored(file, before, 0) || (before == [DUMMY] && |file| == PAGE_SIZE)
    ensures var log := before[..keep] + entries;
            Stored(WriteAt(file, RecordOffset(keep), Records(log, keep, Zeros(ENTRY_SIZE))), log, 0)
  {
    var log := before[..keep] + entries;
    var bs := Records(log, keep, Zeros(ENTRY_SIZE));
    TailStored(file, log, keep);
    forall j | 0 <= j < |log|
      ensures StoredAt(WriteAt(file, RecordOffset(keep), bs), log[j], j)
    {
      if j < keep {
        HeadStored(file, before, keep, bs, j);
      }
    }
  }

  /** Where the written records start: at the first new entry, or at the start if nothing is new. */
  function WriteFrom(ch: Change): nat
    requires ch.Log?
  {
    if ch.entries == [] then 0 else ch.keep
  }

  lemma LogFile(s: Saved, ch: Change)
    requires |s.log| < U64 && AllStorable(s.log) && Allowed(s, ch) && ch.Log?
    ensures var log := s.log[..ch.keep] + ch.entries;
            var f1 := WriteAt(s.file, 0, Page(s.term, s.votedFor, |log|));
            Changed(s, ch).file == WriteAt(f1, RecordOffset(WriteFrom(ch)), Records(log, WriteFrom(ch), Zeros(ENTRY_SIZE)))
  {
  }

  lemma LogInSync(s: Saved, ch: Change)
    requires InSync(s) && Allowed(s, ch) && ch.Log?
    ensures InSync(Changed(s, ch))
  {
    var s' := Changed(s, ch);
    var log := s.log[..ch.keep] + ch.entries;
    var page := Page(s.term, s.votedFor, |log|);
    var f1 := WriteAt(s.file, 0, page);
    LogFile(s, ch);
    HeaderWritten(s.file, page);
    TailWrite(s, f1, log, WriteFrom(ch));
    HeaderRead(s'.file, s.term, s.votedFor, |log|);
  }

  /** Writing the records from `from` on leaves the header and the whole log in the file. */
  lemma TailWrite(s: Saved, f1: Bytes, log: Log, from: nat)
    requires InSync(s) && from <= |s.log| && from <= |log| < U64 && s.log[..from] == log[..from] && AllStorable(log)
    requires var page := Page(s.term, s.votedFor, |log|);
             f1 == WriteAt(s.file, 0, page) && |f1| >= PAGE_SIZE && f1[..PAGE_SIZE] == page
    ensures var f2 := WriteAt(f1, RecordOffset(from), Records(log, from, Zeros(ENTRY_SIZE)));
            |f2| >= PAGE_SIZE && f2[..PAGE_SIZE] == f1[..PAGE_SIZE] && Stored(f2, log, 0)
  {
    var page := Page(s.term, s.votedFor, |log|);
    if s.logged {
      HeaderKeepsRecords(s.file, page, s.log, 0);
    }
    assert log == s.log[..from] + log[from..];
    LogStored(f1, s.log, from, log[from..]);
    PageSurvives(f1, page, RecordOffset(from), Records(log, from, Zeros(ENTRY_SIZE)));
  }

  lemma PageSurvives(file: Bytes, page: Bytes, off: nat, bs: Bytes)
    requires |page| == PAGE_SIZE <= off && |file| >= PAGE_SIZE && file[..PAGE_SIZE] == page
    ensures |WriteAt(file, off, bs)| >= PAGE_SIZE && WriteAt(file, off, bs)[..PAGE_SIZE] == page
  {
    ReadOther(file, off, bs, 0, PAGE_SIZE);
  }

  ghost predicate RunAllowed(s: Saved, run: seq<Change>)
    decreases |run|
  {
    run != [] ==>
      && |s.log| < U64 && AllStorable(s.log) && Allowed(s, run[0])
      && RunAllowed(Changed(s, run[0]), run[1..])
  }

  /** The state after a run of changes, each followed by its persist. */
  ghost function AfterRun(s: Saved, run: seq<Change>): Saved
    requires RunAllowed(s, run)
    decreases |run|
  {
    if run == [] then s else AfterRun(Changed(s, run[0]), run[1..])
  }

  lemma {:induction false} RunInSync(s: Saved, run: seq<Change>)
    requires InSync(s) && RunAllowed(s, run)
    ensures var s' := AfterRun(s, run);
            && InSync(s')
            && (s'.logged <==> s.logged || exists i :: 0 <= i < |run| && run[i].Log?)
            && (s'.file == [] <==> s.file == [] && run == [])
    decreases |run|
  {
    if run != [] {
      var s1 := Changed(s, run[0]);
      if run[0].Vote? {
        VoteInSync(s, run[0]);
      } else {
        LogInSync(s, run[0]);
      }
      RunInSync(s1, run[1..]);
      assert forall i :: 0 < i < |run| ==> run[i] == run[1..][i - 1];
    }
  }

  /** Restoring gives back what was in memory, unless the file holds the header alone: then it is fatal. */
  lemma RestoreIsExact(s: Saved)
    requires InSync(s)
    ensures s.logged ==> Restore(s.file) == State(s.term, s.votedFor, s.log)
    ensures !s.logged ==> Restore(s.file) == if s.file == [] then Blank else Panic
  {
    if s.logged {
      ReadStored(s.file, s.log, 0);
      assert s.log[0..] == s.log;
    }
  }

  /** After any run from a first start, restoring gives back exactly the term, the vote and the log if some entry was
      ever written; it is a first start again if nothing was; and it is fatal if only terms and votes were. */
  lemma RestoreAfterRun(run: seq<Change>)
    requires RunAllowed(FRESH, run)
    ensures var s := AfterRun(FRESH, run);
            Restore(s.file) ==
              if exists i :: 0 <= i < |run| && run[i].Log? then State(s.term, s.votedFor, s.log)
              else if run == [] then Blank else Panic
  {
    RunInSync(FRESH, run);
    RestoreIsExact(AfterRun(FRESH, run));
  }
}
