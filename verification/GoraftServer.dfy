/** The parts of a goraft server that change its log and its metadata file. */
module GoraftServer {
  import opened GoraftDisk
  import opened GoraftMerge

  datatype State = Leader | Follower | Candidate

  datatype AppendRequest = AppendRequest(term: Word, prevLogIndex: nat, prevLogTerm: Word, entries: Log, leaderCommit: nat)

  datatype VoteRequest = VoteRequest(term: Word, candidateId: Word, lastLogIndex: nat, lastLogTerm: Word)

  /** Whether the previous entry of a request is one that the log has. */
  predicate ValidPrevious(log: Log, req: AppendRequest) {
    req.prevLogIndex == 0 || (req.prevLogIndex < |log| && log[req.prevLogIndex].term == req.prevLogTerm)
  }

  predicate LogOk(log: Log, req: VoteRequest)
    requires log != []
  {
    var last := log[|log| - 1].term;
    req.lastLogTerm > last || (req.lastLogTerm == last && req.lastLogIndex >= |log| - 1)
  }

  /** The commit index of a follower after a request from a leader that has committed up to `leaderCommit`. */
  function Committed(commitIndex: nat, leaderCommit: nat, len: nat): nat
    requires len >= 1
  {
    if leaderCommit <= commitIndex then commitIndex else if leaderCommit <= len - 1 then leaderCommit else len - 1
  }

  /** Terms are unsigned 64-bit numbers and wrap around. */
  function NextTerm(term: Word): Word {
    if term == U64 - 1 then 0 else term + 1
  }

  /** How many members voted for `id`. */
  function VotesFor(votes: seq<Word>, id: Word): nat {
    if votes == [] then 0 else VotesFor(votes[..|votes| - 1], id) + if votes[|votes| - 1] == id then 1 else 0
  }

  function Repeat(n: nat, x: nat): (r: seq<nat>)
    ensures |r| == n && forall i :: 0 <= i < n ==> r[i] == x
  {
    seq(n, _ => x)
  }

  method PutUint64(buf: array<Byte>, at: nat, x: Word)
    requires at + 8 <= buf.Length
    modifies buf
    ensures buf[..] == old(buf[..at]) + Put64(x) + old(buf[at + 8..])
  {
    var bs := Put64(x);
    forall i | 0 <= i < 8 {
      buf[at + i] := bs[i];
    }
  }

  class Server {
    const id: Word
    /** The index of this server in the cluster. */
    const self: nat
    /** The log is the first `len` elements; the rest is spare capacity. */
    var data: array<Entry>
    var len: nat
    var currentTerm: Word
    /** For each member of the cluster, whom it voted for. */
    var votes: seq<Word>
    /** For each member, where the leader goes on sending and how far it is known to hold the log. */
    var nextIndex: seq<nat>
    var matchIndex: seq<nat>
    var state: State
    var commitIndex: nat
    var file: Bytes
    /** Whether log entries were ever written to the file. */
    ghost var logged: bool

    ghost predicate Valid()
      reads this`data, this`len, this`votes
    {
      len <= data.Length && self < |votes|
    }

    function Entries(): (r: Log)
      requires len <= data.Length
      reads this`data, this`len, data
      ensures |r| == len
    {
      data[..len]
    }

    ghost function Value(): Saved
      requires Valid()
      reads this`data, this`len, this`votes, this`currentTerm, this`file, this`logged, data
    {
      Saved(currentTerm, votes[self], Entries(), file, logged)
    }

    /** A server whose file does not exist yet, after its first restore. */
    constructor (id: Word, self: nat, members: nat)
      requires self < members
      ensures Valid() && fresh(data) && Value() == FRESH && InSync(Value())
      ensures state == Follower && commitIndex == 0
    {
      this.id, this.self := id, self;
      data := new Entry[1](_ => DUMMY);
      len, currentTerm, votes := 1, 0, seq(members, _ => 0);
      nextIndex, matchIndex := seq(members, _ => 0), seq(members, _ => 0);
      state, commitIndex, file, logged := Follower, 0, [], false;
    }

    // -------------------------------------------------------------------------------------
    // The log

    /** Puts one entry behind the log. The runtime moves the log to a bigger array if this one is full. */
    method Append(e: Entry)
      requires Valid()
      modifies this`data, this`len, data
      ensures Valid() && (data == old(data) || fresh(data))
      ensures Entries() == old(Entries()) + [e]
    {
      if len == data.Length {
        var more := new Entry[2 * len + 1](_ => DUMMY);
        forall k | 0 <= k < len {
          more[k] := data[k];
        }
        data := more;
      }
      data[len] := e;
      len := len + 1;
    }

    /** Makes room at index `i` for a request that reaches up to `newTotal`. */
    method Grow(i: nat, newTotal: nat)
      requires Valid() && i == len < newTotal
      modifies this`data, this`len
      ensures Valid() && fresh(data) && data.Length == 2 * newTotal
      ensures Entries() == old(Entries())
    {
      var newLog := new Entry[2 * newTotal](_ => DUMMY);
      forall k | 0 <= k < len {
        newLog[k] := data[k];
      }
      data, len := newLog, i;
    }

    /** One turn of the merge loop, for entry `k` of the request. The asserts are those of the source. */
    method MergeOne(next: nat, entries: Log, k: nat) returns (isNew: bool)
      requires Valid() && k < |entries| && next + k <= len
      modifies this`data, this`len, data
      ensures Valid() && (data == old(data) || fresh(data))
      ensures isNew <==> !Has(old(Entries()), next, entries, k)
      ensures Entries() == if isNew then old(Entries())[..next + k] + [entries[k]] else old(Entries())
    {
      var i, e, newTotal := next + k, entries[k], next + |entries|;
      if i >= data.Length {
        Grow(i, newTotal);
      }
      if i < len && data[i].term != e.term {
        len := i;
      }
      if i < len {
        assert data[i].term == e.term;
        isNew := false;
      } else {
        assert len < data.Length;
        data[len] := e;
        len := len + 1;
        assert len == i + 1;
        isNew := true;
      }
    }

    /** The whole loop. What it reports as new is exactly the tail that differs from what was there. */
    method Merge(next: nat, entries: Log) returns (nNew: nat)
      requires Valid() && next <= len
      modifies this`data, this`len, data
      ensures Valid() && (data == old(data) || fresh(data))
      ensures Entries() == Merged(old(Entries()), next, entries)
      ensures nNew == |entries| - Divergence(old(Entries()), next, entries)
      ensures len >= next
    {
      ghost var was := Entries();
      nNew := 0;
      var i := next;
      NothingYet(was, next, entries);
      while i < next + |entries|
        invariant next <= i <= next + |entries| && Valid() && (data == old(data) || fresh(data))
        invariant MergedSoFar(was, next, entries, i - next, Entries(), nNew)
      {
        nNew := MergeAndCount(was, next, entries, i - next, nNew);
        i := i + 1;
      }
      PatchedAll(was, next, entries, Entries(), nNew);
    }

    method MergeAndCount(ghost was: Log, next: nat, entries: Log, k: nat, nBefore: nat) returns (nNew: nat)
      requires Valid() && next <= |was| && k < |entries| && MergedSoFar(was, next, entries, k, Entries(), nBefore)
      modifies this`data, this`len, data
      ensures Valid() && (data == old(data) || fresh(data))
      ensures MergedSoFar(was, next, entries, k + 1, Entries(), nNew)
    {
      MergeTurn(was, next, entries, k, Entries(), nBefore);
      var isNew := MergeOne(next, entries, k);
      nNew := if isNew then nBefore + 1 else nBefore;
    }

    // -------------------------------------------------------------------------------------
    // The file

    /** Writes the header and the last entries. A command that does not fit into a record is fatal. */
    method Persist(writeLog: bool, nNewEntries: nat) returns (ok: bool)
      requires Valid() && 1 <= len < U64
      modifies this`file, this`logged
      ensures ok <==> StorableFrom(Entries(), len - Tail(len, writeLog, nNewEntries))
      ensures ok ==>
                file == GoraftDisk.Persist(old(file), currentTerm, votes[self], Entries(), writeLog, nNewEntries)
      ensures logged == (old(logged) || writeLog)
    {
      var n := if nNewEntries == 0 && writeLog then len else nNewEntries;
      var from := if n <= len then len - n else 0;
      logged := logged || writeLog;
      PersistedFile(file, currentTerm, votes[self], Entries(), writeLog, nNewEntries, from);
      file := WithHeader(file, currentTerm, votes[self], len);
      ok := true;
      if writeLog && n > 0 {
        ok := WriteRecords(from);
      }
    }

    method WriteRecords(from: nat) returns (ok: bool)
      requires Valid() && from <= len
      modifies this`file
      ensures ok <==> StorableFrom(Entries(), from)
      ensures ok ==> file == WithRecords(old(file), Entries(), from)
    {
      var bytes;
      ok, bytes := Encode(from);
      if ok {
        file := WriteAt(file, RecordOffset(from), bytes);
      }
    }

    /** The records from `from` on, through one buffer that is not cleared in between. */
    method Encode(from: nat) returns (ok: bool, bytes: Bytes)
      requires Valid() && from <= len
      ensures ok <==> StorableFrom(Entries(), from)
      ensures ok ==> bytes == Records(Entries(), from, Zeros(ENTRY_SIZE))
    {
      ghost var log := Entries();
      var entryBytes := new Byte[ENTRY_SIZE](_ => 0);
      assert entryBytes[..] == Zeros(ENTRY_SIZE);
      bytes := [];
      var i := from;
      while i < len
        invariant from <= i <= len && fresh(entryBytes)
        invariant forall k :: from <= k < i ==> Storable(log[k])
        invariant StorableFrom(log, from) ==>
          bytes + Records(log, i, entryBytes[..]) == Records(log, from, Zeros(ENTRY_SIZE))
      {
        if |data[i].command| > ENTRY_SIZE - ENTRY_HEADER {
          return false, [];
        }
        ghost var before := entryBytes[..];
        FillRecord(entryBytes, data[i]);
        if StorableFrom(log, from) {
          NextRecord(bytes, log, i, before);
        }
        bytes := bytes + entryBytes[..];
        i := i + 1;
      }
      ok := true;
    }

    /** Reads the file back. */
    method Restore() returns (r: Restored)
      requires Valid()
      modifies this`data, this`len, this`currentTerm, this`votes, data
      ensures r == GoraftDisk.Restore(file)
      ensures Valid() && (data == old(data) || fresh(data))
      ensures r.Blank? ==> Entries() == (if old(len) == 0 then [DUMMY] else old(Entries())) && currentTerm == old(currentTerm) && votes == old(votes)
      ensures r.State? ==> currentTerm == r.term && votes[self] == r.votedFor && votes == old(votes)[self := votes[self]] && Entries() == r.log
    {
      if file == [] {
        EnsureLog();
        return Blank;
      }
      if |file| < PAGE_SIZE {
        return Panic;
      }
      WordBound(file[..8]);
      WordBound(file[8..16]);
      currentTerm := GetWord(file[..8]);
      votes := votes[self := GetWord(file[8..16])];
      var lenLog := GetWord(file[16..24]);
      data, len := new Entry[0], 0;
      var ok := ReadEntries(lenLog);
      if !ok {
        return Panic;
      }
      EnsureLog();
      r := Restored.State(currentTerm, votes[self], Entries());
    }

    method ReadEntries(lenLog: nat) returns (ok: bool)
      requires Valid() && len == 0
      modifies this`data, this`len, data
      ensures Valid() && (data == old(data) || fresh(data))
      ensures ReadLog(file, 0, lenLog) == if ok then Some(Entries()) else None
    {
      var i := 0;
      BehindNothing(ReadLog(file, 0, lenLog));
      while i < lenLog
        invariant 0 <= i <= lenLog && Valid() && (data == old(data) || fresh(data))
        invariant ReadLog(file, 0, lenLog) == Behind(Entries(), ReadLog(file, i, lenLog))
      {
        if |file| < RecordOffset(i + 1) {
          return false;
        }
        var e := DecodeRecord(file[RecordOffset(i)..RecordOffset(i + 1)]);
        if e.None? {
          return false;
        }
        ghost var before := Entries();
        BehindOne(before, e.value, ReadLog(file, i + 1, lenLog));
        Append(e.value);
        i := i + 1;
      }
      assert Entries() + [] == Entries();
      ok := true;
    }

    /** The log always has at least one entry. */
    method EnsureLog()
      requires Valid()
      modifies this`data, this`len, data
      ensures Valid() && (data == old(data) || fresh(data))
      ensures Entries() == if old(len) == 0 then [DUMMY] else old(Entries())
    {
      if len == 0 {
        Append(DUMMY);
      }
    }

    // -------------------------------------------------------------------------------------
    // What the server does. Each operation leaves the file saying what memory says.

    /** A restart from the file gives back what is in memory, unless no entry was ever written: then it fails. */
    ghost predicate Survives(file: Bytes)
      requires Valid()
      reads this`data, this`len, this`votes, this`currentTerm, this`logged, data
    {
      GoraftDisk.Restore(file) == if logged then Restored.State(currentTerm, votes[self], Entries()) else Panic
    }

    /** Sets the term and the vote and writes the header. */
    method SaveVote(term: Word, votedFor: Word)
      requires Valid() && InSync(Value())
      modifies this`currentTerm, this`votes, this`file, this`logged
      ensures Valid() && InSync(Value()) && Value() == Changed(old(Value()), Vote(term, votedFor))
      ensures votes == old(votes)[self := votedFor] && logged == old(logged) && Survives(file)
    {
      ghost var was := Value();
      currentTerm, votes := term, votes[self := votedFor];
      SaveHeader(was);
    }

    /** Writes the header of a server that was as `was` says before its term and vote were set. */
    method SaveHeader(ghost was: Saved)
      requires Valid() && InSync(was)
      requires Value() == was.(term := currentTerm, votedFor := votes[self])
      modifies this`file, this`logged
      ensures Valid() && InSync(Value()) && Value() == Changed(was, Vote(currentTerm, votes[self])) && Survives(file)
    {
      VoteInSync(was, Vote(currentTerm, votes[self]));
      var ok := Persist(false, 0);
      RestoreIsExact(Value());
    }

    /** Writes the header and the new tail of a log that was `was.log` before: up to `keep` it is the same. */
    method SaveLog(ghost was: Saved, ghost keep: nat, ghost entries: Log, nNew: nat) returns (ok: bool)
      requires Valid() && InSync(was) && 1 <= keep <= |was.log| && keep + |entries| < U64
      requires Value() == was.(log := was.log[..keep] + entries) && nNew == |entries|
      modifies this`file, this`logged
      ensures ok <==> AllStorable(entries)
      ensures logged
      ensures ok ==> Valid() && InSync(Value()) && Value() == Changed(was, Log(keep, entries)) && Survives(file)
    {
      TailStorable(was.log[..keep], entries);
      ok := Persist(true, nNew);
      if ok {
        LogInSync(was, Log(keep, entries));
        RestoreIsExact(Value());
      }
    }

    /** A newer term in a message makes the server a follower without a vote. */
    method UpdateTerm(term: Word) returns (transitioned: bool)
      requires Valid() && InSync(Value())
      modifies this`currentTerm, this`votes, this`state, this`file, this`logged
      ensures Valid() && InSync(Value())
      ensures transitioned <==> term > old(currentTerm)
      ensures Value() == if transitioned then Changed(old(Value()), Vote(term, 0)) else old(Value())
      ensures state == if transitioned then Follower else old(state)
      ensures votes == if transitioned then old(votes)[self := 0] else old(votes)
    {
      transitioned := term > currentTerm;
      if transitioned {
        state := Follower;
        SaveVote(term, 0);
      }
    }

    /** A vote goes to one candidate of a term only, and it is in the file when it is given. */
    method HandleRequestVote(req: VoteRequest) returns (granted: bool, term: Word)
      requires Valid() && InSync(Value())
      modifies this`currentTerm, this`votes, this`state, this`file, this`logged
      ensures Valid() && InSync(Value()) && term == currentTerm && Entries() == old(Entries())
      ensures currentTerm == if req.term > old(currentTerm) then req.term else old(currentTerm)
      ensures granted <==>
                && (req.lastLogTerm > Entries()[len - 1].term ||
                    (req.lastLogTerm == Entries()[len - 1].term && req.lastLogIndex >= len - 1))
                && (req.term > old(currentTerm) ||
                    (req.term == old(currentTerm) && (old(votes)[self] == 0 || old(votes)[self] == req.candidateId)))
      ensures granted ==> currentTerm == req.term && votes[self] == req.candidateId
      ensures currentTerm == old(currentTerm) && old(votes)[self] != 0 ==> votes[self] == old(votes)[self]
      ensures logged == old(logged)
      ensures granted ==> Survives(file)
    {
      var _ := UpdateTerm(req.term);
      term := currentTerm;
      granted := Consider(req);
    }

    /** Decides on a request of no later term than the server's, and writes the vote. */
    method Consider(req: VoteRequest) returns (granted: bool)
      requires Valid() && InSync(Value()) && req.term <= currentTerm
      modifies this`currentTerm, this`votes, this`file, this`logged
      ensures Valid() && InSync(Value()) && Entries() == old(Entries()) && currentTerm == old(currentTerm)
      ensures granted <==>
                && req.term == currentTerm && LogOk(Entries(), req)
                && (old(votes)[self] == 0 || old(votes)[self] == req.candidateId)
      ensures votes == if granted then old(votes)[self := req.candidateId] else old(votes)
      ensures logged == old(logged)
      ensures granted ==> Survives(file)
    {
      granted :=
        && req.term == currentTerm && LogOk(Entries(), req)
        && (votes[self] == 0 || votes[self] == req.candidateId);
      if granted {
        SaveVote(currentTerm, req.candidateId);
      }
    }

    /** A request is accepted from a valid leader with a valid previous entry. */
    method HandleAppendEntries(req: AppendRequest) returns (ok: bool, success: bool, term: Word)
      requires Valid() && InSync(Value()) && len + |req.entries| < U64
      modifies this`currentTerm, this`votes, this`state, this`file, this`logged, this`data, this`len, this`commitIndex, data
      ensures Valid() && term == currentTerm && (data == old(data) || fresh(data))
      ensures currentTerm == if req.term > old(currentTerm) then req.term else old(currentTerm)
      ensures var accepted :=
                && (req.term > old(currentTerm) || (req.term == old(currentTerm) && old(state) != Leader))
                && (req.prevLogIndex == 0 ||
                    (req.prevLogIndex < old(len) && old(Entries())[req.prevLogIndex].term == req.prevLogTerm));
              && success == (accepted && ok)
              && Entries() == (if accepted then Merged(old(Entries()), req.prevLogIndex + 1, req.entries) else old(Entries()))
              && commitIndex == (if accepted then Committed(old(commitIndex), req.leaderCommit, len) else old(commitIndex))
              && (ok <==> accepted ==> StorableFrom(req.entries, Divergence(old(Entries()), req.prevLogIndex + 1, req.entries)))
      ensures ok ==> InSync(Value())
      ensures success ==> currentTerm == req.term && state == Follower && Survives(file)
    {
      var follows := Greet(req.term);
      term, success, ok := currentTerm, false, true;
      if !follows || !ValidPrevious(Entries(), req) {
        return;
      }
      ok := Accept(req);
      success := ok;
    }

    /** Takes over a newer term and gives up as a candidate; says whether the sender of the request is followed. */
    method Greet(term: Word) returns (follows: bool)
      requires Valid() && InSync(Value())
      modifies this`currentTerm, this`votes, this`state, this`file, this`logged
      ensures Valid() && InSync(Value()) && Entries() == old(Entries())
      ensures currentTerm == if term > old(currentTerm) then term else old(currentTerm)
      ensures follows <==> term > old(currentTerm) || (term == old(currentTerm) && old(state) != Leader)
      ensures follows ==> currentTerm == term && state == Follower
    {
      var _ := UpdateTerm(term);
      if term == currentTerm && state == Candidate {
        state := Follower;
      }
      follows := state == Follower && term >= currentTerm;
    }

    /** An accepted request leaves the merged log in memory and in the file. */
    method Accept(req: AppendRequest) returns (ok: bool)
      requires Valid() && InSync(Value()) && len + |req.entries| < U64 && ValidPrevious(Entries(), req)
      modifies this`file, this`logged, this`data, this`len, this`commitIndex, data
      ensures Valid() && (data == old(data) || fresh(data))
      ensures Entries() == Merged(old(Entries()), req.prevLogIndex + 1, req.entries)
      ensures commitIndex == Committed(old(commitIndex), req.leaderCommit, len)
      ensures ok <==> StorableFrom(req.entries, Divergence(old(Entries()), req.prevLogIndex + 1, req.entries))
      ensures ok ==> InSync(Value()) && Survives(file)
    {
      ok := MergeAndSave(req.prevLogIndex + 1, req.entries);
      FollowCommit(req.leaderCommit);
    }

    method FollowCommit(leaderCommit: nat)
      requires len >= 1
      modifies this`commitIndex
      ensures commitIndex == Committed(old(commitIndex), leaderCommit, len)
    {
      if leaderCommit > commitIndex {
        commitIndex := if leaderCommit <= len - 1 then leaderCommit else len - 1;
      }
    }

    method MergeAndSave(next: nat, entries: Log) returns (ok: bool)
      requires Valid() && InSync(Value()) && 1 <= next <= len && len + |entries| < U64
      modifies this`file, this`logged, this`data, this`len, data
      ensures Valid() && (data == old(data) || fresh(data))
      ensures Entries() == Merged(old(Entries()), next, entries) && len >= next
      ensures ok <==> StorableFrom(entries, Divergence(old(Entries()), next, entries))
      ensures ok ==> InSync(Value()) && Survives(file)
      ensures logged == (old(logged) || Divergence(old(Entries()), next, entries) < |entries|)
    {
      ghost var was := Value();
      ghost var d := Divergence(was.log, next, entries);
      var nNew := Merge(next, entries);
      if nNew != 0 {
        TailOf(entries, d);
        ok := SaveLog(was, next + d, entries[d..], nNew);
      } else {
        SaveHeader(was);
        ok := true;
      }
    }

    /** Commands given to the leader go behind its log, with its term. */
    method Apply(commands: seq<Bytes>) returns (ok: bool, isLeader: bool)
      requires Valid() && InSync(Value()) && len + |commands| < U64
      modifies this`file, this`logged, this`data, this`len, data
      ensures Valid() && (data == old(data) || fresh(data)) && isLeader == (old(state) == Leader)
      ensures Entries() == old(Entries()) + if isLeader then Submitted(commands, currentTerm) else []
      ensures isLeader ==> len == old(len) + |commands|
      ensures isLeader ==> forall i :: 0 <= i < |commands| ==> Entries()[old(len) + i] == Entry(commands[i], currentTerm)
      ensures ok <==> isLeader ==> AllStorable(Submitted(commands, currentTerm))
      ensures ok ==> InSync(Value())
      ensures ok && isLeader ==> logged && Survives(file)
    {
      isLeader, ok := state == Leader, true;
      if !isLeader {
        assert Entries() + [] == Entries();
        return;
      }
      ghost var was := Value();
      var k := 0;
      assert Entries() == was.log + Submitted([], currentTerm);
      while k < |commands|
        invariant k <= |commands| && Valid() && (data == old(data) || fresh(data))
        invariant file == was.file && logged == was.logged
        invariant Entries() == was.log + Submitted(commands[..k], currentTerm)
      {
        SubmittedNext(was.log, commands, k, currentTerm);
        Append(Entry(commands[k], currentTerm));
        k := k + 1;
      }
      assert commands[..k] == commands;
      assert was.log[..|was.log|] == was.log;
      ok := SaveLog(was, |was.log|, Submitted(commands, currentTerm), |commands|);
    }

    /** A new election: the server votes for itself and forgets the votes of the others. */
    method Timeout()
      requires Valid() && InSync(Value())
      modifies this`currentTerm, this`votes, this`state, this`file, this`logged
      ensures Valid() && InSync(Value()) && state == Candidate
      ensures Value() == Changed(old(Value()), Vote(NextTerm(old(currentTerm)), id))
      ensures currentTerm == if old(currentTerm) + 1 < U64 then old(currentTerm) + 1 else 0
      ensures |votes| == old(|votes|) && votes[self] == id
      ensures forall i :: 0 <= i < |votes| && i != self ==> votes[i] == 0
    {
      state := Candidate;
      ForgetVotes();
      SaveVote(NextTerm(currentTerm), id);
    }

    method ForgetVotes()
      requires Valid()
      modifies this`votes
      ensures Valid() && Value() == old(Value()) && |votes| == old(|votes|)
      ensures forall j :: 0 <= j < |votes| && j != self ==> votes[j] == 0
    {
      var i := 0;
      while i < |votes|
        invariant 0 <= i <= |votes| == old(|votes|) && Valid() && votes[self] == old(votes)[self]
        invariant forall j :: 0 <= j < i && j != self ==> votes[j] == 0
      {
        if i != self {
          votes := votes[i := 0];
        }
        i := i + 1;
      }
    }

    /** Counts the votes; a majority makes the server leader, with a fresh view of its peers and a new entry of its term
        without a command. */
    method BecomeLeader()
      requires Valid() && InSync(Value()) && len + 1 < U64
      modifies this`state, this`file, this`logged, this`data, this`len, this`nextIndex, this`matchIndex, data
      ensures Valid() && InSync(Value()) && (data == old(data) || fresh(data))
      ensures var won := 2 * VotesFor(votes, id) > |votes|;
              && state == (if won then Leader else old(state))
              && Entries() == old(Entries()) + (if won then [Entry([], currentTerm)] else [])
              && (won ==> logged && Survives(file))
              && nextIndex == (if won then Repeat(|votes|, old(len) + 1) else old(nextIndex))
              && matchIndex == (if won then Repeat(|votes|, 0) else old(matchIndex))
    {
      var won := HasMajority();
      if won {
        Lead();
      } else {
        assert Entries() + [] == Entries();
      }
    }

    /** A new leader sends to everyone from behind its log, and takes nobody to hold anything. */
    method ResetPeers()
      modifies this`nextIndex, this`matchIndex
      ensures nextIndex == Repeat(|votes|, len + 1) && matchIndex == Repeat(|votes|, 0)
    {
      nextIndex, matchIndex := [], [];
      while |nextIndex| < |votes|
        invariant |nextIndex| <= |votes|
        invariant nextIndex == Repeat(|nextIndex|, len + 1) && matchIndex == Repeat(|nextIndex|, 0)
      {
        nextIndex, matchIndex := nextIndex + [len + 1], matchIndex + [0];
      }
    }

    method Lead()
      requires Valid() && InSync(Value()) && len + 1 < U64
      modifies this`state, this`file, this`logged, this`data, this`len, this`nextIndex, this`matchIndex, data
      ensures Valid() && InSync(Value()) && (data == old(data) || fresh(data))
      ensures state == Leader && Entries() == old(Entries()) + [Entry([], currentTerm)] && logged && Survives(file)
      ensures nextIndex == Repeat(|votes|, old(len) + 1) && matchIndex == Repeat(|votes|, 0)
    {
      ResetPeers();
      state := Leader;
      AppendBlank();
    }

    method AppendBlank()
      requires Valid() && InSync(Value()) && len + 1 < U64
      modifies this`file, this`logged, this`data, this`len, data
      ensures Valid() && InSync(Value()) && (data == old(data) || fresh(data))
      ensures Entries() == old(Entries()) + [Entry([], currentTerm)] && logged && Survives(file)
    {
      ghost var was := Value();
      assert was.log[..|was.log|] == was.log;
      Append(Entry([], currentTerm));
      var ok := SaveLog(was, |was.log|, [Entry([], currentTerm)], 1);
    }

    method HasMajority() returns (won: bool)
      ensures won <==> 2 * VotesFor(votes, id) > |votes|
    {
      var quorum := |votes| / 2 + 1;
      var i := 0;
      while i < |votes|
        invariant 0 <= i <= |votes|
        invariant quorum == if VotesFor(votes[..i], id) <= |votes| / 2 then |votes| / 2 + 1 - VotesFor(votes[..i], id) else 0
      {
        assert votes[..i + 1][..i] == votes[..i];
        if votes[i] == id && quorum > 0 {
          quorum := quorum - 1;
        }
        i := i + 1;
      }
      assert votes[..i] == votes;
      won := quorum == 0;
    }
  }

  /** The entries that a leader makes of commands. */
  function Submitted(commands: seq<Bytes>, term: Word): (r: Log)
    ensures |r| == |commands|
  {
    seq(|commands|, i requires 0 <= i < |commands| => Entry(commands[i], term))
  }

  lemma SubmittedNext(log: Log, commands: seq<Bytes>, k: nat, term: Word)
    requires k < |commands|
    ensures log + Submitted(commands[..k + 1], term) == log + Submitted(commands[..k], term) + [Entry(commands[k], term)]
  {
  }

  lemma TailStorable(kept: Log, entries: Log)
    requires AllStorable(kept)
    ensures AllStorable(kept + entries) <==> AllStorable(entries)
    ensures StorableFrom(kept + entries, |kept|) <==> AllStorable(entries)
  {
    if StorableFrom(kept + entries, |kept|) {
      assert forall i :: 0 <= i < |entries| ==> entries[i] == (kept + entries)[|kept| + i];
    }
  }

  lemma TailOf(entries: Log, d: nat)
    requires d <= |entries|
    ensures AllStorable(entries[d..]) <==> StorableFrom(entries, d)
  {
    assert forall i :: d <= i < |entries| ==> entries[i] == entries[d..][i - d];
  }

  /** The log when the first `k` entries are merged. */
  ghost function PatchedTo(log: Log, next: nat, entries: Log, k: nat): (r: Log)
    requires next <= |log| && k <= |entries|
    ensures |r| >= next + k
  {
    var d := Divergence(log, next, entries);
    if k <= d then log else log[..next + d] + entries[d..k]
  }

  /** How many of the first `k` entries are new. */
  ghost function NewTo(log: Log, next: nat, entries: Log, k: nat): nat {
    var d := Divergence(log, next, entries);
    if k <= d then 0 else k - d
  }

  /** The first `k` entries are merged: what the log is then, and how many were new. */
  ghost predicate MergedSoFar(was: Log, next: nat, entries: Log, k: nat, log: Log, nNew: nat)
    requires next <= |was| && k <= |entries|
  {
    log == PatchedTo(was, next, entries, k) && nNew == NewTo(was, next, entries, k)
  }

  lemma NothingYet(was: Log, next: nat, entries: Log)
    requires next <= |was|
    ensures MergedSoFar(was, next, entries, 0, was, 0)
  {
  }

  lemma MergeTurn(was: Log, next: nat, entries: Log, k: nat, log: Log, nNew: nat)
    requires next <= |was| && k < |entries| && MergedSoFar(was, next, entries, k, log, nNew)
    ensures next + k <= |log|
    ensures if Has(log, next, entries, k) then MergedSoFar(was, next, entries, k + 1, log, nNew)
            else MergedSoFar(was, next, entries, k + 1, log[..next + k] + [entries[k]], nNew + 1)
  {
    var d := Divergence(was, next, entries);
    assert k < d ==> Has(was, next, entries, k);
    if d < k {
      assert entries[d..k + 1] == entries[d..k] + [entries[k]];
    }
  }

  lemma PatchedAll(was: Log, next: nat, entries: Log, log: Log, nNew: nat)
    requires next <= |was| && MergedSoFar(was, next, entries, |entries|, log, nNew)
    ensures log == Merged(was, next, entries) && nNew == |entries| - Divergence(was, next, entries)
    ensures next <= |log|
  {
    var d := Divergence(was, next, entries);
    assert entries[d..|entries|] == entries[d..];
  }

  /** Fills the record buffer for one entry; bytes behind the command keep what they had. */
  method FillRecord(buf: array<Byte>, e: Entry)
    requires buf.Length == ENTRY_SIZE && Storable(e)
    modifies buf
    ensures buf[..] == Record(e, old(buf[..]))
  {
    ghost var was := buf[..];
    PutUint64(buf, 0, e.term);
    PutUint64(buf, 8, |e.command|);
    HeaderParts(was, Put64(e.term), Put64(|e.command|), buf[..]);
    CopyCommand(buf, e.command);
  }

  lemma HeaderParts(was: Bytes, a: Bytes, b: Bytes, now: Bytes)
    requires |was| == ENTRY_SIZE && |a| == 8 && |b| == 8
    requires var mid := was[..0] + a + was[8..]; now == mid[..8] + b + mid[16..]
    ensures now == a + b + was[16..]
  {
  }

  method CopyCommand(buf: array<Byte>, command: Bytes)
    requires buf.Length == ENTRY_SIZE && |command| <= ENTRY_SIZE - ENTRY_HEADER
    modifies buf
    ensures buf[..] == old(buf[..ENTRY_HEADER]) + command + old(buf[ENTRY_HEADER + |command|..])
  {
    forall k | 0 <= k < |command| {
      buf[ENTRY_HEADER + k] := command[k];
    }
  }

  /** What a persist leaves in the file if it writes the records from `from` on. */
  lemma PersistedFile(file: Bytes, term: Word, votedFor: Word, log: Log, writeLog: bool, nNew: nat, from: nat)
    requires 1 <= |log| < U64
    requires from == if writeLog && nNew == 0 then 0 else if nNew <= |log| then |log| - nNew else 0
    ensures writeLog ==> from == |log| - Tail(|log|, writeLog, nNew)
    ensures !writeLog ==> Tail(|log|, writeLog, nNew) == 0 && StorableFrom(log, |log|)
    ensures writeLog && StorableFrom(log, from) ==>
              WithRecords(WithHeader(file, term, votedFor, |log|), log, from) ==
              GoraftDisk.Persist(file, term, votedFor, log, writeLog, nNew)
    ensures !writeLog ==>
              WithHeader(file, term, votedFor, |log|) == GoraftDisk.Persist(file, term, votedFor, log, writeLog, nNew)
  {
  }

  lemma NextRecord(bytes: Bytes, log: Log, i: nat, buf: Bytes)
    requires i < |log| && StorableFrom(log, i) && |buf| == ENTRY_SIZE
    ensures var rec := Record(log[i], buf);
            bytes + Records(log, i, buf) == bytes + rec + Records(log, i + 1, rec)
  {
  }

  /** What is read after `log`. */
  function Behind(log: Log, rest: Option<Log>): Option<Log> {
    match rest
    case Some(r) => Some(log + r)
    case None => None
  }

  lemma BehindNothing(rest: Option<Log>)
    ensures Behind([], rest) == rest
  {
    assert rest.Some? ==> [] + rest.value == rest.value;
  }

  lemma BehindOne(log: Log, e: Entry, rest: Option<Log>)
    ensures Behind(log, Behind([e], rest)) == Behind(log + [e], rest)
  {
    assert rest.Some? ==> log + ([e] + rest.value) == log + [e] + rest.value;
  }

  lemma {:induction false} WordBound(bs: Bytes)
    ensures GetWord(bs) < Pow256(|bs|)
    ensures |bs| == 8 ==> GetWord(bs) < U64
  {
    if bs != [] {
      WordBound(bs[1..]);
    }
    Pow256Of8();
  }
}
