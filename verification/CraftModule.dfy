/** The consensus module in its imperative form. Each method is one critical section, and is proved to
    do to the fields what the function of `CraftNode` of the same purpose does to a value. */
module CraftModule {
  import opened CraftNode

  lemma WithOneMore(m: map<int, int>, keys: seq<int>, k: nat, v: int)
    requires k < |keys|
    ensures WithAll(m, keys[..k + 1], v) == WithAll(m, keys[..k], v)[keys[k] := v]
  {
    assert forall p :: p in keys[..k + 1] <==> p in keys[..k] || p == keys[k];
  }

  /** How a call can end: with an error because the module is stopped, with an index error, or with a value. */
  datatype Outcome<R> = Unavailable | Panicked | Replied(reply: R)

  class ConsensusModule {
    const id: int
    const peerIds: seq<int>
    var state: Role
    var currentTerm: int
    var votedFor: int
    var log: Log
    var commitIndex: int
    var lastApplied: int
    var nextIndex: map<int, int>
    var matchIndex: map<int, int>
    var votesReceived: map<int, int>
    var sender: Sender
    var delivered: seq<CommitEntry>

    ghost function Value(): Node
      reads this
    {
      Node(id, peerIds, state, currentTerm, votedFor, log, commitIndex, lastApplied,
           nextIndex, matchIndex, votesReceived, sender, delivered)
    }

    /** Each peer is listed once, and the commit index is -1 or an index. */
    ghost predicate Valid()
      reads this
    {
      && (forall a, b :: 0 <= a < b < |peerIds| ==> peerIds[a] != peerIds[b])
      && -1 <= commitIndex
    }

    constructor (id: int, peerIds: seq<int>)
      requires forall a, b :: 0 <= a < b < |peerIds| ==> peerIds[a] != peerIds[b]
      ensures Valid() && Value() == NewNode(id, peerIds)
    {
      this.id, this.peerIds := id, peerIds;
      state, currentTerm, votedFor, log := Follower, 0, -1, [];
      commitIndex, lastApplied := -1, -1;
      nextIndex, matchIndex, votesReceived := map[], map[], map[];
      sender, delivered := Sender(0, -1, 0, 0), [];
    }

    method LastLogIndexAndTerm() returns (lastIndex: int, lastTerm: int)
      ensures lastIndex == LastLogIndex(log) && lastTerm == LastLogTerm(log)
    {
      if |log| > 0 {
        lastIndex := |log| - 1;
        lastTerm := log[lastIndex].term;
      } else {
        lastIndex, lastTerm := -1, -1;
      }
    }

    method BecomeFollower(term: int)
      modifies this
      ensures Value() == CraftNode.BecomeFollower(old(Value()), term)
    {
      state := Follower;
      currentTerm := term;
      votedFor := -1;
    }

    method RequestVote(req: VoteRequest) returns (r: Outcome<VoteReply>)
      modifies this
      ensures if old(state) == Dead then r == Unavailable && Value() == old(Value())
              else r.Replied? && (Value(), r.reply) == HandleRequestVote(old(Value()), req)
    {
      if state == Dead {
        return Unavailable;
      }
      var lastLogIndex, lastLogTerm := LastLogIndexAndTerm();
      if req.term > currentTerm {
        BecomeFollower(req.term);
      }
      var reply := VoteReply(currentTerm, false);
      if currentTerm == req.term
         && (votedFor == -1 || votedFor == req.candidateId)
         && (req.lastLogTerm > lastLogTerm || (req.lastLogTerm == lastLogTerm && req.lastLogIndex >= lastLogIndex)) {
        reply := reply.(voteGranted := true);
        votedFor := req.candidateId;
      }
      r := Replied(reply);
    }

    /** Finds where the entries of a request first differ in term from the log. */
    method InsertionPoint(prev: int, entries: Log) returns (logInsertIndex: int, newEntriesIndex: int)
      requires -1 <= prev < |log|
      ensures newEntriesIndex == MatchLen(log, prev + 1, entries)
      ensures logInsertIndex == prev + 1 + newEntriesIndex
    {
      logInsertIndex := prev + 1;
      newEntriesIndex := 0;
      while logInsertIndex < |log| && newEntriesIndex < |entries|
          && log[logInsertIndex].term == entries[newEntriesIndex].term
        invariant 0 <= newEntriesIndex <= |entries| && logInsertIndex == prev + 1 + newEntriesIndex <= |log|
        invariant newEntriesIndex + MatchLen(log, logInsertIndex, entries[newEntriesIndex..]) == MatchLen(log, prev + 1, entries)
        decreases |entries| - newEntriesIndex
      {
        assert entries[newEntriesIndex..][1..] == entries[newEntriesIndex + 1..];
        logInsertIndex := logInsertIndex + 1;
        newEntriesIndex := newEntriesIndex + 1;
      }
    }

    /** Steps back over the entries of the conflicting term. */
    method FirstOfTerm(prev: int, t: int) returns (first: int)
      requires 0 <= prev <= |log|
      ensures first == ConflictStart(log, prev, t)
    {
      var i := prev - 1;
      while i >= 0 && log[i].term == t
        invariant -1 <= i < prev
        invariant ConflictStart(log, i + 1, t) == ConflictStart(log, prev, t)
      {
        i := i - 1;
      }
      first := i + 1;
    }

    method AppendAsFollower(req: AppendRequest) returns (reply: AppendReply)
      requires req.prevLogIndex >= -1
      modifies this`log, this`commitIndex
      ensures (Value(), reply) == FollowerAppend(old(Value()), req)
    {
      reply := AppendReply(currentTerm, false, 0, 0);
      if req.prevLogIndex == -1 || (req.prevLogIndex < |log| && req.prevLogTerm == log[req.prevLogIndex].term) {
        reply := reply.(success := true);
        var logInsertIndex, newEntriesIndex := InsertionPoint(req.prevLogIndex, req.entries);
        if newEntriesIndex < |req.entries| {
          log := log[..logInsertIndex] + req.entries[newEntriesIndex..];
        }
        if req.leaderCommit > commitIndex {
          commitIndex := Min(req.leaderCommit, |log| - 1);
        }
      } else if req.prevLogIndex >= |log| {
        reply := reply.(conflictIndex := |log|, conflictTerm := -1);
      } else {
        var t := log[req.prevLogIndex].term;
        var first := FirstOfTerm(req.prevLogIndex, t);
        reply := reply.(conflictTerm := t, conflictIndex := first);
      }
    }

    /** A previous index below -1 is an index error, unless the request is too old to be looked at. */
    method AppendEntries(req: AppendRequest) returns (r: Outcome<AppendReply>)
      modifies this
      ensures if old(state) == Dead then r == Unavailable && Value() == old(Value())
              else if req.prevLogIndex >= -1 then r.Replied? && (Value(), r.reply) == HandleAppendEntries(old(Value()), req)
              else if req.term < old(currentTerm) then
                r == Replied(AppendReply(currentTerm, false, 0, 0)) && Value() == old(Value())
              else r == Panicked
    {
      if state == Dead {
        return Unavailable;
      }
      if req.term > currentTerm {
        BecomeFollower(req.term);
      }
      var reply := AppendReply(currentTerm, false, 0, 0);
      if req.term == currentTerm {
        if state != Follower {
          BecomeFollower(req.term);
        }
        if req.prevLogIndex < -1 {
          return Panicked;
        }
        reply := AppendAsFollower(req);
      }
      r := Replied(reply);
    }

    /** The result is the index of the command, or -1. */
    method SubmitCommand(command: int) returns (index: int)
      modifies this
      ensures Value() == Submit(old(Value()), command)
      ensures if state == Leader
              then index == |old(log)| && log == old(log) + [Entry(command, currentTerm)]
              else index == -1 && log == old(log)
    {
      if state == Leader {
        index := |log|;
        log := log + [Entry(command, currentTerm)];
      } else {
        index := -1;
      }
    }

    method StartElection()
      requires state == Follower || state == Candidate
      modifies this
      ensures Value() == CraftNode.StartElection(old(Value()))
    {
      state := Candidate;
      currentTerm := currentTerm + 1;
      votedFor := id;
      votesReceived := votesReceived[currentTerm := 1];
    }

    method StartLeader()
      modifies this
      ensures Value() == CraftNode.StartLeader(old(Value()))
    {
      state := Leader;
      ResetPeers();
    }

    method ResetPeers()
      modifies this`nextIndex, this`matchIndex
      ensures nextIndex == WithAll(old(nextIndex), peerIds, |log|)
      ensures matchIndex == WithAll(old(matchIndex), peerIds, -1)
    {
      var k := 0;
      while k < |peerIds|
        invariant 0 <= k <= |peerIds|
        invariant nextIndex == WithAll(old(nextIndex), peerIds[..k], |log|)
        invariant matchIndex == WithAll(old(matchIndex), peerIds[..k], -1)
      {
        WithOneMore(old(nextIndex), peerIds, k, |log|);
        WithOneMore(old(matchIndex), peerIds, k, -1);
        nextIndex := nextIndex[peerIds[k] := |log|];
        matchIndex := matchIndex[peerIds[k] := -1];
        k := k + 1;
      }
      assert peerIds[..k] == peerIds;
    }

    method VoteReplied(req: VoteRequest, res: VoteReply)
      modifies this
      ensures Value() == HandleVoteReply(old(Value()), req, res)
    {
      if state != Candidate {
        return;
      }
      if res.term > req.term {
        BecomeFollower(res.term);
      } else if res.term == req.term {
        if res.voteGranted {
          votesReceived := votesReceived[req.term := Lookup(votesReceived, req.term) + 1];
          if votesReceived[req.term] * 2 > |peerIds| + 1 {
            StartLeader();
          }
        }
      }
    }

    /** The second critical section of a send, with the term that the first one saved. It is an index error if the
        next index is outside the log. */
    method BuildAppendRequest(peer: int, savedTerm: int) returns (r: Outcome<AppendRequest>)
      ensures if NextInRange(Value(), peer) then r == Replied(MakeAppendRequest(Value(), peer).(term := savedTerm))
              else r == Panicked
    {
      var ni := Lookup(nextIndex, peer);
      if ni < 0 || ni > |log| {
        return Panicked;
      }
      var prevLogIndex := ni - 1;
      var prevLogTerm := -1;
      if prevLogIndex >= 0 {
        prevLogTerm := log[prevLogIndex].term;
      }
      r := Replied(AppendRequest(savedTerm, id, prevLogIndex, prevLogTerm, log[ni..], commitIndex));
    }

    /** The leader and the peers known to hold index `i`. */
    method CountMatches(i: int) returns (matchCount: nat)
      requires Valid()
      ensures matchCount == 1 + |Matching(Value(), i)|
    {
      matchCount := 1;
      ghost var seen: set<int> := {};
      var k := 0;
      while k < |peerIds|
        invariant 0 <= k <= |peerIds|
        invariant seen == set p | p in peerIds[..k] && Lookup(matchIndex, p) >= i
        invariant matchCount == 1 + |seen|
      {
        var p := peerIds[k];
        assert forall q :: q in peerIds[..k + 1] <==> q in peerIds[..k] || q == p;
        assert p !in seen;
        if Lookup(matchIndex, p) >= i {
          matchCount := matchCount + 1;
          seen := seen + {p};
        }
        k := k + 1;
      }
      assert peerIds[..k] == peerIds;
      assert seen == Matching(Value(), i);
    }

    /** Moves the commit index to the highest index of the current term that a majority holds. */
    method AdvanceCommitIndex()
      requires Valid()
      modifies this`commitIndex
      ensures Valid() && commitIndex == CommitScan(old(Value()), |log|)
    {
      ghost var n := Value();
      var i := commitIndex + 1;
      while i < |log|
        invariant n.commitIndex + 1 <= i && (i <= |log| || i == n.commitIndex + 1)
        invariant Valid() && n == Value().(commitIndex := n.commitIndex)
        invariant commitIndex == CommitScan(n, if i <= |log| then i else |log|)
        modifies this`commitIndex
      {
        if log[i].term == currentTerm {
          var matchCount := CountMatches(i);
          assert Matching(Value(), i) == Matching(n, i);
          if matchCount * 2 > |peerIds| + 1 {
            commitIndex := i;
          }
        }
        i := i + 1;
      }
    }

    method FindLastOfTerm(t: int) returns (last: int)
      ensures last == LastIndexOfTerm(log, |log|, t)
    {
      last := -1;
      var i := |log| - 1;
      while i >= 0
        invariant -1 <= i < |log|
        invariant last == -1 && LastIndexOfTerm(log, i + 1, t) == LastIndexOfTerm(log, |log|, t)
      {
        if log[i].term == t {
          return i;
        }
        i := i - 1;
      }
    }

    method AppendReplied(peer: int, req: AppendRequest, res: AppendReply)
      requires Valid()
      modifies this
      ensures Value() == HandleAppendReply(old(Value()), peer, req, res)
    {
      if res.term > currentTerm {
        BecomeFollower(res.term);
        return;
      }
      if state == Leader && req.term == res.term {
        if res.success {
          var ni := req.prevLogIndex + 1;
          nextIndex := nextIndex[peer := ni + |req.entries|];
          matchIndex := matchIndex[peer := ni + |req.entries| - 1];
          AdvanceCommitIndex();
        } else if res.conflictTerm >= 0 {
          var lastIndexOfTerm := FindLastOfTerm(res.conflictTerm);
          if lastIndexOfTerm >= 0 {
            nextIndex := nextIndex[peer := lastIndexOfTerm + 1];
          } else {
            nextIndex := nextIndex[peer := res.conflictIndex];
          }
        } else {
          nextIndex := nextIndex[peer := res.conflictIndex];
        }
      }
    }

    /** The part of the reporting loop that holds the lock. */
    method TakeEntries()
      modifies this`sender, this`lastApplied
      ensures Value() == TakeCommitted(old(Value()))
    {
      sender := Sender(currentTerm, lastApplied, 0, 0);
      if commitIndex > lastApplied {
        sender := sender.(count := commitIndex - lastApplied);
        lastApplied := commitIndex;
      }
    }

    /** One send on the commit channel. */
    method ReportNext()
      requires CanReport(Value())
      modifies this`sender, this`delivered
      ensures Value() == Report(old(Value()))
    {
      var index := sender.savedLastApplied + sender.next + 1;
      delivered := delivered + [CommitEntry(log[index].command, index, sender.savedTerm)];
      sender := sender.(next := sender.next + 1);
    }
  }
}
