/** One consensus module of craft: its state, the messages it exchanges, and the
    effect of each of its critical sections as a function on values.
    The same steps, in the imperative form of the program, are in `CraftModule`. */
module CraftNode {

  datatype Entry = Entry(command: int, term: int)

  type Log = seq<Entry>

  datatype Role = Follower | Candidate | Leader | Dead

  datatype CommitEntry = CommitEntry(command: int, index: int, term: int)

  /** The locals of the goroutine that reports committed entries: it has taken `count` entries
      from the log, starting after `savedLastApplied`, and has reported `next` of them. */
  datatype Sender = Sender(savedTerm: int, savedLastApplied: int, next: int, count: int)

  /** `votedFor == -1` means no vote. `votesReceived` holds one counter per election
      this node has started, keyed by the term of that election. `delivered` is everything
      sent so far on the commit channel. */
  datatype Node = Node(
    id: int,
    peerIds: seq<int>,
    state: Role,
    currentTerm: int,
    votedFor: int,
    log: Log,
    commitIndex: int,
    lastApplied: int,
    nextIndex: map<int, int>,
    matchIndex: map<int, int>,
    votesReceived: map<int, int>,
    sender: Sender,
    delivered: seq<CommitEntry>)

  datatype VoteRequest = VoteRequest(term: int, candidateId: int, lastLogIndex: int, lastLogTerm: int)

  datatype VoteReply = VoteReply(term: int, voteGranted: bool)

  datatype AppendRequest = AppendRequest(
    term: int,
    leaderId: int,
    prevLogIndex: int,
    prevLogTerm: int,
    entries: Log,
    leaderCommit: int)

  datatype AppendReply = AppendReply(term: int, success: bool, conflictIndex: int, conflictTerm: int)

  /** A module as its constructor leaves it. */
  function NewNode(id: int, peerIds: seq<int>): Node {
    Node(id, peerIds, Follower, 0, -1, [], -1, -1, map[], map[], map[], Sender(0, -1, 0, 0), [])
  }

  /** Reading an absent key of an integer map yields zero. */
  function Lookup(m: map<int, int>, k: int): int {
    if k in m then m[k] else 0
  }

  function LastLogIndex(log: Log): int {
    |log| - 1
  }

  function LastLogTerm(log: Log): int {
    if |log| > 0 then log[|log| - 1].term else -1
  }

  /** The comparison a voter makes: is a log ending in (`lastIndex`, `lastTerm`) at least as
      up to date as `log`? */
  predicate UpToDate(lastIndex: int, lastTerm: int, log: Log) {
    lastTerm > LastLogTerm(log) || (lastTerm == LastLogTerm(log) && lastIndex >= LastLogIndex(log))
  }

  function BecomeFollower(n: Node, term: int): Node {
    n.(state := Follower, currentTerm := term, votedFor := -1)
  }

  function StartElection(n: Node): Node {
    n.(state := Candidate,
       currentTerm := n.currentTerm + 1,
       votedFor := n.id,
       votesReceived := n.votesReceived[n.currentTerm + 1 := 1])
  }

  /** The map with every one of the keys set to `v`. */
  function WithAll(m: map<int, int>, keys: seq<int>, v: int): map<int, int> {
    m + (map p | p in keys :: v)
  }

  /** Every peer is to be sent what follows the whole log, and is not known to hold anything. */
  function StartLeader(n: Node): Node {
    n.(state := Leader,
       nextIndex := WithAll(n.nextIndex, n.peerIds, |n.log|),
       matchIndex := WithAll(n.matchIndex, n.peerIds, -1))
  }

  function MakeVoteRequest(n: Node, term: int): VoteRequest {
    VoteRequest(term, n.id, LastLogIndex(n.log), LastLogTerm(n.log))
  }

  predicate Grants(n: Node, req: VoteRequest) {
    && n.currentTerm == req.term
    && (n.votedFor == -1 || n.votedFor == req.candidateId)
    && UpToDate(req.lastLogIndex, req.lastLogTerm, n.log)
  }

  /** A node that sees a later term follows in it. */
  function CatchUp(n: Node, term: int): Node {
    if term > n.currentTerm then BecomeFollower(n, term) else n
  }

  function HandleRequestVote(n: Node, req: VoteRequest): (Node, VoteReply) {
    var n1 := CatchUp(n, req.term);
    if Grants(n1, req) then
      (n1.(votedFor := req.candidateId), VoteReply(n1.currentTerm, true))
    else
      (n1, VoteReply(n1.currentTerm, false))
  }

  /** `req` is the request that `rep` answers; its term is the term of the election. */
  function HandleVoteReply(n: Node, req: VoteRequest, rep: VoteReply): Node {
    if n.state != Candidate then n
    else if rep.term > req.term then BecomeFollower(n, rep.term)
    else if rep.term == req.term && rep.voteGranted then
      var votes := Lookup(n.votesReceived, req.term) + 1;
      var n1 := n.(votesReceived := n.votesReceived[req.term := votes]);
      if votes * 2 > |n.peerIds| + 1 then StartLeader(n1) else n1
    else n
  }

  /** How many of `entries`, laid over `log` from index `at`, agree with it in term before
      the first disagreement or the end of either. */
  function MatchLen(log: Log, at: nat, entries: Log): (r: nat)
    ensures r <= |entries|
    ensures r > 0 ==> at + r <= |log|
    ensures forall j :: 0 <= j < r ==> log[at + j].term == entries[j].term
    ensures r < |entries| && at + r < |log| ==> log[at + r].term != entries[r].term
    decreases |entries|
  {
    if at >= |log| || entries == [] || log[at].term != entries[0].term then 0
    else
      var r := MatchLen(log, at + 1, entries[1..]);
      assert forall j :: 0 < j < r + 1 ==> log[at + j] == log[at + 1 + (j - 1)] && entries[j] == entries[1..][j - 1];
      r + 1
  }

  /** The log after an accepted request: cut at the first disagreement, then extended. */
  function MergeLog(log: Log, prev: int, entries: Log): Log
    requires -1 <= prev < |log|
  {
    var j := MatchLen(log, prev + 1, entries);
    if j < |entries| then log[..prev + 1 + j] + entries[j..] else log
  }

  /** The first index of the stretch of entries of term `t` that ends just before `i`. */
  function ConflictStart(log: Log, i: nat, t: int): (r: nat)
    requires i <= |log|
    ensures r <= i
    ensures forall j :: r <= j < i ==> log[j].term == t
    ensures r > 0 ==> log[r - 1].term != t
  {
    if i > 0 && log[i - 1].term == t then ConflictStart(log, i - 1, t) else i
  }

  predicate PrevMatches(log: Log, req: AppendRequest)
    requires req.prevLogIndex >= -1
  {
    req.prevLogIndex == -1 || (req.prevLogIndex < |log| && req.prevLogTerm == log[req.prevLogIndex].term)
  }

  function Min(a: int, b: int): int {
    if a < b then a else b
  }

  /** A follower handles a request of its own term. */
  function FollowerAppend(n: Node, req: AppendRequest): (Node, AppendReply)
    requires req.prevLogIndex >= -1
  {
    if PrevMatches(n.log, req) then
      var log := MergeLog(n.log, req.prevLogIndex, req.entries);
      var commit := if req.leaderCommit > n.commitIndex then Min(req.leaderCommit, |log| - 1) else n.commitIndex;
      (n.(log := log, commitIndex := commit), AppendReply(n.currentTerm, true, 0, 0))
    else if req.prevLogIndex >= |n.log| then
      (n, AppendReply(n.currentTerm, false, |n.log|, -1))
    else
      var t := n.log[req.prevLogIndex].term;
      (n, AppendReply(n.currentTerm, false, ConflictStart(n.log, req.prevLogIndex, t), t))
  }

  /** A candidate, or a leader, that hears from a leader of its term follows it. Its vote is cleared,
      although the term stays the same. */
  function HandleAppendEntries(n: Node, req: AppendRequest): (Node, AppendReply)
    requires req.prevLogIndex >= -1
  {
    var n1 := CatchUp(n, req.term);
    if req.term != n1.currentTerm then (n1, AppendReply(n1.currentTerm, false, 0, 0))
    else FollowerAppend(if n1.state != Follower then BecomeFollower(n1, req.term) else n1, req)
  }

  function Submit(n: Node, command: int): Node {
    if n.state == Leader then n.(log := n.log + [Entry(command, n.currentTerm)]) else n
  }

  predicate NextInRange(n: Node, peer: int) {
    0 <= Lookup(n.nextIndex, peer) <= |n.log|
  }

  /** What the leader sends to one peer: its log from `nextIndex` on. */
  function MakeAppendRequest(n: Node, peer: int): AppendRequest
    requires NextInRange(n, peer)
  {
    var ni := Lookup(n.nextIndex, peer);
    AppendRequest(n.currentTerm, n.id, ni - 1, if ni > 0 then n.log[ni - 1].term else -1, n.log[ni..], n.commitIndex)
  }

  /** The peers known to hold the log up to and including index `i`. */
  function Matching(n: Node, i: int): set<int> {
    set p | p in n.peerIds && Lookup(n.matchIndex, p) >= i
  }

  predicate Committable(n: Node, i: int)
    requires 0 <= i < |n.log|
  {
    n.log[i].term == n.currentTerm && (1 + |Matching(n, i)|) * 2 > |n.peerIds| + 1
  }

  /** The commit index after the indices above the old one and below `k` have been examined:
      the highest of them that may be committed, if there is one. */
  function CommitScan(n: Node, k: int): (r: int)
    requires -1 <= n.commitIndex && k <= |n.log|
    ensures r == n.commitIndex || (n.commitIndex < r < k && Committable(n, r))
    ensures forall i :: n.commitIndex < i < k && i > r ==> !Committable(n, i)
    decreases k
  {
    if k <= n.commitIndex + 1 then n.commitIndex
    else if Committable(n, k - 1) then k - 1
    else CommitScan(n, k - 1)
  }

  /** The last index below `k` that holds an entry of term `t`, or -1. */
  function LastIndexOfTerm(log: Log, k: nat, t: int): (r: int)
    requires k <= |log|
    ensures -1 <= r < k
    ensures r >= 0 ==> log[r].term == t
    ensures forall j :: r < j < k ==> log[j].term != t
  {
    if k == 0 then -1
    else if log[k - 1].term == t then k - 1
    else LastIndexOfTerm(log, k - 1, t)
  }

  /** The next index to try after a peer has refused, from the hints in its reply. */
  function BackUp(log: Log, rep: AppendReply): int {
    if rep.conflictTerm >= 0 && LastIndexOfTerm(log, |log|, rep.conflictTerm) >= 0
    then LastIndexOfTerm(log, |log|, rep.conflictTerm) + 1
    else rep.conflictIndex
  }

  /** `req` is the request that `rep` answers. */
  function HandleAppendReply(n: Node, peer: int, req: AppendRequest, rep: AppendReply): Node
    requires n.commitIndex >= -1
  {
    if rep.term > n.currentTerm then BecomeFollower(n, rep.term)
    else if n.state == Leader && req.term == rep.term then
      if rep.success then
        var ni := req.prevLogIndex + 1 + |req.entries|;
        var n1 := n.(nextIndex := n.nextIndex[peer := ni], matchIndex := n.matchIndex[peer := ni - 1]);
        n1.(commitIndex := CommitScan(n1, |n1.log|))
      else
        n.(nextIndex := n.nextIndex[peer := BackUp(n.log, rep)])
    else n
  }

  /** The reporting goroutine takes the entries between `lastApplied` and `commitIndex`. */
  function TakeCommitted(n: Node): Node {
    if n.commitIndex > n.lastApplied then
      n.(sender := Sender(n.currentTerm, n.lastApplied, 0, n.commitIndex - n.lastApplied), lastApplied := n.commitIndex)
    else
      n.(sender := Sender(n.currentTerm, n.lastApplied, 0, 0))
  }

  predicate CanReport(n: Node) {
    && n.sender.next < n.sender.count
    && 0 <= n.sender.savedLastApplied + 1 + n.sender.next < |n.log|
  }

  /** It sends one of them. The entries it took share storage with the log, so the entry is
      read from the log as it is now, after the lock has been released and taken by others. */
  function Report(n: Node): Node
    requires CanReport(n)
  {
    var i := n.sender.savedLastApplied + 1 + n.sender.next;
    n.(sender := n.sender.(next := n.sender.next + 1),
       delivered := n.delivered + [CommitEntry(n.log[i].command, i, n.sender.savedTerm)])
  }

  function Stop(n: Node): Node {
    n.(state := Dead)
  }
}
