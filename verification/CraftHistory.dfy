/** The history of a run of the cluster, and the invariant that links every reachable cluster
    to its history. The history is not part of the system: `Next` records what each step did. */
module CraftHistory {
  import opened CraftNode
  import opened CraftCluster

  /** The leadership of one term: who won it, with which log, by whose votes, and the log of that leader,
      which only grows and is frozen when the leader leaves the term. */
  datatype Reign = Reign(leader: int, electLog: Log, quorum: set<int>, log: Log)

  datatype Ballot = Ballot(term: int, voter: int, candidate: int)

  datatype Seat = Seat(term: int, node: int)

  /** `grants` maps each vote given to the log the voter held when it first gave it;
      `counted` maps a term and a candidate to the nodes whose votes it has counted;
      `acks` maps a term and a node to the length of the leader's log it has acknowledged. */
  datatype History = History(
    reigns: map<int, Reign>,
    grants: map<Ballot, Log>,
    counted: map<Seat, set<int>>,
    acks: map<Seat, int>)

  const EMPTY := History(map[], map[], map[], map[])

  function Max(a: int, b: int): int {
    if a < b then b else a
  }

  function RaiseAck(h: History, s: Seat, n: int): History {
    h.(acks := h.acks[s := if s in h.acks then Max(h.acks[s], n) else n])
  }

  function AddGrant(h: History, b: Ballot, log: Log): History {
    if b in h.grants then h else h.(grants := h.grants[b := log])
  }

  function Counted(h: History, s: Seat): set<int> {
    if s in h.counted then h.counted[s] else {}
  }

  /** Node `i` gets the vote of `peer` in the election it started in `term`. */
  function CountVote(h: History, term: int, i: int, peer: int): History {
    h.(counted := h.counted[Seat(term, i) := Counted(h, Seat(term, i)) + {peer}])
  }

  function BeginReign(h: History, term: int, i: int, log: Log): History {
    RaiseAck(h.(reigns := h.reigns[term := Reign(i, log, Counted(h, Seat(term, i)), log)]), Seat(term, i), |log|)
  }

  function GrowReign(h: History, term: int, log: Log): History
    requires term in h.reigns
  {
    RaiseAck(h.(reigns := h.reigns[term := h.reigns[term].(log := log)]), Seat(term, h.reigns[term].leader), |log|)
  }

  function Next(h: History, c: Cluster, s: Step): History
    requires Enabled(c, s)
  {
    match s
    case Timeout(i) =>
      var t := c.nodes[i].currentTerm + 1;
      CountVote(AddGrant(h, Ballot(t, i, i), c.nodes[i].log), t, i, i)
    case DeliverVote(pk) =>
      var n := c.nodes[pk.peer];
      if n.state != Dead && HandleRequestVote(n, pk.vote).1.voteGranted
      then AddGrant(h, Ballot(pk.vote.term, pk.peer, pk.vote.candidateId), n.log) else h
    case DeliverVoteReply(pk) =>
      var i := pk.vote.candidateId;
      var n := c.nodes[i];
      if n.state == Candidate && pk.voteReply.term == pk.vote.term && pk.voteReply.voteGranted then
        var h1 := CountVote(h, pk.vote.term, i, pk.peer);
        if HandleVoteReply(n, pk.vote, pk.voteReply).state == Leader then BeginReign(h1, n.currentTerm, i, n.log) else h1
      else h
    case DeliverAppend(pk) =>
      var n := c.nodes[pk.peer];
      if n.state != Dead && HandleAppendEntries(n, pk.append).1.success
      then RaiseAck(h, Seat(pk.append.term, pk.peer), pk.append.prevLogIndex + 1 + |pk.append.entries|) else h
    case ClientSubmit(i, command) =>
      var n := c.nodes[i];
      if n.state == Leader && n.currentTerm in h.reigns
      then GrowReign(h, n.currentTerm, CraftNode.Submit(n, command).log) else h
    case _ => h
  }

  // ---------------------------------------------------------------------------------------
  // Logs and the history

  /** The two logs agree on their first `k` entries, and both have that many. */
  predicate Agree(a: Log, b: Log, k: int) {
    0 <= k <= |a| && k <= |b| && forall j :: 0 <= j < k ==> a[j] == b[j]
  }

  /** Each entry, with everything before it, was copied from the log of the leader of its term. */
  ghost predicate Origin(h: History, log: Log) {
    forall k :: 0 <= k < |log| ==> log[k].term in h.reigns && Agree(log, h.reigns[log[k].term].log, k + 1)
  }

  /** Some leader between the terms `t` and `bound` does not have the first `k` entries of the leader of `t`. */
  ghost predicate Superseded(h: History, t: int, k: int, bound: int)
    requires t in h.reigns
  {
    exists u :: u in h.reigns && t < u < bound && !Agree(h.reigns[t].log, h.reigns[u].log, k)
  }

  /** The log has the first `k` entries of the leader of `t`, unless a leader before `bound` lost them. */
  ghost predicate Keeps(h: History, log: Log, t: int, k: int, bound: int)
    requires t in h.reigns
  {
    Agree(log, h.reigns[t].log, k) || Superseded(h, t, k, bound)
  }

  ghost predicate KeepsAll(h: History, log: Log, t: int, n: int, bound: int)
    requires t in h.reigns
  {
    forall k :: 0 <= k <= n ==> Keeps(h, log, t, k, bound)
  }

  predicate Majority(q: set<int>, members: set<int>) {
    q <= members && 2 * |q| > |members|
  }

  /** The nodes that have acknowledged the first `k` entries of the leader of `t`. */
  ghost function Holders(h: History, members: set<int>, t: int, k: int): set<int> {
    set p | p in members && Seat(t, p) in h.acks && h.acks[Seat(t, p)] >= k
  }

  /** Index `i` holds an entry of the leader's own term `t` that a majority has acknowledged. */
  ghost predicate Committed(h: History, members: set<int>, t: int, i: int) {
    && t in h.reigns
    && 0 <= i < |h.reigns[t].log|
    && h.reigns[t].log[i].term == t
    && 2 * |Holders(h, members, t, i + 1)| > |members|
  }

  /** The first `n` entries of `log` were committed by some leader no later than `bound`. */
  ghost predicate CommittedPrefix(h: History, members: set<int>, log: Log, n: int, bound: int) {
    exists t, i :: CommittedBy(h, members, log, n, bound, t, i)
  }

  ghost predicate CommittedBy(h: History, members: set<int>, log: Log, n: int, bound: int, t: int, i: int) {
    t <= bound && Committed(h, members, t, i) && n <= i + 1 && Agree(log, h.reigns[t].log, n)
  }

  // ---------------------------------------------------------------------------------------
  // The invariant

  ghost predicate Config(c: Cluster) {
    forall i :: i in c.nodes ==>
      i >= 0 && c.nodes[i].id == i && PeersOf(c.nodes[i].peerIds, i, c.nodes.Keys)
  }

  ghost predicate Reigns(c: Cluster, h: History) {
    forall t :: t in h.reigns ==> ReignOk(c, h, t)
  }

  ghost predicate ReignOk(c: Cluster, h: History, t: int)
    requires t in h.reigns
  {
    var r := h.reigns[t];
    && t >= 0
    && r.leader in c.nodes
    && c.nodes[r.leader].currentTerm >= t
    && (c.nodes[r.leader].currentTerm == t ==> c.nodes[r.leader].state == Leader || c.nodes[r.leader].state == Dead)
    && ReignLog(r, t)
    && Origin(h, r.log)
    && Elected(h, c.nodes.Keys, t)
  }

  ghost predicate ReignLog(r: Reign, t: int) {
    && Agree(r.electLog, r.log, |r.electLog|)
    && (forall k :: 0 <= k < |r.electLog| ==> r.log[k].term < t)
    && (forall k :: |r.electLog| <= k < |r.log| ==> r.log[k].term == t)
  }

  ghost predicate Elected(h: History, members: set<int>, t: int)
    requires t in h.reigns
  {
    var r := h.reigns[t];
    && Majority(r.quorum, members)
    && (forall p :: p in r.quorum ==>
      && Ballot(t, p, r.leader) in h.grants
      && UpToDate(LastLogIndex(r.electLog), LastLogTerm(r.electLog), h.grants[Ballot(t, p, r.leader)]))
  }

  ghost predicate Logs(c: Cluster, h: History) {
    && (forall i :: i in c.nodes ==>
      && c.nodes[i].currentTerm >= 0
      && Origin(h, c.nodes[i].log)
      && forall k :: 0 <= k < |c.nodes[i].log| ==> c.nodes[i].log[k].term <= c.nodes[i].currentTerm)
    && (forall b :: b in h.grants ==> Origin(h, h.grants[b]))
  }

  ghost predicate Leaders(c: Cluster, h: History) {
    forall i :: i in c.nodes && c.nodes[i].state == Leader ==> LeaderOk(c.nodes[i], h)
  }

  ghost predicate LeaderOk(n: Node, h: History) {
    var t := n.currentTerm;
    && t in h.reigns
    && h.reigns[t].leader == n.id
    && h.reigns[t].log == n.log
    && forall p :: p in n.peerIds ==> PeerOk(n, h, p)
  }

  ghost predicate PeerOk(n: Node, h: History, p: int) {
    && p in n.nextIndex && 0 <= n.nextIndex[p] <= |n.log|
    && p in n.matchIndex && -1 <= n.matchIndex[p] < |n.log|
    && (n.matchIndex[p] >= 0 ==> Seat(n.currentTerm, p) in h.acks && n.matchIndex[p] + 1 <= h.acks[Seat(n.currentTerm, p)])
  }

  ghost predicate Candidates(c: Cluster, h: History) {
    forall i :: i in c.nodes && (c.nodes[i].state == Candidate || c.nodes[i].state == Leader) ==>
      c.nodes[i].votedFor == i && Ballot(c.nodes[i].currentTerm, i, i) in h.grants
  }

  /** A vote for another node binds the voter for the rest of the term. A vote for oneself may be dropped,
      but then the voter does not lead the term and is no candidate in it any more. */
  ghost predicate BallotOk(c: Cluster, h: History, b: Ballot) {
    && b.voter in c.nodes && b.candidate in c.nodes
    && c.nodes[b.voter].currentTerm >= b.term
    && c.nodes[b.candidate].currentTerm >= b.term
    && var n := c.nodes[b.voter];
       n.currentTerm == b.term ==>
         if b.voter != b.candidate then n.votedFor == b.candidate && (n.state == Follower || n.state == Dead)
         else (n.votedFor == b.voter && n.state != Follower) || ((n.state == Follower || n.state == Dead) && !Leads(h, b))
  }

  /** The voter leads the term of the vote. */
  ghost predicate Leads(h: History, b: Ballot) {
    b.term in h.reigns && h.reigns[b.term].leader == b.voter
  }

  ghost predicate Ballots(c: Cluster, h: History) {
    forall b :: b in h.grants ==> BallotOk(c, h, b)
  }

  /** Two votes of one node for others in one term. */
  predicate Rivals(b1: Ballot, b2: Ballot) {
    b1.term == b2.term && b1.voter == b2.voter && b1.voter != b1.candidate && b2.voter != b2.candidate
  }

  /** A node votes for at most one other node in a term, and then it never leads that term. */
  ghost predicate Exclusive(h: History) {
    && (forall b1, b2 | b1 in h.grants && b2 in h.grants :: Rivals(b1, b2) ==> b1.candidate == b2.candidate)
    && (forall b | b in h.grants :: b.voter != b.candidate ==> !Leads(h, b))
  }

  predicate IsVote(pk: Packet) {
    pk.VoteCall? || pk.VoteReq? || pk.VoteRep?
  }

  function CallerOf(pk: Packet): int
    requires IsVote(pk)
  {
    if pk.VoteCall? then pk.caller else pk.vote.candidateId
  }

  function TermOf(pk: Packet): int
    requires IsVote(pk)
  {
    if pk.VoteCall? then pk.term else pk.vote.term
  }

  predicate SameCall(a: Packet, b: Packet) {
    IsVote(a) && IsVote(b) && a.peer == b.peer && CallerOf(a) == CallerOf(b) && TermOf(a) == TermOf(b)
  }

  ghost predicate VotePacketOk(c: Cluster, h: History, pk: Packet)
    requires IsVote(pk)
  {
    && CallerOf(pk) in c.nodes && pk.peer in c.nodes && pk.peer != CallerOf(pk)
    && TermOf(pk) in c.nodes[CallerOf(pk)].votesReceived
    && pk.peer !in Counted(h, Seat(TermOf(pk), CallerOf(pk)))
    && var n := c.nodes[CallerOf(pk)];
       && (pk.VoteReq? && n.state == Candidate && n.currentTerm == pk.vote.term ==>
             pk.vote.lastLogIndex == LastLogIndex(n.log) && pk.vote.lastLogTerm == LastLogTerm(n.log))
       && (pk.VoteRep? && pk.voteReply.voteGranted ==>
             Ballot(pk.vote.term, pk.peer, pk.vote.candidateId) in h.grants)
  }

  ghost predicate VotePackets(c: Cluster, h: History) {
    && (forall pk :: pk in c.net && IsVote(pk) ==> VotePacketOk(c, h, pk))
    && (forall a, b :: a in c.net && b in c.net && SameCall(a, b) ==> a == b)
  }

  /** The counter of an election is the number of nodes whose votes were counted in it. */
  ghost predicate TallyOk(n: Node, h: History, t: int)
    requires t in n.votesReceived
  {
    && t <= n.currentTerm
    && Seat(t, n.id) in h.counted
    && |h.counted[Seat(t, n.id)]| == n.votesReceived[t]
  }

  ghost predicate Tallies(c: Cluster, h: History) {
    forall i, t :: i in c.nodes && t in c.nodes[i].votesReceived ==> TallyOk(c.nodes[i], h, t)
  }

  ghost predicate SeatOk(c: Cluster, h: History, s: Seat)
    requires s in h.counted
  {
    && s.node in h.counted[s] && s.node in c.nodes && s.term <= c.nodes[s.node].currentTerm
    && forall p :: p in h.counted[s] ==> p in c.nodes && Ballot(s.term, p, s.node) in h.grants
  }

  ghost predicate Counts(c: Cluster, h: History) {
    && (forall s :: s in h.counted ==> SeatOk(c, h, s))
    && (forall i :: i in c.nodes && c.nodes[i].state == Candidate ==> c.nodes[i].currentTerm in c.nodes[i].votesReceived)
  }

  /** A node that is still a candidate is at least as up to date as everyone who voted for it. */
  ghost predicate Qualified(c: Cluster, h: History) {
    forall b :: b in h.grants && b.candidate in c.nodes ==>
      var n := c.nodes[b.candidate];
      n.state == Candidate && n.currentTerm == b.term ==>
        UpToDate(LastLogIndex(n.log), LastLogTerm(n.log), h.grants[b])
  }

  ghost predicate AckOk(c: Cluster, h: History, s: Seat)
    requires s in h.acks
  {
    && s.term in h.reigns && s.node in c.nodes
    && 0 <= h.acks[s] <= |h.reigns[s.term].log|
    && c.nodes[s.node].currentTerm >= s.term
    && KeepsAll(h, c.nodes[s.node].log, s.term, h.acks[s], c.nodes[s.node].currentTerm + 1)
  }

  ghost predicate Acks(c: Cluster, h: History) {
    && (forall s :: s in h.acks ==> AckOk(c, h, s))
    && (forall t :: t in h.reigns ==>
          Seat(t, h.reigns[t].leader) in h.acks && h.acks[Seat(t, h.reigns[t].leader)] == |h.reigns[t].log|)
  }

  /** A vote that elected a leader, or may still elect one. */
  predicate Effective(h: History, b: Ballot) {
    b.term in h.reigns ==> b.candidate == h.reigns[b.term].leader && b.voter in h.reigns[b.term].quorum
  }

  /** What a voter had acknowledged in earlier terms, it still had when it voted. */
  ghost predicate VoterLogs(h: History) {
    forall b, s :: b in h.grants && Effective(h, b) && s in h.acks && s.node == b.voter && s.term < b.term ==>
      s.term in h.reigns && KeepsAll(h, h.grants[b], s.term, h.acks[s], b.term)
  }

  ghost predicate RequestOk(c: Cluster, h: History, peer: int, req: AppendRequest) {
    && req.term in h.reigns
    && peer in c.nodes && req.leaderId == h.reigns[req.term].leader && peer != req.leaderId
    && var l := h.reigns[req.term].log;
       && -1 <= req.prevLogIndex
       && req.prevLogIndex + 1 + |req.entries| <= |l|
       && (forall j :: 0 <= j < |req.entries| ==> req.entries[j] == l[req.prevLogIndex + 1 + j])
       && (req.prevLogIndex >= 0 ==> req.prevLogTerm == l[req.prevLogIndex].term)
       && -1 <= req.leaderCommit < req.prevLogIndex + 1 + |req.entries|
       && (req.leaderCommit >= 0 ==> CommittedPrefix(h, c.nodes.Keys, l, req.leaderCommit + 1, req.term))
  }

  ghost predicate ReplyOk(h: History, peer: int, req: AppendRequest, rep: AppendReply) {
    && (rep.success ==>
      && rep.term == req.term
      && Seat(req.term, peer) in h.acks
      && req.prevLogIndex + 1 + |req.entries| <= h.acks[Seat(req.term, peer)])
    && (!rep.success && rep.term == req.term ==> 0 <= rep.conflictIndex <= req.prevLogIndex)
  }

  ghost predicate AppendPackets(c: Cluster, h: History) {
    && (forall pk :: pk in c.net && (pk.AppendReq? || pk.AppendRep?) ==> RequestOk(c, h, pk.peer, pk.append))
    && (forall pk :: pk in c.net && pk.AppendRep? ==> ReplyOk(h, pk.peer, pk.append, pk.appendReply))
  }

  /** What the node takes for committed is so. */
  ghost predicate CommitOk(h: History, members: set<int>, n: Node) {
    && -1 <= n.commitIndex < |n.log|
    && (n.commitIndex >= 0 ==> CommittedPrefix(h, members, n.log, n.commitIndex + 1, n.currentTerm))
  }

  ghost predicate Commits(c: Cluster, h: History) {
    forall i :: i in c.nodes ==> CommitOk(h, c.nodes.Keys, c.nodes[i])
  }

  predicate DeliveryOk(n: Node) {
    && -1 <= n.sender.savedLastApplied
    && 0 <= n.sender.next <= n.sender.count
    && n.sender.savedLastApplied + n.sender.count == n.lastApplied <= n.commitIndex < |n.log|
    && |n.delivered| == n.sender.savedLastApplied + 1 + n.sender.next
    && forall k :: 0 <= k < |n.delivered| ==> n.delivered[k].index == k && n.delivered[k].command == n.log[k].command
  }

  ghost predicate Deliveries(c: Cluster) {
    forall i :: i in c.nodes ==> DeliveryOk(c.nodes[i])
  }

  ghost predicate VoteInv(c: Cluster, h: History) {
    && Candidates(c, h) && Ballots(c, h) && Exclusive(h)
    && VotePackets(c, h) && Tallies(c, h) && Counts(c, h) && Qualified(c, h)
  }

  ghost predicate LogInv(c: Cluster, h: History) {
    Reigns(c, h) && Logs(c, h) && Leaders(c, h)
  }

  ghost predicate AckInv(c: Cluster, h: History) {
    && Acks(c, h) && VoterLogs(h)
    && AppendPackets(c, h) && Commits(c, h) && Deliveries(c)
  }

  ghost predicate Inv(c: Cluster, h: History) {
    Config(c) && VoteInv(c, h) && LogInv(c, h) && AckInv(c, h)
  }

  /** Later histories add to earlier ones; a leader's log grows by entries of its own term. */
  ghost predicate Extends(h: History, h': History) {
    && (forall t :: t in h.reigns ==>
      && t in h'.reigns
      && h'.reigns[t] == h.reigns[t].(log := h'.reigns[t].log)
      && Agree(h.reigns[t].log, h'.reigns[t].log, |h.reigns[t].log|)
      && forall k :: |h.reigns[t].log| <= k < |h'.reigns[t].log| ==> h'.reigns[t].log[k].term == t)
    && (forall b :: b in h.grants ==> b in h'.grants && h'.grants[b] == h.grants[b])
    && (forall s :: s in h.acks ==> s in h'.acks && h.acks[s] <= h'.acks[s])
  }
}
