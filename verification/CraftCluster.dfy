/** A cluster of craft modules and the calls in flight between them, as a transition system.
    A step is one critical section of one module, or one read of shared log storage. */
module CraftCluster {
  import opened CraftNode

  /** A goroutine of a call, in one of its stages. A vote call goes through its stages once. An
      append call stays in the network, so that it may be lost, delayed, reordered or repeated. The reply
      packets carry the request, which is what the closure of the caller remembers. */
  datatype Packet =
    | VoteCall(caller: int, peer: int, term: int)
    | VoteReq(peer: int, vote: VoteRequest)
    | VoteRep(peer: int, vote: VoteRequest, voteReply: VoteReply)
    | AppendReq(peer: int, append: AppendRequest)
    | AppendRep(peer: int, append: AppendRequest, appendReply: AppendReply)

  datatype Cluster = Cluster(nodes: map<int, Node>, net: set<Packet>)

  datatype Step =
    | Timeout(i: int)
    | SendVote(pk: Packet)
    | DeliverVote(pk: Packet)
    | DeliverVoteReply(pk: Packet)
    | SendAppend(i: int, peer: int)
    | DeliverAppend(pk: Packet)
    | DeliverAppendReply(pk: Packet)
    | ClientSubmit(i: int, command: int)
    | Take(i: int)
    | Emit(i: int)
    | Halt(i: int)

  ghost predicate Init(c: Cluster) {
    && c.net == {}
    && forall i :: i in c.nodes ==>
      && i >= 0
      && c.nodes[i] == NewNode(i, c.nodes[i].peerIds)
      && PeersOf(c.nodes[i].peerIds, i, c.nodes.Keys)
  }

  /** The peers of `i` are the other members, each listed once. */
  ghost predicate PeersOf(peerIds: seq<int>, i: int, members: set<int>) {
    && (forall p :: p in peerIds <==> p in members && p != i)
    && |peerIds| + 1 == |members|
  }

  predicate Enabled(c: Cluster, s: Step) {
    match s
    case Timeout(i) => i in c.nodes && (c.nodes[i].state == Follower || c.nodes[i].state == Candidate)
    case SendVote(pk) => pk in c.net && pk.VoteCall? && pk.caller in c.nodes
    case DeliverVote(pk) => pk in c.net && pk.VoteReq? && pk.peer in c.nodes
    case DeliverVoteReply(pk) => pk in c.net && pk.VoteRep? && pk.vote.candidateId in c.nodes
    case SendAppend(i, peer) =>
      i in c.nodes && c.nodes[i].state == Leader && peer in c.nodes[i].peerIds && NextInRange(c.nodes[i], peer)
    case DeliverAppend(pk) => pk in c.net && pk.AppendReq? && pk.peer in c.nodes && pk.append.prevLogIndex >= -1
    case DeliverAppendReply(pk) =>
      pk in c.net && pk.AppendRep? && pk.append.leaderId in c.nodes && c.nodes[pk.append.leaderId].commitIndex >= -1
    case ClientSubmit(i, _) => i in c.nodes
    case Take(i) => i in c.nodes && c.nodes[i].sender.next >= c.nodes[i].sender.count
    case Emit(i) => i in c.nodes && CanReport(c.nodes[i])
    case Halt(i) => i in c.nodes
  }

  function VoteCalls(n: Node): set<Packet> {
    set p | p in n.peerIds :: VoteCall(n.id, p, n.currentTerm)
  }

  function Apply(c: Cluster, s: Step): Cluster
    requires Enabled(c, s)
  {
    match s
    case Timeout(i) =>
      var n := StartElection(c.nodes[i]);
      Cluster(c.nodes[i := n], c.net + VoteCalls(n))
    case SendVote(pk) =>
      Cluster(c.nodes, c.net - {pk} + {VoteReq(pk.peer, MakeVoteRequest(c.nodes[pk.caller], pk.term))})
    case DeliverVote(pk) =>
      if c.nodes[pk.peer].state == Dead then Cluster(c.nodes, c.net - {pk})
      else
        var (n, rep) := HandleRequestVote(c.nodes[pk.peer], pk.vote);
        Cluster(c.nodes[pk.peer := n], c.net - {pk} + {VoteRep(pk.peer, pk.vote, rep)})
    case DeliverVoteReply(pk) =>
      var i := pk.vote.candidateId;
      Cluster(c.nodes[i := HandleVoteReply(c.nodes[i], pk.vote, pk.voteReply)], c.net - {pk})
    case SendAppend(i, peer) =>
      Cluster(c.nodes, c.net + {AppendReq(peer, MakeAppendRequest(c.nodes[i], peer))})
    case DeliverAppend(pk) =>
      if c.nodes[pk.peer].state == Dead then c
      else
        var (n, rep) := HandleAppendEntries(c.nodes[pk.peer], pk.append);
        Cluster(c.nodes[pk.peer := n], c.net + {AppendRep(pk.peer, pk.append, rep)})
    case DeliverAppendReply(pk) =>
      var i := pk.append.leaderId;
      c.(nodes := c.nodes[i := HandleAppendReply(c.nodes[i], pk.peer, pk.append, pk.appendReply)])
    case ClientSubmit(i, command) => c.(nodes := c.nodes[i := CraftNode.Submit(c.nodes[i], command)])
    case Take(i) => c.(nodes := c.nodes[i := TakeCommitted(c.nodes[i])])
    case Emit(i) => c.(nodes := c.nodes[i := Report(c.nodes[i])])
    case Halt(i) => c.(nodes := c.nodes[i := Stop(c.nodes[i])])
  }

  /** The vote would make the candidate leader, by the count of the election that it belongs to. */
  predicate Elects(n: Node, vote: VoteRequest, rep: VoteReply) {
    && rep.term == vote.term && rep.voteGranted
    && (Lookup(n.votesReceived, vote.term) + 1) * 2 > |n.peerIds| + 1
  }

  /** How much of the leader's log a request reaches over. */
  function Reach(req: AppendRequest): int {
    req.prevLogIndex + 1 + |req.entries|
  }

  /** The peer has accepted the first `k` entries of the leader of term `t`, and said so. */
  ghost predicate Vouched(c: Cluster, peer: int, t: int, k: int) {
    k <= 0 || exists pk :: pk in c.net && Vouches(pk, peer, t, k)
  }

  predicate Vouches(pk: Packet, peer: int, t: int, k: int) {
    pk.AppendRep? && pk.peer == peer && pk.append.term == t && pk.appendReply.success && k <= Reach(pk.append)
  }

  /** What the program needs of its environment. The handlers act on a reply that answers a call of an earlier term
      as if it belonged to the current one. There are four ways in which this does harm, and they must not happen: it takes
      a candidate back to a term between the two, it makes a candidate leader by votes of the other term, it credits
      a peer with entries that the peer has not accepted in the current term, or it puts the next index of a peer
      outside the log. */
  ghost predicate Timely(c: Cluster, s: Step)
    requires Enabled(c, s)
  {
    match s
    case DeliverVoteReply(pk) =>
      var n := c.nodes[pk.vote.candidateId];
      n.state == Candidate && n.currentTerm != pk.vote.term ==>
        !(pk.vote.term < pk.voteReply.term < n.currentTerm) && !Elects(n, pk.vote, pk.voteReply)
    case DeliverAppendReply(pk) =>
      var n, rep := c.nodes[pk.append.leaderId], pk.appendReply;
      n.state == Leader && rep.term == pk.append.term < n.currentTerm ==>
        if rep.success then Vouched(c, pk.peer, n.currentTerm, Reach(pk.append)) else BackUp(n.log, rep) <= |n.log|
    case _ => true
  }

  /** Step `k` leads from one cluster of the run to the next. */
  ghost predicate StepOk(cs: seq<Cluster>, steps: seq<Step>, k: nat)
    requires k < |steps| && |cs| == |steps| + 1
  {
    Enabled(cs[k], steps[k]) && cs[k + 1] == Apply(cs[k], steps[k])
  }

  ghost predicate TimelyAt(cs: seq<Cluster>, steps: seq<Step>, k: nat)
    requires k < |steps| && |cs| == |steps| + 1
  {
    Enabled(cs[k], steps[k]) && Timely(cs[k], steps[k])
  }

  ghost predicate IsRun(cs: seq<Cluster>, steps: seq<Step>) {
    && |cs| == |steps| + 1
    && Init(cs[0])
    && forall k :: 0 <= k < |steps| ==> StepOk(cs, steps, k)
  }

  ghost predicate IsTimelyRun(cs: seq<Cluster>, steps: seq<Step>) {
    && IsRun(cs, steps)
    && forall k :: 0 <= k < |steps| ==> TimelyAt(cs, steps, k)
  }
}
