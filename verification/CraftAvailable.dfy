/** A cluster with enough live nodes can always elect a leader and commit. */
module CraftAvailable {
  import opened CraftNode
  import opened CraftCluster
  import opened CraftProgress
  import opened CraftSafety
  import CraftHistory
  import CraftMonotone

  /** The node can stand for election and the peer can vote for it in term `t`. */
  ghost predicate CanVote(c: Cluster, i: int, p: int, t: int) {
    && i in c.nodes && p in c.nodes && i != p && c.nodes[i].id == i && p in c.nodes[i].peerIds
    && c.nodes[p].state != Dead && c.nodes[p].currentTerm < t
    && UpToDate(LastLogIndex(c.nodes[i].log), LastLogTerm(c.nodes[i].log), c.nodes[p].log)
  }

  ghost predicate Standing(c: Cluster, i: int, t: int, votes: int) {
    && i in c.nodes && c.nodes[i].state == Candidate && c.nodes[i].currentTerm == t
    && Lookup(c.nodes[i].votesReceived, t) == votes
  }

  /** Only node `i` has changed, and only by standing for election. */
  ghost predicate OnlyStands(c: Cluster, c': Cluster, i: int) {
    && i in c.nodes && c'.nodes.Keys == c.nodes.Keys
    && (forall j :: j in c.nodes && j != i ==> c'.nodes[j] == c.nodes[j])
    && SameLog(c.nodes[i], c'.nodes[i])
  }

  predicate SameLog(n: Node, n': Node) {
    n'.log == n.log && n'.commitIndex == n.commitIndex && n'.id == n.id && n'.peerIds == n.peerIds
  }

  lemma TimeoutOnce(c: Cluster, i: int)
    requires i in c.nodes && (c.nodes[i].state == Follower || c.nodes[i].state == Candidate)
    ensures Enabled(c, Timeout(i)) && Timely(c, Timeout(i))
    ensures var c', t := Apply(c, Timeout(i)), c.nodes[i].currentTerm + 1;
            && OnlyStands(c, c', i) && Standing(c', i, t, 1)
            && forall p :: p in c.nodes[i].peerIds && c.nodes[i].id == i ==> VoteCall(i, p, t) in c'.net
  {
  }

  /** A node that is alive and does not lead can stand in any later term. */
  lemma {:induction false} StandsIn(cs: seq<Cluster>, steps: seq<Step>, i: int, t: int)
    returns (cs': seq<Cluster>, steps': seq<Step>)
    requires IsTimelyRun(cs, steps) && i in Last(cs).nodes && Last(cs).nodes[i].id == i
    requires Last(cs).nodes[i].state == Follower || Last(cs).nodes[i].state == Candidate
    requires Last(cs).nodes[i].currentTerm < t
    ensures Continues(cs, steps, cs', steps') && OnlyStands(Last(cs), Last(cs'), i) && Standing(Last(cs'), i, t, 1)
    ensures forall p :: p in Last(cs).nodes[i].peerIds ==> VoteCall(i, p, t) in Last(cs').net
    decreases t - Last(cs).nodes[i].currentTerm
  {
    TimeoutOnce(Last(cs), i);
    var cs1, steps1 := OneStep(cs, steps, Timeout(i));
    if Last(cs).nodes[i].currentTerm + 1 == t {
      cs', steps' := cs1, steps1;
    } else {
      cs', steps' := StandsIn(cs1, steps1, i, t);
      ContinuesFurther(cs, steps, cs1, steps1, cs', steps');
    }
  }

  // ---------------------------------------------------------------------------------------
  // One vote

  function Ask(c: Cluster, i: int, p: int, t: int): Packet
    requires i in c.nodes
  {
    VoteReq(p, MakeVoteRequest(c.nodes[i], t))
  }

  lemma AskStep(c: Cluster, i: int, p: int, t: int)
    requires CanVote(c, i, p, t) && VoteCall(i, p, t) in c.net
    ensures var s := SendVote(VoteCall(i, p, t));
            && Enabled(c, s) && Timely(c, s)
            && Apply(c, s) == Cluster(c.nodes, c.net - {VoteCall(i, p, t)} + {Ask(c, i, p, t)})
  {
  }

  lemma VoteStep(c: Cluster, i: int, p: int, t: int)
    requires CanVote(c, i, p, t) && Ask(c, i, p, t) in c.net
    ensures var s := DeliverVote(Ask(c, i, p, t));
            && Enabled(c, s) && Timely(c, s)
            && var rep := VoteRep(p, MakeVoteRequest(c.nodes[i], t), VoteReply(t, true));
               Apply(c, s) == Cluster(c.nodes[p := BecomeFollower(c.nodes[p], t).(votedFor := i)],
                                      c.net - {Ask(c, i, p, t)} + {rep})
  {
  }

  /** A leader that has not sent anything yet. */
  ghost predicate NewLeader(n: Node) {
    n.state == Leader && forall p :: p in n.peerIds ==> Lookup(n.nextIndex, p) == |n.log|
  }

  lemma CountStep(c: Cluster, i: int, p: int, t: int, votes: nat)
    requires Standing(c, i, t, votes) && c.nodes[i].id == i
    requires VoteRep(p, MakeVoteRequest(c.nodes[i], t), VoteReply(t, true)) in c.net
    ensures var s := DeliverVoteReply(VoteRep(p, MakeVoteRequest(c.nodes[i], t), VoteReply(t, true)));
            && Enabled(c, s) && Timely(c, s)
            && var c' := Apply(c, s);
               && OnlyStands(c, c', i)
               && c'.net == c.net - {s.pk}
               && c'.nodes[i].currentTerm == t
               && (if (votes + 1) * 2 > |c.nodes[i].peerIds| + 1 then NewLeader(c'.nodes[i]) else Standing(c', i, t, votes + 1))
  {
  }

  /** Only node `i` and the voter have changed. */
  ghost predicate OnlyVoted(c: Cluster, c': Cluster, i: int, p: int, t: int) {
    && i in c.nodes && p in c.nodes && c'.nodes.Keys == c.nodes.Keys
    && (forall j :: j in c.nodes && j != i && j != p ==> c'.nodes[j] == c.nodes[j])
    && SameLog(c.nodes[i], c'.nodes[i]) && c'.nodes[i].currentTerm == t
    && SameLog(c.nodes[p], c'.nodes[p]) && c'.nodes[p].state == Follower && c'.nodes[p].currentTerm == t
    && (forall q :: q != p && VoteCall(i, q, t) in c.net ==> VoteCall(i, q, t) in c'.net)
  }

  lemma GetsVote(cs: seq<Cluster>, steps: seq<Step>, i: int, p: int, t: int, votes: nat)
    returns (cs': seq<Cluster>, steps': seq<Step>)
    requires IsTimelyRun(cs, steps) && Standing(Last(cs), i, t, votes) && CanVote(Last(cs), i, p, t)
    requires VoteCall(i, p, t) in Last(cs).net
    ensures Continues(cs, steps, cs', steps') && OnlyVoted(Last(cs), Last(cs'), i, p, t)
    ensures if (votes + 1) * 2 > |Last(cs).nodes[i].peerIds| + 1
            then NewLeader(Last(cs').nodes[i]) else Standing(Last(cs'), i, t, votes + 1)
  {
    var c := Last(cs);
    AskStep(c, i, p, t);
    var cs1, steps1 := OneStep(cs, steps, SendVote(VoteCall(i, p, t)));
    VoteStep(Last(cs1), i, p, t);
    var cs2, steps2 := OneStep(cs1, steps1, DeliverVote(Ask(c, i, p, t)));
    CountStep(Last(cs2), i, p, t, votes);
    var rep := VoteRep(p, MakeVoteRequest(c.nodes[i], t), VoteReply(t, true));
    cs', steps' := OneStep(cs2, steps2, DeliverVoteReply(rep));
    VotedFrame(c, Last(cs2), Last(cs'), i, p, t, rep);
  }

  lemma VotedFrame(c: Cluster, c2: Cluster, c3: Cluster, i: int, p: int, t: int, rep: Packet)
    requires CanVote(c, i, p, t) && OnlyStands(c2, c3, i) && c3.nodes[i].currentTerm == t && rep.VoteRep?
    requires c2.nodes == c.nodes[p := BecomeFollower(c.nodes[p], t).(votedFor := i)]
    requires c2.net == c.net - {VoteCall(i, p, t)} + {Ask(c, i, p, t)} - {Ask(c, i, p, t)} + {rep}
    requires c3.net == c2.net - {rep}
    ensures OnlyVoted(c, c3, i, p, t)
  {
  }

  // ---------------------------------------------------------------------------------------
  // An election

  /** From the `k`th of them on, every peer can be asked for its vote; all of them are alive and not ahead of `t`. */
  ghost predicate Voters(c: Cluster, i: int, ps: seq<int>, t: int, k: nat) {
    && i in c.nodes && c.nodes[i].id == i
    && (forall j :: k <= j < |ps| ==> CanVote(c, i, ps[j], t) && VoteCall(i, ps[j], t) in c.net)
    && (forall j :: 0 <= j < |ps| ==> Alive(c, i, ps[j], t))
  }

  ghost predicate Alive(c: Cluster, i: int, p: int, t: int)
    requires i in c.nodes
  {
    p in c.nodes && p != i && p in c.nodes[i].peerIds && c.nodes[p].state != Dead && c.nodes[p].currentTerm <= t
  }

  lemma NextVoter(c: Cluster, c': Cluster, i: int, ps: seq<int>, t: int, k: nat)
    requires k < |ps| && Distinct(ps) && Voters(c, i, ps, t, k) && OnlyVoted(c, c', i, ps[k], t)
    ensures Voters(c', i, ps, t, k + 1)
  {
    forall j | k + 1 <= j < |ps|
      ensures CanVote(c', i, ps[j], t) && VoteCall(i, ps[j], t) in c'.net
    {
      assert CanVote(c, i, ps[j], t) && ps[j] != ps[k];
    }
    forall j | 0 <= j < |ps|
      ensures Alive(c', i, ps[j], t)
    {
      assert Alive(c, i, ps[j], t);
    }
  }

  /** Node `i` leads term `t` now. The others have their logs, and nobody but the voters has changed. */
  ghost predicate WonBy(c: Cluster, c': Cluster, i: int, ps: seq<int>, t: int) {
    && i in c.nodes && Voted(c, c', i, ps)
    && NewLeader(c'.nodes[i]) && c'.nodes[i].currentTerm == t && c'.nodes[i].id == i
    && forall j :: 0 <= j < |ps| ==> Alive(c', i, ps[j], t)
  }

  ghost predicate Voted(c: Cluster, c': Cluster, i: int, ps: seq<int>) {
    && c'.nodes.Keys == c.nodes.Keys
    && (forall j :: j in c.nodes && j != i && j !in ps ==> c'.nodes[j] == c.nodes[j])
    && (forall j :: j in c.nodes ==> SameLog(c.nodes[j], c'.nodes[j]))
    && (forall j :: j in c.nodes && j != i ==> c'.nodes[j].state == Follower || c'.nodes[j] == c.nodes[j])
  }

  lemma VotedFurther(c: Cluster, c1: Cluster, c2: Cluster, i: int, ps: seq<int>)
    requires Voted(c, c1, i, ps) && Voted(c1, c2, i, ps)
    ensures Voted(c, c2, i, ps)
  {
    forall j | j in c.nodes
      ensures SameLog(c.nodes[j], c2.nodes[j])
    {
      assert SameLog(c.nodes[j], c1.nodes[j]) && SameLog(c1.nodes[j], c2.nodes[j]);
    }
  }

  lemma OneVoted(c: Cluster, c': Cluster, i: int, ps: seq<int>, k: nat, t: int)
    requires k < |ps| && OnlyVoted(c, c', i, ps[k], t)
    ensures Voted(c, c', i, ps)
  {
  }

  lemma {:induction false} Wins(cs: seq<Cluster>, steps: seq<Step>, i: int, ps: seq<int>, t: int, k: nat)
    returns (cs': seq<Cluster>, steps': seq<Step>)
    requires IsTimelyRun(cs, steps) && Distinct(ps) && k < |ps| && Voters(Last(cs), i, ps, t, k)
    requires Standing(Last(cs), i, t, 1 + k) && (1 + |ps|) * 2 > |Last(cs).nodes[i].peerIds| + 1
    ensures Continues(cs, steps, cs', steps') && WonBy(Last(cs), Last(cs'), i, ps, t)
    decreases |ps| - k
  {
    assert CanVote(Last(cs), i, ps[k], t);
    var cs1, steps1 := GetsVote(cs, steps, i, ps[k], t, 1 + k);
    NextVoter(Last(cs), Last(cs1), i, ps, t, k);
    OneVoted(Last(cs), Last(cs1), i, ps, k, t);
    if Last(cs1).nodes[i].state == Leader {
      cs', steps' := cs1, steps1;
    } else {
      cs', steps' := Wins(cs1, steps1, i, ps, t, k + 1);
      VotedFurther(Last(cs), Last(cs1), Last(cs'), i, ps);
      ContinuesFurther(cs, steps, cs1, steps1, cs', steps');
    }
  }

  lemma StandsVoted(c: Cluster, c': Cluster, i: int, ps: seq<int>)
    requires OnlyStands(c, c', i)
    ensures Voted(c, c', i, ps)
  {
  }

  lemma StandsVoters(c: Cluster, c': Cluster, i: int, ps: seq<int>, t: int)
    requires OnlyStands(c, c', i) && c.nodes[i].id == i && (forall k :: 0 <= k < |ps| ==> CanVote(c, i, ps[k], t))
    requires forall p :: p in c.nodes[i].peerIds ==> VoteCall(i, p, t) in c'.net
    ensures Voters(c', i, ps, t, 0)
  {
    forall k | 0 <= k < |ps|
      ensures CanVote(c', i, ps[k], t) && VoteCall(i, ps[k], t) in c'.net && Alive(c', i, ps[k], t)
    {
      assert CanVote(c, i, ps[k], t);
    }
  }

  /** From every state of a run, a node that is alive can become leader, if its log is at least as up to date as those of
      enough live peers to make a majority. */
  lemma CanBeElected(cs: seq<Cluster>, steps: seq<Step>, i: int, ps: seq<int>, t: int)
    returns (cs': seq<Cluster>, steps': seq<Step>)
    requires IsTimelyRun(cs, steps) && i in Last(cs).nodes && Distinct(ps) && ps != []
    requires Last(cs).nodes[i].state == Follower || Last(cs).nodes[i].state == Candidate
    requires Last(cs).nodes[i].currentTerm < t && (forall k :: 0 <= k < |ps| ==> CanVote(Last(cs), i, ps[k], t))
    requires (1 + |ps|) * 2 > |Last(cs).nodes[i].peerIds| + 1
    ensures Continues(cs, steps, cs', steps') && WonBy(Last(cs), Last(cs'), i, ps, t)
    ensures AllReady(Last(cs'), i, ps)
  {
    assert CanVote(Last(cs), i, ps[0], t);
    var cs1, steps1 := StandsIn(cs, steps, i, t);
    StandsVoters(Last(cs), Last(cs1), i, ps, t);
    StandsVoted(Last(cs), Last(cs1), i, ps);
    cs', steps' := Wins(cs1, steps1, i, ps, t, 0);
    VotedFurther(Last(cs), Last(cs1), Last(cs'), i, ps);
    ContinuesFurther(cs, steps, cs1, steps1, cs', steps');
    forall k | 0 <= k < |ps|
      ensures Ready(Last(cs'), i, ps[k])
    {
      assert Alive(Last(cs'), i, ps[k], t);
    }
  }

  /** And then commit any command at the end of its log. */
  lemma CanElectAndCommit(cs: seq<Cluster>, steps: seq<Step>, i: int, ps: seq<int>, t: int, command: int)
    returns (cs': seq<Cluster>, steps': seq<Step>)
    requires IsTimelyRun(cs, steps) && i in Last(cs).nodes && Distinct(ps) && ps != []
    requires Last(cs).nodes[i].state == Follower || Last(cs).nodes[i].state == Candidate
    requires Last(cs).nodes[i].currentTerm < t && (forall k :: 0 <= k < |ps| ==> CanVote(Last(cs), i, ps[k], t))
    requires (1 + |ps|) * 2 > |Last(cs).nodes[i].peerIds| + 1
    ensures Continues(cs, steps, cs', steps') && i in Last(cs').nodes
    ensures var l, l' := Last(cs).nodes[i], Last(cs').nodes[i];
            l'.log == l.log + [Entry(command, t)] && l'.commitIndex == |l.log|
  {
    var cs1, steps1 := CanBeElected(cs, steps, i, ps, t);
    assert SameLog(Last(cs).nodes[i], Last(cs1).nodes[i]);
    cs', steps' := CommandCanCommit(cs1, steps1, i, ps, command);
    ContinuesFurther(cs, steps, cs1, steps1, cs', steps');
  }

  // ---------------------------------------------------------------------------------------
  // Whatever has happened

  /** A leader that is behind a peer in term can learn so, and follows. Nobody else changes. */
  lemma StepsDown(cs: seq<Cluster>, steps: seq<Step>, i: int, p: int)
    returns (cs': seq<Cluster>, steps': seq<Step>)
    requires IsTimelyRun(cs, steps) && i in Last(cs).nodes && p in Last(cs).nodes && i != p
    requires var l, f := Last(cs).nodes[i], Last(cs).nodes[p];
             l.state == Leader && l.id == i && p in l.peerIds && f.state != Dead && f.currentTerm > l.currentTerm
    ensures Continues(cs, steps, cs', steps')
    ensures Last(cs').nodes == Last(cs).nodes[i := BecomeFollower(Last(cs).nodes[i], Last(cs).nodes[p].currentTerm)]
  {
    var c := Last(cs);
    SendInRange(cs, steps, |steps|, i, p);
    CommitIsIndex(cs, steps, i);
    var req := MakeAppendRequest(c.nodes[i], p);
    var rep := AppendReply(c.nodes[p].currentTerm, false, 0, 0);
    var cs1, steps1 := OneStep(cs, steps, SendAppend(i, p));
    StaleDelivery(Last(cs1), p, req);
    var cs2, steps2 := OneStep(cs1, steps1, DeliverAppend(AppendReq(p, req)));
    ReplyStep(Last(cs2), i, p, req, rep);
    cs', steps' := OneStep(cs2, steps2, DeliverAppendReply(AppendRep(p, req, rep)));
  }

  lemma StaleDelivery(c: Cluster, p: int, req: AppendRequest)
    requires AppendReq(p, req) in c.net && p in c.nodes && req.prevLogIndex >= -1
    requires c.nodes[p].state != Dead && c.nodes[p].currentTerm > req.term
    ensures var s := DeliverAppend(AppendReq(p, req));
            && Enabled(c, s) && Timely(c, s) && Apply(c, s).nodes == c.nodes
            && AppendRep(p, req, AppendReply(c.nodes[p].currentTerm, false, 0, 0)) in Apply(c, s).net
  {
    assert c.nodes[p := c.nodes[p]] == c.nodes;
  }

  predicate AtLeast(a: Log, b: Log) {
    UpToDate(LastLogIndex(a), LastLogTerm(a), b)
  }

  /** One of the nodes has a log that is up to date with those of all of them. */
  lemma {:induction false} BestLog(c: Cluster, ps: seq<int>) returns (i: int)
    requires ps != [] && forall p :: p in ps ==> p in c.nodes
    ensures i in ps && forall p :: p in ps ==> AtLeast(c.nodes[i].log, c.nodes[p].log)
  {
    var n := |ps| - 1;
    i := ps[n];
    if n > 0 {
      var j := BestLog(c, ps[..n]);
      if !AtLeast(c.nodes[i].log, c.nodes[j].log) {
        i := j;
      }
    }
    assert forall p :: p in ps <==> p in ps[..n] || p == ps[n];
  }

  lemma {:induction false} LaterThanAll(c: Cluster, ps: seq<int>) returns (t: int)
    requires forall k :: 0 <= k < |ps| ==> ps[k] in c.nodes
    ensures forall k :: 0 <= k < |ps| ==> c.nodes[ps[k]].currentTerm < t
  {
    t := 0;
    if ps != [] {
      var n := |ps| - 1;
      t := LaterThanAll(c, ps[..n]);
      assert forall k :: 0 <= k < n ==> ps[..n][k] == ps[k];
      if t <= c.nodes[ps[n]].currentTerm {
        t := c.nodes[ps[n]].currentTerm + 1;
      }
    }
  }

  lemma {:induction false} Listed(s: set<int>) returns (ps: seq<int>)
    ensures Distinct(ps) && |ps| == |s| && forall p :: p in ps <==> p in s
    decreases |s|
  {
    ps := [];
    if s != {} {
      var p := CraftMonotone.Pick(s);
      ps := Listed(s - {p});
      ps := ps + [p];
    }
  }

  /** The nodes are alive and make a majority of the cluster, without `i`. */
  ghost predicate Backers(c: Cluster, i: int, ps: seq<int>) {
    && i in c.nodes && c.nodes[i].id == i && c.nodes[i].state != Dead && Distinct(ps) && ps != []
    && (1 + |ps|) * 2 > |c.nodes[i].peerIds| + 1
    && (forall p :: p in ps ==> p in c.nodes && p != i && p in c.nodes[i].peerIds && c.nodes[p].state != Dead)
    && (forall p :: p in ps ==> AtLeast(c.nodes[i].log, c.nodes[p].log))
  }

  lemma BackersOf(c: Cluster, live: set<int>) returns (i: int, ps: seq<int>)
    requires CraftHistory.Config(c) && live <= c.nodes.Keys && |live| >= 2 && 2 * |live| > |c.nodes|
    requires forall p :: p in live ==> c.nodes[p].state != Dead
    ensures i in live && Backers(c, i, ps) && (forall p :: p in ps <==> p in live && p != i)
  {
    var all := Listed(live);
    i := BestLog(c, all);
    ps := Listed(live - {i});
    assert ps != [] && |ps| == |live| - 1;
    assert |c.nodes.Keys| == |c.nodes|;
  }

  /** The node leads with the log that it had, and can have a round with each of the peers, which make a majority with it. */
  ghost predicate LeadsOver(n: Node, c': Cluster, i: int, ps: seq<int>) {
    && i in c'.nodes && c'.nodes[i].log == n.log && AllReady(c', i, ps)
    && Distinct(ps) && ps != [] && (1 + |ps|) * 2 > |c'.nodes[i].peerIds| + 1
  }

  lemma BackersLead(cs: seq<Cluster>, steps: seq<Step>, i: int, ps: seq<int>)
    returns (cs': seq<Cluster>, steps': seq<Step>)
    requires IsTimelyRun(cs, steps) && Backers(Last(cs), i, ps) && Last(cs).nodes[i].state != Leader
    ensures Continues(cs, steps, cs', steps') && LeadsOver(Last(cs).nodes[i], Last(cs'), i, ps)
  {
    var all := ps + [i];
    assert forall k :: 0 <= k < |ps| ==> all[k] == ps[k] && ps[k] in ps;
    var t := LaterThanAll(Last(cs), all);
    assert all[|ps|] == i;
    forall k | 0 <= k < |ps|
      ensures CanVote(Last(cs), i, ps[k], t)
    {
      assert all[k] == ps[k];
    }
    cs', steps' := CanBeElected(cs, steps, i, ps, t);
    assert SameLog(Last(cs).nodes[i], Last(cs').nodes[i]);
  }

  /** From every state of a timely run in which a majority of at least two nodes is alive, the run can go on so that the
      most up-to-date of them leads the others. */
  lemma CanAlwaysLead(cs: seq<Cluster>, steps: seq<Step>, live: set<int>)
    returns (cs': seq<Cluster>, steps': seq<Step>, i: int, ps: seq<int>)
    requires IsTimelyRun(cs, steps) && live <= Last(cs).nodes.Keys && |live| >= 2 && 2 * |live| > |Last(cs).nodes|
    requires forall p :: p in live ==> Last(cs).nodes[p].state != Dead
    ensures Continues(cs, steps, cs', steps') && i in live && (forall p :: p in ps <==> p in live && p != i)
    ensures LeadsOver(Last(cs).nodes[i], Last(cs'), i, ps)
  {
    RunLeaders(cs, steps, |steps|);
    i, ps := BackersOf(Last(cs), live);
    var c := Last(cs);
    if c.nodes[i].state != Leader {
      cs', steps' := BackersLead(cs, steps, i, ps);
    } else if AllReady(c, i, ps) {
      cs', steps' := cs, steps;
    } else {
      var k :| 0 <= k < |ps| && !Ready(c, i, ps[k]);
      assert ps[k] in ps;
      var cs1, steps1 := StepsDown(cs, steps, i, ps[k]);
      StillBackers(c, Last(cs1), i, ps, c.nodes[ps[k]].currentTerm);
      cs', steps' := BackersLead(cs1, steps1, i, ps);
      ContinuesFurther(cs, steps, cs1, steps1, cs', steps');
    }
  }

  /** The node has put the command behind its log and committed it there. */
  ghost predicate CommittedLast(n: Node, n': Node, command: int) {
    exists t :: n'.log == n.log + [Entry(command, t)] && n'.commitIndex == |n.log|
  }

  /** So any given command can be committed, by the most up-to-date of the nodes that are alive. */
  lemma CanAlwaysCommit(cs: seq<Cluster>, steps: seq<Step>, live: set<int>, command: int)
    returns (cs': seq<Cluster>, steps': seq<Step>, i: int)
    requires IsTimelyRun(cs, steps) && live <= Last(cs).nodes.Keys && |live| >= 2 && 2 * |live| > |Last(cs).nodes|
    requires forall p :: p in live ==> Last(cs).nodes[p].state != Dead
    ensures Continues(cs, steps, cs', steps') && i in live && i in Last(cs').nodes
    ensures CommittedLast(Last(cs).nodes[i], Last(cs').nodes[i], command)
  {
    var cs1, steps1, ps;
    cs1, steps1, i, ps := CanAlwaysLead(cs, steps, live);
    cs', steps' := CommandCanCommit(cs1, steps1, i, ps, command);
    ContinuesFurther(cs, steps, cs1, steps1, cs', steps');
  }

  lemma StillBackers(c: Cluster, c': Cluster, i: int, ps: seq<int>, t: int)
    requires Backers(c, i, ps) && c'.nodes == c.nodes[i := BecomeFollower(c.nodes[i], t)]
    ensures Backers(c', i, ps) && c'.nodes[i].state != Leader && c'.nodes[i].log == c.nodes[i].log
  {
  }
}
