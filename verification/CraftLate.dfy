/** Two runs of five nodes, timely but for the last reply. In one of them two nodes commit different entries at
    one index; in the other a leader is sent outside its log. */
module CraftLate {
  import opened CraftNode
  import opened CraftCluster
  import opened CraftHistory
  import opened CraftMonotone
  import opened CraftCompleteness
  import opened CraftSafety
  import opened CraftExact
  import opened CraftProgress
  import opened CraftAvailable
  import CraftStale

  // ---------------------------------------------------------------------------------------
  // Moves of a run

  /** The members are 0 to 4. */
  predicate Five(c: Cluster) {
    0 in c.nodes && 1 in c.nodes && 2 in c.nodes && 3 in c.nodes && 4 in c.nodes && |c.nodes.Keys| == 5
  }

  lemma IsPeer(cs: seq<Cluster>, steps: seq<Step>, i: int, p: int)
    requires IsTimelyRun(cs, steps) && Five(Last(cs)) && i in Last(cs).nodes && p in Last(cs).nodes && i != p
    ensures Last(cs).nodes[i].id == i && p in Last(cs).nodes[i].peerIds && |Last(cs).nodes[i].peerIds| == 4
  {
    RunLeaders(cs, steps, |steps|);
  }

  /** Nobody but these three has changed. */
  ghost predicate SameBut(c: Cluster, c': Cluster, i: int, p: int, q: int) {
    c'.nodes.Keys == c.nodes.Keys && forall k :: k in c.nodes && k != i && k != p && k != q ==> c'.nodes[k] == c.nodes[k]
  }

  /** The node is alive, in no later term than `t`, with this log. */
  predicate Alive(c: Cluster, i: int, t: int, log: Log) {
    i in c.nodes && c.nodes[i].state != Dead && c.nodes[i].currentTerm <= t && c.nodes[i].log == log
  }

  /** And it follows. */
  predicate Follows(c: Cluster, i: int, t: int, log: Log) {
    Alive(c, i, t, log) && c.nodes[i].state == Follower
  }

  predicate LeadsIn(c: Cluster, i: int, t: int, log: Log) {
    i in c.nodes && c.nodes[i].state == Leader && c.nodes[i].currentTerm == t && c.nodes[i].log == log
  }

  function Others(i: int): seq<int> {
    if i == 0 then [1, 2, 3, 4]
    else if i == 1 then [0, 2, 3, 4]
    else if i == 2 then [0, 1, 3, 4]
    else if i == 3 then [0, 1, 2, 4]
    else [0, 1, 2, 3]
  }

  lemma OthersArePeers(i: int, members: set<int>)
    requires members == {0, 1, 2, 3, 4} && i in members
    ensures i >= 0 && PeersOf(Others(i), i, members)
  {
  }

  lemma PeersInit(c: Cluster)
    requires c.net == {}
    requires forall i :: i in c.nodes ==> i >= 0 && c.nodes[i] == NewNode(i, Others(i)) && PeersOf(Others(i), i, c.nodes.Keys)
    ensures Init(c) && Config(c)
  {
  }

  lemma FreshCluster(members: set<int>) returns (c: Cluster)
    requires forall i :: i in members ==> i >= 0 && PeersOf(Others(i), i, members)
    ensures Init(c) && Config(c) && c.nodes.Keys == members
    ensures forall i :: i in c.nodes ==> Follows(c, i, 0, [])
  {
    c := Cluster(map i | i in members :: NewNode(i, Others(i)), {});
    assert c.nodes.Keys == members;
    PeersInit(c);
  }

  lemma Start() returns (cs: seq<Cluster>, steps: seq<Step>)
    ensures IsTimelyRun(cs, steps) && Five(Last(cs))
    ensures forall i :: i in Last(cs).nodes ==> Follows(Last(cs), i, 0, [])
  {
    var members := {0, 1, 2, 3, 4};
    forall i | i in members
      ensures i >= 0 && PeersOf(Others(i), i, members)
    {
      OthersArePeers(i, members);
    }
    var c := FreshCluster(members);
    cs, steps := [c], [];
  }

  /** Node `i` is elected by `p` and `q`. */
  lemma Elect(cs: seq<Cluster>, steps: seq<Step>, i: int, p: int, q: int, t: int, log: Log, logP: Log, logQ: Log)
    returns (cs': seq<Cluster>, steps': seq<Step>)
    requires IsTimelyRun(cs, steps) && Five(Last(cs)) && i != p && p != q && i != q
    requires Follows(Last(cs), i, t - 1, log) && Alive(Last(cs), p, t - 1, logP) && Alive(Last(cs), q, t - 1, logQ)
    requires AtLeast(log, logP) && AtLeast(log, logQ)
    ensures Continues(cs, steps, cs', steps') && Five(Last(cs')) && WonBy(Last(cs), Last(cs'), i, [p, q], t)
    ensures LeadsIn(Last(cs'), i, t, log) && Alive(Last(cs'), p, t, logP) && Alive(Last(cs'), q, t, logQ)
    ensures SameBut(Last(cs), Last(cs'), i, p, q)
  {
    var c, ps := Last(cs), [p, q];
    IsPeer(cs, steps, i, p);
    IsPeer(cs, steps, i, q);
    forall k | 0 <= k < |ps|
      ensures CanVote(c, i, ps[k], t)
    {
    }
    cs', steps' := CanBeElected(cs, steps, i, ps, t);
    var c' := Last(cs');
    assert SameLog(c.nodes[i], c'.nodes[i]) && SameLog(c.nodes[p], c'.nodes[p]) && SameLog(c.nodes[q], c'.nodes[q]);
    assert CraftAvailable.Alive(c', i, ps[0], t) && CraftAvailable.Alive(c', i, ps[1], t);
  }

  /** The leader takes a command. */
  lemma Put(cs: seq<Cluster>, steps: seq<Step>, i: int, t: int, log: Log, command: int)
    returns (cs': seq<Cluster>, steps': seq<Step>)
    requires IsTimelyRun(cs, steps) && Five(Last(cs)) && LeadsIn(Last(cs), i, t, log)
    ensures Continues(cs, steps, cs', steps') && Five(Last(cs')) && LeadsIn(Last(cs'), i, t, log + [Entry(command, t)])
    ensures SameBut(Last(cs), Last(cs'), i, i, i)
  {
    cs', steps' := OneStep(cs, steps, ClientSubmit(i, command));
  }

  /** The leader takes a command and commits it with two others. */
  lemma CommitWith(cs: seq<Cluster>, steps: seq<Step>, i: int, p: int, q: int, t: int, log: Log, logP: Log, logQ: Log,
                   command: int) returns (cs': seq<Cluster>, steps': seq<Step>)
    requires IsTimelyRun(cs, steps) && Five(Last(cs)) && i != p && p != q && i != q
    requires LeadsIn(Last(cs), i, t, log) && Alive(Last(cs), p, t, logP) && Alive(Last(cs), q, t, logQ)
    ensures Continues(cs, steps, cs', steps') && Five(Last(cs'))
    ensures i in Last(cs').nodes && Last(cs').nodes[i].log == log + [Entry(command, t)]
    ensures Last(cs').nodes[i].commitIndex == |log|
    ensures SameBut(Last(cs), Last(cs'), i, p, q)
  {
    var c, ps := Last(cs), [p, q];
    IsPeer(cs, steps, i, p);
    IsPeer(cs, steps, i, q);
    forall k | 0 <= k < |ps|
      ensures Ready(c, i, ps[k])
    {
    }
    cs', steps' := CommandCanCommit(cs, steps, i, ps, command);
  }

  /** The leader brings a peer up to date, and the peer has exactly the leader's log. */
  lemma Teach(cs: seq<Cluster>, steps: seq<Step>, a: int, p: int, t: int, log: Log)
    returns (cs': seq<Cluster>, steps': seq<Step>)
    requires IsTimelyRun(cs, steps) && Five(Last(cs)) && a != p && p in Last(cs).nodes
    requires LeadsIn(Last(cs), a, t, log) && log != [] && log[|log| - 1].term == t
    requires Last(cs).nodes[p].state != Dead && Last(cs).nodes[p].currentTerm <= t
    ensures Continues(cs, steps, cs', steps') && Five(Last(cs'))
    ensures LeadsIn(Last(cs'), a, t, log) && Follows(Last(cs'), p, t, log) && Vouched(Last(cs'), p, t, |log|)
    ensures Last(cs').nodes[a].matchIndex == Last(cs).nodes[a].matchIndex[p := |log| - 1]
    ensures SameBut(Last(cs), Last(cs'), a, p, p)
  {
    IsPeer(cs, steps, a, p);
    cs', steps' := CatchesUp(cs, steps, a, p);
    CaughtUpHolds(cs', steps', Last(cs), a, p);
    SameAsLeader(cs', steps', a, p);
    MatchVouched(cs', steps', a, p);
  }

  /** A log that has all of the leader's log is the leader's log, if that ends in an entry of the leader's term. */
  lemma SameAsLeader(cs: seq<Cluster>, steps: seq<Step>, a: int, p: int)
    requires IsTimelyRun(cs, steps) && a in Last(cs).nodes && p in Last(cs).nodes
    requires var l, f := Last(cs).nodes[a], Last(cs).nodes[p];
             && l.state == Leader && f.currentTerm <= l.currentTerm && l.log <= f.log
             && l.log != [] && l.log[|l.log| - 1].term == l.currentTerm
    ensures Last(cs).nodes[p].log == Last(cs).nodes[a].log
  {
    var h := HistoryAt(cs, steps, |steps|);
    LeaderOfTerm(cs, steps, |steps|, a);
    RunLogs(cs, steps, |steps|);
    ReignLogsOf(Last(cs), h);
    NoLonger(h, Last(cs).nodes[a].log, Last(cs).nodes[p].log, Last(cs).nodes[a].currentTerm);
  }

  lemma NoLonger(h: History, l: Log, f: Log, t: int)
    requires ReignLogs(h) && Origin(h, f) && t in h.reigns && h.reigns[t].log == l
    requires l <= f && l != [] && l[|l| - 1].term == t && forall k :: 0 <= k < |f| ==> f[k].term <= t
    ensures f == l
  {
    var e := |f| - 1;
    OriginSorted(h, f, |l| - 1, e);
    assert f[e].term == t && Agree(f, l, e + 1);
  }

  /** What the leader takes a peer to hold, the peer has acknowledged in a reply. */
  lemma MatchVouched(cs: seq<Cluster>, steps: seq<Step>, a: int, p: int)
    requires IsTimelyRun(cs, steps) && a in Last(cs).nodes && p in Last(cs).nodes && a != p
    requires Last(cs).nodes[a].state == Leader && p in Last(cs).nodes[a].peerIds
    ensures Vouched(Last(cs), p, Last(cs).nodes[a].currentTerm, Lookup(Last(cs).nodes[a].matchIndex, p) + 1)
  {
    var h, l := HistoryAt(cs, steps, |steps|), Last(cs).nodes[a];
    RunLeaders(cs, steps, |steps|);
    RunRecorded(cs, steps, |steps|);
    assert LeaderOk(l, h) && PeerOk(l, h, p);
    var m := l.matchIndex[p];
    if m >= 0 {
      var seat := Seat(l.currentTerm, p);
      assert AckedBy(Last(cs), h, seat);
      LessVouched(Last(cs), p, l.currentTerm, m + 1, h.acks[seat]);
    }
  }

  /** The reply that vouches for the peer names the leader, its term and no more than its log. */
  lemma VouchingReply(cs: seq<Cluster>, steps: seq<Step>, a: int, p: int, t: int, log: Log) returns (pk: Packet)
    requires IsTimelyRun(cs, steps) && LeadsIn(Last(cs), a, t, log) && log != [] && Vouched(Last(cs), p, t, |log|)
    ensures pk in Last(cs).net && pk.AppendRep? && pk.peer == p && pk.append.leaderId == a && pk.appendReply.success
    ensures pk.append.term == pk.appendReply.term == t && Reach(pk.append) == |log|
  {
    pk :| pk in Last(cs).net && Vouches(pk, p, t, |log|);
    LeaderOfTerm(cs, steps, |steps|, a);
    RunReply(cs, steps, pk);
  }

  lemma RunReply(cs: seq<Cluster>, steps: seq<Step>, pk: Packet)
    requires IsTimelyRun(cs, steps) && pk in Last(cs).net && pk.AppendRep?
    ensures var h := HistoryAt(cs, steps, |steps|);
            RequestOk(Last(cs), h, pk.peer, pk.append) && ReplyOk(h, pk.peer, pk.append, pk.appendReply)
  {
    RunInv(cs, steps, |steps|);
  }

  lemma Kept(cs: seq<Cluster>, steps: seq<Step>, cs': seq<Cluster>, steps': seq<Step>, pk: Packet)
    requires IsTimelyRun(cs, steps) && Continues(cs, steps, cs', steps')
    requires pk in Last(cs).net && (pk.AppendReq? || pk.AppendRep?)
    ensures pk in Last(cs').net
  {
    assert cs'[|steps|] == Last(cs);
    RunAppendsStay(cs', steps', |steps|, |steps'|, pk);
  }

  // ---------------------------------------------------------------------------------------
  // The first reign, which both runs start with

  const X1 := [Entry(10, 1), Entry(11, 1)]

  /** Node 0 leads term 1 with two entries, which node 1 has accepted. */
  lemma FirstReign() returns (cs: seq<Cluster>, steps: seq<Step>, pk: Packet)
    ensures IsTimelyRun(cs, steps) && Five(Last(cs))
    ensures LeadsIn(Last(cs), 0, 1, X1) && Follows(Last(cs), 1, 1, X1) && Alive(Last(cs), 2, 1, [])
    ensures Follows(Last(cs), 3, 0, []) && Follows(Last(cs), 4, 0, [])
    ensures pk in Last(cs).net && pk.AppendRep? && pk.peer == 1 && pk.append.leaderId == 0 && pk.appendReply.success
    ensures pk.append.term == pk.appendReply.term == 1 && Reach(pk.append) == 2
  {
    var cs0, steps0 := Start();
    cs, steps := Elect(cs0, steps0, 0, 1, 2, 1, [], [], []);
    cs, steps := TwoEntries(cs, steps);
    cs, steps := Teach(cs, steps, 0, 1, 1, X1);
    pk := VouchingReply(cs, steps, 0, 1, 1, X1);
  }

  lemma TwoEntries(cs: seq<Cluster>, steps: seq<Step>) returns (cs': seq<Cluster>, steps': seq<Step>)
    requires IsTimelyRun(cs, steps) && Five(Last(cs)) && LeadsIn(Last(cs), 0, 1, [])
    ensures IsTimelyRun(cs', steps') && Five(Last(cs')) && LeadsIn(Last(cs'), 0, 1, X1)
    ensures SameBut(Last(cs), Last(cs'), 0, 0, 0)
  {
    assert [] + [Entry(10, 1)] == [Entry(10, 1)] && [Entry(10, 1)] + [Entry(11, 1)] == X1;
    var cs1, steps1 := Put(cs, steps, 0, 1, [], 10);
    cs', steps' := Put(cs1, steps1, 0, 1, [Entry(10, 1)], 11);
  }

  // ---------------------------------------------------------------------------------------
  // A late success

  const Y2 := [Entry(20, 2)]
  const Z3 := [Entry(20, 2), Entry(30, 3)]

  /** Node 3 leads term 2 and teaches its entry to all but node 1. */
  lemma SecondReign() returns (cs: seq<Cluster>, steps: seq<Step>, pk: Packet)
    ensures IsTimelyRun(cs, steps) && Five(Last(cs))
    ensures Follows(Last(cs), 0, 2, Y2) && Follows(Last(cs), 1, 1, X1) && Follows(Last(cs), 2, 2, Y2)
    ensures LeadsIn(Last(cs), 3, 2, Y2) && Follows(Last(cs), 4, 2, Y2)
    ensures IsLate(Last(cs), pk)
  {
    var cs0, steps0;
    cs0, steps0, pk := FirstReign();
    cs, steps := Elect(cs0, steps0, 3, 2, 4, 2, [], [], []);
    Kept(cs0, steps0, cs, steps, pk);
    cs, steps := SpreadSecond(cs, steps, pk);
  }

  ghost predicate IsLate(c: Cluster, pk: Packet) {
    && pk in c.net && pk.AppendRep? && pk.peer == 1 && pk.append.leaderId == 0 && pk.appendReply.success
    && pk.append.term == pk.appendReply.term == 1 && Reach(pk.append) == 2
  }

  lemma SpreadSecond(cs0: seq<Cluster>, steps0: seq<Step>, pk: Packet) returns (cs: seq<Cluster>, steps: seq<Step>)
    requires IsTimelyRun(cs0, steps0) && Five(Last(cs0)) && IsLate(Last(cs0), pk)
    requires LeadsIn(Last(cs0), 0, 1, X1) && Follows(Last(cs0), 1, 1, X1) && Alive(Last(cs0), 2, 2, [])
    requires LeadsIn(Last(cs0), 3, 2, []) && Alive(Last(cs0), 4, 2, [])
    ensures IsTimelyRun(cs, steps) && Five(Last(cs)) && IsLate(Last(cs), pk)
    ensures Follows(Last(cs), 0, 2, Y2) && Follows(Last(cs), 1, 1, X1) && Follows(Last(cs), 2, 2, Y2)
    ensures LeadsIn(Last(cs), 3, 2, Y2) && Follows(Last(cs), 4, 2, Y2)
  {
    var cs1, steps1 := TeachFirst(cs0, steps0);
    var cs2, steps2 := Teach(cs1, steps1, 3, 2, 2, Y2);
    ContinuesFurther(cs0, steps0, cs1, steps1, cs2, steps2);
    cs, steps := Teach(cs2, steps2, 3, 4, 2, Y2);
    ContinuesFurther(cs0, steps0, cs2, steps2, cs, steps);
    Kept(cs0, steps0, cs, steps, pk);
  }

  lemma TeachFirst(cs0: seq<Cluster>, steps0: seq<Step>) returns (cs: seq<Cluster>, steps: seq<Step>)
    requires IsTimelyRun(cs0, steps0) && Five(Last(cs0)) && LeadsIn(Last(cs0), 0, 1, X1) && LeadsIn(Last(cs0), 3, 2, [])
    ensures Continues(cs0, steps0, cs, steps) && Five(Last(cs)) && Follows(Last(cs), 0, 2, Y2) && LeadsIn(Last(cs), 3, 2, Y2)
    ensures SameBut(Last(cs0), Last(cs), 0, 3, 3)
  {
    assert [] + [Entry(20, 2)] == Y2;
    var cs1, steps1 := Put(cs0, steps0, 3, 2, [], 20);
    cs, steps := Teach(cs1, steps1, 3, 0, 2, Y2);
    ContinuesFurther(cs0, steps0, cs1, steps1, cs, steps);
  }

  /** Node 0 leads term 3 with one more entry, which node 2 has. */
  lemma ThirdReign() returns (cs: seq<Cluster>, steps: seq<Step>, pk: Packet)
    ensures IsTimelyRun(cs, steps) && Five(Last(cs)) && IsLate(Last(cs), pk)
    ensures LeadsIn(Last(cs), 0, 3, Z3) && Lookup(Last(cs).nodes[0].matchIndex, 2) == 1
    ensures Follows(Last(cs), 1, 1, X1) && LeadsIn(Last(cs), 3, 2, Y2) && Follows(Last(cs), 4, 3, Y2)
  {
    var cs0, steps0;
    cs0, steps0, pk := SecondReign();
    var cs1, steps1 := Elect(cs0, steps0, 0, 2, 4, 3, Y2, Y2, Y2);
    assert Follows(Last(cs1), 4, 3, Y2);
    var cs2, steps2 := Put(cs1, steps1, 0, 3, Y2, 30);
    assert Y2 + [Entry(30, 3)] == Z3;
    ContinuesFurther(cs0, steps0, cs1, steps1, cs2, steps2);
    cs, steps := Teach(cs2, steps2, 0, 2, 3, Z3);
    ContinuesFurther(cs0, steps0, cs2, steps2, cs, steps);
    Kept(cs0, steps0, cs, steps, pk);
  }

  /** Node 4 leads term 4 and commits an entry of its own at index 1, with nodes 1 and 3. */
  lemma FourthReign() returns (cs: seq<Cluster>, steps: seq<Step>, pk: Packet)
    ensures IsTimelyRun(cs, steps) && Five(Last(cs)) && IsLate(Last(cs), pk)
    ensures LeadsIn(Last(cs), 0, 3, Z3) && Lookup(Last(cs).nodes[0].matchIndex, 2) == 1
    ensures Last(cs).nodes[4].log == Y2 + [Entry(40, 4)] && Last(cs).nodes[4].commitIndex == 1
  {
    var cs0, steps0;
    cs0, steps0, pk := ThirdReign();
    var cs1, steps1 := Elect(cs0, steps0, 4, 1, 3, 4, Y2, X1, Y2);
    cs, steps := CommitWith(cs1, steps1, 4, 1, 3, 4, Y2, X1, Y2, 40);
    ContinuesFurther(cs0, steps0, cs1, steps1, cs, steps);
    Kept(cs0, steps0, cs, steps, pk);
  }

  /** With the late success, node 0 takes nodes 1 and 2 to hold its entry of term 3. */
  lemma LateCommit(c: Cluster, pk: Packet)
    requires Five(c) && IsLate(c, pk) && LeadsIn(c, 0, 3, Z3) && Lookup(c.nodes[0].matchIndex, 2) == 1
    requires 1 in c.nodes[0].peerIds && 2 in c.nodes[0].peerIds && |c.nodes[0].peerIds| == 4
    requires -1 <= c.nodes[0].commitIndex < 2
    ensures Enabled(c, DeliverAppendReply(pk))
    ensures var c' := Apply(c, DeliverAppendReply(pk));
            && c'.nodes == c.nodes[0 := c'.nodes[0]]
            && c'.nodes[0].log == Z3 && c'.nodes[0].commitIndex == 1
  {
    var n := c.nodes[0];
    var n1 := n.(nextIndex := n.nextIndex[1 := 2], matchIndex := n.matchIndex[1 := 1]);
    assert HandleAppendReply(n, 1, pk.append, pk.appendReply) == n1.(commitIndex := CommitScan(n1, 2));
    BothMatch(n1);
  }

  lemma BothMatch(n: Node)
    requires n.log == Z3 && n.currentTerm == 3 && 1 in n.peerIds && 2 in n.peerIds && |n.peerIds| == 4
    requires Lookup(n.matchIndex, 1) == 1 && Lookup(n.matchIndex, 2) == 1 && -1 <= n.commitIndex < 2
    ensures CommitScan(n, 2) == 1
  {
    SubsetSize({1, 2}, Matching(n, 1));
    assert n.commitIndex < 1 ==> Committable(n, 1);
  }

  /** State machine safety fails in a run in which one reply is late. Node 1 accepted two entries of node 0 in term 1, and
      its success comes when node 0 leads term 3 with another log. Node 0 commits the entry that it has at index 1, while
      node 4 has committed another one there. */
  lemma TwoCommits() returns (cs: seq<Cluster>, steps: seq<Step>)
    ensures IsRun(cs, steps) && steps != [] && IsTimelyRun(cs[..|steps|], steps[..|steps| - 1])
    ensures var c := Last(cs);
            && 0 in c.nodes && 4 in c.nodes && c.nodes[0].commitIndex == 1 && c.nodes[4].commitIndex == 1
            && |c.nodes[0].log| == |c.nodes[4].log| == 2 && c.nodes[0].log[1] != c.nodes[4].log[1]
    ensures !IsTimelyRun(cs, steps)
  {
    var cs0, steps0, pk := FourthReign();
    CommitIsIndex(cs0, steps0, 0);
    IsPeer(cs0, steps0, 0, 1);
    IsPeer(cs0, steps0, 0, 2);
    LateCommit(Last(cs0), pk);
    cs, steps := CraftStale.LastStep(cs0, steps0, DeliverAppendReply(pk));
    if IsTimelyRun(cs, steps) {
      StateMachineSafety(cs, steps, |steps|, |steps|, 0, 4, 1);
    }
  }

  // ---------------------------------------------------------------------------------------
  // A late refusal

  const X3 := [Entry(10, 1), Entry(11, 1), Entry(12, 1)]
  const Y4 := [Entry(50, 4)]

  /** Node 0 takes a third entry, loses its term to node 3, and leads again in term 3. */
  lemma LeadsAgain() returns (cs: seq<Cluster>, steps: seq<Step>)
    ensures IsTimelyRun(cs, steps) && Five(Last(cs))
    ensures LeadsIn(Last(cs), 0, 3, X3) && NewLeader(Last(cs).nodes[0]) && Follows(Last(cs), 1, 1, X1)
    ensures Alive(Last(cs), 2, 3, []) && Alive(Last(cs), 3, 2, []) && Follows(Last(cs), 4, 3, [])
  {
    var cs0, steps0, pk := FirstReign();
    cs, steps := Put(cs0, steps0, 0, 1, X1, 12);
    assert X1 + [Entry(12, 1)] == X3;
    cs, steps := Elect(cs, steps, 3, 2, 4, 2, [], [], []);
    assert Follows(Last(cs), 4, 2, []);
    IsPeer(cs, steps, 0, 3);
    cs, steps := StepsDown(cs, steps, 0, 3);
    assert Follows(Last(cs), 0, 2, X3);
    cs, steps := Elect(cs, steps, 0, 2, 4, 3, X3, [], []);
    assert Follows(Last(cs), 4, 3, []);
  }

  /** Node 1, whose log is shorter, refuses what it is sent. */
  lemma Refuses() returns (cs: seq<Cluster>, steps: seq<Step>, pk: Packet)
    ensures IsTimelyRun(cs, steps) && Five(Last(cs)) && IsRefusal(Last(cs), pk)
    ensures LeadsIn(Last(cs), 0, 3, X3)
    ensures Alive(Last(cs), 2, 3, []) && Alive(Last(cs), 3, 2, []) && Follows(Last(cs), 4, 3, [])
  {
    var cs0, steps0 := LeadsAgain();
    var c := Last(cs0);
    var l, f := c.nodes[0], c.nodes[1];
    IsPeer(cs0, steps0, 0, 1);
    SendStep(c, 0, 1);
    var cs1, steps1 := OneStep(cs0, steps0, SendAppend(0, 1));
    DeliverStep(Last(cs1), 0, 1);
    PeerFollows(l, f, 1);
    cs, steps := OneStep(cs1, steps1, DeliverAppend(AppendReq(1, MakeAppendRequest(l, 1))));
    pk := AppendRep(1, MakeAppendRequest(l, 1), Peered(l, f, 1).1);
  }

  ghost predicate IsRefusal(c: Cluster, pk: Packet) {
    && pk in c.net && pk.AppendRep? && pk.peer == 1 && pk.append.leaderId == 0 && pk.append.term == 3
    && pk.appendReply == AppendReply(3, false, 2, -1)
  }

  /** Node 4 leads term 4 and overwrites the log of node 0, which then leads term 5 with one entry. */
  lemma LeadsShorter() returns (cs: seq<Cluster>, steps: seq<Step>, pk: Packet)
    ensures IsTimelyRun(cs, steps) && Five(Last(cs)) && IsRefusal(Last(cs), pk) && LeadsIn(Last(cs), 0, 5, Y4)
  {
    var cs0, steps0;
    cs0, steps0, pk := Refuses();
    var cs1, steps1 := Elect(cs0, steps0, 4, 2, 3, 4, [], [], []);
    var cs2, steps2 := Put(cs1, steps1, 4, 4, [], 50);
    assert [] + [Entry(50, 4)] == Y4;
    ContinuesFurther(cs0, steps0, cs1, steps1, cs2, steps2);
    var cs3, steps3 := Teach(cs2, steps2, 4, 0, 4, Y4);
    ContinuesFurther(cs0, steps0, cs2, steps2, cs3, steps3);
    cs, steps := Elect(cs3, steps3, 0, 2, 3, 5, Y4, [], []);
    ContinuesFurther(cs0, steps0, cs3, steps3, cs, steps);
    Kept(cs0, steps0, cs, steps, pk);
  }

  /** In a run in which one reply is late, a leader is sent outside its log: the refusal that node 1 gave in term 3 comes
      when node 0 leads term 5 with a shorter log, and the next send of node 0 to node 1 is out of range. */
  lemma OutOfRange() returns (cs: seq<Cluster>, steps: seq<Step>)
    ensures IsRun(cs, steps) && steps != [] && IsTimelyRun(cs[..|steps|], steps[..|steps| - 1])
    ensures var c := Last(cs);
            0 in c.nodes && c.nodes[0].state == Leader && 1 in c.nodes[0].peerIds && !NextInRange(c.nodes[0], 1)
    ensures !IsTimelyRun(cs, steps)
  {
    var cs0, steps0, pk := LeadsShorter();
    CommitIsIndex(cs0, steps0, 0);
    IsPeer(cs0, steps0, 0, 1);
    cs, steps := CraftStale.LastStep(cs0, steps0, DeliverAppendReply(pk));
    if IsTimelyRun(cs, steps) {
      SendInRange(cs, steps, |steps|, 0, 1);
    }
  }
}
