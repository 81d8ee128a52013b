/** What every run of a craft cluster keeps, stated on the cluster alone. */
module CraftSafety {
  import opened CraftNode
  import opened CraftCluster
  import opened CraftHistory
  import opened CraftMonotone
  import opened CraftCompleteness
  import opened CraftWin
  import opened CraftSteps

  /** The history of the first `k` steps of a run. */
  ghost function HistoryAt(cs: seq<Cluster>, steps: seq<Step>, k: nat): History
    requires IsRun(cs, steps) && k <= |steps|
  {
    if k == 0 then EMPTY
    else
      assert StepOk(cs, steps, k - 1);
      Next(HistoryAt(cs, steps, k - 1), cs[k - 1], steps[k - 1])
  }

  lemma {:induction false} RunInv(cs: seq<Cluster>, steps: seq<Step>, k: nat)
    requires IsTimelyRun(cs, steps) && k <= |steps|
    ensures Inv(cs[k], HistoryAt(cs, steps, k))
  {
    if k == 0 {
      InitInv(cs[0]);
    } else {
      RunInv(cs, steps, k - 1);
      assert StepOk(cs, steps, k - 1) && TimelyAt(cs, steps, k - 1);
      StepKeeps(cs[k - 1], cs[k], HistoryAt(cs, steps, k - 1), HistoryAt(cs, steps, k), steps[k - 1]);
    }
  }

  // ---------------------------------------------------------------------------------------
  // Histories only grow

  lemma WinFresh(c: Cluster, h: History, pk: Packet)
    requires Inv(c, h) && Enabled(c, DeliverVoteReply(pk))
    requires var n := c.nodes[pk.vote.candidateId];
             n.state == Candidate && n.currentTerm == pk.vote.term && Elects(n, pk.vote, pk.voteReply)
    ensures pk.vote.term !in h.reigns
  {
    VoteCountedInv(c, h, pk);
    var h1 := CountVote(h, pk.vote.term, pk.vote.candidateId, pk.peer);
    CountedFresh(VoteCounted(c, pk), h1, pk.vote.candidateId, pk.vote.term);
  }

  lemma CountedFresh(c: Cluster, h: History, i: int, t: int)
    requires Inv(c, h) && i in c.nodes && c.nodes[i].state == Candidate && c.nodes[i].currentTerm == t
    requires t in c.nodes[i].votesReceived && c.nodes[i].votesReceived[t] * 2 > |c.nodes[i].peerIds| + 1
    ensures t !in h.reigns
  {
    NoSecondLeader(c, h, i);
  }

  lemma VoteRecorded(c: Cluster, h: History, pk: Packet)
    requires Enabled(c, DeliverVoteReply(pk)) && Timely(c, DeliverVoteReply(pk))
    requires c.nodes[pk.vote.candidateId].state == Candidate && Elects(c.nodes[pk.vote.candidateId], pk.vote, pk.voteReply) ==>
               pk.vote.term !in h.reigns
    ensures Extends(h, Next(h, c, DeliverVoteReply(pk)))
  {
  }

  lemma VoteReplyExtends(c: Cluster, h: History, pk: Packet)
    requires Inv(c, h) && Enabled(c, DeliverVoteReply(pk)) && Timely(c, DeliverVoteReply(pk))
    ensures Extends(h, Next(h, c, DeliverVoteReply(pk)))
  {
    var n := c.nodes[pk.vote.candidateId];
    if n.state == Candidate && Elects(n, pk.vote, pk.voteReply) {
      WinFresh(c, h, pk);
    }
    VoteRecorded(c, h, pk);
  }

  lemma SubmitExtends(c: Cluster, h: History, i: int, command: int)
    requires Leaders(c, h) && Enabled(c, ClientSubmit(i, command))
    ensures Extends(h, Next(h, c, ClientSubmit(i, command)))
  {
    if c.nodes[i].state == Leader {
      assert LeaderOk(c.nodes[i], h);
    }
  }

  lemma OtherExtends(c: Cluster, h: History, s: Step)
    requires Enabled(c, s) && !s.DeliverVoteReply? && !s.ClientSubmit?
    ensures Extends(h, Next(h, c, s))
  {
  }

  lemma NextExtends(c: Cluster, h: History, s: Step)
    requires Inv(c, h) && Enabled(c, s) && Timely(c, s)
    ensures Extends(h, Next(h, c, s))
  {
    if s.DeliverVoteReply? {
      VoteReplyExtends(c, h, s.pk);
    } else if s.ClientSubmit? {
      SubmitExtends(c, h, s.i, s.command);
    } else {
      OtherExtends(c, h, s);
    }
  }

  lemma ExtendsTrans(a: History, b: History, c: History)
    requires Extends(a, b) && Extends(b, c)
    ensures Extends(a, c)
  {
    forall t | t in a.reigns
      ensures t in c.reigns && c.reigns[t] == a.reigns[t].(log := c.reigns[t].log)
      ensures Agree(a.reigns[t].log, c.reigns[t].log, |a.reigns[t].log|)
      ensures forall k :: |a.reigns[t].log| <= k < |c.reigns[t].log| ==> c.reigns[t].log[k].term == t
    {
      assert t in b.reigns;
      forall k | |a.reigns[t].log| <= k < |c.reigns[t].log|
        ensures c.reigns[t].log[k].term == t
      {
        if k < |b.reigns[t].log| {
          assert b.reigns[t].log[k] == c.reigns[t].log[k];
        }
      }
    }
  }

  lemma StepAt(cs: seq<Cluster>, steps: seq<Step>, k: nat)
    requires IsTimelyRun(cs, steps) && k < |steps|
    ensures Enabled(cs[k], steps[k]) && Timely(cs[k], steps[k]) && cs[k + 1] == Apply(cs[k], steps[k])
    ensures HistoryAt(cs, steps, k + 1) == Next(HistoryAt(cs, steps, k), cs[k], steps[k])
  {
    assert StepOk(cs, steps, k) && TimelyAt(cs, steps, k);
  }

  lemma StepGrows(cs: seq<Cluster>, steps: seq<Step>, k: nat)
    requires IsTimelyRun(cs, steps) && k < |steps|
    ensures Extends(HistoryAt(cs, steps, k), HistoryAt(cs, steps, k + 1))
  {
    RunInv(cs, steps, k);
    StepAt(cs, steps, k);
    NextExtends(cs[k], HistoryAt(cs, steps, k), steps[k]);
  }

  /** Histories that grow from one to the next grow over any stretch. */
  lemma {:induction false} GrowsOver(hs: seq<History>, j: nat, k: nat)
    requires j <= k < |hs| && forall m :: 0 <= m < |hs| - 1 ==> GrowsAt(hs, m)
    ensures Extends(hs[j], hs[k])
    decreases k
  {
    if j < k {
      GrowsOver(hs, j, k - 1);
      assert GrowsAt(hs, k - 1);
      ExtendsTrans(hs[j], hs[k - 1], hs[k]);
    }
  }

  ghost predicate GrowsAt(hs: seq<History>, m: nat)
    requires m < |hs| - 1
  {
    Extends(hs[m], hs[m + 1])
  }

  lemma HistoryGrows(cs: seq<Cluster>, steps: seq<Step>, j: nat, k: nat)
    requires IsTimelyRun(cs, steps) && j <= k <= |steps|
    ensures Extends(HistoryAt(cs, steps, j), HistoryAt(cs, steps, k))
  {
    var hs := seq(|steps| + 1, m requires 0 <= m <= |steps| => HistoryAt(cs, steps, m));
    forall m | 0 <= m < |hs| - 1
      ensures GrowsAt(hs, m)
    {
      StepGrows(cs, steps, m);
    }
    GrowsOver(hs, j, k);
  }

  lemma {:induction false} SameMembers(cs: seq<Cluster>, steps: seq<Step>, k: nat)
    requires IsRun(cs, steps) && k <= |steps|
    ensures cs[k].nodes.Keys == cs[0].nodes.Keys
  {
    if k > 0 {
      SameMembers(cs, steps, k - 1);
      assert StepOk(cs, steps, k - 1);
      ApplyMembers(cs[k - 1], steps[k - 1]);
    }
  }

  lemma MembersStay(cs: seq<Cluster>, steps: seq<Step>, j: nat, k: nat)
    requires IsRun(cs, steps) && j <= |steps| && k <= |steps|
    ensures cs[j].nodes.Keys == cs[k].nodes.Keys
  {
    SameMembers(cs, steps, j);
    SameMembers(cs, steps, k);
  }

  lemma ApplyMembers(c: Cluster, s: Step)
    requires Enabled(c, s)
    ensures Apply(c, s).nodes.Keys == c.nodes.Keys
  {
  }

  /** Append calls and their replies stay in the network. */
  lemma AppendsStay(c: Cluster, s: Step, pk: Packet)
    requires Enabled(c, s) && pk in c.net && (pk.AppendReq? || pk.AppendRep?)
    ensures pk in Apply(c, s).net
  {
  }

  lemma {:induction false} RunAppendsStay(cs: seq<Cluster>, steps: seq<Step>, j: nat, k: nat, pk: Packet)
    requires IsRun(cs, steps) && j <= k <= |steps| && pk in cs[j].net && (pk.AppendReq? || pk.AppendRep?)
    ensures pk in cs[k].net
    decreases k
  {
    if j < k {
      RunAppendsStay(cs, steps, j, k - 1, pk);
      assert StepOk(cs, steps, k - 1);
      AppendsStay(cs[k - 1], steps[k - 1], pk);
    }
  }

  // ---------------------------------------------------------------------------------------
  // The theorems

  /** At most one node is ever the leader of a given term, over the whole run. */
  lemma ElectionSafety(cs: seq<Cluster>, steps: seq<Step>, j: nat, k: nat, a: int, b: int)
    requires IsTimelyRun(cs, steps) && j <= |steps| && k <= |steps|
    requires a in cs[j].nodes && cs[j].nodes[a].state == Leader
    requires b in cs[k].nodes && cs[k].nodes[b].state == Leader
    requires cs[j].nodes[a].currentTerm == cs[k].nodes[b].currentTerm
    ensures a == b
  {
    LeaderOfTerm(cs, steps, j, a);
    LeaderOfTerm(cs, steps, k, b);
    if j <= k {
      HistoryGrows(cs, steps, j, k);
    } else {
      HistoryGrows(cs, steps, k, j);
    }
  }

  // The parts of the invariant that the theorems use.

  lemma RunLogs(cs: seq<Cluster>, steps: seq<Step>, k: nat)
    requires IsTimelyRun(cs, steps) && k <= |steps|
    ensures var h := HistoryAt(cs, steps, k); Reigns(cs[k], h) && Logs(cs[k], h) && VoterLogs(h)
  {
    RunInv(cs, steps, k);
  }

  lemma RunCommits(cs: seq<Cluster>, steps: seq<Step>, k: nat)
    requires IsTimelyRun(cs, steps) && k <= |steps|
    ensures Commits(cs[k], HistoryAt(cs, steps, k)) && Deliveries(cs[k])
  {
    RunInv(cs, steps, k);
  }

  lemma RunLeaders(cs: seq<Cluster>, steps: seq<Step>, k: nat)
    requires IsTimelyRun(cs, steps) && k <= |steps|
    ensures Leaders(cs[k], HistoryAt(cs, steps, k)) && Acks(cs[k], HistoryAt(cs, steps, k)) && Config(cs[k])
  {
    RunInv(cs, steps, k);
  }

  lemma LeaderOfTerm(cs: seq<Cluster>, steps: seq<Step>, k: nat, a: int)
    requires IsTimelyRun(cs, steps) && k <= |steps|
    requires a in cs[k].nodes && cs[k].nodes[a].state == Leader
    ensures var h, t := HistoryAt(cs, steps, k), cs[k].nodes[a].currentTerm;
            t in h.reigns && h.reigns[t].leader == a && h.reigns[t].log == cs[k].nodes[a].log
  {
    RunLeaders(cs, steps, k);
    assert LeaderOk(cs[k].nodes[a], HistoryAt(cs, steps, k));
  }

  lemma OriginLater(cs: seq<Cluster>, steps: seq<Step>, j: nat, k: nat, a: int)
    requires IsTimelyRun(cs, steps) && j <= k <= |steps| && a in cs[j].nodes
    ensures Origin(HistoryAt(cs, steps, k), cs[j].nodes[a].log)
  {
    RunLogs(cs, steps, j);
    HistoryGrows(cs, steps, j, k);
    OriginMono(HistoryAt(cs, steps, j), HistoryAt(cs, steps, k), cs[j].nodes[a].log);
  }

  /** Two logs, at any two times, that hold the same term at the same index are identical up to it. */
  lemma LogMatching(cs: seq<Cluster>, steps: seq<Step>, j: nat, k: nat, a: int, b: int, i: nat)
    requires IsTimelyRun(cs, steps) && j <= |steps| && k <= |steps|
    requires a in cs[j].nodes && b in cs[k].nodes
    requires i < |cs[j].nodes[a].log| && i < |cs[k].nodes[b].log|
    requires cs[j].nodes[a].log[i].term == cs[k].nodes[b].log[i].term
    ensures cs[j].nodes[a].log[..i + 1] == cs[k].nodes[b].log[..i + 1]
  {
    var m := if j < k then k else j;
    OriginLater(cs, steps, j, m, a);
    OriginLater(cs, steps, k, m, b);
    OriginMatch(HistoryAt(cs, steps, m), cs[j].nodes[a].log, cs[k].nodes[b].log, i);
  }

  lemma RunCommitOk(cs: seq<Cluster>, steps: seq<Step>, j: nat, a: int)
    requires IsTimelyRun(cs, steps) && j <= |steps| && a in cs[j].nodes
    ensures CommitOk(HistoryAt(cs, steps, j), cs[j].nodes.Keys, cs[j].nodes[a])
  {
    RunCommits(cs, steps, j);
  }

  lemma CommittedLater(cs: seq<Cluster>, steps: seq<Step>, j: nat, k: nat, a: int)
    requires IsTimelyRun(cs, steps) && j <= k <= |steps|
    requires a in cs[j].nodes && cs[j].nodes[a].commitIndex >= 0
    ensures cs[j].nodes[a].commitIndex < |cs[j].nodes[a].log|
    ensures CommittedPrefix(HistoryAt(cs, steps, k), cs[k].nodes.Keys, cs[j].nodes[a].log,
                            cs[j].nodes[a].commitIndex + 1, cs[j].nodes[a].currentTerm)
  {
    RunCommitOk(cs, steps, j, a);
    HistoryGrows(cs, steps, j, k);
    MembersStay(cs, steps, j, k);
    CommitGrows(HistoryAt(cs, steps, j), HistoryAt(cs, steps, k), cs[j].nodes.Keys, cs[j].nodes[a]);
  }

  lemma CommitGrows(h: History, h': History, members: set<int>, n: Node)
    requires Extends(h, h') && CommitOk(h, members, n) && n.commitIndex >= 0
    ensures CommittedPrefix(h', members, n.log, n.commitIndex + 1, n.currentTerm)
  {
    CommittedPrefixMono(h, h', members, n.log, n.commitIndex + 1, n.currentTerm, n.currentTerm);
  }

  lemma RunAgree(cs: seq<Cluster>, steps: seq<Step>, m: nat, a: Node, b: Node, i: nat)
    requires IsTimelyRun(cs, steps) && m <= |steps| && i <= a.commitIndex && i <= b.commitIndex
    requires CommittedPrefix(HistoryAt(cs, steps, m), cs[m].nodes.Keys, a.log, a.commitIndex + 1, a.currentTerm)
    requires CommittedPrefix(HistoryAt(cs, steps, m), cs[m].nodes.Keys, b.log, b.commitIndex + 1, b.currentTerm)
    ensures i < |a.log| && i < |b.log| && a.log[i] == b.log[i]
  {
    RunLogs(cs, steps, m);
    CommittedNodesAgree(cs[m], HistoryAt(cs, steps, m), a, b, i);
  }

  lemma RunInReign(cs: seq<Cluster>, steps: seq<Step>, m: nat, n: Node, u: int)
    requires IsTimelyRun(cs, steps) && m <= |steps| && u in HistoryAt(cs, steps, m).reigns && n.currentTerm <= u
    requires CommittedPrefix(HistoryAt(cs, steps, m), cs[m].nodes.Keys, n.log, n.commitIndex + 1, n.currentTerm)
    ensures Agree(n.log, HistoryAt(cs, steps, m).reigns[u].log, n.commitIndex + 1)
    ensures ReignLog(HistoryAt(cs, steps, m).reigns[u], u)
  {
    RunLogs(cs, steps, m);
    CommittedInLaterLeader(cs[m], HistoryAt(cs, steps, m), n, u);
  }

  /** Any two nodes, at any two times, agree on every index both take for committed. */
  lemma StateMachineSafety(cs: seq<Cluster>, steps: seq<Step>, j: nat, k: nat, a: int, b: int, i: nat)
    requires IsTimelyRun(cs, steps) && j <= |steps| && k <= |steps|
    requires a in cs[j].nodes && b in cs[k].nodes
    requires i <= cs[j].nodes[a].commitIndex && i <= cs[k].nodes[b].commitIndex
    ensures i < |cs[j].nodes[a].log| && i < |cs[k].nodes[b].log|
    ensures cs[j].nodes[a].log[i] == cs[k].nodes[b].log[i]
  {
    var m := if j < k then k else j;
    CommittedLater(cs, steps, j, m, a);
    CommittedLater(cs, steps, k, m, b);
    RunAgree(cs, steps, m, cs[j].nodes[a], cs[k].nodes[b], i);
  }

  /** What a node has committed is in the final log of the leader of any term no earlier than its own. */
  lemma CommittedInReign(cs: seq<Cluster>, steps: seq<Step>, j: nat, m: nat, a: int, u: int)
    requires IsTimelyRun(cs, steps) && j <= m <= |steps|
    requires a in cs[j].nodes && cs[j].nodes[a].commitIndex >= 0 && cs[j].nodes[a].currentTerm <= u
    requires u in HistoryAt(cs, steps, m).reigns
    ensures Agree(cs[j].nodes[a].log, HistoryAt(cs, steps, m).reigns[u].log, cs[j].nodes[a].commitIndex + 1)
    ensures ReignLog(HistoryAt(cs, steps, m).reigns[u], u)
  {
    CommittedLater(cs, steps, j, m, a);
    RunInReign(cs, steps, m, cs[j].nodes[a], u);
  }

  /** An entry committed in an earlier term was already in the log with which the leader was elected. */
  lemma BelowElection(a: Log, r: Reign, u: int, i: nat)
    requires ReignLog(r, u) && Agree(a, r.log, i + 1) && a[i].term < u
    ensures i < |r.electLog| && a[i] == r.electLog[i]
  {
  }

  /** What any node takes for committed in a term is in the log of every leader of a later term, at whatever time,
      and in the log of the leader of that term from then on. */
  lemma LeaderCompleteness(cs: seq<Cluster>, steps: seq<Step>, j: nat, k: nat, a: int, b: int, i: nat)
    requires IsTimelyRun(cs, steps) && j <= |steps| && k <= |steps|
    requires a in cs[j].nodes && i <= cs[j].nodes[a].commitIndex
    requires b in cs[k].nodes && cs[k].nodes[b].state == Leader
    requires cs[j].nodes[a].currentTerm < cs[k].nodes[b].currentTerm
             || (cs[j].nodes[a].currentTerm == cs[k].nodes[b].currentTerm && j <= k)
    ensures i < |cs[j].nodes[a].log| && i < |cs[k].nodes[b].log|
    ensures cs[j].nodes[a].log[i] == cs[k].nodes[b].log[i]
  {
    var u := cs[k].nodes[b].currentTerm;
    LeaderOfTerm(cs, steps, k, b);
    if j <= k {
      CommittedInReign(cs, steps, j, k, a, u);
    } else {
      var hk, hj := HistoryAt(cs, steps, k), HistoryAt(cs, steps, j);
      HistoryGrows(cs, steps, k, j);
      CommittedInReign(cs, steps, j, j, a, u);
      RunLogs(cs, steps, j);
      assert cs[j].nodes[a].log[i].term <= cs[j].nodes[a].currentTerm;
      BelowElection(cs[j].nodes[a].log, hj.reigns[u], u, i);
      RunLogs(cs, steps, k);
      assert ReignOk(cs[k], hk, u);
    }
  }

  /** What a node has delivered carries the indices 0, 1, 2, ... and is its log up to there. */
  lemma DeliveredIsLog(cs: seq<Cluster>, steps: seq<Step>, k: nat, a: int)
    requires IsTimelyRun(cs, steps) && k <= |steps| && a in cs[k].nodes
    ensures |cs[k].nodes[a].delivered| - 1 <= cs[k].nodes[a].lastApplied <= cs[k].nodes[a].commitIndex < |cs[k].nodes[a].log|
    ensures forall i :: 0 <= i < |cs[k].nodes[a].delivered| ==>
      && cs[k].nodes[a].delivered[i].index == i
      && cs[k].nodes[a].delivered[i].command == cs[k].nodes[a].log[i].command
  {
    RunCommits(cs, steps, k);
    assert DeliveryOk(cs[k].nodes[a]);
  }

  /** No two nodes ever deliver different commands at one index. */
  lemma DeliverySafety(cs: seq<Cluster>, steps: seq<Step>, j: nat, k: nat, a: int, b: int, i: nat)
    requires IsTimelyRun(cs, steps) && j <= |steps| && k <= |steps|
    requires a in cs[j].nodes && b in cs[k].nodes
    requires i < |cs[j].nodes[a].delivered| && i < |cs[k].nodes[b].delivered|
    ensures cs[j].nodes[a].delivered[i].index == cs[k].nodes[b].delivered[i].index == i
    ensures cs[j].nodes[a].delivered[i].command == cs[k].nodes[b].delivered[i].command
  {
    DeliveredIsLog(cs, steps, j, a);
    DeliveredIsLog(cs, steps, k, b);
    StateMachineSafety(cs, steps, j, k, a, b, i);
  }

  /** A leader may build a request for any peer at any time: the slice of its log is in range. */
  lemma SendInRange(cs: seq<Cluster>, steps: seq<Step>, k: nat, a: int, p: int)
    requires IsTimelyRun(cs, steps) && k <= |steps|
    requires a in cs[k].nodes && cs[k].nodes[a].state == Leader && p in cs[k].nodes[a].peerIds
    ensures NextInRange(cs[k].nodes[a], p)
    ensures -1 <= Lookup(cs[k].nodes[a].matchIndex, p) < |cs[k].nodes[a].log|
  {
    RunLeaders(cs, steps, k);
    assert LeaderOk(cs[k].nodes[a], HistoryAt(cs, steps, k));
    assert PeerOk(cs[k].nodes[a], HistoryAt(cs, steps, k), p);
  }

  /** While a peer is in the leader's term, it holds the leader's log through `matchIndex`. */
  lemma ReplicationSoundness(cs: seq<Cluster>, steps: seq<Step>, k: nat, a: int, p: int)
    requires IsTimelyRun(cs, steps) && k <= |steps|
    requires a in cs[k].nodes && cs[k].nodes[a].state == Leader && p in cs[k].nodes[a].peerIds
    requires p in cs[k].nodes && cs[k].nodes[p].currentTerm == cs[k].nodes[a].currentTerm
    ensures var m := Lookup(cs[k].nodes[a].matchIndex, p);
            && -1 <= m < |cs[k].nodes[a].log| && m < |cs[k].nodes[p].log|
            && cs[k].nodes[p].log[..m + 1] == cs[k].nodes[a].log[..m + 1]
  {
    RunLeaders(cs, steps, k);
    var h := HistoryAt(cs, steps, k);
    MatchHeld(cs[k], h, a, p);
  }

  lemma MatchHeld(c: Cluster, h: History, a: int, p: int)
    requires Leaders(c, h) && Acks(c, h) && a in c.nodes && c.nodes[a].state == Leader && p in c.nodes[a].peerIds
    requires p in c.nodes && c.nodes[p].currentTerm == c.nodes[a].currentTerm
    ensures var m := Lookup(c.nodes[a].matchIndex, p);
            && -1 <= m < |c.nodes[a].log| && m < |c.nodes[p].log|
            && c.nodes[p].log[..m + 1] == c.nodes[a].log[..m + 1]
  {
    var n, t := c.nodes[a], c.nodes[a].currentTerm;
    assert LeaderOk(n, h) && PeerOk(n, h, p);
    var m := n.matchIndex[p];
    if m >= 0 {
      assert AckOk(c, h, Seat(t, p));
      assert Keeps(h, c.nodes[p].log, t, m + 1, t + 1);
      assert Agree(c.nodes[p].log, n.log, m + 1);
    }
  }
}
