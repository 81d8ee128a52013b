/** Leader completeness: what a majority has acknowledged in the leader's own term
    is in the log of every later leader. */
module CraftCompleteness {
  import opened CraftNode
  import opened CraftCluster
  import opened CraftHistory
  import opened CraftMonotone

  ghost predicate ReignLogs(h: History) {
    forall t :: t in h.reigns ==> ReignLog(h.reigns[t], t) && Origin(h, h.reigns[t].log)
  }

  lemma ReignLogsOf(c: Cluster, h: History)
    requires Reigns(c, h)
    ensures ReignLogs(h)
  {
    forall t | t in h.reigns
      ensures ReignLog(h.reigns[t], t) && Origin(h, h.reigns[t].log)
    {
      assert ReignOk(c, h, t);
    }
  }

  /** A log that is at least as up to date as one holding a committed entry holds it too, if the leaders of all
      terms it mentions do. */
  lemma UpToDateHolds(h: History, el: Log, vl: Log, term: int, i: int)
    requires ReignLogs(h) && Origin(h, el) && Origin(h, vl)
    requires term in h.reigns && 0 <= i < |h.reigns[term].log| && h.reigns[term].log[i].term == term
    requires Agree(vl, h.reigns[term].log, i + 1)
    requires UpToDate(LastLogIndex(el), LastLogTerm(el), vl)
    requires forall u :: u in h.reigns && term < u && u <= LastLogTerm(el) ==> Agree(h.reigns[term].log, h.reigns[u].log, i + 1)
    requires term >= 0
    ensures Agree(el, h.reigns[term].log, i + 1)
  {
    OriginSorted(h, vl, i, |vl| - 1);
    assert LastLogTerm(vl) >= term;
    var e := |el| - 1;
    assert el[e].term in h.reigns && Agree(el, h.reigns[el[e].term].log, e + 1);
    var t := el[e].term;
    if t > term {
      assert Agree(h.reigns[term].log, h.reigns[t].log, i + 1);
      ShortTerms(h, term, i);
      assert e > i;
    }
  }

  lemma ShortTerms(h: History, t: int, i: int)
    requires t in h.reigns && ReignLog(h.reigns[t], t) && 0 <= i < |h.reigns[t].log|
    ensures forall j :: 0 <= j <= i ==> h.reigns[t].log[j].term <= t
  {
  }

  /** The voter that links a committed entry to the election of `u` still had the entry when it voted. */
  lemma LinkingVoter(c: Cluster, h: History, t: int, i: int, u: int) returns (p: int)
    requires Reigns(c, h) && VoterLogs(h)
    requires Committed(h, c.nodes.Keys, t, i)
    requires u in h.reigns && t < u
    requires forall v :: v in h.reigns && t < v < u ==> Agree(h.reigns[t].log, h.reigns[v].log, i + 1)
    ensures p in h.reigns[u].quorum && Ballot(u, p, h.reigns[u].leader) in h.grants
    ensures Agree(h.grants[Ballot(u, p, h.reigns[u].leader)], h.reigns[t].log, i + 1)
  {
    assert ReignOk(c, h, u);
    p := QuorumsMeet(h.reigns[u].quorum, Holders(h, c.nodes.Keys, t, i + 1), c.nodes.Keys);
    var b, s := Ballot(u, p, h.reigns[u].leader), Seat(t, p);
    assert Effective(h, b);
    assert Keeps(h, h.grants[b], t, i + 1, u);
  }

  lemma {:induction false} LeaderHolds(c: Cluster, h: History, t: int, i: int, u: int)
    requires Reigns(c, h) && Logs(c, h) && VoterLogs(h)
    requires Committed(h, c.nodes.Keys, t, i)
    requires u in h.reigns && t < u
    ensures Agree(h.reigns[t].log, h.reigns[u].log, i + 1)
    decreases u
  {
    forall v | v in h.reigns && t < v < u
      ensures Agree(h.reigns[t].log, h.reigns[v].log, i + 1)
    {
      LeaderHolds(c, h, t, i, v);
    }
    ReignLogsOf(c, h);
    assert ReignOk(c, h, t);
    var p := LinkingVoter(c, h, t, i, u);
    var r := h.reigns[u];
    assert ReignOk(c, h, u);
    var vl := h.grants[Ballot(u, p, r.leader)];
    assert Origin(h, r.electLog) by {
      assert forall k :: 0 <= k < |r.electLog| ==> r.electLog[k] == r.log[k];
    }
    UpToDateHolds(h, r.electLog, vl, t, i);
  }

  /** A committed prefix is a prefix of the log of any leader whose term is no earlier. */
  lemma CommittedInLeader(c: Cluster, h: History, a: Log, n: int, u: int)
    requires Reigns(c, h) && Logs(c, h) && VoterLogs(h)
    requires CommittedPrefix(h, c.nodes.Keys, a, n, u) && u in h.reigns
    ensures Agree(a, h.reigns[u].log, n)
  {
    var t, i :| CommittedBy(h, c.nodes.Keys, a, n, u, t, i);
    if t < u {
      LeaderHolds(c, h, t, i, u);
    }
  }

  /** Two committed prefixes agree as far as both go: both are prefixes of one leader's log. */
  lemma CommittedAgree(c: Cluster, h: History, a: Log, n: int, ta: int, b: Log, m: int, tb: int)
    requires Reigns(c, h) && Logs(c, h) && VoterLogs(h)
    requires CommittedPrefix(h, c.nodes.Keys, a, n, ta) && CommittedPrefix(h, c.nodes.Keys, b, m, tb)
    ensures Agree(a, b, if n < m then n else m)
  {
    var t, i :| CommittedBy(h, c.nodes.Keys, a, n, ta, t, i);
    var u, j :| CommittedBy(h, c.nodes.Keys, b, m, tb, u, j);
    var v := if t < u then u else t;
    assert CommittedBy(h, c.nodes.Keys, a, n, v, t, i) && CommittedBy(h, c.nodes.Keys, b, m, v, u, j);
    CommittedInLeader(c, h, a, n, v);
    CommittedInLeader(c, h, b, m, v);
  }

  /** The same for a bound that may be earlier than the leader's term. */
  lemma CommittedInLaterLeader(c: Cluster, h: History, n: Node, u: int)
    requires Reigns(c, h) && Logs(c, h) && VoterLogs(h) && u in h.reigns && n.currentTerm <= u
    requires CommittedPrefix(h, c.nodes.Keys, n.log, n.commitIndex + 1, n.currentTerm)
    ensures Agree(n.log, h.reigns[u].log, n.commitIndex + 1) && ReignLog(h.reigns[u], u)
  {
    var t, i :| CommittedBy(h, c.nodes.Keys, n.log, n.commitIndex + 1, n.currentTerm, t, i);
    assert CommittedBy(h, c.nodes.Keys, n.log, n.commitIndex + 1, u, t, i);
    CommittedInLeader(c, h, n.log, n.commitIndex + 1, u);
    assert ReignOk(c, h, u);
  }

  lemma CommittedNodesAgree(c: Cluster, h: History, a: Node, b: Node, i: int)
    requires Reigns(c, h) && Logs(c, h) && VoterLogs(h) && 0 <= i <= a.commitIndex && i <= b.commitIndex
    requires CommittedPrefix(h, c.nodes.Keys, a.log, a.commitIndex + 1, a.currentTerm)
    requires CommittedPrefix(h, c.nodes.Keys, b.log, b.commitIndex + 1, b.currentTerm)
    ensures i < |a.log| && i < |b.log| && a.log[i] == b.log[i]
  {
    CommittedAgree(c, h, a.log, a.commitIndex + 1, a.currentTerm, b.log, b.commitIndex + 1, b.currentTerm);
  }
}
