/** What becomes of a module that was stopped. */
module CraftStopped {
  import opened CraftNode
  import opened CraftCluster
  import opened CraftSafety
  import opened CraftProgress
  import CraftVotes

  /** A reply to an append call of node `a` comes in that is ahead of it in term. */
  predicate Revives(c: Cluster, s: Step, a: int) {
    && s.DeliverAppendReply? && s.pk.AppendRep? && s.pk.append.leaderId == a
    && a in c.nodes && s.pk.appendReply.term > c.nodes[a].currentTerm
  }

  /** Nothing that the others depend on has changed. */
  predicate Frozen(n: Node, n': Node) {
    && n'.state == Dead && n'.currentTerm == n.currentTerm && n'.votedFor == n.votedFor
    && n'.log == n.log && n'.commitIndex == n.commitIndex
  }

  lemma StoppedStep(c: Cluster, s: Step, a: int)
    requires Enabled(c, s) && a in c.nodes && c.nodes[a].state == Dead
    ensures Frozen(c.nodes[a], Apply(c, s).nodes[a]) <==> !Revives(c, s, a)
    ensures Apply(c, s).nodes[a].state == Dead <==> !Revives(c, s, a)
  {
  }

  /** From time `j` to time `k` node `a` is stopped and frozen. */
  ghost predicate FrozenFrom(cs: seq<Cluster>, j: nat, k: nat, a: int)
    requires j <= k < |cs| && a in cs[j].nodes
  {
    forall m :: j <= m <= k ==> a in cs[m].nodes && Frozen(cs[j].nodes[a], cs[m].nodes[a])
  }

  /** A module that was stopped votes for nobody, takes no entries, commits nothing and stays stopped, over any stretch of a
      run, if and only if no reply to one of its own append calls comes in that is ahead of it in term: on such a reply it
      becomes a follower again. */
  lemma {:induction false} StoppedIff(cs: seq<Cluster>, steps: seq<Step>, j: nat, k: nat, a: int)
    requires IsRun(cs, steps) && j <= k <= |steps| && a in cs[j].nodes && cs[j].nodes[a].state == Dead
    ensures FrozenFrom(cs, j, k, a) <==> forall m :: j <= m < k ==> !Revives(cs[m], steps[m], a)
    decreases k
  {
    if j < k {
      StoppedIff(cs, steps, j, k - 1, a);
      MembersStay(cs, steps, j, k - 1);
      MembersStay(cs, steps, j, k);
      assert StepOk(cs, steps, k - 1);
      if FrozenFrom(cs, j, k - 1, a) {
        StoppedStep(cs[k - 1], steps[k - 1], a);
        FrozenFurther(cs, j, k, a);
      }
    }
  }

  lemma FrozenFurther(cs: seq<Cluster>, j: nat, k: nat, a: int)
    requires j < k < |cs| && a in cs[j].nodes && a in cs[k - 1].nodes && a in cs[k].nodes && FrozenFrom(cs, j, k - 1, a)
    ensures FrozenFrom(cs, j, k, a) <==> Frozen(cs[k - 1].nodes[a], cs[k].nodes[a])
  {
    assert Frozen(cs[j].nodes[a], cs[k - 1].nodes[a]);
  }

  /** A run in which a module comes back: it is stopped while its request is answered by a node of a later term. */
  lemma ComesBack() returns (cs: seq<Cluster>, steps: seq<Step>, k: nat)
    ensures IsTimelyRun(cs, steps) && k < |steps| && 0 in cs[k].nodes && 0 in Last(cs).nodes
    ensures cs[k].nodes[0].state == Dead && Last(cs).nodes[0].state == Follower
  {
    var req;
    cs, steps, req := CraftVotes.RivalLeads();
    cs, steps := OneStep(cs, steps, Timeout(2));
    cs, steps := OneStep(cs, steps, DeliverAppend(AppendReq(2, req)));
    cs, steps := OneStep(cs, steps, Halt(0));
    k := |steps|;
    ghost var c := Last(cs);
    CommitIsIndex(cs, steps, 0);
    cs, steps := OneStep(cs, steps, DeliverAppendReply(AppendRep(2, req, AppendReply(2, false, 0, 0))));
    assert cs[k] == c;
  }
}
