/** What can still happen: from every state of a run a leader can bring a peer up to date and commit what it has. */
module CraftProgress {
  import opened CraftNode
  import opened CraftCluster
  import opened CraftHistory
  import CraftMonotone
  import opened CraftSafety
  import opened CraftRuns
  import opened CraftBackup

  function Last(cs: seq<Cluster>): Cluster
    requires cs != []
  {
    cs[|cs| - 1]
  }

  /** The second run is the first one, gone on with. */
  ghost predicate Continues(cs: seq<Cluster>, steps: seq<Step>, cs': seq<Cluster>, steps': seq<Step>) {
    IsTimelyRun(cs', steps') && cs <= cs' && steps <= steps'
  }

  lemma OneStep(cs: seq<Cluster>, steps: seq<Step>, s: Step) returns (cs': seq<Cluster>, steps': seq<Step>)
    requires IsTimelyRun(cs, steps) && Enabled(Last(cs), s) && Timely(Last(cs), s)
    ensures Continues(cs, steps, cs', steps')
    ensures |steps'| == |steps| + 1 && steps'[|steps|] == s && Last(cs') == Apply(Last(cs), s)
  {
    cs', steps' := cs + [Apply(Last(cs), s)], steps + [s];
    forall k | 0 <= k < |steps'|
      ensures StepOk(cs', steps', k) && TimelyAt(cs', steps', k)
    {
      assert cs'[k] == cs[k];
      if k < |steps| {
        assert StepOk(cs, steps, k) && TimelyAt(cs, steps, k);
      }
    }
  }

  // ---------------------------------------------------------------------------------------
  // One round between a leader and a peer

  /** What a peer that is not ahead of the leader becomes when it gets the leader's request. */
  function Peered(l: Node, f: Node, p: int): (Node, AppendReply)
    requires NextInRange(l, p)
  {
    HandleAppendEntries(f, MakeAppendRequest(l, p))
  }

  /** What the leader becomes when it gets the reply. */
  function Answered(l: Node, f: Node, p: int): Node
    requires NextInRange(l, p) && l.commitIndex >= -1
  {
    HandleAppendReply(l, p, MakeAppendRequest(l, p), Peered(l, f, p).1)
  }

  lemma PeerFollows(l: Node, f: Node, p: int)
    requires NextInRange(l, p) && f.currentTerm <= l.currentTerm
    ensures var (f', rep) := Peered(l, f, p);
            && f'.currentTerm == rep.term == l.currentTerm && f'.state == Follower
            && (rep.success <==> !Refused(l.log, f.log, Lookup(l.nextIndex, p)))
            && (!rep.success ==> f'.log == f.log && f'.commitIndex == f.commitIndex
                                 && rep == Refusal(l.log, f.log, Lookup(l.nextIndex, p), l.currentTerm))
  {
    HandleAsFollower(f, MakeAppendRequest(l, p));
    RoundIsModel(l, Following(f, l.currentTerm), p);
  }

  /** An accepted request tells the peer how far the leader has committed. */
  lemma PeerLearns(l: Node, f: Node, p: int)
    requires NextInRange(l, p) && f.currentTerm <= l.currentTerm && l.commitIndex < |l.log|
    requires !Refused(l.log, f.log, Lookup(l.nextIndex, p))
    ensures Peered(l, f, p).0.commitIndex == Max(f.commitIndex, l.commitIndex)
  {
    var req, n := MakeAppendRequest(l, p), Following(f, l.currentTerm);
    HandleAsFollower(f, req);
    PeerFollows(l, f, p);
    assert PrevMatches(n.log, req);
    AcceptedForm(n, req);
  }

  lemma RefusedRound(l: Node, f: Node, p: int)
    requires NextInRange(l, p) && l.commitIndex >= -1 && l.state == Leader && f.currentTerm <= l.currentTerm
    requires Refused(l.log, f.log, Lookup(l.nextIndex, p))
    ensures var next := FastNext(l.log, f.log, Lookup(l.nextIndex, p));
            Answered(l, f, p) == l.(nextIndex := l.nextIndex[p := next])
  {
    PeerFollows(l, f, p);
  }

  lemma AcceptedRound(l: Node, f: Node, p: int)
    requires NextInRange(l, p) && l.commitIndex >= -1 && l.state == Leader && f.currentTerm <= l.currentTerm
    requires !Refused(l.log, f.log, Lookup(l.nextIndex, p))
    ensures var l' := Answered(l, f, p);
            && l' == l.(nextIndex := l.nextIndex[p := |l.log|], matchIndex := l.matchIndex[p := |l.log| - 1],
                        commitIndex := l'.commitIndex)
            && l'.commitIndex == CommitScan(l'.(commitIndex := l.commitIndex), |l.log|)
  {
    PeerFollows(l, f, p);
    var req := MakeAppendRequest(l, p);
    assert req.prevLogIndex + 1 + |req.entries| == |l.log|;
  }

  /** The leader and the peer can have a round. */
  ghost predicate Ready(c: Cluster, a: int, p: int) {
    && a in c.nodes && p in c.nodes && a != p
    && c.nodes[a].state == Leader && c.nodes[a].id == a && p in c.nodes[a].peerIds
    && c.nodes[p].state != Dead && c.nodes[p].currentTerm <= c.nodes[a].currentTerm
  }

  lemma SendStep(c: Cluster, a: int, p: int)
    requires Ready(c, a, p) && NextInRange(c.nodes[a], p)
    ensures Enabled(c, SendAppend(a, p)) && Timely(c, SendAppend(a, p))
    ensures var c1 := Apply(c, SendAppend(a, p));
            c1.nodes == c.nodes && AppendReq(p, MakeAppendRequest(c.nodes[a], p)) in c1.net
  {
  }

  lemma DeliverStep(c: Cluster, a: int, p: int)
    requires Ready(c, a, p) && NextInRange(c.nodes[a], p)
    requires AppendReq(p, MakeAppendRequest(c.nodes[a], p)) in c.net
    ensures var s := DeliverAppend(AppendReq(p, MakeAppendRequest(c.nodes[a], p)));
            && Enabled(c, s) && Timely(c, s)
            && var c1 := Apply(c, s);
               && c1.nodes == c.nodes[p := Peered(c.nodes[a], c.nodes[p], p).0]
               && AppendRep(p, MakeAppendRequest(c.nodes[a], p), Peered(c.nodes[a], c.nodes[p], p).1) in c1.net
  {
  }

  lemma ReplyStep(c: Cluster, a: int, p: int, req: AppendRequest, rep: AppendReply)
    requires a in c.nodes && c.nodes[a].commitIndex >= -1 && AppendRep(p, req, rep) in c.net
    requires req.leaderId == a && req.term == c.nodes[a].currentTerm
    ensures var s := DeliverAppendReply(AppendRep(p, req, rep));
            && Enabled(c, s) && Timely(c, s)
            && Apply(c, s).nodes == c.nodes[a := HandleAppendReply(c.nodes[a], p, req, rep)]
  {
  }

  /** A request, its delivery and the delivery of the reply. */
  lemma Round(cs: seq<Cluster>, steps: seq<Step>, a: int, p: int) returns (cs': seq<Cluster>, steps': seq<Step>)
    requires IsTimelyRun(cs, steps) && Ready(Last(cs), a, p)
    ensures NextInRange(Last(cs).nodes[a], p) && -1 <= Last(cs).nodes[a].commitIndex < |Last(cs).nodes[a].log|
    ensures Continues(cs, steps, cs', steps') && |steps'| == |steps| + 3
    ensures var l, f := Last(cs).nodes[a], Last(cs).nodes[p];
            Last(cs').nodes == Last(cs).nodes[p := Peered(l, f, p).0][a := Answered(l, f, p)]
  {
    var c := Last(cs);
    var l, f := c.nodes[a], c.nodes[p];
    SendInRange(cs, steps, |steps|, a, p);
    DeliveredIsLog(cs, steps, |steps|, a);
    CommitIsIndex(cs, steps, a);
    SendStep(c, a, p);
    var cs1, steps1 := OneStep(cs, steps, SendAppend(a, p));
    var req := MakeAppendRequest(l, p);
    DeliverStep(Last(cs1), a, p);
    var cs2, steps2 := OneStep(cs1, steps1, DeliverAppend(AppendReq(p, req)));
    var rep := Peered(l, f, p).1;
    ReplyStep(Last(cs2), a, p, req, rep);
    cs', steps' := OneStep(cs2, steps2, DeliverAppendReply(AppendRep(p, req, rep)));
  }

  lemma CommitIsIndex(cs: seq<Cluster>, steps: seq<Step>, a: int)
    requires IsTimelyRun(cs, steps) && a in Last(cs).nodes
    ensures -1 <= Last(cs).nodes[a].commitIndex < |Last(cs).nodes[a].log|
  {
    RunCommits(cs, steps, |steps|);
    assert CommitOk(HistoryAt(cs, steps, |steps|), Last(cs).nodes.Keys, Last(cs).nodes[a]);
  }

  // ---------------------------------------------------------------------------------------
  // Catching up

  /** The leader goes on as leader with the same log, and nobody but it and the peer has changed. */
  ghost predicate OnlyPeer(c: Cluster, c': Cluster, a: int, p: int) {
    && a in c.nodes && p in c.nodes && c'.nodes.Keys == c.nodes.Keys
    && (forall i :: i in c.nodes && i != a && i != p ==> c'.nodes[i] == c.nodes[i])
    && var l, l' := c.nodes[a], c'.nodes[a];
       && l'.state == l.state && l'.currentTerm == l.currentTerm && l'.log == l.log && l'.id == l.id && l'.peerIds == l.peerIds
  }

  /** Then the peer is known to hold the whole log of the leader, which has scanned it for commitment. */
  ghost predicate CaughtUp(c: Cluster, c': Cluster, a: int, p: int) {
    && OnlyPeer(c, c', a, p)
    && c'.nodes[p].state == Follower && c'.nodes[p].currentTerm == c.nodes[a].currentTerm
    && c'.nodes[p].commitIndex == Max(c.nodes[p].commitIndex, c.nodes[a].commitIndex)
    && var l, l' := c.nodes[a], c'.nodes[a];
       && l'.matchIndex == l.matchIndex[p := |l.log| - 1]
       && -1 <= l.commitIndex && l'.commitIndex == CommitScan(l'.(commitIndex := l.commitIndex), |l.log|)
  }

  ghost predicate AfterRound(c: Cluster, c': Cluster, a: int, p: int) {
    && Ready(c, a, p) && NextInRange(c.nodes[a], p) && -1 <= c.nodes[a].commitIndex < |c.nodes[a].log|
    && c'.nodes == c.nodes[p := Peered(c.nodes[a], c.nodes[p], p).0][a := Answered(c.nodes[a], c.nodes[p], p)]
  }

  lemma AcceptedEnd(c: Cluster, c': Cluster, a: int, p: int)
    requires AfterRound(c, c', a, p) && !Refused(c.nodes[a].log, c.nodes[p].log, Lookup(c.nodes[a].nextIndex, p))
    ensures CaughtUp(c, c', a, p)
  {
    PeerFollows(c.nodes[a], c.nodes[p], p);
    PeerLearns(c.nodes[a], c.nodes[p], p);
    AcceptedRound(c.nodes[a], c.nodes[p], p);
  }

  /** Only the next index of the peer has moved, by the fast rule. */
  ghost predicate SteppedBack(c: Cluster, c': Cluster, a: int, p: int) {
    && Ready(c', a, p) && OnlyPeer(c, c', a, p)
    && 0 <= Lookup(c.nodes[a].nextIndex, p) <= |c.nodes[a].log|
    && Refused(c.nodes[a].log, c.nodes[p].log, Lookup(c.nodes[a].nextIndex, p))
    && var next := FastNext(c.nodes[a].log, c.nodes[p].log, Lookup(c.nodes[a].nextIndex, p));
       && c'.nodes[a] == c.nodes[a].(nextIndex := c.nodes[a].nextIndex[p := next])
       && c'.nodes[p].log == c.nodes[p].log && c'.nodes[p].commitIndex == c.nodes[p].commitIndex
  }

  lemma RefusedEnd(c: Cluster, c': Cluster, a: int, p: int)
    requires AfterRound(c, c', a, p) && Refused(c.nodes[a].log, c.nodes[p].log, Lookup(c.nodes[a].nextIndex, p))
    ensures SteppedBack(c, c', a, p)
  {
    PeerFollows(c.nodes[a], c.nodes[p], p);
    RefusedRound(c.nodes[a], c.nodes[p], p);
  }

  lemma Chain(c: Cluster, c1: Cluster, c2: Cluster, a: int, p: int)
    requires SteppedBack(c, c1, a, p) && CaughtUp(c1, c2, a, p)
    ensures CaughtUp(c, c2, a, p)
  {
    assert c2.nodes[a].(commitIndex := c1.nodes[a].commitIndex) == c2.nodes[a].(commitIndex := c.nodes[a].commitIndex);
  }

  lemma ContinuesFurther(cs: seq<Cluster>, steps: seq<Step>, cs1: seq<Cluster>, steps1: seq<Step>,
                         cs2: seq<Cluster>, steps2: seq<Step>)
    requires Continues(cs, steps, cs1, steps1) && Continues(cs1, steps1, cs2, steps2)
    ensures Continues(cs, steps, cs2, steps2)
  {
  }

  /** The number of refused rounds that are left. */
  ghost function RoundsLeft(c: Cluster, a: int, p: int): nat
    requires Ready(c, a, p) && NextInRange(c.nodes[a], p) && Searchable(c.nodes[a].log, c.nodes[p].log)
  {
    FastSearch(c.nodes[a].log, c.nodes[p].log, Lookup(c.nodes[a].nextIndex, p)).0
  }

  lemma FewerRounds(c: Cluster, c': Cluster, a: int, p: int)
    requires Ready(c, a, p) && SteppedBack(c, c', a, p) && Searchable(c.nodes[a].log, c.nodes[p].log)
    ensures NextInRange(c.nodes[a], p) && NextInRange(c'.nodes[a], p)
    ensures Searchable(c'.nodes[a].log, c'.nodes[p].log) && RoundsLeft(c, a, p) == RoundsLeft(c', a, p) + 1
    ensures 0 <= Lookup(c'.nodes[a].nextIndex, p) < Lookup(c.nodes[a].nextIndex, p)
  {
    FastRound(c.nodes[a].log, c.nodes[p].log, Lookup(c.nodes[a].nextIndex, p));
  }

  lemma CanStart(cs: seq<Cluster>, steps: seq<Step>, a: int, p: int)
    requires IsTimelyRun(cs, steps) && Ready(Last(cs), a, p)
    ensures NextInRange(Last(cs).nodes[a], p) && Searchable(Last(cs).nodes[a].log, Last(cs).nodes[p].log)
  {
    SendInRange(cs, steps, |steps|, a, p);
    RunSearchable(cs, steps, |steps|, |steps|, a, p);
  }

  /** A peer that is alive and not ahead in term can be brought up to date: in as many rounds as the fast search is
      refused, and one more. */
  lemma {:induction false} CatchesUp(cs: seq<Cluster>, steps: seq<Step>, a: int, p: int)
    returns (cs': seq<Cluster>, steps': seq<Step>)
    requires IsTimelyRun(cs, steps) && Ready(Last(cs), a, p)
    ensures Continues(cs, steps, cs', steps') && CaughtUp(Last(cs), Last(cs'), a, p)
    ensures NextInRange(Last(cs).nodes[a], p) && Searchable(Last(cs).nodes[a].log, Last(cs).nodes[p].log)
    ensures |steps'| == |steps| + 3 * (RoundsLeft(Last(cs), a, p) + 1)
    decreases Lookup(Last(cs).nodes[a].nextIndex, p)
  {
    CanStart(cs, steps, a, p);
    var c := Last(cs);
    var cs1, steps1 := Round(cs, steps, a, p);
    if Refused(c.nodes[a].log, c.nodes[p].log, Lookup(c.nodes[a].nextIndex, p)) {
      RefusedEnd(c, Last(cs1), a, p);
      FewerRounds(c, Last(cs1), a, p);
      cs', steps' := CatchesUp(cs1, steps1, a, p);
      Chain(c, Last(cs1), Last(cs'), a, p);
      ContinuesFurther(cs, steps, cs1, steps1, cs', steps');
    } else {
      AcceptedEnd(c, Last(cs1), a, p);
      cs', steps' := cs1, steps1;
    }
  }

  /** And then it holds the leader's whole log. */
  lemma CaughtUpHolds(cs: seq<Cluster>, steps: seq<Step>, c: Cluster, a: int, p: int)
    requires IsTimelyRun(cs, steps) && CaughtUp(c, Last(cs), a, p) && Ready(c, a, p)
    ensures c.nodes[a].log <= Last(cs).nodes[p].log
  {
    ReplicationSoundness(cs, steps, |steps|, a, p);
    var l, f := c.nodes[a].log, Last(cs).nodes[p].log;
    assert l[..|l|] == l && f[..|l|] == l;
  }

  // ---------------------------------------------------------------------------------------
  // Committing

  /** Every one of the peers can have a round with the leader. */
  ghost predicate AllReady(c: Cluster, a: int, ps: seq<int>) {
    forall k :: 0 <= k < |ps| ==> Ready(c, a, ps[k])
  }

  predicate Distinct(ps: seq<int>) {
    forall i, j :: 0 <= i < j < |ps| ==> ps[i] != ps[j]
  }

  /** The leader knows that each of the peers holds its whole log. */
  ghost predicate AllMatched(c: Cluster, a: int, ps: seq<int>) {
    a in c.nodes && forall k :: 0 <= k < |ps| ==> Lookup(c.nodes[a].matchIndex, ps[k]) == |c.nodes[a].log| - 1
  }

  /** Nobody outside has changed. */
  ghost predicate OnlyAmong(c: Cluster, c': Cluster, a: int, ps: seq<int>) {
    c'.nodes.Keys == c.nodes.Keys && forall i :: i in c.nodes && i != a && i !in ps ==> c'.nodes[i] == c.nodes[i]
  }

  /** The leader leads on with the same log. */
  ghost predicate SameLeader(c: Cluster, c': Cluster, a: int) {
    && a in c.nodes && a in c'.nodes
    && var l, l' := c.nodes[a], c'.nodes[a];
       && l'.state == l.state && l'.currentTerm == l.currentTerm && l'.log == l.log && l'.peerIds == l.peerIds
  }

  lemma StillReady(c: Cluster, c': Cluster, a: int, ps: seq<int>, k: nat)
    requires k < |ps| && Distinct(ps) && AllReady(c, a, ps) && CaughtUp(c, c', a, ps[k])
    ensures AllReady(c', a, ps)
    ensures AllMatched(c, a, ps[..k]) ==> AllMatched(c', a, ps[..k + 1])
  {
    forall j | 0 <= j < |ps|
      ensures Ready(c', a, ps[j])
    {
      assert Ready(c, a, ps[j]);
    }
  }

  /** All the peers are brought up to date, one after the other. */
  lemma {:induction false} AllCatchUp(cs: seq<Cluster>, steps: seq<Step>, a: int, ps: seq<int>, k: nat)
    returns (cs': seq<Cluster>, steps': seq<Step>)
    requires IsTimelyRun(cs, steps) && a in Last(cs).nodes
    requires k <= |ps| && Distinct(ps) && AllReady(Last(cs), a, ps)
    ensures Continues(cs, steps, cs', steps') && SameLeader(Last(cs), Last(cs'), a) && OnlyAmong(Last(cs), Last(cs'), a, ps)
    ensures AllReady(Last(cs'), a, ps) && AllMatched(Last(cs'), a, ps[..k])
    ensures k > 0 ==> Scanned(Last(cs').nodes[a])
  {
    if k == 0 {
      cs', steps' := cs, steps;
    } else {
      var cs1, steps1 := AllCatchUp(cs, steps, a, ps, k - 1);
      var c1 := Last(cs1);
      assert Ready(c1, a, ps[k - 1]);
      cs', steps' := CatchesUp(cs1, steps1, a, ps[k - 1]);
      StillReady(c1, Last(cs'), a, ps, k - 1);
      ContinuesFurther(cs, steps, cs1, steps1, cs', steps');
      ScanEnds(c1.nodes[a].commitIndex, Last(cs').nodes[a]);
    }
  }

  /** The commit index is past every index that may be committed. */
  ghost predicate Scanned(l: Node) {
    forall i :: 0 <= i < |l.log| && l.commitIndex < i ==> !Committable(l, i)
  }

  lemma ScanEnds(before: int, l: Node)
    requires before >= -1 && l.commitIndex == CommitScan(l.(commitIndex := before), |l.log|)
    ensures Scanned(l)
  {
    forall i | 0 <= i < |l.log| && l.commitIndex < i
      ensures !Committable(l, i)
    {
      assert Matching(l, i) == Matching(l.(commitIndex := before), i);
      assert !Committable(l.(commitIndex := before), i);
    }
  }

  lemma {:induction false} DistinctSize(ps: seq<int>)
    requires Distinct(ps)
    ensures |set p | p in ps| == |ps|
  {
    if ps != [] {
      var n := |ps| - 1;
      DistinctSize(ps[..n]);
      assert (set p | p in ps) == (set p | p in ps[..n]) + {ps[n]};
    }
  }

  lemma MatchedCommits(l: Node, ps: seq<int>, i: nat)
    requires Distinct(ps) && (forall k :: 0 <= k < |ps| ==> ps[k] in l.peerIds && Lookup(l.matchIndex, ps[k]) >= i)
    requires i < |l.log| && l.log[i].term == l.currentTerm && (1 + |ps|) * 2 > |l.peerIds| + 1
    ensures Committable(l, i)
  {
    DistinctSize(ps);
    CraftMonotone.SubsetSize((set p | p in ps), Matching(l, i));
  }

  /** From every state of a run, a leader whose last entry is of its own term can commit its whole log, if enough peers
      to make a majority are alive and not ahead of it in term. */
  lemma LeaderCanCommit(cs: seq<Cluster>, steps: seq<Step>, a: int, ps: seq<int>)
    returns (cs': seq<Cluster>, steps': seq<Step>)
    requires IsTimelyRun(cs, steps) && a in Last(cs).nodes && Distinct(ps) && AllReady(Last(cs), a, ps)
    requires var l := Last(cs).nodes[a];
             && l.log != [] && l.log[|l.log| - 1].term == l.currentTerm
             && ps != [] && (1 + |ps|) * 2 > |l.peerIds| + 1
    ensures Continues(cs, steps, cs', steps') && SameLeader(Last(cs), Last(cs'), a) && OnlyAmong(Last(cs), Last(cs'), a, ps)
    ensures Last(cs').nodes[a].commitIndex == |Last(cs).nodes[a].log| - 1 && AllReady(Last(cs'), a, ps)
  {
    cs', steps' := AllCatchUp(cs, steps, a, ps, |ps|);
    assert ps[..|ps|] == ps;
    var l' := Last(cs').nodes[a];
    CommitIsIndex(cs', steps', a);
    forall k | 0 <= k < |ps|
      ensures ps[k] in l'.peerIds && Lookup(l'.matchIndex, ps[k]) >= |l'.log| - 1
    {
      assert Ready(Last(cs'), a, ps[k]);
    }
    MatchedCommits(l', ps, |l'.log| - 1);
  }

  /** So any command that is given to the leader can be committed, at the index at which it was put. */
  lemma CommandCanCommit(cs: seq<Cluster>, steps: seq<Step>, a: int, ps: seq<int>, command: int)
    returns (cs': seq<Cluster>, steps': seq<Step>)
    requires IsTimelyRun(cs, steps) && a in Last(cs).nodes && Distinct(ps) && AllReady(Last(cs), a, ps)
    requires ps != [] && (1 + |ps|) * 2 > |Last(cs).nodes[a].peerIds| + 1
    ensures Continues(cs, steps, cs', steps') && a in Last(cs').nodes && OnlyAmong(Last(cs), Last(cs'), a, ps)
    ensures var l, l' := Last(cs).nodes[a], Last(cs').nodes[a];
            l'.log == l.log + [Entry(command, l.currentTerm)] && l'.commitIndex == |l.log|
    ensures AllReady(Last(cs'), a, ps) && Last(cs').nodes[a].currentTerm == Last(cs).nodes[a].currentTerm
  {
    assert Ready(Last(cs), a, ps[0]);
    var cs1, steps1 := OneStep(cs, steps, ClientSubmit(a, command));
    SubmitReady(Last(cs), a, ps, command);
    cs', steps' := LeaderCanCommit(cs1, steps1, a, ps);
    ContinuesFurther(cs, steps, cs1, steps1, cs', steps');
  }

  lemma SubmitReady(c: Cluster, a: int, ps: seq<int>, command: int)
    requires AllReady(c, a, ps) && a in c.nodes && c.nodes[a].state == Leader
    ensures Enabled(c, ClientSubmit(a, command))
    ensures var c' := Apply(c, ClientSubmit(a, command));
            && AllReady(c', a, ps) && a in c'.nodes && OnlyAmong(c, c', a, ps)
            && c'.nodes[a] == c.nodes[a].(log := c.nodes[a].log + [Entry(command, c.nodes[a].currentTerm)])
  {
    var c' := Apply(c, ClientSubmit(a, command));
    forall k | 0 <= k < |ps|
      ensures Ready(c', a, ps[k])
    {
      assert Ready(c, a, ps[k]);
    }
  }
}
