/** How a leader finds the point where a follower's log leaves its own: the fast search that jumps over
    whole terms, against the simple one that goes back one index at a time. */
module CraftBackup {
  import opened CraftNode
  import opened CraftCluster
  import opened CraftHistory
  import opened CraftMonotone
  import opened CraftCompleteness
  import opened CraftSafety

  ghost predicate Sorted(log: Log) {
    forall i, j :: 0 <= i <= j < |log| ==> log[i].term <= log[j].term
  }

  /** Where both logs have entries of one term, they agree as far as the shorter stretch goes. */
  ghost predicate Kin(a: Log, b: Log) {
    forall i, j :: 0 <= i < |a| && 0 <= j < |b| && a[i].term == b[j].term ==>
      Agree(a, b, if i < j then i + 1 else j + 1)
  }

  /** The length of the longest common prefix. */
  function CommonLen(a: Log, b: Log): (r: nat)
    ensures Agree(a, b, r)
    ensures r < |a| && r < |b| ==> a[r] != b[r]
  {
    if a == [] || b == [] || a[0] != b[0] then 0
    else
      var r := CommonLen(a[1..], b[1..]);
      assert forall j :: 0 < j < r + 1 ==> a[j] == a[1..][j - 1] && b[j] == b[1..][j - 1];
      r + 1
  }

  /** A follower with log `f` refuses a request that starts at `ni` of the leader's log `l`. */
  predicate Refused(l: Log, f: Log, ni: int)
    requires 0 <= ni <= |l|
  {
    ni > 0 && !(ni - 1 < |f| && l[ni - 1].term == f[ni - 1].term)
  }

  function Refusal(l: Log, f: Log, ni: int, term: int): AppendReply
    requires 0 <= ni <= |l| && Refused(l, f, ni)
  {
    if ni - 1 >= |f| then AppendReply(term, false, |f|, -1)
    else AppendReply(term, false, ConflictStart(f, ni - 1, f[ni - 1].term), f[ni - 1].term)
  }

  /** The index that the leader tries after a refusal: craft, by the hints in the reply. */
  function FastNext(l: Log, f: Log, ni: int): int
    requires 0 <= ni <= |l| && Refused(l, f, ni)
  {
    BackUp(l, Refusal(l, f, ni, 0))
  }

  /** The simple form: one index back. */
  function LinearNext(ni: int): int {
    ni - 1
  }

  /** These are the answers and the reactions of the modules themselves. */
  lemma RoundIsModel(leader: Node, follower: Node, peer: int)
    requires NextInRange(leader, peer)
    ensures var ni := Lookup(leader.nextIndex, peer);
            var rep := FollowerAppend(follower, MakeAppendRequest(leader, peer)).1;
            && (rep.success <==> !Refused(leader.log, follower.log, ni))
            && (!rep.success ==> rep == Refusal(leader.log, follower.log, ni, follower.currentTerm)
                                 && BackUp(leader.log, rep) == FastNext(leader.log, follower.log, ni))
  {
  }

  // ---------------------------------------------------------------------------------------
  // One round

  /** A request is refused exactly if it starts beyond the common prefix. */
  lemma RefusedIff(l: Log, f: Log, ni: int)
    requires Kin(l, f) && 0 <= ni <= |l|
    ensures Refused(l, f, ni) <==> ni > CommonLen(l, f)
  {
    if ni > 0 && ni - 1 < |f| && l[ni - 1].term == f[ni - 1].term {
      assert Agree(l, f, ni);
    }
  }

  predicate LeaderHasConflictTerm(l: Log, f: Log, ni: int)
    requires 0 < ni <= |l|
  {
    ni - 1 < |f| && exists e :: 0 <= e < |l| && l[e].term == f[ni - 1].term
  }

  /** A refused round lowers the next index, and never below the point where the logs part. If the leader has the
      conflicting term, it lands on that point. */
  lemma FastRound(l: Log, f: Log, ni: int)
    requires Kin(l, f) && Sorted(f) && (forall j :: 0 <= j < |f| ==> f[j].term >= 0)
    requires 0 <= ni <= |l| && Refused(l, f, ni)
    ensures CommonLen(l, f) <= FastNext(l, f, ni) < ni
    ensures LeaderHasConflictTerm(l, f, ni) ==> FastNext(l, f, ni) == CommonLen(l, f)
  {
    var d := CommonLen(l, f);
    RefusedIff(l, f, ni);
    if ni - 1 < |f| {
      var t := f[ni - 1].term;
      var e := LastIndexOfTerm(l, |l|, t);
      if e >= 0 {
        assert Agree(l, f, if e < ni - 1 then e + 1 else ni);
        assert e < ni - 1;
        assert f[e].term <= f[e + 1].term <= t;
        assert d == e + 1;
      } else {
        LacksTerm(l, f, ni, t);
      }
    }
  }

  lemma LacksTerm(l: Log, f: Log, ni: int, t: int)
    requires 0 < ni <= |l| && ni - 1 < |f| && f[ni - 1].term == t
    requires forall j :: 0 <= j < |l| ==> l[j].term != t
    ensures CommonLen(l, f) <= ConflictStart(f, ni - 1, t)
  {
    var d, s := CommonLen(l, f), ConflictStart(f, ni - 1, t);
    assert f[s].term == t;
  }

  /** Log matching at equal indices is not enough: without the common origin of the terms, a refused round
      can raise the next index. */
  lemma MatchingIsNotEnough() returns (l: Log, f: Log, ni: int)
    ensures Sorted(l) && Sorted(f) && 0 <= ni <= |l| && Refused(l, f, ni)
    ensures forall k :: 0 <= k < |l| && k < |f| && l[k].term == f[k].term ==> Agree(l, f, k + 1)
    ensures FastNext(l, f, ni) > ni
  {
    l := [Entry(7, 1), Entry(7, 1), Entry(7, 2)];
    f := [Entry(7, 1), Entry(7, 2)];
    ni := 2;
    assert LastIndexOfTerm(l, |l|, 2) == 2;
  }

  /** Exactly when a refused round lowers the next index, for any two logs. */
  lemma LowersIff(l: Log, f: Log, ni: int)
    requires 0 <= ni <= |l| && Refused(l, f, ni) && (forall j :: 0 <= j < |f| ==> f[j].term >= 0)
    ensures FastNext(l, f, ni) < ni <==> !(ni - 1 < |f| && exists e :: ni <= e < |l| && l[e].term == f[ni - 1].term)
  {
    if ni - 1 < |f| {
      var t := f[ni - 1].term;
      var e := LastIndexOfTerm(l, |l|, t);
      assert e >= 0 ==> l[e].term == t;
      assert l[ni - 1].term != t;
    }
  }

  // ---------------------------------------------------------------------------------------
  // The whole search

  ghost predicate Searchable(l: Log, f: Log) {
    Kin(l, f) && Sorted(f) && forall j :: 0 <= j < |f| ==> f[j].term >= 0
  }

  /** The number of refused rounds, and the index at which a request is accepted. */
  ghost function FastSearch(l: Log, f: Log, ni: int): (r: (nat, int))
    requires Searchable(l, f) && 0 <= ni <= |l|
    decreases ni
  {
    if Refused(l, f, ni) then
      FastRound(l, f, ni);
      var r := FastSearch(l, f, FastNext(l, f, ni));
      (r.0 + 1, r.1)
    else (0, ni)
  }

  ghost function LinearSearch(l: Log, f: Log, ni: int): (r: (nat, int))
    requires 0 <= ni <= |l|
    decreases ni
  {
    if Refused(l, f, ni) then
      var r := LinearSearch(l, f, LinearNext(ni));
      (r.0 + 1, r.1)
    else (0, ni)
  }

  lemma {:induction false} LinearEnds(l: Log, f: Log, ni: int)
    requires Searchable(l, f) && 0 <= ni <= |l|
    ensures var d := CommonLen(l, f);
            LinearSearch(l, f, ni) == if ni > d then (ni - d, d) else (0, ni)
    decreases ni
  {
    RefusedIff(l, f, ni);
    if Refused(l, f, ni) {
      LinearEnds(l, f, LinearNext(ni));
    }
  }

  /** The fast search ends where the simple one ends, after no more rounds. */
  lemma {:induction false} FastRefinesLinear(l: Log, f: Log, ni: int)
    requires Searchable(l, f) && 0 <= ni <= |l|
    ensures FastSearch(l, f, ni).1 == LinearSearch(l, f, ni).1 == Min(ni, CommonLen(l, f))
    ensures FastSearch(l, f, ni).0 <= LinearSearch(l, f, ni).0
    decreases ni
  {
    LinearEnds(l, f, ni);
    RefusedIff(l, f, ni);
    if Refused(l, f, ni) {
      FastRound(l, f, ni);
      FastRefinesLinear(l, f, FastNext(l, f, ni));
      LinearEnds(l, f, FastNext(l, f, ni));
    }
  }

  /** The terms of the first `k` entries of `f` that the leader does not have. */
  ghost function ForeignTerms(l: Log, f: Log, k: int): set<int>
    requires k <= |f|
  {
    set j | 0 <= j < k && (forall e :: 0 <= e < |l| ==> l[e].term != f[j].term) :: f[j].term
  }

  lemma FewerForeign(l: Log, f: Log, ni: int)
    requires Sorted(f) && 0 < ni <= |l| && ni <= |f|
    requires forall e :: 0 <= e < |l| ==> l[e].term != f[ni - 1].term
    ensures |ForeignTerms(l, f, ConflictStart(f, ni - 1, f[ni - 1].term))| < |ForeignTerms(l, f, ni)|
  {
    var t := f[ni - 1].term;
    var s := ConflictStart(f, ni - 1, t);
    var few, all := ForeignTerms(l, f, s), ForeignTerms(l, f, ni);
    assert t in all;
    assert forall j :: 0 <= j < s ==> f[j].term <= f[s - 1].term < t;
    assert t !in few && few <= all;
    SubsetSize(few + {t}, all);
  }

  /** One refused round for each term that only the follower has, one to get inside its log and one more. */
  lemma {:induction false} RoundsPerTerm(l: Log, f: Log, ni: int)
    requires Searchable(l, f) && 0 <= ni <= |l| && ni <= |f|
    ensures FastSearch(l, f, ni).0 <= 1 + |ForeignTerms(l, f, ni)|
    decreases ni
  {
    RefusedIff(l, f, ni);
    if Refused(l, f, ni) {
      FastRound(l, f, ni);
      var t := f[ni - 1].term;
      var e := LastIndexOfTerm(l, |l|, t);
      if e >= 0 {
        RefusedIff(l, f, FastNext(l, f, ni));
      } else {
        FewerForeign(l, f, ni);
        RoundsPerTerm(l, f, FastNext(l, f, ni));
      }
    }
  }

  lemma RoundsPerTermAny(l: Log, f: Log, ni: int)
    requires Searchable(l, f) && 0 <= ni <= |l|
    ensures FastSearch(l, f, ni).0 <= 2 + |ForeignTerms(l, f, if ni < |f| then ni else |f|)|
  {
    if ni <= |f| {
      RoundsPerTerm(l, f, ni);
    } else {
      FastRound(l, f, ni);
      RoundsPerTerm(l, f, |f|);
    }
  }

  // ---------------------------------------------------------------------------------------
  // Every pair of logs of a run is searchable

  lemma RunSearchable(cs: seq<Cluster>, steps: seq<Step>, j: nat, k: nat, a: int, b: int)
    requires IsTimelyRun(cs, steps) && j <= |steps| && k <= |steps|
    requires a in cs[j].nodes && b in cs[k].nodes
    ensures Searchable(cs[j].nodes[a].log, cs[k].nodes[b].log)
  {
    var m := if j < k then k else j;
    OriginLater(cs, steps, j, m, a);
    OriginLater(cs, steps, k, m, b);
    RunLogs(cs, steps, m);
    ReignLogsOf(cs[m], HistoryAt(cs, steps, m));
    forall t | t in HistoryAt(cs, steps, m).reigns
      ensures t >= 0
    {
      assert ReignOk(cs[m], HistoryAt(cs, steps, m), t);
    }
    OriginSearchable(HistoryAt(cs, steps, m), cs[j].nodes[a].log, cs[k].nodes[b].log);
  }

  lemma OriginSearchable(h: History, l: Log, f: Log)
    requires Origin(h, l) && Origin(h, f) && ReignLogs(h) && forall t :: t in h.reigns ==> t >= 0
    ensures Searchable(l, f)
  {
    forall i, j | 0 <= i <= j < |f|
      ensures f[i].term <= f[j].term
    {
      OriginSorted(h, f, i, j);
    }
    forall i, j | 0 <= i < |l| && 0 <= j < |f| && l[i].term == f[j].term
      ensures Agree(l, f, if i < j then i + 1 else j + 1)
    {
      var r := h.reigns[l[i].term].log;
      assert Agree(l, r, i + 1) && Agree(f, r, j + 1);
    }
  }
}
