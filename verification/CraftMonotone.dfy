/** What stays true of a history when more is recorded, and the counting argument behind
    every majority. */
module CraftMonotone {
  import opened CraftNode
  import opened CraftHistory

  lemma Pick<T>(a: set<T>) returns (x: T)
    requires a != {}
    ensures x in a
  {
    x :| x in a;
  }

  lemma {:induction false} SubsetSize<T>(a: set<T>, b: set<T>)
    requires a <= b
    ensures |a| <= |b|
  {
    if a != {} {
      var x :| x in a;
      SubsetSize(a - {x}, b - {x});
    }
  }

  /** Two majorities of the same members share a member. */
  lemma QuorumsMeet(a: set<int>, b: set<int>, members: set<int>) returns (p: int)
    requires a <= members && b <= members
    requires 2 * |a| > |members| && 2 * |b| > |members|
    ensures p in a && p in b
  {
    SubsetSize(a + b, members);
    assert |a + b| == |a| + |b| - |a * b|;
    p := Pick(a * b);
  }

  lemma OriginMono(h: History, h': History, log: Log)
    requires Extends(h, h') && Origin(h, log)
    ensures Origin(h', log)
  {
  }

  lemma HoldersMono(h: History, h': History, members: set<int>, t: int, k: int)
    requires Extends(h, h')
    ensures |Holders(h, members, t, k)| <= |Holders(h', members, t, k)|
  {
    SubsetSize(Holders(h, members, t, k), Holders(h', members, t, k));
  }

  lemma CommittedMono(h: History, h': History, members: set<int>, t: int, i: int)
    requires Extends(h, h') && Committed(h, members, t, i)
    ensures Committed(h', members, t, i)
  {
    HoldersMono(h, h', members, t, i + 1);
  }

  lemma CommittedPrefixMono(h: History, h': History, members: set<int>, log: Log, n: int, bound: int, bound': int)
    requires Extends(h, h') && CommittedPrefix(h, members, log, n, bound) && bound <= bound'
    ensures CommittedPrefix(h', members, log, n, bound')
  {
    var t, i :| CommittedBy(h, members, log, n, bound, t, i);
    CommittedMono(h, h', members, t, i);
    assert CommittedBy(h', members, log, n, bound', t, i);
  }

  /** The log is only asked for its first `n` entries. */
  lemma CommittedPrefixAgree(h: History, members: set<int>, a: Log, b: Log, n: int, bound: int)
    requires CommittedPrefix(h, members, a, n, bound) && Agree(a, b, n)
    ensures CommittedPrefix(h, members, b, n, bound)
  {
    var t, i :| CommittedBy(h, members, a, n, bound, t, i);
    assert CommittedBy(h, members, b, n, bound, t, i);
  }

  /** A leader that lacks a stretch of an earlier leader's log never gets it, for it only adds entries
      of its own term. */
  lemma SupersededMono(h: History, h': History, t: int, k: int, bound: int)
    requires Extends(h, h')
    requires t in h.reigns && ReignLog(h.reigns[t], t)
    requires 0 <= k <= |h.reigns[t].log|
    requires Superseded(h, t, k, bound)
    ensures Superseded(h', t, k, bound)
  {
    var u :| u in h.reigns && t < u < bound && !Agree(h.reigns[t].log, h.reigns[u].log, k);
    var l, m, l', m' := h.reigns[t].log, h.reigns[u].log, h'.reigns[t].log, h'.reigns[u].log;
    assert forall j :: 0 <= j < k ==> l'[j] == l[j] && l[j].term <= t;
    assert |m| < k && k <= |m'| ==> m'[|m|].term == u;
    assert !Agree(l', m', k);
  }

  lemma KeepsMono(h: History, h': History, log: Log, t: int, k: int, bound: int, bound': int)
    requires Extends(h, h') && bound <= bound'
    requires t in h.reigns && ReignLog(h.reigns[t], t)
    requires 0 <= k <= |h.reigns[t].log|
    requires Keeps(h, log, t, k, bound)
    ensures Keeps(h', log, t, k, bound')
  {
    if Superseded(h, t, k, bound) {
      SupersededMono(h, h', t, k, bound);
    }
  }

  lemma KeepsAllMono(h: History, h': History, log: Log, t: int, n: int, bound: int, bound': int)
    requires Extends(h, h') && bound <= bound'
    requires t in h.reigns && ReignLog(h.reigns[t], t)
    requires 0 <= n <= |h.reigns[t].log|
    requires KeepsAll(h, log, t, n, bound)
    ensures KeepsAll(h', log, t, n, bound')
  {
    forall k | 0 <= k <= n
      ensures Keeps(h', log, t, k, bound')
    {
      KeepsMono(h, h', log, t, k, bound, bound');
    }
  }

  /** Entries of one term at one index carry the same prefix, in any two logs of one history. */
  lemma OriginMatch(h: History, a: Log, b: Log, k: int)
    requires Origin(h, a) && Origin(h, b)
    requires 0 <= k < |a| && k < |b| && a[k].term == b[k].term
    ensures Agree(a, b, k + 1)
  {
  }

  /** Terms never decrease along a log. */
  lemma OriginSorted(h: History, log: Log, j: int, k: int)
    requires Origin(h, log) && 0 <= j <= k < |log|
    requires forall t :: t in h.reigns ==> ReignLog(h.reigns[t], t)
    ensures log[j].term <= log[k].term
  {
    var t := log[k].term;
    assert t in h.reigns && Agree(log, h.reigns[t].log, k + 1);
    assert log[j] == h.reigns[t].log[j];
  }
}
