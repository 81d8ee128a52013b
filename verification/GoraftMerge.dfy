/** What the merge of an AppendEntries request into a follower's log is meant to give. */
module GoraftMerge {
  import opened GoraftDisk

  /** The log has, by term, entry `k` of those that start at index `next`. */
  predicate Has(log: Log, next: nat, entries: Log, k: nat)
    requires k < |entries|
  {
    next + k < |log| && log[next + k].term == entries[k].term
  }

  /** How many of the new entries the log already has, by term, from index `next` on. */
  function Divergence(log: Log, next: nat, entries: Log): (d: nat)
    ensures d <= |entries|
    ensures next + d <= |log| || d == 0
    ensures forall k :: 0 <= k < d ==> Has(log, next, entries, k)
    ensures d < |entries| ==> !Has(log, next, entries, d)
    decreases |entries|
  {
    if entries == [] || next >= |log| || log[next].term != entries[0].term then 0
    else
      assert forall k :: 0 < k < |entries| ==> Has(log, next, entries, k) == Has(log, next + 1, entries[1..], k - 1);
      1 + Divergence(log, next + 1, entries[1..])
  }

  /** The log is kept if it has all the entries; otherwise it is cut where it first differs and the rest is put there. */
  function Merged(log: Log, next: nat, entries: Log): Log
    requires next <= |log|
  {
    Patched(log, next, entries, Divergence(log, next, entries))
  }

  function Patched(log: Log, next: nat, entries: Log, d: nat): Log
    requires next + d <= |log| && d <= |entries|
  {
    if d == |entries| then log else log[..next + d] + entries[d..]
  }

  /** Two logs that come from leaders: equal terms at one index mean equal entries there. */
  predicate SameWhereTermsMatch(log: Log, next: nat, entries: Log) {
    forall k :: 0 <= k < |entries| && Has(log, next, entries, k) ==> log[next + k] == entries[k]
  }

  /** The merged log has the prefix, has the entries, and drops old entries only if one of them conflicts. */
  lemma MergedMeaning(log: Log, next: nat, entries: Log)
    requires next <= |log|
    ensures var r := Merged(log, next, entries);
            && |r| >= next + |entries|
            && r[..next] == log[..next]
            && (forall k :: 0 <= k < |entries| ==> Has(r, next, entries, k))
            && (SameWhereTermsMatch(log, next, entries) ==> r[next..next + |entries|] == entries)
            && (log <= r <==>
                forall k :: 0 <= k < |entries| && next + k < |log| ==> Has(log, next, entries, k))
  {
    var d := Divergence(log, next, entries);
    var r := Merged(log, next, entries);
    if d < |entries| && next + d < |log| {
      assert r[next + d] == entries[d];
    }
    forall k | 0 <= k < |entries|
      ensures Has(r, next, entries, k)
    {
      assert k < d ==> Has(log, next, entries, k);
      assert d < |entries| && d <= k ==> r[next + k] == entries[k];
    }
  }

  /** A request that arrives again changes nothing, and nothing is new in it. */
  lemma MergedTwice(log: Log, next: nat, entries: Log)
    requires next <= |log|
    ensures var r := Merged(log, next, entries);
            Divergence(r, next, entries) == |entries| && Merged(r, next, entries) == r
  {
    MergedMeaning(log, next, entries);
  }

  lemma {:induction false} DivergenceOfTwo(log: Log, next: nat, first: Log, second: Log)
    requires next <= |log|
    ensures var d := Divergence(log, next, first);
            Divergence(log, next, first + second) ==
              if d < |first| then d
              else d + Divergence(log, next + |first|, second)
    decreases |first|
  {
    var all := first + second;
    if first == [] {
      assert all == second;
    } else {
      assert all[0] == first[0] && all[1..] == first[1..] + second;
      if next < |log| {
        DivergenceOfTwo(log, next + 1, first[1..], second);
      }
    }
  }

  /** A leader sends a long log in batches: merging one batch after the other is merging all of it. */
  lemma MergedInBatches(log: Log, next: nat, first: Log, second: Log)
    requires next <= |log|
    ensures next + |first| <= |Merged(log, next, first)|
    ensures Merged(Merged(log, next, first), next + |first|, second) == Merged(log, next, first + second)
  {
    MergedLength(log, next, first);
    DivergenceOfTwo(log, next, first, second);
    var d := Divergence(log, next, first);
    if d < |first| {
      MergedBehind(Merged(log, next, first), second);
      CutInFirst(log, next, first, second, d);
    } else {
      CutInSecond(log, next, first, second, Divergence(log, next + |first|, second));
    }
  }

  lemma CutInFirst(log: Log, next: nat, first: Log, second: Log, d: nat)
    requires next + d <= |log| && d < |first|
    ensures Patched(log, next, first + second, d) == Patched(log, next, first, d) + second
    ensures |Patched(log, next, first, d)| == next + |first|
  {
    assert (first + second)[d..] == first[d..] + second;
  }

  lemma CutInSecond(log: Log, next: nat, first: Log, second: Log, d: nat)
    requires next + |first| + d <= |log| && d <= |second|
    ensures Patched(log, next, first + second, |first| + d) == Patched(log, next + |first|, second, d)
  {
    assert (first + second)[|first| + d..] == second[d..];
  }

  lemma MergedLength(log: Log, next: nat, entries: Log)
    requires next <= |log|
    ensures next + |entries| <= |Merged(log, next, entries)|
  {
  }

  lemma MergedBehind(log: Log, entries: Log)
    ensures Merged(log, |log|, entries) == log + entries
  {
    assert log[..|log|] == log && entries[0..] == entries;
  }
}
