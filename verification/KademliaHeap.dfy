/** The order of the heap in which a bucket keeps its contacts, and the steps that restore it. */
module KademliaHeap {
  import opened KademliaTable

  /** The contact ranks before the other: it started later, or at the same time and is nearer. */
  predicate Before(c: Contact, d: Contact) {
    if c.startTime == d.startTime then c.rtt < d.rtt else c.startTime > d.startTime
  }

  function Parent(i: nat): nat
    requires i > 0
  {
    (i - 1) / 2
  }

  /** The contact at `i` does not rank before its parent. */
  predicate Ordered(b: Bucket, i: nat)
    requires 0 < i < |b|
  {
    !Before(b[i], b[Parent(i)])
  }

  /** The first `n` contacts are a heap. */
  ghost predicate IsHeap(b: Bucket, n: nat)
    requires n <= |b|
  {
    forall i :: 0 < i < n ==> Ordered(b, i)
  }

  /** The first contact of a heap is the one that started last, and the nearest of those that started then. */
  lemma {:induction false} FirstRanksFirst(b: Bucket, i: nat)
    requires IsHeap(b, |b|) && i < |b|
    ensures b[i].startTime <= b[0].startTime && (b[i].startTime == b[0].startTime ==> b[0].rtt <= b[i].rtt)
    decreases i
  {
    if i > 0 {
      FirstRanksFirst(b, Parent(i));
      assert Ordered(b, i);
    }
  }

  function Swapped(b: Bucket, i: nat, j: nat): (r: Bucket)
    requires i < |b| && j < |b|
    ensures |r| == |b|
  {
    b[i := b[j]][j := b[i]]
  }

  // ---------------------------------------------------------------------------------------
  // What is in order while one contact is out of place

  /** The child of the contact at `j` does not rank before the parent of that contact. */
  predicate Bypassed(b: Bucket, j: nat, i: nat)
    requires 0 < i < |b| && j < |b|
  {
    j > 0 && Parent(i) == j ==> !Before(b[i], b[Parent(j)])
  }

  /** Everything is in order but for the contact at `j`, which may rank before its parent or after its children. */
  ghost predicate OutOfPlace(b: Bucket, j: nat, n: nat)
    requires j < n <= |b|
  {
    forall i :: 0 < i < n ==> (i != j && Parent(i) != j ==> Ordered(b, i)) && Bypassed(b, j, i)
  }

  /** It does not rank after its children. */
  ghost predicate ChildrenOrdered(b: Bucket, j: nat, n: nat)
    requires j < n <= |b|
  {
    forall i :: 0 < i < n && Parent(i) == j ==> Ordered(b, i)
  }

  predicate ParentOrdered(b: Bucket, j: nat)
    requires j < |b|
  {
    j > 0 ==> Ordered(b, j)
  }

  lemma InPlace(b: Bucket, j: nat, n: nat)
    requires j < n <= |b| && OutOfPlace(b, j, n) && ChildrenOrdered(b, j, n) && ParentOrdered(b, j)
    ensures IsHeap(b, n)
  {
  }

  lemma HeapIsInPlace(b: Bucket, j: nat, n: nat)
    requires j < n <= |b| && IsHeap(b, n)
    ensures OutOfPlace(b, j, n) && ChildrenOrdered(b, j, n) && ParentOrdered(b, j)
  {
    forall i | 0 < i < n
      ensures Bypassed(b, j, i)
    {
      assert Ordered(b, i);
      assert j > 0 ==> Ordered(b, j);
    }
  }

  /** A contact of a heap that is exchanged for another may be out of place. */
  lemma Exchange(b: Bucket, j: nat, c: Contact, n: nat)
    requires j < n <= |b| && IsHeap(b, n)
    ensures OutOfPlace(b[j := c], j, n)
  {
    HeapIsInPlace(b, j, n);
    var b' := b[j := c];
    forall i | 0 < i < n
      ensures (i != j && Parent(i) != j ==> Ordered(b', i)) && Bypassed(b', j, i)
    {
      assert Ordered(b, i) && Bypassed(b, j, i);
    }
  }

  /** A contact that ranks before its parent does not rank after its children. */
  lemma UpOrDown(b: Bucket, j: nat, n: nat)
    requires j < n <= |b| && OutOfPlace(b, j, n) && !ParentOrdered(b, j)
    ensures ChildrenOrdered(b, j, n)
  {
    forall i | 0 < i < n && Parent(i) == j
      ensures Ordered(b, i)
    {
      assert Bypassed(b, j, i);
    }
  }

  lemma UpStep(b: Bucket, j: nat, n: nat)
    requires 0 < j < n <= |b| && OutOfPlace(b, j, n) && ChildrenOrdered(b, j, n) && Before(b[j], b[Parent(j)])
    ensures var b' := Swapped(b, Parent(j), j);
            OutOfPlace(b', Parent(j), n) && ChildrenOrdered(b', Parent(j), n)
  {
    var p := Parent(j);
    var b' := Swapped(b, p, j);
    forall i | 0 < i < n
      ensures i != p && Parent(i) != p ==> Ordered(b', i)
      ensures Parent(i) == p ==> Ordered(b', i)
      ensures Bypassed(b', p, i)
    {
      UpStepAt(b, j, n, i);
    }
  }

  lemma UpStepAt(b: Bucket, j: nat, n: nat, i: nat)
    requires 0 < j < n <= |b| && OutOfPlace(b, j, n) && ChildrenOrdered(b, j, n) && Before(b[j], b[Parent(j)])
    requires 0 < i < n
    ensures var b', p := Swapped(b, Parent(j), j), Parent(j);
            (i != p ==> Ordered(b', i)) && Bypassed(b', p, i)
  {
    var p := Parent(j);
    var b' := Swapped(b, p, j);
    assert i != j && Parent(i) != j ==> Ordered(b, i);
    assert Bypassed(b, j, i) && (p > 0 ==> Ordered(b, p));
    assert Parent(i) == j ==> Ordered(b, i);
  }

  lemma DownStep(b: Bucket, j: nat, c: nat, n: nat)
    requires j < n <= |b| && OutOfPlace(b, j, n) && ParentOrdered(b, j)
    requires 0 < c < n && Parent(c) == j && Before(b[c], b[j])
    requires forall i :: 0 < i < n && Parent(i) == j ==> !Before(b[i], b[c])
    ensures var b' := Swapped(b, j, c);
            OutOfPlace(b', c, n) && ParentOrdered(b', c)
  {
    var b' := Swapped(b, j, c);
    forall i | 0 < i < n
      ensures (i != c && Parent(i) != c ==> Ordered(b', i)) && Bypassed(b', c, i)
    {
      assert i != j && Parent(i) != j ==> Ordered(b, i);
      assert Bypassed(b, j, i) && Bypassed(b, j, c);
    }
  }

  lemma NoChildren(b: Bucket, j: nat, n: nat)
    requires j < n <= |b| && 2 * j + 1 >= n
    ensures ChildrenOrdered(b, j, n)
  {
  }

  lemma NoChildBefore(b: Bucket, j: nat, c: nat, n: nat)
    requires j < n <= |b| && c < n && !Before(b[c], b[j])
    requires forall i :: 0 < i < n && Parent(i) == j ==> !Before(b[i], b[c])
    ensures ChildrenOrdered(b, j, n)
  {
  }

  lemma ChildBefore(b: Bucket, j: nat, c: nat, n: nat)
    requires j < n <= |b| && 0 < c < n && Parent(c) == j && Before(b[c], b[j])
    ensures !ChildrenOrdered(b, j, n)
  {
    assert !Ordered(b, c);
  }

  /** A contact that is put behind a heap has no children. */
  lemma PushedLast(b: Bucket, c: Contact)
    requires IsHeap(b, |b|)
    ensures OutOfPlace(b + [c], |b|, |b| + 1) && ChildrenOrdered(b + [c], |b|, |b| + 1)
  {
    var b' := b + [c];
    forall i | 0 < i < |b'|
      ensures (i != |b| && Parent(i) != |b| ==> Ordered(b', i)) && Bypassed(b', |b|, i)
    {
      assert i < |b| ==> Ordered(b, i);
    }
  }

  /** A contact of a heap that has changed places with the last one, which is cut off next. */
  lemma LastMovedTo(b: Bucket, i: nat)
    requires i + 1 < |b| && IsHeap(b, |b|)
    ensures OutOfPlace(Swapped(b, i, |b| - 1), i, |b| - 1)
  {
    var n := |b| - 1;
    Exchange(b, i, b[n], n);
    SameFirst(b[i := b[n]], Swapped(b, i, n), i, n);
  }

  lemma SameFirst(b: Bucket, b': Bucket, j: nat, n: nat)
    requires j < n <= |b| && n <= |b'| && (forall i :: 0 <= i < n ==> b'[i] == b[i]) && OutOfPlace(b, j, n)
    ensures OutOfPlace(b', j, n)
  {
    forall i | 0 < i < n
      ensures (i != j && Parent(i) != j ==> Ordered(b', i)) && Bypassed(b', j, i)
    {
      assert i != j && Parent(i) != j ==> Ordered(b, i);
      assert Bypassed(b, j, i);
    }
  }

  lemma CutHeap(b: Bucket, n: nat)
    requires n <= |b| && IsHeap(b, n)
    ensures IsHeap(b[..n], n)
  {
    forall i | 0 < i < n
      ensures Ordered(b[..n], i)
    {
      assert Ordered(b, i);
    }
  }
}
