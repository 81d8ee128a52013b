/** The routing table of a node: buckets that are heaps, changed in place. */
module KademliaNode {
  import opened KademliaKeys
  import opened KademliaTable
  import opened KademliaHeap
  import opened KademliaContents

  lemma SwapBag(s: Bucket, i: nat, j: nat)
    requires i < |s| && j < |s|
    ensures multiset(s[i := s[j]][j := s[i]]) == multiset(s)
  {
  }

  lemma WithoutBag(s: Bucket, i: nat)
    requires i < |s|
    ensures multiset(s) == multiset(s[..i] + s[i + 1..]) + multiset{s[i]}
  {
    assert s == s[..i] + [s[i]] + s[i + 1..];
  }

  lemma Cancel(a: multiset<Contact>, b: multiset<Contact>, c: multiset<Contact>)
    requires a + c == b + c
    ensures a == b
  {
    forall x
      ensures a[x] == b[x]
    {
      assert (a + c)[x] == (b + c)[x];
    }
  }

  /** A contact that was moved to the end and cut off is the only one that is gone. */
  lemma LastTaken(was: Bucket, now: Bucket, i: nat)
    requires Rearranged(was, now) && i < |was| == |now| && now[|now| - 1] == was[i]
    ensures Rearranged(was[..i] + was[i + 1..], now[..|now| - 1])
  {
    var n := |now| - 1;
    WithoutBag(was, i);
    WithoutBag(now, n);
    assert now[..n] + now[n + 1..] == now[..n];
    Cancel(multiset(was[..i] + was[i + 1..]), multiset(now[..n]), multiset{was[i]});
  }

  lemma FirstTaken(was: Bucket, now: Bucket)
    requires Rearranged(was, now) && 0 < |was| == |now| && now[|now| - 1] == was[0]
    ensures Rearranged(was[1..], now[..|now| - 1])
  {
    LastTaken(was, now, 0);
    assert was[..0] + was[1..] == was[1..];
  }

  class KBucket {
    var contacts: Bucket

    constructor ()
      ensures contacts == []
    {
      contacts := [];
    }

    // -------------------------------------------------------------------------------------
    // The heap: a contact that ranks before another is not among its children.

    predicate Less(i: nat, j: nat)
      requires i < |contacts| && j < |contacts|
      reads this
      ensures Less(i, j) <==> Before(contacts[i], contacts[j])
    {
      if contacts[i].startTime == contacts[j].startTime then contacts[i].rtt < contacts[j].rtt
      else contacts[i].startTime > contacts[j].startTime
    }

    method Swap(i: nat, j: nat)
      requires i < |contacts| && j < |contacts|
      modifies this
      ensures contacts == Swapped(old(contacts), i, j)
      ensures Rearranged(old(contacts), contacts)
    {
      SwapBag(contacts, i, j);
      contacts := contacts[i := contacts[j]][j := contacts[i]];
    }

    /** Moves the contact at `start` up while it ranks before its parent. If it was the only one out of place among the
        first `n`, and not because of its children, they are a heap then. */
    method Up(start: nat, ghost n: nat)
      requires start < n <= |contacts|
      modifies this
      ensures Rearranged(old(contacts), contacts) && |contacts| == |old(contacts)|
      ensures forall k :: start < k < |contacts| ==> contacts[k] == old(contacts)[k]
      ensures OutOfPlace(old(contacts), start, n) && ChildrenOrdered(old(contacts), start, n) ==> IsHeap(contacts, n)
    {
      var j := start;
      ghost var was := contacts;
      ghost var nearly := OutOfPlace(was, start, n) && ChildrenOrdered(was, start, n);
      while j > 0 && Less(j, (j - 1) / 2)
        invariant 0 <= j <= start && |contacts| == |was| && Rearranged(was, contacts)
        invariant forall k :: start < k < |contacts| ==> contacts[k] == was[k]
        invariant nearly ==> OutOfPlace(contacts, j, n) && ChildrenOrdered(contacts, j, n)
      {
        if nearly {
          UpStep(contacts, j, n);
        }
        Swap((j - 1) / 2, j);
        j := (j - 1) / 2;
      }
      if nearly {
        InPlace(contacts, j, n);
      }
    }

    /** The child of the contact at `i` that ranks first, among the first `n`. */
    method FirstChild(i: nat, n: nat) returns (j: nat)
      requires n <= |contacts| && 2 * i + 1 < n
      ensures i < j < n && Parent(j) == i
      ensures forall k :: 0 < k < n && Parent(k) == i ==> !Before(contacts[k], contacts[j])
    {
      j := 2 * i + 1;
      if j + 1 < n && Less(j + 1, j) {
        j := j + 1;
      }
      assert forall k :: 0 < k < n && Parent(k) == i ==> k == 2 * i + 1 || k == 2 * i + 2;
    }

    /** One turn of the way down: the contact at `i` changes places with a child, if one ranks before it. */
    method DownOnce(i: nat, n: nat) returns (go: bool, j: nat)
      requires n <= |contacts| && 2 * i + 1 < n
      modifies this
      ensures Rearranged(old(contacts), contacts) && |contacts| == |old(contacts)|
      ensures forall k :: n <= k < |contacts| ==> contacts[k] == old(contacts)[k]
      ensures go <==> !ChildrenOrdered(old(contacts), i, n)
      ensures !go ==> contacts == old(contacts)
      ensures go ==> i < j < n
      ensures go && OutOfPlace(old(contacts), i, n) && ParentOrdered(old(contacts), i) ==>
                OutOfPlace(contacts, j, n) && ParentOrdered(contacts, j)
    {
      j := FirstChild(i, n);
      go := Less(j, i);
      if !go {
        NoChildBefore(contacts, i, j, n);
        return;
      }
      ChildBefore(contacts, i, j, n);
      if OutOfPlace(contacts, i, n) && ParentOrdered(contacts, i) {
        DownStep(contacts, i, j, n);
      }
      Swap(i, j);
    }

    /** Moves the contact at `start` down, within the first `n`, while a child ranks before it. If it was the only one out of
        place among them, and not because of its parent, they are a heap then. It does not move if it is not after its
        children. */
    method Down(start: nat, n: nat) returns (moved: bool)
      requires start <= n <= |contacts|
      modifies this
      ensures Rearranged(old(contacts), contacts) && |contacts| == |old(contacts)|
      ensures forall k :: n <= k < |contacts| ==> contacts[k] == old(contacts)[k]
      ensures start < n && OutOfPlace(old(contacts), start, n) && ParentOrdered(old(contacts), start) ==> IsHeap(contacts, n)
      ensures !moved ==> contacts == old(contacts)
      ensures moved ==> start < n && !ChildrenOrdered(old(contacts), start, n)
    {
      var i := start;
      ghost var was := contacts;
      ghost var nearly := start < n && OutOfPlace(was, start, n) && ParentOrdered(was, start);
      while 2 * i + 1 < n
        invariant start <= i <= n && |contacts| == |was| && Rearranged(was, contacts)
        invariant forall k :: n <= k < |contacts| ==> contacts[k] == was[k]
        invariant i == start ==> contacts == was
        invariant start < i ==> i < n && !ChildrenOrdered(was, start, n)
        invariant nearly ==> i < n && OutOfPlace(contacts, i, n) && ParentOrdered(contacts, i)
        decreases n - i
      {
        var go, j := DownOnce(i, n);
        if !go {
          break;
        }
        i := j;
      }
      if nearly {
        if 2 * i + 1 >= n {
          NoChildren(contacts, i, n);
        }
        InPlace(contacts, i, n);
      }
      moved := i > start;
    }

    method HeapPush(c: Contact)
      modifies this
      ensures Rearranged(old(contacts) + [c], contacts)
      ensures IsHeap(old(contacts), |old(contacts)|) ==> IsHeap(contacts, |contacts|)
    {
      if IsHeap(contacts, |contacts|) {
        PushedLast(contacts, c);
      }
      contacts := contacts + [c];
      Up(|contacts| - 1, |contacts|);
    }

    /** Takes out the contact that ranks first. */
    method HeapPop()
      requires contacts != []
      modifies this
      ensures Rearranged(old(contacts)[1..], contacts)
      ensures IsHeap(old(contacts), |old(contacts)|) ==> IsHeap(contacts, |contacts|)
    {
      ghost var was := contacts;
      FirstToEnd();
      FirstTaken(was, contacts);
      Shorten();
    }

    method FirstToEnd()
      requires contacts != []
      modifies this
      ensures Rearranged(old(contacts), contacts) && |contacts| == |old(contacts)|
      ensures contacts[|contacts| - 1] == old(contacts)[0]
      ensures IsHeap(old(contacts), |old(contacts)|) ==> IsHeap(contacts, |contacts| - 1)
    {
      SwapLast(0);
      var _ := Down(0, |contacts| - 1);
    }

    /** The contact at `i` changes places with the last one, which may be out of place there. */
    method SwapLast(i: nat)
      requires i < |contacts|
      modifies this
      ensures Rearranged(old(contacts), contacts) && |contacts| == |old(contacts)|
      ensures contacts[|contacts| - 1] == old(contacts)[i]
      ensures i < |contacts| - 1 && IsHeap(old(contacts), |old(contacts)|) ==> OutOfPlace(contacts, i, |contacts| - 1)
    {
      if i < |contacts| - 1 && IsHeap(contacts, |contacts|) {
        LastMovedTo(contacts, i);
      }
      Swap(i, |contacts| - 1);
    }

    method Shorten()
      requires contacts != []
      modifies this
      ensures contacts == old(contacts)[..|old(contacts)| - 1]
      ensures IsHeap(old(contacts), |old(contacts)| - 1) ==> IsHeap(contacts, |contacts|)
    {
      if IsHeap(contacts, |contacts| - 1) {
        CutHeap(contacts, |contacts| - 1);
      }
      contacts := contacts[..|contacts| - 1];
    }

    /** Puts the contact at `i` into its place among the first `n`. */
    method Settle(i: nat, n: nat)
      requires i < n <= |contacts|
      modifies this
      ensures Rearranged(old(contacts), contacts) && |contacts| == |old(contacts)|
      ensures forall k :: n <= k < |contacts| ==> contacts[k] == old(contacts)[k]
      ensures OutOfPlace(old(contacts), i, n) ==> IsHeap(contacts, n)
    {
      ghost var was := contacts;
      if OutOfPlace(was, i, n) && !ParentOrdered(was, i) {
        UpOrDown(was, i, n);
      }
      var moved := Down(i, n);
      if !moved {
        if OutOfPlace(was, i, n) && ParentOrdered(was, i) {
          HeapIsInPlace(contacts, i, n);
        }
        Up(i, n);
      }
    }

    method HeapFix(i: nat)
      requires i < |contacts|
      modifies this
      ensures Rearranged(old(contacts), contacts)
      ensures OutOfPlace(old(contacts), i, |old(contacts)|) ==> IsHeap(contacts, |contacts|)
    {
      Settle(i, |contacts|);
    }

    method HeapRemove(i: nat)
      requires i < |contacts|
      modifies this
      ensures Rearranged(old(contacts)[..i] + old(contacts)[i + 1..], contacts)
      ensures IsHeap(old(contacts), |old(contacts)|) ==> IsHeap(contacts, |contacts|)
    {
      ghost var was := contacts;
      MoveToEnd(i);
      LastTaken(was, contacts, i);
      Shorten();
    }

    method MoveToEnd(i: nat)
      requires i < |contacts|
      modifies this
      ensures Rearranged(old(contacts), contacts) && |contacts| == |old(contacts)|
      ensures contacts[|contacts| - 1] == old(contacts)[i]
      ensures IsHeap(old(contacts), |old(contacts)|) ==> IsHeap(contacts, |contacts| - 1)
    {
      var n := |contacts| - 1;
      if n != i {
        SwapLast(i);
        Settle(i, n);
      }
    }

    // -------------------------------------------------------------------------------------
    // What a bucket does

    /** Replaces the contact with this key, or adds it; in a full bucket the first one makes room, which is the one that
        ranks highest. */
    method AddContact(c: Contact)
      modifies this
      ensures Rearranged(Placed(old(contacts), c), contacts)
      ensures IsHeap(old(contacts), |old(contacts)|) ==> IsHeap(contacts, |contacts|)
    {
      var i := 0;
      while i < |contacts|
        invariant 0 <= i <= |contacts| && contacts == old(contacts)
        invariant forall k :: 0 <= k < i ==> contacts[k].key != c.key
      {
        if contacts[i].key == c.key {
          assert IndexOf(contacts, c.key) == i;
          if IsHeap(contacts, |contacts|) {
            Exchange(contacts, i, c, |contacts|);
          }
          contacts := contacts[i := c];
          HeapFix(i);
          return;
        }
        i := i + 1;
      }
      assert IndexOf(contacts, c.key) == |contacts|;
      if |contacts| < K {
        HeapPush(c);
      } else {
        HeapPop();
        HeapPush(c);
      }
    }

    /** Takes out the contact with this key, if there is one. */
    method Remove(key: Key)
      modifies this
      ensures Rearranged(Dropped(old(contacts), key), contacts)
      ensures IsHeap(old(contacts), |old(contacts)|) ==> IsHeap(contacts, |contacts|)
    {
      var i := 0;
      while i < |contacts|
        invariant 0 <= i <= |contacts| && contacts == old(contacts)
        invariant forall k :: 0 <= k < i ==> contacts[k].key != key
      {
        if contacts[i].key == key {
          assert IndexOf(contacts, key) == i;
          HeapRemove(i);
          return;
        }
        i := i + 1;
      }
      assert IndexOf(contacts, key) == |contacts|;
    }
  }

  class Node {
    const key: Key
    const buckets: seq<KBucket>

    ghost predicate Valid() {
      |buckets| == KEY_BITS && forall i, j :: 0 <= i < j < |buckets| ==> buckets[i] != buckets[j]
    }

    ghost function View(): (t: Table)
      reads buckets
      ensures |t| == |buckets|
      ensures forall n :: 0 <= n < |t| ==> t[n] == buckets[n].contacts
    {
      seq(|buckets|, n requires 0 <= n < |buckets| reads buckets => buckets[n].contacts)
    }

    constructor (key: Key)
      ensures Valid() && this.key == key && (forall b :: b in buckets ==> fresh(b))
      ensures View() == seq(KEY_BITS, _ => []) && TableOk(PlaceFor(key), View())
    {
      var bs: seq<KBucket> := [];
      while |bs| < KEY_BITS
        invariant |bs| <= KEY_BITS
        invariant forall i :: 0 <= i < |bs| ==> fresh(bs[i]) && bs[i].contacts == []
        invariant forall i, j :: 0 <= i < j < |bs| ==> bs[i] != bs[j]
      {
        var b := new KBucket();
        bs := bs + [b];
      }
      this.key, this.buckets := key, bs;
    }

    /** The index of the bucket of a key. */
    method Index(k: Key) returns (n: nat)
      ensures n == BucketOf(k, key)
    {
      var d := Xor(k, key);
      n := LeadingZeros(d);
    }

    /** The node's own key has no bucket: its index is out of range. */
    method AddContact(c: Contact) returns (ok: bool)
      requires Valid() && TableOk(PlaceFor(key), View())
      modifies buckets
      ensures ok <==> c.key != key
      ensures ok ==> Changed(PlaceFor(key), old(View()), Change.Add(c), View())
      ensures ok ==> AddedTo(old(View())[BucketOf(c.key, key)], c, View()[BucketOf(c.key, key)])
      ensures !ok ==> View() == old(View())
      ensures TableOk(PlaceFor(key), View())
    {
      var n := Index(c.key);
      HasBucket(c.key, key);
      ok := n < |buckets|;
      if ok {
        AddAt(n, c);
        ChangedOk(PlaceFor(key), old(View()), Change.Add(c), View());
        AddMeaning(PlaceFor(key), old(View()), c, View());
      } else {
        assert View() == old(View());
      }
    }

    method AddAt(n: nat, c: Contact)
      requires Valid() && n < |buckets|
      modifies buckets
      ensures View() == old(View())[n := View()[n]] && Rearranged(Placed(old(View())[n], c), View()[n])
    {
      buckets[n].AddContact(c);
      OneChanged(old(View()), View(), n);
    }

    method RemoveAt(n: nat, k: Key)
      requires Valid() && n < |buckets|
      modifies buckets
      ensures View() == old(View())[n := View()[n]] && Rearranged(Dropped(old(View())[n], k), View()[n])
    {
      buckets[n].Remove(k);
      OneChanged(old(View()), View(), n);
    }

    method Remove(k: Key) returns (ok: bool)
      requires Valid() && TableOk(PlaceFor(key), View())
      modifies buckets
      ensures ok <==> k != key
      ensures ok ==> Changed(PlaceFor(key), old(View()), Change.Remove(k), View())
      ensures ok ==> TakenFrom(old(View())[BucketOf(k, key)], k, View()[BucketOf(k, key)])
      ensures !ok ==> View() == old(View())
      ensures TableOk(PlaceFor(key), View())
    {
      var n := Index(k);
      HasBucket(k, key);
      ok := n < |buckets|;
      if ok {
        RemoveAt(n, k);
        ChangedOk(PlaceFor(key), old(View()), Change.Remove(k), View());
        RemoveMeaning(PlaceFor(key), old(View()), k, View());
      } else {
        assert View() == old(View());
      }
    }

    /** Contacts of the target's bucket, and of its neighbours if there are few. */
    method FindClosest(target: Key) returns (closest: Bucket)
      requires Valid()
      ensures closest == Closest(View(), BucketOf(target, key))
    {
      var b := Index(target);
      HasBucket(target, key);
      if b == KEY_BITS {
        return [];
      }
      closest := buckets[b].contacts;
      if |closest| < K {
        closest := GatherFrom(b, closest);
      }
      if |closest| > K {
        closest := closest[..K];
      }
    }

    method GatherFrom(b: nat, own: Bucket) returns (closest: Bucket)
      requires Valid() && b < KEY_BITS
      ensures closest == Gather(View(), b, 1, own)
    {
      ghost var t := View();
      closest := own;
      var i := 1;
      while i < KEY_BITS && |closest| < ALPHA
        invariant 1 <= i <= KEY_BITS && t == View()
        invariant Gather(t, b, i, closest) == Gather(t, b, 1, own)
      {
        GatherMore(t, b, i, closest);
        closest := AddRing(b, i, closest);
        i := i + 1;
      }
      GatherDone(t, b, i, closest);
    }

    method AddRing(b: nat, i: nat, acc: Bucket) returns (closest: Bucket)
      requires Valid() && b < KEY_BITS && i > 0
      ensures closest == acc + Ring(View(), b, i)
    {
      closest := acc;
      if b - i >= 0 {
        closest := closest + buckets[b - i].contacts;
      }
      if b + i < KEY_BITS {
        closest := closest + buckets[b + i].contacts;
      }
    }
  }

  lemma GatherMore(t: Table, b: nat, i: nat, acc: Bucket)
    requires 0 < i < KEY_BITS && |acc| < ALPHA
    ensures Gather(t, b, i, acc) == Gather(t, b, i + 1, acc + Ring(t, b, i))
  {
  }

  lemma GatherDone(t: Table, b: nat, i: nat, acc: Bucket)
    requires 0 < i && !(i < KEY_BITS && |acc| < ALPHA)
    ensures Gather(t, b, i, acc) == acc
  {
  }

  lemma OneChanged(t: Table, t': Table, n: nat)
    requires |t| == |t'| && n < |t| && forall m :: 0 <= m < |t| && m != n ==> t'[m] == t[m]
    ensures t' == t[n := t'[n]]
  {
  }
}
