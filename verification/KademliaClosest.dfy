/** Exactly when the contacts that are found for a target are the right ones. */
module KademliaClosest {
  import opened KademliaKeys
  import opened KademliaTable

  // ---------------------------------------------------------------------------------------
  // The list, ring by ring

  /** The contacts of all buckets less than `i` away from bucket `b`, in the order of the search. */
  ghost function Upto(t: Table, b: nat, i: nat): Bucket
    requires i > 0 && b < |t|
  {
    if i == 1 then t[b] else Upto(t, b, i - 1) + Ring(t, b, i - 1)
  }

  ghost predicate FewAt(t: Table, b: nat, j: nat)
    requires j > 0 && b < |t|
  {
    |Upto(t, b, j)| < ALPHA
  }

  ghost predicate FewFrom(t: Table, b: nat, i: nat, r: nat)
    requires i > 0 && b < |t|
  {
    forall j :: i <= j < r ==> FewAt(t, b, j)
  }

  /** How far the search goes. */
  ghost function Reach(t: Table, b: nat): (r: nat)
    requires b < |t|
  {
    if |t[b]| < K then Radius(t, b, 1, t[b]) else 1
  }

  lemma UptoStep(t: Table, b: nat, i: nat)
    requires i > 0 && b < |t|
    ensures Upto(t, b, i + 1) == Upto(t, b, i) + Ring(t, b, i)
  {
  }

  lemma GatherStep(t: Table, b: nat, i: nat)
    requires 0 < i < KEY_BITS && b < |t| && FewAt(t, b, i)
    ensures var acc, next := Upto(t, b, i), Upto(t, b, i + 1);
            Radius(t, b, i, acc) == Radius(t, b, i + 1, next) && Gather(t, b, i, acc) == Gather(t, b, i + 1, next)
  {
    UptoStep(t, b, i);
  }

  lemma GatherEnds(t: Table, b: nat, i: nat)
    requires 0 < i <= KEY_BITS && b < |t| && (i == KEY_BITS || !FewAt(t, b, i))
    ensures Radius(t, b, i, Upto(t, b, i)) == i && Gather(t, b, i, Upto(t, b, i)) == Upto(t, b, i)
  {
  }

  /** The search that has come to distance `i` goes on to distance `r`. */
  ghost predicate GoesOnTo(t: Table, b: nat, i: nat, r: nat)
    requires i > 0 && b < |t|
  {
    && i <= r <= KEY_BITS && FewFrom(t, b, i, r)
    && Radius(t, b, i, Upto(t, b, i)) == r && Gather(t, b, i, Upto(t, b, i)) == Upto(t, b, r)
  }

  lemma GoesOnFurther(t: Table, b: nat, i: nat, r: nat)
    requires 0 < i < KEY_BITS && b < |t| && FewAt(t, b, i) && GoesOnTo(t, b, i + 1, r)
    ensures GoesOnTo(t, b, i, r)
  {
    GatherStep(t, b, i);
    FewFromOne(t, b, i, r);
  }

  lemma FewFromOne(t: Table, b: nat, i: nat, r: nat)
    requires 0 < i && b < |t| && FewAt(t, b, i) && FewFrom(t, b, i + 1, r)
    ensures FewFrom(t, b, i, r)
  {
  }

  lemma {:induction false} GatherIsUpto(t: Table, b: nat, i: nat) returns (r: nat)
    requires 0 < i <= KEY_BITS && b < |t|
    ensures GoesOnTo(t, b, i, r)
    decreases KEY_BITS - i
  {
    if i < KEY_BITS && FewAt(t, b, i) {
      r := GatherIsUpto(t, b, i + 1);
      GoesOnFurther(t, b, i, r);
    } else {
      r := i;
      GatherEnds(t, b, i);
    }
  }

  /** The search ends with all the contacts up to its reach, and had fewer than five before. */
  lemma GatheredIsUpto(t: Table, b: nat)
    requires b < |t|
    ensures var r := Reach(t, b);
            0 < r <= KEY_BITS && Gathered(t, b) == Upto(t, b, r) && FewFrom(t, b, 1, r)
  {
    assert Upto(t, b, 1) == t[b];
    var r := GatherIsUpto(t, b, 1);
  }

  lemma {:induction false} UptoOk(place: Place, t: Table, b: nat, i: nat)
    requires TableOk(place, t) && b < KEY_BITS && i > 0
    ensures GatheredOk(place, t, b, i, Upto(t, b, i))
  {
    if i == 1 {
      OwnOk(place, t, b);
    } else {
      UptoOk(place, t, b, i - 1);
      RingNear(place, t, b, i - 1, Upto(t, b, i - 1));
      RingHolds(t, b, i - 1, Upto(t, b, i - 1));
      RingDistinct(place, t, b, i - 1, Upto(t, b, i - 1));
    }
  }

  lemma {:induction false} UptoGrows(t: Table, b: nat, i: nat, j: nat)
    requires 0 < i <= j && b < |t|
    ensures Upto(t, b, i) <= Upto(t, b, j)
  {
    if i < j {
      UptoGrows(t, b, i, j - 1);
    }
  }

  // ---------------------------------------------------------------------------------------
  // The right contacts

  /** No contact that is left out shares a longer prefix with the target than one that is listed. The length of the shared
      prefix is what the program calls the distance; contacts that share equally much are not told apart. */
  ghost predicate RightList(self: Key, t: Table, target: Key, list: Bucket)
    requires |t| == KEY_BITS
  {
    forall c, d :: c in list && FromTable(PlaceFor(self), t, d) && d !in list ==> BucketOf(d.key, target) <= BucketOf(c.key, target)
  }

  /** No listed contact is from a bucket before `b`. */
  ghost predicate NoneBelow(place: Place, b: nat, list: Bucket) {
    forall c :: c in list ==> place(c.key) >= b
  }

  /** Every contact from a bucket after `b` is listed. */
  ghost predicate AllAbove(t: Table, b: nat, list: Bucket) {
    forall n :: b < n < |t| ==> Holds(list, t[n])
  }

  lemma {:induction false} RingOf(place: Place, t: Table, b: nat, i: nat, c: Contact)
    requires TableOk(place, t) && b < KEY_BITS && i > 0 && c in Upto(t, b, i)
    ensures FromTable(place, t, c) && Near(place, b, i, c)
  {
    UptoOk(place, t, b, i);
  }

  /** A contact from the table that is near enough is there. */
  lemma NearIsIn(place: Place, t: Table, b: nat, i: nat, c: Contact)
    requires TableOk(place, t) && b < KEY_BITS && i > 0 && FromTable(place, t, c) && Near(place, b, i, c)
    ensures c in Upto(t, b, i)
  {
    UptoOk(place, t, b, i);
    var n := place(c.key);
    assert Holds(Upto(t, b, i), t[n]);
    var k :| 0 <= k < |t[n]| && t[n][k] == c;
  }

  /** A contact that is less far away comes before one that is farther away. */
  lemma NearerIsListed(place: Place, t: Table, b: nat, c: Contact, d: Contact)
    requires TableOk(place, t) && b < KEY_BITS && c in Closest(t, b) && FromTable(place, t, d)
    requires place(c.key) < place(d.key) <= b
    ensures d in Closest(t, b)
  {
    GatheredIsUpto(t, b);
    var g, i := Gathered(t, b), b - place(c.key);
    assert c in g;
    RingOf(place, t, b, Reach(t, b), c);
    NearIsIn(place, t, b, i, d);
    UptoGrows(t, b, i, Reach(t, b));
    if c in Upto(t, b, i) {
      RingOf(place, t, b, i, c);
    }
    PrefixOrder(Upto(t, b, i), g, c, d);
  }

  lemma PrefixOrder(p: Bucket, g: Bucket, c: Contact, d: Contact)
    requires p <= g && d in p && c !in p && c in FirstK(g)
    ensures d in FirstK(g)
  {
    var k :| 0 <= k < |FirstK(g)| && FirstK(g)[k] == c;
    assert k >= |p|;
    var j :| 0 <= j < |p| && p[j] == d;
    assert FirstK(g)[j] == d;
  }

  lemma OwnIsListed(place: Place, t: Table, b: nat, d: Contact)
    requires TableOk(place, t) && b < KEY_BITS && FromTable(place, t, d) && place(d.key) == b
    ensures d in Closest(t, b)
  {
    FindClosestMeaning(place, t, b);
    var k :| 0 <= k < |t[b]| && t[b][k] == d;
    assert Closest(t, b)[k] == d;
  }

  lemma AboveIsListed(place: Place, t: Table, b: nat, list: Bucket, d: Contact)
    requires |t| == KEY_BITS && AllAbove(t, b, list) && FromTable(place, t, d) && place(d.key) > b
    ensures d in list
  {
    var n := place(d.key);
    assert Holds(list, t[n]);
    var k :| 0 <= k < |t[n]| && t[n][k] == d;
  }

  /** The contacts that are found are the right ones if and only if none of them is from a bucket before the target's, or
      every contact from the buckets after it is among them. */
  lemma RightIff(self: Key, t: Table, target: Key, b: nat)
    requires TableOk(PlaceFor(self), t) && BucketOf(target, self) == b < KEY_BITS
    ensures RightList(self, t, target, Closest(t, b)) <==>
              NoneBelow(PlaceFor(self), b, Closest(t, b)) || AllAbove(t, b, Closest(t, b))
  {
    var list := Closest(t, b);
    if NoneBelow(PlaceFor(self), b, list) || AllAbove(t, b, list) {
      forall c, d | c in list && FromTable(PlaceFor(self), t, d) && d !in list
        ensures BucketOf(d.key, target) <= BucketOf(c.key, target)
      {
        RightPair(self, t, target, b, c, d);
      }
    } else {
      var c :| c in list && PlaceFor(self)(c.key) < b;
      var n :| b < n < |t| && !Holds(list, t[n]);
      var k :| 0 <= k < |t[n]| && t[n][k] !in list;
      IsIn(PlaceFor(self), t, n, k);
      SharedWithTarget(self, target, c.key);
      SharedWithTarget(self, target, t[n][k].key);
      assert FromTable(PlaceFor(self), t, t[n][k]);
    }
  }

  lemma RightPair(self: Key, t: Table, target: Key, b: nat, c: Contact, d: Contact)
    requires TableOk(PlaceFor(self), t) && BucketOf(target, self) == b < KEY_BITS
    requires NoneBelow(PlaceFor(self), b, Closest(t, b)) || AllAbove(t, b, Closest(t, b))
    requires c in Closest(t, b) && FromTable(PlaceFor(self), t, d) && d !in Closest(t, b)
    ensures BucketOf(d.key, target) <= BucketOf(c.key, target)
  {
    SharedWithTarget(self, target, c.key);
    SharedWithTarget(self, target, d.key);
    var n, m := BucketOf(c.key, self), BucketOf(d.key, self);
    if m == b {
      OwnIsListed(PlaceFor(self), t, b, d);
    } else if m > b && AllAbove(t, b, Closest(t, b)) {
      AboveIsListed(PlaceFor(self), t, b, Closest(t, b), d);
    } else if n < m < b {
      NearerIsListed(PlaceFor(self), t, b, c, d);
    }
  }

  // ---------------------------------------------------------------------------------------
  // By the sizes of the buckets

  predicate EmptyAt(t: Table, n: int) {
    At(t, n) == []
  }

  /** The buckets before `b` and less than `r` away are empty. */
  ghost predicate EmptyBelow(t: Table, b: nat, r: nat) {
    forall n :: b - r < n < b ==> EmptyAt(t, n)
  }

  /** The buckets after `b` and at least `r` away are empty. */
  ghost predicate EmptyBeyond(t: Table, b: nat, r: nat) {
    forall n :: b + r <= n ==> EmptyAt(t, n)
  }

  /** All buckets before `b` within the reach of the search are empty; or those after it beyond the reach are, and
      nothing of the last one is cut off. */
  ghost predicate RightSizes(t: Table, b: nat, r: nat)
    requires 0 < r && b < |t|
  {
    EmptyBelow(t, b, r) || (EmptyBeyond(t, b, r) && (EmptyAt(t, b + r - 1) || |Upto(t, b, r)| <= K))
  }

  /** Before the last ring the search had fewer than five contacts. */
  ghost predicate FewBefore(t: Table, b: nat, r: nat)
    requires b < |t|
  {
    0 < r <= KEY_BITS && forall j :: 1 <= j < r ==> FewAt(t, b, j)
  }

  lemma BelowIff(place: Place, t: Table, b: nat, r: nat)
    requires TableOk(place, t) && b < KEY_BITS && FewBefore(t, b, r)
    ensures NoneBelow(place, b, FirstK(Upto(t, b, r))) <==> EmptyBelow(t, b, r)
  {
    if EmptyBelow(t, b, r) {
      NothingBelow(place, t, b, r);
    } else {
      SomethingBelow(place, t, b, r);
    }
  }

  lemma NothingBelow(place: Place, t: Table, b: nat, r: nat)
    requires TableOk(place, t) && b < KEY_BITS && 0 < r && EmptyBelow(t, b, r)
    ensures NoneBelow(place, b, FirstK(Upto(t, b, r)))
  {
    forall c | c in FirstK(Upto(t, b, r))
      ensures place(c.key) >= b
    {
      assert c in Upto(t, b, r);
      RingOf(place, t, b, r, c);
      assert place(c.key) < b ==> EmptyAt(t, place(c.key));
    }
  }

  lemma SomethingBelow(place: Place, t: Table, b: nat, r: nat)
    requires TableOk(place, t) && b < KEY_BITS && FewBefore(t, b, r) && !EmptyBelow(t, b, r)
    ensures !NoneBelow(place, b, FirstK(Upto(t, b, r)))
  {
    var n :| b - r < n < b && !EmptyAt(t, n);
    FirstBelowListed(t, b, r, b - n);
    var c := At(t, n)[0];
    IsIn(place, t, n, 0);
    OneBelow(place, b, FirstK(Upto(t, b, r)), c);
  }

  lemma OneBelow(place: Place, b: nat, list: Bucket, c: Contact)
    requires c in list && place(c.key) < b
    ensures !NoneBelow(place, b, list)
  {
  }

  /** The first contact of a bucket before the target's is listed as soon as the search gets there. */
  lemma FirstBelowListed(t: Table, b: nat, r: nat, i: nat)
    requires b < |t| && FewBefore(t, b, r) && 1 <= i < r && At(t, b - i) != []
    ensures At(t, b - i)[0] in FirstK(Upto(t, b, r))
  {
    UptoGrows(t, b, i + 1, r);
    FirstOfRing(t, b, i);
    assert FewAt(t, b, i);
    PrefixAt(Upto(t, b, i + 1), Upto(t, b, r), |Upto(t, b, i)|);
  }

  lemma FirstOfRing(t: Table, b: nat, i: nat)
    requires 0 < i && b < |t| && At(t, b - i) != []
    ensures |Upto(t, b, i)| < |Upto(t, b, i + 1)| && Upto(t, b, i + 1)[|Upto(t, b, i)|] == At(t, b - i)[0]
  {
  }

  lemma PrefixAt(q: Bucket, g: Bucket, k: nat)
    requires q <= g && k < |q| && k < K
    ensures q[k] in FirstK(g)
  {
    assert FirstK(g)[k] == q[k];
  }

  lemma AboveIff(place: Place, t: Table, b: nat, r: nat)
    requires TableOk(place, t) && b < KEY_BITS && FewBefore(t, b, r)
    ensures AllAbove(t, b, FirstK(Upto(t, b, r))) <==>
              EmptyBeyond(t, b, r) && (EmptyAt(t, b + r - 1) || |Upto(t, b, r)| <= K)
  {
    if AllAbove(t, b, FirstK(Upto(t, b, r))) {
      forall n | b + r <= n
        ensures EmptyAt(t, n)
      {
        if At(t, n) != [] {
          FarIsNotListed(place, t, b, r, n);
        }
      }
      if !EmptyAt(t, b + r - 1) && |Upto(t, b, r)| > K {
        LastIsCut(place, t, b, r);
      }
    }
    if EmptyBeyond(t, b, r) && (EmptyAt(t, b + r - 1) || |Upto(t, b, r)| <= K) {
      forall n | b < n < |t|
        ensures Holds(FirstK(Upto(t, b, r)), t[n])
      {
        WithinIsListed(place, t, b, r, n);
      }
    }
  }

  lemma FarIsNotListed(place: Place, t: Table, b: nat, r: nat, n: nat)
    requires TableOk(place, t) && b < KEY_BITS && 0 < r && b + r <= n && At(t, n) != []
    ensures !AllAbove(t, b, FirstK(Upto(t, b, r)))
  {
    IsIn(place, t, n, 0);
    var c := t[n][0];
    if c in FirstK(Upto(t, b, r)) {
      RingOf(place, t, b, r, c);
    }
    assert !Holds(FirstK(Upto(t, b, r)), t[n]);
  }

  /** When the list is cut, a contact of the last bucket is left out. */
  lemma LastIsCut(place: Place, t: Table, b: nat, r: nat)
    requires TableOk(place, t) && b < KEY_BITS && FewBefore(t, b, r) && At(t, b + r - 1) != [] && |Upto(t, b, r)| > K
    ensures !AllAbove(t, b, FirstK(Upto(t, b, r)))
  {
    NotOnlyOwn(place, t, b, r);
    AllDistinct(place, t, b, r);
    EndsWith(t, b, r);
    CutOff(Upto(t, b, r), Upto(t, b, r - 1) + At(t, b - (r - 1)), At(t, b + r - 1));
    LeftOut(t, b, FirstK(Upto(t, b, r)), b + r - 1);
  }

  lemma NotOnlyOwn(place: Place, t: Table, b: nat, r: nat)
    requires TableOk(place, t) && b < KEY_BITS && 0 < r && |Upto(t, b, r)| > K
    ensures r > 1
  {
    OwnOk(place, t, b);
  }

  lemma AllDistinct(place: Place, t: Table, b: nat, r: nat)
    requires TableOk(place, t) && b < KEY_BITS && 0 < r
    ensures DistinctKeys(Upto(t, b, r))
  {
    UptoOk(place, t, b, r);
  }

  lemma EndsWith(t: Table, b: nat, r: nat)
    requires b < |t| && r > 1
    ensures Upto(t, b, r) == Upto(t, b, r - 1) + At(t, b - (r - 1)) + At(t, b + r - 1)
  {
    var p, x, y := Upto(t, b, r - 1), At(t, b - (r - 1)), At(t, b + (r - 1));
    assert p + (x + y) == p + x + y;
  }

  lemma LeftOut(t: Table, b: nat, list: Bucket, n: nat)
    requires b < n < |t| && t[n] != [] && t[n][|t[n]| - 1] !in list
    ensures !AllAbove(t, b, list)
  {
    assert !Holds(list, t[n]);
  }

  lemma CutOff(g: Bucket, p: Bucket, last: Bucket)
    requires DistinctKeys(g) && |g| > K && g == p + last && last != []
    ensures last[|last| - 1] !in FirstK(g)
  {
    assert g[|g| - 1] == last[|last| - 1];
  }

  lemma WithinIsListed(place: Place, t: Table, b: nat, r: nat, n: nat)
    requires TableOk(place, t) && b < n < KEY_BITS && FewBefore(t, b, r) && EmptyBeyond(t, b, r)
    requires EmptyAt(t, b + r - 1) || |Upto(t, b, r)| <= K
    ensures Holds(FirstK(Upto(t, b, r)), t[n])
  {
    if t[n] != [] {
      NotFar(t, b, r, n);
      forall k | 0 <= k < |t[n]|
        ensures t[n][k] in FirstK(Upto(t, b, r))
      {
        IsIn(place, t, n, k);
        OneWithin(place, t, b, r, t[n][k]);
      }
    }
  }

  lemma NotFar(t: Table, b: nat, r: nat, n: nat)
    requires n < |t| && t[n] != [] && EmptyBeyond(t, b, r)
    ensures n < b + r && (EmptyAt(t, b + r - 1) ==> n < b + r - 1)
  {
    assert !EmptyAt(t, n);
  }

  lemma OneWithin(place: Place, t: Table, b: nat, r: nat, c: Contact)
    requires TableOk(place, t) && b < KEY_BITS && FewBefore(t, b, r) && FromTable(place, t, c)
    requires b < place(c.key) < b + r && (place(c.key) < b + r - 1 || |Upto(t, b, r)| <= K)
    ensures c in FirstK(Upto(t, b, r))
  {
    if |Upto(t, b, r)| <= K {
      NearIsIn(place, t, b, r, c);
    } else {
      EarlyIsListed(place, t, b, r, c);
    }
  }

  lemma EarlyIsListed(place: Place, t: Table, b: nat, r: nat, c: Contact)
    requires TableOk(place, t) && b < KEY_BITS && FewBefore(t, b, r) && r > 1
    requires FromTable(place, t, c) && Near(place, b, r - 1, c)
    ensures c in FirstK(Upto(t, b, r))
  {
    NearIsIn(place, t, b, r - 1, c);
    assert FewAt(t, b, r - 1);
    UptoGrows(t, b, r - 1, r);
    InPrefix(Upto(t, b, r - 1), Upto(t, b, r), c);
  }

  lemma InPrefix(p: Bucket, g: Bucket, c: Contact)
    requires p <= g && |p| < ALPHA && c in p
    ensures c in FirstK(g)
  {
    var k :| 0 <= k < |p| && p[k] == c;
    assert FirstK(g)[k] == c;
  }

  lemma ClosestIsUpto(t: Table, b: nat)
    requires |t| == KEY_BITS && b < KEY_BITS
    ensures FewBefore(t, b, Reach(t, b)) && Closest(t, b) == FirstK(Upto(t, b, Reach(t, b)))
  {
    GatheredIsUpto(t, b);
  }

  /** The contacts that are found are the right ones exactly for these sizes of the buckets. */
  lemma RightIffSizes(self: Key, t: Table, target: Key, b: nat)
    requires TableOk(PlaceFor(self), t) && BucketOf(target, self) == b < KEY_BITS
    ensures 0 < Reach(t, b)
    ensures RightList(self, t, target, Closest(t, b)) <==> RightSizes(t, b, Reach(t, b))
  {
    RightIff(self, t, target, b);
    ClosestIsUpto(t, b);
    SizesIff(PlaceFor(self), t, b, Reach(t, b));
  }

  lemma SizesIff(place: Place, t: Table, b: nat, r: nat)
    requires TableOk(place, t) && b < KEY_BITS && FewBefore(t, b, r)
    ensures var list := FirstK(Upto(t, b, r));
            NoneBelow(place, b, list) || AllAbove(t, b, list) <==> RightSizes(t, b, r)
  {
    BelowIff(place, t, b, r);
    AboveIff(place, t, b, r);
  }

  /** With five contacts in the target's own bucket, nothing else is listed and the list is right. */
  lemma EnoughIsRight(self: Key, t: Table, target: Key, b: nat)
    requires TableOk(PlaceFor(self), t) && BucketOf(target, self) == b < KEY_BITS && |t[b]| >= ALPHA
    ensures Closest(t, b) == t[b] && RightList(self, t, target, Closest(t, b))
  {
    RightIffSizes(self, t, target, b);
    OwnOk(PlaceFor(self), t, b);
    assert Reach(t, b) == 1;
  }

  // ---------------------------------------------------------------------------------------
  // A table for which the list is wrong

  const ORIGIN: Key := seq(KEY_BYTES, _ => 0)

  /** A key with this first byte, in which one other byte is not zero. */
  function Marked(first: bv8, at: nat, mark: bv8): (k: Key)
    ensures k[0] == first && forall j :: 1 <= j < KEY_BYTES ==> k[j] == if j == at then mark else 0
  {
    seq(KEY_BYTES, j => if j == 0 then first else if j == at then mark else 0)
  }

  lemma FirstByteBucket(key: Key)
    requires key[0] != 0
    ensures BucketOf(key, ORIGIN) == LeadingZeros8(key[0])
  {
    var x := XorBytes(key, ORIGIN);
    ZeroIsNeutral(key[0]);
    FirstByte(x);
  }

  lemma ZeroIsNeutral(b: bv8)
    ensures b ^ 0 == b
  {
  }

  /** Twenty contacts in the first bucket: seventeen by the place of their mark and three by the mark. */
  function FarContact(i: nat): Contact
    requires i < K
  {
    Contact(if i < 17 then Marked(128, i + 1, 1) else Marked(128, i - 16, 2), "", 0, 0)
  }

  lemma FarDistinct(i: nat, j: nat)
    requires i < j < K
    ensures FarContact(i).key != FarContact(j).key
  {
    var at := if j < 17 then j + 1 else j - 16;
    assert FarContact(j).key[at] != FarContact(i).key[at];
  }

  const NEAR := Contact(Marked(32, 0, 0), "", 0, 0)

  const TARGET: Key := Marked(64, 0, 0)

  function FarContacts(): (r: Bucket)
    ensures |r| == K && forall i :: 0 <= i < K ==> r[i] == FarContact(i)
  {
    seq(K, i requires 0 <= i < K => FarContact(i))
  }

  function WrongTable(): (t: Table)
    ensures |t| == KEY_BITS && t[0] == FarContacts() && t[1] == [] && t[2] == [NEAR]
    ensures forall n :: 2 < n < KEY_BITS ==> t[n] == []
  {
    seq(KEY_BITS, n => if n == 0 then FarContacts() else if n == 2 then [NEAR] else [])
  }

  lemma FarBucketOk(place: Place)
    requires forall i :: 0 <= i < K ==> place(FarContact(i).key) == 0
    ensures BucketOk(place, 0, FarContacts())
  {
    forall i, j | 0 <= i < j < K
      ensures FarContacts()[i].key != FarContacts()[j].key
    {
      FarDistinct(i, j);
    }
  }

  lemma WrongTableOk()
    ensures TableOk(PlaceFor(ORIGIN), WrongTable())
  {
    forall i | 0 <= i < K
      ensures BucketOf(FarContact(i).key, ORIGIN) == 0
    {
      FirstByteBucket(FarContact(i).key);
    }
    FarBucketOk(PlaceFor(ORIGIN));
    FirstByteBucket(NEAR.key);
    assert BucketOk(PlaceFor(ORIGIN), 2, [NEAR]);
    EmptyElsewhere(PlaceFor(ORIGIN), WrongTable());
  }

  lemma EmptyElsewhere(place: Place, t: Table)
    requires |t| == KEY_BITS && BucketOk(place, 0, t[0]) && t[1] == [] && BucketOk(place, 2, t[2])
    requires forall n :: 2 < n < KEY_BITS ==> t[n] == []
    ensures TableOk(place, t)
  {
  }

  /** For a target in the second bucket, which is empty, the twenty of the first bucket are listed and the one of the
      third is not, although it is strictly closer to the target than each of them. */
  lemma WrongList()
    ensures TableOk(PlaceFor(ORIGIN), WrongTable()) && BucketOf(TARGET, ORIGIN) == 1
    ensures Closest(WrongTable(), 1) == FarContacts() && NEAR !in Closest(WrongTable(), 1)
    ensures forall i :: 0 <= i < K ==> Distance(NEAR.key, TARGET) < Distance(FarContacts()[i].key, TARGET)
    ensures !RightList(ORIGIN, WrongTable(), TARGET, Closest(WrongTable(), 1))
  {
    WrongTableOk();
    FirstByteBucket(TARGET);
    WrongClosest();
    forall i | 0 <= i < K
      ensures Distance(NEAR.key, TARGET) < Distance(FarContacts()[i].key, TARGET)
    {
      FartherBucketFirst(ORIGIN, WrongTable(), TARGET, 1, 2, 0, i);
    }
    NotRight(WrongTable());
  }

  lemma WrongClosest()
    ensures Closest(WrongTable(), 1) == FarContacts() && NEAR !in FarContacts()
  {
    var t: Table := WrongTable();
    OnlyBelow(t, 1);
    assert (t[1] + t[0])[..K] == t[0];
    forall i | 0 <= i < K
      ensures NEAR != FarContacts()[i]
    {
      assert NEAR.key[0] == 32 && FarContacts()[i].key[0] == 128;
    }
  }

  lemma NotRight(t: Table)
    requires TableOk(PlaceFor(ORIGIN), t) && t == WrongTable() && BucketOf(TARGET, ORIGIN) == 1
    requires Closest(t, 1) == FarContacts() && NEAR !in Closest(t, 1)
    ensures !RightList(ORIGIN, t, TARGET, Closest(t, 1))
  {
    RightIff(ORIGIN, t, TARGET, 1);
    IsIn(PlaceFor(ORIGIN), t, 0, 0);
    OneLeftOut(PlaceFor(ORIGIN), t, 1, Closest(t, 1), FarContacts()[0], 2, 0);
  }

  lemma OneLeftOut(place: Place, t: Table, b: nat, list: Bucket, c: Contact, n: nat, k: nat)
    requires c in list && place(c.key) < b < n < |t| && k < |t[n]| && t[n][k] !in list
    ensures !NoneBelow(place, b, list) && !AllAbove(t, b, list)
  {
    assert !Holds(list, t[n]);
  }
}
