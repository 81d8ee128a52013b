/** Routing tables as values: what adding and removing contacts keeps, and which contacts are found for a target. */
module KademliaTable {
  import opened KademliaKeys

  const K := 20
  const ALPHA := 5

  datatype Contact = Contact(key: Key, addr: string, startTime: int, rtt: int)

  /** The bucket that each key belongs into. */
  type Place = Key -> nat

  function PlaceFor(self: Key): Place {
    key => BucketOf(key, self)
  }

  type Bucket = seq<Contact>

  type Table = seq<Bucket>

  // ---------------------------------------------------------------------------------------
  // One bucket

  predicate DistinctKeys(b: Bucket) {
    forall i, j :: 0 <= i < j < |b| ==> b[i].key != b[j].key
  }

  /** The first index of a key; the length if it is not there. */
  function IndexOf(b: Bucket, key: Key): (r: nat)
    ensures r <= |b| && (r < |b| ==> b[r].key == key)
    ensures forall i :: 0 <= i < r ==> b[i].key != key
  {
    if b == [] || b[0].key == key then 0 else 1 + IndexOf(b[1..], key)
  }

  /** A known contact is replaced; a new one is put into the bucket, in place of the first one if it is full. */
  function Placed(b: Bucket, c: Contact): Bucket {
    var i := IndexOf(b, c.key);
    if i < |b| then b[i := c] else if |b| < K then b + [c] else b[1..] + [c]
  }

  function Dropped(b: Bucket, key: Key): Bucket {
    var i := IndexOf(b, key);
    if i < |b| then b[..i] + b[i + 1..] else b
  }

  /** The same contacts in any order. */
  predicate Rearranged(a: Bucket, b: Bucket) {
    multiset(a) == multiset(b)
  }

  predicate DistinctIn(m: multiset<Contact>) {
    && (forall c :: c in m ==> m[c] == 1)
    && (forall c, d :: c in m && d in m && c.key == d.key ==> c == d)
  }

  lemma {:induction false} DistinctBag(b: Bucket)
    requires DistinctKeys(b)
    ensures DistinctIn(multiset(b))
  {
    if b != [] {
      var n := |b| - 1;
      DistinctBag(b[..n]);
      assert b == b[..n] + [b[n]];
      assert multiset(b) == multiset(b[..n]) + multiset{b[n]};
      assert forall c :: c in multiset(b[..n]) ==> c in b[..n];
    }
  }

  lemma Twice(b: Bucket, i: nat, j: nat)
    requires i < j < |b| && b[i] == b[j]
    ensures multiset(b)[b[i]] >= 2
  {
    assert b == b[..j] + b[j..];
    assert b[..j][i] == b[i] && b[j..][0] == b[j];
    assert b[i] in multiset(b[..j]) && b[i] in multiset(b[j..]);
  }

  lemma DistinctAgain(b: Bucket)
    requires DistinctIn(multiset(b))
    ensures DistinctKeys(b)
  {
    forall i, j | 0 <= i < j < |b|
      ensures b[i].key != b[j].key
    {
      assert b[i] in multiset(b) && b[j] in multiset(b);
      if b[i] == b[j] {
        Twice(b, i, j);
      }
    }
  }

  predicate InBucket(place: Place, n: nat, c: Contact) {
    place(c.key) == n
  }

  predicate BucketOk(place: Place, n: nat, b: Bucket) {
    && |b| <= K
    && DistinctKeys(b)
    && forall i :: 0 <= i < |b| ==> InBucket(place, n, b[i])
  }

  lemma RearrangedOk(place: Place, n: nat, a: Bucket, b: Bucket)
    requires BucketOk(place, n, a) && Rearranged(a, b)
    ensures BucketOk(place, n, b)
  {
    DistinctBag(a);
    DistinctAgain(b);
    assert |a| == |multiset(a)| == |multiset(b)| == |b|;
    forall i | 0 <= i < |b|
      ensures InBucket(place, n, b[i])
    {
      assert b[i] in multiset(a);
    }
  }

  lemma PlacedOk(place: Place, n: nat, b: Bucket, c: Contact)
    requires BucketOk(place, n, b) && InBucket(place, n, c)
    ensures BucketOk(place, n, Placed(b, c))
  {
    var i := IndexOf(b, c.key);
    if i < |b| {
      ReplacedOk(place, n, b, c, i);
    } else if |b| < K {
      BehindOk(place, n, b, c);
    } else {
      ShortenedOk(place, n, b);
      BehindOk(place, n, b[1..], c);
    }
  }

  lemma ReplacedOk(place: Place, n: nat, b: Bucket, c: Contact, i: nat)
    requires BucketOk(place, n, b) && InBucket(place, n, c) && i < |b| && b[i].key == c.key
    ensures BucketOk(place, n, b[i := c])
  {
  }

  lemma BehindOk(place: Place, n: nat, b: Bucket, c: Contact)
    requires BucketOk(place, n, b) && InBucket(place, n, c) && |b| < K && forall i :: 0 <= i < |b| ==> b[i].key != c.key
    ensures BucketOk(place, n, b + [c])
  {
  }

  lemma ShortenedOk(place: Place, n: nat, b: Bucket)
    requires BucketOk(place, n, b) && b != []
    ensures BucketOk(place, n, b[1..])
  {
  }

  lemma DroppedOk(place: Place, n: nat, b: Bucket, key: Key)
    requires BucketOk(place, n, b)
    ensures BucketOk(place, n, Dropped(b, key))
  {
  }

  // ---------------------------------------------------------------------------------------
  // The whole table

  predicate TableOk(place: Place, t: Table) {
    |t| == KEY_BITS && forall n :: 0 <= n < KEY_BITS ==> BucketOk(place, n, t[n])
  }

  datatype Change = Add(contact: Contact) | Remove(key: Key)

  function KeyOf(ch: Change): Key {
    match ch
    case Add(c) => c.key
    case Remove(key) => key
  }

  /** The bucket of the key is changed, up to the order in it, and no other. */
  predicate Changed(place: Place, t: Table, ch: Change, t': Table) {
    var n := place(KeyOf(ch));
    && n < |t| == |t'|
    && t' == t[n := t'[n]]
    && Rearranged(match ch case Add(c) => Placed(t[n], c) case Remove(key) => Dropped(t[n], key), t'[n])
  }

  lemma ChangedOk(place: Place, t: Table, ch: Change, t': Table)
    requires TableOk(place, t) && Changed(place, t, ch, t')
    ensures TableOk(place, t')
  {
    var n := place(KeyOf(ch));
    assert BucketOk(place, n, t[n]);
    match ch {
      case Add(c) =>
        PlacedOk(place, n, t[n], c);
        RearrangedOk(place, n, Placed(t[n], c), t'[n]);
      case Remove(key) =>
        DroppedOk(place, n, t[n], key);
        RearrangedOk(place, n, Dropped(t[n], key), t'[n]);
    }
    assert forall m :: 0 <= m < KEY_BITS ==> m != n ==> t'[m] == t[m];
  }

  /** The tables that a sequence of changes goes through, from an empty one. */
  predicate IsTrace(place: Place, changes: seq<Change>, tables: seq<Table>) {
    && |tables| == |changes| + 1
    && tables[0] == seq(KEY_BITS, _ => [])
    && forall i :: 0 <= i < |changes| ==> Changed(place, tables[i], changes[i], tables[i + 1])
  }

  /** Over any changes, in whatever order the contacts of a bucket come to be: at most twenty contacts in a bucket, with
      different keys, all with the shared prefix of that bucket. */
  lemma {:induction false} TraceOk(place: Place, changes: seq<Change>, tables: seq<Table>, i: nat)
    requires IsTrace(place, changes, tables) && i <= |changes|
    ensures TableOk(place, tables[i])
  {
    if i > 0 {
      TraceOk(place, changes, tables, i - 1);
      ChangedOk(place, tables[i - 1], changes[i - 1], tables[i]);
    }
  }

  // ---------------------------------------------------------------------------------------
  // Finding contacts

  /** The bucket at an index; there are none before the first and after the last. */
  function At(t: Table, n: int): Bucket {
    if 0 <= n < |t| then t[n] else []
  }

  /** The buckets at distance `i` from bucket `b`, the earlier one first. */
  function Ring(t: Table, b: nat, i: nat): (r: Bucket)
    requires i > 0
  {
    At(t, b - i) + At(t, b + i)
  }

  /** Neighbouring buckets are added until there are five contacts. */
  function Gather(t: Table, b: nat, i: nat, acc: Bucket): Bucket
    requires i > 0
    decreases KEY_BITS - i, |t|
  {
    if i < KEY_BITS && |acc| < ALPHA then Gather(t, b, i + 1, acc + Ring(t, b, i)) else acc
  }

  function Gathered(t: Table, b: nat): Bucket
    requires b < |t|
  {
    if |t[b]| < K then Gather(t, b, 1, t[b]) else t[b]
  }

  function FirstK(b: Bucket): Bucket {
    if |b| > K then b[..K] else b
  }

  /** What is found for a target whose bucket is `b`; for the node's own key there is no bucket. */
  function Closest(t: Table, b: nat): Bucket
    requires |t| == KEY_BITS
  {
    if b < KEY_BITS then FirstK(Gathered(t, b)) else []
  }

  lemma {:induction false} GatherExtends(t: Table, b: nat, i: nat, acc: Bucket)
    requires i > 0
    ensures acc <= Gather(t, b, i, acc)
    decreases KEY_BITS - i, |t|
  {
    if i < KEY_BITS && |acc| < ALPHA {
      GatherExtends(t, b, i + 1, acc + Ring(t, b, i));
    }
  }

  /** The contact is from a bucket less than `i` away from bucket `b`. */
  predicate Near(place: Place, b: nat, i: nat, c: Contact) {
    b - i < place(c.key) < b + i
  }

  predicate FromTable(place: Place, t: Table, c: Contact)
    requires |t| == KEY_BITS
  {
    var n := place(c.key);
    n < KEY_BITS && c in t[n]
  }

  predicate AllNear(place: Place, t: Table, b: nat, i: nat, acc: Bucket)
    requires |t| == KEY_BITS
  {
    forall k :: 0 <= k < |acc| ==> Near(place, b, i, acc[k]) && FromTable(place, t, acc[k])
  }

  predicate Holds(acc: Bucket, bucket: Bucket) {
    forall k :: 0 <= k < |bucket| ==> bucket[k] in acc
  }

  predicate HoldsAll(t: Table, b: nat, i: nat, acc: Bucket) {
    forall n :: 0 <= n < |t| && b - i < n < b + i ==> Holds(acc, t[n])
  }

  /** Exactly the contacts of the buckets that are less than `i` away, each of them once. */
  predicate GatheredOk(place: Place, t: Table, b: nat, i: nat, acc: Bucket)
    requires |t| == KEY_BITS
  {
    DistinctKeys(acc) && AllNear(place, t, b, i, acc) && HoldsAll(t, b, i, acc)
  }

  lemma AtOk(place: Place, t: Table, n: int)
    requires TableOk(place, t)
    ensures DistinctKeys(At(t, n))
    ensures forall k :: 0 <= k < |At(t, n)| ==>
              n >= 0 && InBucket(place, n, At(t, n)[k]) && FromTable(place, t, At(t, n)[k])
  {
    if 0 <= n < |t| {
      assert BucketOk(place, n, t[n]);
      assert forall k :: 0 <= k < |t[n]| ==> InBucket(place, n, t[n][k]);
    }
  }

  lemma RingNear(place: Place, t: Table, b: nat, i: nat, acc: Bucket)
    requires TableOk(place, t) && 0 < i && AllNear(place, t, b, i, acc)
    ensures AllNear(place, t, b, i + 1, acc + Ring(t, b, i))
  {
    AtNear(place, t, b, i, b - i);
    AtNear(place, t, b, i, b + i);
    WiderNear(place, t, b, i, acc);
    BothNear(place, t, b, i + 1, At(t, b - i), At(t, b + i));
    BothNear(place, t, b, i + 1, acc, Ring(t, b, i));
  }

  lemma WiderNear(place: Place, t: Table, b: nat, i: nat, acc: Bucket)
    requires |t| == KEY_BITS && AllNear(place, t, b, i, acc)
    ensures AllNear(place, t, b, i + 1, acc)
  {
    forall k | 0 <= k < |acc|
      ensures Near(place, b, i + 1, acc[k]) && FromTable(place, t, acc[k])
    {
      assert Near(place, b, i, acc[k]);
    }
  }

  lemma AtNear(place: Place, t: Table, b: nat, i: nat, n: int)
    requires TableOk(place, t) && (n == b - i || n == b + i)
    ensures AllNear(place, t, b, i + 1, At(t, n))
  {
    AtOk(place, t, n);
    forall k | 0 <= k < |At(t, n)|
      ensures Near(place, b, i + 1, At(t, n)[k]) && FromTable(place, t, At(t, n)[k])
    {
      assert InBucket(place, n, At(t, n)[k]);
    }
  }

  lemma BothNear(place: Place, t: Table, b: nat, i: nat, x: Bucket, y: Bucket)
    requires |t| == KEY_BITS && AllNear(place, t, b, i, x) && AllNear(place, t, b, i, y)
    ensures AllNear(place, t, b, i, x + y)
  {
  }

  lemma RingHolds(t: Table, b: nat, i: nat, acc: Bucket)
    requires 0 < i && HoldsAll(t, b, i, acc)
    ensures HoldsAll(t, b, i + 1, acc + Ring(t, b, i))
  {
    var below, above := At(t, b - i), At(t, b + i);
    var all := acc + (below + above);
    forall n | 0 <= n < |t| && b - (i + 1) < n < b + (i + 1)
      ensures Holds(all, t[n])
    {
      if n == b - i {
        HoldsPart(acc, below, above);
      } else if n == b + i {
        HoldsPart(acc + below, above, []);
        assert acc + below + (above + []) == all;
      } else {
        assert Holds(acc, t[n]);
      }
    }
  }

  lemma HoldsPart(a: Bucket, b: Bucket, c: Bucket)
    ensures Holds(a + (b + c), b)
  {
    assert forall k :: 0 <= k < |b| ==> (a + (b + c))[|a| + k] == b[k];
  }

  lemma RingDistinct(place: Place, t: Table, b: nat, i: nat, acc: Bucket)
    requires TableOk(place, t) && 0 < i && DistinctKeys(acc) && AllNear(place, t, b, i, acc)
    ensures DistinctKeys(acc + Ring(t, b, i))
  {
    AtOk(place, t, b - i);
    AtOk(place, t, b + i);
    Apart(place, b, i, acc, At(t, b - i), At(t, b + i));
    assert acc + Ring(t, b, i) == acc + At(t, b - i) + At(t, b + i);
  }

  lemma Apart(place: Place, b: nat, i: nat, acc: Bucket, below: Bucket, above: Bucket)
    requires 0 < i && DistinctKeys(acc) && DistinctKeys(below) && DistinctKeys(above)
    requires forall k :: 0 <= k < |acc| ==> Near(place, b, i, acc[k])
    requires forall k :: 0 <= k < |below| ==> b - i >= 0 && InBucket(place, b - i, below[k])
    requires forall k :: 0 <= k < |above| ==> InBucket(place, b + i, above[k])
    ensures DistinctKeys(acc + below + above)
  {
    assert forall k, l :: 0 <= k < |acc| && 0 <= l < |below| ==> acc[k].key != below[l].key;
    assert forall k, l :: 0 <= k < |acc| && 0 <= l < |above| ==> acc[k].key != above[l].key;
    assert forall k, l :: 0 <= k < |below| && 0 <= l < |above| ==> below[k].key != above[l].key;
  }

  /** How far away the buckets are that are not gathered any more. */
  ghost function Radius(t: Table, b: nat, i: nat, acc: Bucket): nat
    requires i > 0
    decreases KEY_BITS - i, |t|
  {
    if i < KEY_BITS && |acc| < ALPHA then Radius(t, b, i + 1, acc + Ring(t, b, i)) else i
  }

  lemma {:induction false} GatherOk(place: Place, t: Table, b: nat, i: nat, acc: Bucket)
    requires TableOk(place, t) && b < KEY_BITS && 0 < i <= KEY_BITS && GatheredOk(place, t, b, i, acc)
    ensures var i', r := Radius(t, b, i, acc), Gather(t, b, i, acc);
            GatheredOk(place, t, b, i', r) && (i' >= KEY_BITS || |r| >= ALPHA)
    decreases KEY_BITS - i, |t|
  {
    if i < KEY_BITS && |acc| < ALPHA {
      RingNear(place, t, b, i, acc);
      RingHolds(t, b, i, acc);
      RingDistinct(place, t, b, i, acc);
      GatherOk(place, t, b, i + 1, acc + Ring(t, b, i));
    }
  }

  lemma OwnOk(place: Place, t: Table, b: nat)
    requires TableOk(place, t) && b < KEY_BITS
    ensures GatheredOk(place, t, b, 1, t[b]) && |t[b]| <= K
  {
    AtOk(place, t, b);
    assert BucketOk(place, b, t[b]);
    assert forall k :: 0 <= k < |t[b]| ==> InBucket(place, b, t[b][k]);
  }

  /** What is found: the target's own bucket first, then others, at most twenty, each at most once and each from the table.
      Fewer than five are found only if there are no more. */
  lemma FindClosestMeaning(place: Place, t: Table, b: nat)
    requires TableOk(place, t) && b < KEY_BITS
    ensures var r := Closest(t, b);
            && t[b] <= r && |r| <= K && DistinctKeys(r)
            && (forall k :: 0 <= k < |r| ==> FromTable(place, t, r[k]))
            && (|r| < ALPHA ==> forall n :: 0 <= n < KEY_BITS ==> Holds(r, t[n]))
  {
    OwnOk(place, t, b);
    GatherOk(place, t, b, 1, t[b]);
    GatherExtends(t, b, 1, t[b]);
    FirstKOk(place, t, b, if |t[b]| < K then Radius(t, b, 1, t[b]) else 1, Gathered(t, b));
  }

  lemma FirstKOk(place: Place, t: Table, b: nat, i: nat, g: Bucket)
    requires TableOk(place, t) && b < KEY_BITS && GatheredOk(place, t, b, i, g)
    requires t[b] <= g && |t[b]| <= K && (i >= KEY_BITS || |g| >= ALPHA)
    ensures var r := FirstK(g);
            && t[b] <= r && |r| <= K && DistinctKeys(r)
            && (forall k :: 0 <= k < |r| ==> FromTable(place, t, r[k]))
            && (|r| < ALPHA ==> forall n :: 0 <= n < KEY_BITS ==> Holds(r, t[n]))
  {
  }

  /** A contact of the target's own bucket, which is among those found, is strictly closer to the target than every
      contact of every other bucket. */
  lemma OwnBucketFirst(self: Key, t: Table, target: Key, b: nat, i: nat, n: nat, j: nat)
    requires TableOk(PlaceFor(self), t) && BucketOf(target, self) == b < KEY_BITS
    requires i < |t[b]| && n < KEY_BITS && n != b && j < |t[n]|
    ensures i < |Closest(t, b)| && Closest(t, b)[i] == t[b][i]
    ensures Distance(t[b][i].key, target) < Distance(t[n][j].key, target)
  {
    FindClosestMeaning(PlaceFor(self), t, b);
    IsIn(PlaceFor(self), t, b, i);
    IsIn(PlaceFor(self), t, n, j);
    OwnBucketIsCloser(self, target, t[b][i].key, t[n][j].key);
  }

  lemma IsIn(place: Place, t: Table, n: nat, i: nat)
    requires TableOk(place, t) && n < KEY_BITS && i < |t[n]|
    ensures place(t[n][i].key) == n
  {
    assert BucketOk(place, n, t[n]);
    assert InBucket(place, n, t[n][i]);
  }

  lemma OnlyBelow(t: Table, b: nat)
    requires |t| == KEY_BITS && 1 <= b < KEY_BITS && |t[b]| < ALPHA && |t[b]| + |t[b - 1]| >= K
    ensures Closest(t, b) == (t[b] + t[b - 1])[..K]
  {
    var acc := t[b] + (t[b - 1] + At(t, b + 1));
    assert Ring(t, b, 1) == t[b - 1] + At(t, b + 1);
    assert Gather(t, b, 2, acc) == acc;
    assert Gather(t, b, 1, t[b]) == acc;
    assert acc == t[b] + t[b - 1] + At(t, b + 1);
  }

  /** Behind the own bucket the order is not that of the distance: when the own bucket has few contacts, the bucket before
      it is listed, and may fill the list, although every contact after it is strictly closer to the target. */
  lemma FartherBucketFirst(self: Key, t: Table, target: Key, b: nat, n: nat, i: nat, j: nat)
    requires TableOk(PlaceFor(self), t) && 1 <= b == BucketOf(target, self) < n < KEY_BITS
    requires |t[b]| < ALPHA && |t[b]| + |t[b - 1]| >= K
    requires i < |t[n]| && j < |t[b - 1]|
    ensures Closest(t, b) == (t[b] + t[b - 1])[..K]
    ensures Distance(t[n][i].key, target) < Distance(t[b - 1][j].key, target)
  {
    OnlyBelow(t, b);
    IsIn(PlaceFor(self), t, n, i);
    IsIn(PlaceFor(self), t, b - 1, j);
    LaterBucketIsCloser(self, target, t[n][i].key, t[b - 1][j].key);
  }
}
