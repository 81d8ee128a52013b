/** Which contacts a routing table has, said of its contents alone: what adding and removing a contact does, and who is in
    the table after any changes. */
module KademliaContents {
  import opened KademliaTable
  import opened KademliaKeys

  predicate Known(b: Bucket, key: Key) {
    exists i :: 0 <= i < |b| && b[i].key == key
  }

  /** The bucket has what it had, without `gone`, and with `c`. */
  predicate Exchanged(b: Bucket, gone: Contact, c: Contact, b': Bucket) {
    gone in b && multiset(b') == multiset(b) - multiset{gone} + multiset{c}
  }

  /** A contact that was known is exchanged for the new one. Otherwise the new one comes in: without loss if there are fewer
      than twenty, and else for the first of the heap. */
  predicate AddedTo(b: Bucket, c: Contact, b': Bucket) {
    && c in b'
    && (forall i :: 0 <= i < |b| && b[i].key == c.key ==> Exchanged(b, b[i], c, b'))
    && (!Known(b, c.key) ==>
          if |b| < 20 then multiset(b') == multiset(b) + multiset{c} else Exchanged(b, b[0], c, b'))
  }

  /** The contact with the key is gone, and nothing else. */
  predicate TakenFrom(b: Bucket, key: Key, b': Bucket) {
    && !Known(b', key)
    && (forall i :: 0 <= i < |b| && b[i].key == key ==> multiset(b') == multiset(b) - multiset{b[i]})
    && (!Known(b, key) ==> multiset(b') == multiset(b))
  }

  predicate OthersSame(t: Table, t': Table, n: nat) {
    |t'| == |t| && forall m :: 0 <= m < |t| && m != n ==> t'[m] == t[m]
  }

  // ---------------------------------------------------------------------------------------
  // One change

  lemma WithoutOne(b: Bucket, i: nat)
    requires i < |b|
    ensures multiset(b[..i] + b[i + 1..]) == multiset(b) - multiset{b[i]}
  {
    assert b == b[..i] + [b[i]] + b[i + 1..];
  }

  lemma ReplacedOne(b: Bucket, i: nat, c: Contact)
    requires i < |b|
    ensures multiset(b[i := c]) == multiset(b) - multiset{b[i]} + multiset{c}
  {
  }

  lemma PlacedAdds(b: Bucket, c: Contact)
    requires DistinctKeys(b)
    ensures AddedTo(b, c, Placed(b, c))
  {
    var i := IndexOf(b, c.key);
    if i < |b| {
      ReplacedAdds(b, i, c);
    } else {
      assert !Known(b, c.key);
      NewAdds(b, c);
    }
  }

  lemma ReplacedAdds(b: Bucket, i: nat, c: Contact)
    requires DistinctKeys(b) && i < |b| && b[i].key == c.key
    ensures AddedTo(b, c, b[i := c])
  {
    ReplacedOne(b, i, c);
    assert b[i := c][i] == c;
    assert b[i] in b;
    assert forall j :: 0 <= j < |b| && b[j].key == c.key ==> j == i;
  }

  lemma NewAdds(b: Bucket, c: Contact)
    requires !Known(b, c.key)
    ensures AddedTo(b, c, if |b| < K then b + [c] else b[1..] + [c])
  {
    if |b| < K {
      assert (b + [c])[|b|] == c;
    } else {
      var b' := b[1..] + [c];
      FirstGone(b);
      assert multiset(b') == multiset(b[1..]) + multiset{c};
      assert b'[|b| - 1] == c && b[0] in b;
    }
  }

  lemma FirstGone(b: Bucket)
    requires b != []
    ensures multiset(b[1..]) == multiset(b) - multiset{b[0]}
  {
    assert b == [b[0]] + b[1..];
  }

  lemma DroppedTakes(b: Bucket, key: Key)
    requires DistinctKeys(b)
    ensures TakenFrom(b, key, Dropped(b, key))
  {
    var i := IndexOf(b, key);
    if i < |b| {
      WithoutOne(b, i);
      NotAnyMore(b, i);
      OnlyOne(b, i);
    } else {
      assert !Known(b, key);
    }
  }

  lemma NotAnyMore(b: Bucket, i: nat)
    requires DistinctKeys(b) && i < |b|
    ensures !Known(b[..i] + b[i + 1..], b[i].key)
  {
    var rest := b[..i] + b[i + 1..];
    forall j | 0 <= j < |rest|
      ensures rest[j].key != b[i].key
    {
      assert rest[j] == b[if j < i then j else j + 1];
    }
  }

  lemma OnlyOne(b: Bucket, i: nat)
    requires DistinctKeys(b) && i < |b|
    ensures Known(b, b[i].key) && forall j :: 0 <= j < |b| && b[j].key == b[i].key ==> j == i
  {
  }

  lemma SameContacts(a: Bucket, b: Bucket, c: Contact)
    requires Rearranged(a, b)
    ensures c in a <==> c in b
  {
    assert c in multiset(a) <==> c in multiset(b);
  }

  lemma SameKnown(a: Bucket, b: Bucket, key: Key)
    requires Rearranged(a, b) && Known(b, key)
    ensures Known(a, key)
  {
    var i :| 0 <= i < |b| && b[i].key == key;
    SameContacts(a, b, b[i]);
    var j :| 0 <= j < |a| && a[j] == b[i];
  }

  /** Adding a contact changes its own bucket, as said, and no other. */
  lemma AddMeaning(place: Place, t: Table, c: Contact, t': Table)
    requires TableOk(place, t) && Changed(place, t, Change.Add(c), t')
    ensures var n := place(c.key);
            n < |t| && OthersSame(t, t', n) && AddedTo(t[n], c, t'[n])
  {
    var n := place(c.key);
    assert BucketOk(place, n, t[n]);
    PlacedAdds(t[n], c);
    SameContacts(Placed(t[n], c), t'[n], c);
  }

  lemma RemoveMeaning(place: Place, t: Table, key: Key, t': Table)
    requires TableOk(place, t) && Changed(place, t, Change.Remove(key), t')
    ensures var n := place(key);
            n < |t| && OthersSame(t, t', n) && TakenFrom(t[n], key, t'[n])
  {
    var n := place(key);
    assert BucketOk(place, n, t[n]);
    DroppedTakes(t[n], key);
    if Known(t'[n], key) {
      SameKnown(Dropped(t[n], key), t'[n], key);
    }
  }

  // ---------------------------------------------------------------------------------------
  // Any changes

  /** The contact is in the table. */
  predicate Contains(place: Place, t: Table, c: Contact) {
    place(c.key) < |t| && c in t[place(c.key)]
  }

  /** The change makes the contact give way to another one: its bucket is full, the other is not known, and the contact is
      the first of the heap. */
  predicate Evicts(place: Place, t: Table, ch: Change, c: Contact) {
    && ch.Add? && place(ch.contact.key) == place(c.key) < |t|
    && var b := t[place(c.key)];
       |b| >= 20 && b[0] == c && !Known(b, ch.contact.key)
  }

  /** The change puts a contact that is not known into bucket `n`, which is full. */
  predicate Overflows(place: Place, t: Table, ch: Change, n: nat) {
    ch.Add? && place(ch.contact.key) == n < |t| && |t[n]| >= 20 && !Known(t[n], ch.contact.key)
  }

  lemma ExchangedIn(b: Bucket, gone: Contact, d: Contact, b': Bucket, c: Contact)
    requires DistinctKeys(b) && Exchanged(b, gone, d, b') && c != d
    ensures c in b' <==> c in b && c != gone
  {
    DistinctBag(b);
    assert c in b' <==> c in multiset(b');
    assert c in b <==> c in multiset(b);
    assert gone in multiset(b);
  }

  lemma AddedIn(b: Bucket, d: Contact, b': Bucket, c: Contact)
    requires DistinctKeys(b) && AddedTo(b, d, b') && c.key != d.key
    ensures c in b' <==> c in b && !(|b| >= 20 && b[0] == c && !Known(b, d.key))
  {
    if Known(b, d.key) {
      var i :| 0 <= i < |b| && b[i].key == d.key;
      ExchangedIn(b, b[i], d, b', c);
    } else if |b| < 20 {
      assert c in b' <==> c in multiset(b');
      assert c in b <==> c in multiset(b);
    } else {
      ExchangedIn(b, b[0], d, b', c);
    }
  }

  lemma TakenIn(b: Bucket, key: Key, b': Bucket, c: Contact)
    requires TakenFrom(b, key, b') && c.key != key
    ensures c in b' <==> c in b
  {
    assert c in b' <==> c in multiset(b');
    assert c in b <==> c in multiset(b);
    if Known(b, key) {
      var i :| 0 <= i < |b| && b[i].key == key;
      assert multiset(b') == multiset(b) - multiset{b[i]};
    }
  }

  /** A change to another key leaves a contact where it is, unless it evicts it. */
  lemma OtherChange(place: Place, t: Table, ch: Change, t': Table, c: Contact)
    requires TableOk(place, t) && Changed(place, t, ch, t') && KeyOf(ch) != c.key
    ensures Contains(place, t', c) <==> Contains(place, t, c) && !Evicts(place, t, ch, c)
  {
    var n := place(KeyOf(ch));
    assert BucketOk(place, n, t[n]);
    match ch {
      case Add(d) =>
        AddMeaning(place, t, d, t');
        AddedIn(t[n], d, t'[n], c);
      case Remove(key) =>
        RemoveMeaning(place, t, key, t');
        TakenIn(t[n], key, t'[n], c);
    }
  }

  /** After a change to its own key a contact is in the table if and only if it is the one that was added. */
  lemma OwnChange(place: Place, t: Table, ch: Change, t': Table, c: Contact)
    requires TableOk(place, t) && Changed(place, t, ch, t') && KeyOf(ch) == c.key
    ensures Contains(place, t', c) <==> ch == Change.Add(c)
  {
    var n := place(c.key);
    ChangedOk(place, t, ch, t');
    assert BucketOk(place, n, t'[n]);
    match ch {
      case Add(d) =>
        AddMeaning(place, t, d, t');
        if c in t'[n] {
          var i, j :| 0 <= i < |t'[n]| && t'[n][i] == c && 0 <= j < |t'[n]| && t'[n][j] == d;
          assert i == j;
        }
      case Remove(key) =>
        RemoveMeaning(place, t, key, t');
    }
  }

  /** The contact was added by change `i`, no change up to `k` was of its key again, and none of them evicted it. */
  predicate StaysFrom(place: Place, changes: seq<Change>, tables: seq<Table>, i: nat, k: nat, c: Contact)
    requires i < k <= |changes| && |tables| == |changes| + 1
  {
    && changes[i] == Change.Add(c)
    && forall j :: i < j < k ==> KeyOf(changes[j]) != c.key && !Evicts(place, tables[j], changes[j], c)
  }

  predicate Stays(place: Place, changes: seq<Change>, tables: seq<Table>, k: nat, c: Contact)
    requires k <= |changes| && |tables| == |changes| + 1
  {
    exists i :: 0 <= i < k && StaysFrom(place, changes, tables, i, k, c)
  }

  lemma StaysLast(place: Place, changes: seq<Change>, tables: seq<Table>, k: nat, c: Contact)
    requires 0 < k <= |changes| && |tables| == |changes| + 1
    ensures KeyOf(changes[k - 1]) == c.key ==> (Stays(place, changes, tables, k, c) <==> changes[k - 1] == Change.Add(c))
    ensures KeyOf(changes[k - 1]) != c.key ==>
              (Stays(place, changes, tables, k, c) <==>
               Stays(place, changes, tables, k - 1, c) && !Evicts(place, tables[k - 1], changes[k - 1], c))
  {
    var last := changes[k - 1];
    if KeyOf(last) == c.key {
      if last == Change.Add(c) {
        assert StaysFrom(place, changes, tables, k - 1, k, c);
      }
    } else {
      if Stays(place, changes, tables, k, c) {
        var i :| 0 <= i < k && StaysFrom(place, changes, tables, i, k, c);
        assert StaysFrom(place, changes, tables, i, k - 1, c);
      }
      if Stays(place, changes, tables, k - 1, c) && !Evicts(place, tables[k - 1], last, c) {
        var i :| 0 <= i < k - 1 && StaysFrom(place, changes, tables, i, k - 1, c);
        assert StaysFrom(place, changes, tables, i, k, c);
      }
    }
  }

  /** After any changes, a contact is in the table if and only if it was added, its key was neither added nor removed again
      since, and it was not evicted since. */
  lemma {:induction false} InTableIff(place: Place, changes: seq<Change>, tables: seq<Table>, k: nat, c: Contact)
    requires IsTrace(place, changes, tables) && k <= |changes|
    ensures Contains(place, tables[k], c) <==> Stays(place, changes, tables, k, c)
  {
    if k > 0 {
      InTableIff(place, changes, tables, k - 1, c);
      TraceOk(place, changes, tables, k - 1);
      assert Changed(place, tables[k - 1], changes[k - 1], tables[k]);
      StaysLast(place, changes, tables, k, c);
      if KeyOf(changes[k - 1]) == c.key {
        OwnChange(place, tables[k - 1], changes[k - 1], tables[k], c);
      } else {
        OtherChange(place, tables[k - 1], changes[k - 1], tables[k], c);
      }
    }
  }

  /** So a contact that was added last for its key, and not removed since, is there if its bucket never overflowed. */
  lemma AddedStays(place: Place, changes: seq<Change>, tables: seq<Table>, i: nat, k: nat, c: Contact)
    requires IsTrace(place, changes, tables) && i < k <= |changes| && changes[i] == Change.Add(c)
    requires forall j :: i < j < k ==> KeyOf(changes[j]) != c.key && !Overflows(place, tables[j], changes[j], place(c.key))
    ensures Contains(place, tables[k], c)
  {
    assert StaysFrom(place, changes, tables, i, k, c);
    InTableIff(place, changes, tables, k, c);
  }
}
