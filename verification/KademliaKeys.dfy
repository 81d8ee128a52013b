/** Keys, their exclusive-or distance, and what the length of a shared prefix says about it. */
module KademliaKeys {

  const KEY_BYTES := 18
  const KEY_BITS := 144

  type Bytes = seq<bv8>

  type Key = k: Bytes | |k| == KEY_BYTES witness seq(KEY_BYTES, _ => 0)

  function XorBytes(a: Bytes, b: Bytes): (r: Bytes)
    requires |a| == |b|
    ensures |r| == |a|
    ensures forall i :: 0 <= i < |a| ==> r[i] == a[i] ^ b[i]
  {
    if a == [] then [] else [a[0] ^ b[0]] + XorBytes(a[1..], b[1..])
  }

  /** The exclusive or of two keys, byte by byte. */
  method Xor(a: Key, b: Key) returns (r: Key)
    ensures r == XorBytes(a, b)
  {
    var dist := new bv8[KEY_BYTES](_ => 0);
    var i := 0;
    while i < KEY_BYTES
      invariant 0 <= i <= KEY_BYTES
      invariant forall k :: 0 <= k < i ==> dist[k] == a[k] ^ b[k]
    {
      dist[i] := a[i] ^ b[i];
      i := i + 1;
    }
    r := dist[..];
  }

  /** The number of zero bits before the first one bit of a byte. */
  function LeadingZeros8(b: bv8): (r: nat)
    ensures r <= 8 && (r == 8 <==> b == 0)
  {
    if b >= 128 then 0
    else if b >= 64 then 1
    else if b >= 32 then 2
    else if b >= 16 then 3
    else if b >= 8 then 4
    else if b >= 4 then 5
    else if b >= 2 then 6
    else if b >= 1 then 7
    else 8
  }

  function Zeros(k: Bytes): (r: nat)
    ensures r <= 8 * |k|
  {
    if k == [] then 0 else if k[0] != 0 then LeadingZeros8(k[0]) else 8 + Zeros(k[1..])
  }

  lemma {:induction false} ZerosFrom(k: Bytes, i: nat)
    requires i <= |k| && forall j :: 0 <= j < i ==> k[j] == 0
    ensures Zeros(k) == 8 * i + Zeros(k[i..])
  {
    if i > 0 {
      ZerosFrom(k, i - 1);
      assert k[i - 1..][1..] == k[i..];
    } else {
      assert k[0..] == k;
    }
  }

  /** The index of the first bit that is one; the number of bits if there is none. */
  method LeadingZeros(k: Key) returns (r: nat)
    ensures r == Zeros(k)
  {
    var i := 0;
    while i < KEY_BYTES
      invariant 0 <= i <= KEY_BYTES
      invariant forall j :: 0 <= j < i ==> k[j] == 0
    {
      ZerosFrom(k, i);
      if k[i] != 0 {
        return i * 8 + LeadingZeros8(k[i]);
      }
      i := i + 1;
    }
    ZerosFrom(k, KEY_BYTES);
    r := KEY_BITS;
  }

  // ---------------------------------------------------------------------------------------
  // Distances as numbers

  function Pow256(n: nat): (r: nat)
    ensures r > 0
  {
    if n == 0 then 1 else 256 * Pow256(n - 1)
  }

  function Value8(b: bv8): (r: nat)
    ensures r < 256
  {
    b as nat
  }

  /** The number that the bytes are, the highest byte first. */
  function Number(k: Bytes): nat {
    if k == [] then 0 else Value8(k[0]) * Pow256(|k| - 1) + Number(k[1..])
  }

  /** The exclusive-or distance of two keys. */
  function Distance(a: Key, b: Key): nat {
    Number(XorBytes(a, b))
  }

  lemma {:induction false} NumberBelow(k: Bytes)
    ensures Number(k) < Pow256(|k|)
  {
    if k != [] {
      NumberBelow(k[1..]);
      Scale(Value8(k[0]), 256, Pow256(|k| - 1), Number(k[1..]), 0);
    }
  }

  lemma Scale(x: nat, y: nat, p: nat, r: nat, r': nat)
    requires x < y && r < p
    ensures x * p + r < y * p + r'
  {
    assert (x + 1) * p <= y * p;
  }

  /** More leading zeros make a smaller number. */
  lemma {:induction false} MoreZerosSmaller(a: Bytes, b: Bytes)
    requires |a| == |b| && Zeros(a) > Zeros(b)
    ensures Number(a) < Number(b)
  {
    FirstBytes(a, b);
    if a[0] == b[0] {
      MoreZerosSmaller(a[1..], b[1..]);
    } else {
      NumberBelow(a[1..]);
      Scale(Value8(a[0]), Value8(b[0]), Pow256(|a| - 1), Number(a[1..]), Number(b[1..]));
    }
  }

  lemma FirstBytes(a: Bytes, b: Bytes)
    requires |a| == |b| && Zeros(a) > Zeros(b)
    ensures |a| > 0
    ensures if a[0] == b[0] then Zeros(a[1..]) > Zeros(b[1..]) else Value8(a[0]) < Value8(b[0])
  {
    FirstByte(a);
    FirstByte(b);
    SmallerByte(a[0], b[0]);
  }

  lemma FirstByte(a: Bytes)
    requires a != []
    ensures a[0] != 0 ==> Zeros(a) == LeadingZeros8(a[0]) < 8
    ensures a[0] == 0 ==> Zeros(a) == 8 + Zeros(a[1..])
  {
  }

  lemma SmallerByte(x: bv8, y: bv8)
    ensures LeadingZeros8(x) > LeadingZeros8(y) ==> Value8(x) < Value8(y)
    ensures x == 0 && y != 0 ==> Value8(x) < Value8(y)
  {
  }

  // ---------------------------------------------------------------------------------------
  // Shared prefixes

  lemma XorRests(a: Bytes, b: Bytes)
    requires |a| == |b| && a != []
    ensures XorBytes(a, b)[0] == a[0] ^ b[0] && XorBytes(a, b)[1..] == XorBytes(a[1..], b[1..])
  {
  }

  /** Two that leave a third at the same bit share that bit too. */
  lemma {:induction false} SameZeros(a: Bytes, b: Bytes)
    requires |a| == |b| && Zeros(a) == Zeros(b) < 8 * |a|
    ensures Zeros(XorBytes(a, b)) > Zeros(a)
  {
    var x := XorBytes(a, b);
    XorRests(a, b);
    FirstByte(a);
    FirstByte(b);
    FirstByte(x);
    SameFirst8(a[0], b[0]);
    if a[0] == 0 {
      SameZeros(a[1..], b[1..]);
    }
  }

  lemma SameFirst8(x: bv8, y: bv8)
    ensures x == 0 && y == 0 ==> x ^ y == 0
    ensures x != 0 && LeadingZeros8(x) == LeadingZeros8(y) ==> LeadingZeros8(x ^ y) > LeadingZeros8(x)
  {
  }

  /** Of two that leave a third at different bits, each leaves the other where the first of them does. */
  lemma {:induction false} OtherZeros(a: Bytes, b: Bytes)
    requires |a| == |b| && Zeros(a) < Zeros(b)
    ensures Zeros(XorBytes(a, b)) == Zeros(XorBytes(b, a)) == Zeros(a)
  {
    var x, y := XorBytes(a, b), XorBytes(b, a);
    XorRests(a, b);
    XorRests(b, a);
    FirstByte(a);
    FirstByte(b);
    FirstByte(x);
    FirstByte(y);
    OtherFirst8(a[0], b[0]);
    if a[0] == 0 {
      OtherZeros(a[1..], b[1..]);
    }
  }

  lemma OtherFirst8(x: bv8, y: bv8)
    ensures x == 0 && y == 0 ==> x ^ y == 0 && y ^ x == 0
    ensures x != 0 && LeadingZeros8(x) < LeadingZeros8(y) ==> LeadingZeros8(x ^ y) == LeadingZeros8(x) == LeadingZeros8(y ^ x)
    ensures x != 0 && y == 0 ==> x ^ y == x && y ^ x == x
  {
  }

  /** The way from `a` to `b` by `s`. */
  lemma {:induction false} XorVia(a: Bytes, b: Bytes, s: Bytes)
    requires |a| == |b| == |s|
    ensures XorBytes(XorBytes(a, s), XorBytes(b, s)) == XorBytes(a, b)
  {
    if a != [] {
      XorVia(a[1..], b[1..], s[1..]);
      XorRests(a, s);
      XorRests(b, s);
      XorRests(a, b);
      XorRests(XorBytes(a, s), XorBytes(b, s));
      XorVia8(a[0], b[0], s[0]);
      SameSeq(XorBytes(XorBytes(a, s), XorBytes(b, s)), XorBytes(a, b));
    }
  }

  lemma SameSeq(x: Bytes, y: Bytes)
    requires |x| == |y| > 0 && x[0] == y[0] && x[1..] == y[1..]
    ensures x == y
  {
    assert x == [x[0]] + x[1..] && y == [y[0]] + y[1..];
  }

  lemma XorVia8(a: bv8, b: bv8, s: bv8)
    ensures (a ^ s) ^ (b ^ s) == a ^ b
  {
  }

  /** The bucket of a key in the table of the node `self`. */
  function BucketOf(key: Key, self: Key): nat {
    Zeros(XorBytes(key, self))
  }

  lemma {:induction false} AllZeros(a: Bytes, b: Bytes)
    requires |a| == |b|
    ensures Zeros(XorBytes(a, b)) == 8 * |a| <==> a == b
  {
    if a != [] {
      XorRests(a, b);
      FirstByte(XorBytes(a, b));
      XorZero8(a[0], b[0]);
      AllZeros(a[1..], b[1..]);
      assert a == [a[0]] + a[1..] && b == [b[0]] + b[1..];
    }
  }

  lemma XorZero8(x: bv8, y: bv8)
    ensures x ^ y == 0 <==> x == y
  {
  }

  /** Bit `i` of a byte, counted from the highest one. */
  predicate Bit8(b: bv8, i: nat)
    requires i < 8
    decreases i
  {
    if i == 0 then b >= 128 else Bit8(b << 1, i - 1)
  }

  /** Bit `n` of a key, counted from the highest one of its first byte. */
  predicate Bit(k: Bytes, n: nat)
    requires n < 8 * |k|
  {
    Bit8(k[n / 8], n % 8)
  }

  lemma XorTop(x: bv8, y: bv8)
    ensures x ^ y >= 128 <==> (x >= 128) != (y >= 128)
  {
  }

  lemma XorShift(x: bv8, y: bv8)
    ensures (x ^ y) << 1 == (x << 1) ^ (y << 1)
  {
  }

  lemma {:induction false} XorBit8(x: bv8, y: bv8, i: nat)
    requires i < 8
    ensures Bit8(x ^ y, i) <==> Bit8(x, i) != Bit8(y, i)
    decreases i
  {
    if i == 0 {
      XorTop(x, y);
    } else {
      XorShift(x, y);
      XorBit8(x << 1, y << 1, i - 1);
    }
  }

  lemma ZerosShift(b: bv8)
    requires b < 128
    ensures LeadingZeros8(b << 1) == if b == 0 then 8 else LeadingZeros8(b) - 1
  {
  }

  lemma {:induction false} ZerosBit8(b: bv8, i: nat)
    requires i < 8
    ensures i < LeadingZeros8(b) ==> !Bit8(b, i)
    ensures i == LeadingZeros8(b) ==> Bit8(b, i)
    decreases i
  {
    if i > 0 && b < 128 {
      ZerosShift(b);
      ZerosBit8(b << 1, i - 1);
    }
  }

  lemma {:induction false} ZerosBit(k: Bytes, n: nat)
    requires n < 8 * |k|
    ensures n < Zeros(k) ==> !Bit(k, n)
    ensures n == Zeros(k) ==> Bit(k, n)
  {
    FirstByte(k);
    if n < 8 {
      ZerosBit8(k[0], n);
    } else {
      ZerosBit(k[1..], n - 8);
      assert k[1..][(n - 8) / 8] == k[n / 8] && (n - 8) % 8 == n % 8;
    }
  }

  /** The bucket of a key is the number of bits that it shares with the node's own key before they first differ. */
  lemma BucketIsSharedPrefix(key: Key, self: Key, n: nat)
    requires n < KEY_BITS
    ensures n < BucketOf(key, self) ==> (Bit(key, n) <==> Bit(self, n))
    ensures n == BucketOf(key, self) ==> !(Bit(key, n) <==> Bit(self, n))
  {
    ZerosBit(XorBytes(key, self), n);
    XorBit8(key[n / 8], self[n / 8], n % 8);
  }

  /** Only the node's own key has no bucket. */
  lemma HasBucket(key: Key, self: Key)
    ensures BucketOf(key, self) < KEY_BITS <==> key != self
  {
    AllZeros(key, self);
  }

  /** How many leading bits a key shares with the target, by the buckets of the two: those before the target's bucket
      share as many as their own index says, those after it exactly the target's index, those in it more. */
  lemma SharedWithTarget(self: Key, target: Key, c: Key)
    requires BucketOf(target, self) < KEY_BITS
    ensures var n, b := BucketOf(c, self), BucketOf(target, self);
            && (n < b ==> BucketOf(c, target) == n)
            && (n > b ==> BucketOf(c, target) == b)
            && (n == b ==> BucketOf(c, target) > b)
  {
    var x, y := XorBytes(c, self), XorBytes(target, self);
    XorVia(c, target, self);
    if Zeros(x) < Zeros(y) {
      OtherZeros(x, y);
    } else if Zeros(y) < Zeros(x) {
      OtherZeros(y, x);
    } else {
      SameZeros(x, y);
    }
  }

  /** A longer shared prefix means a smaller distance. */
  lemma LongerPrefixIsCloser(target: Key, c: Key, d: Key)
    requires BucketOf(c, target) > BucketOf(d, target)
    ensures Distance(c, target) < Distance(d, target)
  {
    MoreZerosSmaller(XorBytes(c, target), XorBytes(d, target));
  }

  /** Keys in the bucket of the target are strictly closer to it than keys in any other bucket. */
  lemma OwnBucketIsCloser(self: Key, target: Key, c: Key, d: Key)
    requires BucketOf(target, self) < KEY_BITS
    requires BucketOf(c, self) == BucketOf(target, self) != BucketOf(d, self)
    ensures Distance(c, target) < Distance(d, target)
  {
    SharedWithTarget(self, target, c);
    SharedWithTarget(self, target, d);
    LongerPrefixIsCloser(target, c, d);
  }

  /** Keys in buckets after the target's are strictly closer to it than keys in buckets before it, and of those the
      later ones are closer. */
  lemma LaterBucketIsCloser(self: Key, target: Key, c: Key, d: Key)
    requires BucketOf(d, self) < BucketOf(target, self) && BucketOf(d, self) < BucketOf(c, self)
    ensures Distance(c, target) < Distance(d, target)
  {
    if BucketOf(target, self) < KEY_BITS {
      SharedWithTarget(self, target, c);
      SharedWithTarget(self, target, d);
    } else {
      AllZeros(target, self);
    }
    LongerPrefixIsCloser(target, c, d);
  }
}
