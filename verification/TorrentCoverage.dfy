/** What any peer at all can do to the bytes of a piece. */
module TorrentCoverage {
  import opened TorrentMessage
  import opened TorrentBlocks

  // ---------------------------------------------------------------------------------------
  // The blocks that an attempt takes in

  /** The block of a message, if it is taken in. */
  function BlockOf(index: int, length: nat, m: Incoming): seq<Block> {
    if m.Received? && m.message.id == MSG_PIECE && ParseBlock(index, length, m.message).Ok?
    then [ParseBlock(index, length, m.message).value] else []
  }

  /** All the blocks, in order. */
  function Accepted(index: int, length: nat, p: Progress, incoming: seq<Incoming>, limit: nat): seq<Block>
    decreases |incoming|
  {
    if p.downloaded >= length || incoming == [] then []
    else
      match AskIfFree(index, length, p, limit)
      case None => []
      case Some(q) =>
        match Receive(index, q, incoming[0])
        case None => []
        case Some(r) => BlockOf(index, |q.buf|, incoming[0]) + Accepted(index, length, r, incoming[1..], limit)
  }

  predicate Fits(b: Block, n: nat) {
    b.begin + |b.data| <= n
  }

  predicate AllFit(bs: seq<Block>, n: nat) {
    forall k :: 0 <= k < |bs| ==> Fits(bs[k], n)
  }

  function Total(bs: seq<Block>): nat {
    if bs == [] then 0 else |bs[0].data| + Total(bs[1..])
  }

  function WriteAll(buf: Bytes, bs: seq<Block>): (r: Bytes)
    requires AllFit(bs, |buf|)
    ensures |r| == |buf|
    decreases |bs|
  {
    if bs == [] then buf
    else
      assert Fits(bs[0], |buf|);
      assert forall k :: 0 <= k < |bs[1..]| ==> bs[1..][k] == bs[k + 1];
      WriteAll(Written(buf, bs[0]), bs[1..])
  }

  lemma {:induction false} AskKeepsBuffer(index: int, length: nat, p: Progress, limit: nat)
    requires Ask(index, length, p, limit).Some?
    ensures var q := Ask(index, length, p, limit).value;
            q.buf == p.buf && q.downloaded == p.downloaded
    decreases if p.requested < length then length - p.requested else 0
  {
    if WantsMore(length, p) {
      AskKeepsBuffer(index, length, AskNext(index, length, p), limit);
    }
  }

  /** The buffer and the count of an attempt are those of the blocks it took in, from whatever peer. */
  lemma {:induction false} AttemptIsBlocks(index: int, length: nat, p: Progress, incoming: seq<Incoming>, limit: nat)
    requires |p.buf| == length
    ensures var bs, q := Accepted(index, length, p, incoming, limit), Attempt(index, length, p, incoming, limit).0;
            && AllFit(bs, length) && q.buf == WriteAll(p.buf, bs) && q.downloaded == p.downloaded + Total(bs)
    ensures var (q, ok) := Attempt(index, length, p, incoming, limit);
            ok ==> q.downloaded >= length
    decreases |incoming|
  {
    var a := AskIfFree(index, length, p, limit);
    if p.downloaded < length && a.Some? {
      if !p.choked {
        AskKeepsBuffer(index, length, p, limit);
      }
      var q := a.value;
      if incoming != [] && Receive(index, q, incoming[0]).Some? {
        var r := Receive(index, q, incoming[0]).value;
        AttemptIsBlocks(index, length, r, incoming[1..], limit);
        var rest := Accepted(index, length, r, incoming[1..], limit);
        assert Accepted(index, length, p, incoming, limit) == BlockOf(index, |q.buf|, incoming[0]) + rest;
        FirstBlock(index, q, incoming[0], rest);
      }
    }
  }

  lemma FirstBlock(index: int, q: Progress, m: Incoming, rest: seq<Block>)
    requires Receive(index, q, m).Some? && AllFit(rest, |q.buf|)
    ensures var r, bs := Receive(index, q, m).value, BlockOf(index, |q.buf|, m) + rest;
            && |r.buf| == |q.buf| && AllFit(bs, |q.buf|)
            && WriteAll(r.buf, rest) == WriteAll(q.buf, bs) && r.downloaded + Total(rest) == q.downloaded + Total(bs)
  {
    var first := BlockOf(index, |q.buf|, m);
    var bs := first + rest;
    if first == [] {
      assert bs == rest;
    } else {
      assert bs[0] == first[0] && bs[1..] == rest;
    }
  }

  // ---------------------------------------------------------------------------------------
  // Counting bytes

  predicate In(b: Block, x: int) {
    b.begin <= x < b.begin + |b.data|
  }

  /** Every byte is in some block. */
  ghost predicate CoversAll(bs: seq<Block>, n: nat) {
    forall x :: 0 <= x < n ==> InSome(bs, x)
  }

  ghost predicate InSome(bs: seq<Block>, x: int) {
    exists k :: 0 <= k < |bs| && In(bs[k], x)
  }

  /** No byte is in two blocks. */
  ghost predicate Disjoint(bs: seq<Block>) {
    forall i, j, x :: 0 <= i < j < |bs| && In(bs[i], x) ==> !In(bs[j], x)
  }

  function Range(a: int, b: int): (r: set<int>)
    ensures forall x :: x in r <==> a <= x < b
    decreases b - a
  {
    if a < b then Range(a, b - 1) + {b - 1} else {}
  }

  lemma {:induction false} RangeSize(a: int, b: int)
    requires a <= b
    ensures |Range(a, b)| == b - a
    decreases b - a
  {
    if a < b {
      RangeSize(a, b - 1);
    }
  }

  function Span(b: Block): set<int> {
    Range(b.begin, b.begin + |b.data|)
  }

  ghost function Union(bs: seq<Block>): set<int> {
    if bs == [] then {} else Span(bs[0]) + Union(bs[1..])
  }

  lemma {:induction false} InUnion(bs: seq<Block>, x: int)
    ensures x in Union(bs) <==> InSome(bs, x)
  {
    if bs != [] {
      InUnion(bs[1..], x);
      if InSome(bs[1..], x) {
        var k :| 0 <= k < |bs[1..]| && In(bs[1..][k], x);
        assert In(bs[k + 1], x);
      }
      if InSome(bs, x) && !In(bs[0], x) {
        var k :| 0 <= k < |bs| && In(bs[k], x);
        assert In(bs[1..][k - 1], x);
      }
    }
  }

  lemma UnionParts(a: set<int>, b: set<int>)
    ensures |a + b| + |a * b| == |a| + |b|
  {
    assert a + b == a + (b - a);
    assert b == (b - a) + a * b;
    assert |b| == |b - a| + |a * b|;
  }

  /** The first block shares no byte with the others. */
  ghost predicate Apart(b: Block, bs: seq<Block>) {
    forall k, x :: 0 <= k < |bs| && In(b, x) ==> !In(bs[k], x)
  }

  lemma ApartIff(b: Block, bs: seq<Block>)
    ensures Apart(b, bs) <==> Span(b) * Union(bs) == {}
  {
    if Apart(b, bs) {
      forall x | x in Span(b)
        ensures x !in Union(bs)
      {
        InUnion(bs, x);
        assert In(b, x);
      }
    }
    if Span(b) * Union(bs) == {} {
      forall k, x | 0 <= k < |bs| && In(b, x)
        ensures !In(bs[k], x)
      {
        InUnion(bs, x);
        assert x in Span(b) && x !in Span(b) * Union(bs);
      }
    }
  }

  lemma DisjointSplit(bs: seq<Block>)
    requires bs != []
    ensures Disjoint(bs) <==> Apart(bs[0], bs[1..]) && Disjoint(bs[1..])
  {
    var rest := bs[1..];
    assert forall k :: 0 <= k < |rest| ==> rest[k] == bs[k + 1];
    if Disjoint(bs) {
      forall i, j, x | 0 <= i < j < |rest| && In(rest[i], x)
        ensures !In(rest[j], x)
      {
        assert In(bs[i + 1], x);
      }
      forall k, x | 0 <= k < |rest| && In(bs[0], x)
        ensures !In(rest[k], x)
      {
        assert !In(bs[k + 1], x);
      }
    }
    if Apart(bs[0], rest) && Disjoint(rest) {
      forall i, j, x | 0 <= i < j < |bs| && In(bs[i], x)
        ensures !In(bs[j], x)
      {
        assert bs[j] == rest[j - 1];
        assert i > 0 ==> In(rest[i - 1], x);
      }
    }
  }

  lemma JoinSize(a: set<int>, u: set<int>, n: nat)
    requires |u| <= n
    ensures |a + u| <= |a| + n
    ensures |a + u| == |a| + n <==> a * u == {} && |u| == n
  {
    UnionParts(a, u);
  }

  /** There are at most as many bytes as the blocks have together, and as many only if no byte is in two blocks. */
  lemma {:induction false} UnionSize(bs: seq<Block>)
    ensures |Union(bs)| <= Total(bs)
    ensures |Union(bs)| == Total(bs) <==> Disjoint(bs)
  {
    if bs != [] {
      var b, rest := bs[0], bs[1..];
      UnionSize(rest);
      SpanSize(b);
      JoinSize(Span(b), Union(rest), Total(rest));
      ApartIff(b, rest);
      DisjointSplit(bs);
    }
  }

  lemma SpanSize(b: Block)
    ensures |Span(b)| == |b.data|
  {
    RangeSize(b.begin, b.begin + |b.data|);
  }

  lemma UnionInside(bs: seq<Block>, n: nat)
    requires AllFit(bs, n)
    ensures Union(bs) <= Range(0, n) && |Union(bs)| <= n
    ensures |Union(bs)| == n <==> CoversAll(bs, n)
  {
    forall x | x in Union(bs)
      ensures x in Range(0, n)
    {
      InUnion(bs, x);
      var k :| 0 <= k < |bs| && In(bs[k], x);
      assert Fits(bs[k], n);
    }
    RangeSize(0, n);
    Subset(Union(bs), Range(0, n));
    if CoversAll(bs, n) {
      forall x | 0 <= x < n
        ensures x in Union(bs)
      {
        InUnion(bs, x);
      }
      assert Union(bs) == Range(0, n);
    }
    if Union(bs) == Range(0, n) {
      forall x | 0 <= x < n
        ensures InSome(bs, x)
      {
        InUnion(bs, x);
        assert x in Range(0, n);
      }
    }
  }

  lemma Subset(a: set<int>, b: set<int>)
    requires a <= b
    ensures |a| <= |b| && (|a| == |b| <==> a == b)
  {
    assert b == a + (b - a);
    assert |b| == |a| + |b - a|;
  }

  // ---------------------------------------------------------------------------------------
  // When a complete piece is really complete

  /** An attempt that ends as complete has got every byte, and none of them twice, if and only if no two of the blocks
      that it took in overlap. If it counted exactly as many bytes as the piece has, that is so if and only if every byte
      was written. */
  lemma CompleteIff(index: int, length: nat, choked: bool, incoming: seq<Incoming>, limit: nat)
    requires Attempt(index, length, FirstProgress(length, choked), incoming, limit).1
    ensures var p := FirstProgress(length, choked);
            var q, bs := Attempt(index, length, p, incoming, limit).0, Accepted(index, length, p, incoming, limit);
            && (Disjoint(bs) <==> q.downloaded == length && CoversAll(bs, length))
            && (q.downloaded == length ==> (CoversAll(bs, length) <==> Disjoint(bs)))
  {
    var p := FirstProgress(length, choked);
    var bs := Accepted(index, length, p, incoming, limit);
    AttemptIsBlocks(index, length, p, incoming, limit);
    UnionSize(bs);
    UnionInside(bs, length);
  }

  /** And then every byte is the one of its own block. */
  lemma {:induction false} OwnBytes(buf: Bytes, bs: seq<Block>, k: nat, x: nat)
    requires AllFit(bs, |buf|) && Disjoint(bs) && k < |bs| && In(bs[k], x)
    ensures WriteAll(buf, bs)[x] == bs[k].data[x - bs[k].begin]
    decreases |bs|
  {
    assert Fits(bs[0], |buf|) && Fits(bs[k], |buf|);
    var rest := bs[1..];
    assert forall i :: 0 <= i < |rest| ==> rest[i] == bs[i + 1];
    DisjointSplit(bs);
    if k == 0 {
      Unwritten(Written(buf, bs[0]), rest, x);
    } else {
      OwnBytes(Written(buf, bs[0]), rest, k - 1, x);
    }
  }

  lemma {:induction false} Unwritten(buf: Bytes, bs: seq<Block>, x: nat)
    requires AllFit(bs, |buf|) && x < |buf| && forall k :: 0 <= k < |bs| ==> !In(bs[k], x)
    ensures WriteAll(buf, bs)[x] == buf[x]
    decreases |bs|
  {
    if bs != [] {
      assert Fits(bs[0], |buf|) && !In(bs[0], x);
      var rest := bs[1..];
      assert forall i :: 0 <= i < |rest| ==> rest[i] == bs[i + 1];
      Unwritten(Written(buf, bs[0]), rest, x);
    }
  }
}
