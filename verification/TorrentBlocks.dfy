/** How one piece is asked for, block by block, and put together from the answers. */
module TorrentBlocks {
  import opened TorrentMessage

  const MAX_BLOCK := 16384
  const MAX_BACKLOG := 5

  datatype Request = Request(index: int, begin: int, length: int)

  /** What a read from the connection gives. */
  datatype Incoming = Broken | KeepAlive | Received(message: Message)

  /** The state of an attempt, with what it asked for so far. */
  datatype Progress = Progress(choked: bool, sent: seq<Request>, buf: Bytes, downloaded: int, requested: int, backlog: int)

  function FirstProgress(length: nat, choked: bool): Progress {
    Progress(choked, [], seq(length, _ => 0), 0, 0, 0)
  }

  function BlockSize(length: nat, begin: int): int {
    if length - begin < MAX_BLOCK then length - begin else MAX_BLOCK
  }

  predicate WantsMore(length: nat, p: Progress) {
    p.backlog < MAX_BACKLOG && p.requested < length
  }

  function AskNext(index: int, length: nat, p: Progress): Progress {
    var size := BlockSize(length, p.requested);
    p.(sent := p.sent + [Request(index, p.requested, size)], backlog := p.backlog + 1, requested := p.requested + size)
  }

  /** Sends requests until enough are unanswered. Only `limit` requests can be written before the connection fails. */
  function Ask(index: int, length: nat, p: Progress, limit: nat): Option<Progress>
    decreases if p.requested < length then length - p.requested else 0
  {
    if !WantsMore(length, p) then Some(p)
    else if |p.sent| >= limit then None
    else Ask(index, length, AskNext(index, length, p), limit)
  }

  /** One message is taken in. */
  function Receive(index: int, p: Progress, m: Incoming): Option<Progress> {
    match m
    case Broken => None
    case KeepAlive => Some(p)
    case Received(msg) =>
      if msg.id == MSG_UNCHOKE then Some(p.(choked := false))
      else if msg.id == MSG_CHOKE then Some(p.(choked := true))
      else if msg.id == MSG_HAVE then (if ParseHave(msg).Ok? then Some(p) else None)
      else if msg.id == MSG_PIECE then
        match ParseBlock(index, |p.buf|, msg)
        case Err => None
        case Ok(b) =>
          Some(p.(buf := Written(p.buf, b), downloaded := p.downloaded + |b.data|, backlog := p.backlog - 1))
      else Some(p)
  }

  function AskIfFree(index: int, length: nat, p: Progress, limit: nat): Option<Progress> {
    if p.choked then Some(p) else Ask(index, length, p, limit)
  }

  /** The whole attempt. Its result is the last state that was reached and whether the piece was complete then. */
  function Attempt(index: int, length: nat, p: Progress, incoming: seq<Incoming>, limit: nat): (Progress, bool)
    decreases |incoming|
  {
    if p.downloaded >= length then (p, true)
    else
      match AskIfFree(index, length, p, limit)
      case None => (p, false)
      case Some(q) =>
        if incoming == [] then (q, false)
        else
          match Receive(index, q, incoming[0])
          case None => (q, false)
          case Some(r) => Attempt(index, length, r, incoming[1..], limit)
  }

  // ---------------------------------------------------------------------------------------
  // What was asked for

  /** How many bytes the first `n` blocks have. */
  function Covered(length: nat, n: nat): nat {
    if n * MAX_BLOCK < length then n * MAX_BLOCK else length
  }

  function BlockAt(index: int, length: nat, k: nat): Request {
    Request(index, k * MAX_BLOCK, BlockSize(length, k * MAX_BLOCK))
  }

  predicate IsBlock(index: int, length: nat, sent: seq<Request>, k: nat)
    requires k < |sent|
  {
    sent[k] == BlockAt(index, length, k) && k * MAX_BLOCK < length
  }

  /** The requests are the first blocks of the piece, one after the other. */
  predicate AsksInOrder(index: int, length: nat, p: Progress) {
    && (forall k :: 0 <= k < |p.sent| ==> IsBlock(index, length, p.sent, k))
    && p.requested == Covered(length, |p.sent|)
    && |p.buf| == length && p.backlog <= MAX_BACKLOG
  }

  lemma AskNextInOrder(index: int, length: nat, p: Progress)
    requires AsksInOrder(index, length, p) && WantsMore(length, p)
    ensures AsksInOrder(index, length, AskNext(index, length, p))
    ensures p.requested == |p.sent| * MAX_BLOCK
  {
    var q := AskNext(index, length, p);
    forall k | 0 <= k < |q.sent|
      ensures IsBlock(index, length, q.sent, k)
    {
      assert k < |p.sent| ==> IsBlock(index, length, p.sent, k);
    }
  }

  lemma ReceiveInOrder(index: int, length: nat, p: Progress, m: Incoming)
    requires AsksInOrder(index, length, p) && Receive(index, p, m).Some?
    ensures AsksInOrder(index, length, Receive(index, p, m).value)
  {
    var r := Receive(index, p, m).value;
    assert forall k :: 0 <= k < |r.sent| ==> IsBlock(index, length, p.sent, k) ==> IsBlock(index, length, r.sent, k);
  }

  lemma {:induction false} AskInOrder(index: int, length: nat, p: Progress, limit: nat)
    requires AsksInOrder(index, length, p) && Ask(index, length, p, limit).Some?
    ensures AsksInOrder(index, length, Ask(index, length, p, limit).value)
    decreases if p.requested < length then length - p.requested else 0
  {
    if WantsMore(length, p) {
      AskNextInOrder(index, length, p);
      AskInOrder(index, length, AskNext(index, length, p), limit);
    }
  }

  /** Whatever the peer sends, the requests are consecutive blocks of at most 16384 bytes from the start of the piece,
      never past its end, and the counter of the backlog is never above five. */
  lemma {:induction false} RequestsTile(index: int, length: nat, p: Progress, incoming: seq<Incoming>, limit: nat)
    requires AsksInOrder(index, length, p)
    ensures AsksInOrder(index, length, Attempt(index, length, p, incoming, limit).0)
    decreases |incoming|
  {
    if p.downloaded < length {
      var a := AskIfFree(index, length, p, limit);
      if a.Some? {
        if !p.choked {
          AskInOrder(index, length, p, limit);
        }
        if incoming != [] && Receive(index, a.value, incoming[0]).Some? {
          ReceiveInOrder(index, length, a.value, incoming[0]);
          RequestsTile(index, length, Receive(index, a.value, incoming[0]).value, incoming[1..], limit);
        }
      }
    }
  }

  // ---------------------------------------------------------------------------------------
  // Which requests are answered

  /** How many bytes of the answered blocks there are. */
  function Got(length: nat, answered: seq<bool>): int {
    if answered == [] then 0
    else
      var n := |answered| - 1;
      Got(length, answered[..n]) + if answered[n] then BlockSize(length, n * MAX_BLOCK) else 0
  }

  function Open(answered: seq<bool>): nat {
    if answered == [] then 0
    else
      var n := |answered| - 1;
      Open(answered[..n]) + if answered[n] then 0 else 1
  }

  lemma OneMoreOpen(length: nat, answered: seq<bool>)
    ensures Got(length, answered + [false]) == Got(length, answered)
    ensures Open(answered + [false]) == Open(answered) + 1
  {
    assert (answered + [false])[..|answered|] == answered;
  }

  lemma {:induction false} OneAnswered(length: nat, answered: seq<bool>, j: nat)
    requires j < |answered| && !answered[j]
    ensures Got(length, answered[j := true]) == Got(length, answered) + BlockSize(length, j * MAX_BLOCK)
    ensures Open(answered[j := true]) == Open(answered) - 1
  {
    var n := |answered| - 1;
    if j == n {
      assert answered[j := true][..n] == answered[..n];
    } else {
      OneAnswered(length, answered[..n], j);
      assert answered[j := true][..n] == answered[..n][j := true];
    }
  }

  /** The answers are never more than what was asked for, and as much only if nothing is open. */
  lemma {:induction false} GotAtMost(length: nat, answered: seq<bool>)
    requires |answered| > 0 ==> (|answered| - 1) * MAX_BLOCK < length
    ensures 0 <= Got(length, answered) <= Covered(length, |answered|)
    ensures Got(length, answered) == Covered(length, |answered|) ==> Open(answered) == 0
  {
    if answered != [] {
      GotAtMost(length, answered[..|answered| - 1]);
    }
  }

  lemma {:induction false} NothingOpen(answered: seq<bool>, j: nat)
    requires Open(answered) == 0 && j < |answered|
    ensures answered[j]
  {
    if j < |answered| - 1 {
      NothingOpen(answered[..|answered| - 1], j);
    }
  }

  // ---------------------------------------------------------------------------------------
  // A peer that answers each request once

  /** Byte `x` of the buffer is right once its block is answered. */
  predicate ByteOk(content: Bytes, p: Progress, answered: seq<bool>, x: nat)
    requires x < |content| == |p.buf|
  {
    x / MAX_BLOCK < |answered| && answered[x / MAX_BLOCK] ==> p.buf[x] == content[x]
  }

  predicate Filled(content: Bytes, p: Progress, answered: seq<bool>)
    requires |content| == |p.buf|
  {
    forall x :: 0 <= x < |content| ==> ByteOk(content, p, answered, x)
  }

  predicate InStep(index: int, content: Bytes, p: Progress, answered: seq<bool>) {
    && AsksInOrder(index, |content|, p)
    && |answered| == |p.sent|
    && p.downloaded == Got(|content|, answered)
    && p.backlog == Open(answered)
    && Filled(content, p, answered)
  }

  /** The message is no piece, or it is the answer to a request that is open. */
  predicate Fair(index: int, content: Bytes, answered: seq<bool>, m: Incoming) {
    m.Received? && m.message.id == MSG_PIECE ==>
      var b := ParseBlock(index, |content|, m.message);
      b.Ok? ==> Answers(content, answered, b.value)
  }

  predicate Answers(content: Bytes, answered: seq<bool>, b: Block) {
    var j := b.begin / MAX_BLOCK;
    && b.begin % MAX_BLOCK == 0
    && j < |answered| && !answered[j]
    && b.begin < |content|
    && b.data == content[b.begin..b.begin + BlockSize(|content|, b.begin)]
  }

  function Answered(index: int, content: Bytes, answered: seq<bool>, m: Incoming): seq<bool>
    requires Fair(index, content, answered, m)
  {
    if m.Received? && m.message.id == MSG_PIECE && ParseBlock(index, |content|, m.message).Ok? then
      answered[ParseBlock(index, |content|, m.message).value.begin / MAX_BLOCK := true]
    else answered
  }

  /** All requests that were sent by now and are not answered yet are open. */
  function WithOpen(answered: seq<bool>, n: nat): (r: seq<bool>)
    requires |answered| <= n
    ensures |r| == n
  {
    answered + seq(n - |answered|, _ => false)
  }

  /** Every message that the attempt takes in is fair. */
  ghost predicate FairRun(index: int, content: Bytes, p: Progress, answered: seq<bool>, incoming: seq<Incoming>, limit: nat)
    decreases |incoming|
  {
    var a := AskIfFree(index, |content|, p, limit);
    p.downloaded < |content| && a.Some? && incoming != [] && |answered| <= |a.value.sent| ==>
      var open := WithOpen(answered, |a.value.sent|);
      && Fair(index, content, open, incoming[0])
      && (var r := Receive(index, a.value, incoming[0]);
          r.Some? ==> FairRun(index, content, r.value, Answered(index, content, open, incoming[0]), incoming[1..], limit))
  }

  lemma AskNextInStep(index: int, content: Bytes, p: Progress, answered: seq<bool>)
    requires InStep(index, content, p, answered) && WantsMore(|content|, p)
    ensures InStep(index, content, AskNext(index, |content|, p), answered + [false])
  {
    var q := AskNext(index, |content|, p);
    AskNextInOrder(index, |content|, p);
    OneMoreOpen(|content|, answered);
    forall x | 0 <= x < |content|
      ensures ByteOk(content, q, answered + [false], x)
    {
      assert ByteOk(content, p, answered, x);
    }
  }

  lemma {:induction false} AskInStep(index: int, content: Bytes, p: Progress, answered: seq<bool>, limit: nat)
    requires InStep(index, content, p, answered) && Ask(index, |content|, p, limit).Some?
    ensures var q := Ask(index, |content|, p, limit).value;
            |answered| <= |q.sent| && InStep(index, content, q, WithOpen(answered, |q.sent|))
    ensures var q := Ask(index, |content|, p, limit).value;
            !WantsMore(|content|, q)
    decreases if p.requested < |content| then |content| - p.requested else 0
  {
    if WantsMore(|content|, p) {
      AskNextInStep(index, content, p, answered);
      var p1 := AskNext(index, |content|, p);
      AskInStep(index, content, p1, answered + [false], limit);
      var n := |Ask(index, |content|, p1, limit).value.sent|;
      assert WithOpen(answered + [false], n) == WithOpen(answered, n);
    } else {
      assert WithOpen(answered, |p.sent|) == answered;
    }
  }

  lemma BlockInStep(index: int, content: Bytes, p: Progress, answered: seq<bool>, b: Block)
    requires InStep(index, content, p, answered) && Answers(content, answered, b)
    ensures InStep(index, content,
                   p.(buf := Written(p.buf, b), downloaded := p.downloaded + |b.data|, backlog := p.backlog - 1),
                   answered[b.begin / MAX_BLOCK := true])
  {
    var j := b.begin / MAX_BLOCK;
    var answered' := answered[j := true];
    var r := p.(buf := Written(p.buf, b), downloaded := p.downloaded + |b.data|, backlog := p.backlog - 1);
    OneAnswered(|content|, answered, j);
    assert forall k :: 0 <= k < |r.sent| ==> IsBlock(index, |content|, p.sent, k) ==> IsBlock(index, |content|, r.sent, k);
    forall x | 0 <= x < |content|
      ensures ByteOk(content, r, answered', x)
    {
      assert ByteOk(content, p, answered, x);
      BlockBytes(content, p.buf, b, x);
    }
  }

  /** The bytes of a block are those with its number. */
  lemma BlockBytes(content: Bytes, buf: Bytes, b: Block, x: nat)
    requires x < |content| == |buf| && b.begin < |content| && b.begin % MAX_BLOCK == 0
    requires b.data == content[b.begin..b.begin + BlockSize(|content|, b.begin)]
    ensures Written(buf, b)[x] == if x / MAX_BLOCK == b.begin / MAX_BLOCK then content[x] else buf[x]
  {
    assert x / MAX_BLOCK == b.begin / MAX_BLOCK <==> b.begin <= x < b.begin + MAX_BLOCK;
  }

  lemma ReceiveInStep(index: int, content: Bytes, p: Progress, answered: seq<bool>, m: Incoming)
    requires InStep(index, content, p, answered) && Fair(index, content, answered, m) && Receive(index, p, m).Some?
    ensures InStep(index, content, Receive(index, p, m).value, Answered(index, content, answered, m))
  {
    if m.Received? && m.message.id == MSG_PIECE {
      BlockInStep(index, content, p, answered, ParseBlock(index, |content|, m.message).value);
    } else {
      var r := Receive(index, p, m).value;
      assert r == p.(choked := r.choked);
      OnlyChoke(index, content, p, answered, r.choked);
    }
  }

  lemma OnlyChoke(index: int, content: Bytes, p: Progress, answered: seq<bool>, choked: bool)
    requires InStep(index, content, p, answered)
    ensures InStep(index, content, p.(choked := choked), answered)
  {
    var r := p.(choked := choked);
    assert forall k :: 0 <= k < |r.sent| ==> IsBlock(index, |content|, p.sent, k) ==> IsBlock(index, |content|, r.sent, k);
    assert forall x :: 0 <= x < |content| ==> ByteOk(content, p, answered, x) ==> ByteOk(content, r, answered, x);
  }

  /** What is true of the counters and the buffer, whenever a fair attempt is looked at. */
  predicate Healthy(content: Bytes, p: Progress) {
    && 0 <= p.backlog <= MAX_BACKLOG
    && 0 <= p.downloaded <= p.requested <= |content|
    && (p.downloaded == |content| ==> p.buf == content && p.backlog == 0)
  }

  lemma InStepHealthy(index: int, content: Bytes, p: Progress, answered: seq<bool>)
    requires InStep(index, content, p, answered)
    ensures Healthy(content, p)
  {
    if p.sent != [] {
      assert IsBlock(index, |content|, p.sent, |p.sent| - 1);
    }
    GotAtMost(|content|, answered);
    if p.downloaded == |content| {
      forall x | 0 <= x < |content|
        ensures p.buf[x] == content[x]
      {
        assert x / MAX_BLOCK < |answered|;
        NothingOpen(answered, x / MAX_BLOCK);
        assert ByteOk(content, p, answered, x);
      }
    }
  }

  lemma {:induction false} FairAttempt(
    index: int, content: Bytes, p: Progress, answered: seq<bool>, incoming: seq<Incoming>, limit: nat)
    requires InStep(index, content, p, answered) && FairRun(index, content, p, answered, incoming, limit)
    ensures var (q, ok) := Attempt(index, |content|, p, incoming, limit);
            Healthy(content, q) && (ok ==> q.downloaded == |content|)
    decreases |incoming|
  {
    InStepHealthy(index, content, p, answered);
    var a := AskIfFree(index, |content|, p, limit);
    if p.downloaded < |content| && a.Some? {
      var q := a.value;
      if p.choked {
        assert WithOpen(answered, |p.sent|) == answered;
      } else {
        AskInStep(index, content, p, answered, limit);
      }
      var open := WithOpen(answered, |q.sent|);
      InStepHealthy(index, content, q, open);
      if incoming != [] && Receive(index, q, incoming[0]).Some? {
        ReceiveInStep(index, content, q, open, incoming[0]);
        FairAttempt(index, content, Receive(index, q, incoming[0]).value,
                    Answered(index, content, open, incoming[0]), incoming[1..], limit);
      }
    }
  }

  lemma FirstInStep(index: int, content: Bytes, choked: bool)
    ensures InStep(index, content, FirstProgress(|content|, choked), [])
  {
  }

  /** With a peer that answers each request once, in any order and with any other messages between, the counters stay in
      their ranges at every point, and a complete piece is the content of the peer, every byte from its own block. */
  lemma FairDownload(index: int, content: Bytes, choked: bool, incoming: seq<Incoming>, limit: nat)
    requires FairRun(index, content, FirstProgress(|content|, choked), [], incoming, limit)
    ensures var (q, ok) := Attempt(index, |content|, FirstProgress(|content|, choked), incoming, limit);
            Healthy(content, q) && (ok ==> q.buf == content && q.requested == |content| && q.backlog == 0)
  {
    FirstInStep(index, content, choked);
    FairAttempt(index, content, FirstProgress(|content|, choked), [], incoming, limit);
  }

  /** An attempt that is not complete and may ask always has something to wait for. */
  lemma WaitsForSomething(index: int, content: Bytes, p: Progress, answered: seq<bool>, limit: nat)
    requires InStep(index, content, p, answered) && p.downloaded < |content| && !p.choked
    requires Ask(index, |content|, p, limit).Some?
    ensures Ask(index, |content|, p, limit).value.backlog > 0
  {
    AskInStep(index, content, p, answered, limit);
    var q := Ask(index, |content|, p, limit).value;
    AskKeepsCount(index, |content|, p, limit);
    if q.sent != [] {
      assert IsBlock(index, |content|, q.sent, |q.sent| - 1);
    }
    NoneOpen(|content|, WithOpen(answered, |q.sent|));
  }

  lemma {:induction false} AskKeepsCount(index: int, length: nat, p: Progress, limit: nat)
    requires Ask(index, length, p, limit).Some?
    ensures Ask(index, length, p, limit).value.downloaded == p.downloaded
    decreases if p.requested < length then length - p.requested else 0
  {
    if WantsMore(length, p) {
      AskKeepsCount(index, length, AskNext(index, length, p), limit);
    }
  }

  lemma {:induction false} NoneOpen(length: nat, answered: seq<bool>)
    requires |answered| > 0 ==> (|answered| - 1) * MAX_BLOCK < length
    ensures Open(answered) == 0 ==> Got(length, answered) == Covered(length, |answered|)
  {
    if answered != [] {
      NoneOpen(length, answered[..|answered| - 1]);
    }
  }

  /** What a peer writes to the wire to answer a request is taken in as that answer. */
  lemma AnswerIsTakenIn(index: int, content: Bytes, p: Progress, answered: seq<bool>, k: nat)
    requires InStep(index, content, p, answered) && k < |answered| && !answered[k]
    requires 0 <= index < U32 && |content| <= U32
    ensures k * MAX_BLOCK < |content|
    ensures var m := Received(PieceMessage(index, k * MAX_BLOCK, BlockContent(content, k)));
            && Receive(index, p, m).Some? && Fair(index, content, answered, m)
            && Answered(index, content, answered, m) == answered[k := true]
  {
    assert IsBlock(index, |content|, p.sent, k);
    PieceRoundTrip(index, k * MAX_BLOCK, BlockContent(content, k), |content|);
    assert k * MAX_BLOCK / MAX_BLOCK == k;
  }

  /** The bytes of block `k`. */
  function BlockContent(content: Bytes, k: nat): Bytes
    requires k * MAX_BLOCK < |content|
  {
    content[k * MAX_BLOCK..k * MAX_BLOCK + BlockSize(|content|, k * MAX_BLOCK)]
  }

  /** A peer that answers one request twice can end the attempt with bytes that nobody sent: only the number of bytes is
      counted. It is the digest that rejects such a piece. */
  lemma SameBlockTwice()
    ensures var m := Received(PieceMessage(0, 0, [7]));
            var (q, ok) := Attempt(0, 2, FirstProgress(2, false), [m, m], 1);
            ok && q.buf == [7, 0] && q.downloaded == 2 == q.requested && q.backlog == -1
  {
    var m := Received(PieceMessage(0, 0, [7]));
    PieceRoundTrip(0, 0, [7], 2);
    var p0 := FirstProgress(2, false);
    var p1 := AskNext(0, 2, p0);
    assert Ask(0, 2, p0, 1) == Some(p1);
    var p2 := Receive(0, p1, m).value;
    assert p2 == p1.(buf := [7, 0], downloaded := 1, backlog := 0);
    assert Ask(0, 2, p2, 1) == Some(p2);
    var p3 := Receive(0, p2, m).value;
    assert p3 == p1.(buf := [7, 0], downloaded := 2, backlog := -1);
    assert Attempt(0, 2, p3, [], 1) == (p3, true);
    assert [m, m][1..] == [m] && [m][1..] == [];
    assert Attempt(0, 2, p2, [m], 1) == (p3, true);
  }
}
