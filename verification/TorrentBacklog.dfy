/** How many requests of an attempt are open, for any peer at all. */
module TorrentBacklog {
  import opened TorrentMessage
  import opened TorrentBlocks
  import opened TorrentCoverage

  /** Which requests are answered, by their place among those sent, and the blocks that answered no open request. */
  datatype Books = Books(answered: set<int>, strays: seq<Block>)

  const NO_BOOKS := Books({}, [])

  /** The block has the begin and the size of a request that is open. */
  predicate IsAnswer(sent: seq<Request>, answered: set<int>, b: Block, j: int)
    requires 0 <= j < |sent|
  {
    j !in answered && sent[j].begin == b.begin && sent[j].length == |b.data|
  }

  /** The last of the first `n` requests that the block answers, or -1. */
  function AnswerTo(sent: seq<Request>, answered: set<int>, b: Block, n: nat): (r: int)
    requires n <= |sent|
    ensures -1 <= r < n
    ensures r >= 0 ==> IsAnswer(sent, answered, b, r)
    ensures r == -1 ==> forall j :: 0 <= j < n ==> !IsAnswer(sent, answered, b, j)
  {
    if n == 0 then -1
    else if IsAnswer(sent, answered, b, n - 1) then n - 1
    else AnswerTo(sent, answered, b, n - 1)
  }

  function Enter(sent: seq<Request>, books: Books, b: Block): Books {
    var j := AnswerTo(sent, books.answered, b, |sent|);
    if j >= 0 then books.(answered := books.answered + {j}) else books.(strays := books.strays + [b])
  }

  function EnterMessage(index: int, q: Progress, books: Books, m: Incoming): Books {
    var bs := BlockOf(index, |q.buf|, m);
    if bs == [] then books else Enter(q.sent, books, bs[0])
  }

  /** The books at the end of an attempt. */
  function BooksOf(index: int, length: nat, p: Progress, books: Books, incoming: seq<Incoming>, limit: nat): Books
    decreases |incoming|
  {
    if p.downloaded >= length || incoming == [] then books
    else
      match AskIfFree(index, length, p, limit)
      case None => books
      case Some(q) =>
        match Receive(index, q, incoming[0])
        case None => books
        case Some(r) => BooksOf(index, length, r, EnterMessage(index, q, books, incoming[0]), incoming[1..], limit)
  }

  function OpenRequests(sent: seq<Request>, answered: set<int>): set<int> {
    set j | 0 <= j < |sent| && j !in answered
  }

  // ---------------------------------------------------------------------------------------
  // The books balance

  /** A request that is sent and not answered is one that the backlog counts, or one that a stray block took off it. */
  predicate Balanced(p: Progress, books: Books) {
    && (forall j :: j in books.answered ==> 0 <= j < |p.sent|)
    && |p.sent| - |books.answered| == p.backlog + |books.strays|
  }

  lemma {:induction false} AskBalanced(index: int, length: nat, p: Progress, limit: nat, books: Books)
    requires Balanced(p, books) && Ask(index, length, p, limit).Some?
    ensures Balanced(Ask(index, length, p, limit).value, books)
    decreases if p.requested < length then length - p.requested else 0
  {
    if WantsMore(length, p) {
      AskBalanced(index, length, AskNext(index, length, p), limit, books);
    }
  }

  lemma ReceiveBalanced(index: int, q: Progress, books: Books, m: Incoming)
    requires Balanced(q, books) && Receive(index, q, m).Some?
    ensures Balanced(Receive(index, q, m).value, EnterMessage(index, q, books, m))
    ensures var books' := EnterMessage(index, q, books, m);
            |books'.answered| + |books'.strays| == |books.answered| + |books.strays| + |BlockOf(index, |q.buf|, m)|
  {
  }

  lemma {:induction false} AttemptBalanced(
    index: int, length: nat, p: Progress, books: Books, incoming: seq<Incoming>, limit: nat)
    requires Balanced(p, books)
    ensures var q, end := Attempt(index, length, p, incoming, limit).0, BooksOf(index, length, p, books, incoming, limit);
            && Balanced(q, end)
            && |end.answered| + |end.strays|
               == |books.answered| + |books.strays| + |Accepted(index, length, p, incoming, limit)|
    decreases |incoming|
  {
    var a := AskIfFree(index, length, p, limit);
    if p.downloaded < length && a.Some? {
      if !p.choked {
        AskBalanced(index, length, p, limit, books);
      }
      var q := a.value;
      if incoming != [] && Receive(index, q, incoming[0]).Some? {
        ReceiveBalanced(index, q, books, incoming[0]);
        AttemptBalanced(index, length, Receive(index, q, incoming[0]).value, EnterMessage(index, q, books, incoming[0]),
                        incoming[1..], limit);
      }
    }
  }

  lemma {:induction false} OpenSize(sent: seq<Request>, answered: set<int>)
    requires forall j :: j in answered ==> 0 <= j < |sent|
    ensures |OpenRequests(sent, answered)| == |sent| - |answered|
  {
    var all := Range(0, |sent|);
    RangeSize(0, |sent|);
    assert OpenRequests(sent, answered) == all - answered;
    assert all == (all - answered) + answered;
  }

  /** For any peer and at every point: every block taken in has answered one open request or is a stray, and the requests
      that are open are as many as the backlog counter says and the strays together. */
  lemma OpenIsBacklogAndStrays(index: int, length: nat, choked: bool, incoming: seq<Incoming>, limit: nat)
    ensures var p := FirstProgress(length, choked);
            var q, books := Attempt(index, length, p, incoming, limit).0, BooksOf(index, length, p, NO_BOOKS, incoming, limit);
            && |OpenRequests(q.sent, books.answered)| == q.backlog + |books.strays|
            && |books.answered| + |books.strays| == |Accepted(index, length, p, incoming, limit)|
            && q.backlog <= MAX_BACKLOG
  {
    var p := FirstProgress(length, choked);
    AttemptBalanced(index, length, p, NO_BOOKS, incoming, limit);
    OpenSize(Attempt(index, length, p, incoming, limit).0.sent, BooksOf(index, length, p, NO_BOOKS, incoming, limit).answered);
    RequestsTile(index, length, p, incoming, limit);
  }

  /** At most five requests are open if and only if the strays do not outnumber the room that the counter leaves. */
  lemma AtMostFiveIff(index: int, length: nat, choked: bool, incoming: seq<Incoming>, limit: nat)
    ensures var p := FirstProgress(length, choked);
            var q, books := Attempt(index, length, p, incoming, limit).0, BooksOf(index, length, p, NO_BOOKS, incoming, limit);
            |OpenRequests(q.sent, books.answered)| <= MAX_BACKLOG <==> |books.strays| <= MAX_BACKLOG - q.backlog
  {
    OpenIsBacklogAndStrays(index, length, choked, incoming, limit);
  }

  // ---------------------------------------------------------------------------------------
  // While there is more to ask for

  lemma {:induction false} AskEnds(index: int, length: nat, p: Progress, limit: nat)
    requires Ask(index, length, p, limit).Some?
    ensures var q := Ask(index, length, p, limit).value;
            !WantsMore(length, q) && q.choked == p.choked
    decreases if p.requested < length then length - p.requested else 0
  {
    if WantsMore(length, p) {
      AskEnds(index, length, AskNext(index, length, p), limit);
    }
  }

  /** An attempt that ends without the piece was waiting for a message, having asked for all it may, or could not ask. */
  lemma {:induction false} EndsWaiting(index: int, length: nat, p: Progress, incoming: seq<Incoming>, limit: nat)
    requires !Attempt(index, length, p, incoming, limit).1
    ensures var q := Attempt(index, length, p, incoming, limit).0;
            AskIfFree(index, length, q, limit) in {Some(q), None}
    decreases |incoming|
  {
    var a := AskIfFree(index, length, p, limit);
    if a.Some? {
      if !p.choked {
        AskEnds(index, length, p, limit);
      }
      if incoming != [] && Receive(index, a.value, incoming[0]).Some? {
        EndsWaiting(index, length, Receive(index, a.value, incoming[0]).value, incoming[1..], limit);
      }
    }
  }

  /** Whenever an attempt that may send, and has more to ask for, waits for a message: at most five requests are open if and
      only if every block that was taken in has answered an open request of its own. */
  lemma AtMostFiveWhileAsking(index: int, length: nat, choked: bool, incoming: seq<Incoming>, limit: nat)
    requires var (q, ok) := Attempt(index, length, FirstProgress(length, choked), incoming, limit);
             !ok && !q.choked && q.requested < length && Ask(index, length, q, limit).Some?
    ensures var p := FirstProgress(length, choked);
            var q, books := Attempt(index, length, p, incoming, limit).0, BooksOf(index, length, p, NO_BOOKS, incoming, limit);
            && (|OpenRequests(q.sent, books.answered)| <= MAX_BACKLOG <==> books.strays == [])
            && (books.strays == [] <==> |books.answered| == |Accepted(index, length, p, incoming, limit)|)
  {
    var p := FirstProgress(length, choked);
    EndsWaiting(index, length, p, incoming, limit);
    var q := Attempt(index, length, p, incoming, limit).0;
    AskEnds(index, length, q, limit);
    OpenIsBacklogAndStrays(index, length, choked, incoming, limit);
  }

  // ---------------------------------------------------------------------------------------
  // A peer that answers each request once

  function Marked(answered: seq<bool>): set<int> {
    set j | 0 <= j < |answered| && answered[j]
  }

  /** A fair answer is entered as the answer to its own request. */
  lemma FairIsEntered(index: int, content: Bytes, q: Progress, answered: seq<bool>, books: Books, b: Block)
    requires AsksInOrder(index, |content|, q) && |answered| == |q.sent| && Answers(content, answered, b)
    requires books.answered == Marked(answered)
    ensures Enter(q.sent, books, b) == books.(answered := Marked(answered[b.begin / MAX_BLOCK := true]))
  {
    var j := b.begin / MAX_BLOCK;
    assert IsBlock(index, |content|, q.sent, j);
    assert IsAnswer(q.sent, books.answered, b, j);
    var r := AnswerTo(q.sent, books.answered, b, |q.sent|);
    assert IsBlock(index, |content|, q.sent, r);
    assert r == j;
    assert Marked(answered[j := true]) == Marked(answered) + {j};
  }

  lemma {:induction false} FairHasNoStrays(
    index: int, content: Bytes, p: Progress, answered: seq<bool>, books: Books, incoming: seq<Incoming>, limit: nat)
    requires InStep(index, content, p, answered) && FairRun(index, content, p, answered, incoming, limit)
    requires books == Books(Marked(answered), [])
    ensures BooksOf(index, |content|, p, books, incoming, limit).strays == []
    decreases |incoming|
  {
    var a := AskIfFree(index, |content|, p, limit);
    if p.downloaded < |content| && a.Some? && incoming != [] && Receive(index, a.value, incoming[0]).Some? {
      var q, m := a.value, incoming[0];
      if p.choked {
        assert WithOpen(answered, |p.sent|) == answered;
      } else {
        AskInStep(index, content, p, answered, limit);
      }
      var open := WithOpen(answered, |q.sent|);
      assert Marked(open) == Marked(answered);
      ReceiveInStep(index, content, q, open, m);
      var bs := BlockOf(index, |q.buf|, m);
      if bs != [] {
        FairIsEntered(index, content, q, open, books, bs[0]);
      }
      FairHasNoStrays(index, content, Receive(index, q, m).value, Answered(index, content, open, m),
                      EnterMessage(index, q, books, m), incoming[1..], limit);
    }
  }

  /** With a peer that answers each request once, the backlog counter is the number of open requests, which is at most five. */
  lemma AtMostFiveOpen(index: int, content: Bytes, choked: bool, incoming: seq<Incoming>, limit: nat)
    requires FairRun(index, content, FirstProgress(|content|, choked), [], incoming, limit)
    ensures var p := FirstProgress(|content|, choked);
            var q := Attempt(index, |content|, p, incoming, limit).0;
            var books := BooksOf(index, |content|, p, NO_BOOKS, incoming, limit);
            books.strays == [] && |OpenRequests(q.sent, books.answered)| == q.backlog <= MAX_BACKLOG
  {
    FirstInStep(index, content, choked);
    FairHasNoStrays(index, content, FirstProgress(|content|, choked), [], NO_BOOKS, incoming, limit);
    OpenIsBacklogAndStrays(index, |content|, choked, incoming, limit);
  }

  // ---------------------------------------------------------------------------------------
  // Peers that send strays

  const BYTE := [7]

  /** A message with the first byte of the piece. */
  function FirstByte(): Incoming {
    Received(PieceMessage(0, 0, BYTE))
  }

  function Repeated(n: nat): (r: seq<Incoming>)
    ensures |r| == n
  {
    seq(n, _ => FirstByte())
  }

  function FirstBytes(n: nat): seq<Block> {
    seq(n, _ => Block(0, BYTE))
  }

  /** All the requests are for blocks of the full size. */
  predicate FullBlocks(sent: seq<Request>) {
    forall j :: 0 <= j < |sent| ==> sent[j].length == MAX_BLOCK
  }

  lemma {:induction false} AskTimes(length: nat, p: Progress, limit: nat, n: nat) returns (q: Progress)
    requires p.backlog + n == MAX_BACKLOG && p.requested + n * MAX_BLOCK <= length && |p.sent| + n <= limit
    requires FullBlocks(p.sent)
    ensures Ask(0, length, p, limit) == Some(q)
    ensures q == p.(sent := q.sent, backlog := MAX_BACKLOG, requested := p.requested + n * MAX_BLOCK)
    ensures |q.sent| == |p.sent| + n && FullBlocks(q.sent)
    decreases n
  {
    if n == 0 {
      q := p;
    } else {
      q := AskTimes(length, AskNext(0, length, p), limit, n - 1);
    }
  }

  lemma ByteIsStray(length: nat, q: Progress, books: Books)
    requires |q.buf| == length > 0 && FullBlocks(q.sent)
    ensures Receive(0, q, FirstByte()).Some?
    ensures var r := Receive(0, q, FirstByte()).value;
            r == q.(buf := r.buf, downloaded := q.downloaded + 1, backlog := q.backlog - 1) && |r.buf| == length
    ensures EnterMessage(0, q, books, FirstByte()) == books.(strays := books.strays + [Block(0, BYTE)])
  {
    PieceRoundTrip(0, 0, BYTE, length);
  }

  /** Each stray makes room for one more request, `room` of which are left before the first one comes. */
  lemma {:induction false} StraysMakeRoom(length: nat, p: Progress, books: Books, room: nat, n: nat, limit: nat)
    requires |p.buf| == length > 0 && !p.choked && p.downloaded + n < length && FullBlocks(p.sent)
    requires p.backlog + room == MAX_BACKLOG && p.requested + (room + n) * MAX_BLOCK <= length
    requires |p.sent| + room + n <= limit && books.answered == {}
    ensures var (q, ok) := Attempt(0, length, p, Repeated(n), limit);
            !ok && |q.sent| == |p.sent| + room + n && q.backlog == MAX_BACKLOG
    ensures BooksOf(0, length, p, books, Repeated(n), limit) == Books({}, books.strays + FirstBytes(n))
    decreases n
  {
    var q := AskTimes(length, p, limit, room);
    if n > 0 {
      ByteIsStray(length, q, books);
      var r := Receive(0, q, FirstByte()).value;
      assert Repeated(n)[0] == FirstByte() && Repeated(n)[1..] == Repeated(n - 1);
      StraysMakeRoom(length, r, EnterMessage(0, q, books, FirstByte()), 1, n - 1, limit);
      assert books.strays + [Block(0, BYTE)] + FirstBytes(n - 1) == books.strays + FirstBytes(n);
    } else {
      assert books.strays + FirstBytes(0) == books.strays;
    }
  }

  /** The number of open requests has no bound. A peer that sends the first byte `n` times and nothing else has five and
      `n` requests open, although the counter stays at five. */
  lemma AnyNumberOpen(n: nat)
    ensures var length := (MAX_BACKLOG + n) * MAX_BLOCK;
            var p := FirstProgress(length, false);
            var q := Attempt(0, length, p, Repeated(n), MAX_BACKLOG + n).0;
            var books := BooksOf(0, length, p, NO_BOOKS, Repeated(n), MAX_BACKLOG + n);
            && q.backlog == MAX_BACKLOG && |OpenRequests(q.sent, books.answered)| == |q.sent| == MAX_BACKLOG + n
            && books.strays == FirstBytes(n)
  {
    var length := (MAX_BACKLOG + n) * MAX_BLOCK;
    assert [] + FirstBytes(n) == FirstBytes(n);
    StraysMakeRoom(length, FirstProgress(length, false), NO_BOOKS, MAX_BACKLOG, n, MAX_BACKLOG + n);
    OpenSize(Attempt(0, length, FirstProgress(length, false), Repeated(n), MAX_BACKLOG + n).0.sent, {});
  }
}
