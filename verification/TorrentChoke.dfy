/** An attempt as a machine that takes in one message after the other: when it is choked, when it asks, and that it ends
    with the piece if the peer answers. */
module TorrentChoke {
  import opened TorrentMessage
  import opened TorrentBlocks

  /** The attempt waits for a message, has the piece, or has failed. */
  datatype Phase = Waiting(p: Progress) | Complete(p: Progress) | Failed(p: Progress)

  /** What an attempt does until it reads. */
  function Settled(index: int, length: nat, p: Progress, limit: nat): Phase {
    if p.downloaded >= length then Complete(p)
    else
      match AskIfFree(index, length, p, limit)
      case None => Failed(p)
      case Some(q) => Waiting(q)
  }

  function TakeIn(index: int, length: nat, ph: Phase, m: Incoming, limit: nat): Phase {
    if !ph.Waiting? then ph
    else
      match Receive(index, ph.p, m)
      case None => Failed(ph.p)
      case Some(r) => Settled(index, length, r, limit)
  }

  /** Where an attempt is when these messages have come. */
  function Reached(index: int, length: nat, ph: Phase, ms: seq<Incoming>, limit: nat): Phase {
    if ms == [] then ph
    else TakeIn(index, length, Reached(index, length, ph, ms[..|ms| - 1], limit), ms[|ms| - 1], limit)
  }

  lemma {:induction false} ReachedFirst(index: int, length: nat, ph: Phase, m: Incoming, ms: seq<Incoming>, limit: nat)
    ensures Reached(index, length, ph, [m] + ms, limit)
         == Reached(index, length, TakeIn(index, length, ph, m, limit), ms, limit)
  {
    if ms == [] {
      assert [m] + ms == [m] && [m][..0] == [];
      assert Reached(index, length, ph, [], limit) == ph;
    } else {
      var n := |ms| - 1;
      ReachedFirst(index, length, ph, m, ms[..n], limit);
      assert ([m] + ms)[..n + 1] == [m] + ms[..n] && ([m] + ms)[n + 1] == ms[n];
    }
  }

  lemma {:induction false} NoFurther(index: int, length: nat, ph: Phase, ms: seq<Incoming>, limit: nat)
    requires !ph.Waiting?
    ensures Reached(index, length, ph, ms, limit) == ph
  {
    if ms != [] {
      NoFurther(index, length, ph, ms[..|ms| - 1], limit);
    }
  }

  /** The machine is the attempt. */
  lemma {:induction false} AttemptIsMachine(index: int, length: nat, p: Progress, ms: seq<Incoming>, limit: nat)
    ensures var ph := Reached(index, length, Settled(index, length, p, limit), ms, limit);
            Attempt(index, length, p, ms, limit) == (ph.p, ph.Complete?)
    decreases |ms|
  {
    var ph := Settled(index, length, p, limit);
    if !ph.Waiting? {
      NoFurther(index, length, ph, ms, limit);
    } else if ms != [] {
      assert ms == [ms[0]] + ms[1..];
      ReachedFirst(index, length, ph, ms[0], ms[1..], limit);
      match Receive(index, ph.p, ms[0]) {
        case None => NoFurther(index, length, Failed(ph.p), ms[1..], limit);
        case Some(r) => AttemptIsMachine(index, length, r, ms[1..], limit);
      }
    }
  }

  /** Where an attempt on a new piece is when these messages have come. */
  function Stage(index: int, length: nat, choked: bool, ms: seq<Incoming>, limit: nat): Phase {
    Reached(index, length, Settled(index, length, FirstProgress(length, choked), limit), ms, limit)
  }

  // ---------------------------------------------------------------------------------------
  // Choking

  predicate IsChoke(m: Incoming) {
    m.Received? && m.message.id == 0
  }

  predicate IsUnchoke(m: Incoming) {
    m.Received? && m.message.id == 1
  }

  /** Message `i` is a choke or an unchoke, and there is none after it. */
  ghost predicate LastSwitch(ms: seq<Incoming>, i: int) {
    && 0 <= i < |ms| && (IsChoke(ms[i]) || IsUnchoke(ms[i]))
    && forall j :: i < j < |ms| ==> !IsChoke(ms[j]) && !IsUnchoke(ms[j])
  }

  /** By the messages that came, the peer has choked us. */
  ghost predicate ChokedBy(choked: bool, ms: seq<Incoming>) {
    if exists i :: LastSwitch(ms, i) then exists i :: LastSwitch(ms, i) && IsChoke(ms[i]) else choked
  }

  lemma ChokedByNext(choked: bool, ms: seq<Incoming>, m: Incoming)
    ensures ChokedBy(choked, ms + [m]) <==> if IsChoke(m) then true else if IsUnchoke(m) then false else ChokedBy(choked, ms)
  {
    var all := ms + [m];
    if IsChoke(m) || IsUnchoke(m) {
      assert LastSwitch(all, |ms|);
      assert forall i :: LastSwitch(all, i) ==> i == |ms|;
    } else {
      assert forall i :: 0 <= i < |ms| ==> all[i] == ms[i];
      assert forall i :: LastSwitch(all, i) <==> LastSwitch(ms, i);
      if ChokedBy(choked, ms) && exists i :: LastSwitch(ms, i) {
        var i :| LastSwitch(ms, i) && IsChoke(ms[i]);
        assert LastSwitch(all, i) && IsChoke(all[i]);
      }
      if ChokedBy(choked, all) && exists i :: LastSwitch(all, i) {
        var i :| LastSwitch(all, i) && IsChoke(all[i]);
        assert LastSwitch(ms, i) && IsChoke(ms[i]);
      }
    }
  }

  lemma {:induction false} AskKeepsChoke(index: int, length: nat, p: Progress, limit: nat)
    requires Ask(index, length, p, limit).Some?
    ensures Ask(index, length, p, limit).value.choked == p.choked
    ensures p.sent <= Ask(index, length, p, limit).value.sent
    decreases if p.requested < length then length - p.requested else 0
  {
    if WantsMore(length, p) {
      AskKeepsChoke(index, length, AskNext(index, length, p), limit);
    }
  }

  lemma SettledSent(index: int, length: nat, p: Progress, limit: nat)
    ensures var ph := Settled(index, length, p, limit);
            ph.p.choked == p.choked && p.sent <= ph.p.sent && (ph.p.sent != p.sent ==> !p.choked)
  {
    if p.downloaded < length && !p.choked && Ask(index, length, p, limit).Some? {
      AskKeepsChoke(index, length, p, limit);
    }
  }

  /** Whenever an attempt waits for a message, it takes itself to be choked if and only if the last choke or unchoke that came
      was a choke, or none came and it began choked. */
  lemma {:induction false} ChokedIff(index: int, length: nat, choked: bool, ms: seq<Incoming>, limit: nat)
    requires Stage(index, length, choked, ms, limit).Waiting?
    ensures Stage(index, length, choked, ms, limit).p.choked <==> ChokedBy(choked, ms)
  {
    if ms == [] {
      SettledSent(index, length, FirstProgress(length, choked), limit);
    } else {
      var pre, m := ms[..|ms| - 1], ms[|ms| - 1];
      ChokedIff(index, length, choked, pre, limit);
      assert ms == pre + [m];
      ChokedByNext(choked, pre, m);
      var r := Receive(index, Stage(index, length, choked, pre, limit).p, m).value;
      SettledSent(index, length, r, limit);
    }
  }

  /** What a message adds to the requests that were sent, it adds only if the peer, by the messages that came, has not
      choked us. */
  lemma AsksUnchoked(index: int, length: nat, choked: bool, ms: seq<Incoming>, m: Incoming, limit: nat)
    requires Stage(index, length, choked, ms + [m], limit).Waiting?
    ensures var before, after := Stage(index, length, choked, ms, limit), Stage(index, length, choked, ms + [m], limit);
            && before.Waiting? && before.p.sent <= after.p.sent
            && (after.p.sent != before.p.sent ==> !ChokedBy(choked, ms + [m]))
  {
    assert (ms + [m])[..|ms|] == ms;
    ChokedIff(index, length, choked, ms + [m], limit);
    var r := Receive(index, Stage(index, length, choked, ms, limit).p, m).value;
    SettledSent(index, length, r, limit);
  }

  /** An attempt that begins choked sends nothing before an unchoke comes. */
  lemma {:induction false} SilentUntilUnchoked(index: int, length: nat, ms: seq<Incoming>, limit: nat)
    requires forall i :: 0 <= i < |ms| ==> !IsUnchoke(ms[i])
    ensures Stage(index, length, true, ms, limit).p.sent == [] && Stage(index, length, true, ms, limit).p.choked
  {
    var p := FirstProgress(length, true);
    if ms == [] {
      SettledSent(index, length, p, limit);
    } else {
      var pre, m := ms[..|ms| - 1], ms[|ms| - 1];
      SilentUntilUnchoked(index, length, pre, limit);
      var ph := Stage(index, length, true, pre, limit);
      if ph.Waiting? && Receive(index, ph.p, m).Some? {
        SettledSent(index, length, Receive(index, ph.p, m).value, limit);
      }
    }
  }

  // ---------------------------------------------------------------------------------------
  // A peer that unchokes and answers

  const UNCHOKE := Received(Message(1, []))

  /** The message is a block that the attempt can take in. */
  predicate IsBlockMessage(index: int, length: nat, m: Incoming) {
    m.Received? && m.message.id == MSG_PIECE && ParseBlock(index, length, m.message).Ok?
  }

  /** The message is neither a choke nor a block, and nothing is wrong with it. */
  predicate IsHarmless(m: Incoming) {
    m.KeepAlive? ||
    (m.Received? && m.message.id != 0 && m.message.id != 7 && (m.message.id == 4 ==> |m.message.payload| == 4))
  }

  /** How many of the messages are blocks. */
  function BlockCount(index: int, length: nat, ms: seq<Incoming>): nat {
    if ms == [] then 0 else (if IsBlockMessage(index, length, ms[0]) then 1 else 0) + BlockCount(index, length, ms[1..])
  }

  /** Taking in a message fails if and only if the connection does, or a have or a block is malformed: a have without
      exactly four bytes, a block without its two numbers, of another piece, or one that does not fit into the piece. */
  lemma FailsIff(index: int, p: Progress, m: Incoming)
    ensures Receive(index, p, m).None? <==>
              || m.Broken?
              || (m.Received? && m.message.id == 4 && |m.message.payload| != 4)
              || (m.Received? && m.message.id == 7 && !IsBlockMessage(index, |p.buf|, m))
    ensures Receive(index, p, m).Some? && !IsBlockMessage(index, |p.buf|, m) ==>
              var r := Receive(index, p, m).value; r == p.(choked := r.choked)
  {
  }

  /** The piece has `n` blocks. */
  predicate HasBlocks(length: nat, n: nat) {
    length <= n * MAX_BLOCK && (n > 0 ==> (n - 1) * MAX_BLOCK < length)
  }

  lemma SentAtMost(index: int, length: nat, p: Progress, n: nat)
    requires AsksInOrder(index, length, p) && HasBlocks(length, n)
    ensures |p.sent| <= n && (p.requested < length ==> |p.sent| < n)
    ensures |p.sent| > 0 ==> (|p.sent| - 1) * MAX_BLOCK < length
  {
    if p.sent != [] {
      assert IsBlock(index, length, p.sent, |p.sent| - 1);
    }
  }

  lemma {:induction false} AskSucceeds(index: int, length: nat, p: Progress, limit: nat, n: nat)
    requires AsksInOrder(index, length, p) && HasBlocks(length, n) && n <= limit
    ensures Ask(index, length, p, limit).Some?
    decreases if p.requested < length then length - p.requested else 0
  {
    SentAtMost(index, length, p, n);
    if WantsMore(length, p) {
      AskNextInOrder(index, length, p);
      AskSucceeds(index, length, AskNext(index, length, p), limit, n);
    }
  }

  lemma {:induction false} OpenOfWith(answered: seq<bool>, n: nat)
    requires |answered| <= n
    ensures Open(WithOpen(answered, n)) == Open(answered) + n - |answered|
    decreases n
  {
    if n > |answered| {
      OpenOfWith(answered, n - 1);
      assert WithOpen(answered, n)[..n - 1] == WithOpen(answered, n - 1);
    } else {
      assert WithOpen(answered, n) == answered;
    }
  }

  /** When every block is answered, the piece is there. */
  lemma AllAnswered(index: int, content: Bytes, p: Progress, answered: seq<bool>, n: nat)
    requires InStep(index, content, p, answered) && HasBlocks(|content|, n) && |answered| - Open(answered) >= n
    ensures p.downloaded == |content|
  {
    SentAtMost(index, |content|, p, n);
    NoneOpen(|content|, answered);
  }

  /** What the asking before a read leaves. */
  lemma AskedInStep(index: int, content: Bytes, p: Progress, answered: seq<bool>, limit: nat, n: nat)
    requires InStep(index, content, p, answered) && HasBlocks(|content|, n) && n <= limit
    ensures var a := AskIfFree(index, |content|, p, limit);
            && a.Some? && |answered| <= |a.value.sent| && a.value.choked == p.choked && a.value.downloaded == p.downloaded
            && InStep(index, content, a.value, WithOpen(answered, |a.value.sent|))
            && (!p.choked ==> !WantsMore(|content|, a.value))
  {
    if p.choked {
      assert WithOpen(answered, |p.sent|) == answered;
    } else {
      AskSucceeds(index, |content|, p, limit, n);
      AskInStep(index, content, p, answered, limit);
      AskKeepsChoke(index, |content|, p, limit);
      AskKeepsCount(index, |content|, p, limit);
    }
  }

  lemma {:induction false} AnswersComplete(
    index: int, content: Bytes, p: Progress, answered: seq<bool>, ms: seq<Incoming>, limit: nat, n: nat)
    requires InStep(index, content, p, answered) && !p.choked && FairRun(index, content, p, answered, ms, limit)
    requires forall k :: 0 <= k < |ms| ==> IsBlockMessage(index, |content|, ms[k]) || IsHarmless(ms[k])
    requires HasBlocks(|content|, n) && n <= limit && |answered| - Open(answered) + BlockCount(index, |content|, ms) >= n
    ensures var (q, ok) := Attempt(index, |content|, p, ms, limit);
            ok && q.buf == content
    decreases |ms|
  {
    InStepHealthy(index, content, p, answered);
    if p.downloaded < |content| {
      AskedInStep(index, content, p, answered, limit, n);
      var q := AskIfFree(index, |content|, p, limit).value;
      var open := WithOpen(answered, |q.sent|);
      OpenOfWith(answered, |q.sent|);
      if ms == [] {
        AllAnswered(index, content, p, answered, n);
      }
      AnswerCounts(index, content, q, open, ms[0]);
      AnswersComplete(index, content, Receive(index, q, ms[0]).value, Answered(index, content, open, ms[0]), ms[1..], limit, n);
    }
  }

  /** A fair block answers one more request, and a harmless message none. */
  lemma AnswerCounts(index: int, content: Bytes, q: Progress, open: seq<bool>, m: Incoming)
    requires InStep(index, content, q, open) && Fair(index, content, open, m) && !q.choked
    requires IsBlockMessage(index, |content|, m) || IsHarmless(m)
    ensures Receive(index, q, m).Some?
    ensures var r, answered := Receive(index, q, m).value, Answered(index, content, open, m);
            && !r.choked && InStep(index, content, r, answered) && |answered| == |open|
            && Open(answered) == Open(open) - if IsBlockMessage(index, |content|, m) then 1 else 0
  {
    ReceiveInStep(index, content, q, open, m);
    if IsBlockMessage(index, |content|, m) {
      OneAnswered(|content|, open, ParseBlock(index, |content|, m.message).value.begin / MAX_BLOCK);
    }
  }

  /** The first message, an unchoke, lets the attempt ask. */
  lemma Unchoked(index: int, content: Bytes, choked: bool, limit: nat, n: nat)
    requires content != [] && HasBlocks(|content|, n) && n <= limit
    ensures var p := FirstProgress(|content|, choked);
            var a := AskIfFree(index, |content|, p, limit);
            && a.Some?
            && var open := WithOpen([], |a.value.sent|);
               && Fair(index, content, open, UNCHOKE) && Answered(index, content, open, UNCHOKE) == open
               && Receive(index, a.value, UNCHOKE) == Some(a.value.(choked := false))
               && InStep(index, content, a.value.(choked := false), open)
  {
    FirstInStep(index, content, choked);
    AskedInStep(index, content, FirstProgress(|content|, choked), [], limit, n);
    var q := AskIfFree(index, |content|, FirstProgress(|content|, choked), limit).value;
    OnlyChoke(index, content, q, WithOpen([], |q.sent|), false);
  }

  /** A peer that unchokes and then answers open requests, in any order and with any harmless messages between, as many as
      the piece has blocks, gives the piece. */
  lemma AnsweredDownload(index: int, content: Bytes, choked: bool, answers: seq<Incoming>, limit: nat, n: nat)
    requires FairRun(index, content, FirstProgress(|content|, choked), [], [UNCHOKE] + answers, limit)
    requires forall k :: 0 <= k < |answers| ==> IsBlockMessage(index, |content|, answers[k]) || IsHarmless(answers[k])
    requires HasBlocks(|content|, n) && n <= limit && n <= BlockCount(index, |content|, answers)
    ensures var (q, ok) := Attempt(index, |content|, FirstProgress(|content|, choked), [UNCHOKE] + answers, limit);
            ok && q.buf == content
  {
    if content != [] {
      var p := FirstProgress(|content|, choked);
      Unchoked(index, content, choked, limit, n);
      var q := AskIfFree(index, |content|, p, limit).value;
      assert ([UNCHOKE] + answers)[1..] == answers;
      OpenOfWith([], |q.sent|);
      AnswersComplete(index, content, q.(choked := false), WithOpen([], |q.sent|), answers, limit, n);
    }
  }

  // ---------------------------------------------------------------------------------------
  // Such a peer exists

  /** The answer to the request for block `k`. */
  function AnswerAt(index: int, content: Bytes, k: nat): Incoming {
    if k * MAX_BLOCK < |content| then Received(PieceMessage(index, k * MAX_BLOCK, BlockContent(content, k))) else KeepAlive
  }

  /** The answers from block `k` on, in order. */
  function AnswersFrom(index: int, content: Bytes, k: nat, n: nat): (r: seq<Incoming>)
    requires k <= n
    ensures |r| == n - k
  {
    seq(n - k, j requires 0 <= j => AnswerAt(index, content, k + j))
  }

  lemma NextAnswer(index: int, content: Bytes, k: nat, n: nat)
    requires k < n
    ensures AnswersFrom(index, content, k, n) == [AnswerAt(index, content, k)] + AnswersFrom(index, content, k + 1, n)
  {
  }

  lemma AnswersAreBlocks(index: int, content: Bytes, n: nat, j: nat)
    requires HasBlocks(|content|, n) && 0 <= index < U32 && |content| <= U32 && j < n
    ensures IsBlockMessage(index, |content|, AnswersFrom(index, content, 0, n)[j])
  {
    assert j * MAX_BLOCK <= (n - 1) * MAX_BLOCK;
    PieceRoundTrip(index, j * MAX_BLOCK, BlockContent(content, j), |content|);
  }

  lemma {:induction false} AllBlocks(index: int, length: nat, ms: seq<Incoming>)
    requires forall k :: 0 <= k < |ms| ==> IsBlockMessage(index, length, ms[k])
    ensures BlockCount(index, length, ms) == |ms|
  {
    if ms != [] {
      AllBlocks(index, length, ms[1..]);
    }
  }

  /** Exactly the first `k` requests are answered. */
  predicate FirstAnswered(answered: seq<bool>, k: nat) {
    k <= |answered| && forall j :: 0 <= j < |answered| ==> (answered[j] <==> j < k)
  }

  lemma {:induction false} OpenOfFirst(answered: seq<bool>, k: nat)
    requires FirstAnswered(answered, k)
    ensures Open(answered) == |answered| - k
  {
    if answered != [] {
      var n := |answered| - 1;
      OpenOfFirst(answered[..n], if k <= n then k else n);
    }
  }

  /** The answer to the first open request, from a state in which the attempt has asked. */
  lemma AnswersNext(index: int, content: Bytes, q: Progress, open: seq<bool>, k: nat, n: nat)
    requires InStep(index, content, q, open) && FirstAnswered(open, k) && !WantsMore(|content|, q)
    requires k < n && HasBlocks(|content|, n) && 0 <= index < U32 && |content| <= U32
    ensures var m := AnswerAt(index, content, k);
            && Fair(index, content, open, m) && Receive(index, q, m).Some?
            && var r, answered := Receive(index, q, m).value, Answered(index, content, open, m);
               InStep(index, content, r, answered) && r.choked == q.choked && FirstAnswered(answered, k + 1)
  {
    var m := AnswerAt(index, content, k);
    assert k * MAX_BLOCK <= (n - 1) * MAX_BLOCK;
    NextIsOpen(index, content, q, open, k, n);
    AnswerIsTakenIn(index, content, q, open, k);
    ReceiveInStep(index, content, q, open, m);
  }

  lemma FirstAnsweredWith(answered: seq<bool>, k: nat, n: nat)
    requires FirstAnswered(answered, k) && |answered| <= n
    ensures FirstAnswered(WithOpen(answered, n), k)
  {
  }

  /** The attempt is unchoked, and exactly the first `k` requests are answered. */
  predicate AnsweredUpTo(index: int, content: Bytes, p: Progress, answered: seq<bool>, k: nat) {
    InStep(index, content, p, answered) && !p.choked && FirstAnswered(answered, k)
  }

  /** The attempt asks, the message is a fair answer, and the attempt goes on from `r`. */
  predicate GoesOn(index: int, content: Bytes, p: Progress, answered: seq<bool>, m: Incoming, limit: nat,
                   r: Progress, answered': seq<bool>) {
    var a := AskIfFree(index, |content|, p, limit);
    && a.Some? && |answered| <= |a.value.sent|
    && var open := WithOpen(answered, |a.value.sent|);
       && Fair(index, content, open, m) && Receive(index, a.value, m) == Some(r) && Answered(index, content, open, m) == answered'
  }

  lemma BlockGoesOn(index: int, content: Bytes, p: Progress, answered: seq<bool>, k: nat, n: nat, limit: nat)
    returns (r: Progress, answered': seq<bool>)
    requires AnsweredUpTo(index, content, p, answered, k)
    requires k < n <= limit && HasBlocks(|content|, n) && 0 <= index < U32 && |content| <= U32
    ensures GoesOn(index, content, p, answered, AnswerAt(index, content, k), limit, r, answered')
    ensures AnsweredUpTo(index, content, r, answered', k + 1)
  {
    var m := AnswerAt(index, content, k);
    AskedInStep(index, content, p, answered, limit, n);
    var q := AskIfFree(index, |content|, p, limit).value;
    FirstAnsweredWith(answered, k, |q.sent|);
    AnswersNext(index, content, q, WithOpen(answered, |q.sent|), k, n);
    r, answered' := Receive(index, q, m).value, Answered(index, content, WithOpen(answered, |q.sent|), m);
  }

  lemma OneMoreFair(index: int, content: Bytes, p: Progress, answered: seq<bool>, m: Incoming, ms: seq<Incoming>, limit: nat,
                    r: Progress, answered': seq<bool>)
    requires GoesOn(index, content, p, answered, m, limit, r, answered')
    requires FairRun(index, content, r, answered', ms, limit)
    ensures FairRun(index, content, p, answered, [m] + ms, limit)
  {
    assert ([m] + ms)[1..] == ms;
  }

  lemma NothingIsFair(index: int, content: Bytes, p: Progress, answered: seq<bool>, limit: nat)
    ensures FairRun(index, content, p, answered, [], limit)
  {
  }

  lemma {:induction false} InOrderIsFair(index: int, content: Bytes, p: Progress, answered: seq<bool>, k: nat, n: nat, limit: nat)
    returns (ms: seq<Incoming>)
    requires AnsweredUpTo(index, content, p, answered, k)
    requires k <= n <= limit && HasBlocks(|content|, n) && 0 <= index < U32 && |content| <= U32
    ensures ms == AnswersFrom(index, content, k, n) && FairRun(index, content, p, answered, ms, limit)
    decreases n - k
  {
    if k < n {
      var r, answered' := BlockGoesOn(index, content, p, answered, k, n, limit);
      ms := InOrderIsFair(index, content, r, answered', k + 1, n, limit);
      OneMoreFair(index, content, p, answered, AnswerAt(index, content, k), ms, limit, r, answered');
      NextAnswer(index, content, k, n);
      ms := [AnswerAt(index, content, k)] + ms;
    } else {
      NothingIsFair(index, content, p, answered, limit);
      ms := [];
    }
  }

  lemma NextIsOpen(index: int, content: Bytes, q: Progress, open: seq<bool>, k: nat, n: nat)
    requires InStep(index, content, q, open) && FirstAnswered(open, k) && !WantsMore(|content|, q)
    requires k < n && HasBlocks(|content|, n)
    ensures k < |open| && !open[k]
  {
    OpenOfFirst(open, k);
    assert k * MAX_BLOCK <= (n - 1) * MAX_BLOCK;
  }

  /** What a peer with the content sends: an unchoke, and then every block. */
  function HonestPeer(index: int, content: Bytes, n: nat): seq<Incoming>
    requires HasBlocks(|content|, n)
  {
    [UNCHOKE] + AnswersFrom(index, content, 0, n)
  }

  /** An attempt with a peer that unchokes and then sends the blocks one after the other ends with the content of the peer. */
  lemma HonestDownload(index: int, content: Bytes, choked: bool, limit: nat, n: nat)
    requires HasBlocks(|content|, n) && n <= limit && 0 <= index < U32 && |content| <= U32
    ensures var (q, ok) := Attempt(index, |content|, FirstProgress(|content|, choked), HonestPeer(index, content, n), limit);
            ok && q.buf == content
  {
    var answers := AnswersFrom(index, content, 0, n);
    forall j | 0 <= j < |answers|
      ensures IsBlockMessage(index, |content|, answers[j])
    {
      AnswersAreBlocks(index, content, n, j);
    }
    HonestIsFair(index, content, choked, limit, n);
    AllBlocks(index, |content|, answers);
    AnsweredDownload(index, content, choked, answers, limit, n);
  }

  lemma HonestIsFair(index: int, content: Bytes, choked: bool, limit: nat, n: nat)
    requires HasBlocks(|content|, n) && n <= limit && 0 <= index < U32 && |content| <= U32
    ensures FairRun(index, content, FirstProgress(|content|, choked), [], HonestPeer(index, content, n), limit)
  {
    if content != [] {
      Unchoked(index, content, choked, limit, n);
      var q := AskIfFree(index, |content|, FirstProgress(|content|, choked), limit).value;
      assert HonestPeer(index, content, n)[1..] == AnswersFrom(index, content, 0, n);
      var ms := InOrderIsFair(index, content, q.(choked := false), WithOpen([], |q.sent|), 0, n, limit);
    }
  }
}
