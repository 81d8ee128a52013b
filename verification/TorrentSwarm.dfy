/** One download: workers take pieces from a shared queue of bounded size, put back what they cannot get, and hand
    what they got to a collector, which closes the queue at the end. Any step that is enabled may come next. */
module TorrentSwarm {
  import opened TorrentMessage
  import opened TorrentPieces

  /** What a worker is about to do. `Loading` has made a buffer for the piece and asks the peer for it, `Returning` is on
      its way to the send that puts a piece back on the queue, `Sending` on its way to the send to the collector. */
  datatype Worker =
    | Connecting
    | Idle
    | Holding(index: int)
    | Loading(index: int)
    | Returning(index: int, leaving: bool)
    | Sending(index: int, piece: Bytes)
    | Gone

  /** `crashed` is set by a buffer of negative size, a send on a closed queue and a slice out of range. */
  datatype Swarm = Swarm(
    queue: seq<int>, workers: seq<Worker>, collected: seq<int>, file: Bytes, closed: bool, crashed: bool)

  datatype Step =
    | Fail(w: nat)
    | Connect(w: nat)
    | Take(w: nat)
    | Quit(w: nat)
    | Lack(w: nat)
    | Attempt(w: nat)
    | Lose(w: nat)
    | Fetch(w: nat, piece: Bytes)
    | PutBack(w: nat)
    | Collect(w: nat)
    | Close

  function Start(t: Torrent, peers: nat): Swarm {
    Swarm(seq(|t.hashes|, i => i), seq(peers, _ => Connecting), [],
          if t.length >= 0 then seq(t.length, _ => 0) else [], false, t.length < 0)
  }

  /** Whether a step can be taken. A put-back waits for room in the queue. The collector takes results until it has as
      many as there are pieces, and then closes the queue. */
  predicate Enabled(t: Torrent, s: Swarm, st: Step) {
    !s.crashed &&
    match st
    case Close => |s.collected| == |t.hashes| && !s.closed
    case _ =>
      st.w < |s.workers| &&
      var worker := s.workers[st.w];
      match st
      case Fail(_) => worker.Connecting?
      case Connect(_) => worker.Connecting?
      case Take(_) => worker.Idle? && s.queue != []
      case Quit(_) => worker.Idle? && s.queue == [] && s.closed
      case Lack(_) => worker.Holding?
      case Attempt(_) => worker.Holding?
      case Lose(_) => worker.Loading?
      case Fetch(_, piece) => worker.Loading? && |piece| == PieceSize(t, worker.index)
      case PutBack(_) => worker.Returning? && (s.closed || |s.queue| < |t.hashes|)
      case Collect(_) => worker.Sending? && |s.collected| < |t.hashes|
  }

  function With(s: Swarm, w: nat, worker: Worker): Swarm
    requires w < |s.workers|
  {
    s.(workers := s.workers[w := worker])
  }

  function Apply(h: Bytes -> Bytes, t: Torrent, s: Swarm, st: Step): Swarm
    requires Enabled(t, s, st)
  {
    match st
    case Fail(w) => With(s, w, Gone)
    case Connect(w) => With(s, w, Idle)
    case Take(w) => With(s, w, Holding(s.queue[0])).(queue := s.queue[1..])
    case Quit(w) => With(s, w, Gone)
    case Lack(w) => With(s, w, Returning(s.workers[w].index, false))
    case Attempt(w) =>
      if PieceSize(t, s.workers[w].index) < 0 then s.(crashed := true) else With(s, w, Loading(s.workers[w].index))
    case Lose(w) => With(s, w, Returning(s.workers[w].index, true))
    case Fetch(w, piece) =>
      var i := s.workers[w].index;
      With(s, w, if 0 <= i < |t.hashes| && h(piece) == t.hashes[i] then Sending(i, piece) else Returning(i, false))
    case PutBack(w) =>
      if s.closed then s.(crashed := true)
      else
        With(s, w, if s.workers[w].leaving then Gone else Idle).(queue := s.queue + [s.workers[w].index])
    case Collect(w) =>
      var i, piece := s.workers[w].index, s.workers[w].piece;
      if !(0 <= Begin(t, i) <= End(t, i) <= |s.file|) || |piece| != PieceSize(t, i) then s.(crashed := true)
      else With(s, w, Idle).(collected := s.collected + [i], file := Placed(t, s.file, i, piece))
    case Close => s.(closed := true)
  }

  ghost predicate IsRun(h: Bytes -> Bytes, t: Torrent, s: Swarm, run: seq<Step>)
    decreases |run|
  {
    run != [] ==> Enabled(t, s, run[0]) && IsRun(h, t, Apply(h, t, s, run[0]), run[1..])
  }

  ghost function After(h: Bytes -> Bytes, t: Torrent, s: Swarm, run: seq<Step>): Swarm
    requires IsRun(h, t, s, run)
    decreases |run|
  {
    if run == [] then s else After(h, t, Apply(h, t, s, run[0]), run[1..])
  }

  // ---------------------------------------------------------------------------------------
  // Where each piece is

  function HeldBy(worker: Worker): multiset<int> {
    if worker.Holding? || worker.Loading? || worker.Returning? || worker.Sending? then multiset{worker.index} else multiset{}
  }

  function Held(workers: seq<Worker>): multiset<int> {
    if workers == [] then multiset{} else HeldBy(workers[0]) + Held(workers[1..])
  }

  function All(n: nat): (r: multiset<int>)
    ensures |r| == n
    ensures forall i :: r[i] == if 0 <= i < n then 1 else 0
  {
    if n == 0 then multiset{} else All(n - 1) + multiset{n - 1}
  }

  lemma {:induction false} HeldChange(workers: seq<Worker>, w: nat, worker: Worker)
    requires w < |workers|
    ensures Held(workers[w := worker]) + HeldBy(workers[w]) == Held(workers) + HeldBy(worker)
    ensures HeldBy(workers[w]) <= Held(workers)
  {
    var after, rest := workers[w := worker], workers[1..];
    HeldFirst(workers);
    HeldFirst(after);
    if w == 0 {
      assert after[1..] == rest;
      Swap(Held(rest), HeldBy(workers[0]), HeldBy(worker));
    } else {
      HeldChange(rest, w - 1, worker);
      assert after[1..] == rest[w - 1 := worker];
      BesideFirst(HeldBy(workers[0]), Held(after[1..]), HeldBy(workers[w]), Held(rest), HeldBy(worker));
    }
  }

  lemma HeldFirst(workers: seq<Worker>)
    requires workers != []
    ensures Held(workers) == HeldBy(workers[0]) + Held(workers[1..])
  {
  }

  lemma Swap(r: multiset<int>, x: multiset<int>, y: multiset<int>)
    ensures (y + r) + x == (x + r) + y
    ensures x <= x + r
  {
  }

  lemma BesideFirst(first: multiset<int>, a: multiset<int>, x: multiset<int>, b: multiset<int>, y: multiset<int>)
    requires a + x == b + y && x <= b
    ensures (first + a) + x == (first + b) + y && x <= first + b
  {
    assert (first + a) + x == first + (a + x);
    assert (first + b) + y == first + (b + y);
  }

  /** What one worker gives up is what the queue and the collector gain. */
  lemma Moved(q: multiset<int>, held: multiset<int>, c: multiset<int>, q': multiset<int>, held': multiset<int>, c': multiset<int>,
              x: multiset<int>, y: multiset<int>)
    requires held' + x == held + y && q' + c' + y == q + c + x
    ensures q' + held' + c' == q + held + c
  {
    forall i
      ensures (q' + held' + c')[i] == (q + held + c)[i]
    {
      assert (held' + x)[i] == (held + y)[i] && (q' + c' + y)[i] == (q + c + x)[i];
    }
  }

  /** Every index is once in the queue, with a worker or collected. */
  predicate Conserved(t: Torrent, s: Swarm) {
    multiset(s.queue) + Held(s.workers) + multiset(s.collected) == All(|t.hashes|)
  }

  /** What a worker hands over is the right piece, and so is what was put into the file. */
  predicate Checked(h: Bytes -> Bytes, t: Torrent, s: Swarm) {
    && (t.length >= 0 ==> |s.file| == t.length)
    && (forall w :: 0 <= w < |s.workers| ==> GoodSend(h, t, s.workers[w]))
    && (forall i :: i in s.collected ==> GoodPiece(h, t, s.file, i))
  }

  predicate GoodSend(h: Bytes -> Bytes, t: Torrent, worker: Worker) {
    worker.Sending? ==>
      var i := worker.index;
      0 <= i < |t.hashes| && |worker.piece| == PieceSize(t, i) && h(worker.piece) == t.hashes[i]
  }

  predicate GoodPiece(h: Bytes -> Bytes, t: Torrent, file: Bytes, i: int) {
    && 0 <= i < |t.hashes|
    && 0 <= Begin(t, i) <= End(t, i) <= |file|
    && h(Slice(t, file, i)) == t.hashes[i]
  }

  predicate Inv(h: Bytes -> Bytes, t: Torrent, s: Swarm) {
    && Conserved(t, s)
    && Checked(h, t, s)
    && (s.closed ==> |s.collected| == |t.hashes|)
    && (t.length < 0 ==> s.crashed)
    && (s.crashed ==> !Sized(t))
  }

  lemma {:induction false} IndicesAreAll(n: nat)
    ensures multiset(seq(n, i => i)) == All(n)
  {
    if n > 0 {
      IndicesAreAll(n - 1);
      assert seq(n, i => i) == seq(n - 1, i => i) + [n - 1];
    }
  }

  lemma {:induction false} NobodyHolds(peers: nat)
    ensures Held(seq(peers, _ => Connecting)) == multiset{}
  {
    if peers > 0 {
      NobodyHolds(peers - 1);
      assert seq(peers, _ => Connecting)[1..] == seq(peers - 1, _ => Connecting);
    }
  }

  lemma StartInv(h: Bytes -> Bytes, t: Torrent, peers: nat)
    ensures Inv(h, t, Start(t, peers))
  {
    IndicesAreAll(|t.hashes|);
    NobodyHolds(peers);
  }

  /** Of a piece that somebody holds there is room in the queue, and it is not collected yet. */
  lemma HolderHasRoom(t: Torrent, s: Swarm, w: nat)
    requires Conserved(t, s) && w < |s.workers| && HeldBy(s.workers[w]) != multiset{}
    ensures 0 <= s.workers[w].index < |t.hashes|
    ensures s.workers[w].index !in s.queue && s.workers[w].index !in s.collected
    ensures |s.queue| + |s.collected| < |t.hashes|
  {
    HeldChange(s.workers, w, Gone);
    var i := s.workers[w].index;
    var all := multiset(s.queue) + Held(s.workers) + multiset(s.collected);
    assert all[i] == All(|t.hashes|)[i] && Held(s.workers)[i] >= 1;
    assert |all| == |s.queue| + |Held(s.workers)| + |s.collected|;
    assert |Held(s.workers)| > 0;
  }

  lemma StepConserves(h: Bytes -> Bytes, t: Torrent, s: Swarm, st: Step)
    requires Conserved(t, s) && Enabled(t, s, st)
    ensures Conserved(t, Apply(h, t, s, st))
  {
    var s' := Apply(h, t, s, st);
    if st != Close {
      StepMoves(h, t, s, st);
      HeldChange(s.workers, st.w, s'.workers[st.w]);
      Moved(multiset(s.queue), Held(s.workers), multiset(s.collected),
            multiset(s'.queue), Held(s'.workers), multiset(s'.collected),
            HeldBy(s.workers[st.w]), HeldBy(s'.workers[st.w]));
    }
  }

  /** One worker changed, and the queue and the collector have what it gave up. */
  predicate Shifted(s: Swarm, s': Swarm, w: nat) {
    && w < |s.workers| == |s'.workers|
    && s'.workers == s.workers[w := s'.workers[w]]
    && multiset(s'.queue) + multiset(s'.collected) + HeldBy(s'.workers[w]) ==
       multiset(s.queue) + multiset(s.collected) + HeldBy(s.workers[w])
  }

  lemma StepMoves(h: Bytes -> Bytes, t: Torrent, s: Swarm, st: Step)
    requires Enabled(t, s, st) && st != Close
    ensures Shifted(s, Apply(h, t, s, st), st.w)
  {
    match st
    case Take(w) => TakeMoves(h, t, s, w);
    case PutBack(w) => PutBackMoves(h, t, s, w);
    case Collect(w) => CollectMoves(h, t, s, w);
    case _ => OtherMoves(h, t, s, st);
  }

  lemma TakeMoves(h: Bytes -> Bytes, t: Torrent, s: Swarm, w: nat)
    requires Enabled(t, s, Take(w))
    ensures Shifted(s, Apply(h, t, s, Take(w)), w)
  {
    Taken(s.queue, multiset(s.collected));
  }

  lemma PutBackMoves(h: Bytes -> Bytes, t: Torrent, s: Swarm, w: nat)
    requires Enabled(t, s, PutBack(w))
    ensures Shifted(s, Apply(h, t, s, PutBack(w)), w)
  {
    Appended(s.queue, multiset(s.collected), s.workers[w].index);
  }

  lemma CollectMoves(h: Bytes -> Bytes, t: Torrent, s: Swarm, w: nat)
    requires Enabled(t, s, Collect(w))
    ensures Shifted(s, Apply(h, t, s, Collect(w)), w)
  {
    Appended(s.collected, multiset(s.queue), s.workers[w].index);
  }

  /** The worker goes on with the same piece, or still without one. */
  ghost predicate SameHold(s: Swarm, s': Swarm, w: nat) {
    && w < |s.workers| == |s'.workers| && s'.workers == s.workers[w := s'.workers[w]]
    && s'.queue == s.queue && s'.collected == s.collected && HeldBy(s'.workers[w]) == HeldBy(s.workers[w])
  }

  lemma SameHoldMoves(s: Swarm, s': Swarm, w: nat)
    requires SameHold(s, s', w)
    ensures Shifted(s, s', w)
  {
  }

  lemma WithSame(s: Swarm, w: nat, worker: Worker)
    requires w < |s.workers| && HeldBy(worker) == HeldBy(s.workers[w])
    ensures SameHold(s, With(s, w, worker), w)
  {
  }

  lemma OtherHolds(h: Bytes -> Bytes, t: Torrent, s: Swarm, st: Step)
    requires Enabled(t, s, st) && st != Close && !st.Take? && !st.PutBack? && !st.Collect?
    ensures SameHold(s, Apply(h, t, s, st), st.w)
  {
    var worker := s.workers[st.w];
    match st
    case Fail(w) => WithSame(s, w, Gone);
    case Connect(w) => WithSame(s, w, Idle);
    case Quit(w) => WithSame(s, w, Gone);
    case Lack(w) => WithSame(s, w, Returning(worker.index, false));
    case Attempt(w) => WithSame(s, w, Loading(worker.index));
    case Lose(w) => WithSame(s, w, Returning(worker.index, true));
    case Fetch(w, piece) =>
      WithSame(s, w, Sending(worker.index, piece));
      WithSame(s, w, Returning(worker.index, false));
  }

  lemma OtherMoves(h: Bytes -> Bytes, t: Torrent, s: Swarm, st: Step)
    requires Enabled(t, s, st) && st != Close && !st.Take? && !st.PutBack? && !st.Collect?
    ensures Shifted(s, Apply(h, t, s, st), st.w)
  {
    OtherHolds(h, t, s, st);
    SameHoldMoves(s, Apply(h, t, s, st), st.w);
  }

  lemma Taken(q: seq<int>, c: multiset<int>)
    requires q != []
    ensures multiset(q[1..]) + c + multiset{q[0]} == multiset(q) + c + multiset{}
  {
    assert q == [q[0]] + q[1..];
    assert multiset(q) == multiset{q[0]} + multiset(q[1..]);
  }

  lemma Appended(q: seq<int>, c: multiset<int>, i: int)
    ensures multiset(q + [i]) + c + multiset{} == multiset(q) + c + multiset{i}
    ensures c + multiset(q + [i]) + multiset{} == c + multiset(q) + multiset{i}
  {
    assert multiset(q + [i]) == multiset(q) + multiset{i};
  }

  lemma StepChecks(h: Bytes -> Bytes, t: Torrent, s: Swarm, st: Step)
    requires Inv(h, t, s) && Enabled(t, s, st)
    ensures Checked(h, t, Apply(h, t, s, st))
    ensures Apply(h, t, s, st).crashed ==> !Sized(t)
  {
    if st.Collect? {
      CollectChecks(h, t, s, st.w);
    } else {
      if st.PutBack? || st.Attempt? {
        HolderHasRoom(t, s, st.w);
        SizedIff(t);
      }
      SendStaysGood(h, t, s, st);
    }
  }

  lemma SendStaysGood(h: Bytes -> Bytes, t: Torrent, s: Swarm, st: Step)
    requires Enabled(t, s, st)
    requires forall w :: 0 <= w < |s.workers| ==> GoodSend(h, t, s.workers[w])
    ensures var s' := Apply(h, t, s, st);
            forall w :: 0 <= w < |s'.workers| ==> GoodSend(h, t, s'.workers[w])
  {
    var s' := Apply(h, t, s, st);
    forall w | 0 <= w < |s'.workers|
      ensures GoodSend(h, t, s'.workers[w])
    {
      assert GoodSend(h, t, s.workers[w]);
    }
  }

  lemma CollectChecks(h: Bytes -> Bytes, t: Torrent, s: Swarm, w: nat)
    requires Inv(h, t, s) && Enabled(t, s, Collect(w))
    ensures Checked(h, t, Apply(h, t, s, Collect(w))) && !Apply(h, t, s, Collect(w)).crashed
  {
    var s' := Apply(h, t, s, Collect(w));
    var i, piece := s.workers[w].index, s.workers[w].piece;
    assert GoodSend(h, t, s.workers[w]);
    SizeOf(t, i);
    MulOrder(0, i, t.pieceLength);
    assert 0 <= Begin(t, i) <= End(t, i) <= |s.file|;
    PlacedSame(t, s.file, i, piece);
    HolderHasRoom(t, s, w);
    forall j | j in s'.collected
      ensures GoodPiece(h, t, s'.file, j)
    {
      if j != i {
        assert GoodPiece(h, t, s.file, j);
        PlacedOther(t, s.file, i, piece, j);
      }
    }
    SendStaysGood(h, t, s, Collect(w));
  }

  lemma StepKeeps(h: Bytes -> Bytes, t: Torrent, s: Swarm, st: Step)
    requires Inv(h, t, s) && Enabled(t, s, st)
    ensures Inv(h, t, Apply(h, t, s, st))
  {
    StepConserves(h, t, s, st);
    StepChecks(h, t, s, st);
  }

  lemma {:induction false} RunKeeps(h: Bytes -> Bytes, t: Torrent, s: Swarm, run: seq<Step>)
    requires Inv(h, t, s) && IsRun(h, t, s, run)
    ensures Inv(h, t, After(h, t, s, run))
    decreases |run|
  {
    if run != [] {
      StepKeeps(h, t, s, run[0]);
      RunKeeps(h, t, Apply(h, t, s, run[0]), run[1..]);
    }
  }

  ghost predicate Reachable(h: Bytes -> Bytes, t: Torrent, s: Swarm) {
    exists peers: nat, run :: IsRun(h, t, Start(t, peers), run) && After(h, t, Start(t, peers), run) == s
  }

  lemma ReachableInv(h: Bytes -> Bytes, t: Torrent, s: Swarm)
    requires Reachable(h, t, s)
    ensures Inv(h, t, s)
  {
    var peers: nat, run :| IsRun(h, t, Start(t, peers), run) && After(h, t, Start(t, peers), run) == s;
    StartInv(h, t, peers);
    RunKeeps(h, t, Start(t, peers), run);
  }

  // ---------------------------------------------------------------------------------------
  // What holds in every reachable state

  /** How often an index is queued, held and collected comes to one. */
  lemma WorkConservation(h: Bytes -> Bytes, t: Torrent, s: Swarm)
    requires Reachable(h, t, s)
    ensures forall i :: multiset(s.queue)[i] + Held(s.workers)[i] + multiset(s.collected)[i] ==
                        if 0 <= i < |t.hashes| then 1 else 0
  {
    ReachableInv(h, t, s);
    var all := multiset(s.queue) + Held(s.workers) + multiset(s.collected);
    forall i
      ensures multiset(s.queue)[i] + Held(s.workers)[i] + multiset(s.collected)[i] ==
              if 0 <= i < |t.hashes| then 1 else 0
    {
      assert all[i] == All(|t.hashes|)[i];
    }
  }

  /** A worker that wants to put a piece back can do so at once: there is room, and the queue is open. */
  lemma PutBackIsFree(h: Bytes -> Bytes, t: Torrent, s: Swarm, w: nat)
    requires Reachable(h, t, s)
    requires w < |s.workers| && s.workers[w].Returning?
    ensures !s.closed && |s.queue| < |t.hashes| && (!s.crashed ==> Enabled(t, s, PutBack(w)))
  {
    ReachableInv(h, t, s);
    HolderHasRoom(t, s, w);
  }

  /** A worker that has a piece finds the collector still waiting for results. */
  lemma CollectorIsWaiting(h: Bytes -> Bytes, t: Torrent, s: Swarm, w: nat)
    requires Reachable(h, t, s)
    requires w < |s.workers| && s.workers[w].Sending?
    ensures |s.collected| < |t.hashes| && s.workers[w].index !in s.collected && (!s.crashed ==> Enabled(t, s, Collect(w)))
  {
    ReachableInv(h, t, s);
    HolderHasRoom(t, s, w);
  }

  // ---------------------------------------------------------------------------------------
  // Crashes

  lemma {:induction false} OneMore(h: Bytes -> Bytes, t: Torrent, s: Swarm, run: seq<Step>, st: Step)
    requires IsRun(h, t, s, run) && Enabled(t, After(h, t, s, run), st)
    ensures IsRun(h, t, s, run + [st]) && After(h, t, s, run + [st]) == Apply(h, t, After(h, t, s, run), st)
    decreases |run|
  {
    if run == [] {
      assert [st][1..] == [] && run + [st] == [st];
      assert After(h, t, Apply(h, t, s, st), []) == Apply(h, t, s, st);
    } else {
      OneMore(h, t, Apply(h, t, s, run[0]), run[1..], st);
      assert (run + [st])[1..] == run[1..] + [st];
    }
  }

  lemma ReachesNext(h: Bytes -> Bytes, t: Torrent, s: Swarm, st: Step)
    requires Reachable(h, t, s) && Enabled(t, s, st)
    ensures Reachable(h, t, Apply(h, t, s, st))
  {
    var peers: nat, run :| IsRun(h, t, Start(t, peers), run) && After(h, t, Start(t, peers), run) == s;
    OneMore(h, t, Start(t, peers), run, st);
  }

  /** One worker that has looked at the first `k` pieces and put them all back. */
  function Turned(t: Torrent, k: nat): Swarm
    requires t.length >= 0 && k <= |t.hashes|
  {
    Start(t, 1).(queue := TurnedQueue(|t.hashes|, k), workers := [Idle])
  }

  function TurnedQueue(n: nat, k: nat): (q: seq<int>)
    requires k <= n
    ensures |q| == n
  {
    seq(n - k, i => k + i) + seq(k, i => i)
  }

  lemma TurnOnce(n: nat, k: nat)
    requires k < n
    ensures TurnedQueue(n, k)[0] == k && TurnedQueue(n, k)[1..] + [k] == TurnedQueue(n, k + 1)
  {
  }

  lemma {:induction false} TurnedReachable(h: Bytes -> Bytes, t: Torrent, k: nat)
    requires t.length >= 0 && k <= |t.hashes|
    ensures Reachable(h, t, Turned(t, k))
  {
    if k == 0 {
      StartReachable(h, t, 1);
      ReachesNext(h, t, Start(t, 1), Connect(0));
      assert TurnedQueue(|t.hashes|, 0) == seq(|t.hashes|, i => i);
      assert Turned(t, 0) == Apply(h, t, Start(t, 1), Connect(0));
    } else {
      TurnedReachable(h, t, k - 1);
      TurnOnce(|t.hashes|, k - 1);
      var s1 := Took(h, t, k - 1);
      ReachesNext(h, t, s1, Lack(0));
      PutsBack(h, t, Apply(h, t, s1, Lack(0)), k - 1);
    }
  }

  lemma PutsBack(h: Bytes -> Bytes, t: Torrent, s: Swarm, k: nat)
    requires t.length >= 0 && k < |t.hashes| && Reachable(h, t, s)
    requires s == Turned(t, k).(queue := TurnedQueue(|t.hashes|, k)[1..], workers := [Returning(k, false)])
    ensures Reachable(h, t, Turned(t, k + 1))
  {
    TurnOnce(|t.hashes|, k);
    ReachesNext(h, t, s, PutBack(0));
    assert Apply(h, t, s, PutBack(0)) == Turned(t, k + 1);
  }

  lemma StartReachable(h: Bytes -> Bytes, t: Torrent, peers: nat)
    ensures Reachable(h, t, Start(t, peers))
  {
    assert IsRun(h, t, Start(t, peers), []) && After(h, t, Start(t, peers), []) == Start(t, peers);
  }

  /** The worker takes the next piece. */
  lemma Took(h: Bytes -> Bytes, t: Torrent, k: nat) returns (s: Swarm)
    requires t.length >= 0 && k < |t.hashes| && Reachable(h, t, Turned(t, k))
    ensures Reachable(h, t, s)
    ensures s == Turned(t, k).(queue := TurnedQueue(|t.hashes|, k)[1..], workers := [Holding(k)])
  {
    TurnOnce(|t.hashes|, k);
    ReachesNext(h, t, Turned(t, k), Take(0));
    s := Apply(h, t, Turned(t, k), Take(0));
  }

  /** A piece of negative size can be taken and crashes the worker that attempts it. */
  lemma NegativePieceCrashes(h: Bytes -> Bytes, t: Torrent, i: nat) returns (s: Swarm)
    requires t.length >= 0 && i < |t.hashes| && PieceSize(t, i) < 0
    ensures Reachable(h, t, s) && s.crashed
  {
    TurnedReachable(h, t, i);
    var s1 := Took(h, t, i);
    ReachesNext(h, t, s1, Attempt(0));
    s := Apply(h, t, s1, Attempt(0));
  }

  /** For example, two pieces of 16 bytes and a file of 10: the second piece would have -6 bytes. */
  lemma SecondPieceCrashes(h: Bytes -> Bytes, first: Bytes, second: Bytes) returns (s: Swarm)
    ensures Reachable(h, Torrent([first, second], 16, 10), s) && s.crashed
  {
    s := NegativePieceCrashes(h, Torrent([first, second], 16, 10), 1);
  }

  /** No download crashes, if and only if the last piece does not start behind the end of the file. */
  lemma CrashFreeIff(h: Bytes -> Bytes, t: Torrent)
    ensures (forall s :: Reachable(h, t, s) ==> !s.crashed) <==> Sized(t)
  {
    if Sized(t) {
      forall s | Reachable(h, t, s)
        ensures !s.crashed
      {
        ReachableInv(h, t, s);
      }
    } else if t.length < 0 {
      StartReachable(h, t, 0);
    } else {
      SizedIff(t);
      var i :| 0 <= i < |t.hashes| && PieceSize(t, i) < 0;
      var s := NegativePieceCrashes(h, t, i);
    }
  }

  // ---------------------------------------------------------------------------------------
  // The file

  /** When the queue is closed nothing is left in it and nobody holds a piece. */
  lemma ClosedIsDone(h: Bytes -> Bytes, t: Torrent, s: Swarm)
    requires Reachable(h, t, s) && |s.collected| == |t.hashes|
    ensures s.queue == [] && Held(s.workers) == multiset{} && multiset(s.collected) == All(|t.hashes|)
  {
    ReachableInv(h, t, s);
    var all := multiset(s.queue) + Held(s.workers) + multiset(s.collected);
    assert |all| == |s.queue| + |Held(s.workers)| + |s.collected|;
  }

  /** Once the collector is done, whatever the order of arrival, every piece of the file has its digest. */
  lemma AssembledFile(h: Bytes -> Bytes, t: Torrent, s: Swarm)
    requires Reachable(h, t, s) && |s.collected| == |t.hashes|
    ensures t.length >= 0 ==> |s.file| == t.length
    ensures forall i :: 0 <= i < |t.hashes| ==> GoodPiece(h, t, s.file, i)
  {
    ReachableInv(h, t, s);
    ClosedIsDone(h, t, s);
    forall i | 0 <= i < |t.hashes|
      ensures GoodPiece(h, t, s.file, i)
    {
      assert multiset(s.collected)[i] == All(|t.hashes|)[i];
      assert i in s.collected;
    }
  }

  /** A file from which the torrent was made. */
  predicate MadeFrom(h: Bytes -> Bytes, t: Torrent, original: Bytes) {
    |original| == t.length && forall i :: 0 <= i < |t.hashes| ==> GoodPiece(h, t, original, i)
  }

  /** No other bytes of the length of a piece have its digest. */
  ghost predicate CollisionFree(h: Bytes -> Bytes, t: Torrent, original: Bytes)
    requires MadeFrom(h, t, original)
  {
    forall i, b :: 0 <= i < |t.hashes| && |b| == PieceSize(t, i) && h(b) == t.hashes[i] ==> IsSlice(h, t, original, i, b)
  }

  predicate IsSlice(h: Bytes -> Bytes, t: Torrent, original: Bytes, i: int, b: Bytes)
    requires GoodPiece(h, t, original, i)
  {
    b == Slice(t, original, i)
  }

  /** So the file is the original, if its pieces cover it and their digests belong to them alone. */
  lemma DownloadIsOriginal(h: Bytes -> Bytes, t: Torrent, s: Swarm, original: Bytes)
    requires Reachable(h, t, s) && |s.collected| == |t.hashes|
    requires t.length <= |t.hashes| * t.pieceLength
    requires MadeFrom(h, t, original) && CollisionFree(h, t, original)
    ensures s.file == original
  {
    AssembledFile(h, t, s);
    forall i | 0 <= i < |t.hashes|
      ensures 0 <= Begin(t, i) <= End(t, i) && Slice(t, s.file, i) == Slice(t, original, i)
    {
      assert GoodPiece(h, t, s.file, i) && GoodPiece(h, t, original, i);
      assert IsSlice(h, t, original, i, Slice(t, s.file, i));
    }
    SamePieces(t, s.file, original);
  }
}
