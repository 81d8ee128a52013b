/** Whether a download can still come to its end. */
module TorrentFinish {
  import opened TorrentMessage
  import opened TorrentPieces
  import opened TorrentSwarm

  /** The worker is still with the swarm and does not go after its next step. */
  predicate Staying(worker: Worker) {
    !worker.Gone? && !(worker.Returning? && worker.leaving)
  }

  ghost predicate SomeoneStays(s: Swarm) {
    exists w :: 0 <= w < |s.workers| && Staying(s.workers[w])
  }

  // ---------------------------------------------------------------------------------------
  // A way to the end

  /** How far a worker is from handing over a piece. */
  function Rank(worker: Worker): nat {
    match worker
    case Gone => 0
    case Sending(_, _) => 1
    case Loading(_) => 2
    case Holding(_) => 3
    case Idle => 4
    case Connecting => 5
    case Returning(_, _) => 5
  }

  function Ranks(workers: seq<Worker>): nat {
    if workers == [] then 0 else Rank(workers[0]) + Ranks(workers[1..])
  }

  lemma {:induction false} RankChange(workers: seq<Worker>, w: nat, worker: Worker)
    requires w < |workers|
    ensures Ranks(workers[w := worker]) + Rank(workers[w]) == Ranks(workers) + Rank(worker)
  {
    if w == 0 {
      assert workers[0 := worker][1..] == workers[1..];
    } else {
      RankChange(workers[1..], w - 1, worker);
      assert workers[w := worker][1..] == workers[1..][w - 1 := worker];
    }
  }

  /** Something is nearer to its end: a piece more is collected, or a worker is nearer to handing one over. */
  predicate Nearer(s: Swarm, s': Swarm, w: nat) {
    && w < |s.workers| == |s'.workers| && s'.workers == s.workers[w := s'.workers[w]]
    && (Staying(s.workers[w]) ==> Staying(s'.workers[w]))
    && (|s'.collected| == |s.collected| + 1 || (s'.collected == s.collected && Rank(s'.workers[w]) < Rank(s.workers[w])))
  }

  lemma RightPiece(h: Bytes -> Bytes, t: Torrent, original: Bytes, i: nat)
    requires MadeFrom(h, t, original) && i < |t.hashes|
    ensures 0 <= Begin(t, i) <= End(t, i) <= |original|
    ensures |Slice(t, original, i)| == PieceSize(t, i) >= 0 && h(Slice(t, original, i)) == t.hashes[i]
  {
    assert GoodPiece(h, t, original, i);
  }

  /** A worker that has a piece can get on with it. */
  lemma HolderMoves(h: Bytes -> Bytes, t: Torrent, s: Swarm, original: Bytes, w: nat) returns (st: Step)
    requires Inv(h, t, s) && !s.crashed && MadeFrom(h, t, original)
    requires w < |s.workers| && HeldBy(s.workers[w]) != multiset{}
    ensures Enabled(t, s, st) && !Apply(h, t, s, st).crashed && Nearer(s, Apply(h, t, s, st), w)
  {
    HolderHasRoom(t, s, w);
    var i := s.workers[w].index;
    RightPiece(h, t, original, i);
    match s.workers[w] {
      case Holding(_) => st := Attempt(w);
      case Loading(_) => st := Fetch(w, Slice(t, original, i));
      case Returning(_, _) => st := PutBack(w);
      case Sending(_, _) =>
        st := Collect(w);
        CollectChecks(h, t, s, w);
    }
  }

  lemma {:induction false} SomeoneHolds(workers: seq<Worker>) returns (w: nat)
    requires |Held(workers)| > 0
    ensures w < |workers| && HeldBy(workers[w]) != multiset{}
  {
    w := 0;
    if HeldBy(workers[0]) == multiset{} {
      assert Held(workers) == Held(workers[1..]);
      w := SomeoneHolds(workers[1..]);
      w := w + 1;
    }
  }

  lemma HeldIsRest(t: Torrent, s: Swarm)
    requires Conserved(t, s)
    ensures |s.queue| + |Held(s.workers)| + |s.collected| == |t.hashes|
  {
    var all := multiset(s.queue) + Held(s.workers) + multiset(s.collected);
    assert |all| == |s.queue| + |Held(s.workers)| + |s.collected|;
  }

  /** While pieces are missing and a worker stays, there is a step that brings the end nearer, and the worker still stays. */
  lemma SomeMove(h: Bytes -> Bytes, t: Torrent, s: Swarm, original: Bytes, w: nat) returns (st: Step, v: nat)
    requires Inv(h, t, s) && !s.crashed && MadeFrom(h, t, original) && |s.collected| < |t.hashes|
    requires w < |s.workers| && Staying(s.workers[w])
    ensures Enabled(t, s, st) && !Apply(h, t, s, st).crashed && Nearer(s, Apply(h, t, s, st), v)
  {
    v := w;
    if s.workers[w].Connecting? {
      st := Connect(w);
    } else if s.workers[w].Idle? && s.queue != [] {
      st := Take(w);
    } else {
      if s.workers[w].Idle? {
        HeldIsRest(t, s);
        v := SomeoneHolds(s.workers);
      }
      st := HolderMoves(h, t, s, original, v);
    }
  }

  lemma {:induction false} CanFinish(h: Bytes -> Bytes, t: Torrent, s: Swarm, original: Bytes, w: nat) returns (run: seq<Step>)
    requires Inv(h, t, s) && !s.crashed && MadeFrom(h, t, original) && |s.collected| <= |t.hashes|
    requires w < |s.workers| && Staying(s.workers[w])
    ensures IsRun(h, t, s, run) && |After(h, t, s, run).collected| == |t.hashes|
    decreases |t.hashes| - |s.collected|, Ranks(s.workers)
  {
    run := [];
    if |s.collected| < |t.hashes| {
      var st, v := SomeMove(h, t, s, original, w);
      var s' := Apply(h, t, s, st);
      StepKeeps(h, t, s, st);
      RankChange(s.workers, v, s'.workers[v]);
      HeldIsRest(t, s');
      var rest := CanFinish(h, t, s', original, w);
      run := [st] + rest;
      assert run[1..] == rest;
    }
  }

  // ---------------------------------------------------------------------------------------
  // No way to the end

  lemma NobodyCollects(h: Bytes -> Bytes, t: Torrent, s: Swarm, st: Step)
    requires !SomeoneStays(s) && |s.collected| < |t.hashes| && Enabled(t, s, st)
    ensures !SomeoneStays(Apply(h, t, s, st)) && Apply(h, t, s, st).collected == s.collected
  {
    var s' := Apply(h, t, s, st);
    assert !Staying(s.workers[st.w]);
    forall w | 0 <= w < |s'.workers|
      ensures !Staying(s'.workers[w])
    {
      assert !Staying(s.workers[w]);
    }
  }

  lemma {:induction false} NeverFinishes(h: Bytes -> Bytes, t: Torrent, s: Swarm, run: seq<Step>)
    requires !SomeoneStays(s) && |s.collected| < |t.hashes| && IsRun(h, t, s, run)
    ensures After(h, t, s, run).collected == s.collected
    decreases |run|
  {
    if run != [] {
      NobodyCollects(h, t, s, run[0]);
      NeverFinishes(h, t, Apply(h, t, s, run[0]), run[1..]);
    }
  }

  ghost predicate Finishes(h: Bytes -> Bytes, t: Torrent, s: Swarm) {
    exists run :: IsRun(h, t, s, run) && |After(h, t, s, run).collected| == |t.hashes|
  }

  /** From every reachable state of a download of a torrent that was made from some file, the download can come to its end if
      and only if it has all pieces already or some worker stays. */
  lemma FinishesIff(h: Bytes -> Bytes, t: Torrent, s: Swarm, original: Bytes)
    requires Reachable(h, t, s) && MadeFrom(h, t, original)
    ensures Finishes(h, t, s) <==> |s.collected| == |t.hashes| || SomeoneStays(s)
  {
    ReachableInv(h, t, s);
    HeldIsRest(t, s);
    if |s.collected| == |t.hashes| {
      assert IsRun(h, t, s, []) && After(h, t, s, []) == s;
    } else if SomeoneStays(s) {
      var w :| 0 <= w < |s.workers| && Staying(s.workers[w]);
      SizedFrom(h, t, original);
      var run := CanFinish(h, t, s, original, w);
    } else if Finishes(h, t, s) {
      var run :| IsRun(h, t, s, run) && |After(h, t, s, run).collected| == |t.hashes|;
      NeverFinishes(h, t, s, run);
    }
  }

  lemma SizedFrom(h: Bytes -> Bytes, t: Torrent, original: Bytes)
    requires MadeFrom(h, t, original)
    ensures Sized(t)
  {
    forall i | 0 <= i < |t.hashes|
      ensures PieceSize(t, i) >= 0
    {
      RightPiece(h, t, original, i);
    }
    SizedIff(t);
  }

  // ---------------------------------------------------------------------------------------
  // Who goes

  /** The worker could not connect, found the queue closed, or failed to download a piece. */
  predicate Leaves(st: Step, w: nat) {
    st == Fail(w) || st == Quit(w) || st == Lose(w)
  }

  lemma StaysStep(h: Bytes -> Bytes, t: Torrent, s: Swarm, st: Step, w: nat)
    requires w < |s.workers| && Enabled(t, s, st)
    ensures w < |Apply(h, t, s, st).workers|
    ensures Staying(Apply(h, t, s, st).workers[w]) <==> Staying(s.workers[w]) && !Leaves(st, w)
  {
  }

  /** Over any run a worker stays with the swarm, or is put back to work, unless one of these three happens to it; a digest
      that is wrong and a peer that lacks a piece are none of them. And a worker that goes does not come back. */
  lemma {:induction false} StaysIff(h: Bytes -> Bytes, t: Torrent, s: Swarm, run: seq<Step>, w: nat)
    requires w < |s.workers| && IsRun(h, t, s, run)
    ensures w < |After(h, t, s, run).workers|
    ensures Staying(After(h, t, s, run).workers[w]) <==>
              Staying(s.workers[w]) && forall k :: 0 <= k < |run| ==> !Leaves(run[k], w)
    decreases |run|
  {
    if run != [] {
      StaysStep(h, t, s, run[0], w);
      StaysIff(h, t, Apply(h, t, s, run[0]), run[1..], w);
      assert forall k :: 0 <= k < |run| ==> run[k] == if k == 0 then run[0] else run[1..][k - 1];
    }
  }
}
