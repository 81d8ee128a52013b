/** The replicated key-value store as a function of the committed log: a fold with suppression of
    duplicate requests. */
module KvState {

  datatype Kind = Invalid | Get | Put | Append | Cas

  datatype Command = Command(
    kind: Kind,
    key: string,
    value: string,
    compareValue: string,
    clientId: int,
    requestId: int)

  type Store = map<string, string>

  datatype Reply = Duplicate | Result(value: string, found: bool)

  /** `last` is the last request ID accepted from each client. A command of unknown kind stops the updater. */
  datatype Service = Service(store: Store, last: map<int, int>, panicked: bool)

  const EMPTY := Service(map[], map[], false)

  /** What a key held before: every operation reports this. */
  function Previous(store: Store, key: string): Reply {
    if key in store then Result(store[key], true) else Result("", false)
  }

  /** The store after an operation. */
  function Updated(store: Store, cmd: Command): Store {
    match cmd.kind
    case Put => store[cmd.key := cmd.value]
    case Append => store[cmd.key := (if cmd.key in store then store[cmd.key] else "") + cmd.value]
    case Cas => if cmd.key in store && store[cmd.key] == cmd.compareValue then store[cmd.key := cmd.value] else store
    case _ => store
  }

  predicate IsDuplicate(last: map<int, int>, cmd: Command) {
    cmd.clientId in last && last[cmd.clientId] >= cmd.requestId
  }

  function Accept(last: map<int, int>, cmd: Command): map<int, int> {
    if IsDuplicate(last, cmd) then last else last[cmd.clientId := cmd.requestId]
  }

  function Step(s: Service, cmd: Command): (Service, Reply) {
    if IsDuplicate(s.last, cmd) then (s, Duplicate)
    else
      (Service(Updated(s.store, cmd), Accept(s.last, cmd), cmd.kind == Invalid), Previous(s.store, cmd.key))
  }

  /** The service after a log, and one reply for each command it got to and did not panic on. */
  function Fold(s: Service, cmds: seq<Command>): (r: (Service, seq<Reply>))
    ensures |r.1| <= |cmds|
    ensures !r.0.panicked ==> !s.panicked && |r.1| == |cmds|
    decreases |cmds|
  {
    if s.panicked || cmds == [] then (s, [])
    else
      var (s1, reply) := Step(s, cmds[0]);
      if s1.panicked then (s1, [])
      else
        var (s2, replies) := Fold(s1, cmds[1..]);
        (s2, [reply] + replies)
  }

  // ---------------------------------------------------------------------------------------
  // Prefixes and replay

  lemma FoldOne(s: Service, c: Command)
    requires !s.panicked
    ensures Fold(s, [c]) == (Step(s, c).0, if Step(s, c).0.panicked then [] else [Step(s, c).1])
  {
    var s1 := Step(s, c).0;
    assert [c][1..] == [];
    assert Fold(s1, []) == (s1, []);
    assert [Step(s, c).1] + [] == [Step(s, c).1];
  }

  lemma PanickedFold(s: Service, b: seq<Command>)
    requires s.panicked
    ensures Fold(s, b) == (s, []) && Fold(s, b).1 + [] == []
  {
  }

  /** Running a log is running a prefix of it and then the rest. */
  lemma {:induction false} FoldSplit(s: Service, a: seq<Command>, b: seq<Command>)
    ensures var (s1, r1) := Fold(s, a);
            var (s2, r2) := Fold(s1, b);
            Fold(s, a + b) == (s2, r1 + r2)
    decreases |a|
  {
    if a == [] {
      assert a + b == b && Fold(s, a) == (s, []);
      assert [] + Fold(s, b).1 == Fold(s, b).1;
    } else if !s.panicked {
      var (s1, reply) := Step(s, a[0]);
      assert (a + b)[0] == a[0] && (a + b)[1..] == a[1..] + b;
      if !s1.panicked {
        FoldSplit(s1, a[1..], b);
        var (t1, q1) := Fold(s1, a[1..]);
        var (t2, q2) := Fold(t1, b);
        assert Fold(s, a) == (t1, [reply] + q1);
        assert Fold(s, a + b) == (t2, [reply] + (q1 + q2));
        assert [reply] + (q1 + q2) == ([reply] + q1) + q2;
      } else {
        PanickedFold(s1, b);
        assert Fold(s, a) == (s1, []) && Fold(s, a + b) == (s1, []);
      }
    } else {
      PanickedFold(s, b);
    }
  }

  // ---------------------------------------------------------------------------------------
  // What the duplicate table holds

  /** `m` is the highest request ID of the client in the log. */
  ghost predicate IsHighest(cmds: seq<Command>, client: int, m: int) {
    && (exists i :: 0 <= i < |cmds| && cmds[i].clientId == client && cmds[i].requestId == m)
    && (forall i :: 0 <= i < |cmds| && cmds[i].clientId == client ==> cmds[i].requestId <= m)
  }

  ghost predicate Seen(cmds: seq<Command>, client: int) {
    exists i :: 0 <= i < |cmds| && cmds[i].clientId == client
  }

  /** Accepting is keeping the maximum. */
  function LastAfter(last: map<int, int>, cmds: seq<Command>): map<int, int> {
    if cmds == [] then last else Accept(LastAfter(last, cmds[..|cmds| - 1]), cmds[|cmds| - 1])
  }

  lemma {:induction false} FoldLast(s: Service, cmds: seq<Command>)
    requires !Fold(s, cmds).0.panicked
    ensures Fold(s, cmds).0.last == LastAfter(s.last, cmds)
    decreases |cmds|
  {
    if cmds != [] {
      var pre, c := cmds[..|cmds| - 1], cmds[|cmds| - 1];
      assert cmds == pre + [c];
      FoldSplit(s, pre, [c]);
      FoldOne(Fold(s, pre).0, c);
      FoldLast(s, pre);
    }
  }

  /** The table holds, for each client seen, the highest request ID seen, duplicates included. */
  lemma {:induction false} LastIsHighest(cmds: seq<Command>, client: int)
    ensures client in LastAfter(map[], cmds) <==> Seen(cmds, client)
    ensures client in LastAfter(map[], cmds) ==> IsHighest(cmds, client, LastAfter(map[], cmds)[client])
    decreases |cmds|
  {
    if cmds != [] {
      var n := |cmds| - 1;
      var pre, c := cmds[..n], cmds[n];
      LastIsHighest(pre, client);
      var before, after := LastAfter(map[], pre), LastAfter(map[], cmds);
      assert forall i :: 0 <= i < n ==> pre[i] == cmds[i];
      if client == c.clientId {
        assert cmds[n].clientId == client;
        assert Seen(cmds, client);
        if IsDuplicate(before, c) {
          var i :| 0 <= i < |pre| && pre[i].clientId == client && pre[i].requestId == before[client];
          assert cmds[i].clientId == client && cmds[i].requestId == after[client];
        }
      } else if client in before {
        var i :| 0 <= i < |pre| && pre[i].clientId == client && pre[i].requestId == before[client];
        assert cmds[i].clientId == client && cmds[i].requestId == after[client];
      }
    }
  }

  // ---------------------------------------------------------------------------------------
  // Retries

  /** Some command of the log makes `d` a retry: same client, equal or higher request ID. */
  ghost predicate IsRetry(cmds: seq<Command>, d: Command) {
    exists i :: 0 <= i < |cmds| && cmds[i].clientId == d.clientId && cmds[i].requestId >= d.requestId
  }

  /** A command is taken for a duplicate exactly if it is a retry of something earlier in the log. */
  lemma DuplicateIffRetry(cmds: seq<Command>, d: Command)
    requires !Fold(EMPTY, cmds).0.panicked
    ensures IsDuplicate(Fold(EMPTY, cmds).0.last, d) <==> IsRetry(cmds, d)
  {
    FoldLast(EMPTY, cmds);
    LastIsHighest(cmds, d.clientId);
  }

  /** A retry, wherever it is put in after the original, changes neither the store nor the table nor the reply
      to any other command; it is itself answered as a duplicate. */
  lemma RetryInsensitivity(pre: seq<Command>, d: Command, post: seq<Command>)
    requires IsRetry(pre, d)
    ensures Fold(EMPTY, pre + [d] + post).0 == Fold(EMPTY, pre + post).0
    ensures if Fold(EMPTY, pre).0.panicked
            then Fold(EMPTY, pre + [d] + post).1 == Fold(EMPTY, pre + post).1
            else
              && Fold(EMPTY, pre + post).1 == Fold(EMPTY, pre).1 + Fold(Fold(EMPTY, pre).0, post).1
              && Fold(EMPTY, pre + [d] + post).1 == Fold(EMPTY, pre).1 + [Duplicate] + Fold(Fold(EMPTY, pre).0, post).1
  {
    var (s, r) := Fold(EMPTY, pre);
    FoldSplit(EMPTY, pre, post);
    FoldSplit(EMPTY, pre, [d] + post);
    assert pre + [d] + post == pre + ([d] + post);
    if !s.panicked {
      DuplicateIffRetry(pre, d);
      SkipDuplicate(s, d, post);
      assert r + ([Duplicate] + Fold(s, post).1) == r + [Duplicate] + Fold(s, post).1;
    }
  }

  lemma SkipDuplicate(s: Service, d: Command, post: seq<Command>)
    requires !s.panicked && IsDuplicate(s.last, d)
    ensures Fold(s, [d] + post) == (Fold(s, post).0, [Duplicate] + Fold(s, post).1)
  {
    FoldOne(s, d);
    FoldSplit(s, [d], post);
  }

  // ---------------------------------------------------------------------------------------
  // The store is the plain fold of the commands that were kept

  /** The commands that are not suppressed. */
  function Kept(last: map<int, int>, cmds: seq<Command>): seq<Command>
    decreases |cmds|
  {
    if cmds == [] then []
    else (if IsDuplicate(last, cmds[0]) then [] else [cmds[0]]) + Kept(Accept(last, cmds[0]), cmds[1..])
  }

  /** Applying commands one after the other, with no suppression. */
  function ApplyAll(store: Store, cmds: seq<Command>): Store
    decreases |cmds|
  {
    if cmds == [] then store else ApplyAll(Updated(store, cmds[0]), cmds[1..])
  }

  lemma {:induction false} StoreIsFoldOfKept(s: Service, cmds: seq<Command>)
    requires !Fold(s, cmds).0.panicked
    ensures Fold(s, cmds).0.store == ApplyAll(s.store, Kept(s.last, cmds))
    decreases |cmds|
  {
    if cmds != [] {
      var s1 := Step(s, cmds[0]).0;
      StoreIsFoldOfKept(s1, cmds[1..]);
      var rest := Kept(s1.last, cmds[1..]);
      if IsDuplicate(s.last, cmds[0]) {
        assert Kept(s.last, cmds) == rest;
      } else {
        assert Kept(s.last, cmds)[1..] == rest;
      }
    }
  }

  /** The request IDs applied for a client are above what the table had, and strictly increase. */
  lemma {:induction false} KeptIncrease(last: map<int, int>, cmds: seq<Command>, i: nat, j: nat)
    requires i <= j < |Kept(last, cmds)| && Kept(last, cmds)[i].clientId == Kept(last, cmds)[j].clientId
    ensures i < j ==> Kept(last, cmds)[i].requestId < Kept(last, cmds)[j].requestId
    ensures Kept(last, cmds)[j].clientId in last ==> last[Kept(last, cmds)[j].clientId] < Kept(last, cmds)[j].requestId
    decreases |cmds|
  {
    var kept, rest := Kept(last, cmds), Kept(Accept(last, cmds[0]), cmds[1..]);
    if IsDuplicate(last, cmds[0]) {
      assert kept == rest;
      KeptIncrease(last, cmds[1..], i, j);
    } else {
      assert kept == [cmds[0]] + rest;
      if j > 0 {
        KeptIncrease(Accept(last, cmds[0]), cmds[1..], if i > 0 then i - 1 else j - 1, j - 1);
      }
    }
  }

  /** No request is applied twice. */
  lemma AtMostOnce(cmds: seq<Command>, i: nat, j: nat)
    requires i < j < |Kept(map[], cmds)| && Kept(map[], cmds)[i].clientId == Kept(map[], cmds)[j].clientId
    ensures Kept(map[], cmds)[i].requestId < Kept(map[], cmds)[j].requestId
  {
    KeptIncrease(map[], cmds, i, j);
  }

  // ---------------------------------------------------------------------------------------
  // First occurrences

  ghost predicate Before(pre: seq<Command>, d: Command) {
    exists i :: 0 <= i < |pre| && pre[i].clientId == d.clientId && pre[i].requestId == d.requestId
  }

  /** The commands of the log whose request does not occur before it. */
  ghost function Firsts(pre: seq<Command>, cmds: seq<Command>): seq<Command>
    decreases |cmds|
  {
    if cmds == [] then []
    else (if Before(pre, cmds[0]) then [] else [cmds[0]]) + Firsts(pre + [cmds[0]], cmds[1..])
  }

  /** Each client's requests first occur in increasing order of their IDs. */
  ghost predicate InOrder(cmds: seq<Command>) {
    forall i, j :: 0 <= i < j < |cmds| && cmds[i].clientId == cmds[j].clientId && cmds[i].requestId >= cmds[j].requestId ==>
      Before(cmds[..j], cmds[j])
  }

  /** In a log where requests first occur in order, what is kept is exactly the first occurrences. */
  lemma {:induction false} KeptAreFirsts(pre: seq<Command>, cmds: seq<Command>)
    requires InOrder(pre + cmds)
    ensures Kept(LastAfter(map[], pre), cmds) == Firsts(pre, cmds)
    decreases |cmds|
  {
    if cmds != [] {
      var d := cmds[0];
      var last := LastAfter(map[], pre);
      LastIsHighest(pre, d.clientId);
      assert (pre + [d])[..|pre|] == pre;
      assert LastAfter(map[], pre + [d]) == Accept(last, d);
      assert pre + [d] + cmds[1..] == pre + cmds;
      KeptAreFirsts(pre + [d], cmds[1..]);
      OrderAt(pre, d, cmds[1..]);
    }
  }

  lemma OrderAt(pre: seq<Command>, d: Command, post: seq<Command>)
    requires InOrder(pre + [d] + post)
    ensures IsRetry(pre, d) <==> Before(pre, d)
  {
    var all := pre + [d] + post;
    assert all[|pre|] == d && all[..|pre|] == pre;
    if IsRetry(pre, d) {
      var i :| 0 <= i < |pre| && pre[i].clientId == d.clientId && pre[i].requestId >= d.requestId;
      assert all[i] == pre[i];
    }
  }

  lemma OrderedLogsApplyFirsts(cmds: seq<Command>)
    requires InOrder(cmds) && !Fold(EMPTY, cmds).0.panicked
    ensures Fold(EMPTY, cmds).0.store == ApplyAll(map[], Firsts([], cmds))
  {
    assert [] + cmds == cmds;
    KeptAreFirsts([], cmds);
    StoreIsFoldOfKept(EMPTY, cmds);
  }
}
