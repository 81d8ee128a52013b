/** What the commands of a log do to the keys of the store, said in the fields of the commands. */
module KvMeaning {
  import opened KvState

  // ---------------------------------------------------------------------------------------
  // One command

  /** What an accepted command makes of the key that it names, where `before` and `after` are the stores around it. */
  ghost predicate Does(cmd: Command, before: Store, after: Store) {
    match cmd.kind
    case Put => cmd.key in after && after[cmd.key] == cmd.value
    case Append => cmd.key in after && after[cmd.key] == if cmd.key in before then before[cmd.key] + cmd.value else cmd.value
    case Cas =>
      if cmd.key in before && before[cmd.key] == cmd.compareValue then cmd.key in after && after[cmd.key] == cmd.value
      else after == before
    case Get => after == before
    case Invalid => true
  }

  /** The two stores are the same but for one key. */
  ghost predicate SameElsewhere(key: string, before: Store, after: Store) {
    forall k :: k != key ==> (k in after <==> k in before) && (k in before && k in after ==> after[k] == before[k])
  }

  /** The reply is the value that the key had before, if it had one. */
  ghost predicate RepliesWith(reply: Reply, key: string, before: Store) {
    if key in before then reply == Result(before[key], true) else reply == Result("", false)
  }

  /** The last command of a log: a retry does nothing and is answered as a duplicate; an unknown kind stops the updater; and
      any other command does to its key what its kind says, to no other key anything, and is answered with the old value. */
  lemma LastCommand(cmds: seq<Command>, cmd: Command)
    requires !Fold(EMPTY, cmds).0.panicked
    ensures var (s, replies) := Fold(EMPTY, cmds);
            var (s', replies') := Fold(EMPTY, cmds + [cmd]);
            if IsRetry(cmds, cmd) then s' == s && replies' == replies + [Duplicate]
            else if cmd.kind == Invalid then s'.panicked && replies' == replies
            else
              && !s'.panicked && Does(cmd, s.store, s'.store) && SameElsewhere(cmd.key, s.store, s'.store)
              && |replies'| == |replies| + 1 && replies' == replies + [replies'[|replies|]]
              && RepliesWith(replies'[|replies|], cmd.key, s.store)
  {
    var (s, replies) := Fold(EMPTY, cmds);
    DuplicateIffRetry(cmds, cmd);
    FoldSplit(EMPTY, cmds, [cmd]);
    FoldOne(s, cmd);
    assert replies + [] == replies;
  }

  // ---------------------------------------------------------------------------------------
  // A whole log

  /** The store after the first `i` of the commands that were kept. */
  function StoreAt(kept: seq<Command>, i: nat): Store
    requires i <= |kept|
  {
    ApplyAll(map[], kept[..i])
  }

  /** Command `i` gives the key a value of its own: a put, or a compare-and-swap that finds what it expects. */
  predicate Overwrites(kept: seq<Command>, i: nat, key: string)
    requires i < |kept|
  {
    var c := kept[i];
    && c.key == key
    && (c.kind == Put ||
        (c.kind == Cas && key in StoreAt(kept, i) && StoreAt(kept, i)[key] == c.compareValue))
  }

  predicate Appends(c: Command, key: string) {
    c.kind == Append && c.key == key
  }

  /** What the commands from `i` on append to the key, one after the other. */
  function Appended(kept: seq<Command>, i: nat, n: nat, key: string): string
    requires i <= n <= |kept|
  {
    if i == n then "" else Appended(kept, i, n - 1, key) + if Appends(kept[n - 1], key) then kept[n - 1].value else ""
  }

  ghost predicate QuietFrom(kept: seq<Command>, i: nat, n: nat, key: string)
    requires i <= n <= |kept|
  {
    forall j :: i <= j < n ==> !Overwrites(kept, j, key)
  }

  lemma {:induction false} ApplyLast(store: Store, cmds: seq<Command>, cmd: Command)
    ensures ApplyAll(store, cmds + [cmd]) == Updated(ApplyAll(store, cmds), cmd)
    decreases |cmds|
  {
    if cmds == [] {
      assert cmds + [cmd] == [cmd] && [cmd][1..] == [];
      assert ApplyAll(Updated(store, cmd), []) == Updated(store, cmd);
    } else {
      assert (cmds + [cmd])[1..] == cmds[1..] + [cmd];
      ApplyLast(Updated(store, cmds[0]), cmds[1..], cmd);
    }
  }

  lemma StoreNext(kept: seq<Command>, i: nat)
    requires i < |kept|
    ensures StoreAt(kept, i + 1) == Updated(StoreAt(kept, i), kept[i])
  {
    assert kept[..i + 1] == kept[..i] + [kept[i]];
    ApplyLast(map[], kept[..i], kept[i]);
  }

  /** What is appended goes behind what the key has, as long as nothing overwrites it. */
  lemma {:induction false} AppendsOn(kept: seq<Command>, i: nat, n: nat, key: string)
    requires i <= n <= |kept| && key in StoreAt(kept, i) && QuietFrom(kept, i, n, key)
    ensures key in StoreAt(kept, n) && StoreAt(kept, n)[key] == StoreAt(kept, i)[key] + Appended(kept, i, n, key)
    decreases n
  {
    if i == n {
      assert StoreAt(kept, i)[key] + "" == StoreAt(kept, i)[key];
    } else {
      AppendsOn(kept, i, n - 1, key);
      StoreNext(kept, n - 1);
      assert !Overwrites(kept, n - 1, key);
      Behind(StoreAt(kept, i)[key], Appended(kept, i, n - 1, key), if Appends(kept[n - 1], key) then kept[n - 1].value else "");
    }
  }

  lemma Behind(a: string, b: string, c: string)
    ensures (a + b) + c == a + (b + c) && a + "" == a
  {
  }

  lemma {:induction false} NeverOverwritten(kept: seq<Command>, n: nat, key: string)
    requires n <= |kept| && QuietFrom(kept, 0, n, key)
    ensures key in StoreAt(kept, n) <==> exists j :: 0 <= j < n && Appends(kept[j], key)
    ensures key in StoreAt(kept, n) ==> StoreAt(kept, n)[key] == Appended(kept, 0, n, key)
    ensures key !in StoreAt(kept, n) ==> Appended(kept, 0, n, key) == ""
  {
    if n > 0 {
      NeverOverwritten(kept, n - 1, key);
      StoreNext(kept, n - 1);
      assert !Overwrites(kept, n - 1, key);
      Behind(Appended(kept, 0, n - 1, key), "", "");
      if exists j :: 0 <= j < n && Appends(kept[j], key) {
        var j :| 0 <= j < n && Appends(kept[j], key);
        assert j == n - 1 || (exists m :: 0 <= m < n - 1 && Appends(kept[m], key));
      }
    }
  }

  /** The value of a key is that of the last command that overwrote it, with everything behind it that was appended since. */
  lemma LastWriteWins(cmds: seq<Command>, key: string, i: nat)
    requires !Fold(EMPTY, cmds).0.panicked && i < |Kept(map[], cmds)|
    requires var kept := Kept(map[], cmds); Overwrites(kept, i, key) && QuietFrom(kept, i + 1, |kept|, key)
    ensures var kept, store := Kept(map[], cmds), Fold(EMPTY, cmds).0.store;
            key in store && store[key] == kept[i].value + Appended(kept, i + 1, |kept|, key)
  {
    var kept := Kept(map[], cmds);
    StoreIsFoldOfKept(EMPTY, cmds);
    assert kept[..|kept|] == kept;
    StoreNext(kept, i);
    AppendsOn(kept, i + 1, |kept|, key);
  }

  /** A key that was never overwritten is there if and only if something was appended to it, and then it has all of that. */
  lemma OnlyAppended(cmds: seq<Command>, key: string)
    requires !Fold(EMPTY, cmds).0.panicked
    requires var kept := Kept(map[], cmds); QuietFrom(kept, 0, |kept|, key)
    ensures var kept, store := Kept(map[], cmds), Fold(EMPTY, cmds).0.store;
            && (key in store <==> exists j :: 0 <= j < |kept| && Appends(kept[j], key))
            && (key in store ==> store[key] == Appended(kept, 0, |kept|, key))
  {
    var kept := Kept(map[], cmds);
    StoreIsFoldOfKept(EMPTY, cmds);
    assert kept[..|kept|] == kept;
    NeverOverwritten(kept, |kept|, key);
  }
}
