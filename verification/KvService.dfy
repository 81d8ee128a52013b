/** The data store and the updater loop in their imperative form. */
module KvService {
  import opened KvState

  class DataStore {
    var data: Store

    constructor ()
      ensures data == map[]
    {
      data := map[];
    }

    method Get(key: string) returns (value: string, found: bool)
      ensures Result(value, found) == Previous(data, key)
    {
      if key in data {
        value, found := data[key], true;
      } else {
        value, found := "", false;
      }
    }

    method Put(key: string, value: string) returns (v: string, ok: bool)
      modifies this
      ensures Result(v, ok) == Previous(old(data), key)
      ensures data == old(data)[key := value]
    {
      v, ok := Get(key);
      data := data[key := value];
    }

    method Append(key: string, value: string) returns (v: string, ok: bool)
      modifies this
      ensures Result(v, ok) == Previous(old(data), key)
      ensures data == old(data)[key := v + value]
    {
      v, ok := Get(key);
      data := data[key := v + value];
    }

    method CAS(key: string, compare: string, value: string) returns (prevValue: string, ok: bool)
      modifies this
      ensures Result(prevValue, ok) == Previous(old(data), key)
      ensures data == if ok && prevValue == compare then old(data)[key := value] else old(data)
    {
      prevValue, ok := Get(key);
      if ok && prevValue == compare {
        data := data[key := value];
      }
    }
  }

  class KVService {
    const ds: DataStore
    var lastRequestIDPerClient: map<int, int>

    ghost function Value(panicked: bool): Service
      reads this, ds
    {
      Service(ds.data, lastRequestIDPerClient, panicked)
    }

    constructor ()
      ensures fresh(ds) && Value(false) == EMPTY
    {
      ds := new DataStore();
      lastRequestIDPerClient := map[];
    }

    /** Dispatches one accepted command to the store. */
    method Execute(cmd: Command) returns (reply: Reply)
      requires cmd.kind != Invalid
      modifies ds
      ensures reply == Previous(old(ds.data), cmd.key) && ds.data == Updated(old(ds.data), cmd)
    {
      var value, found;
      match cmd.kind {
        case Get => value, found := ds.Get(cmd.key);
        case Put => value, found := ds.Put(cmd.key, cmd.value);
        case Append => value, found := ds.Append(cmd.key, cmd.value);
        case Cas => value, found := ds.CAS(cmd.key, cmd.compareValue, cmd.value);
      }
      reply := Result(value, found);
    }

    /** The updater goroutine, over the entries it takes from the commit channel. */
    method RunUpdater(commits: seq<Command>) returns (replies: seq<Reply>, panicked: bool)
      modifies this, ds
      ensures (Value(panicked), replies) == Fold(old(Value(false)), commits)
    {
      replies := [];
      panicked := false;
      for k := 0 to |commits|
        invariant !panicked
        invariant (Value(false), replies) == Fold(old(Value(false)), commits[..k])
      {
        var cmd := commits[k];
        ghost var s := Value(false);
        FoldSplit(old(Value(false)), commits[..k], [cmd]);
        FoldOne(s, cmd);
        assert commits[..k + 1] == commits[..k] + [cmd];
        if cmd.clientId in lastRequestIDPerClient && lastRequestIDPerClient[cmd.clientId] >= cmd.requestId {
          replies := replies + [Duplicate];
        } else {
          lastRequestIDPerClient := lastRequestIDPerClient[cmd.clientId := cmd.requestId];
          if cmd.kind == Invalid {
            panicked := true;
            assert commits == commits[..k + 1] + commits[k + 1..];
            FoldSplit(old(Value(false)), commits[..k + 1], commits[k + 1..]);
            PanickedFold(Value(true), commits[k + 1..]);
            assert replies + [] == replies;
            return;
          }
          var reply := Execute(cmd);
          replies := replies + [reply];
        }
      }
      assert commits[..|commits|] == commits;
    }
  }
}
