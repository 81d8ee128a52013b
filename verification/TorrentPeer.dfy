/** The connection to one peer and the download of one piece from it. */
module TorrentPeer {
  import opened TorrentMessage
  import opened TorrentBlocks

  /** A connection: what will come in on it, what was asked for, and how many requests can still be written. A read
      fails at the end of what comes in, when the deadline passes. */
  class Client {
    var room: nat
    var choked: bool
    var incoming: seq<Incoming>
    var sent: seq<Request>
    /** One bit for each piece, the highest bit of the first byte for piece 0. */
    var bitfield: seq<bv8>

    constructor (incoming: seq<Incoming>, room: nat, bitfield: seq<bv8>)
      ensures choked && this.incoming == incoming && sent == [] && this.room == room && this.bitfield == bitfield
    {
      this.choked, this.incoming, this.sent, this.room, this.bitfield := true, incoming, [], room, bitfield;
    }

    /** The peer has one more piece; an index that is out of range is dropped. */
    method SetPiece(index: nat)
      modifies this`bitfield
      ensures bitfield == WithPiece(old(bitfield), index)
    {
      var byteIndex, offset := index / 8, index % 8;
      if byteIndex < |bitfield| {
        bitfield := bitfield[byteIndex := bitfield[byteIndex] | Mask(offset)];
      }
    }

    method HasPiece(index: nat) returns (r: bool)
      ensures r == Has(bitfield, index)
    {
      var byteIndex, offset := index / 8, index % 8;
      if byteIndex >= |bitfield| {
        return false;
      }
      r := bitfield[byteIndex] & Mask(offset) != 0;
    }

    method Read() returns (m: Incoming)
      modifies this`incoming
      ensures old(incoming) == [] ==> m == Broken && incoming == []
      ensures old(incoming) != [] ==> [m] + incoming == old(incoming)
    {
      if incoming == [] {
        return Broken;
      }
      m := incoming[0];
      incoming := incoming[1..];
    }

    method SendRequest(index: int, begin: int, length: int) returns (ok: bool)
      modifies this`sent, this`room
      ensures ok <==> old(room) > 0
      ensures room == if ok then old(room) - 1 else old(room)
      ensures sent == old(sent) + if ok then [Request(index, begin, length)] else []
    {
      ok := room > 0;
      if ok {
        room := room - 1;
        sent := sent + [Request(index, begin, length)];
      }
    }
  }

  function Mask(i: nat): bv8
    requires i < 8
  {
    if i == 0 then 128 else if i == 1 then 64 else if i == 2 then 32 else if i == 3 then 16
    else if i == 4 then 8 else if i == 5 then 4 else if i == 6 then 2 else 1
  }

  predicate Has(bitfield: seq<bv8>, index: nat) {
    HasBit(bitfield, index / 8, index % 8)
  }

  predicate HasBit(bitfield: seq<bv8>, k: nat, i: nat)
    requires i < 8
  {
    k < |bitfield| && Bit(bitfield[k], i)
  }

  predicate Bit(b: bv8, i: nat)
    requires i < 8
  {
    b & Mask(i) != 0
  }

  function PutBit(b: bv8, i: nat): bv8
    requires i < 8
  {
    b | Mask(i)
  }

  function WithPiece(bitfield: seq<bv8>, index: nat): seq<bv8> {
    WithBit(bitfield, index / 8, index % 8)
  }

  function WithBit(bitfield: seq<bv8>, k: nat, i: nat): seq<bv8>
    requires i < 8
  {
    if k < |bitfield| then bitfield[k := PutBit(bitfield[k], i)] else bitfield
  }

  /** A have message sets the bit of its piece, and nothing else touches the bits. */
  function AfterHave(bitfield: seq<bv8>, m: Incoming): seq<bv8> {
    if m.Received? && m.message.id == MSG_HAVE && ParseHave(m.message).Ok? then WithPiece(bitfield, ParseHave(m.message).value)
    else bitfield
  }

  lemma MaskBits(b: bv8, i: nat, j: nat)
    requires i < 8 && j < 8
    ensures Bit(PutBit(b, i), j) <==> i == j || Bit(b, j)
  {
    if i != j {
      MaskApart(i, j);
      OrAnd(b, Mask(i), Mask(j));
    } else {
      OrSelf(b, Mask(i));
    }
  }

  lemma MaskApart(i: nat, j: nat)
    requires i < 8 && j < 8 && i != j
    ensures Mask(i) & Mask(j) == 0
  {
  }

  lemma OrAnd(b: bv8, m: bv8, n: bv8)
    requires m & n == 0
    ensures (b | m) & n == b & n
  {
  }

  lemma OrSelf(b: bv8, m: bv8)
    requires m != 0
    ensures (b | m) & m != 0
  {
  }

  lemma BitIsSet(bitfield: seq<bv8>, k: nat, i: nat, l: nat, j: nat)
    requires i < 8 && j < 8
    ensures HasBit(WithBit(bitfield, k, i), l, j) <==> HasBit(bitfield, l, j) || (k == l && i == j && k < |bitfield|)
  {
    if k < |bitfield| && k == l {
      MaskBits(bitfield[k], i, j);
      ByteIsSet(bitfield, k, PutBit(bitfield[k], i));
    }
  }

  lemma ByteIsSet(bitfield: seq<bv8>, k: nat, b: bv8)
    requires k < |bitfield|
    ensures bitfield[k := b][k] == b
  {
  }

  /** Exactly the piece that was announced is new. */
  lemma HaveIsSet(bitfield: seq<bv8>, index: nat, other: nat)
    ensures Has(WithPiece(bitfield, index), other) <==>
              Has(bitfield, other) || (other == index && index / 8 < |bitfield|)
  {
    BitIsSet(bitfield, index / 8, index % 8, other / 8, other % 8);
    SameBit(index, other);
  }

  /** A have message, as a peer writes it, makes its piece new, and no other message makes any. */
  lemma HaveIsNoted(bitfield: seq<bv8>, index: nat, other: nat, m: Message)
    ensures index < U32 ==>
              (Has(AfterHave(bitfield, Received(FormatHave(index))), other) <==>
               Has(bitfield, other) || (other == index && index / 8 < |bitfield|))
    ensures m.id != 4 ==> AfterHave(bitfield, Received(m)) == bitfield
  {
    if index < U32 {
      HaveRoundTrip(index);
      HaveIsSet(bitfield, index, other);
    }
  }

  /** The pieces are counted from the highest bit of a byte. */
  lemma BitIsShift(b: bv8, i: nat)
    requires i < 8
    ensures Bit(b, i) <==> (b >> (7 - i)) & 1 != 0
  {
    if i == 0 {
    } else if i == 1 {
    } else if i == 2 {
    } else if i == 3 {
    } else if i == 4 {
    } else if i == 5 {
    } else if i == 6 {
    }
  }

  lemma SameBit(index: nat, other: nat)
    ensures other == index <==> other / 8 == index / 8 && other % 8 == index % 8
  {
  }

  class PieceProgress {
    const index: int
    const client: Client
    const buf: array<Byte>
    var downloaded: int
    var requested: int
    var backlog: int
    /** What was sent before this piece, and how many requests could be written then. */
    ghost const earlier: seq<Request>
    ghost const limit: nat

    ghost predicate Valid()
      reads client
    {
      earlier <= client.sent && |client.sent| - |earlier| + client.room == limit
    }

    constructor (index: int, client: Client, length: nat)
      ensures Valid() && earlier == client.sent && limit == client.room
      ensures this.index == index && this.client == client && fresh(buf) && buf.Length == length
      ensures downloaded == requested == backlog == 0
      ensures buf[..] == seq(length, _ => 0)
    {
      this.index, this.client, this.buf := index, client, new Byte[length](_ => 0);
      downloaded, requested, backlog := 0, 0, 0;
      earlier, limit := client.sent, client.room;
    }

    ghost function Value(): Progress
      requires Valid()
      reads this, client, buf
    {
      Progress(client.choked, client.sent[|earlier|..], buf[..], downloaded, requested, backlog)
    }

    /** Takes in the next message. */
    method ReadMessage() returns (ok: bool)
      requires Valid()
      modifies this, client`choked, client`incoming, client`bitfield, buf
      ensures Valid()
      ensures old(client.incoming) == [] ==> !ok
      ensures old(client.incoming) != [] ==>
                && client.incoming == old(client.incoming)[1..]
                && ok == Receive(index, old(Value()), old(client.incoming)[0]).Some?
                && (ok ==> Value() == Receive(index, old(Value()), old(client.incoming)[0]).value)
                && client.bitfield == AfterHave(old(client.bitfield), old(client.incoming)[0])
    {
      var m := client.Read();
      match m
      case Broken => return false;
      case KeepAlive => return true;
      case Received(msg) =>
        if msg.id == MSG_UNCHOKE {
          client.choked := false;
        } else if msg.id == MSG_CHOKE {
          client.choked := true;
        } else if msg.id == MSG_HAVE {
          var have := ParseHave(msg);
          if have.Err? {
            return false;
          }
          client.SetPiece(have.value);
        } else if msg.id == MSG_PIECE {
          var r := ParsePiece(index, buf, msg);
          if r.Err? {
            return false;
          }
          downloaded := downloaded + r.value;
          backlog := backlog - 1;
        }
        ok := true;
    }

    /** Sends requests until enough are unanswered. */
    method SendRequests() returns (ok: bool)
      requires Valid()
      modifies this, client`sent, client`room
      ensures Valid()
      ensures ok == Ask(index, buf.Length, old(Value()), limit).Some?
      ensures ok ==> Value() == Ask(index, buf.Length, old(Value()), limit).value
    {
      ghost var start := Value();
      while backlog < MAX_BACKLOG && requested < buf.Length
        invariant Valid()
        invariant Ask(index, buf.Length, Value(), limit) == Ask(index, buf.Length, start, limit)
        decreases buf.Length - requested
      {
        var blockSize := MAX_BLOCK;
        if buf.Length - requested < blockSize {
          blockSize := buf.Length - requested;
        }
        ghost var before := Value();
        var sent := client.SendRequest(index, requested, blockSize);
        if !sent {
          return false;
        }
        backlog := backlog + 1;
        requested := requested + blockSize;
        assert Value() == AskNext(index, buf.Length, before);
      }
      ok := true;
    }
  }

  /** How an attempt ends: a buffer of negative size cannot be made, the connection or a message fails, or the piece is
      there. */
  datatype Outcome = Panicked | Failed | Done(buf: Bytes)

  /** Downloads a piece: exactly the attempt of the specification, run on what comes in. */
  method AttemptDownloadPiece(client: Client, index: int, length: int) returns (r: Outcome)
    modifies client
    ensures old(client.sent) <= client.sent
    ensures if length < 0 then r == Panicked
            else
              var (q, done) := Attempt(index, length, FirstProgress(length, old(client.choked)), old(client.incoming), old(client.room));
              r == (if done then Done(q.buf) else Failed) && (done ==> client.sent == old(client.sent) + q.sent)
  {
    if length < 0 {
      return Panicked;
    }
    var state := new PieceProgress(index, client, length);
    ghost var goal := Attempt(index, length, state.Value(), client.incoming, state.limit);
    while state.downloaded < length
      invariant fresh(state) && fresh(state.buf) && state.client == client && state.buf.Length == length
      invariant state.index == index && state.Valid()
      invariant Attempt(index, length, state.Value(), client.incoming, state.limit) == goal
      decreases |client.incoming|
    {
      if !client.choked {
        var sent := state.SendRequests();
        if !sent {
          return Failed;
        }
      }
      var read := state.ReadMessage();
      if !read {
        return Failed;
      }
    }
    return Done(state.buf[..]);
  }
}
