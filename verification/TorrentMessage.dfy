/** The messages of the peer protocol and how they travel on a stream. */
module TorrentMessage {

  type Byte = b: int | 0 <= b < 256

  type Bytes = seq<Byte>

  const U32 := 0x1_0000_0000

  const MSG_CHOKE: Byte := 0
  const MSG_UNCHOKE: Byte := 1
  const MSG_HAVE: Byte := 4
  const MSG_REQUEST: Byte := 6
  const MSG_PIECE: Byte := 7

  datatype Message = Message(id: Byte, payload: Bytes)

  datatype Result<T> = Ok(value: T) | Err

  /** A block of a piece: where it starts and its bytes. */
  datatype Block = Block(begin: nat, data: Bytes)

  // ---------------------------------------------------------------------------------------
  // Big-endian numbers

  /** The low 32 bits of a number. */
  function PutUint32(x: int): (r: Bytes)
    ensures |r| == 4
  {
    BigEndian(x, [0, 0, 0, 0])
  }

  /** As many low bytes of a number as `room` is long, the lowest one last. */
  function BigEndian(x: int, room: Bytes): (r: Bytes)
    ensures |r| == |room|
    decreases |room|
  {
    if room == [] then [] else BigEndian(x / 256, room[1..]) + [x % 256]
  }

  function Uint32(bs: Bytes): (r: nat)
    requires |bs| == 4
    ensures r < U32
  {
    var a: int, b: int, c: int, d: int := bs[0], bs[1], bs[2], bs[3];
    0x100_0000 * a + 0x1_0000 * b + 0x100 * c + d
  }

  /** Reading back gives the number modulo two to the 32nd. */
  lemma Uint32OfPut(x: int)
    ensures Uint32(PutUint32(x)) == x % U32
  {
    PutIsBytes(x);
    Digits(x);
  }

  /** The highest byte comes first, and every four bytes are those of the number that they are read as. */
  lemma HighestFirst(a: Byte, b: Byte, c: Byte, d: Byte)
    ensures Uint32([a, b, c, d]) == ((a as int * 256 + b as int) * 256 + c as int) * 256 + d as int
    ensures PutUint32(Uint32([a, b, c, d])) == [a, b, c, d]
  {
    var x := Uint32([a, b, c, d]);
    PutIsBytes(x);
    assert x / 256 == 0x1_0000 * a as int + 0x100 * b as int + c as int;
    assert x / 256 / 256 == 0x100 * a as int + b as int;
  }

  lemma PutIsBytes(x: int)
    ensures PutUint32(x) == [x / 256 / 256 / 256 % 256, x / 256 / 256 % 256, x / 256 % 256, x % 256]
  {
    var x1 := x / 256;
    var x2 := x1 / 256;
    var x3 := x2 / 256;
    assert BigEndian(x3, [0]) == [x3 % 256] by {
      assert BigEndian(x3 / 256, [0][1..]) == [];
    }
    assert [0, 0][1..] == [0] && [0, 0, 0][1..] == [0, 0] && [0, 0, 0, 0][1..] == [0, 0, 0];
    assert BigEndian(x2, [0, 0]) == [x3 % 256, x2 % 256];
    assert BigEndian(x1, [0, 0, 0]) == [x3 % 256, x2 % 256, x1 % 256];
  }

  lemma Digits(x: int)
    ensures var x1 := x / 256; var x2 := x1 / 256; var x3 := x2 / 256;
            x % U32 == 0x100_0000 * (x3 % 256) + 0x1_0000 * (x2 % 256) + 0x100 * (x1 % 256) + x % 256
  {
    var x4 := x / 256 / 256 / 256 / 256;
    assert 0 <= x - U32 * x4 < U32;
    assert x / U32 == x4;
  }

  // ---------------------------------------------------------------------------------------
  // Messages with a meaning

  function FormatRequest(index: int, begin: int, length: int): Message {
    Message(MSG_REQUEST, PutUint32(index) + PutUint32(begin) + PutUint32(length))
  }

  /** The numbers in a request, as the peer that gets it reads them. */
  function RequestFields(m: Message): (nat, nat, nat)
    requires |m.payload| == 12
  {
    (Uint32(m.payload[..4]), Uint32(m.payload[4..8]), Uint32(m.payload[8..]))
  }

  /** The peer reads what was asked for, up to 32 bits of each number. */
  lemma RequestRoundTrip(index: int, begin: int, length: int)
    ensures RequestFields(FormatRequest(index, begin, length)) == (index % U32, begin % U32, length % U32)
  {
    Parts(PutUint32(index), PutUint32(begin), PutUint32(length));
    Uint32OfPut(index);
    Uint32OfPut(begin);
    Uint32OfPut(length);
  }

  function FormatHave(index: int): Message {
    Message(MSG_HAVE, PutUint32(index))
  }

  function ParseHave(m: Message): Result<nat> {
    if m.id != MSG_HAVE || |m.payload| != 4 then Err else Ok(Uint32(m.payload))
  }

  lemma HaveRoundTrip(index: int)
    ensures ParseHave(FormatHave(index)) == Ok(index) <==> 0 <= index < U32
  {
    Uint32OfPut(index);
  }

  /** What a PIECE message carries for piece `index`, whose buffer has `length` bytes. */
  function ParseBlock(index: int, length: nat, m: Message): (r: Result<Block>)
    ensures r.Ok? ==> r.value.begin < length && r.value.begin + |r.value.data| <= length
  {
    if m.id != MSG_PIECE || |m.payload| < 8 || Uint32(m.payload[..4]) != index then Err
    else
      var begin, data := Uint32(m.payload[4..8]), m.payload[8..];
      if begin >= length || begin + |data| > length then Err else Ok(Block(begin, data))
  }

  /** The message that a peer answers a request with. */
  function PieceMessage(index: int, begin: int, data: Bytes): Message {
    Message(MSG_PIECE, PutUint32(index) + PutUint32(begin) + data)
  }

  /** The answer is understood exactly if its numbers fit into 32 bits and its bytes into the buffer. */
  lemma PieceRoundTrip(index: int, begin: nat, data: Bytes, length: nat)
    ensures ParseBlock(index, length, PieceMessage(index, begin, data)) == Ok(Block(begin, data)) <==>
              0 <= index < U32 && begin < U32 && begin < length && begin + |data| <= length
  {
    Uint32OfPut(index);
    Uint32OfPut(begin);
    Parts(PutUint32(index), PutUint32(begin), data);
  }

  lemma Parts(a: Bytes, b: Bytes, c: Bytes)
    requires |a| == 4 && |b| == 4
    ensures var p := a + b + c;
            |p| == 8 + |c| && p[..4] == a && p[4..8] == b && p[8..] == c
  {
  }

  /** The buffer with a block written into it. */
  function Written(buf: Bytes, b: Block): (r: Bytes)
    requires b.begin + |b.data| <= |buf|
    ensures |r| == |buf|
  {
    buf[..b.begin] + b.data + buf[b.begin + |b.data|..]
  }

  /** Copies the block of a PIECE message into the buffer and says how many bytes it had. */
  method ParsePiece(index: int, buf: array<Byte>, m: Message) returns (r: Result<nat>)
    modifies buf
    ensures match ParseBlock(index, buf.Length, m)
            case Ok(b) => r == Ok(|b.data|) && buf[..] == Written(old(buf[..]), b)
            case Err => r == Err && buf[..] == old(buf[..])
  {
    if m.id != MSG_PIECE {
      return Err;
    }
    if |m.payload| < 8 {
      return Err;
    }
    var parsedIndex := Uint32(m.payload[..4]);
    if parsedIndex != index {
      return Err;
    }
    var begin := Uint32(m.payload[4..8]);
    if begin >= buf.Length {
      return Err;
    }
    var data := m.payload[8..];
    if begin + |data| > buf.Length {
      return Err;
    }
    forall k | 0 <= k < |data| {
      buf[begin + k] := data[k];
    }
    r := Ok(|data|);
  }

  // ---------------------------------------------------------------------------------------
  // Frames on a stream

  datatype Option<T> = None | Some(value: T)

  /** The bytes of a message; a message that is absent is a keep-alive. All sizes are 32-bit numbers, and a frame
      whose size wraps around below five bytes is a fatal index error. */
  function Serialize(m: Option<Message>): Result<Bytes> {
    match m
    case None => Ok([0, 0, 0, 0])
    case Some(msg) =>
      var length := (|msg.payload| + 1) % U32;
      var size := (4 + length) % U32;
      if size < 5 then Err
      else
        var n := if |msg.payload| < size - 5 then |msg.payload| else size - 5;
        Ok(PutUint32(length) + [msg.id] + msg.payload[..n] + seq(size - 5 - n, _ => 0))
  }

  /** One message from the front of a stream and what is left; an error if the stream ends too early. */
  function Read(stream: Bytes): Result<(Option<Message>, Bytes)> {
    if |stream| < 4 then Err
    else
      var length := Uint32(stream[..4]);
      if length == 0 then Ok((None, stream[4..]))
      else if |stream| < 4 + length then Err
      else Ok((Some(Message(stream[4], stream[5..4 + length])), stream[4 + length..]))
  }

  /** The frame holds the whole message, with nothing added. */
  predicate Frameable(m: Option<Message>) {
    m.Some? ==> |m.value.payload| + 5 < U32
  }

  lemma SmallFrame(msg: Message)
    requires |msg.payload| + 5 < U32
    ensures Serialize(Some(msg)) == Ok(PutUint32(|msg.payload| + 1) + [msg.id] + msg.payload)
  {
    var n := |msg.payload|;
    assert (n + 1) % U32 == n + 1 && (4 + (n + 1)) % U32 == n + 5;
    var frame := PutUint32(n + 1) + [msg.id] + msg.payload[..n];
    assert frame == PutUint32(n + 1) + [msg.id] + msg.payload;
    assert frame + seq(0, _ => 0) == frame;
  }

  lemma ReadFrame(head: Bytes, msg: Message, rest: Bytes)
    requires |head| == 4 && Uint32(head) == |msg.payload| + 1
    ensures Read(head + [msg.id] + msg.payload + rest) == Ok((Some(msg), rest))
  {
    var s := head + [msg.id] + msg.payload + rest;
    assert s[..4] == head;
    assert s[5..5 + |msg.payload|] == msg.payload && s[5 + |msg.payload|..] == rest;
  }

  lemma ReadKeepAlive(rest: Bytes)
    ensures Read([0, 0, 0, 0] + rest) == Ok((None, rest))
  {
    var s := [0, 0, 0, 0] + rest;
    assert s[..4] == [0, 0, 0, 0] && s[4..] == rest;
  }

  lemma ReadFramed(m: Option<Message>, rest: Bytes)
    requires Frameable(m)
    ensures Serialize(m).Ok? && Read(Serialize(m).value + rest) == Ok((m, rest))
  {
    match m
    case None => ReadKeepAlive(rest);
    case Some(msg) =>
      SmallFrame(msg);
      Uint32OfPut(|msg.payload| + 1);
      ReadFrame(PutUint32(|msg.payload| + 1), msg, rest);
  }

  lemma ReadLength(head: Bytes, rest: Bytes)
    requires |head| == 4
    ensures var r := Read(head + rest);
            r.Ok? && r.value.0.Some? ==> |r.value.0.value.payload| + 1 == Uint32(head)
  {
    assert (head + rest)[..4] == head;
  }

  lemma BigFrame(msg: Message, rest: Bytes)
    requires |msg.payload| + 5 >= U32 && Serialize(Some(msg)).Ok?
    ensures Read(Serialize(Some(msg)).value + rest) != Ok((Some(msg), rest))
  {
    var s := Serialize(Some(msg)).value;
    var length := (|msg.payload| + 1) % U32;
    assert length < |msg.payload| + 1;
    Uint32OfPut(length);
    assert s == PutUint32(length) + s[4..];
    assert s + rest == PutUint32(length) + (s[4..] + rest);
    ReadLength(PutUint32(length), s[4..] + rest);
  }

  /** A message comes back from the stream, and the stream is left at the next one, exactly if it is small enough. */
  lemma FrameRoundTrip(m: Option<Message>, rest: Bytes)
    ensures (Serialize(m).Ok? && Read(Serialize(m).value + rest) == Ok((m, rest))) <==> Frameable(m)
  {
    if Frameable(m) {
      ReadFramed(m, rest);
    } else if Serialize(m).Ok? {
      BigFrame(m.value, rest);
    }
  }

  function SerializeAll(ms: seq<Option<Message>>): Bytes
    requires forall i :: 0 <= i < |ms| ==> Frameable(ms[i])
  {
    if ms == [] then []
    else
      ReadFramed(ms[0], []);
      Serialize(ms[0]).value + SerializeAll(ms[1..])
  }

  /** All the messages of a stream, up to where it ends. */
  function ReadAll(stream: Bytes): seq<Option<Message>>
    decreases |stream|
  {
    match Read(stream)
    case Err => []
    case Ok(r) => [r.0] + ReadAll(r.1)
  }

  /** What is written as one message after the other is read as the same messages. */
  lemma {:induction false} StreamRoundTrip(ms: seq<Option<Message>>)
    requires forall i :: 0 <= i < |ms| ==> Frameable(ms[i])
    ensures ReadAll(SerializeAll(ms)) == ms
  {
    if ms != [] {
      var rest := SerializeAll(ms[1..]);
      ReadFramed(ms[0], rest);
      StreamRoundTrip(ms[1..]);
      assert ms == [ms[0]] + ms[1..];
    }
  }
}
