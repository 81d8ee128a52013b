/** How the pieces of a torrent cut its file into ranges. */
module TorrentPieces {
  import opened TorrentMessage

  /** A torrent, with the digest that each piece must have. */
  datatype Torrent = Torrent(hashes: seq<Bytes>, pieceLength: int, length: int)

  function Begin(t: Torrent, index: int): int {
    index * t.pieceLength
  }

  function End(t: Torrent, index: int): int {
    var end := Begin(t, index) + t.pieceLength;
    if end > t.length then t.length else end
  }

  function PieceSize(t: Torrent, index: int): int {
    End(t, index) - Begin(t, index)
  }

  /** The last piece is the one in which the file ends. */
  predicate Fits(t: Torrent) {
    (|t.hashes| - 1) * t.pieceLength < t.length <= |t.hashes| * t.pieceLength
  }

  /** The ranges are not empty, follow each other from the start of the file and reach its end. */
  predicate Tiles(t: Torrent) {
    && (forall i :: 0 <= i < |t.hashes| ==> PieceSize(t, i) > 0)
    && (forall i :: 0 < i < |t.hashes| ==> Follows(t, i))
    && (if t.hashes == [] then t.length == 0 else End(t, |t.hashes| - 1) == t.length)
  }

  predicate Follows(t: Torrent, i: int) {
    Begin(t, i) == End(t, i - 1)
  }

  lemma Before(t: Torrent, i: int, j: int)
    requires t.pieceLength >= 0 && i < j
    ensures Begin(t, i) + t.pieceLength <= Begin(t, j)
  {
    assert i * t.pieceLength + t.pieceLength == (i + 1) * t.pieceLength;
    MulOrder(i + 1, j, t.pieceLength);
  }

  /** The pieces tile the file exactly if the file ends in the last one. */
  lemma TilesIffFits(t: Torrent)
    requires t.pieceLength > 0 && t.length >= 0
    ensures Tiles(t) <==> Fits(t)
  {
    var n := |t.hashes|;
    if n == 0 {
      assert (n - 1) * t.pieceLength == -t.pieceLength;
    } else {
      if Fits(t) {
        FitsTiles(t);
      }
      if Tiles(t) {
        TilesFits(t);
      }
    }
  }

  lemma TilesFits(t: Torrent)
    requires t.hashes != [] && Tiles(t)
    ensures Fits(t)
  {
    var n := |t.hashes|;
    assert n * t.pieceLength == Begin(t, n - 1) + t.pieceLength;
    assert PieceSize(t, n - 1) > 0;
  }

  lemma FitsTiles(t: Torrent)
    requires t.pieceLength > 0 && t.hashes != [] && Fits(t)
    ensures Tiles(t)
  {
    var n := |t.hashes|;
    forall i | 0 <= i < n
      ensures PieceSize(t, i) > 0
      ensures i > 0 ==> Follows(t, i)
    {
      if i < n - 1 {
        Before(t, i, n - 1);
      }
      if i > 0 {
        Before(t, i - 1, i);
        assert (i - 1) * t.pieceLength + t.pieceLength == i * t.pieceLength;
        if i < n - 1 {
          Before(t, i, n - 1);
        }
      }
    }
    assert n * t.pieceLength == Begin(t, n - 1) + t.pieceLength;
  }

  /** Offset `x` of the file is in piece `i`. */
  predicate InPiece(t: Torrent, i: int, x: int) {
    Begin(t, i) <= x < End(t, i)
  }

  /** No offset is in two pieces, whether or not the torrent fits. */
  lemma Disjoint(t: Torrent, i: int, j: int, x: int)
    requires t.pieceLength > 0 && InPiece(t, i, x) && InPiece(t, j, x)
    ensures i == j
  {
    if i < j {
      Before(t, i, j);
    } else if j < i {
      Before(t, j, i);
    }
  }

  lemma MulOrder(a: int, b: int, p: int)
    requires p >= 0
    ensures a <= b ==> a * p <= b * p
  {
  }

  /** In a torrent that fits, every offset of the file is in exactly one of the pieces. */
  lemma Owner(t: Torrent, x: int)
    requires t.pieceLength > 0 && t.length <= |t.hashes| * t.pieceLength && 0 <= x < t.length
    ensures var i := x / t.pieceLength;
            && 0 <= i < |t.hashes| && InPiece(t, i, x)
            && forall j :: InPiece(t, j, x) ==> j == i
  {
    var p := t.pieceLength;
    var i := x / p;
    assert x == p * i + x % p;
    assert p * i == i * p;
    MulOrder(i, -1, p);
    MulOrder(|t.hashes|, i, p);
    forall j | InPiece(t, j, x)
      ensures j == i
    {
      Disjoint(t, i, j, x);
    }
  }

  lemma PositiveLength(t: Torrent)
    requires 0 < t.length <= |t.hashes| * t.pieceLength
    ensures t.pieceLength > 0
  {
    if t.pieceLength <= 0 {
      MulOrder(0, |t.hashes|, -t.pieceLength);
    }
  }

  // ---------------------------------------------------------------------------------------
  // Putting pieces into the file

  /** The bytes of piece `i` in the file. */
  function Slice(t: Torrent, file: Bytes, i: int): (r: Bytes)
    requires 0 <= Begin(t, i) <= End(t, i) <= |file|
    ensures |r| == PieceSize(t, i)
  {
    file[Begin(t, i)..End(t, i)]
  }

  /** The file after a piece is copied into its place. */
  function Placed(t: Torrent, file: Bytes, i: int, piece: Bytes): (r: Bytes)
    requires 0 <= Begin(t, i) <= End(t, i) <= |file| && |piece| == PieceSize(t, i)
    ensures |r| == |file|
  {
    file[..Begin(t, i)] + piece + file[End(t, i)..]
  }

  lemma PlacedSame(t: Torrent, file: Bytes, i: int, piece: Bytes)
    requires 0 <= Begin(t, i) <= End(t, i) <= |file| && |piece| == PieceSize(t, i)
    ensures Slice(t, Placed(t, file, i, piece), i) == piece
  {
  }

  /** Placing one piece leaves every other one as it was. */
  lemma PlacedOther(t: Torrent, file: Bytes, i: int, piece: Bytes, j: int)
    requires t.pieceLength >= 0 && i != j
    requires 0 <= Begin(t, i) <= End(t, i) <= |file| && |piece| == PieceSize(t, i)
    requires 0 <= Begin(t, j) <= End(t, j) <= |file|
    ensures Slice(t, Placed(t, file, i, piece), j) == Slice(t, file, j)
  {
    if i < j {
      Before(t, i, j);
    } else {
      Before(t, j, i);
    }
  }

  /** The pieces start at or before the end of the file: none of them has a negative size. */
  predicate Sized(t: Torrent) {
    0 <= t.length && (t.hashes == [] || (0 <= t.pieceLength && (|t.hashes| - 1) * t.pieceLength <= t.length))
  }

  lemma SizeOf(t: Torrent, i: int)
    ensures PieceSize(t, i) >= 0 <==> t.pieceLength >= 0 && Begin(t, i) <= t.length
  {
  }

  lemma SizedIff(t: Torrent)
    ensures Sized(t) <==> 0 <= t.length && forall i :: 0 <= i < |t.hashes| ==> PieceSize(t, i) >= 0
  {
    var n := |t.hashes|;
    if n > 0 {
      SizeOf(t, n - 1);
      if Sized(t) {
        forall i | 0 <= i < n
          ensures PieceSize(t, i) >= 0
        {
          SizeOf(t, i);
          MulOrder(i, n - 1, t.pieceLength);
        }
      }
    }
  }

  /** Two files of the right length with the same pieces are the same. */
  lemma SamePieces(t: Torrent, f: Bytes, g: Bytes)
    requires |f| == |g| == t.length <= |t.hashes| * t.pieceLength
    requires forall i :: 0 <= i < |t.hashes| ==>
               0 <= Begin(t, i) <= End(t, i) && Slice(t, f, i) == Slice(t, g, i)
    ensures f == g
  {
    forall x | 0 <= x < t.length
      ensures f[x] == g[x]
    {
      PositiveLength(t);
      Owner(t, x);
      var i := x / t.pieceLength;
      assert Slice(t, f, i) == Slice(t, g, i);
      assert f[x] == Slice(t, f, i)[x - Begin(t, i)];
      assert g[x] == Slice(t, g, i)[x - Begin(t, i)];
    }
  }
}
