/**
 Where the sequential test meets the self-checking block: whether every request is
 long enough for the checksum and the offset that validation puts at its end.
 */
module BlockSizes {
  import FileBlock
  import NumberTheory
  import SeqRequests

  /** Every read or write request has room for the trailer if and only if requests and
      files have, and the piece that is left at the end of a file too. */
  lemma RoomForTrailerExactly(c: SeqRequests.Config)
    requires c.Valid()
    ensures (forall n: nat :: SeqRequests.DataRequest(c, n).size >= FileBlock.TRAILER) <==>
      && c.FileSize() > 0 && c.request_size >= FileBlock.TRAILER
      && (c.FileSize() % c.request_size == 0 || c.FileSize() % c.request_size >= FileBlock.TRAILER)
  {
    hide SeqRequests.DataRequest;
    var k, size, rs := SeqRequests.RequestsPerFile(c), c.FileSize(), c.request_size;
    SizeOfFirst(c);
    SizeOfLast(c);
    if size > 0 && rs >= FileBlock.TRAILER && (size % rs == 0 || size % rs >= FileBlock.TRAILER) {
      forall n: nat ensures SeqRequests.DataRequest(c, n).size >= FileBlock.TRAILER {
        SizeOfRequest(c, n);
      }
    }
  }

  /** What the file leaves for the last of its requests. */
  function LastPiece(c: SeqRequests.Config): int
    requires c.Valid()
  {
    if c.FileSize() > 0 && c.FileSize() % c.request_size == 0 then c.request_size else c.FileSize() % c.request_size
  }

  lemma PieceSizes(c: SeqRequests.Config, i: nat)
    requires c.Valid() && i < SeqRequests.RequestsPerFile(c)
    ensures SeqRequests.Piece(c, i) == if i + 1 < SeqRequests.RequestsPerFile(c) then c.request_size else LastPiece(c)
  {
    var k, size, rs := SeqRequests.RequestsPerFile(c), c.FileSize(), c.request_size;
    SeqRequests.Pieces(c, i);
    if i + 1 < k {
      assert (i + 1) * rs == i * rs + rs;
    } else if size > 0 {
      assert i == (size - 1) / rs && size - 1 == i * rs + (size - 1) % rs;
      if (size - 1) % rs + 1 < rs {
        NumberTheory.DivisionIsUnique(size, rs, i, (size - 1) % rs + 1);
      } else {
        assert size == (i + 1) * rs + 0;
        NumberTheory.DivisionIsUnique(size, rs, i + 1, 0);
      }
    } else {
      NumberTheory.DivisionIsUnique(0, rs, 0, 0);
    }
  }

  lemma SizeOfRequest(c: SeqRequests.Config, n: nat)
    requires c.Valid()
    ensures SeqRequests.DataRequest(c, n).size == c.request_size || SeqRequests.DataRequest(c, n).size == LastPiece(c)
  {
    PieceSizes(c, n % SeqRequests.RequestsPerFile(c));
    hide SeqRequests.RequestsPerFile, SeqRequests.Piece, LastPiece;
  }

  lemma SizeOfLast(c: SeqRequests.Config)
    requires c.Valid()
    ensures SeqRequests.DataRequest(c, SeqRequests.RequestsPerFile(c) - 1).size == LastPiece(c)
  {
    var k := SeqRequests.RequestsPerFile(c);
    NumberTheory.DivisionIsUnique(k - 1, k, 0, k - 1);
    PieceSizes(c, k - 1);
    hide SeqRequests.RequestsPerFile, SeqRequests.Piece, LastPiece;
  }

  lemma SizeOfFirst(c: SeqRequests.Config)
    requires c.Valid()
    ensures SeqRequests.DataRequest(c, 0).size <= c.request_size
  {
    NumberTheory.DivisionIsUnique(0, SeqRequests.RequestsPerFile(c), 0, 0);
  }

  /** A file of 100 bytes in requests of 95: the second has 5, less than the trailer. */
  lemma ShortRequest()
    ensures var c := SeqRequests.Config(1, 100, 95, 0, SeqRequests.MODE_WRITE, true);
      c.Valid() && SeqRequests.DataRequest(c, 1).size == 5 < FileBlock.TRAILER
  {
  }
}
