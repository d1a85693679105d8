/** Slice hashes of the 189 drivers: the streaming writers, the batch readers, and the combined slice
    hash that is sent at upload, stored in a torrent and recomputed from it. */
module SliceHash {
  import opened Common
  import opened Slicing

  /** A hash, kept symbolic: of bytes, or of the texts of other hashes joined by newlines. Two equal
      symbolic hashes are equal under every hash function. */
  datatype Digest = OfBytes(data: seq<Byte>) | OfTexts(texts: seq<HexText>)

  /** The hexadecimal text of a hash, in upper or lower case. */
  datatype HexText = Hex(digest: Digest, upper: bool)

  function ToUpper(t: HexText): HexText {
    t.(upper := true)
  }

  /** Upper-case hash of one slice. */
  function SliceText(block: seq<Byte>): HexText {
    Hex(OfBytes(block), true)
  }

  function SliceTexts(blocks: seq<seq<Byte>>): (r: seq<HexText>)
    ensures |r| == |blocks|
  {
    if blocks == [] then [] else SliceTexts(blocks[..|blocks| - 1]) + [SliceText(blocks[|blocks| - 1])]
  }

  lemma {:induction false} SliceTextsSnoc(blocks: seq<seq<Byte>>, b: seq<Byte>)
    ensures SliceTexts(blocks + [b]) == SliceTexts(blocks) + [SliceText(b)]
  {
    assert (blocks + [b])[..|blocks|] == blocks;
  }

  // ----- Full blocks and the tail

  /** The blocks that are complete. */
  function Full(data: seq<Byte>, slice: nat): seq<seq<Byte>>
    requires slice > 0
    decreases |data|
  {
    if |data| < slice then [] else [data[..slice]] + Full(data[slice..], slice)
  }

  /** What follows the complete blocks. */
  function Tail(data: seq<Byte>, slice: nat): (t: seq<Byte>)
    requires slice > 0
    ensures |t| < slice
    decreases |data|
  {
    if |data| < slice then data else Tail(data[slice..], slice)
  }

  lemma {:induction false} TailLength(data: seq<Byte>, slice: nat)
    requires slice > 0
    ensures |Tail(data, slice)| == |data| % slice
    decreases |data|
  {
    if |data| < slice {
      DivUnique(|data|, 0, slice, |data|);
    } else {
      var rest := |data| - slice;
      TailLength(data[slice..], slice);
      assert (rest / slice + 1) * slice == (rest / slice) * slice + slice;
      DivUnique(|data|, rest / slice + 1, slice, rest % slice);
    }
  }

  /** Appending a piece that stays within the current block either completes it or extends the tail. */
  lemma {:induction false} Feed(data: seq<Byte>, piece: seq<Byte>, slice: nat)
    requires slice > 0 && |Tail(data, slice)| + |piece| <= slice && piece != []
    ensures
      var t := Tail(data, slice) + piece;
      if |t| == slice then Full(data + piece, slice) == Full(data, slice) + [t] && Tail(data + piece, slice) == []
      else Full(data + piece, slice) == Full(data, slice) && Tail(data + piece, slice) == t
    decreases |data|
  {
    var all := data + piece;
    if |data| < slice {
      if |all| == slice {
        assert all[..slice] == all && all[slice..] == [];
      }
    } else {
      Feed(data[slice..], piece, slice);
      assert all[..slice] == data[..slice] && all[slice..] == data[slice..] + piece;
    }
  }

  /** All blocks: the complete ones, and the tail unless it is an empty rest of non-empty data. */
  lemma {:induction false} BlocksAreFullAndTail(data: seq<Byte>, slice: nat)
    requires slice > 0
    ensures
      var f, t := Full(data, slice), Tail(data, slice);
      Blocks(data, slice) == if data != [] && t == [] then f else f + [t]
    decreases |data|
  {
    if |data| == slice {
      assert data[..slice] == data && data[slice..] == [];
    } else if |data| > slice {
      BlocksAreFullAndTail(data[slice..], slice);
    }
  }

  // ----- sliceHashWriter

  /** `sliceHashWriter`; `hash` is what was written to the hash since its last reset. */
  class SliceHashWriter {
    const sliceSize: nat
    var hash: seq<Byte>
    var md5s: seq<HexText>
    var finish: nat

    /** The writer has been given exactly `data`. */
    ghost predicate Holds(data: seq<Byte>)
      reads this
    {
      && sliceSize > 0
      && finish == |data|
      && hash == Tail(data, sliceSize)
      && md5s == SliceTexts(Full(data, sliceSize))
    }

    constructor (size: nat)
      requires size > 0
      ensures sliceSize == size && Holds([])
    {
      sliceSize, hash, md5s, finish := size, [], [], 0;
    }

    /** `Write`; a cancelled context leaves the writer as it was. */
    method Write(p: seq<Byte>, cancelled: bool, ghost data: seq<Byte>) returns (n: nat, ok: bool)
      requires Holds(data)
      modifies this
      ensures ok == !cancelled
      ensures ok ==> n == |p| && Holds(data + p)
      ensures !ok ==> n == 0 && Holds(data)
    {
      if cancelled {
        return 0, false;
      }
      var written := 0;
      assert data + p[..0] == data;
      while written < |p|
        invariant written <= |p|
        invariant Holds(data + p[..written])
      {
        ghost var sofar := data + p[..written];
        TailLength(sofar, sliceSize);
        var sliceRemain := sliceSize - finish % sliceSize;
        var toWrite := |p| - written;
        if toWrite > sliceRemain {
          toWrite := sliceRemain;
        }
        var piece := p[written..written + toWrite];
        WritePiece(piece, sofar);
        written := written + toWrite;
        assert sofar + piece == data + p[..written];
      }
      assert p[..|p|] == p;
      return |p|, true;
    }

    /** The body of the loop of `Write`: a piece that does not cross the end of the slice. */
    method WritePiece(piece: seq<Byte>, ghost data: seq<Byte>)
      requires Holds(data) && piece != [] && |Tail(data, sliceSize)| + |piece| <= sliceSize
      modifies this
      ensures Holds(data + piece)
    {
      Feed(data, piece, sliceSize);
      TailLength(data + piece, sliceSize);
      hash := hash + piece;
      finish := finish + |piece|;
      if finish % sliceSize == 0 {
        SliceTextsSnoc(Full(data, sliceSize), hash);
        md5s := md5s + [SliceText(hash)];
        hash := [];
      }
    }

    /** The flush in `newUpload` after the last write. */
    method Flush(ghost data: seq<Byte>)
      requires Holds(data)
      modifies this
      ensures md5s == SliceTexts(Blocks(data, sliceSize))
    {
      TailLength(data, sliceSize);
      BlocksAreFullAndTail(data, sliceSize);
      if finish % sliceSize != 0 || finish == 0 {
        SliceTextsSnoc(Full(data, sliceSize), hash);
        md5s := md5s + [SliceText(hash)];
      }
    }
  }

  /** The hashing phase of `newUpload`: for every way of splitting the stream into writes the result
      is the list of hashes of the consecutive slices. */
  method HashWrites(writes: seq<seq<Byte>>, slice: nat) returns (md5s: seq<HexText>)
    requires slice > 0
    ensures md5s == SliceTexts(Blocks(Flatten(writes), slice))
  {
    var w := new SliceHashWriter(slice);
    assert Flatten(writes[..0]) == [];
    for i := 0 to |writes|
      invariant fresh(w) && w.sliceSize == slice && w.Holds(Flatten(writes[..i]))
    {
      FlattenSnoc(writes, i);
      var n, ok := w.Write(writes[i], false, Flatten(writes[..i]));
    }
    assert writes[..|writes|] == writes;
    w.Flush(Flatten(writes));
    md5s := w.md5s;
  }

  // ----- HashWriter of pkg/torrent: slices and pieces in one pass

  /** The hashes of blocks; their upper-case texts are `SliceTexts`. */
  function Digests(blocks: seq<seq<Byte>>): (r: seq<Digest>)
    ensures |r| == |blocks|
  {
    if blocks == [] then [] else Digests(blocks[..|blocks| - 1]) + [OfBytes(blocks[|blocks| - 1])]
  }

  lemma {:induction false} DigestsSnoc(blocks: seq<seq<Byte>>, b: seq<Byte>)
    ensures Digests(blocks + [b]) == Digests(blocks) + [OfBytes(b)]
  {
    assert (blocks + [b])[..|blocks|] == blocks;
  }

  /** One rolling hash of `HashWriter`, the slice MD5 or the piece SHA-1: `current` is what was written
      since the last reset, `done` the hashes of the blocks finished so far. */
  class Roller {
    const size: nat
    var current: seq<Byte>
    var done: seq<Digest>

    ghost predicate Holds(data: seq<Byte>)
      reads this
    {
      size > 0 && current == Tail(data, size) && done == Digests(Full(data, size))
    }

    constructor (size: nat)
      requires size > 0
      ensures this.size == size && Holds([])
    {
      this.size, current, done := size, [], [];
    }

    /** Takes a chunk that fits into the current block; a full block is finished at once. */
    method Roll(chunk: seq<Byte>, ghost data: seq<Byte>)
      requires Holds(data) && chunk != [] && |Tail(data, size)| + |chunk| <= size
      modifies this
      ensures Holds(data + chunk)
    {
      Feed(data, chunk, size);
      current := current + chunk;
      if |current| >= size {
        DigestsSnoc(Full(data, size), current);
        done, current := done + [OfBytes(current)], [];
      }
    }

    /** `Finish`: an unfinished block is finished, so that only an empty stream has no block. */
    method Finish(ghost data: seq<Byte>)
      requires Holds(data)
      modifies this
      ensures done == if data == [] then [] else Digests(Blocks(data, size))
    {
      BlocksAreFullAndTail(data, size);
      if |current| > 0 {
        DigestsSnoc(Full(data, size), current);
        done, current := done + [OfBytes(current)], [];
      }
    }
  }

  /** `HashWriter.Write` over all writes and then `Finish`: slice hashes and piece hashes of one pass
      over the stream, for any slice and piece size. */
  method HashTwice(writes: seq<seq<Byte>>, sliceSize: nat, pieceSize: nat)
    returns (slices: seq<Digest>, pieces: seq<Digest>)
    requires sliceSize > 0 && pieceSize > 0
    ensures
      var data := Flatten(writes);
      && slices == (if data == [] then [] else Digests(Blocks(data, sliceSize)))
      && pieces == (if data == [] then [] else Digests(Blocks(data, pieceSize)))
  {
    var slice := new Roller(sliceSize);
    var piece := new Roller(pieceSize);
    assert Flatten(writes[..0]) == [];
    for i := 0 to |writes|
      invariant fresh(slice) && fresh(piece) && slice != piece && slice.size == sliceSize && piece.size == pieceSize
      invariant slice.Holds(Flatten(writes[..i])) && piece.Holds(Flatten(writes[..i]))
    {
      FlattenSnoc(writes, i);
      RollBoth(slice, piece, writes[i], Flatten(writes[..i]));
    }
    assert writes[..|writes|] == writes;
    slice.Finish(Flatten(writes));
    piece.Finish(Flatten(writes));
    slices, pieces := slice.done, piece.done;
  }

  /** How far a turn may go: to the nearer end of slice and piece, and of what is left. */
  method RoomInBoth(slice: Roller, piece: Roller, left: nat, ghost data: seq<Byte>) returns (canWrite: nat)
    requires slice.Holds(data) && piece.Holds(data) && left > 0
    ensures 0 < canWrite <= left
    ensures |Tail(data, slice.size)| + canWrite <= slice.size && |Tail(data, piece.size)| + canWrite <= piece.size
  {
    var sliceRemain, pieceRemain := slice.size - |slice.current|, piece.size - |piece.current|;
    canWrite := if sliceRemain < pieceRemain then sliceRemain else pieceRemain;
    canWrite := if left < canWrite then left else canWrite;
  }

  /** The loop of `HashWriter.Write`: each turn goes up to the nearer end of slice and piece. */
  method RollBoth(slice: Roller, piece: Roller, p: seq<Byte>, ghost data: seq<Byte>)
    requires slice != piece && slice.Holds(data) && piece.Holds(data)
    modifies slice, piece
    ensures slice.Holds(data + p) && piece.Holds(data + p)
  {
    var offset := 0;
    assert data + p[..0] == data;
    while offset < |p|
      invariant offset <= |p|
      invariant slice.Holds(data + p[..offset]) && piece.Holds(data + p[..offset])
    {
      ghost var sofar := data + p[..offset];
      var canWrite := RoomInBoth(slice, piece, |p| - offset, sofar);
      var chunk := p[offset..offset + canWrite];
      slice.Roll(chunk, sofar);
      piece.Roll(chunk, sofar);
      offset := offset + canWrite;
      assert sofar + chunk == data + p[..offset];
    }
    assert p[..|p|] == p;
  }

  // ----- Batch readers

  const DEFAULT_PIECE_SIZE: nat := 10485760

  /** One turn of the reading loop: `chunk` after the complete blocks of `before`. */
  lemma {:induction false} ReadStep(before: seq<Byte>, chunk: seq<Byte>, size: nat)
    requires size > 0 && 0 < |chunk| <= size && Tail(before, size) == []
    ensures
      var all := before + chunk;
      && SliceTexts(Full(before, size)) + [SliceText(chunk)] == SliceTexts(Blocks(all, size))
      && (|chunk| == size ==> Tail(all, size) == [] && Full(all, size) == Blocks(all, size))
  {
    Feed(before, chunk, size);
    assert [] + chunk == chunk;
    BlocksAreFullAndTail(before + chunk, size);
    SliceTextsSnoc(Full(before, size), chunk);
  }

  /** The loop of `ComputeSliceMD5sFromReader`; `io.ReadFull` delivers a full buffer or what is left. */
  method ReadSlices(data: seq<Byte>, size: nat) returns (hashed: seq<Byte>, slices: seq<HexText>)
    requires size > 0
    ensures hashed == data
    ensures slices == if data == [] then [] else SliceTexts(Blocks(data, size))
  {
    hashed, slices := [], [];
    while true
      invariant hashed <= data && Tail(hashed, size) == []
      invariant slices == SliceTexts(Full(hashed, size))
      invariant slices == if hashed == [] then [] else SliceTexts(Blocks(hashed, size))
      decreases |data| - |hashed|
    {
      var n := if |data| - |hashed| < size then |data| - |hashed| else size;
      var chunk := data[|hashed|..|hashed| + n];
      if n > 0 {
        ReadStep(hashed, chunk, size);
        hashed := hashed + chunk;
        slices := slices + [SliceText(chunk)];
      }
      if n < size {
        break;
      }
    }
  }

  /** `ComputeSliceMD5sFromReader`. */
  method ComputeSliceMD5s(data: seq<Byte>, sliceSize: int) returns (file: HexText, slices: seq<HexText>)
    ensures file == SliceText(data)
    ensures
      var size := if sliceSize <= 0 then DEFAULT_PIECE_SIZE else sliceSize;
      slices == if data == [] then [] else SliceTexts(Blocks(data, size))
  {
    var size: nat := if sliceSize <= 0 then DEFAULT_PIECE_SIZE else sliceSize;
    var hashed;
    hashed, slices := ReadSlices(data, size);
    file := SliceText(hashed);
  }

  /** What `fastUpload` computes before it contacts the server: the hash texts, and part infos
      (part number and slice hash) in order. */
  datatype Prepared = Prepared(file: HexText, slices: seq<HexText>, infos: seq<(nat, Digest)>)

  /** Part infos are numbered from 1 and carry the hash of their own slice. */
  function Infos(blocks: seq<seq<Byte>>): seq<(nat, Digest)> {
    if blocks == [] then [] else Infos(blocks[..|blocks| - 1]) + [(|blocks|, OfBytes(blocks[|blocks| - 1]))]
  }

  lemma {:induction false} InfoAt(blocks: seq<seq<Byte>>, i: nat)
    requires i < |blocks|
    ensures |Infos(blocks)| == |blocks| && Infos(blocks)[i] == (i + 1, OfBytes(blocks[i]))
  {
    var n := |blocks| - 1;
    if n > 0 {
      InfoAt(blocks[..n], if i < n then i else 0);
    }
  }

  lemma {:induction false} OneBlockMore(blocks: seq<seq<Byte>>, i: nat)
    requires i < |blocks|
    ensures SliceTexts(blocks[..i + 1]) == SliceTexts(blocks[..i]) + [SliceText(blocks[i])]
    ensures Infos(blocks[..i + 1]) == Infos(blocks[..i]) + [(i + 1, OfBytes(blocks[i]))]
  {
    assert blocks[..i + 1][..i] == blocks[..i];
  }

  /** All blocks but the last have length `slice`. */
  lemma {:induction false} BlockLength(data: seq<Byte>, slice: nat, i: nat)
    requires slice > 0 && i < |Blocks(data, slice)|
    ensures i + 1 < |Blocks(data, slice)| ==> |Blocks(data, slice)[i]| == slice
    decreases i
  {
    if i > 0 {
      BlockLength(data[slice..], slice, i - 1);
    }
  }

  /** `count` and `lastSliceSize`: the last turn may read up to `last` bytes, which is at least what the
      last slice holds. */
  method SliceSizes(data: seq<Byte>, slice: nat) returns (count: nat, last: nat)
    requires slice > 0
    ensures count == |Blocks(data, slice)| && |Blocks(data, slice)[count - 1]| <= last
    ensures data != [] ==> |Blocks(data, slice)[count - 1]| == last
  {
    var size := |data|;
    BlockCount(data, slice);
    LastFits(size, slice);
    count := 1;
    if size > slice {
      count := (size + slice - 1) / slice;
    }
    last := size % slice;
    if last == 0 {
      last := slice;
    }
    BlockAt(data, slice, count - 1, (count - 1) * slice);
  }

  lemma {:induction false} NextBlock(blocks: seq<seq<Byte>>, i: nat)
    requires i < |blocks|
    ensures Flatten(blocks[i..]) == blocks[i] + Flatten(blocks[i + 1..])
    ensures i + 1 == |blocks| ==> Flatten(blocks[i..]) == blocks[i]
  {
    assert blocks[i..][1..] == blocks[i + 1..];
    assert blocks[i] + [] == blocks[i];
  }

  /** The bytes of the next slice, cut off the rest of the stream by length. */
  lemma {:induction false} CutBlock(data: seq<Byte>, hashed: seq<Byte>, block: seq<Byte>, rest: seq<Byte>)
    requires data == hashed + (block + rest)
    ensures |hashed| + |block| <= |data|
    ensures data[|hashed|..|hashed| + |block|] == block && data == hashed + block + rest
  {
  }

  /** What a turn of the slice loop finds: the next block, and how long it is. */
  lemma {:induction false} SliceTurn(data: seq<Byte>, slice: nat, hashed: seq<Byte>, i: nat)
    requires slice > 0 && 1 <= i <= |Blocks(data, slice)| && data == hashed + Flatten(Blocks(data, slice)[i - 1..])
    ensures
      var blocks := Blocks(data, slice);
      var block := blocks[i - 1];
      && |hashed| + |block| <= |data| && data[|hashed|..|hashed| + |block|] == block
      && data == hashed + block + Flatten(blocks[i..])
      && (if i < |blocks| then |block| == slice else |hashed| + |block| == |data|)
  {
    var blocks := Blocks(data, slice);
    NextBlock(blocks, i - 1);
    BlockLength(data, slice, i - 1);
    CutBlock(data, hashed, blocks[i - 1], Flatten(blocks[i..]));
  }

  /** The slice loop of `fastUpload` over a stream of exactly `size` bytes. */
  method PrepareSlices(data: seq<Byte>, slice: nat) returns (p: Prepared)
    requires slice > 0
    ensures p.file == SliceText(data)
    ensures p.slices == SliceTexts(Blocks(data, slice))
    ensures p.infos == Infos(Blocks(data, slice))
  {
    var count, last := SliceSizes(data, slice);
    ghost var blocks := Blocks(data, slice);
    FlattenBlocks(data, slice);
    assert blocks[0..] == blocks;
    var hashed: seq<Byte> := [];
    var slices: seq<HexText> := [];
    var infos: seq<(nat, Digest)> := [];
    for i := 1 to count + 1
      invariant data == hashed + Flatten(blocks[i - 1..])
      invariant slices == SliceTexts(blocks[..i - 1]) && infos == Infos(blocks[..i - 1])
    {
      SliceTurn(data, slice, hashed, i);
      OneBlockMore(blocks, i - 1);
      var byteSize := if i == count then last else slice;
      var n := if |data| - |hashed| < byteSize then |data| - |hashed| else byteSize;
      var chunk := data[|hashed|..|hashed| + n];
      hashed := hashed + chunk;
      slices := slices + [SliceText(chunk)];
      infos := infos + [(i, OfBytes(chunk))];
    }
    assert blocks[..count] == blocks && Flatten(blocks[count..]) == [];
    assert hashed + [] == hashed;
    p := Prepared(SliceText(hashed), slices, infos);
  }

  // ----- The combined slice hash

  /** Of joined slice hashes, in lower case as `GetMD5EncodeStr` returns it. */
  function JoinedText(slices: seq<HexText>): HexText {
    Hex(OfTexts(slices), false)
  }

  /** `sliceMd5Hex` of `fastUpload` and `StreamUpload`. */
  function UploadHash(size: nat, slice: nat, file: HexText, slices: seq<HexText>): HexText {
    if size > slice then ToUpper(JoinedText(slices)) else file
  }

  /** The CAS record of a torrent; None for an empty slice hash. */
  datatype CasInfo = CasInfo(fileMD5: HexText, sliceMD5: Option<HexText>, sliceMD5s: seq<HexText>, sliceSize: nat)

  function GenerateTorrent(file: HexText, slices: seq<HexText>, slice: nat): CasInfo {
    CasInfo(file, Some(if |slices| > 1 then ToUpper(JoinedText(slices)) else file), slices, slice)
  }

  /** The recomputation in `RapidUploadFromTorrent`. */
  method RapidHash(cas: CasInfo) returns (h: HexText)
    ensures h == Recomputed(cas)
  {
    h := ToUpper(if cas.sliceMD5.Some? then cas.sliceMD5.value else cas.fileMD5);
    if |cas.sliceMD5s| > 1 {
      var upper: seq<HexText> := [];
      for i := 0 to |cas.sliceMD5s|
        invariant upper == AllUpper(cas.sliceMD5s[..i])
      {
        assert cas.sliceMD5s[..i + 1][..i] == cas.sliceMD5s[..i];
        upper := upper + [ToUpper(cas.sliceMD5s[i])];
      }
      assert cas.sliceMD5s[..|cas.sliceMD5s|] == cas.sliceMD5s;
      h := ToUpper(JoinedText(upper));
    }
  }

  function AllUpper(ts: seq<HexText>): seq<HexText> {
    if ts == [] then [] else AllUpper(ts[..|ts| - 1]) + [ToUpper(ts[|ts| - 1])]
  }

  lemma {:induction false} AlreadyUpper(blocks: seq<seq<Byte>>)
    ensures AllUpper(SliceTexts(blocks)) == SliceTexts(blocks)
  {
    if blocks != [] {
      var n := |blocks| - 1;
      AlreadyUpper(blocks[..n]);
      assert SliceTexts(blocks)[..n] == SliceTexts(blocks[..n]);
    }
  }

  /** What `RapidUploadFromTorrent` sends for a generated torrent. */
  function Recomputed(cas: CasInfo): HexText {
    if |cas.sliceMD5s| > 1 then ToUpper(JoinedText(AllUpper(cas.sliceMD5s)))
    else if cas.sliceMD5.Some? then ToUpper(cas.sliceMD5.value)
    else ToUpper(cas.fileMD5)
  }

  /** For all data the slice hash sent at upload is the one the torrent stores and the one that a rapid
      upload from that torrent recomputes, even where the torrent lacks it, since there is more than one
      slice exactly when the data is longer than a slice. */
  lemma {:induction false} CombinedHashesAgree(data: seq<Byte>, slice: nat)
    requires slice > 0
    ensures
      var slices := SliceTexts(Blocks(data, slice));
      var sent := UploadHash(|data|, slice, SliceText(data), slices);
      var cas := GenerateTorrent(SliceText(data), slices, slice);
      && cas.sliceMD5 == Some(sent) && Recomputed(cas) == sent
      && Recomputed(cas.(sliceMD5 := None)) == sent
    ensures |data| > slice <==> |Blocks(data, slice)| > 1
  {
    BlockCount(data, slice);
    AlreadyUpper(Blocks(data, slice));
    if |data| > slice {
      CeilDivBounds(|data|, slice);
    }
  }
}
