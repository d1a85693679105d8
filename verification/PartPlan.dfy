/** How the uploaders cut a file into parts: the chunk lists of the 115 driver, the part sizes of the
    189, 115 Open and AliDoc drivers, and the offsets and lengths their upload loops produce. */
module PartPlan {
  import opened Common
  import opened Slicing

  const KB: nat := 1024
  const MB: nat := 1024 * KB
  const GB: nat := 1024 * MB
  const TB: nat := 1024 * GB

  const MAX_CHUNKS: nat := 10000

  // ----- Tiling loops

  /** Appending the chunk that starts where the tiling ends. */
  lemma {:induction false} TilesSnoc(cs: seq<Chunk>, covered: nat, length: nat)
    requires Tiles(cs, covered) && length > 0
    ensures Tiles(cs + [Chunk(|cs| + 1, covered, length)], covered + length)
  {
  }

  lemma {:induction false} DivAtLeast(x: nat, d: nat, k: nat)
    requires d > 0 && x >= k * d
    ensures x / d >= k
  {
    assert x == (x / d) * d + x % d;
    if x / d < k {
      MulNext(x / d, k, d);
    }
  }

  lemma {:induction false} MulSucc(i: nat, d: nat)
    ensures (i + 1) * d == i * d + d
  {
  }

  lemma {:induction false} DivPositive(x: nat, d: nat)
    requires 0 < d <= x
    ensures x / d >= 1
  {
    assert x == (x / d) * d + x % d;
  }

  // ----- 115: SplitFile

  datatype SplitError = ChunkNumInvalid | ChunkSizeInvalid | TooManyParts

  /** `n` chunks of length `q`, the last one longer by `rest`. */
  method EqualChunks(n: nat, q: nat, rest: nat) returns (chunks: seq<Chunk>)
    requires n > 0 && q > 0
    ensures |chunks| == n && Tiles(chunks, n * q + rest)
    ensures forall k :: 0 <= k < n ==> chunks[k].size == if k == n - 1 then q + rest else q
  {
    chunks := [];
    ghost var covered: nat := 0;
    for i := 0 to n
      invariant |chunks| == i && Tiles(chunks, covered)
      invariant covered == i * q + if i == n then rest else 0
      invariant forall k :: 0 <= k < i ==> chunks[k].size == if k == n - 1 then q + rest else q
    {
      MulSucc(i, q);
      var size := if i == n - 1 then q + rest else q;
      TilesSnoc(chunks, covered, size);
      chunks := chunks + [Chunk(i + 1, i * q, size)];
      covered := covered + size;
    }
  }

  /** `SplitFileByPartNum`: equal chunks, the last one takes the remainder. */
  method SplitByPartNum(fileSize: nat, chunkNum: int) returns (r: Result<seq<Chunk>, SplitError>)
    ensures r.Ok? <==> 0 < chunkNum <= MAX_CHUNKS && chunkNum <= fileSize
    ensures r.Ok? ==> |r.value| == chunkNum && Tiles(r.value, fileSize)
    ensures r.Ok? ==> forall i :: 0 <= i < chunkNum ==> r.value[i].size >= fileSize / chunkNum
    ensures r.Ok? && chunkNum > 1 ==> r.value[0].size == fileSize / chunkNum
  {
    if chunkNum <= 0 || chunkNum > MAX_CHUNKS || chunkNum > fileSize {
      return Err(ChunkNumInvalid);
    }
    DivPositive(fileSize, chunkNum);
    var chunks := EqualChunks(chunkNum, fileSize / chunkNum, fileSize % chunkNum);
    assert chunkNum * (fileSize / chunkNum) + fileSize % chunkNum == fileSize;
    r := Ok(chunks);
  }

  /** The loop of `SplitFileByPartSize`. */
  method FullChunks(n: nat, chunkSize: nat) returns (chunks: seq<Chunk>)
    requires chunkSize > 0
    ensures |chunks| == n && Tiles(chunks, n * chunkSize)
    ensures forall k :: 0 <= k < n ==> chunks[k].size == chunkSize
  {
    chunks := [];
    ghost var covered: nat := 0;
    for i := 0 to n
      invariant |chunks| == i && covered == i * chunkSize && Tiles(chunks, covered)
      invariant forall k :: 0 <= k < i ==> chunks[k].size == chunkSize
    {
      MulSucc(i, chunkSize);
      TilesSnoc(chunks, covered, chunkSize);
      chunks := chunks + [Chunk(i + 1, i * chunkSize, chunkSize)];
      covered := covered + chunkSize;
    }
  }

  /** `SplitFileByPartSize`: chunks of `chunkSize`, and one for the remainder. */
  method SplitByPartSize(fileSize: nat, chunkSize: int) returns (r: Result<seq<Chunk>, SplitError>)
    ensures r.Ok? <==> chunkSize > 0 && fileSize / chunkSize < MAX_CHUNKS
    ensures r.Ok? ==> Tiles(r.value, fileSize) && |r.value| <= MAX_CHUNKS
    ensures r.Ok? ==> forall i :: 0 <= i < |r.value| - 1 ==> r.value[i].size == chunkSize
  {
    if chunkSize <= 0 {
      return Err(ChunkSizeInvalid);
    }
    var chunkN, rest := fileSize / chunkSize, fileSize % chunkSize;
    assert fileSize == chunkN * chunkSize + rest;
    if chunkN >= MAX_CHUNKS {
      return Err(TooManyParts);
    }
    var chunks := FullChunks(chunkN, chunkSize);
    if rest > 0 {
      TilesSnoc(chunks, chunkN * chunkSize, rest);
      chunks := chunks + [Chunk(|chunks| + 1, |chunks| * chunkSize, rest)];
    }
    r := Ok(chunks);
  }

  datatype Split = Chunks(chunks: seq<Chunk>) | Failed(error: SplitError) | Panicked

  /** From 1 GB on the chunks `SplitFile` first asks for are not small. */
  lemma {:induction false} LargeChunks(fileSize: nat, i: nat)
    requires 2 <= i <= 10 && fileSize >= (i - 1) * GB
    ensures fileSize / (i * 1000) >= 100 * KB && fileSize >= i * 1000
  {
    DivAtLeast(fileSize, i * 1000, 100 * KB);
  }

  /** What the first split may be: as good as `SplitFile` needs, but for small chunks. */
  ghost predicate FirstSplit(fileSize: nat, cs: seq<Chunk>) {
    && Tiles(cs, fileSize) && 0 < |cs| <= MAX_CHUNKS
    && (forall i :: 0 <= i < |cs| ==> cs[i].size >= cs[0].size)
    && (cs[0].size < 100 * KB ==> fileSize < 100 * KB * 1000)
  }

  method SplitInto(fileSize: nat, i: nat) returns (r: Result<seq<Chunk>, SplitError>)
    requires 1 <= i <= 10 && fileSize >= (i - 1) * GB && (i == 1 ==> fileSize < 1 * GB)
    ensures r.Ok? <==> fileSize >= 1000
    ensures r.Ok? ==> FirstSplit(fileSize, r.value)
  {
    if i >= 2 {
      LargeChunks(fileSize, i);
    }
    r := SplitByPartNum(fileSize, i * 1000);
  }

  /** The branches on the file size; no branch covers exactly 9 GB, which leaves the list empty. */
  method ChooseSplit(fileSize: nat) returns (r: Result<seq<Chunk>, SplitError>)
    ensures r.Ok? <==> fileSize >= 1000
    ensures fileSize == 9 * GB ==> r == Ok([])
    ensures r.Ok? && fileSize != 9 * GB ==> FirstSplit(fileSize, r.value)
  {
    r := Ok([]);
    var i := 1;
    while i < 10
      invariant 1 <= i <= 10 && fileSize >= (i - 1) * GB && r == Ok([])
      decreases 10 - i
    {
      if fileSize < i * GB {
        r := SplitInto(fileSize, i);
        return;
      }
      i := i + 1;
    }
    if fileSize > 9 * GB {
      r := SplitInto(fileSize, 10);
    }
  }

  /** `SplitFile`: fails exactly below 1000 bytes; exactly at 9 GB Go indexes an empty list and panics;
      otherwise the chunks tile the file, at most 10000 of them, all but the last at least 100 KB. */
  method SplitFile(fileSize: nat) returns (r: Split)
    ensures r.Panicked? <==> fileSize == 9 * GB
    ensures r.Failed? <==> fileSize < 1000
    ensures r.Chunks? ==> Tiles(r.chunks, fileSize) && 0 < |r.chunks| <= MAX_CHUNKS
    ensures r.Chunks? ==> forall i :: 0 <= i < |r.chunks| - 1 ==> r.chunks[i].size >= 100 * KB
  {
    var s := ChooseSplit(fileSize);
    if s.Err? {
      return Failed(s.error);
    }
    var chunks := s.value;
    if |chunks| == 0 {
      return Panicked;
    }
    if chunks[0].size < 100 * KB {
      s := SplitByPartSize(fileSize, 100 * KB);
      if s.Err? {
        assert false;  // below 100 KB per chunk there are fewer than 1000 chunks of that size
      }
      chunks := s.value;
    }
    r := Chunks(chunks);
  }

  // ----- 189 PC: partSize

  const MIB10: nat := 10485760

  /** `partSize`, with the quotient of the floating-point expression taken exactly. */
  function PartSize(size: nat): (p: nat)
    ensures p > 0
  {
    if size > MIB10 * 2 * 999 then
      var factor := CeilDiv(size, 1999 * MIB10);
      (if factor < 5 then 5 else factor) * MIB10
    else if size > MIB10 * 999 then MIB10 * 2
    else MIB10
  }

  lemma {:induction false} CeilDivAtMost(x: nat, d: nat, n: nat)
    requires d > 0 && x <= n * d
    ensures CeilDiv(x, d) <= n
  {
    CeilDivBounds(x, d);
    if CeilDiv(x, d) > n {
      MulLe(n, CeilDiv(x, d) - 1, d);
    }
  }

  /** At most 999 parts of 10 or 20 MiB, at most 1999 of 50 MiB and more. */
  lemma {:induction false} PartCountBound(size: nat)
    ensures
      var p := PartSize(size);
      && p % MIB10 == 0
      && (p == MIB10 || p == 2 * MIB10 || p >= 5 * MIB10)
      && SliceCount(size, p) <= if p <= 2 * MIB10 then 999 else 1999
  {
    var p := PartSize(size);
    if p <= 2 * MIB10 {
      CeilDivAtMost(size, p, 999);
    } else {
      var unit := 1999 * MIB10;
      var factor := CeilDiv(size, unit);
      CeilDivBounds(size, unit);
      var f := if factor < 5 then 5 else factor;
      assert size <= factor * unit <= f * unit == 1999 * p;
      CeilDivAtMost(size, p, 1999);
    }
  }

  /** A larger part size is only used where the next smaller one breaks its limit. */
  lemma {:induction false} PartSizeLeast(size: nat)
    ensures
      var p := PartSize(size);
      && (p == 2 * MIB10 ==> CeilDiv(size, MIB10) > 999)
      && (p >= 5 * MIB10 ==> CeilDiv(size, 2 * MIB10) > 999)
      && (p > 5 * MIB10 ==> CeilDiv(size, p - MIB10) > 1999)
  {
    var p, unit := PartSize(size), 1999 * MIB10;
    CeilDivBounds(size, MIB10);
    CeilDivBounds(size, 2 * MIB10);
    if p > 5 * MIB10 {
      CeilDivBounds(size, unit);
      var factor := CeilDiv(size, unit);
      assert p == factor * MIB10;
      assert (factor - 1) * unit == 1999 * (p - MIB10);
      CeilDivBounds(size, p - MIB10);
      if CeilDiv(size, p - MIB10) <= 1999 {
        MulLe(CeilDiv(size, p - MIB10), 1999, p - MIB10);
      }
    }
  }

  /** The offsets and lengths of `StreamUpload`; for an empty file it plans one part of a whole slice. */
  method StreamParts(size: nat, slice: nat) returns (parts: seq<Chunk>)
    requires slice > 0
    ensures |parts| == SliceCount(size, slice)
    ensures Tiles(parts, size) <==> size > 0
  {
    var count, last := StreamCount(size, slice);
    parts := [];
    ghost var covered: nat := 0;
    for i := 1 to count + 1
      invariant |parts| == i - 1 && Tiles(parts, covered)
      invariant covered == if i <= count then (i - 1) * slice else (count - 1) * slice + last
    {
      MulSucc(i - 1, slice);
      var partSize := if i == count then last else slice;
      TilesSnoc(parts, covered, partSize);
      parts := parts + [Chunk(i, (i - 1) * slice, partSize)];
      covered := covered + partSize;
    }
  }

  /** `count` and `lastPartSize`. */
  method StreamCount(size: nat, slice: nat) returns (count: nat, last: nat)
    requires slice > 0
    ensures count == SliceCount(size, slice) >= 1 && last > 0
    ensures (count - 1) * slice + last == if size == 0 then slice else size
  {
    LastFits(size, slice);
    count := 1;
    if size > slice {
      count := (size + slice - 1) / slice;
    }
    last := size % slice;
    if last == 0 {
      last := slice;
    }
  }

  // ----- 115 Open

  /** `calPartSize`. */
  function CalPartSize(fileSize: nat): (p: nat)
    ensures p > 0
  {
    if fileSize <= 20 * MB then 20 * MB
    else if fileSize > 1 * TB then 5 * GB
    else if fileSize > 768 * GB then 109951163
    else if fileSize > 512 * GB then 82463373
    else if fileSize > 384 * GB then 54975582
    else if fileSize > 256 * GB then 41231687
    else if fileSize > 128 * GB then 27487791
    else 20 * MB
  }

  /** The part count stays within 10000 exactly up to 50000 GB. */
  lemma {:induction false} CalPartCountIff(fileSize: nat)
    ensures CeilDiv(fileSize, CalPartSize(fileSize)) <= 10000 <==> fileSize <= 50000 * GB
  {
    var p := CalPartSize(fileSize);
    if fileSize <= 50000 * GB {
      CeilDivAtMost(fileSize, p, 10000);
    } else {
      CeilDivBounds(fileSize, p);
    }
  }

  /** The part loop of `multpartUpload`. */
  method OpenParts(fileSize: nat) returns (parts: seq<Chunk>)
    ensures Tiles(parts, fileSize) && |parts| == CeilDiv(fileSize, CalPartSize(fileSize))
  {
    parts := UniformParts(fileSize, CalPartSize(fileSize));
  }

  method UniformParts(fileSize: nat, chunkSize: nat) returns (parts: seq<Chunk>)
    requires chunkSize > 0
    ensures Tiles(parts, fileSize) && |parts| == CeilDiv(fileSize, chunkSize)
  {
    var partNum := (fileSize + chunkSize - 1) / chunkSize;
    CeilDivBounds(fileSize, chunkSize);
    var offset: nat := 0;
    parts := [];
    for i := 1 to partNum + 1
      invariant |parts| == i - 1
      invariant offset == if i <= partNum then (i - 1) * chunkSize else fileSize
      invariant Tiles(parts, offset)
    {
      assert i * chunkSize == (i - 1) * chunkSize + chunkSize;
      var partSize := chunkSize;
      if i == partNum {
        partSize := fileSize - (i - 1) * chunkSize;
      }
      TilesSnoc(parts, offset, partSize);
      parts := parts + [Chunk(i, offset, partSize)];
      offset := if i == partNum then fileSize else offset + partSize;
    }
  }

  // ----- AliDoc

  const ALIDOC_DEFAULT_PART: nat := 100 * 1024
  const ALIDOC_MAX_PARTS: nat := 10000

  /** `calcAliDocPartSize`, with the ceiling taken exactly. */
  function AliDocPartSize(fileSize: int, minPartSize: int): (p: nat)
    ensures p > 0
  {
    var p: nat := if minPartSize <= 0 then ALIDOC_DEFAULT_PART else minPartSize;
    if fileSize <= 0 then p
    else
      var required := CeilDiv(fileSize, ALIDOC_MAX_PARTS);
      if required > p then required else p
  }

  /** It is the least size, from the minimum on, that needs no more than 10000 parts. */
  lemma {:induction false} AliDocPartLeast(fileSize: nat, minPartSize: int, q: nat)
    requires q > 0 && q >= AliDocPartSize(0, minPartSize)
    ensures CeilDiv(fileSize, q) <= ALIDOC_MAX_PARTS <==> q >= AliDocPartSize(fileSize, minPartSize)
  {
    CeilDivBounds(fileSize, q);
    CeilDivBounds(fileSize, ALIDOC_MAX_PARTS);
    if CeilDiv(fileSize, q) <= ALIDOC_MAX_PARTS {
      MulLe(CeilDiv(fileSize, q), ALIDOC_MAX_PARTS, q);
    } else {
      MulLe(ALIDOC_MAX_PARTS, CeilDiv(fileSize, q) - 1, q);
    }
  }

  /** The part loop of `multipartUpload`: the length is cut to what remains. */
  method AliDocParts(size: nat, minPartSize: int) returns (parts: seq<Chunk>)
    ensures Tiles(parts, size) && |parts| <= ALIDOC_MAX_PARTS
    ensures minPartSize > 0 ==> forall i :: 0 <= i < |parts| - 1 ==> parts[i].size >= minPartSize
  {
    var partSize := AliDocPartSize(size, minPartSize);
    var partNum := (size + partSize - 1) / partSize;
    CeilDivBounds(size, partSize);
    CeilDivBounds(size, ALIDOC_MAX_PARTS);
    CeilDivAtMost(size, partSize, ALIDOC_MAX_PARTS);
    var offset: nat := 0;
    parts := [];
    for n := 1 to partNum + 1
      invariant |parts| == n - 1 && Tiles(parts, offset)
      invariant offset == if n <= partNum then (n - 1) * partSize else size
      invariant forall i :: 0 <= i < |parts| && i < partNum - 1 ==> parts[i].size == partSize
    {
      AliDocTurn(size, partSize, partNum, n);
      var length: nat := partSize;
      if size - offset < length {
        length := size - offset;
      }
      TilesSnoc(parts, offset, length);
      parts := parts + [Chunk(n, offset, length)];
      offset := offset + length;
    }
  }

  lemma {:induction false} AliDocTurn(size: nat, partSize: nat, partNum: nat, n: nat)
    requires partSize > 0 && partNum >= 1 && (partNum - 1) * partSize < size <= partNum * partSize
    requires 1 <= n <= partNum
    ensures (n - 1) * partSize < size
    ensures n * partSize == (n - 1) * partSize + partSize
    ensures n < partNum ==> n * partSize < size
  {
    MulPred(n, partSize);
    MulLe(n - 1, partNum - 1, partSize);
    if n < partNum {
      MulLe(n, partNum - 1, partSize);
    }
  }
}
