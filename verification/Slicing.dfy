/** Cutting [0, size) into consecutive pieces of one length: the arithmetic that the uploaders share. */
module Slicing {

  lemma {:induction false} MulNext(a: nat, b: nat, d: nat)
    requires a < b
    ensures a * d + d <= b * d
  {
    if a + 1 < b {
      MulNext(a, b - 1, d);
      assert b * d == (b - 1) * d + d;
    } else {
      assert b * d == a * d + d;
    }
  }

  lemma {:induction false} DivUnique(x: nat, q: nat, d: nat, r: nat)
    requires d > 0 && r < d && x == q * d + r
    ensures x / d == q && x % d == r
  {
    assert x == (x / d) * d + x % d;
    if x / d < q {
      MulNext(x / d, q, d);
    } else if q < x / d {
      MulNext(q, x / d, d);
    }
  }

  lemma {:induction false} MulPred(i: nat, d: nat)
    requires i > 0
    ensures (i - 1) * d == i * d - d
  {
  }

  /** The number of pieces of length `d` that cover `x`. */
  function CeilDiv(x: nat, d: nat): nat
    requires d > 0
  {
    (x + d - 1) / d
  }

  lemma {:induction false} CeilDivOf(q: nat, d: nat, r: nat)
    requires r < d
    ensures CeilDiv(q * d + r, d) == if r == 0 then q else q + 1
  {
    if r == 0 {
      DivUnique(q * d + r + d - 1, q, d, d - 1);
    } else {
      assert (q + 1) * d == q * d + d;
      DivUnique(q * d + r + d - 1, q + 1, d, r - 1);
    }
  }

  lemma {:induction false} MulLe(a: nat, b: nat, d: nat)
    requires a <= b
    ensures a * d <= b * d
  {
    if a < b {
      MulNext(a, b, d);
    }
  }

  lemma {:induction false} CeilDivBounds(x: nat, d: nat)
    requires d > 0
    ensures x == 0 ==> CeilDiv(x, d) == 0
    ensures x > 0 ==> CeilDiv(x, d) >= 1 && (CeilDiv(x, d) - 1) * d < x <= CeilDiv(x, d) * d
  {
    var q, r := x / d, x % d;
    CeilDivOf(q, d, r);
    assert q * d + r == x;
    if x > 0 {
      CeilBracket(q, d, r);
    }
  }

  lemma {:induction false} CeilBracket(q: nat, d: nat, r: nat)
    requires r < d && q * d + r > 0
    ensures
      var c := if r == 0 then q else q + 1;
      c >= 1 && (c - 1) * d < q * d + r <= c * d
  {
    if r == 0 {
      assert q > 0;
      assert (q - 1) * d == q * d - d;
    } else {
      assert (q + 1) * d == q * d + d;
    }
  }

  /** Fewer than `c` full pieces do not cover `x`, `c` of them do: then `c` is the count. */
  lemma {:induction false} CeilDivUnique(x: nat, d: nat, c: nat)
    requires d > 0 && c > 0 && (c - 1) * d < x <= c * d
    ensures CeilDiv(x, d) == c
  {
    CeilDivBounds(x, d);
    if CeilDiv(x, d) < c {
      MulLe(CeilDiv(x, d), c - 1, d);
    } else if c < CeilDiv(x, d) {
      MulLe(c, CeilDiv(x, d) - 1, d);
    }
  }

  /** A piece of a file: part number (from 1), offset and length. */
  datatype Chunk = Chunk(number: nat, offset: nat, size: nat)

  /** The chunks are numbered 1, 2, ... and cover [0, size) without gap or overlap. */
  ghost predicate Tiles(cs: seq<Chunk>, size: nat) {
    && (forall i :: 0 <= i < |cs| ==> cs[i].number == i + 1 && cs[i].size > 0)
    && (forall i :: 0 <= i < |cs| ==> cs[i].offset == if i == 0 then 0 else cs[i - 1].offset + cs[i - 1].size)
    && size == if cs == [] then 0 else cs[|cs| - 1].offset + cs[|cs| - 1].size
  }

  /** In a tiling every byte position lies in exactly one chunk. */
  lemma {:induction false} TilesCover(cs: seq<Chunk>, size: nat, pos: nat) returns (i: nat)
    requires Tiles(cs, size) && pos < size
    ensures i < |cs| && cs[i].offset <= pos < cs[i].offset + cs[i].size
    ensures forall j :: 0 <= j < |cs| && cs[j].offset <= pos < cs[j].offset + cs[j].size ==> j == i
  {
    var last := cs[|cs| - 1];
    if last.offset <= pos {
      i := |cs| - 1;
      forall j | 0 <= j < |cs| - 1
        ensures cs[j].offset + cs[j].size <= last.offset
      {
        TilesOrdered(cs, size, j, |cs| - 1);
      }
    } else {
      i := TilesCover(cs[..|cs| - 1], last.offset, pos);
    }
  }

  lemma {:induction false} TilesOrdered(cs: seq<Chunk>, size: nat, i: nat, j: nat)
    requires Tiles(cs, size) && i < j < |cs|
    ensures cs[i].offset + cs[i].size <= cs[j].offset
  {
    if i + 1 < j {
      TilesOrdered(cs, size, i, j - 1);
    }
  }

  // ----- Blocks of a byte sequence

  /** The consecutive blocks of length `slice`, the last one possibly shorter; one empty block for
      an empty sequence. */
  function Blocks<T>(data: seq<T>, slice: nat): (bs: seq<seq<T>>)
    requires slice > 0
    ensures |bs| >= 1
    decreases |data|
  {
    if |data| <= slice then [data] else [data[..slice]] + Blocks(data[slice..], slice)
  }

  function Flatten<T>(bs: seq<seq<T>>): seq<T> {
    if bs == [] then [] else bs[0] + Flatten(bs[1..])
  }

  lemma {:induction false} FlattenBlocks<T>(data: seq<T>, slice: nat)
    requires slice > 0
    ensures Flatten(Blocks(data, slice)) == data
    decreases |data|
  {
    if |data| <= slice {
      assert Flatten([data]) == data + Flatten([data][1..]);
    } else {
      FlattenBlocks(data[slice..], slice);
      var bs := Blocks(data, slice);
      assert bs[1..] == Blocks(data[slice..], slice);
      assert data == data[..slice] + data[slice..];
    }
  }

  lemma {:induction false} FlattenSnoc<T>(bs: seq<seq<T>>, k: nat)
    requires k < |bs|
    ensures Flatten(bs[..k + 1]) == Flatten(bs[..k]) + bs[k]
  {
    if k == 0 {
      assert bs[..1] == [bs[0]];
      assert Flatten([bs[0]]) == bs[0] + Flatten([bs[0]][1..]);
    } else {
      FlattenSnoc(bs[1..], k - 1);
      assert bs[..k + 1][1..] == bs[1..][..k] && bs[..k][1..] == bs[1..][..k - 1];
    }
  }

  /** `count` of the 189 drivers: the number of slices, at least one. */
  function SliceCount(size: nat, slice: nat): (c: nat)
    requires slice > 0
  {
    if size > slice then CeilDiv(size, slice) else 1
  }

  /** `lastSliceSize` of the 189 drivers. */
  function LastSize(size: nat, slice: nat): nat
    requires slice > 0
  {
    if size % slice == 0 then slice else size % slice
  }

  /** All slices but the last, and the last one, make up the size; an empty file counts as a whole
      slice. */
  lemma {:induction false} LastFits(size: nat, slice: nat)
    requires slice > 0
    ensures SliceCount(size, slice) >= 1 && 0 < LastSize(size, slice) <= slice
    ensures (SliceCount(size, slice) - 1) * slice + LastSize(size, slice) == if size == 0 then slice else size
  {
    var q, r := size / slice, size % slice;
    assert size == q * slice + r;
    CeilDivOf(q, slice, r);
    if size <= slice {
      if q > 1 {
        MulLe(2, q, slice);
      }
    } else if r == 0 {
      MulPred(q, slice);
    }
  }

  lemma {:induction false} BlockCount<T>(data: seq<T>, slice: nat)
    requires slice > 0
    ensures |Blocks(data, slice)| == SliceCount(|data|, slice)
    decreases |data|
  {
    if |data| > slice {
      var rest := |data| - slice;
      BlockCount(data[slice..], slice);
      if rest <= slice {
        CeilDivUnique(|data|, slice, 2);
      } else {
        var c := CeilDiv(rest, slice);
        CeilDivBounds(rest, slice);
        assert (c + 1) * slice == c * slice + slice && c * slice == (c - 1) * slice + slice;
        CeilDivUnique(|data|, slice, c + 1);
      }
    }
  }

  /** Block `i` starts at offset `k`, the i-th multiple of `slice`. */
  lemma {:induction false} BlockAt<T>(data: seq<T>, slice: nat, i: nat, k: nat)
    requires slice > 0 && i < |Blocks(data, slice)| && k == i * slice
    ensures k <= |data|
    ensures i + 1 < |Blocks(data, slice)| ==> k + slice <= |data|
    ensures Blocks(data, slice)[i] == if i + 1 < |Blocks(data, slice)| then data[k..k + slice] else data[k..]
    decreases i
  {
    if i == 0 {
      assert data[0..] == data;
    } else {
      MulPred(i, slice);
      BlockAt(data[slice..], slice, i - 1, k - slice);
      BlockOffset(data, slice, k - slice);
    }
  }

  lemma {:induction false} BlockOffset<T>(data: seq<T>, slice: nat, k: nat)
    requires slice + k <= |data|
    ensures data[slice..][k..] == data[k + slice..]
    ensures k + slice + slice <= |data| ==> data[slice..][k..k + slice] == data[k + slice..k + slice + slice]
  {
  }
}
