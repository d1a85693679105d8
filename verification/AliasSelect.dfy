/** The weighted choice among upload targets of the alias driver. */
module AliasSelect {
  import opened Common

  /** Number of values of Go's uint64. */
  const TWO64: nat := 0x1_0000_0000_0000_0000

  /** A weight as it is held in a uint64. */
  type Weight = w: nat | w < TWO64

  function Sum(ws: seq<Weight>): nat {
    if ws == [] then 0 else Sum(ws[..|ws| - 1]) + ws[|ws| - 1]
  }

  /** The total as the source computes it, in wrapping arithmetic. */
  function Total(ws: seq<Weight>): Weight {
    Sum(ws) % TWO64
  }

  /** The draw `r` falls into the stretch of [0, Sum(ws)) that belongs to index `i`. */
  predicate FallsIn(ws: seq<Weight>, r: nat, i: nat) {
    i < |ws| && Sum(ws[..i]) <= r < Sum(ws[..i + 1])
  }

  lemma {:induction false} SumSnoc(ws: seq<Weight>, i: nat)
    requires i < |ws|
    ensures Sum(ws[..i + 1]) == Sum(ws[..i]) + ws[i]
  {
    assert ws[..i + 1][..i] == ws[..i];
  }

  lemma {:induction false} SumMonotonic(ws: seq<Weight>, i: nat, j: nat)
    requires i <= j <= |ws|
    ensures Sum(ws[..i]) <= Sum(ws[..j])
  {
    if i < j {
      SumMonotonic(ws, i, j - 1);
      SumSnoc(ws, j - 1);
    }
  }

  lemma {:induction false} WrapOnce(a: nat, w: Weight)
    ensures (a % TWO64 + w) % TWO64 == (a + w) % TWO64
  {
    assert a == TWO64 * (a / TWO64) + a % TWO64;
    ModAdd(a / TWO64, a % TWO64 + w);
  }

  lemma {:induction false} ModAdd(q: nat, x: nat)
    ensures (TWO64 * q + x) % TWO64 == x % TWO64
  {
    if q > 0 {
      ModAdd(q - 1, x);
      assert TWO64 * q + x == TWO64 * (q - 1) + x + TWO64;
      assert (TWO64 * (q - 1) + x + TWO64) % TWO64 == (TWO64 * (q - 1) + x) % TWO64;
    }
  }

  lemma {:induction false} SmallMod(x: nat, d: nat)
    requires x < d
    ensures x % d == x
  {
  }

  lemma {:induction false} ModBounds(x: nat, d: nat)
    requires d > 0
    ensures 0 <= x % d < d && x % d <= x
  {
  }

  /** The loop that sums the weights up. */
  method TotalWeight(ws: seq<Weight>) returns (total: Weight)
    ensures total == Total(ws)
  {
    total := 0;
    for i := 0 to |ws|
      invariant total == Sum(ws[..i]) % TWO64
    {
      SumSnoc(ws, i);
      WrapOnce(Sum(ws[..i]), ws[i]);
      total := (total + ws[i]) % TWO64;
    }
    assert ws[..|ws|] == ws;
  }

  /** The loop that finds the slot; it never runs off the end. */
  method Locate(ws: seq<Weight>, r: nat) returns (i: nat)
    requires r < Sum(ws)
    ensures FallsIn(ws, r, i)
  {
    var rest: nat := r;
    i := 0;
    assert ws[..|ws|] == ws;
    while i < |ws| && ws[i] <= rest
      invariant i <= |ws| && rest + Sum(ws[..i]) == r
    {
      SumSnoc(ws, i);
      rest := rest - ws[i];
      i := i + 1;
    }
    SumSnoc(ws, i);
  }

  /** `selectRandom`, with the value of `rand.Uint64()` as a parameter. It never falls through:
      even when the total wraps around, the draw lands in the stretch of some index. */
  method SelectRandom(ws: seq<Weight>, draw: Weight) returns (r: Option<nat>)
    ensures r.None? <==> Total(ws) == 0
    ensures r.Some? ==> FallsIn(ws, draw % Total(ws), r.value)
  {
    var total := TotalWeight(ws);
    if total == 0 {
      return None;
    }
    ModBounds(draw, total);
    ModBounds(Sum(ws), TWO64);
    var i := Locate(ws, draw % total);
    r := Some(i);
  }

  /** At most one index answers to a draw. */
  lemma {:induction false} OneSlot(ws: seq<Weight>, r: nat, i: nat, j: nat)
    requires FallsIn(ws, r, i) && FallsIn(ws, r, j)
    ensures i == j
  {
    if i < j {
      SumMonotonic(ws, i + 1, j);
    } else if j < i {
      SumMonotonic(ws, j + 1, i);
    }
  }

  /** The draws in [0, Total) that select index `i`. */
  ghost function Draws(ws: seq<Weight>, i: nat): set<nat> {
    set r: nat | r < Total(ws) && FallsIn(ws, r, i)
  }

  predicate Within(a: nat, r: nat, b: nat) {
    a <= r < b
  }

  ghost function Interval(a: nat, b: nat): set<nat> {
    set r: nat | r < b && Within(a, r, b)
  }

  lemma {:induction false} IntervalSize(a: nat, b: nat)
    requires a <= b
    ensures |Interval(a, b)| == b - a
    decreases b
  {
    if a < b {
      IntervalSize(a, b - 1);
      assert Interval(a, b) == Interval(a, b - 1) + {b - 1};
    }
  }

  /** Without overflow index `i` is selected by exactly `ws[i]` of the `Sum(ws)` draws. */
  lemma {:induction false} ExactShare(ws: seq<Weight>, i: nat)
    requires Sum(ws) < TWO64 && i < |ws|
    ensures |Draws(ws, i)| == ws[i]
  {
    SumSnoc(ws, i);
    SumMonotonic(ws, i + 1, |ws|);
    assert ws[..|ws|] == ws;
    assert Total(ws) == Sum(ws);
    var a, b := Sum(ws[..i]), Sum(ws[..i + 1]);
    forall r: nat ensures r in Draws(ws, i) <==> r in Interval(a, b) {
      assert Within(a, r, b) <==> FallsIn(ws, r, i);
    }
    assert Draws(ws, i) == Interval(a, b);
    IntervalSize(Sum(ws[..i]), Sum(ws[..i + 1]));
  }

  /** With an overflow the index that holds the last unit of weight is never selected. */
  lemma {:induction false} ShortShare(ws: seq<Weight>, k: nat) returns (i: nat)
    requires Sum(ws) >= TWO64 && k <= |ws| && Sum(ws[..k]) == Sum(ws)
    ensures i < |ws| && ws[i] > 0 && Draws(ws, i) == {}
  {
    SumSnoc(ws, k - 1);
    if ws[k - 1] == 0 {
      i := ShortShare(ws, k - 1);
    } else {
      i := k - 1;
      assert Total(ws) <= Sum(ws[..i]);
      assert Draws(ws, i) == {};
    }
  }

  /** The shares are exact exactly when the weights do not overflow a uint64. */
  lemma {:induction false} SharesExactIff(ws: seq<Weight>)
    ensures (forall i :: 0 <= i < |ws| ==> |Draws(ws, i)| == ws[i]) <==> Sum(ws) < TWO64
  {
    if Sum(ws) < TWO64 {
      forall i | 0 <= i < |ws|
        ensures |Draws(ws, i)| == ws[i]
      {
        ExactShare(ws, i);
      }
    } else {
      assert ws[..|ws|] == ws;
      var i := ShortShare(ws, |ws|);
    }
  }

  // ----- Choice by free space

  /** Free space of a storage in bytes; None when the storage reports no details. */
  type Details = Option<int>

  /** The weight of a storage; a negative int64 would be reinterpreted as a uint64. */
  function SpaceWeight(d: Details, objSize: int): Weight
    requires d.Some? ==> -0x8000_0000_0000_0000 <= d.value < 0x8000_0000_0000_0000
  {
    if d.None? || d.value < objSize then 0
    else if d.value >= 0 then d.value
    else d.value + TWO64
  }

  ghost predicate Int64(ds: seq<Details>) {
    forall i :: 0 <= i < |ds| && ds[i].Some? ==> -0x8000_0000_0000_0000 <= ds[i].value < 0x8000_0000_0000_0000
  }

  ghost function Weights(ds: seq<Details>, objSize: int): (ws: seq<Weight>)
    requires Int64(ds)
    ensures |ws| == |ds| && forall i :: 0 <= i < |ds| ==> ws[i] == SpaceWeight(ds[i], objSize)
  {
    if ds == [] then [] else Weights(ds[..|ds| - 1], objSize) + [SpaceWeight(ds[|ds| - 1], objSize)]
  }

  /** What a choice by space may answer to a draw. */
  ghost predicate Chosen(ds: seq<Details>, strict: bool, objSize: int, draw: Weight, r: Option<nat>)
    requires Int64(ds)
  {
    var ws := Weights(ds, objSize);
    if Total(ws) > 0 then r.Some? && FallsIn(ws, draw % Total(ws), r.value)
    else if strict || forall i :: 0 <= i < |ds| ==> ds[i].Some? then r.None?
    else r.Some? && r.value < |ds| && ds[r.value].None?
  }

  /** The selection part of `getRandomObjByQuotaBalanced`; `pick` stands for `rand.Intn`. */
  method SelectBySpace(ds: seq<Details>, strict: bool, objSize: int, draw: Weight, pick: nat -> nat)
    returns (r: Option<nat>)
    requires Int64(ds) && forall n :: n > 0 ==> pick(n) < n
    ensures Chosen(ds, strict, objSize, draw, r)
  {
    var ws: seq<Weight> := [];
    for i := 0 to |ds|
      invariant |ws| == i && forall k :: 0 <= k < i ==> ws[k] == SpaceWeight(ds[k], objSize)
    {
      ws := ws + [SpaceWeight(ds[i], objSize)];
    }
    assert ws == Weights(ds, objSize);
    r := SelectRandom(ws, draw);
    if r.Some? || strict {
      return;
    }
    var noDetails: seq<nat> := [];
    for i := 0 to |ds|
      invariant forall k :: 0 <= k < |noDetails| ==> noDetails[k] < i && ds[noDetails[k]].None?
      invariant noDetails == [] ==> forall k :: 0 <= k < i ==> ds[k].Some?
    {
      if ds[i].None? {
        noDetails := noDetails + [i];
      }
    }
    if |noDetails| == 0 {
      return None;
    }
    r := Some(noDetails[pick(|noDetails|)]);
  }

  /** A chosen storage with known space has enough of it, and some; one with unknown space is only
      chosen outside strict mode, when no other qualifies. */
  lemma {:induction false} ChosenHasSpace(ds: seq<Details>, strict: bool, objSize: int, draw: Weight, i: nat)
    requires Int64(ds) && Chosen(ds, strict, objSize, draw, Some(i))
    ensures i < |ds|
    ensures ds[i].Some? ==> objSize <= ds[i].value != 0 && (objSize >= 0 ==> ds[i].value > 0)
    ensures ds[i].None? ==> !strict && Total(Weights(ds, objSize)) == 0
  {
    var ws := Weights(ds, objSize);
    if Total(ws) > 0 {
      SumSnoc(ws, i);
    }
  }

  // ----- Room for the file

  /** Some draw chooses index `i`. */
  ghost predicate Pickable(ws: seq<Weight>, i: nat) {
    i < |ws| && ws[i] > 0 && Sum(ws[..i]) < Total(ws)
  }

  lemma {:induction false} PickableDraw(ws: seq<Weight>, i: nat) returns (draw: Weight)
    requires Pickable(ws, i)
    ensures FallsIn(ws, draw % Total(ws), i)
  {
    SumSnoc(ws, i);
    draw := Sum(ws[..i]);
    SmallMod(draw, Total(ws));
  }

  lemma {:induction false} FallsPickable(ws: seq<Weight>, r: nat, i: nat)
    requires r < Total(ws) && FallsIn(ws, r, i)
    ensures Pickable(ws, i)
  {
    SumSnoc(ws, i);
  }

  /** The program asks for `dirSize`, the size of the target directory, where a file of `size` is to be
      stored. Every strict choice has room for the file exactly when every storage that some draw
      chooses has. */
  lemma {:induction false} StrictRoomIff(ds: seq<Details>, dirSize: int, size: int)
    requires Int64(ds)
    ensures (forall draw: Weight, i: nat :: Chosen(ds, true, dirSize, draw, Some(i)) ==>
      ds[i].Some? && size <= ds[i].value)
       <==> (forall i: nat :: Pickable(Weights(ds, dirSize), i) ==> size <= ds[i].value)
  {
    var ws := Weights(ds, dirSize);
    if forall draw: Weight, i: nat :: Chosen(ds, true, dirSize, draw, Some(i)) ==> ds[i].Some? && size <= ds[i].value {
      forall i: nat | Pickable(ws, i) ensures size <= ds[i].value {
        var draw := PickableDraw(ws, i);
        assert Chosen(ds, true, dirSize, draw, Some(i));
      }
    }
    if forall i: nat :: Pickable(ws, i) ==> size <= ds[i].value {
      forall draw: Weight, i: nat | Chosen(ds, true, dirSize, draw, Some(i))
        ensures ds[i].Some? && size <= ds[i].value
      {
        FallsPickable(ws, draw % Total(ws), i);
      }
    }
  }

  /** Without overflow those are the storages whose known free space is not zero and not less than the
      size of the directory. */
  lemma {:induction false} PickableBySpace(ds: seq<Details>, dirSize: int, i: nat)
    requires Int64(ds) && Sum(Weights(ds, dirSize)) < TWO64 && i < |ds|
    ensures Pickable(Weights(ds, dirSize), i) <==> ds[i].Some? && dirSize <= ds[i].value != 0
  {
    var ws := Weights(ds, dirSize);
    SmallMod(Sum(ws), TWO64);
    SumSnoc(ws, i);
    SumMonotonic(ws, i + 1, |ws|);
    assert ws[..|ws|] == ws;
  }

  /** A strict choice for two bytes can fall on a storage with one byte left: directories have size 0. */
  lemma {:induction false} StrictChoiceTooSmall()
    ensures Chosen([Some(1)], true, 0, 0, Some(0))
  {
    var ds: seq<Details> := [Some(1)];
    var ws := Weights(ds, 0);
    assert ws == [1] && ws[..0] == [] && ws[..1] == ws;
    SumSnoc(ws, 0);
  }
}
