/** What the indentation parser means: the tree a stack builds is the one obtained by cutting the lines
    into blocks of deeper lines. */
module LinkForest {
  import opened LinkTree

  datatype Tree = Tree(item: Item, kids: seq<Tree>)

  // ----- The reference: cut off the deeper lines that follow a folder, and recurse

  /** The end of the run of lines from `lo` on that are deeper than `level`. */
  function Run(ls: seq<Line>, lo: nat, hi: nat, level: int): (m: nat)
    requires lo <= hi <= |ls|
    ensures lo <= m <= hi
    ensures forall i :: lo <= i < m ==> level < ls[i].level
    ensures m < hi ==> ls[m].level <= level
    decreases hi - lo
  {
    if lo == hi || ls[lo].level <= level then lo else Run(ls, lo + 1, hi, level)
  }

  /** The end of what belongs to line `lo`: itself and, for a folder, the deeper lines after it. */
  function Block(ls: seq<Line>, lo: nat, hi: nat): (m: nat)
    requires lo < hi <= |ls|
    ensures lo < m <= hi
  {
    if ls[lo].item.Folder? then Run(ls, lo + 1, hi, ls[lo].level) else lo + 1
  }

  function Grouped(ls: seq<Line>, lo: nat, hi: nat): seq<Tree>
    requires lo <= hi <= |ls|
    decreases hi - lo
  {
    if lo == hi then []
    else
      var m := Block(ls, lo, hi);
      [Tree(ls[lo].item, Grouped(ls, lo + 1, m))] + Grouped(ls, m, hi)
  }

  /** The parent of line `i` in that reading, where the lines `lo..hi` are inside node `p`. */
  function GroupedParent(ls: seq<Line>, lo: nat, hi: nat, p: nat, i: nat): (q: nat)
    requires p <= lo <= i < hi <= |ls|
    ensures q == p || lo < q <= i
    decreases hi - lo
  {
    var m := Block(ls, lo, hi);
    if i == lo then p
    else if i < m then GroupedParent(ls, lo + 1, m, lo + 1, i)
    else GroupedParent(ls, m, hi, p, i)
  }

  // ----- Those parents are the ones the stack finds

  /** The lines `lo..hi` are inside folder node `p`, and no folder between `p` and them is open to them. */
  ghost predicate Around(ls: seq<Line>, lo: nat, hi: nat, p: nat) {
    && p <= lo <= hi <= |ls|
    && (p > 0 ==> ls[p - 1].item.Folder? && forall i :: p <= i < hi ==> ls[i].level > ls[p - 1].level)
    && (forall j: nat, i: nat :: p <= j < lo <= i < hi ==> !Candidate(ls, j, i))
  }

  /** No folder of a block takes a line that comes after the block. */
  lemma {:induction false} BlockCloses(ls: seq<Line>, lo: nat, hi: nat, j: nat, i: nat)
    requires lo < hi <= |ls| && lo <= j < Block(ls, lo, hi) <= i < hi
    ensures !Candidate(ls, j, i)
  {
    var m := Block(ls, lo, hi);
    assert ls[lo].item.Folder? ==> ls[m].level <= ls[lo].level <= ls[j].level;
  }

  lemma {:induction false} AroundAfter(ls: seq<Line>, lo: nat, hi: nat, p: nat)
    requires Around(ls, lo, hi, p) && lo < hi
    ensures Around(ls, Block(ls, lo, hi), hi, p)
  {
    var m := Block(ls, lo, hi);
    forall j: nat, i: nat | p <= j < m <= i < hi ensures !Candidate(ls, j, i) {
      if lo <= j { BlockCloses(ls, lo, hi, j, i); }
    }
  }

  lemma {:induction false} GroupedIsParent(ls: seq<Line>, lo: nat, hi: nat, p: nat, i: nat)
    requires Around(ls, lo, hi, p) && lo <= i < hi
    ensures ParentIs(ls, i, GroupedParent(ls, lo, hi, p, i))
    decreases hi - lo
  {
    var m := Block(ls, lo, hi);
    if i == lo {
      assert p > 0 ==> Open(ls, p - 1, i);
    } else if i < m {
      GroupedIsParent(ls, lo + 1, m, lo + 1, i);
    } else {
      AroundAfter(ls, lo, hi, p);
      GroupedIsParent(ls, m, hi, p, i);
    }
  }

  lemma {:induction false} ParentsAreGrouped(ls: seq<Line>, i: nat)
    requires i < |ls|
    ensures Parents(ls)[i] == GroupedParent(ls, 0, |ls|, 0, i)
  {
    GroupedIsParent(ls, 0, |ls|, 0, i);
    ParentsAreOpenFolders(ls, i);
    ParentUnique(ls, i, Parents(ls)[i], GroupedParent(ls, 0, |ls|, 0, i));
  }

  // ----- The tree that a parent list describes

  /** A parent list: every line comes after its parent. */
  ghost predicate Rooted(pp: seq<nat>) {
    forall i :: 0 <= i < |pp| ==> pp[i] <= i
  }

  /** The nodes of the lines `lo..hi` whose parent is `p`, in order. */
  function Kids(pp: seq<nat>, p: nat, lo: nat, hi: nat): (ks: seq<nat>)
    requires lo <= hi <= |pp|
    ensures forall i :: 0 <= i < |ks| ==> lo < ks[i] <= hi && pp[ks[i] - 1] == p
    decreases hi - lo
  {
    if lo == hi then [] else (if pp[lo] == p then [lo + 1] else []) + Kids(pp, p, lo + 1, hi)
  }

  lemma {:induction false} KidsSplit(pp: seq<nat>, p: nat, lo: nat, mid: nat, hi: nat)
    requires lo <= mid <= hi <= |pp|
    ensures Kids(pp, p, lo, hi) == Kids(pp, p, lo, mid) + Kids(pp, p, mid, hi)
    decreases mid - lo
  {
    if lo < mid { KidsSplit(pp, p, lo + 1, mid, hi); }
  }

  lemma {:induction false} NoKids(pp: seq<nat>, p: nat, lo: nat, hi: nat)
    requires lo <= hi <= |pp| && forall i :: lo <= i < hi ==> pp[i] != p
    ensures Kids(pp, p, lo, hi) == []
    decreases hi - lo
  {
    if lo < hi { NoKids(pp, p, lo + 1, hi); }
  }

  function TreeAt(ls: seq<Line>, pp: seq<nat>, k: nat): Tree
    requires |pp| == |ls| && Rooted(pp) && 0 < k <= |ls|
    decreases |ls| - k, 1, 0
  {
    Tree(ls[k - 1].item, TreesAt(ls, pp, k, Kids(pp, k, 0, |pp|)))
  }

  function TreesAt(ls: seq<Line>, pp: seq<nat>, p: nat, ks: seq<nat>): seq<Tree>
    requires |pp| == |ls| && Rooted(pp) && p <= |ls|
    requires forall i :: 0 <= i < |ks| ==> 0 < ks[i] <= |ls| && pp[ks[i] - 1] == p
    decreases |ls| - p, 0, |ks|
  {
    if ks == [] then [] else [TreeAt(ls, pp, ks[0])] + TreesAt(ls, pp, p, ks[1..])
  }

  /** What hangs below node `p`. */
  function ForestAt(ls: seq<Line>, pp: seq<nat>, p: nat): seq<Tree>
    requires |pp| == |ls| && Rooted(pp) && p <= |ls|
  {
    TreesAt(ls, pp, p, Kids(pp, p, 0, |pp|))
  }

  /** The lines `lo..hi` hang below `p` in groups, and nothing outside them hangs inside them. */
  ghost predicate Fits(ls: seq<Line>, pp: seq<nat>, p: nat, lo: nat, hi: nat) {
    && |pp| == |ls| && Rooted(pp) && p <= lo <= hi <= |ls|
    && (forall i :: lo <= i < hi ==> pp[i] == GroupedParent(ls, lo, hi, p, i))
    && forall i :: hi <= i < |pp| ==> pp[i] <= lo || hi < pp[i]
  }

  lemma {:induction false} FitsInside(ls: seq<Line>, pp: seq<nat>, p: nat, lo: nat, hi: nat)
    requires Fits(ls, pp, p, lo, hi) && lo < hi
    ensures pp[lo] == p
    ensures Fits(ls, pp, lo + 1, lo + 1, Block(ls, lo, hi))
  {
    var m := Block(ls, lo, hi);
    assert forall i :: m <= i < hi ==> pp[i] == GroupedParent(ls, m, hi, p, i);
  }

  lemma {:induction false} FitsAfter(ls: seq<Line>, pp: seq<nat>, p: nat, lo: nat, hi: nat)
    requires Fits(ls, pp, p, lo, hi) && lo < hi
    ensures Fits(ls, pp, p, Block(ls, lo, hi), hi)
  {
  }

  /** The kids of line `lo` are within its block; the other kids of `p` are after it. */
  lemma {:induction false} KidsOfBlock(ls: seq<Line>, pp: seq<nat>, p: nat, lo: nat, hi: nat)
    requires Fits(ls, pp, p, lo, hi) && lo < hi
    ensures var m := Block(ls, lo, hi);
      && Kids(pp, lo + 1, 0, |pp|) == Kids(pp, lo + 1, lo + 1, m)
      && Kids(pp, p, lo, hi) == [lo + 1] + Kids(pp, p, m, hi)
  {
    var m := Block(ls, lo, hi);
    FitsInside(ls, pp, p, lo, hi);
    KidsSplit(pp, lo + 1, 0, lo + 1, |pp|);
    NoKids(pp, lo + 1, 0, lo + 1);
    KidsSplit(pp, lo + 1, lo + 1, m, |pp|);
    NoKidsAfter(ls, pp, p, lo, hi);
    NoKidsInside(ls, pp, p, lo, hi);
    KidsSplit(pp, p, lo + 1, m, hi);
  }

  lemma {:induction false} NoKidsAfter(ls: seq<Line>, pp: seq<nat>, p: nat, lo: nat, hi: nat)
    requires Fits(ls, pp, p, lo, hi) && lo < hi
    ensures Kids(pp, lo + 1, Block(ls, lo, hi), |pp|) == []
  {
    var m := Block(ls, lo, hi);
    FitsAfter(ls, pp, p, lo, hi);
    NoKids(pp, lo + 1, m, |pp|);
  }

  lemma {:induction false} NoKidsInside(ls: seq<Line>, pp: seq<nat>, p: nat, lo: nat, hi: nat)
    requires Fits(ls, pp, p, lo, hi) && lo < hi
    ensures Kids(pp, p, lo + 1, Block(ls, lo, hi)) == []
  {
    FitsInside(ls, pp, p, lo, hi);
    NoKids(pp, p, lo + 1, Block(ls, lo, hi));
  }

  lemma {:induction false} TreesAreGrouped(ls: seq<Line>, pp: seq<nat>, p: nat, lo: nat, hi: nat)
    requires Fits(ls, pp, p, lo, hi)
    ensures TreesAt(ls, pp, p, Kids(pp, p, lo, hi)) == Grouped(ls, lo, hi)
    decreases hi - lo
  {
    if lo < hi {
      var m := Block(ls, lo, hi);
      FitsInside(ls, pp, p, lo, hi);
      FitsAfter(ls, pp, p, lo, hi);
      KidsOfBlock(ls, pp, p, lo, hi);
      TreesAreGrouped(ls, pp, lo + 1, lo + 1, m);
      TreesAreGrouped(ls, pp, p, m, hi);
    }
  }

  /** For every list of lines, the tree built with the stack is the one the reference cuts out. */
  lemma {:induction false} StackBuildsGroups(ls: seq<Line>)
    ensures ForestAt(ls, Parents(ls), 0) == Grouped(ls, 0, |ls|)
  {
    forall i | 0 <= i < |ls| ensures Parents(ls)[i] == GroupedParent(ls, 0, |ls|, 0, i) {
      ParentsAreGrouped(ls, i);
    }
    TreesAreGrouped(ls, Parents(ls), 0, 0, |ls|);
  }

  // ----- Writing a tree out and reading it back

  /** The lines of a forest at a level, each folder followed by what is in it one level deeper. */
  function Flat(ts: seq<Tree>, level: nat): seq<Line> {
    if ts == [] then []
    else [Line(level, ts[0].item)] + Flat(ts[0].kids, level + 1) + Flat(ts[1..], level)
  }

  /** Files hold nothing. */
  ghost predicate Proper(ts: seq<Tree>) {
    ts == [] || ((ts[0].item.File? ==> ts[0].kids == []) && Proper(ts[0].kids) && Proper(ts[1..]))
  }

  lemma {:induction false} FlatLevels(ts: seq<Tree>, level: nat, i: nat)
    requires i < |Flat(ts, level)|
    ensures level <= Flat(ts, level)[i].level
  {
    var inner := Flat(ts[0].kids, level + 1);
    if 0 < i <= |inner| {
      FlatLevels(ts[0].kids, level + 1, i - 1);
    } else if |inner| < i {
      FlatLevels(ts[1..], level, i - 1 - |inner|);
    }
  }

  lemma {:induction false} RunIs(ls: seq<Line>, lo: nat, hi: nat, level: int, m: nat)
    requires lo <= m <= hi <= |ls|
    requires forall i :: lo <= i < m ==> level < ls[i].level
    requires m < hi ==> ls[m].level <= level
    ensures Run(ls, lo, hi, level) == m
    decreases hi - lo
  {
    if lo < m { RunIs(ls, lo + 1, hi, level, m); }
  }

  /** A stretch of lines that spells a proper forest is grouped back into it. */
  lemma {:induction false} FlatGroups(ls: seq<Line>, lo: nat, hi: nat, ts: seq<Tree>, level: nat)
    requires Proper(ts) && lo <= hi <= |ls| && ls[lo..hi] == Flat(ts, level)
    ensures Grouped(ls, lo, hi) == ts
    decreases ts
  {
    if ts != [] {
      var inner, rest := Flat(ts[0].kids, level + 1), Flat(ts[1..], level);
      var m := lo + 1 + |inner|;
      FlatPieces(ls, lo, hi, Line(level, ts[0].item), inner, rest);
      FlatBlock(ls, lo, hi, ts, level);
      FlatGroups(ls, lo + 1, m, ts[0].kids, level + 1);
      FlatGroups(ls, m, hi, ts[1..], level);
      assert ts == [ts[0]] + ts[1..];
    }
  }

  lemma {:induction false} FlatPieces(ls: seq<Line>, lo: nat, hi: nat, l: Line, inner: seq<Line>, rest: seq<Line>)
    requires lo <= hi <= |ls| && ls[lo..hi] == [l] + inner + rest
    ensures var m := lo + 1 + |inner|;
      && m <= hi && ls[lo] == l && ls[lo + 1..m] == inner && ls[m..hi] == rest
  {
    var m := lo + 1 + |inner|;
    assert |ls[lo..hi]| == 1 + |inner| + |rest|;
    assert ls[lo] == ls[lo..hi][0];
    SliceOf(ls, lo, hi, 1, 1 + |inner|);
    SliceOf(ls, lo, hi, 1 + |inner|, hi - lo);
  }

  lemma {:induction false} SliceOf(ls: seq<Line>, lo: nat, hi: nat, a: nat, b: nat)
    requires lo <= hi <= |ls| && a <= b <= hi - lo
    ensures ls[lo..hi][a..b] == ls[lo + a..lo + b]
  {
    var x, y := ls[lo..hi][a..b], ls[lo + a..lo + b];
    assert |x| == |y| && forall i :: 0 <= i < |x| ==> x[i] == y[i];
  }

  lemma {:induction false} FlatBlock(ls: seq<Line>, lo: nat, hi: nat, ts: seq<Tree>, level: nat)
    requires ts != [] && Proper(ts) && lo <= hi <= |ls| && ls[lo..hi] == Flat(ts, level)
    ensures Block(ls, lo, hi) == lo + 1 + |Flat(ts[0].kids, level + 1)|
  {
    var inner, rest := Flat(ts[0].kids, level + 1), Flat(ts[1..], level);
    var m := lo + 1 + |inner|;
    FlatPieces(ls, lo, hi, Line(level, ts[0].item), inner, rest);
    if ts[0].item.Folder? {
      forall i | lo + 1 <= i < m ensures level < ls[i].level {
        assert ls[i] == inner[i - lo - 1];
        FlatLevels(ts[0].kids, level + 1, i - lo - 1);
      }
      assert m < hi ==> ls[m] == rest[0];
      RunIs(ls, lo + 1, hi, level, m);
    }
  }

  /** Writing a forest out with two spaces of indentation per level and building it again gives it back. */
  lemma {:induction false} BuildOfFlat(ts: seq<Tree>, level: nat)
    requires Proper(ts)
    ensures ForestAt(Flat(ts, level), Parents(Flat(ts, level)), 0) == ts
  {
    var ls := Flat(ts, level);
    assert ls[0..|ls|] == ls;
    FlatGroups(ls, 0, |ls|, ts, level);
    StackBuildsGroups(ls);
  }

  function Items(ls: seq<Line>): (items: seq<Item>)
    ensures |items| == |ls| && forall i :: 0 <= i < |ls| ==> items[i] == ls[i].item
  {
    seq(|ls|, i requires 0 <= i < |ls| => ls[i].item)
  }

  /** The other way round, only the indentation can change: no line is lost and none is moved. */
  lemma {:induction false} FlatOfGrouped(ls: seq<Line>, lo: nat, hi: nat, level: nat)
    requires lo <= hi <= |ls|
    ensures Items(Flat(Grouped(ls, lo, hi), level)) == Items(ls[lo..hi])
    decreases hi - lo
  {
    if lo < hi {
      var m := Block(ls, lo, hi);
      var inner, rest := Grouped(ls, lo + 1, m), Grouped(ls, m, hi);
      FlatCons(ls[lo].item, inner, rest, level);
      FlatOfGrouped(ls, lo + 1, m, level + 1);
      FlatOfGrouped(ls, m, hi, level);
      LinesSplit(ls, lo, m, hi);
    }
  }

  lemma {:induction false} FlatCons(item: Item, kids: seq<Tree>, rest: seq<Tree>, level: nat)
    ensures Items(Flat([Tree(item, kids)] + rest, level))
         == [item] + Items(Flat(kids, level + 1)) + Items(Flat(rest, level))
  {
    var ts := [Tree(item, kids)] + rest;
    assert ts[1..] == rest;
    ItemsJoin(Line(level, item), Flat(kids, level + 1), Flat(rest, level));
  }

  lemma {:induction false} LinesSplit(ls: seq<Line>, lo: nat, m: nat, hi: nat)
    requires lo < m <= hi <= |ls|
    ensures Items(ls[lo..hi]) == [ls[lo].item] + Items(ls[lo + 1..m]) + Items(ls[m..hi])
  {
    assert ls[lo..hi] == [ls[lo]] + ls[lo + 1..m] + ls[m..hi];
    ItemsJoin(ls[lo], ls[lo + 1..m], ls[m..hi]);
  }

  lemma {:induction false} GroupedIsProper(ls: seq<Line>, lo: nat, hi: nat)
    requires lo <= hi <= |ls|
    ensures Proper(Grouped(ls, lo, hi))
    decreases hi - lo
  {
    if lo < hi {
      var m := Block(ls, lo, hi);
      GroupedIsProper(ls, lo + 1, m);
      GroupedIsProper(ls, m, hi);
      assert Grouped(ls, lo, hi)[1..] == Grouped(ls, m, hi);
    }
  }

  lemma {:induction false} ItemsJoin(l: Line, a: seq<Line>, b: seq<Line>)
    ensures Items([l] + a + b) == [l.item] + Items(a) + Items(b)
  {
  }

  lemma {:induction false} FlatOfBuild(ls: seq<Line>, level: nat)
    ensures Proper(ForestAt(ls, Parents(ls), 0))
    ensures Items(Flat(ForestAt(ls, Parents(ls), 0), level)) == Items(ls)
  {
    StackBuildsGroups(ls);
    GroupedIsProper(ls, 0, |ls|);
    FlatOfGrouped(ls, 0, |ls|, level);
    assert ls[0..|ls|] == ls;
  }
}
