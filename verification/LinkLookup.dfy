/** Looking a path up in the tree of the 123 link driver, and filling in the folder sizes. */
module LinkLookup {
  import opened Common
  import opened LinkTree
  import opened LinkForest
  import opened LinkText
  import opened LinkNodes
  import opened LinkBuild

  // ----- Looking a path up

  ghost predicate Closed(all: set<Node>)
    reads all
  {
    forall n, i :: n in all && 0 <= i < |n.children| ==> n.children[i] in all
  }

  /** Following the children `idx` from `node` meets the names `path`. */
  ghost predicate Leads(all: set<Node>, node: Node, path: seq<string>, idx: seq<nat>)
    requires Closed(all) && node in all
    reads all
    decreases |path|
  {
    && |path| == |idx| + 1 && node.name == path[0]
    && (idx != [] ==> idx[0] < |node.children| && Leads(all, node.children[idx[0]], path[1..], idx[1..]))
  }

  ghost function EndOf(all: set<Node>, node: Node, path: seq<string>, idx: seq<nat>): Node
    requires Closed(all) && node in all && Leads(all, node, path, idx)
    reads all
    decreases |path|
  {
    if idx == [] then node else EndOf(all, node.children[idx[0]], path[1..], idx[1..])
  }

  /** Comes first, or is the same, in depth-first order. */
  ghost predicate Before(a: seq<nat>, b: seq<nat>) {
    a == [] || (b != [] && (a[0] < b[0] || (a[0] == b[0] && Before(a[1..], b[1..]))))
  }

  /** Finds a node if and only if some chain of children has these names, and then the one at the end of
      the first such chain. */
  method GetByPath(node: Node, path: seq<string>, ghost all: set<Node>) returns (r: Node?, ghost idx: seq<nat>)
    requires Closed(all) && node in all
    ensures r == null ==> forall other :: !Leads(all, node, path, other)
    ensures r != null ==> Leads(all, node, path, idx) && EndOf(all, node, path, idx) == r
    ensures r != null ==> forall other :: Leads(all, node, path, other) ==> Before(idx, other)
    decreases |path|
  {
    r, idx := null, [];
    if path == [] || node.name != path[0] {
      return;
    }
    if |path| == 1 {
      return node, [];
    }
    var i := 0;
    while i < |node.children| && r == null
      invariant i <= |node.children|
      invariant r == null ==> forall j, other :: 0 <= j < i ==> !Leads(all, node.children[j], path[1..], other)
      invariant r != null ==> Leads(all, node, path, idx) && EndOf(all, node, path, idx) == r
      invariant r != null ==> forall other :: Leads(all, node, path, other) ==> Before(idx, other)
    {
      ghost var tail;
      r, tail := GetByPath(node.children[i], path[1..], all);
      idx := [i] + tail;
      i := i + 1;
    }
  }

  function SplitPath(path: string): (parts: seq<string>)
    ensures parts != [] && parts[0] == "root"
  {
    if path == "/" then ["root"] else Split(path, '/')[0 := "root"]
  }

  lemma {:induction false} WholeIsClosed(ls: seq<Line>, nodes: seq<Node>)
    requires Whole(ls, nodes)
    ensures Closed(Elems(nodes))
  {
    forall n, i | n in Elems(nodes) && 0 <= i < |n.children| ensures n.children[i] in Elems(nodes) {
      var k :| 0 <= k < |nodes| && nodes[k] == n;
      assert n.children[i] == nodes[Kids(Parents(ls), k, 0, |ls|)[i]];
    }
  }

  method GetNodeFromRootByPath(root: Node, path: string, ghost all: set<Node>) returns (r: Node?, ghost idx: seq<nat>)
    requires Closed(all) && root in all
    ensures r == null ==> forall other :: !Leads(all, root, SplitPath(path), other)
    ensures r != null ==> Leads(all, root, SplitPath(path), idx) && EndOf(all, root, SplitPath(path), idx) == r
    ensures r != null ==> forall other :: Leads(all, root, SplitPath(path), other) ==> Before(idx, other)
  {
    r, idx := GetByPath(root, SplitPath(path), all);
  }

  // ----- Sizes

  /** The bytes of the files in a forest. */
  function Bytes(ts: seq<Tree>): int {
    if ts == [] then 0
    else (if ts[0].item.File? then ts[0].item.size else Bytes(ts[0].kids)) + Bytes(ts[1..])
  }

  function FileBytes(items: seq<Item>): int {
    if items == [] then 0 else SizeOf(items[0]) + FileBytes(items[1..])
  }

  lemma {:induction false} FileBytesJoin(a: seq<Item>, b: seq<Item>)
    ensures FileBytes(a + b) == FileBytes(a) + FileBytes(b)
  {
    if a == [] {
      assert a + b == b;
    } else {
      FileBytesJoin(a[1..], b);
      assert (a + b)[1..] == a[1..] + b;
    }
  }

  /** Folder by folder or file by file, the sum is the same. */
  lemma {:induction false} BytesAreFileBytes(ts: seq<Tree>, level: nat)
    requires Proper(ts)
    ensures Bytes(ts) == FileBytes(Items(Flat(ts, level)))
  {
    if ts != [] {
      var t, rest := ts[0], ts[1..];
      BytesAreFileBytes(t.kids, level + 1);
      BytesAreFileBytes(rest, level);
      FlatCons(t.item, t.kids, rest, level);
      assert ts == [Tree(t.item, t.kids)] + rest;
      FileBytesJoin([t.item], Items(Flat(t.kids, level + 1)));
      FileBytesJoin([t.item] + Items(Flat(t.kids, level + 1)), Items(Flat(rest, level)));
      assert FileBytes([t.item]) == SizeOf(t.item);
    }
  }

  /** The root stands for every file of the text, counted once. */
  lemma {:induction false} RootCountsEveryFile(ls: seq<Line>)
    ensures Bytes(ForestAt(ls, Parents(ls), 0)) == FileBytes(Items(ls))
  {
    FlatOfBuild(ls, 0);
    BytesAreFileBytes(ForestAt(ls, Parents(ls), 0), 0);
  }

  /** What the size of node `k` should be: its own for a file, the files below it for a folder. */
  function Total(ls: seq<Line>, k: nat): int
    requires k <= |ls|
  {
    if ItemOf(ls, k).File? then ItemOf(ls, k).size else Bytes(ForestAt(ls, Parents(ls), k))
  }

  /** Node `i` is `k` or below it. */
  ghost predicate Under(pp: seq<nat>, k: nat, i: nat)
    requires Rooted(pp) && i <= |pp|
  {
    i == k || (k < i && Under(pp, k, pp[i - 1]))
  }

  lemma {:induction false} UnderTrans(pp: seq<nat>, k: nat, c: nat, i: nat)
    requires Rooted(pp) && 0 < c <= |pp| && pp[c - 1] == k && i <= |pp| && Under(pp, c, i)
    ensures Under(pp, k, i) && k < i
  {
    if i != c { UnderTrans(pp, k, c, pp[i - 1]); }
  }

  /** Whatever is below `k` is `k` or below one of its children. */
  lemma {:induction false} UnderKid(pp: seq<nat>, k: nat, i: nat) returns (c: nat)
    requires Rooted(pp) && i <= |pp| && Under(pp, k, i) && i != k
    ensures 0 < c <= i && pp[c - 1] == k && Under(pp, c, i)
  {
    c := i;
    if pp[i - 1] != k { c := UnderKid(pp, k, pp[i - 1]); }
  }

  lemma {:induction false} IsKid(pp: seq<nat>, k: nat, c: nat, lo: nat)
    requires lo < c <= |pp| && pp[c - 1] == k
    ensures c in Kids(pp, k, lo, |pp|)
    decreases c - lo
  {
    if lo < c - 1 { IsKid(pp, k, c, lo + 1); }
  }

  // ----- The sizes after filling

  ghost function Sizes(nodes: seq<Node>): (s: seq<int>)
    reads nodes
    ensures |s| == |nodes| && forall i :: 0 <= i < |s| ==> s[i] == nodes[i].size
  {
    seq(|nodes|, i requires 0 <= i < |nodes| reads nodes => nodes[i].size)
  }

  /** Node `i` after filling below `k`: a node that wants a value gets it if it is at or below `k`. */
  ghost function FilledAt(pp: seq<nat>, want: seq<Option<int>>, k: nat, s: seq<int>, i: nat): int
    requires Rooted(pp) && |want| == |s| == |pp| + 1 && i <= |pp|
  {
    if Under(pp, k, i) && want[i].Some? then want[i].value else s[i]
  }

  ghost function Filled(pp: seq<nat>, want: seq<Option<int>>, k: nat, s: seq<int>): (f: seq<int>)
    requires Rooted(pp) && |want| == |s| == |pp| + 1
    ensures |f| == |s| && forall i :: 0 <= i < |s| ==> f[i] == FilledAt(pp, want, k, s, i)
  {
    seq(|s|, i requires 0 <= i < |s| => FilledAt(pp, want, k, s, i))
  }

  /** Filling below several nodes, one after the other. */
  ghost function FilledBelow(pp: seq<nat>, want: seq<Option<int>>, ks: seq<nat>, s: seq<int>): (f: seq<int>)
    requires Rooted(pp) && |want| == |s| == |pp| + 1
    ensures |f| == |s|
  {
    if ks == [] then s else Filled(pp, want, ks[|ks| - 1], FilledBelow(pp, want, ks[..|ks| - 1], s))
  }

  lemma {:induction false} FilledUnder(pp: seq<nat>, want: seq<Option<int>>, ks: seq<nat>, s: seq<int>, c: nat, i: nat)
    requires Rooted(pp) && |want| == |s| == |pp| + 1
    requires c in ks && i <= |pp| && Under(pp, c, i) && want[i].Some?
    ensures FilledBelow(pp, want, ks, s)[i] == want[i].value
  {
    var n := |ks| - 1;
    var t := FilledBelow(pp, want, ks[..n], s);
    assert FilledBelow(pp, want, ks, s)[i] == FilledAt(pp, want, ks[n], t, i);
    if ks[n] != c { FilledUnder(pp, want, ks[..n], s, c, i); }
  }

  lemma {:induction false} FilledElse(pp: seq<nat>, want: seq<Option<int>>, ks: seq<nat>, s: seq<int>, i: nat)
    requires Rooted(pp) && |want| == |s| == |pp| + 1 && i <= |pp|
    requires want[i].None? || forall j :: 0 <= j < |ks| ==> !Under(pp, ks[j], i)
    ensures FilledBelow(pp, want, ks, s)[i] == s[i]
  {
    if ks != [] {
      var n := |ks| - 1;
      var t := FilledBelow(pp, want, ks[..n], s);
      assert FilledBelow(pp, want, ks, s)[i] == FilledAt(pp, want, ks[n], t, i);
      FilledElse(pp, want, ks[..n], s, i);
    }
  }

  lemma {:induction false} FillKidsAt(pp: seq<nat>, want: seq<Option<int>>, k: nat, s: seq<int>, i: nat)
    requires Rooted(pp) && |want| == |s| == |pp| + 1 && i <= |pp| && i != k
    ensures FilledBelow(pp, want, Kids(pp, k, 0, |pp|), s)[i] == FilledAt(pp, want, k, s, i)
  {
    var ks := Kids(pp, k, 0, |pp|);
    if Under(pp, k, i) && want[i].Some? {
      var c := UnderKid(pp, k, i);
      IsKid(pp, k, c, 0);
      FilledUnder(pp, want, ks, s, c, i);
    } else {
      forall j | 0 <= j < |ks| ensures want[i].None? || !Under(pp, ks[j], i) {
        if Under(pp, ks[j], i) { UnderTrans(pp, k, ks[j], i); }
      }
      FilledElse(pp, want, ks, s, i);
    }
  }

  /** Filling below the children of a folder and then writing its own value fills below the folder. */
  lemma {:induction false} FillKids(pp: seq<nat>, want: seq<Option<int>>, k: nat, s: seq<int>)
    requires Rooted(pp) && |want| == |s| == |pp| + 1 && k <= |pp| && want[k].Some?
    ensures FilledBelow(pp, want, Kids(pp, k, 0, |pp|), s)[k := want[k].value] == Filled(pp, want, k, s)
  {
    var f := FilledBelow(pp, want, Kids(pp, k, 0, |pp|), s);
    forall i | 0 <= i < |s| ensures f[k := want[k].value][i] == Filled(pp, want, k, s)[i] {
      if i != k { FillKidsAt(pp, want, k, s, i); }
    }
  }

  /** With nothing below `k` and nothing wanted for it, filling does nothing. */
  lemma {:induction false} FillLeaf(pp: seq<nat>, want: seq<Option<int>>, k: nat, s: seq<int>)
    requires Rooted(pp) && |want| == |s| == |pp| + 1 && k <= |pp| && want[k].None?
    requires forall c :: 0 <= c < |pp| ==> pp[c] != k
    ensures Filled(pp, want, k, s) == s
  {
    forall i | 0 <= i < |s| ensures FilledAt(pp, want, k, s, i) == s[i] {
      if Under(pp, k, i) && i != k {
        var c := UnderKid(pp, k, i);
      }
    }
  }

  // ----- The method

  /** What a node counts for: the value it wants or, for a file, its size. */
  ghost function Counts(want: seq<Option<int>>, s: seq<int>, k: nat): int
    requires k < |want| == |s|
  {
    if want[k].Some? then want[k].value else s[k]
  }

  ghost function SumOver(want: seq<Option<int>>, s: seq<int>, ks: seq<nat>): int
    requires |want| == |s| && forall j :: 0 <= j < |ks| ==> ks[j] < |want|
  {
    if ks == [] then 0 else Counts(want, s, ks[0]) + SumOver(want, s, ks[1..])
  }

  /** Every folder wants the sum of what its children count for. */
  ghost predicate Balanced(pp: seq<nat>, want: seq<Option<int>>, s: seq<int>) {
    && Rooted(pp) && |want| == |s| == |pp| + 1
    && forall k :: 0 <= k <= |pp| && want[k].Some? ==> want[k].value == SumOver(want, s, Kids(pp, k, 0, |pp|))
  }

  ghost predicate SameFiles(want: seq<Option<int>>, s: seq<int>, t: seq<int>) {
    |want| == |s| == |t| && forall i :: 0 <= i < |want| && want[i].None? ==> s[i] == t[i]
  }

  lemma {:induction false} SumSame(want: seq<Option<int>>, s: seq<int>, t: seq<int>, ks: seq<nat>)
    requires SameFiles(want, s, t) && forall j :: 0 <= j < |ks| ==> ks[j] < |want|
    ensures SumOver(want, s, ks) == SumOver(want, t, ks)
  {
    if ks != [] { SumSame(want, s, t, ks[1..]); }
  }

  lemma {:induction false} StaysBalanced(pp: seq<nat>, want: seq<Option<int>>, s: seq<int>, ks: seq<nat>)
    requires Balanced(pp, want, s)
    ensures SameFiles(want, s, FilledBelow(pp, want, ks, s))
    ensures Balanced(pp, want, FilledBelow(pp, want, ks, s))
  {
    var t := FilledBelow(pp, want, ks, s);
    forall i | 0 <= i < |want| && want[i].None? ensures s[i] == t[i] {
      FilledElse(pp, want, ks, s, i);
    }
    forall k | 0 <= k <= |pp| && want[k].Some?
      ensures want[k].value == SumOver(want, t, Kids(pp, k, 0, |pp|))
    {
      SumSame(want, s, t, Kids(pp, k, 0, |pp|));
    }
  }

  /** Filling in sizes a second time is allowed, changes nothing and gives the same total. */
  lemma {:induction false} FillTwice(pp: seq<nat>, want: seq<Option<int>>, k: nat, s: seq<int>)
    requires Balanced(pp, want, s) && k <= |pp|
    ensures Balanced(pp, want, Filled(pp, want, k, s))
    ensures Filled(pp, want, k, Filled(pp, want, k, s)) == Filled(pp, want, k, s)
    ensures Counts(want, Filled(pp, want, k, s), k) == Counts(want, s, k)
  {
    StaysBalanced(pp, want, s, [k]);
    assert FilledBelow(pp, want, [k], s) == Filled(pp, want, k, s);
  }

  /** The nodes form the tree `pp`, and those that are folders want a value. */
  ghost predicate Grove(nodes: seq<Node>, pp: seq<nat>, want: seq<Option<int>>)
    reads nodes`children
  {
    && Rooted(pp) && Distinct(nodes) && |want| == |nodes| == |pp| + 1
    && (forall i :: 0 <= i < |nodes| ==> (nodes[i].IsFile() <==> want[i].None?))
    && (forall i :: 0 <= i < |nodes| ==> nodes[i].children == Pick(nodes, Kids(pp, i, 0, |pp|)))
    && (forall c :: 0 <= c < |pp| ==> want[pp[c]].Some?)
  }

  method SetSize(node: Node, size: int, ghost nodes: seq<Node>, ghost k: nat)
    requires Distinct(nodes) && k < |nodes| && node == nodes[k]
    modifies node`size
    ensures Sizes(nodes) == old(Sizes(nodes))[k := size]
  {
    node.size := size;
    ghost var was, now := old(Sizes(nodes)), Sizes(nodes);
    assert forall i :: 0 <= i < |nodes| ==> now[i] == was[k := size][i];
  }

  /** Sets every folder at or below the node to the total of its files, and gives that total. */
  method CalSize(node: Node, ghost nodes: seq<Node>, ghost pp: seq<nat>, ghost want: seq<Option<int>>, ghost k: nat)
    returns (size: int)
    requires Grove(nodes, pp, want) && k < |nodes| && node == nodes[k] && Balanced(pp, want, Sizes(nodes))
    modifies nodes`size
    ensures size == Counts(want, old(Sizes(nodes)), k)
    ensures Sizes(nodes) == Filled(pp, want, k, old(Sizes(nodes)))
    decreases |pp| - k, 1, 0
  {
    if node.IsFile() {
      FillLeaf(pp, want, k, Sizes(nodes));
      size := node.size;
    } else {
      size := SumChildren(node, nodes, pp, want, k);
      SetSize(node, size, nodes, k);
    }
  }

  /** What is filled in after `j` children, and what the others count for. */
  ghost function FilledUpTo(pp: seq<nat>, want: seq<Option<int>>, k: nat, s: seq<int>, j: nat): seq<int>
    requires Rooted(pp) && |want| == |s| == |pp| + 1 && j <= |Kids(pp, k, 0, |pp|)|
  {
    FilledBelow(pp, want, Kids(pp, k, 0, |pp|)[..j], s)
  }

  ghost function StillToCount(pp: seq<nat>, want: seq<Option<int>>, k: nat, s: seq<int>, j: nat): int
    requires |want| == |s| == |pp| + 1 && j <= |Kids(pp, k, 0, |pp|)|
  {
    SumOver(want, s, Kids(pp, k, 0, |pp|)[j..])
  }

  lemma {:induction false} FirstAndLast(pp: seq<nat>, want: seq<Option<int>>, k: nat, s: seq<int>)
    requires Balanced(pp, want, s) && k <= |pp| && want[k].Some?
    ensures FilledUpTo(pp, want, k, s, 0) == s
    ensures var n := |Kids(pp, k, 0, |pp|)|;
      && StillToCount(pp, want, k, s, n) == 0
      && FilledUpTo(pp, want, k, s, n)[k := want[k].value] == Filled(pp, want, k, s)
    ensures StillToCount(pp, want, k, s, 0) == want[k].value
  {
    var ks := Kids(pp, k, 0, |pp|);
    assert ks[..|ks|] == ks && ks[0..] == ks && ks[|ks|..] == [] && ks[..0] == [];
    FillKids(pp, want, k, s);
  }

  lemma {:induction false} ChildStep(pp: seq<nat>, want: seq<Option<int>>, k: nat, s: seq<int>, j: nat)
    requires Balanced(pp, want, s) && j < |Kids(pp, k, 0, |pp|)|
    ensures var c, t := Kids(pp, k, 0, |pp|)[j], FilledUpTo(pp, want, k, s, j);
      && Balanced(pp, want, t) && Counts(want, t, c) == Counts(want, s, c)
      && FilledUpTo(pp, want, k, s, j + 1) == Filled(pp, want, c, t)
      && StillToCount(pp, want, k, s, j) == Counts(want, s, c) + StillToCount(pp, want, k, s, j + 1)
  {
    var ks := Kids(pp, k, 0, |pp|);
    StaysBalanced(pp, want, s, ks[..j]);
    assert ks[..j + 1][..j] == ks[..j] && ks[j..][1..] == ks[j + 1..];
  }

  /** The loop over the children. */
  method SumChildren(node: Node, ghost nodes: seq<Node>, ghost pp: seq<nat>, ghost want: seq<Option<int>>, ghost k: nat)
    returns (size: int)
    requires Grove(nodes, pp, want) && k < |nodes| && node == nodes[k] && Balanced(pp, want, Sizes(nodes))
    requires want[k].Some?
    modifies nodes`size
    ensures size == want[k].value
    ensures Sizes(nodes)[k := size] == Filled(pp, want, k, old(Sizes(nodes)))
    decreases |pp| - k, 0, 1
  {
    ghost var s := Sizes(nodes);
    var children := node.children;
    FirstAndLast(pp, want, k, s);
    size := 0;
    var j := 0;
    while j < |children|
      invariant j <= |children|
      invariant Sizes(nodes) == FilledUpTo(pp, want, k, s, j)
      invariant size + StillToCount(pp, want, k, s, j) == want[k].value
    {
      var part := OneChild(children[j], nodes, pp, want, k, j, s);
      size := size + part;
      j := j + 1;
    }
  }

  /** One turn of that loop. */
  method OneChild(child: Node, ghost nodes: seq<Node>, ghost pp: seq<nat>, ghost want: seq<Option<int>>,
                  ghost k: nat, ghost j: nat, ghost s: seq<int>)
    returns (part: int)
    requires Grove(nodes, pp, want) && k < |nodes| && Balanced(pp, want, s)
    requires j < |Kids(pp, k, 0, |pp|)| && child == nodes[Kids(pp, k, 0, |pp|)[j]]
    requires Sizes(nodes) == FilledUpTo(pp, want, k, s, j)
    modifies nodes`size
    ensures part + StillToCount(pp, want, k, s, j + 1) == StillToCount(pp, want, k, s, j)
    ensures Sizes(nodes) == FilledUpTo(pp, want, k, s, j + 1)
    decreases |pp| - k, 0, 0
  {
    ChildStep(pp, want, k, s, j);
    part := CalSize(child, nodes, pp, want, Kids(pp, k, 0, |pp|)[j]);
  }

  // ----- Trees that were read from a text

  /** Folders want their totals. */
  ghost function Wanted(ls: seq<Line>): (want: seq<Option<int>>)
    ensures |want| == |ls| + 1
    ensures forall k :: 0 <= k <= |ls| ==> want[k] == if ItemOf(ls, k).Folder? then Some(Total(ls, k)) else None
  {
    seq(|ls| + 1, k requires 0 <= k <= |ls| => if ItemOf(ls, k).Folder? then Some(Total(ls, k)) else None)
  }

  ghost predicate UrlsGiven(ls: seq<Line>) {
    forall i :: 0 <= i < |ls| && ls[i].item.File? ==> ls[i].item.url != ""
  }

  lemma {:induction false} ReadableUrls(lines: seq<string>, now: int)
    ensures UrlsGiven(Readable(lines, now))
  {
    if lines != [] {
      ReadableUrls(lines[1..], now);
      ReadUrl(lines[0], now);
    }
  }

  lemma {:induction false} ReadUrl(line: string, now: int)
    ensures var r := ReadLine(line, now);
      r.Ok? && r.value.Some? && r.value.value.item.File? ==> r.value.value.item.url != ""
  {
    var r := ReadLine(line, now);
    if r.Ok? && r.value.Some? && r.value.value.item.File? {
      var level, body := Indent(line) / 2, TrimSpace(line[Indent(line)..]);
      UrlEnds(level, body, now, r.value.value.item);
    }
  }

  lemma {:induction false} FilesHoldNothing(ls: seq<Line>, c: nat)
    requires c < |ls|
    ensures ItemOf(ls, Parents(ls)[c]).Folder?
  {
    ParentsAreOpenFolders(ls, c);
  }

  lemma {:induction false} BytesAreCounts(ls: seq<Line>, pp: seq<nat>, want: seq<Option<int>>, s: seq<int>, p: nat,
                                          ks: seq<nat>)
    requires Rooted(pp) && |pp| == |ls| && |want| == |s| == |ls| + 1 && p <= |ls|
    requires forall i :: 0 <= i < |ks| ==> 0 < ks[i] <= |ls| && pp[ks[i] - 1] == p
    requires forall i :: 0 <= i < |ks| ==> Bytes([TreeAt(ls, pp, ks[i])]) == Counts(want, s, ks[i])
    ensures Bytes(TreesAt(ls, pp, p, ks)) == SumOver(want, s, ks)
    decreases |ks|
  {
    if ks != [] {
      BytesAreCounts(ls, pp, want, s, p, ks[1..]);
      BytesCons(TreeAt(ls, pp, ks[0]), TreesAt(ls, pp, p, ks[1..]));
    }
  }

  lemma {:induction false} BytesCons(t: Tree, ts: seq<Tree>)
    ensures Bytes([t] + ts) == Bytes([t]) + Bytes(ts)
  {
    assert ([t] + ts)[1..] == ts;
  }

  lemma {:induction false} TreeCounts(ls: seq<Line>, s: seq<int>, k: nat)
    requires |s| == |ls| + 1 && 0 < k <= |ls|
    requires ItemOf(ls, k).File? ==> s[k] == ItemOf(ls, k).size
    ensures Bytes([TreeAt(ls, Parents(ls), k)]) == Counts(Wanted(ls), s, k)
  {
    var t := TreeAt(ls, Parents(ls), k);
    assert t.item == ItemOf(ls, k) && t.kids == ForestAt(ls, Parents(ls), k);
    assert Bytes([t]) == if t.item.File? then t.item.size else Bytes(t.kids);
  }

  lemma {:induction false} TotalIsCounts(ls: seq<Line>, s: seq<int>, k: nat)
    requires |s| == |ls| + 1 && k <= |ls|
    requires forall i :: 0 <= i <= |ls| && ItemOf(ls, i).File? ==> s[i] == ItemOf(ls, i).size
    ensures Bytes(ForestAt(ls, Parents(ls), k)) == SumOver(Wanted(ls), s, Kids(Parents(ls), k, 0, |ls|))
  {
    var ks := Kids(Parents(ls), k, 0, |ls|);
    forall i | 0 <= i < |ks| ensures Bytes([TreeAt(ls, Parents(ls), ks[i])]) == Counts(Wanted(ls), s, ks[i]) {
      TreeCounts(ls, s, ks[i]);
    }
    BytesAreCounts(ls, Parents(ls), Wanted(ls), s, k, ks);
  }

  lemma {:induction false} WholeIsBalanced(ls: seq<Line>, s: seq<int>)
    requires |s| == |ls| + 1
    requires forall i :: 0 <= i <= |ls| && ItemOf(ls, i).File? ==> s[i] == ItemOf(ls, i).size
    ensures Balanced(Parents(ls), Wanted(ls), s)
  {
    var pp, want := Parents(ls), Wanted(ls);
    forall k | 0 <= k <= |pp| && want[k].Some? ensures want[k].value == SumOver(want, s, Kids(pp, k, 0, |pp|)) {
      TotalIsCounts(ls, s, k);
    }
  }

  lemma {:induction false} WholeIsGrove(ls: seq<Line>, nodes: seq<Node>)
    requires Whole(ls, nodes) && UrlsGiven(ls)
    ensures Grove(nodes, Parents(ls), Wanted(ls))
  {
    forall c | 0 <= c < |ls| ensures Wanted(ls)[Parents(ls)[c]].Some? {
      FilesHoldNothing(ls, c);
    }
    forall i | 0 <= i < |nodes| ensures nodes[i].IsFile() <==> Wanted(ls)[i].None? {
      assert Shows(ls, i, nodes[i]);
    }
  }

  /** Reading the configured text and filling in the sizes: every folder ends up with the bytes of the
      files below it, every file with its own, and the tree is the one that was read. */
  method Load(text: string, now: int) returns (r: Result<Node, Fault>, ghost nodes: seq<Node>)
    ensures r.Err? ==> FirstFault(Split(text, '\n'), now) == Some(r.error)
    ensures r.Ok? ==> FirstFault(Split(text, '\n'), now) == None
    ensures r.Ok? ==> Whole(Readable(Split(text, '\n'), now), nodes) && r.value == nodes[0] && fresh(nodes)
    ensures r.Ok? ==> forall i :: 0 <= i < |nodes| ==> nodes[i].size == Total(Readable(Split(text, '\n'), now), i)
  {
    r, nodes := BuildTree(text, now);
    if r.Ok? {
      ghost var ls := Readable(Split(text, '\n'), now);
      ghost var s := Sizes(nodes);
      ReadableUrls(Split(text, '\n'), now);
      WholeIsGrove(ls, nodes);
      WholeIsBalanced(ls, s);
      var total := CalSize(r.value, nodes, Parents(ls), Wanted(ls), 0);
      RootHoldsAll(ls, s);
    }
  }

  lemma {:induction false} AllUnderRoot(pp: seq<nat>, i: nat)
    requires Rooted(pp) && i <= |pp|
    ensures Under(pp, 0, i)
  {
    if i > 0 { AllUnderRoot(pp, pp[i - 1]); }
  }

  lemma {:induction false} RootHoldsAll(ls: seq<Line>, s: seq<int>)
    requires |s| == |ls| + 1
    requires forall i :: 0 <= i <= |ls| && ItemOf(ls, i).File? ==> s[i] == ItemOf(ls, i).size
    ensures forall i :: 0 <= i <= |ls| ==> Filled(Parents(ls), Wanted(ls), 0, s)[i] == Total(ls, i)
  {
    forall i | 0 <= i <= |ls| ensures Filled(Parents(ls), Wanted(ls), 0, s)[i] == Total(ls, i) {
      AllUnderRoot(Parents(ls), i);
    }
  }
}
