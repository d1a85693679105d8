/** The tree of the 123 link driver on the heap: building it, looking a path up in it, filling in sizes. */
module LinkNodes {
  import opened Common
  import opened LinkTree
  import opened LinkForest
  import opened LinkText

  class Node {
    const name: string
    const url: string
    const level: int
    const modified: int
    var size: int
    var children: seq<Node>

    constructor (level: int, item: Item)
      ensures this.level == level && name == item.name && children == []
      ensures url == UrlOf(item) && modified == ModifiedOf(item) && size == SizeOf(item)
    {
      this.level := level;
      name := item.name;
      url := UrlOf(item);
      modified := ModifiedOf(item);
      size := SizeOf(item);
      children := [];
    }

    predicate IsFile() {
      url != ""
    }
  }

  function UrlOf(item: Item): string {
    if item.File? then item.url else ""
  }

  function SizeOf(item: Item): int {
    if item.File? then item.size else 0
  }

  function ModifiedOf(item: Item): int {
    if item.File? then item.modified else 0
  }

  function ItemOf(ls: seq<Line>, i: nat): Item
    requires i <= |ls|
  {
    if i == 0 then Folder("root") else ls[i - 1].item
  }

  // ----- The nodes of the first lines

  ghost function Pick(nodes: seq<Node>, ks: seq<nat>): (picked: seq<Node>)
    requires forall j :: 0 <= j < |ks| ==> ks[j] < |nodes|
    ensures |picked| == |ks| && forall j :: 0 <= j < |ks| ==> picked[j] == nodes[ks[j]]
  {
    seq(|ks|, j requires 0 <= j < |ks| => nodes[ks[j]])
  }

  /** Node `i` is line `i - 1`, as it was written. */
  ghost predicate Shows(ls: seq<Line>, i: nat, node: Node)
    requires i <= |ls|
  {
    && node.level == LevelOf(ls, i) && node.name == ItemOf(ls, i).name
    && node.url == UrlOf(ItemOf(ls, i)) && node.modified == ModifiedOf(ItemOf(ls, i))
  }

  ghost predicate Labelled(ls: seq<Line>, nodes: seq<Node>) {
    && 0 < |nodes| <= |ls| + 1 && Distinct(nodes)
    && forall i :: 0 <= i < |nodes| ==> Shows(ls, i, nodes[i])
  }

  /** The children of every node are the lines whose parent it is, in order. */
  ghost predicate Linked(pp: seq<nat>, nodes: seq<Node>)
    requires 0 < |nodes| <= |pp| + 1
    reads nodes
  {
    forall i :: 0 <= i < |nodes| ==> nodes[i].children == Pick(nodes, Kids(pp, i, 0, |nodes| - 1))
  }

  /** File sizes are the ones that were read. */
  ghost predicate Sized(ls: seq<Line>, nodes: seq<Node>)
    requires 0 < |nodes| <= |ls| + 1
    reads nodes
  {
    forall i :: 0 <= i < |nodes| && ItemOf(ls, i).File? ==> nodes[i].size == ItemOf(ls, i).size
  }

  lemma {:induction false} KidsNext(pp: seq<nat>, p: nat, k: nat)
    requires k < |pp|
    ensures Kids(pp, p, 0, k + 1) == Kids(pp, p, 0, k) + if pp[k] == p then [k + 1] else []
  {
    KidsSplit(pp, p, 0, k, k + 1);
    assert Kids(pp, p, k + 1, k + 1) == [];
  }

  lemma {:induction false} PickNext(nodes: seq<Node>, node: Node, ks: seq<nat>)
    requires forall j :: 0 <= j < |ks| ==> ks[j] < |nodes|
    ensures Pick(nodes + [node], ks) == Pick(nodes, ks)
    ensures Pick(nodes + [node], ks + [|nodes|]) == Pick(nodes, ks) + [node]
  {
  }

  lemma {:induction false} NewestHasNoKids(pp: seq<nat>, k: nat)
    requires Rooted(pp) && k <= |pp|
    ensures Kids(pp, k, 0, k) == []
  {
    NoKids(pp, k, 0, k);
  }

  /** The children that node `i` has after the next line. */
  ghost function Next(pp: seq<nat>, nodes: seq<Node>, node: Node, i: nat): seq<Node>
    requires 0 < |nodes| <= |pp| && i <= |nodes|
  {
    if i == |nodes| then []
    else
      var was := Pick(nodes, Kids(pp, i, 0, |nodes| - 1));
      if pp[|nodes| - 1] == i then was + [node] else was
  }

  lemma {:induction false} NextIs(pp: seq<nat>, nodes: seq<Node>, node: Node, i: nat)
    requires Rooted(pp) && 0 < |nodes| <= |pp| && i <= |nodes|
    ensures Pick(nodes + [node], Kids(pp, i, 0, |nodes|)) == Next(pp, nodes, node, i)
  {
    var k := |nodes| - 1;
    if i <= k {
      KidsNext(pp, i, k);
      PickNext(nodes, node, Kids(pp, i, 0, k));
    } else {
      NewestHasNoKids(pp, k + 1);
    }
  }

  lemma {:induction false} LinkedNext(pp: seq<nat>, nodes: seq<Node>, node: Node)
    requires Rooted(pp) && 0 < |nodes| <= |pp|
    requires forall i :: 0 <= i <= |nodes| ==> (nodes + [node])[i].children == Next(pp, nodes, node, i)
    ensures Linked(pp, nodes + [node])
  {
    forall i | 0 <= i <= |nodes|
      ensures (nodes + [node])[i].children == Pick(nodes + [node], Kids(pp, i, 0, |nodes|))
    {
      NextIs(pp, nodes, node, i);
    }
  }

  /** Appending a node to the children of its parent. */
  method Append(ghost pp: seq<nat>, ghost nodes: seq<Node>, parent: Node, node: Node)
    requires Rooted(pp) && 0 < |nodes| <= |pp| && Distinct(nodes) && Linked(pp, nodes)
    requires parent == nodes[pp[|nodes| - 1]]
    requires node !in nodes && node.children == []
    modifies parent`children
    ensures Linked(pp, nodes + [node])
  {
    parent.children := parent.children + [node];
    assert node.children == [];
    LinkedNext(pp, nodes, node);
  }

  // ----- Building the tree from a text

  method CountIndent(line: string) returns (indent: nat)
    ensures indent == Indent(line)
  {
    indent := 0;
    while indent < |line| && line[indent] == ' '
      invariant indent <= |line| && Indent(line) == indent + Indent(line[indent..])
    {
      assert line[indent..][1..] == line[indent + 1..];
      indent := indent + 1;
    }
  }

  method ReadOne(line: string, now: int) returns (r: Result<Option<Line>, Fault>)
    ensures r == ReadLine(line, now)
  {
    var indent := CountIndent(line);
    if indent % 2 != 0 {
      r := Err(OddIndent);
    } else {
      r := ReadBody(indent / 2, TrimSpace(line[indent..]), now);
    }
  }

  /** A stack of nodes with these numbers. */
  ghost predicate Holds(nodes: seq<Node>, ks: seq<nat>, stack: seq<Node>) {
    |stack| == |ks| && forall j :: 0 <= j < |ks| ==> ks[j] < |nodes| && stack[j] == nodes[ks[j]]
  }

  /** One test of the loop below, on the stack of numbers. */
  lemma {:induction false} PopStep(ls: seq<Line>, ks: seq<nat>, n: nat, level: nat)
    requires 0 < n <= |ks| && StackOk(ls, ks[..n])
    ensures ks[n - 1] <= |ls|
    ensures if level <= LevelOf(ls, ks[n - 1])
            then n > 1 && StackOk(ls, ks[..n - 1]) && Popped(ls, ks[..n], level) == Popped(ls, ks[..n - 1], level)
            else Popped(ls, ks[..n], level) == ks[..n]
  {
    if n > 1 { assert ks[..n][..n - 1] == ks[..n - 1]; }
  }

  /** Popping every folder that the new line is not inside; the root stays. */
  method Pop(ghost ls: seq<Line>, ghost ks: seq<nat>, stack: seq<Node>, level: nat) returns (left: seq<Node>)
    requires StackOk(ls, ks) && |stack| == |ks|
    requires forall j :: 0 <= j < |ks| ==> ks[j] <= |ls| && stack[j].level == LevelOf(ls, ks[j])
    ensures 0 < |left| <= |stack| && left == stack[..|left|]
    ensures Popped(ls, ks, level) == ks[..|left|]
  {
    left := stack;
    assert ks[..|ks|] == ks;
    while level <= left[|left| - 1].level
      invariant 0 < |left| <= |stack| && left == stack[..|left|]
      invariant StackOk(ls, ks[..|left|]) && Popped(ls, ks, level) == Popped(ls, ks[..|left|], level)
      decreases |left|
    {
      PopStep(ls, ks, |left|, level);
      left := left[..|left| - 1];
    }
    PopStep(ls, ks, |left|, level);
  }

  lemma {:induction false} LevelsShown(ls: seq<Line>, nodes: seq<Node>, ks: seq<nat>, stack: seq<Node>)
    requires Labelled(ls, nodes) && Holds(nodes, ks, stack)
    ensures forall j :: 0 <= j < |ks| ==> ks[j] <= |ls| && stack[j].level == LevelOf(ls, ks[j])
  {
    forall j | 0 <= j < |ks| ensures ks[j] <= |ls| && stack[j].level == LevelOf(ls, ks[j]) {
      assert Shows(ls, ks[j], nodes[ks[j]]);
    }
  }

  /** The tree of the lines read so far, and the stack of open folders. */
  ghost predicate Grown(ls: seq<Line>, pp: seq<nat>, nodes: seq<Node>, stack: seq<Node>)
    reads nodes
  {
    && |pp| == |ls| && Labelled(ls, nodes) && Linked(pp, nodes) && Sized(ls, nodes)
    && Holds(nodes, StackAfter(ls, |nodes| - 1), stack)
  }

  lemma {:induction false} LabelledNext(ls: seq<Line>, nodes: seq<Node>, node: Node)
    requires Labelled(ls, nodes) && |nodes| <= |ls| && node !in nodes && Shows(ls, |nodes|, node)
    ensures Labelled(ls, nodes + [node])
  {
  }

  lemma {:induction false} SizedNext(ls: seq<Line>, nodes: seq<Node>, node: Node)
    requires 0 < |nodes| <= |ls| && Sized(ls, nodes) && node.size == SizeOf(ls[|nodes| - 1].item)
    ensures Sized(ls, nodes + [node])
  {
  }

  lemma {:induction false} HoldsNext(nodes: seq<Node>, ks: seq<nat>, stack: seq<Node>, node: Node)
    requires Holds(nodes, ks, stack)
    ensures Holds(nodes + [node], ks, stack)
    ensures Holds(nodes + [node], ks + [|nodes|], stack + [node])
  {
  }

  lemma {:induction false} HoldsPrefix(nodes: seq<Node>, ks: seq<nat>, stack: seq<Node>, left: nat)
    requires Holds(nodes, ks, stack) && 0 < left <= |stack|
    ensures Holds(nodes, ks[..left], stack[..left]) && stack[..left][left - 1] == nodes[ks[left - 1]]
  {
  }

  lemma {:induction false} StackNext(ls: seq<Line>, k: nat, left: nat)
    requires k < |ls| && 0 < left <= |StackAfter(ls, k)|
    requires Popped(ls, StackAfter(ls, k), ls[k].level) == StackAfter(ls, k)[..left]
    ensures ParentAt(ls, k) == StackAfter(ls, k)[left - 1]
    ensures StackAfter(ls, k + 1)
         == if ls[k].item.Folder? then StackAfter(ls, k)[..left] + [k + 1] else StackAfter(ls, k)[..left]
  {
  }

  /** A new node for the next line, as the last child of its parent. */
  method Hang(ghost ls: seq<Line>, ghost pp: seq<nat>, ghost nodes: seq<Node>, parent: Node, l: Line)
    returns (node: Node)
    requires Rooted(pp) && |pp| == |ls| && Labelled(ls, nodes) && Linked(pp, nodes) && Sized(ls, nodes)
    requires |nodes| <= |ls| && ls[|nodes| - 1] == l && parent == nodes[pp[|nodes| - 1]]
    modifies parent`children
    ensures fresh(node) && node.level == l.level
    ensures Labelled(ls, nodes + [node]) && Linked(pp, nodes + [node]) && Sized(ls, nodes + [node])
  {
    node := new Node(l.level, l.item);
    LabelledNext(ls, nodes, node);
    SizedNext(ls, nodes, node);
    Append(pp, nodes, parent, node);
  }

  /** The open folders above the next line; the last of them is its parent. */
  method PopFor(ghost ls: seq<Line>, ghost nodes: seq<Node>, stack: seq<Node>, l: Line)
    returns (left: seq<Node>, ghost ks: seq<nat>)
    requires Labelled(ls, nodes) && Holds(nodes, StackAfter(ls, |nodes| - 1), stack)
    requires |nodes| <= |ls| && ls[|nodes| - 1] == l
    ensures Holds(nodes, ks, left) && left != [] && left[|left| - 1] == nodes[ParentAt(ls, |nodes| - 1)]
    ensures StackAfter(ls, |nodes|) == if l.item.Folder? then ks + [|nodes|] else ks
  {
    ghost var was := StackAfter(ls, |nodes| - 1);
    LevelsShown(ls, nodes, was, stack);
    left := Pop(ls, was, stack, l.level);
    ks := was[..|left|];
    StackNext(ls, |nodes| - 1, |left|);
    HoldsPrefix(nodes, was, stack, |left|);
  }

  /** One line: pop, append to the folder on top, and push if it is a folder. */
  method AddLine(ghost ls: seq<Line>, ghost pp: seq<nat>, ghost nodes: seq<Node>, stack: seq<Node>, l: Line,
                 ghost all: set<Node>)
    returns (stack': seq<Node>, ghost node: Node)
    requires Rooted(pp) && Grown(ls, pp, nodes, stack) && |nodes| <= |ls| && ls[|nodes| - 1] == l
    requires pp[|nodes| - 1] == ParentAt(ls, |nodes| - 1) && forall j :: 0 <= j < |nodes| ==> nodes[j] in all
    modifies all`children
    ensures fresh(node)
    ensures Grown(ls, pp, nodes + [node], stack')
  {
    var left, ks := PopFor(ls, nodes, stack, l);
    var added := Hang(ls, pp, nodes, left[|left| - 1], l);
    HoldsNext(nodes, ks, left, added);
    node := added;
    stack' := if l.item.Folder? then left + [added] else left;
  }

  /** The nodes are the whole tree of the lines. */
  ghost predicate Whole(ls: seq<Line>, nodes: seq<Node>)
    reads nodes
  {
    |nodes| == |ls| + 1 && Labelled(ls, nodes) && Linked(Parents(ls), nodes) && Sized(ls, nodes)
  }

  /** The texts `todo` hold the lines after the first `k`, and `end` is the first fault in them. */
  ghost predicate Reading(ls: seq<Line>, todo: seq<string>, now: int, k: nat, end: Option<Fault>) {
    k <= |ls| && ls[k..] == Readable(todo, now) && FirstFault(todo, now) == end
  }

  lemma {:induction false} ReadingNext(ls: seq<Line>, todo: seq<string>, now: int, k: nat, end: Option<Fault>)
    requires Reading(ls, todo, now, k, end) && todo != []
    ensures match ReadLine(todo[0], now)
      case Err(fault) => end == Some(fault)
      case Ok(None) => Reading(ls, todo[1..], now, k, end)
      case Ok(Some(l)) => k < |ls| && ls[k] == l && Reading(ls, todo[1..], now, k + 1, end)
  {
    if k < |ls| { assert ls[k..][1..] == ls[k + 1..]; }
  }

  lemma {:induction false} GrownRoot(ls: seq<Line>, pp: seq<nat>, root: Node)
    requires Rooted(pp) && |pp| == |ls|
    requires root.level == -1 && root.name == "root" && root.url == "" && root.modified == 0 && root.children == []
    ensures Grown(ls, pp, [root], [root])
  {
    NewestHasNoKids(pp, 0);
  }

  /** Reading the next line. */
  method NextLine(ghost ls: seq<Line>, todo: seq<string>, now: int, ghost k: nat, ghost end: Option<Fault>)
    returns (read: Result<Option<Line>, Fault>, ghost k': nat)
    requires Reading(ls, todo, now, k, end) && todo != []
    ensures read.Err? ==> end == Some(read.error)
    ensures read.Ok? ==> Reading(ls, todo[1..], now, k', end)
    ensures read.Ok? ==> if read.value.None? then k' == k else k' == k + 1 <= |ls| && ls[k] == read.value.value
  {
    read := ReadOne(todo[0], now);
    ReadingNext(ls, todo, now, k, end);
    k' := if read.Ok? && read.value.Some? then k + 1 else k;
  }
}
