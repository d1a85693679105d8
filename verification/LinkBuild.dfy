/** Building the tree of the 123 link driver from its configured text. */
module LinkBuild {
  import opened Common
  import opened LinkTree
  import opened LinkForest
  import opened LinkText
  import opened LinkNodes

  /** What has been built so far of the tree of `ls`: its nodes, the stack of open folders, and the nodes
      other than the root. */
  datatype Sapling = Sapling(ls: seq<Line>, pp: seq<nat>, root: Node, nodes: seq<Node>, stack: seq<Node>,
                             made: set<Node>)

  ghost predicate Standing(t: Sapling)
    reads t.nodes
  {
    && t.nodes != [] && t.nodes[0] == t.root
    && (forall j :: 0 <= j < |t.nodes| ==> t.nodes[j] in t.made + {t.root})
    && Grown(t.ls, t.pp, t.nodes, t.stack)
  }

  /** The parents are those of the lines. */
  ghost predicate ParentsOk(ls: seq<Line>, pp: seq<nat>) {
    Rooted(pp) && |pp| == |ls| && forall k {:trigger ParentAt(ls, k)} :: 0 <= k < |ls| ==> pp[k] == ParentAt(ls, k)
  }

  /** A turn of the loop for a line that is not blank. */
  method Grow(ghost t: Sapling, stack: seq<Node>, l: Line) returns (stack': seq<Node>, ghost t': Sapling)
    requires Standing(t) && ParentsOk(t.ls, t.pp) && t.stack == stack
    requires |t.nodes| <= |t.ls| && t.ls[|t.nodes| - 1] == l
    modifies (t.made + {t.root})`children
    ensures Standing(t') && t' == t.(nodes := t'.nodes, stack := stack', made := t'.made)
    ensures |t'.nodes| == |t.nodes| + 1 && forall n :: n in t'.made ==> n in t.made || fresh(n)
  {
    assert t.pp[|t.nodes| - 1] == ParentAt(t.ls, |t.nodes| - 1);
    ghost var node;
    stack', node := AddLine(t.ls, t.pp, t.nodes, stack, l, t.made + {t.root});
    t' := t.(nodes := t.nodes + [node], stack := stack', made := t.made + {node});
  }

  /** A turn for the next line, whatever it is. */
  method Turn(ghost t: Sapling, todo: seq<string>, stack: seq<Node>, now: int, ghost k: nat, ghost end: Option<Fault>)
    returns (fault: Option<Fault>, stack': seq<Node>, ghost t': Sapling, ghost k': nat)
    requires Standing(t) && ParentsOk(t.ls, t.pp) && t.stack == stack
    requires todo != [] && Reading(t.ls, todo, now, k, end) && |t.nodes| == k + 1
    modifies (t.made + {t.root})`children
    ensures fault.Some? ==> fault == end
    ensures fault.None? ==> Reading(t.ls, todo[1..], now, k', end) && |t'.nodes| == k' + 1
    ensures Standing(t') && t' == t.(nodes := t'.nodes, stack := stack', made := t'.made)
    ensures forall n :: n in t'.made ==> n in t.made || fresh(n)
  {
    var read;
    read, k' := NextLine(t.ls, todo, now, k, end);
    fault, stack', t' := None, stack, t;
    if read.Err? {
      fault := Some(read.error);
    } else if read.value.Some? {
      stack', t' := Grow(t, stack, read.value.value);
    }
  }

  /** The loop over the lines: it stops at the first one that cannot be read. */
  method TakeLines(ghost t: Sapling, lines: seq<string>, root: Node, now: int, ghost end: Option<Fault>)
    returns (fault: Option<Fault>, ghost t': Sapling)
    requires Standing(t) && ParentsOk(t.ls, t.pp) && t.root == root && t.stack == [root] && t.made == {}
    requires Reading(t.ls, lines, now, 0, end) && |t.nodes| == 1
    modifies root`children
    ensures fault == end && fresh(t'.made)
    ensures fault.None? ==>
      && Standing(t') && t' == t.(nodes := t'.nodes, stack := t'.stack, made := t'.made)
      && |t'.nodes| == |t.ls| + 1
  {
    var stack, todo := [root], lines;
    t', fault := t, None;
    ghost var k := 0;
    while todo != [] && fault.None?
      invariant t' == t.(nodes := t'.nodes, stack := stack, made := t'.made) && Standing(t') && fresh(t'.made)
      invariant if fault.None? then Reading(t.ls, todo, now, k, end) && |t'.nodes| == k + 1 else fault == end
      decreases |todo|
    {
      fault, stack, t', k := Turn(t', todo, stack, now, k, end);
      todo := todo[1..];
    }
  }

  lemma {:induction false} Begins(lines: seq<string>, now: int, root: Node)
    requires root.level == -1 && root.name == "root" && root.url == "" && root.modified == 0 && root.children == []
    ensures
      var ls := Readable(lines, now);
      && Standing(Sapling(ls, Parents(ls), root, [root], [root], {})) && ParentsOk(ls, Parents(ls))
      && Reading(ls, lines, now, 0, FirstFault(lines, now))
  {
    var ls := Readable(lines, now);
    GrownRoot(ls, Parents(ls), root);
    assert ls[0..] == ls;
  }

  method BuildTree(text: string, now: int) returns (r: Result<Node, Fault>, ghost nodes: seq<Node>)
    ensures r.Err? ==> FirstFault(Split(text, '\n'), now) == Some(r.error)
    ensures r.Ok? ==> FirstFault(Split(text, '\n'), now) == None
    ensures r.Ok? ==> Whole(Readable(Split(text, '\n'), now), nodes) && r.value == nodes[0] && fresh(nodes)
  {
    var lines := Split(text, '\n');
    var root := new Node(-1, Folder("root"));
    Begins(lines, now, root);
    ghost var ls := Readable(lines, now);
    ghost var t;
    var fault;
    fault, t := TakeLines(Sapling(ls, Parents(ls), root, [root], [root], {}), lines, root, now, FirstFault(lines, now));
    nodes := t.nodes;
    r := if fault.Some? then Err(fault.value) else Ok(root);
  }
}
