/** The indentation parser of the 123 link driver: from parsed lines to the folder tree, with its stack
    of open folders. Node 0 is the root, node k + 1 is line k. */
module LinkTree {

  datatype Item = Folder(name: string) | File(name: string, url: string, size: int, modified: int)

  /** A line that is not blank. */
  datatype Line = Line(level: nat, item: Item)

  function LevelOf(ls: seq<Line>, node: nat): int
    requires node <= |ls|
  {
    if node == 0 then -1 else ls[node - 1].level
  }

  // ----- The parser, as a function

  /** A stack of node numbers: the root at the bottom, numbers and levels strictly increasing. */
  predicate StackOk(ls: seq<Line>, stack: seq<nat>) {
    && stack != []
    && stack[|stack| - 1] <= |ls|
    && (if |stack| == 1 then stack[0] == 0
        else
          && StackOk(ls, stack[..|stack| - 1])
          && stack[|stack| - 2] < stack[|stack| - 1]
          && LevelOf(ls, stack[|stack| - 2]) < LevelOf(ls, stack[|stack| - 1]))
  }

  function Top(stack: seq<nat>): nat
    requires stack != []
  {
    stack[|stack| - 1]
  }

  /** The stack after popping everything that is not above `level`. */
  function Popped(ls: seq<Line>, stack: seq<nat>, level: nat): (s: seq<nat>)
    requires StackOk(ls, stack)
    ensures StackOk(ls, s) && Top(s) <= Top(stack)
    ensures LevelOf(ls, Top(s)) < level
    decreases |stack|
  {
    if level <= LevelOf(ls, Top(stack)) then Popped(ls, stack[..|stack| - 1], level) else stack
  }

  /** The stack after line `k`. */
  function Added(ls: seq<Line>, k: nat, stack: seq<nat>): (s: seq<nat>)
    requires k < |ls| && StackOk(ls, stack) && Top(stack) <= k
    ensures StackOk(ls, s) && Top(s) <= k + 1
  {
    var s := Popped(ls, stack, ls[k].level);
    var pushed := s + [k + 1];
    assert pushed[..|s|] == s;
    if ls[k].item.Folder? then pushed else s
  }

  /** The stack after `k` lines. */
  function StackAfter(ls: seq<Line>, k: nat): (s: seq<nat>)
    requires k <= |ls|
    ensures StackOk(ls, s) && Top(s) <= k
  {
    if k == 0 then [0] else Added(ls, k - 1, StackAfter(ls, k - 1))
  }

  /** The node that line `k` is appended to. */
  function ParentAt(ls: seq<Line>, k: nat): (p: nat)
    requires k < |ls|
    ensures p <= k
  {
    Top(Popped(ls, StackAfter(ls, k), ls[k].level))
  }

  function Parents(ls: seq<Line>): (pp: seq<nat>)
    ensures |pp| == |ls|
    ensures forall i :: 0 <= i < |ls| ==> pp[i] == ParentAt(ls, i)
  {
    seq(|ls|, i requires 0 <= i < |ls| => ParentAt(ls, i))
  }

  // ----- Which folder is the parent

  /** Folder line `j` is still open when line `k` comes: no line in between is at or above its level. */
  ghost predicate Open(ls: seq<Line>, j: nat, k: nat) {
    j < k <= |ls| && ls[j].item.Folder? && forall i :: j < i < k ==> ls[i].level > ls[j].level
  }

  /** Everything on the stack is at most as new and as deep as its top. */
  lemma {:induction false} TopIsLatest(ls: seq<Line>, stack: seq<nat>, node: nat)
    requires StackOk(ls, stack) && node in stack
    ensures node <= Top(stack) <= |ls| && LevelOf(ls, node) <= LevelOf(ls, Top(stack))
  {
    if node != Top(stack) { TopIsLatest(ls, stack[..|stack| - 1], node); }
  }

  lemma {:induction false} PoppedKeeps(ls: seq<Line>, stack: seq<nat>, level: nat, node: nat)
    requires StackOk(ls, stack) && node <= |ls|
    ensures node in Popped(ls, stack, level) <==> node in stack && LevelOf(ls, node) < level
    decreases |stack|
  {
    var n := |stack| - 1;
    if level <= LevelOf(ls, Top(stack)) {
      PoppedKeeps(ls, stack[..n], level, node);
      assert stack == stack[..n] + [Top(stack)];
    } else if node in stack {
      TopIsLatest(ls, stack, node);
    }
  }

  lemma {:induction false} NotOnStack(ls: seq<Line>, stack: seq<nat>, node: nat)
    requires StackOk(ls, stack) && Top(stack) < node
    ensures node !in stack
  {
    if |stack| > 1 { NotOnStack(ls, stack[..|stack| - 1], node); }
  }

  lemma {:induction false} AddedKeepsOpen(ls: seq<Line>, k: nat, j: nat, stack: seq<nat>)
    requires j <= k < |ls| && StackOk(ls, stack) && Top(stack) <= k
    requires j < k ==> (j + 1 in stack <==> Open(ls, j, k))
    ensures j + 1 in Added(ls, k, stack) <==> Open(ls, j, k + 1)
  {
    var s := Popped(ls, stack, ls[k].level);
    PoppedKeeps(ls, stack, ls[k].level, j + 1);
    if j == k { NotOnStack(ls, s, j + 1); }
  }

  /** After `k` lines the stack holds, above the root, exactly the open folders. */
  lemma {:induction false} StackIsOpenFolders(ls: seq<Line>, k: nat, j: nat)
    requires j < k <= |ls|
    ensures j + 1 in StackAfter(ls, k) <==> Open(ls, j, k)
  {
    if j < k - 1 { StackIsOpenFolders(ls, k - 1, j); }
    AddedKeepsOpen(ls, k - 1, j, StackAfter(ls, k - 1));
  }

  /** Line `j` is a folder that line `k` may go under. */
  ghost predicate Candidate(ls: seq<Line>, j: nat, k: nat)
    requires k < |ls|
  {
    Open(ls, j, k) && ls[j].level < ls[k].level
  }

  /** The parent of line `k` is the latest folder of smaller level that is still open, and the root when
      there is none. */
  ghost predicate ParentIs(ls: seq<Line>, k: nat, p: nat)
    requires k < |ls|
  {
    && (p > 0 ==> Candidate(ls, p - 1, k))
    && (forall j: nat :: Candidate(ls, j, k) ==> j + 1 <= p)
  }

  lemma {:induction false} TopIsParent(ls: seq<Line>, k: nat, s: seq<nat>)
    requires k < |ls| && StackOk(ls, s) && Top(s) <= k
    requires forall j: nat :: j < k ==> (Candidate(ls, j, k) <==> j + 1 in s)
    ensures ParentIs(ls, k, Top(s))
  {
    forall j: nat | Candidate(ls, j, k) ensures j + 1 <= Top(s) {
      TopIsLatest(ls, s, j + 1);
    }
  }

  /** The folders a line may go under are the ones left on the stack. */
  lemma {:induction false} CandidateIff(ls: seq<Line>, k: nat, j: nat)
    requires j < k < |ls|
    ensures Candidate(ls, j, k) <==> j + 1 in Popped(ls, StackAfter(ls, k), ls[k].level)
  {
    StackIsOpenFolders(ls, k, j);
    PoppedKeeps(ls, StackAfter(ls, k), ls[k].level, j + 1);
  }

  lemma {:induction false} ParentsAreOpenFolders(ls: seq<Line>, k: nat)
    requires k < |ls|
    ensures ParentIs(ls, k, Parents(ls)[k])
  {
    var s := Popped(ls, StackAfter(ls, k), ls[k].level);
    forall j: nat | j < k ensures Candidate(ls, j, k) <==> j + 1 in s {
      CandidateIff(ls, k, j);
    }
    TopIsParent(ls, k, s);
  }

  /** There is only one such parent, so ParentIs determines the tree. */
  lemma {:induction false} ParentUnique(ls: seq<Line>, k: nat, p: nat, q: nat)
    requires k < |ls| && ParentIs(ls, k, p) && ParentIs(ls, k, q)
    ensures p == q
  {
    assert p > 0 ==> Candidate(ls, p - 1, k);
    assert q > 0 ==> Candidate(ls, q - 1, k);
  }
}
