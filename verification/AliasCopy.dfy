/** Allocation of sources to destinations when an object behind the alias driver is copied. */
module AliasCopy {
  import opened Common
  import opened AliasPolicy
  import opened AliasMove

  // ----- The allocation, as a function

  /** The first source on a mount serves all destinations of that mount. */
  function Spread(src: Obj, dsts: seq<Obj>): (ps: seq<Pair>)
    ensures |ps| == |dsts| && forall i :: 0 <= i < |dsts| ==> ps[i] == Pair(src, dsts[i])
  {
    if dsts == [] then [] else Spread(src, dsts[..|dsts| - 1]) + [Pair(src, dsts[|dsts| - 1])]
  }

  /** The destinations that source `src` serves after the sources `before`. */
  function Share(before: seq<Obj>, src: Obj, dsts: seq<Obj>): seq<Obj> {
    if Resolves(src) && On(before, src.path.mount.value) == [] then On(dsts, src.path.mount.value) else []
  }

  function CopyPaired(srcs: seq<Obj>, dsts: seq<Obj>): seq<Pair> {
    if srcs == [] then []
    else
      var n := |srcs| - 1;
      CopyPaired(srcs[..n], dsts) + Spread(srcs[n], Share(srcs[..n], srcs[n], dsts))
  }

  lemma {:induction false} CopyPairedSnoc(srcs: seq<Obj>, dsts: seq<Obj>, i: nat)
    requires i < |srcs|
    ensures CopyPaired(srcs[..i + 1], dsts) ==
      CopyPaired(srcs[..i], dsts) + Spread(srcs[i], Share(srcs[..i], srcs[i], dsts))
  {
    assert srcs[..i + 1][..i] == srcs[..i];
  }

  lemma {:induction false} SpreadConcat(ps: seq<Pair>, src: Obj, g: seq<Obj>)
    ensures Dsts(ps + Spread(src, g)) == Dsts(ps) + g
    ensures Srcs(ps + Spread(src, g)) == Srcs(ps) + Srcs(Spread(src, g))
  {
  }

  /** A destination is served by the first source on its own mount. */
  ghost predicate ServedByFirst(p: Pair, srcs: seq<Obj>, dsts: seq<Obj>) {
    && p.dst in dsts && Resolves(p.dst)
    && var own := On(srcs, p.dst.path.mount.value); own != [] && p.src == own[0]
  }

  lemma {:induction false} CopyPairsServe(srcs: seq<Obj>, dsts: seq<Obj>, p: Pair)
    requires p in CopyPaired(srcs, dsts)
    ensures ServedByFirst(p, srcs, dsts)
  {
    var n := |srcs| - 1;
    var before, src := srcs[..n], srcs[n];
    if p in CopyPaired(before, dsts) {
      CopyPairsServe(before, dsts, p);
    } else {
      var g := Share(before, src, dsts);
      assert p in Spread(src, g);
      OnMember(dsts, src.path.mount.value, p.dst);
    }
  }

  /** The destinations whose mount holds one of the sources. */
  function Covered(srcs: seq<Obj>, dsts: seq<Obj>): (r: seq<Obj>)
    ensures |r| <= |dsts|
  {
    if dsts == [] then []
    else
      var n := |dsts| - 1;
      Covered(srcs, dsts[..n]) +
      if Resolves(dsts[n]) && On(srcs, dsts[n].path.mount.value) != [] then [dsts[n]] else []
  }

  lemma {:induction false} CoveredMember(srcs: seq<Obj>, dsts: seq<Obj>, o: Obj)
    ensures o in Covered(srcs, dsts) <==> o in dsts && Resolves(o) && On(srcs, o.path.mount.value) != []
  {
    if dsts != [] {
      var n := |dsts| - 1;
      CoveredMember(srcs, dsts[..n], o);
      assert dsts == dsts[..n] + [dsts[n]];
    }
  }

  predicate IsCovered(srcs: seq<Obj>, d: Obj) {
    Resolves(d) && On(srcs, d.path.mount.value) != []
  }

  /** `src` is the first source on the mount of `d`. */
  predicate Shares(before: seq<Obj>, src: Obj, d: Obj) {
    Resolves(d) && src.path.mount == d.path.mount && On(before, d.path.mount.value) == []
  }

  lemma {:induction false} ShareSnoc(before: seq<Obj>, src: Obj, dsts: seq<Obj>, d: Obj)
    ensures Share(before, src, dsts + [d]) ==
      if Shares(before, src, d) then Share(before, src, dsts) + [d] else Share(before, src, dsts)
    ensures IsCovered(before + [src], d) <==> IsCovered(before, d) || Shares(before, src, d)
    ensures !(IsCovered(before, d) && Shares(before, src, d))
  {
    if Resolves(src) {
      OnOneMore(dsts, d, src.path.mount);
    }
    if Resolves(d) {
      OnOneMore(before, src, d.path.mount);
    }
  }

  lemma {:induction false} CoveredOneMore(srcs: seq<Obj>, dsts: seq<Obj>, d: Obj)
    ensures Covered(srcs, dsts + [d]) == if IsCovered(srcs, d) then Covered(srcs, dsts) + [d] else Covered(srcs, dsts)
  {
    assert (dsts + [d])[..|dsts|] == dsts;
  }

  lemma {:induction false} CoveredSnoc(before: seq<Obj>, src: Obj, dsts: seq<Obj>)
    ensures multiset(Covered(before, dsts)) + multiset(Share(before, src, dsts))
        == multiset(Covered(before + [src], dsts))
  {
    if dsts != [] {
      var n := |dsts| - 1;
      var ds, d := dsts[..n], dsts[n];
      assert dsts == ds + [d];
      CoveredSnoc(before, src, ds);
      ShareSnoc(before, src, ds, d);
      CoveredOneMore(before, ds, d);
      CoveredOneMore(before + [src], ds, d);
      AddOne(Covered(before, ds), Share(before, src, ds), Covered(before + [src], ds), d);
    }
  }

  lemma {:induction false} OnOneMore(before: seq<Obj>, src: Obj, m: Option<string>)
    requires m.Some?
    ensures On(before + [src], m.value)
         == if src.path.mount == m then On(before, m.value) + [src] else On(before, m.value)
  {
    assert (before + [src])[..|before|] == before;
  }

  /** Every covered destination is paired exactly once, and nothing else is. */
  lemma {:induction false} CopyPairsCover(srcs: seq<Obj>, dsts: seq<Obj>)
    ensures multiset(Dsts(CopyPaired(srcs, dsts))) == multiset(Covered(srcs, dsts))
  {
    if srcs == [] {
      NothingCovered(dsts);
    } else {
      var n := |srcs| - 1;
      var before, src := srcs[..n], srcs[n];
      var share := Share(before, src, dsts);
      assert srcs == before + [src];
      CopyPairsCover(before, dsts);
      CoveredSnoc(before, src, dsts);
      SpreadConcat(CopyPaired(before, dsts), src, share);
      assert multiset(Dsts(CopyPaired(before, dsts)) + share)
          == multiset(Dsts(CopyPaired(before, dsts))) + multiset(share);
    }
  }

  lemma {:induction false} NothingCovered(dsts: seq<Obj>)
    ensures Covered([], dsts) == []
  {
    if dsts != [] {
      NothingCovered(dsts[..|dsts| - 1]);
    }
  }

  lemma {:induction false} CoveredPart(srcs: seq<Obj>, dsts: seq<Obj>)
    ensures multiset(Covered(srcs, dsts)) <= multiset(dsts)
  {
    if dsts != [] {
      var n := |dsts| - 1;
      CoveredPart(srcs, dsts[..n]);
      assert dsts == dsts[..n] + [dsts[n]];
    }
  }

  // ----- The allocation, in place

  /** `dstStorageMap` after the sources `before`: all destinations of each mount not yet met. */
  ghost predicate WaitingAt(q: map<string, seq<Obj>>, before: seq<Obj>, dsts: seq<Obj>, m: string) {
    if On(before, m) == [] && On(dsts, m) != [] then m in q && q[m] == On(dsts, m) else m !in q
  }

  ghost predicate Waiting(q: map<string, seq<Obj>>, before: seq<Obj>, dsts: seq<Obj>) {
    forall m :: WaitingAt(q, before, dsts, m)
  }

  /** The destinations taken by `src`, as the map has them. */
  function Taken(q: map<string, seq<Obj>>, src: Obj): seq<Obj> {
    if Resolves(src) && src.path.mount.value in q then q[src.path.mount.value] else []
  }

  function Closed(q: map<string, seq<Obj>>, src: Obj): map<string, seq<Obj>> {
    if Resolves(src) && src.path.mount.value in q then q - {src.path.mount.value} else q
  }

  lemma {:induction false} WaitingSnoc(q: map<string, seq<Obj>>, srcs: seq<Obj>, dsts: seq<Obj>, i: nat)
    requires i < |srcs| && Waiting(q, srcs[..i], dsts)
    ensures Taken(q, srcs[i]) == Share(srcs[..i], srcs[i], dsts)
    ensures Waiting(Closed(q, srcs[i]), srcs[..i + 1], dsts)
  {
    if Resolves(srcs[i]) {
      assert WaitingAt(q, srcs[..i], dsts, srcs[i].path.mount.value);
    }
    var q', now := Closed(q, srcs[i]), srcs[..i + 1];
    forall m
      ensures WaitingAt(q', now, dsts, m)
    {
      assert WaitingAt(q, srcs[..i], dsts, m);
      OnSnoc(srcs, i, m);
    }
  }

  /** The books after the destinations `g` have gone to `src`, one by one. */
  function Assigned(b: Books, src: Obj, g: seq<Obj>): Books {
    if g == [] then b
    else
      var n := |g| - 1;
      var b' := Assigned(b, src, g[..n]);
      Books(b'.queues, b'.srcs + [src], b'.dsts + [g[n]], b'.rest, b'.free - {g[n]})
  }

  lemma {:induction false} AssignedSnoc(b: Books, src: Obj, g: seq<Obj>, i: nat)
    requires i < |g|
    ensures
      var b' := Assigned(b, src, g[..i]);
      Assigned(b, src, g[..i + 1]) == Books(b'.queues, b'.srcs + [src], b'.dsts + [g[i]], b'.rest, b'.free - {g[i]})
  {
    assert g[..i + 1][..i] == g[..i];
  }

  lemma {:induction false} AssignedAll(b: Books, src: Obj, g: seq<Obj>)
    ensures Assigned(b, src, g) == Books(b.queues, b.srcs + Srcs(Spread(src, g)), b.dsts + g, b.rest, b.free - Elems(g))
  {
    if g != [] {
      var n := |g| - 1;
      var h := g[..n];
      AssignedAll(b, src, h);
      assert g == h + [g[n]];
      ElemsSnoc(h, g[n]);
      SpreadSnoc(src, h, g[n]);
      assert b.srcs + Srcs(Spread(src, g)) == b.srcs + Srcs(Spread(src, h)) + [src];
      assert b.dsts + g == b.dsts + h + [g[n]];
      assert b.free - Elems(g) == b.free - Elems(h) - {g[n]};
    }
  }

  /** The books of the source loop after the sources `srcs`. */
  function CopyBooks(b: Books, srcs: seq<Obj>): Books {
    if srcs == [] then b
    else
      var n := |srcs| - 1;
      CopyEntered(CopyBooks(b, srcs[..n]), srcs[n])
  }

  function CopyEntered(b: Books, src: Obj): Books {
    Assigned(b, src, Taken(b.queues, src)).(queues := Closed(b.queues, src))
  }

  lemma {:induction false} CopyBooksSnoc(b: Books, srcs: seq<Obj>, i: nat)
    requires i < |srcs|
    ensures CopyBooks(b, srcs[..i + 1]) == CopyEntered(CopyBooks(b, srcs[..i]), srcs[i])
  {
    assert srcs[..i + 1][..i] == srcs[..i];
  }

  ghost predicate CopyBalanced(b: Books, before: seq<Obj>, dsts: seq<Obj>) {
    var ps := CopyPaired(before, dsts);
    && Waiting(b.queues, before, dsts)
    && b.srcs == Srcs(ps) && b.dsts == Dsts(ps)
    && b.free == Elems(dsts) - Elems(Dsts(ps))
  }

  lemma {:induction false} CopyBalancedSnoc(b: Books, srcs: seq<Obj>, dsts: seq<Obj>, i: nat)
    requires i < |srcs| && CopyBalanced(b, srcs[..i], dsts)
    ensures CopyBalanced(CopyEntered(b, srcs[i]), srcs[..i + 1], dsts)
  {
    var g := Share(srcs[..i], srcs[i], dsts);
    WaitingSnoc(b.queues, srcs, dsts, i);
    CopyPairedSnoc(srcs, dsts, i);
    AssignedAll(b, srcs[i], g);
    SpreadConcat(CopyPaired(srcs[..i], dsts), srcs[i], g);
    ElemsConcat(b.dsts, g);
    assert b.free - Elems(g) == Elems(dsts) - (Elems(b.dsts) + Elems(g));
  }

  lemma {:induction false} CopyBooksBalance(q: map<string, seq<Obj>>, srcs: seq<Obj>, dsts: seq<Obj>, i: nat)
    requires i <= |srcs| && Waiting(q, [], dsts)
    ensures CopyBalanced(CopyBooks(Opened(q, dsts), srcs[..i]), srcs[..i], dsts)
  {
    if i > 0 {
      CopyBooksBalance(q, srcs, dsts, i - 1);
      CopyBooksSnoc(Opened(q, dsts), srcs, i - 1);
      CopyBalancedSnoc(CopyBooks(Opened(q, dsts), srcs[..i - 1]), srcs, dsts, i - 1);
    }
  }

  lemma {:induction false} CopyFits(q: map<string, seq<Obj>>, srcs: seq<Obj>, dsts: seq<Obj>, i: nat)
    requires i <= |srcs| && Waiting(q, [], dsts)
    ensures
      var b := CopyBooks(Opened(q, dsts), srcs[..i]);
      |b.srcs| == |b.dsts| <= |dsts|
  {
    CopyBooksBalance(q, srcs, dsts, i);
    CopyPairsCover(srcs[..i], dsts);
    assert |multiset(Dsts(CopyPaired(srcs[..i], dsts)))| == |multiset(Covered(srcs[..i], dsts))|;
  }

  /** The inner loop of `getCopyObjs`: all of `group` goes to `src`. */
  method Assign(src: Obj, group: seq<Obj>, objs: array<Entry>, srcObjs0: seq<Obj>, free0: set<Obj>,
                ghost b: Books, ghost was: seq<Entry>)
    returns (srcObjs: seq<Obj>, free: set<Obj>)
    requires srcObjs0 == b.srcs && free0 == b.free
    requires |b.srcs| == |b.dsts| && |b.dsts| + |group| <= objs.Length == |was|
    requires objs[..] == Marked(b.dsts) + was[|b.dsts|..]
    modifies objs
    ensures
      var b' := Assigned(b, src, group);
      && srcObjs == b'.srcs && free == b'.free
      && |b'.dsts| == |b.dsts| + |group| && objs[..] == Marked(b'.dsts) + was[|b'.dsts|..]
  {
    srcObjs, free := srcObjs0, free0;
    ghost var now := b;
    for j := 0 to |group|
      invariant now == Assigned(b, src, group[..j]) && srcObjs == now.srcs && free == now.free
      invariant |now.srcs| == |now.dsts| == |b.dsts| + j
      invariant objs[..] == Marked(now.dsts) + was[|now.dsts|..]
    {
      var dst := group[j];
      AssignedSnoc(b, src, group, j);
      MarkedSnoc(now.dsts, dst);
      Overwrite(Marked(now.dsts), was, Known(dst));
      objs[|srcObjs|] := Known(dst);
      srcObjs := srcObjs + [src];
      free := free - {dst};
      now := Assigned(b, src, group[..j + 1]);
    }
    assert group[..|group|] == group;
  }

  lemma {:induction false} SpreadSnoc(src: Obj, g: seq<Obj>, d: Obj)
    ensures Srcs(Spread(src, g + [d])) == Srcs(Spread(src, g)) + [src]
  {
  }

  /** The source loop of `getCopyObjs`. */
  method PairCopies(srcs: seq<Obj>, objs: array<Entry>, q0: map<string, seq<Obj>>, dsts: seq<Obj>)
    returns (srcObjs: seq<Obj>, free: set<Obj>)
    requires |dsts| <= objs.Length && Waiting(q0, [], dsts)
    modifies objs
    ensures
      var b := CopyBooks(Opened(q0, dsts), srcs);
      && srcObjs == b.srcs && free == b.free
      && |b.dsts| <= objs.Length && objs[..] == Marked(b.dsts) + old(objs[..])[|b.dsts|..]
  {
    var q := q0;
    ghost var given: seq<Obj> := [];
    srcObjs, free := [], set o | o in dsts;
    for i := 0 to |srcs|
      invariant Books(q, srcObjs, given, [], free) == CopyBooks(Opened(q0, dsts), srcs[..i])
      invariant |given| <= objs.Length && objs[..] == Marked(given) + old(objs[..])[|given|..]
    {
      CopyFits(q0, srcs, dsts, i);
      CopyFits(q0, srcs, dsts, i + 1);
      CopyBooksSnoc(Opened(q0, dsts), srcs, i);
      var src := srcs[i];
      var storage := src.path.mount;
      if storage.None? {
        continue;
      }
      var mp := storage.value;
      if mp in q {
        ghost var b := Books(q, srcObjs, given, [], free);
        AssignedAll(b, src, q[mp]);
        srcObjs, free := Assign(src, q[mp], objs, srcObjs, free, b, old(objs[..]));
        given := Assigned(b, src, q[mp]).dsts;
        q := q - {mp};
      }
    }
    assert srcs[..|srcs|] == srcs;
  }

  /** A source for a destination on a mount without one. */
  predicate Fallback(src: Obj, srcs: seq<Obj>, balanced: bool)
    requires srcs != []
  {
    src in srcs && (!balanced ==> src == srcs[0])
  }

  method PickFallback(srcs: seq<Obj>, balanced: bool) returns (src: Obj)
    requires srcs != []
    ensures Fallback(src, srcs, balanced)
  {
    src := srcs[0];
    if balanced {
      var pick :| 0 <= pick < |srcs|;
      src := srcs[pick];
    }
  }

  /** The last loop of `getCopyObjs`: destinations on mounts without a source get the first source
      or, when reads are balanced, a random one. */
  method PlaceCopies(objs: array<Entry>, free: set<Obj>, srcs: seq<Obj>, balanced: bool, srcObjs0: seq<Obj>,
                     ghost front: seq<Obj>, ghost was: seq<Entry>)
    returns (srcObjs: seq<Obj>, ghost out: seq<Obj>)
    requires |srcObjs0| == |front| && |was| == objs.Length && |front| + |free| <= |was| && srcs != []
    requires objs[..] == Marked(front) + was[|front|..]
    modifies objs
    ensures front <= out && srcObjs0 <= srcObjs && |srcObjs| == |out| == |front| + |free|
    ensures multiset(out) == multiset(front) + multiset(free)
    ensures forall i :: |front| <= i < |out| ==> out[i] in free && Fallback(srcObjs[i], srcs, balanced)
    ensures objs[..] == Marked(out) + was[|out|..]
  {
    srcObjs, out := srcObjs0, front;
    var rest := free;
    while rest != {}
      invariant rest <= free && |srcObjs| == |out| == |front| + |free| - |rest|
      invariant front <= out && srcObjs0 <= srcObjs
      invariant multiset(out) + multiset(rest) == multiset(front) + multiset(free)
      invariant forall i :: |front| <= i < |out| ==> out[i] in free && Fallback(srcObjs[i], srcs, balanced)
      invariant objs[..] == Marked(out) + was[|out|..]
      decreases rest
    {
      var dst :| dst in rest;
      var src := PickFallback(srcs, balanced);
      MarkedSnoc(out, dst);
      MultisetPick(rest, dst);
      Overwrite(Marked(out), was, Known(dst));
      objs[|srcObjs|] := Known(dst);
      srcObjs := srcObjs + [src];
      out := out + [dst];
      rest := rest - {dst};
    }
  }

  // ----- getCopyObjs

  /** The source a destination is copied from: the first one on its own mount if there is one. */
  ghost predicate WellSourced(src: Obj, dst: Obj, srcs: seq<Obj>, balanced: bool)
    requires srcs != []
  {
    if Resolves(dst) && On(srcs, dst.path.mount.value) != [] then src == On(srcs, dst.path.mount.value)[0]
    else Fallback(src, srcs, balanced)
  }

  lemma {:induction false} WaitingStart(q: map<string, seq<Obj>>, dsts: seq<Obj>)
    requires Queued(q, [], dsts)
    ensures Waiting(q, [], dsts)
  {
    forall m
      ensures WaitingAt(q, [], dsts, m)
    {
      assert QueuedAt(q, [], dsts, m);
    }
  }

  lemma {:induction false} FreeUncovered(srcs: seq<Obj>, dsts: seq<Obj>, o: Obj)
    ensures o in Dsts(CopyPaired(srcs, dsts)) <==> o in dsts && Resolves(o) && On(srcs, o.path.mount.value) != []
  {
    CopyPairsCover(srcs, dsts);
    CoveredMember(srcs, dsts, o);
    assert o in multiset(Dsts(CopyPaired(srcs, dsts))) <==> o in multiset(Covered(srcs, dsts));
  }

  lemma {:induction false} FillUp(given: seq<Obj>, dsts: seq<Obj>, free: set<Obj>)
    requires Distinct(dsts) && multiset(given) <= multiset(dsts) && free == Elems(dsts) - Elems(given)
    ensures multiset(given) + multiset(free) == multiset(dsts)
    ensures |given| + |free| == |dsts|
  {
    DistinctMultiset(dsts);
    forall o
      ensures (multiset(given) + multiset(free))[o] == multiset(dsts)[o]
    {
      assert o in given <==> o in multiset(given);
    }
    assert |multiset(given) + multiset(free)| == |given| + |free|;
  }

  lemma {:induction false} CopyFree(srcs: seq<Obj>, dsts: seq<Obj>, free: set<Obj>)
    requires Distinct(dsts) && free == Elems(dsts) - Elems(Dsts(CopyPaired(srcs, dsts)))
    ensures multiset(Dsts(CopyPaired(srcs, dsts))) + multiset(free) == multiset(dsts)
    ensures |CopyPaired(srcs, dsts)| + |free| == |dsts|
  {
    CopyPairsCover(srcs, dsts);
    CoveredPart(srcs, dsts);
    FillUp(Dsts(CopyPaired(srcs, dsts)), dsts, free);
  }

  lemma {:induction false} CopiesWellSourced(srcs: seq<Obj>, dsts: seq<Obj>, balanced: bool, srcObjs: seq<Obj>,
                                             out: seq<Obj>, i: nat)
    requires srcs != [] && Distinct(dsts) && i < |out| == |srcObjs|
    requires
      var ps := CopyPaired(srcs, dsts);
      && Srcs(ps) <= srcObjs && Dsts(ps) <= out
      && (|ps| <= i ==> out[i] in Elems(dsts) - Elems(Dsts(ps)) && Fallback(srcObjs[i], srcs, balanced))
    ensures WellSourced(srcObjs[i], out[i], srcs, balanced)
  {
    var ps := CopyPaired(srcs, dsts);
    if i < |ps| {
      assert ps[i] == Pair(Srcs(ps)[i], Dsts(ps)[i]);
      CopyPairsServe(srcs, dsts, ps[i]);
    } else {
      FreeUncovered(srcs, dsts, out[i]);
    }
  }

  /** The destinations `getCopyObjs` accepts: allowed by the policy and all on a storage. */
  ghost function CopyDsts(fs: FileSystem, check: bool, put: Policy, dst: seq<Entry>): Result<seq<Obj>, Error>
    requires dst != [] && dst[0].Known? && DistinctObjs(dst)
  {
    SelectedDistinct(fs, check, put, dst);
    var ds := Selected(fs, check, put, dst);
    if put.Disabled? then Err(PermissionDenied)
    else if ds.Err? then Err(ds.error)
    else if exists o :: o in ObjsOf(ds.value) && !Resolves(o) then Err(VirtualPath)
    else Ok(ObjsOf(ds.value))
  }

  /** The sources `getCopyObjs` accepts. */
  ghost function CopySrcs(fs: FileSystem, check: bool, src: seq<Entry>): Result<seq<Obj>, Error>
    requires src != [] && src[0].Known? && DistinctObjs(src)
  {
    SelectedDistinct(fs, check, All, src);
    var ss := Selected(fs, check, All, src);
    if ss.Err? then Err(ss.error) else Ok(ObjsOf(ss.value))
  }

  /** What `getCopyObjs` works on: the accepted objects, or the first check that fails. */
  ghost function CopyInputs(fs: FileSystem, check: bool, put: Policy, src: seq<Entry>, dst: seq<Entry>)
    : Result<(seq<Obj>, seq<Obj>), Error>
    requires src != [] && src[0].Known? && DistinctObjs(src)
    requires dst != [] && dst[0].Known? && DistinctObjs(dst)
  {
    var ds, ss := CopyDsts(fs, check, put, dst), CopySrcs(fs, check, src);
    if ds.Err? then Err(ds.error)
    else if ss.Err? then Err(ss.error)
    else Ok((ss.value, ds.value))
  }

  method AcceptDsts(fs: FileSystem, check: bool, put: Policy, dstDir: array<Entry>)
    returns (r: Result<(nat, map<string, seq<Obj>>), Error>)
    requires dstDir.Length > 0 && dstDir[0].Known? && DistinctObjs(dstDir[..])
    modifies dstDir
    ensures
      match CopyDsts(fs, check, put, old(dstDir[..]))
      case Err(e) => r == Err(e)
      case Ok(dsts) =>
        && r.Ok? && r.value.0 == |dsts| <= dstDir.Length && Distinct(dsts) && Queued(r.value.1, [], dsts)
        && dstDir[..] == Marked(dsts) + old(dstDir[..])[|dsts|..]
  {
    SelectedDistinct(fs, check, put, dstDir[..]);
    if put == Disabled {
      return Err(PermissionDenied);
    }
    var d := GetAllObjs(fs, check, put, dstDir);
    if d.Err? {
      return Err(d.error);
    }
    ghost var kept := Selected(fs, check, put, old(dstDir[..])).value;
    assert dstDir[..d.value] == kept;
    r := GroupFront(dstDir, d.value);
    MarkedObjs(kept);
  }

  /** The accepted destinations, which stand at the front of the array, queued by mount. */
  method GroupFront(objs: array<Entry>, n: nat) returns (r: Result<(nat, map<string, seq<Obj>>), Error>)
    requires n <= objs.Length && AllKnown(objs[..n])
    ensures
      var dsts := ObjsOf(objs[..n]);
      if exists o :: o in dsts && !Resolves(o) then r == Err(VirtualPath)
      else r.Ok? && r.value.0 == n && Queued(r.value.1, [], dsts)
  {
    var q := GroupByMount(ObjsOf(objs[..n]));
    r := if q.Ok? then Ok((n, q.value)) else Err(q.error);
  }

  lemma {:induction false} MarkedObjs(es: seq<Entry>)
    requires AllKnown(es)
    ensures Marked(ObjsOf(es)) == es
  {
  }

  method AcceptSrcs(fs: FileSystem, check: bool, srcObj: array<Entry>) returns (r: Result<seq<Obj>, Error>)
    requires srcObj.Length > 0 && srcObj[0].Known? && DistinctObjs(srcObj[..])
    modifies srcObj
    ensures r == CopySrcs(fs, check, old(srcObj[..]))
    ensures r.Ok? ==> r.value != []
  {
    SelectedDistinct(fs, check, All, srcObj[..]);
    var s := GetAllObjs(fs, check, All, srcObj);
    r := if s.Ok? then Ok(ObjsOf(srcObj[..s.value])) else Err(s.error);
  }

  /** `out` lists all destinations, each next to a source it may be copied from. */
  ghost predicate Sourced(srcs: seq<Obj>, dsts: seq<Obj>, balanced: bool, from: seq<Obj>, out: seq<Obj>) {
    && srcs != [] && |from| == |out| == |dsts| && multiset(out) == multiset(dsts)
    && forall i :: 0 <= i < |out| ==> WellSourced(from[i], out[i], srcs, balanced)
  }

  /** The second half of `getCopyObjs`: sources `srcs` against the first `n` entries of `objs`,
      which all lie on a storage (`q` groups them by mount). */
  method AllotCopy(srcs: seq<Obj>, objs: array<Entry>, n: nat, q: map<string, seq<Obj>>, balanced: bool,
                   ghost dsts: seq<Obj>)
    returns (srcObjs: seq<Obj>, dstObjs: seq<Obj>)
    requires srcs != [] && n == |dsts| <= objs.Length && objs[..n] == Marked(dsts) && Distinct(dsts)
    requires Queued(q, [], dsts)
    modifies objs
    ensures Sourced(srcs, dsts, balanced, srcObjs, dstObjs)
    ensures objs[..] == Marked(dstObjs) + old(objs[..])[n..]
  {
    MarkedFront(dsts, objs[..]);
    WaitingStart(q, dsts);
    var free;
    srcObjs, free := PairCopies(srcs, objs, q, ObjsOf(objs[..n]));
    CopyBooksBalance(q, srcs, dsts, |srcs|);
    assert srcs[..|srcs|] == srcs;
    CopyFree(srcs, dsts, free);
    ghost var out;
    srcObjs, out := PlaceCopies(objs, free, srcs, balanced, srcObjs, Dsts(CopyPaired(srcs, dsts)), old(objs[..]));
    assert objs[..n] == Marked(out);
    MarkedFront(out, objs[..]);
    dstObjs := ObjsOf(objs[..n]);
    forall i | 0 <= i < n
      ensures WellSourced(srcObjs[i], out[i], srcs, balanced)
    {
      CopiesWellSourced(srcs, dsts, balanced, srcObjs, out, i);
    }
  }

  /** `getCopyObjs`: the sources, and the destinations, which now stand at the front of `dstDir` as
      well; source i is to be copied to destination i. */
  method GetCopyObjs(fs: FileSystem, check: bool, put: Policy, balanced: bool, srcObj: array<Entry>,
                     dstDir: array<Entry>)
    returns (r: Result<(seq<Obj>, seq<Obj>), Error>)
    requires srcObj != dstDir
    requires srcObj.Length > 0 && srcObj[0].Known? && DistinctObjs(srcObj[..])
    requires dstDir.Length > 0 && dstDir[0].Known? && DistinctObjs(dstDir[..])
    modifies srcObj, dstDir
    ensures
      match CopyInputs(fs, check, put, old(srcObj[..]), old(dstDir[..]))
      case Err(e) => r == Err(e)
      case Ok((srcs, dsts)) =>
        && r.Ok? && Sourced(srcs, dsts, balanced, r.value.0, r.value.1)
        && |dsts| <= dstDir.Length && dstDir[..] == Marked(r.value.1) + old(dstDir[..])[|dsts|..]
  {
    var d := AcceptDsts(fs, check, put, dstDir);
    if d.Err? {
      r := Err(d.error);
    } else {
      var s := AcceptSrcs(fs, check, srcObj);
      if s.Err? {
        r := Err(s.error);
      } else {
        ghost var dsts := CopyDsts(fs, check, put, old(dstDir[..])).value;
        assert dstDir[..|dsts|] == Marked(dsts);
        var srcObjs, dstObjs := AllotCopy(s.value, dstDir, d.value.0, d.value.1, balanced, dsts);
        r := Ok((srcObjs, dstObjs));
      }
    }
  }
}
