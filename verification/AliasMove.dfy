/** Allocation of sources to destinations when an object behind the alias driver is moved. */
module AliasMove {
  import opened Common
  import opened AliasPolicy

  datatype Pair = Pair(src: Obj, dst: Obj)

  predicate Resolves(o: Obj) {
    o.path.mount.Some?
  }

  // ----- The pairing, as a function

  /** The objects on mount `m`, in order. */
  function On(objs: seq<Obj>, m: string): (r: seq<Obj>)
    ensures |r| <= |objs|
  {
    if objs == [] then []
    else
      var n := |objs| - 1;
      On(objs[..n], m) + if objs[n].path.mount == Some(m) then [objs[n]] else []
  }

  /** The j-th source of a mount goes to the j-th destination of that mount, if there is one. */
  predicate Served(before: seq<Obj>, src: Obj, dsts: seq<Obj>) {
    Resolves(src) &&
    var m := src.path.mount.value;
    |On(before, m)| < |On(dsts, m)|
  }

  function Partner(before: seq<Obj>, src: Obj, dsts: seq<Obj>): Obj
    requires Served(before, src, dsts)
  {
    var m := src.path.mount.value;
    On(dsts, m)[|On(before, m)|]
  }

  function Paired(srcs: seq<Obj>, dsts: seq<Obj>): (r: seq<Pair>)
    ensures |r| <= |srcs|
  {
    if srcs == [] then []
    else
      var n := |srcs| - 1;
      Paired(srcs[..n], dsts) +
      if Served(srcs[..n], srcs[n], dsts)
      then [Pair(srcs[n], Partner(srcs[..n], srcs[n], dsts))] else []
  }

  /** Resolvable sources whose mount has no free destination left. */
  function Spare(srcs: seq<Obj>, dsts: seq<Obj>): seq<Obj> {
    if srcs == [] then []
    else
      var n := |srcs| - 1;
      Spare(srcs[..n], dsts) +
      if Resolves(srcs[n]) && !Served(srcs[..n], srcs[n], dsts) then [srcs[n]] else []
  }

  function Resolved(objs: seq<Obj>): seq<Obj> {
    if objs == [] then []
    else
      var n := |objs| - 1;
      Resolved(objs[..n]) + if Resolves(objs[n]) then [objs[n]] else []
  }

  function Srcs(ps: seq<Pair>): (r: seq<Obj>)
    ensures |r| == |ps| && forall i :: 0 <= i < |ps| ==> r[i] == ps[i].src
  {
    if ps == [] then [] else Srcs(ps[..|ps| - 1]) + [ps[|ps| - 1].src]
  }

  function Dsts(ps: seq<Pair>): (r: seq<Obj>)
    ensures |r| == |ps| && forall i :: 0 <= i < |ps| ==> r[i] == ps[i].dst
  {
    if ps == [] then [] else Dsts(ps[..|ps| - 1]) + [ps[|ps| - 1].dst]
  }

  // ----- Facts about mounts

  lemma {:induction false} OnMember(objs: seq<Obj>, m: string, o: Obj)
    ensures o in On(objs, m) <==> o in objs && o.path.mount == Some(m)
  {
    if objs != [] {
      var n := |objs| - 1;
      assert objs == objs[..n] + [objs[n]];
      OnMember(objs[..n], m, o);
    }
  }

  lemma {:induction false} OnDistinct(objs: seq<Obj>, m: string)
    requires Distinct(objs)
    ensures Distinct(On(objs, m))
  {
    if objs != [] {
      var n := |objs| - 1;
      OnDistinct(objs[..n], m);
      OnMember(objs[..n], m, objs[n]);
      assert objs[n] !in objs[..n];
    }
  }

  // ----- Facts about the pairing

  /** The pairs of mount `m`: its first sources with its first destinations, as many as there
      are of both. */
  function MountPairs(srcs: seq<Obj>, dsts: seq<Obj>, m: string): seq<Pair> {
    var a, b := On(srcs, m), On(dsts, m);
    var k := if |a| < |b| then |a| else |b|;
    Zip(a[..k], b[..k])
  }

  /** On every mount the pairing takes sources and destinations in order of arrival, and makes
      the smaller of their two numbers of pairs. */
  lemma {:induction false} PairedOnMount(srcs: seq<Obj>, dsts: seq<Obj>, m: string)
    ensures OnPairs(Paired(srcs, dsts), m) == MountPairs(srcs, dsts, m)
  {
    if srcs != [] {
      var n := |srcs| - 1;
      PairedOnMount(srcs[..n], dsts, m);
      MountPairsSnoc(srcs[..n], srcs[n], dsts, m);
      assert srcs == srcs[..n] + [srcs[n]];
      if Served(srcs[..n], srcs[n], dsts) {
        OnPairsSnoc(Paired(srcs[..n], dsts), Pair(srcs[n], Partner(srcs[..n], srcs[n], dsts)), m);
      } else {
        assert Paired(srcs, dsts) == Paired(srcs[..n], dsts);
      }
    }
  }

  lemma {:induction false} MountPairsSnoc(before: seq<Obj>, src: Obj, dsts: seq<Obj>, m: string)
    ensures MountPairs(before + [src], dsts, m) ==
      if src.path.mount == Some(m) && Served(before, src, dsts)
      then MountPairs(before, dsts, m) + [Pair(src, Partner(before, src, dsts))]
      else MountPairs(before, dsts, m)
  {
    var a, b := On(before, m), On(dsts, m);
    assert (before + [src])[..|before|] == before;
    if src.path.mount == Some(m) {
      var a' := a + [src];
      assert On(before + [src], m) == a';
      if |a| < |b| {
        assert a'[..|a'|] == a' && a'[..|a|] == a[..|a|] && b[..|a'|][..|a|] == b[..|a|];
      } else {
        assert a'[..|b|] == a[..|b|];
      }
    } else {
      assert On(before + [src], m) == a;
    }
  }

  lemma {:induction false} OnPairsSnoc(ps: seq<Pair>, p: Pair, m: string)
    ensures OnPairs(ps + [p], m) == if p.src.path.mount == Some(m) then OnPairs(ps, m) + [p] else OnPairs(ps, m)
  {
    assert (ps + [p])[..|ps|] == ps;
  }

  function Zip(a: seq<Obj>, b: seq<Obj>): (r: seq<Pair>)
    requires |a| == |b|
    ensures |r| == |a|
  {
    if a == [] then []
    else
      var n := |a| - 1;
      Zip(a[..n], b[..n]) + [Pair(a[n], b[n])]
  }

  /** The pairs whose source lies on mount `m`. */
  function OnPairs(ps: seq<Pair>, m: string): seq<Pair> {
    if ps == [] then []
    else
      var n := |ps| - 1;
      OnPairs(ps[..n], m) + if ps[n].src.path.mount == Some(m) then [ps[n]] else []
  }

  lemma {:induction false} ZipMember(a: seq<Obj>, b: seq<Obj>, p: Pair)
    requires |a| == |b|
    ensures p in Zip(a, b) <==> exists i :: 0 <= i < |a| && p == Pair(a[i], b[i])
  {
    if a != [] {
      var n := |a| - 1;
      ZipMember(a[..n], b[..n], p);
    }
  }

  lemma {:induction false} OnPairsMember(ps: seq<Pair>, m: string, p: Pair)
    ensures p in OnPairs(ps, m) <==> p in ps && p.src.path.mount == Some(m)
  {
    if ps != [] {
      var n := |ps| - 1;
      assert ps == ps[..n] + [ps[n]];
      OnPairsMember(ps[..n], m, p);
    }
  }

  lemma {:induction false} PairOnMount(srcs: seq<Obj>, dsts: seq<Obj>, p: Pair)
    requires p in Paired(srcs, dsts)
    ensures Resolves(p.src) && p in MountPairs(srcs, dsts, p.src.path.mount.value)
  {
    PairedResolves(srcs, dsts, p);
    PairedOnMount(srcs, dsts, p.src.path.mount.value);
    OnPairsMember(Paired(srcs, dsts), p.src.path.mount.value, p);
  }

  lemma {:induction false} ZipPosition(a: seq<Obj>, b: seq<Obj>, k: nat, p: Pair) returns (j: nat)
    requires k <= |a| && k <= |b| && p in Zip(a[..k], b[..k])
    ensures j < k && p == Pair(a[j], b[j])
  {
    ZipMember(a[..k], b[..k], p);
    j :| 0 <= j < k && p == Pair(a[..k][j], b[..k][j]);
  }

  /** A pair joins the same position of the source and destination lists of one mount. */
  lemma {:induction false} PairPosition(srcs: seq<Obj>, dsts: seq<Obj>, p: Pair) returns (m: string, j: nat)
    requires p in Paired(srcs, dsts)
    ensures p.src.path.mount == p.dst.path.mount == Some(m)
    ensures p.src in srcs && p.dst in dsts
    ensures j < |On(srcs, m)| && j < |On(dsts, m)|
    ensures p == Pair(On(srcs, m)[j], On(dsts, m)[j])
  {
    PairOnMount(srcs, dsts, p);
    m := p.src.path.mount.value;
    var a, b := On(srcs, m), On(dsts, m);
    j := ZipPosition(a, b, if |a| < |b| then |a| else |b|, p);
    OnMember(srcs, m, p.src);
    OnMember(dsts, m, p.dst);
  }

  lemma {:induction false} PairedResolves(srcs: seq<Obj>, dsts: seq<Obj>, p: Pair)
    requires p in Paired(srcs, dsts)
    ensures Resolves(p.src)
  {
    var n := |srcs| - 1;
    if p in Paired(srcs[..n], dsts) {
      PairedResolves(srcs[..n], dsts, p);
    }
  }

  /** No destination is given away twice. */
  lemma {:induction false} DstsDistinct(srcs: seq<Obj>, dsts: seq<Obj>)
    requires Distinct(dsts)
    ensures Distinct(Dsts(Paired(srcs, dsts)))
    ensures Elems(Dsts(Paired(srcs, dsts))) <= Elems(dsts)
  {
    if srcs != [] {
      var n := |srcs| - 1;
      var ps := Paired(srcs[..n], dsts);
      DstsDistinct(srcs[..n], dsts);
      if Served(srcs[..n], srcs[n], dsts) {
        var d := Partner(srcs[..n], srcs[n], dsts);
        OnMember(dsts, srcs[n].path.mount.value, d);
        if i :| 0 <= i < |ps| && ps[i].dst == d {
          var m, j := PairPosition(srcs[..n], dsts, ps[i]);
          OnDistinct(dsts, m);
          assert false;
        }
        SrcsSnoc(ps, Pair(srcs[n], d));
      }
    }
  }

  /** Each resolvable source is either paired or spare, exactly once. */
  lemma {:induction false} Accounting(srcs: seq<Obj>, dsts: seq<Obj>)
    ensures multiset(Srcs(Paired(srcs, dsts))) + multiset(Spare(srcs, dsts)) == multiset(Resolved(srcs))
  {
    if srcs != [] {
      var n := |srcs| - 1;
      var before, src := srcs[..n], srcs[n];
      Accounting(before, dsts);
      if Served(before, src, dsts) {
        SrcsSnoc(Paired(before, dsts), Pair(src, Partner(before, src, dsts)));
        assert Srcs(Paired(srcs, dsts)) == Srcs(Paired(before, dsts)) + [src];
      } else {
        assert Paired(srcs, dsts) == Paired(before, dsts);
      }
      AddOne(Srcs(Paired(before, dsts)), Spare(before, dsts), Resolved(before), src);
    }
  }

  lemma {:induction false} AddOne(a: seq<Obj>, b: seq<Obj>, c: seq<Obj>, x: Obj)
    requires multiset(a) + multiset(b) == multiset(c)
    ensures multiset(a + [x]) + multiset(b) == multiset(c + [x])
    ensures multiset(a) + multiset(b + [x]) == multiset(c + [x])
  {
  }

  lemma {:induction false} SrcsSnoc(ps: seq<Pair>, p: Pair)
    ensures Srcs(ps + [p]) == Srcs(ps) + [p.src]
    ensures Dsts(ps + [p]) == Dsts(ps) + [p.dst]
  {
  }

  // ----- Optimality

  /** A one-to-one assignment that keeps every chosen source on its mount. */
  ghost predicate SameMountMatching(srcs: seq<Obj>, dsts: seq<Obj>, ms: set<Pair>) {
    && (forall p :: p in ms ==> p.src in srcs && p.dst in dsts && Resolves(p.src)
                                && p.src.path.mount == p.dst.path.mount)
    && (forall p, q :: p in ms && q in ms && p != q ==> p.src != q.src && p.dst != q.dst)
  }

  /** The pair that accounts for `p` in a matching: the one with its source if all sources of
      the mount are paired, the one with its destination otherwise. */
  lemma {:induction false} Cover(srcs: seq<Obj>, dsts: seq<Obj>, p: Pair) returns (c: Pair)
    requires p.src in srcs && p.dst in dsts && Resolves(p.src) && p.src.path.mount == p.dst.path.mount
    ensures c in Paired(srcs, dsts) && c.src.path.mount == p.src.path.mount
    ensures
      var m := p.src.path.mount.value;
      if |On(srcs, m)| <= |On(dsts, m)| then c.src == p.src else c.dst == p.dst
  {
    var m := p.src.path.mount.value;
    var a, b := On(srcs, m), On(dsts, m);
    OnMember(srcs, m, p.src);
    OnMember(dsts, m, p.dst);
    var k := if |a| < |b| then |a| else |b|;
    var j: nat;
    if |a| <= |b| {
      j :| j < |a| && a[j] == p.src;
    } else {
      j :| j < |b| && b[j] == p.dst;
    }
    c := Pair(a[j], b[j]);
    PairedOnMount(srcs, dsts, m);
    assert c == Pair(a[..k][j], b[..k][j]);
    ZipMember(a[..k], b[..k], c);
    OnPairsMember(Paired(srcs, dsts), m, c);
  }

  /** No assignment keeps more sources on their mount than the pairing does. */
  lemma {:induction false} PairingIsMaximum(srcs: seq<Obj>, dsts: seq<Obj>, ms: set<Pair>)
    requires SameMountMatching(srcs, dsts, ms)
    ensures |ms| <= |Paired(srcs, dsts)|
  {
    var ps := Paired(srcs, dsts);
    ghost var f: map<Pair, Pair> := map[];
    ghost var todo := ms;
    while todo != {}
      invariant todo <= ms && f.Keys == ms - todo
      invariant forall p :: p in f ==> f[p] in Elems(ps) && f[p].src.path.mount == p.src.path.mount
      invariant forall p :: p in f ==>
        var m := p.src.path.mount.value;
        if |On(srcs, m)| <= |On(dsts, m)| then f[p].src == p.src else f[p].dst == p.dst
      decreases todo
    {
      var p :| p in todo;
      var c := Cover(srcs, dsts, p);
      f := f[p := c];
      todo := todo - {p};
    }
    Pigeonhole(ms, Elems(ps), f);
    ElemsSize(ps);
  }

  lemma {:induction false} ElemsSize<T>(s: seq<T>)
    ensures |Elems(s)| <= |s|
  {
    if s != [] {
      var n := |s| - 1;
      ElemsSize(s[..n]);
      assert Elems(s) == Elems(s[..n]) + {s[n]};
    }
  }

  // ----- The pairing, in place

  /** The entry of `dstStorageMap` for mount `m` after the sources `before`: the destinations
      on `m` that are still free, and no entry when there is none. */
  ghost predicate QueuedAt(q: map<string, seq<Obj>>, before: seq<Obj>, dsts: seq<Obj>, m: string) {
    var a, b := |On(before, m)|, On(dsts, m);
    if a < |b| then m in q && q[m] == b[a..] else m !in q
  }

  ghost predicate Queued(q: map<string, seq<Obj>>, before: seq<Obj>, dsts: seq<Obj>) {
    forall m :: QueuedAt(q, before, dsts, m)
  }

  /** Groups the destinations by mount; fails when one of them is on no storage. */
  method GroupByMount(dsts: seq<Obj>) returns (r: Result<map<string, seq<Obj>>, Error>)
    ensures r == Err(VirtualPath) || r.Ok?
    ensures r.Ok? <==> forall i :: 0 <= i < |dsts| ==> Resolves(dsts[i])
    ensures r.Ok? ==> Queued(r.value, [], dsts)
  {
    var q: map<string, seq<Obj>> := map[];
    for i := 0 to |dsts|
      invariant forall k :: 0 <= k < i ==> Resolves(dsts[k])
      invariant Queued(q, [], dsts[..i])
    {
      var storage := dsts[i].path.mount;
      if storage.None? {
        return Err(VirtualPath);
      }
      var mp := storage.value;
      GroupedOneMore(q, dsts, i, mp);
      q := q[mp := (if mp in q then q[mp] else []) + [dsts[i]]];
    }
    assert dsts[..|dsts|] == dsts;
    r := Ok(q);
  }

  lemma {:induction false} GroupedOneMore(q: map<string, seq<Obj>>, dsts: seq<Obj>, i: nat, mp: string)
    requires i < |dsts| && dsts[i].path.mount == Some(mp) && Queued(q, [], dsts[..i])
    ensures Queued(q[mp := (if mp in q then q[mp] else []) + [dsts[i]]], [], dsts[..i + 1])
  {
    var q', now := q[mp := (if mp in q then q[mp] else []) + [dsts[i]]], dsts[..i + 1];
    forall m
      ensures QueuedAt(q', [], now, m)
    {
      assert QueuedAt(q, [], dsts[..i], m);
      OnSnoc(dsts, i, m);
    }
  }

  lemma {:induction false} OnSnoc(objs: seq<Obj>, i: nat, m: string)
    requires i < |objs|
    ensures On(objs[..i + 1], m) ==
      if objs[i].path.mount == Some(m) then On(objs[..i], m) + [objs[i]] else On(objs[..i], m)
  {
    assert objs[..i + 1][..i] == objs[..i];
  }

  /** The pairing of one more source. */
  lemma {:induction false} PairedSnoc(srcs: seq<Obj>, dsts: seq<Obj>, i: nat)
    requires i < |srcs|
    ensures
      var before, src := srcs[..i], srcs[i];
      && Paired(srcs[..i + 1], dsts) == (
           if Served(before, src, dsts) then Paired(before, dsts) + [Pair(src, Partner(before, src, dsts))]
           else Paired(before, dsts))
      && Spare(srcs[..i + 1], dsts) == (
           if Resolves(src) && !Served(before, src, dsts) then Spare(before, dsts) + [src]
           else Spare(before, dsts))
  {
    assert srcs[..i + 1][..i] == srcs[..i];
  }

  /** `dstStorageMap` after source `src` has been looked at. */
  function Dequeued(q: map<string, seq<Obj>>, mp: string): map<string, seq<Obj>>
    requires mp in q && q[mp] != []
  {
    if |q[mp]| == 1 then q - {mp} else q[mp := q[mp][1..]]
  }

  lemma {:induction false} QueuedSnoc(q: map<string, seq<Obj>>, srcs: seq<Obj>, dsts: seq<Obj>, i: nat)
    requires i < |srcs| && Queued(q, srcs[..i], dsts)
    ensures
      var src := srcs[i];
      if Served(srcs[..i], src, dsts) then
        var mp := src.path.mount.value;
        && mp in q && q[mp] != []
        && q[mp][0] == Partner(srcs[..i], src, dsts)
        && Queued(Dequeued(q, mp), srcs[..i + 1], dsts)
      else
        && (Resolves(src) ==> src.path.mount.value !in q)
        && Queued(q, srcs[..i + 1], dsts)
  {
    var mp := srcs[i].path.mount;
    assert mp.Some? ==> QueuedAt(q, srcs[..i], dsts, mp.value);
    var q' := if Served(srcs[..i], srcs[i], dsts) then Dequeued(q, mp.value) else q;
    var now := srcs[..i + 1];
    forall m
      ensures QueuedAt(q', now, dsts, m)
    {
      assert QueuedAt(q, srcs[..i], dsts, m);
      OnSnoc(srcs, i, m);
    }
  }

  /** Objects as entries of a destination list. */
  function Marked(os: seq<Obj>): (es: seq<Entry>)
    ensures |es| == |os| && forall i :: 0 <= i < |os| ==> es[i] == Known(os[i])
  {
    if os == [] then [] else Marked(os[..|os| - 1]) + [Known(os[|os| - 1])]
  }

  lemma {:induction false} MarkedSnoc(os: seq<Obj>, o: Obj)
    ensures Marked(os + [o]) == Marked(os) + [Known(o)]
  {
    assert (os + [o])[..|os|] == os;
  }

  /** The variables of the source loop: `dstStorageMap`, the sources and destinations paired so
      far, the spare sources, and `allocatingDst`. */
  datatype Books = Books(queues: map<string, seq<Obj>>, srcs: seq<Obj>, dsts: seq<Obj>, rest: seq<Obj>, free: set<Obj>)

  ghost predicate Balanced(b: Books, before: seq<Obj>, dsts: seq<Obj>) {
    var ps := Paired(before, dsts);
    && Queued(b.queues, before, dsts)
    && b.srcs == Srcs(ps) && b.dsts == Dsts(ps) && b.rest == Spare(before, dsts)
    && b.free == Elems(dsts) - Elems(Dsts(ps))
    && |ps| <= |dsts|
  }

  /** The books after one more source. */
  function Entered(b: Books, src: Obj): Books {
    match src.path.mount
    case None => b
    case Some(mp) =>
      if mp in b.queues && b.queues[mp] != [] then
        var dst := b.queues[mp][0];
        Books(Dequeued(b.queues, mp), b.srcs + [src], b.dsts + [dst], b.rest, b.free - {dst})
      else b.(rest := b.rest + [src])
  }

  ghost function Opened(q: map<string, seq<Obj>>, dsts: seq<Obj>): Books {
    Books(q, [], [], [], Elems(dsts))
  }

  function BooksAfter(b: Books, srcs: seq<Obj>): Books {
    if srcs == [] then b
    else
      var n := |srcs| - 1;
      Entered(BooksAfter(b, srcs[..n]), srcs[n])
  }

  lemma {:induction false} BooksSnoc(b: Books, srcs: seq<Obj>, i: nat)
    requires i < |srcs|
    ensures BooksAfter(b, srcs[..i + 1]) == Entered(BooksAfter(b, srcs[..i]), srcs[i])
  {
    assert srcs[..i + 1][..i] == srcs[..i];
  }

  lemma {:induction false} BalancedSnoc(b: Books, srcs: seq<Obj>, dsts: seq<Obj>, i: nat)
    requires i < |srcs| && Distinct(dsts) && Balanced(b, srcs[..i], dsts)
    ensures Balanced(Entered(b, srcs[i]), srcs[..i + 1], dsts)
  {
    PairedSnoc(srcs, dsts, i);
    QueuedSnoc(b.queues, srcs, dsts, i);
    PairedFits(srcs[..i + 1], dsts);
    if Served(srcs[..i], srcs[i], dsts) {
      SrcsSnoc(Paired(srcs[..i], dsts), Pair(srcs[i], Partner(srcs[..i], srcs[i], dsts)));
    }
  }

  lemma {:induction false} BooksBalance(q: map<string, seq<Obj>>, srcs: seq<Obj>, dsts: seq<Obj>, i: nat)
    requires i <= |srcs| && Distinct(dsts) && Queued(q, [], dsts)
    ensures Balanced(BooksAfter(Opened(q, dsts), srcs[..i]), srcs[..i], dsts)
  {
    if i == 0 {
      assert srcs[..0] == [];
      BalancedAtStart(q, dsts);
    } else {
      var b := BooksAfter(Opened(q, dsts), srcs[..i - 1]);
      BooksBalance(q, srcs, dsts, i - 1);
      BalancedSnoc(b, srcs, dsts, i - 1);
      BooksSnoc(Opened(q, dsts), srcs, i - 1);
    }
  }

  lemma {:induction false} BalancedAtStart(q: map<string, seq<Obj>>, dsts: seq<Obj>)
    requires Queued(q, [], dsts)
    ensures Balanced(Opened(q, dsts), [], dsts)
  {
  }

  lemma {:induction false} QueuesServe(q: map<string, seq<Obj>>, srcs: seq<Obj>, dsts: seq<Obj>, i: nat)
    requires i < |srcs| && Distinct(dsts) && Queued(q, [], dsts)
    ensures
      var b := BooksAfter(Opened(q, dsts), srcs[..i]);
      && |b.srcs| == |b.dsts| <= |dsts|
      && (Resolves(srcs[i]) && srcs[i].path.mount.value in b.queues ==>
            b.queues[srcs[i].path.mount.value] != [] && |b.srcs| < |dsts|)
  {
    var b := BooksAfter(Opened(q, dsts), srcs[..i]);
    BooksBalance(q, srcs, dsts, i);
    if Resolves(srcs[i]) && srcs[i].path.mount.value in b.queues {
      QueuedSnoc(b.queues, srcs, dsts, i);
      BooksBalance(q, srcs, dsts, i + 1);
      BooksSnoc(Opened(q, dsts), srcs, i);
    }
  }

  /** The source loop of `getMoveObjs`. The destinations that are given away are written over
      the front of `objs`, the backing array of the destination list `dsts`. */
  method PairSources(srcs: seq<Obj>, objs: array<Entry>, q0: map<string, seq<Obj>>, dsts: seq<Obj>)
    returns (srcObjs: seq<Obj>, rest: seq<Obj>, free: set<Obj>)
    requires |dsts| <= objs.Length && Distinct(dsts) && Queued(q0, [], dsts)
    modifies objs
    ensures
      var b := BooksAfter(Opened(q0, dsts), srcs);
      && srcObjs == b.srcs && rest == b.rest && free == b.free
      && |b.dsts| <= objs.Length && objs[..] == Marked(b.dsts) + old(objs[..])[|b.dsts|..]
  {
    var q := q0;
    ghost var given: seq<Obj> := [];
    srcObjs, rest, free := [], [], set o | o in dsts;
    for i := 0 to |srcs|
      invariant Books(q, srcObjs, given, rest, free) == BooksAfter(Opened(q0, dsts), srcs[..i])
      invariant |given| <= objs.Length && objs[..] == Marked(given) + old(objs[..])[|given|..]
    {
      QueuesServe(q0, srcs, dsts, i);
      BooksSnoc(Opened(q0, dsts), srcs, i);
      var src := srcs[i];
      var storage := src.path.mount;
      if storage.None? {
        continue;
      }
      var mp := storage.value;
      if mp in q {
        var dst := q[mp][0];
        MarkedSnoc(given, dst);
        Overwrite(Marked(given), old(objs[..]), Known(dst));
        objs[|srcObjs|] := Known(dst);
        given := given + [dst];
        q := Dequeued(q, mp);
        srcObjs := srcObjs + [src];
        free := free - {dst};
      } else {
        rest := rest + [src];
      }
    }
    assert srcs[..|srcs|] == srcs;
  }

  lemma {:induction false} PairedFits(srcs: seq<Obj>, dsts: seq<Obj>)
    requires Distinct(dsts)
    ensures |Paired(srcs, dsts)| <= |dsts|
  {
    DstsDistinct(srcs, dsts);
    SameElems(Dsts(Paired(srcs, dsts)), dsts);
  }

  /** The last loop of `getMoveObjs`: the unpaired destinations are appended behind the paired
      ones (`front`) in the unspecified order of a Go map, again over the same backing array. */
  method PlaceRest(objs: array<Entry>, free: set<Obj>, ghost front: seq<Obj>, ghost was: seq<Entry>, k: nat)
    returns (ghost out: seq<Obj>)
    requires k == |front| && |was| == objs.Length && k + |free| <= |was|
    requires objs[..] == Marked(front) + was[k..]
    modifies objs
    ensures front <= out && |out| == k + |free|
    ensures multiset(out) == multiset(front) + multiset(free)
    ensures objs[..] == Marked(out) + was[|out|..]
  {
    out := front;
    var rest := free;
    var at := k;
    while rest != {}
      invariant rest <= free && at == |out| == k + |free| - |rest| && front <= out
      invariant multiset(out) + multiset(rest) == multiset(front) + multiset(free)
      invariant objs[..] == Marked(out) + was[at..]
      decreases rest
    {
      var dst :| dst in rest;
      MarkedSnoc(out, dst);
      MultisetPick(rest, dst);
      Overwrite(Marked(out), was, Known(dst));
      objs[at] := Known(dst);
      out := out + [dst];
      rest := rest - {dst};
      at := at + 1;
    }
  }

  // ----- getMoveObjs and Move

  /** The first checks of `getMoveObjs` in their order, and the accepted sources and destinations. */
  function Accepted(fs: FileSystem, check: bool, put: Policy, src: seq<Entry>, dst: seq<Entry>)
    : Result<(seq<Entry>, seq<Entry>), Error>
    requires src != [] && src[0].Known? && dst != [] && dst[0].Known?
  {
    var ds, ss := Selected(fs, check, put, dst), Selected(fs, check, All, src);
    if put.Disabled? then Err(PermissionDenied)
    else if ds.Err? then Err(ds.error)
    else if ss.Err? then Err(ss.error)
    else if |ss.value| < |ds.value| then Err(NotEnoughSrcObjs)
    else Ok((ss.value, ds.value))
  }

  lemma {:induction false} AcceptedDistinct(fs: FileSystem, check: bool, put: Policy, src: seq<Entry>, dst: seq<Entry>)
    requires src != [] && src[0].Known? && DistinctObjs(src)
    requires dst != [] && dst[0].Known? && DistinctObjs(dst)
    ensures
      var a := Accepted(fs, check, put, src, dst);
      a.Ok? ==> AllKnown(a.value.0) && AllKnown(a.value.1) && Distinct(ObjsOf(a.value.1))
  {
    SelectedDistinct(fs, check, put, dst);
    SelectedDistinct(fs, check, All, src);
  }

  /** What `getMoveObjs` works on: the accepted objects, or the first check that fails. */
  ghost function MoveInputs(fs: FileSystem, check: bool, put: Policy, src: seq<Entry>, dst: seq<Entry>)
    : Result<(seq<Obj>, seq<Obj>), Error>
    requires src != [] && src[0].Known? && DistinctObjs(src)
    requires dst != [] && dst[0].Known? && DistinctObjs(dst)
  {
    AcceptedDistinct(fs, check, put, src, dst);
    match Accepted(fs, check, put, src, dst)
    case Err(e) => Err(e)
    case Ok((ss, ds)) =>
      if exists o :: o in ObjsOf(ds) && !Resolves(o) then Err(VirtualPath) else Ok((ObjsOf(ss), ObjsOf(ds)))
  }

  lemma {:induction false} MoveInputsAre(fs: FileSystem, check: bool, put: Policy, src: seq<Entry>, dst: seq<Entry>)
    requires src != [] && src[0].Known? && DistinctObjs(src)
    requires dst != [] && dst[0].Known? && DistinctObjs(dst)
    ensures
      match Accepted(fs, check, put, src, dst)
      case Err(e) => MoveInputs(fs, check, put, src, dst) == Err(e)
      case Ok((ss, ds)) =>
        && AllKnown(ss) && AllKnown(ds) && Distinct(ObjsOf(ds))
        && MoveInputs(fs, check, put, src, dst) == (
             if exists o :: o in ObjsOf(ds) && !Resolves(o) then Err(VirtualPath) else Ok((ObjsOf(ss), ObjsOf(ds))))
  {
    AcceptedDistinct(fs, check, put, src, dst);
  }

  /** `out` lists all destinations, the paired ones first and in pairing order. */
  ghost predicate Allotted(srcs: seq<Obj>, dsts: seq<Obj>, out: seq<Obj>) {
    Dsts(Paired(srcs, dsts)) <= out && multiset(out) == multiset(dsts)
  }

  /** The second half of `getMoveObjs`: sources `srcs` against the first `n` entries of `objs`.
      The destinations handed back are what stands in the front of `objs` afterwards. */
  method AllotMove(srcs: seq<Obj>, objs: array<Entry>, n: nat) returns (r: Result<(seq<Obj>, seq<Obj>), Error>)
    requires n <= objs.Length && AllKnown(objs[..n]) && Distinct(ObjsOf(objs[..n]))
    modifies objs
    ensures
      var dsts := ObjsOf(old(objs[..n]));
      if exists o :: o in dsts && !Resolves(o) then r == Err(VirtualPath)
      else
        && r.Ok? && r.value.0 == Srcs(Paired(srcs, dsts)) + Spare(srcs, dsts)
        && Allotted(srcs, dsts, r.value.1) && |r.value.1| == n
        && objs[..] == Marked(r.value.1) + old(objs[..])[n..]
  {
    var dsts := ObjsOf(objs[..n]);
    var q := GroupByMount(dsts);
    if q.Err? {
      r := Err(q.error);
    } else {
      var srcObjs, rest, free := PairSources(srcs, objs, q.value, dsts);
      BooksBalance(q.value, srcs, dsts, |srcs|);
      assert srcs[..|srcs|] == srcs;
      FreeSize(srcs, dsts, free);
      ghost var out := PlaceRest(objs, free, Dsts(Paired(srcs, dsts)), old(objs[..]), |srcObjs|);
      assert objs[..n] == Marked(out);
      MarkedFront(out, objs[..]);
      r := Ok((srcObjs + rest, ObjsOf(objs[..n])));
    }
  }

  /** The first half of `getMoveObjs`; the result is the accepted sources and the number of
      destinations compacted to the front of `dstDir`. */
  method Accept(fs: FileSystem, check: bool, put: Policy, srcObj: array<Entry>, dstDir: array<Entry>)
    returns (r: Result<(seq<Entry>, nat), Error>)
    requires srcObj != dstDir
    requires srcObj.Length > 0 && srcObj[0].Known? && dstDir.Length > 0 && dstDir[0].Known?
    modifies srcObj, dstDir
    ensures
      match Accepted(fs, check, put, old(srcObj[..]), old(dstDir[..]))
      case Err(e) => r == Err(e)
      case Ok((ss, ds)) =>
        r == Ok((ss, |ds|)) && |ds| <= dstDir.Length && dstDir[..] == ds + old(dstDir[..])[|ds|..]
  {
    if put == Disabled {
      return Err(PermissionDenied);
    }
    var d := GetAllObjs(fs, check, put, dstDir);
    if d.Err? {
      return Err(d.error);
    }
    var s := GetAllObjs(fs, check, All, srcObj);
    if s.Err? {
      return Err(s.error);
    }
    if s.value < d.value {
      return Err(NotEnoughSrcObjs);
    }
    r := Ok((srcObj[..s.value], d.value));
  }

  /** `getMoveObjs`: the sources, and the destinations, which now stand at the front of `dstDir`
      as well; destination i is meant for source i. */
  method GetMoveObjs(fs: FileSystem, check: bool, put: Policy, srcObj: array<Entry>, dstDir: array<Entry>)
    returns (r: Result<(seq<Obj>, seq<Obj>), Error>)
    requires srcObj != dstDir
    requires srcObj.Length > 0 && srcObj[0].Known? && DistinctObjs(srcObj[..])
    requires dstDir.Length > 0 && dstDir[0].Known? && DistinctObjs(dstDir[..])
    modifies srcObj, dstDir
    ensures
      match MoveInputs(fs, check, put, old(srcObj[..]), old(dstDir[..]))
      case Err(e) => r == Err(e)
      case Ok((srcs, dsts)) =>
        && r.Ok? && r.value.0 == Srcs(Paired(srcs, dsts)) + Spare(srcs, dsts)
        && Allotted(srcs, dsts, r.value.1) && |dsts| == |r.value.1| <= dstDir.Length
        && dstDir[..] == Marked(r.value.1) + old(dstDir[..])[|dsts|..]
  {
    MoveInputsAre(fs, check, put, srcObj[..], dstDir[..]);
    var a := Accept(fs, check, put, srcObj, dstDir);
    if a.Err? {
      r := Err(a.error);
    } else {
      var (ss, n) := a.value;
      assert dstDir[..n] == Accepted(fs, check, put, old(srcObj[..]), old(dstDir[..])).value.1;
      r := AllotMove(ObjsOf(ss), dstDir, n);
    }
  }

  lemma {:induction false} FreeSize(srcs: seq<Obj>, dsts: seq<Obj>, free: set<Obj>)
    requires Distinct(dsts) && free == Elems(dsts) - Elems(Dsts(Paired(srcs, dsts)))
    ensures multiset(Dsts(Paired(srcs, dsts))) + multiset(free) == multiset(dsts)
    ensures |Paired(srcs, dsts)| + |free| == |dsts|
  {
    var given := Dsts(Paired(srcs, dsts));
    DstsDistinct(srcs, dsts);
    DistinctMultiset(dsts);
    DistinctMultiset(given);
    assert |multiset(given) + multiset(free)| == |given| + |free|;
  }

  lemma {:induction false} MarkedFront(out: seq<Obj>, es: seq<Entry>)
    requires |out| <= |es| && es[..|out|] == Marked(out)
    ensures AllKnown(es[..|out|]) && ObjsOf(es[..|out|]) == out
  {
  }

  datatype Effect = Moved(src: Obj, dst: Obj) | Removed(src: Obj)

  datatype End = Rejected(error: Error) | Crashed | Finished

  /** The calls into the file system for given sources and destinations: one move per
      destination as far as the sources reach, then one removal per source left over. */
  function MoveLog(srcs: seq<Obj>, dsts: seq<Obj>): (log: seq<Effect>)
    ensures |log| == |srcs|
    ensures forall i :: 0 <= i < |srcs| ==>
      log[i] == if i < |dsts| then Moved(srcs[i], dsts[i]) else Removed(srcs[i])
  {
    if srcs == [] then []
    else
      var n := |srcs| - 1;
      MoveLog(srcs[..n], dsts) + [if n < |dsts| then Moved(srcs[n], dsts[n]) else Removed(srcs[n])]
  }

  /** How often each source is moved or removed. */
  function Used(log: seq<Effect>): multiset<Obj> {
    if log == [] then multiset{} else Used(log[..|log| - 1]) + multiset{log[|log| - 1].src}
  }

  /** The destinations moved to, in order. */
  function Targets(log: seq<Effect>): seq<Obj> {
    if log == [] then []
    else
      var n := |log| - 1;
      Targets(log[..n]) + if log[n].Moved? then [log[n].dst] else []
  }

  /** `Move`: Go's index panic in `srcs[i]` is the end `Crashed`. */
  method Move(fs: FileSystem, check: bool, put: Policy, srcObj: array<Entry>, dstDir: array<Entry>)
    returns (log: seq<Effect>, end: End)
    requires srcObj != dstDir
    requires srcObj.Length > 0 && srcObj[0].Known? && DistinctObjs(srcObj[..])
    requires dstDir.Length > 0 && dstDir[0].Known? && DistinctObjs(dstDir[..])
    modifies srcObj, dstDir
    ensures
      match MoveInputs(fs, check, put, old(srcObj[..]), old(dstDir[..]))
      case Err(e) => log == [] && end == Rejected(e)
      case Ok((srcs, dsts)) =>
        && |dsts| <= dstDir.Length && AllKnown(dstDir[..|dsts|])
        && var out := ObjsOf(dstDir[..|dsts|]);
        && Allotted(srcs, dsts, out)
        && log == MoveLog(Srcs(Paired(srcs, dsts)) + Spare(srcs, dsts), out)
        && end == if |Resolved(srcs)| < |dsts| then Crashed else Finished
  {
    var r := GetMoveObjs(fs, check, put, srcObj, dstDir);
    if r.Err? {
      return [], Rejected(r.error);
    }
    var (srcs, dsts) := r.value;
    ghost var inputs := MoveInputs(fs, check, put, old(srcObj[..]), old(dstDir[..])).value;
    PlanSize(inputs.0, inputs.1);
    assert dstDir[..|dsts|] == Marked(dsts);
    MarkedFront(dsts, dstDir[..]);
    log, end := Execute(srcs, dsts);
  }

  lemma {:induction false} MultisetLength(a: seq<Obj>, b: seq<Obj>, c: seq<Obj>)
    requires multiset(a) + multiset(b) == multiset(c)
    ensures |a| + |b| == |c|
  {
    assert |multiset(a) + multiset(b)| == |a| + |b|;
    assert |multiset(c)| == |c|;
  }

  /** The two effect loops of `Move`. */
  method Execute(srcs: seq<Obj>, dsts: seq<Obj>) returns (log: seq<Effect>, end: End)
    ensures log == MoveLog(srcs, dsts)
    ensures end == if |srcs| < |dsts| then Crashed else Finished
  {
    log := [];
    for i := 0 to |dsts|
      invariant i <= |srcs| && |log| == i
      invariant forall k :: 0 <= k < i ==> log[k] == Moved(srcs[k], dsts[k])
    {
      if i >= |srcs| {
        return log, Crashed;
      }
      log := log + [Moved(srcs[i], dsts[i])];
    }
    for i := |dsts| to |srcs|
      invariant |log| == i
      invariant forall k :: 0 <= k < i ==> log[k] == if k < |dsts| then Moved(srcs[k], dsts[k]) else Removed(srcs[k])
    {
      log := log + [Removed(srcs[i])];
    }
    end := Finished;
  }

  lemma {:induction false} LogTargets(srcs: seq<Obj>, dsts: seq<Obj>)
    ensures Targets(MoveLog(srcs, dsts)) == if |dsts| <= |srcs| then dsts else dsts[..|srcs|]
  {
    if srcs != [] {
      var n := |srcs| - 1;
      LogTargets(srcs[..n], dsts);
      var log := MoveLog(srcs, dsts);
      assert log[..n] == MoveLog(srcs[..n], dsts);
      if n < |dsts| {
        assert dsts[..n + 1] == dsts[..n] + [dsts[n]];
        assert dsts[..|dsts|] == dsts;
      }
    }
  }

  /** The moves the pairing chose. */
  ghost predicate OpensWith(log: seq<Effect>, ps: seq<Pair>) {
    |ps| <= |log| && forall i :: 0 <= i < |ps| ==> log[i] == Moved(ps[i].src, ps[i].dst)
  }

  lemma {:induction false} MoveOpensWith(srcs: seq<Obj>, dsts: seq<Obj>, out: seq<Obj>)
    requires Dsts(Paired(srcs, dsts)) <= out
    ensures OpensWith(MoveLog(Srcs(Paired(srcs, dsts)) + Spare(srcs, dsts), out), Paired(srcs, dsts))
  {
    var ps := Paired(srcs, dsts);
    forall i | 0 <= i < |ps|
      ensures out[i] == ps[i].dst
    {
      assert Dsts(ps)[i] == out[i];
    }
  }

  lemma {:induction false} PlanSize(srcs: seq<Obj>, dsts: seq<Obj>)
    ensures
      var all := Srcs(Paired(srcs, dsts)) + Spare(srcs, dsts);
      multiset(all) == multiset(Resolved(srcs)) && |all| == |Resolved(srcs)|
  {
    Accounting(srcs, dsts);
    MultisetLength(Srcs(Paired(srcs, dsts)), Spare(srcs, dsts), Resolved(srcs));
  }

  lemma {:induction false} LogUses(srcs: seq<Obj>, dsts: seq<Obj>)
    ensures Used(MoveLog(srcs, dsts)) == multiset(srcs)
  {
    if srcs != [] {
      var n := |srcs| - 1;
      LogUses(srcs[..n], dsts);
      assert MoveLog(srcs, dsts)[..n] == MoveLog(srcs[..n], dsts);
      assert srcs == srcs[..n] + [srcs[n]];
    }
  }

  lemma {:induction false} MoveReaches(all: seq<Obj>, dsts: seq<Obj>, out: seq<Obj>)
    requires multiset(out) == multiset(dsts) && |all| >= |dsts|
    ensures Used(MoveLog(all, out)) == multiset(all) && Targets(MoveLog(all, out)) == out
  {
    assert |multiset(out)| == |multiset(dsts)|;
    LogTargets(all, out);
    LogUses(all, out);
  }

  /** A finished move: every destination receives exactly one source, every resolvable source is
      moved or removed exactly once and no other, and the log opens with the moves of the pairing,
      which stay on their mount; no assignment has more of these. */
  lemma {:induction false} MoveConserves(srcs: seq<Obj>, dsts: seq<Obj>, out: seq<Obj>, ms: set<Pair>)
    requires Allotted(srcs, dsts, out) && |Resolved(srcs)| >= |dsts|
    requires SameMountMatching(srcs, dsts, ms)
    ensures
      var log := MoveLog(Srcs(Paired(srcs, dsts)) + Spare(srcs, dsts), out);
      && Used(log) == multiset(Resolved(srcs))
      && multiset(Targets(log)) == multiset(dsts)
      && OpensWith(log, Paired(srcs, dsts))
      && |ms| <= |Paired(srcs, dsts)|
  {
    PlanSize(srcs, dsts);
    MoveReaches(Srcs(Paired(srcs, dsts)) + Spare(srcs, dsts), dsts, out);
    MoveOpensWith(srcs, dsts, out);
    PairingIsMaximum(srcs, dsts, ms);
  }

  lemma {:induction false} ResolvedMember(srcs: seq<Obj>, o: Obj)
    ensures o in Resolved(srcs) <==> o in srcs && Resolves(o)
  {
    if srcs != [] {
      var n := |srcs| - 1;
      ResolvedMember(srcs[..n], o);
      assert srcs == srcs[..n] + [srcs[n]];
    }
  }

  lemma {:induction false} ResolvedAll(srcs: seq<Obj>)
    requires forall i :: 0 <= i < |srcs| ==> Resolves(srcs[i])
    ensures Resolved(srcs) == srcs
  {
    if srcs != [] {
      var n := |srcs| - 1;
      ResolvedAll(srcs[..n]);
      assert srcs == srcs[..n] + [srcs[n]];
    }
  }

  /** No source is left behind exactly when all of them resolve. */
  lemma {:induction false} NothingLost(srcs: seq<Obj>)
    ensures multiset(Resolved(srcs)) == multiset(srcs) <==> forall o :: o in srcs ==> Resolves(o)
  {
    if multiset(Resolved(srcs)) == multiset(srcs) {
      forall o | o in srcs
        ensures Resolves(o)
      {
        assert o in multiset(srcs);
        ResolvedMember(srcs, o);
      }
    }
    if forall o :: o in srcs ==> Resolves(o) {
      assert forall i :: 0 <= i < |srcs| ==> srcs[i] in srcs;
      ResolvedAll(srcs);
    }
  }

  /** The source's remark that the spare sources cover the unpaired destinations holds exactly
      when enough sources resolve; `getMoveObjs` itself only compares the numbers of candidates. */
  lemma {:induction false} RemarkHoldsIff(srcs: seq<Obj>, dsts: seq<Obj>)
    requires Distinct(dsts)
    ensures |Spare(srcs, dsts)| >= |dsts| - |Paired(srcs, dsts)| <==> |Resolved(srcs)| >= |dsts|
  {
    Accounting(srcs, dsts);
    MultisetLength(Srcs(Paired(srcs, dsts)), Spare(srcs, dsts), Resolved(srcs));
  }

  const STRAY := Obj(0, Path("/virtual/a", None), NO_ATTR)
  const TARGET := Obj(1, Path("/disk/b", Some("/disk")), NO_ATTR)

  lemma {:induction false} OneSelected(fs: FileSystem, check: bool, o: Obj)
    ensures Selected(fs, check, All, [Known(o)]) == Ok([Known(o)])
  {
    var cs := Judged(fs, check, o.attr, [Known(o)]);
    assert cs[0] == Cand(Known(o), None) && cs[..0] == [];
    var s := Swept(All, cs[..0]);
    assert s == Sweep([], FRESH, true, None);
    SweptSnoc(All, cs, 0);
    assert cs[..1] == cs && s.kept + [Known(o)] == [Known(o)];
  }

  /** One source on no storage and one destination: accepted, and yet the remark fails. */
  lemma {:induction false} RemarkFails()
    ensures MoveInputs(map[], false, All, [Known(STRAY)], [Known(TARGET)]) == Ok(([STRAY], [TARGET]))
    ensures |Spare([STRAY], [TARGET])| < |[TARGET]| - |Paired([STRAY], [TARGET])|
    ensures Resolved([STRAY]) == []
  {
    OneSelected(map[], false, STRAY);
    OneSelected(map[], false, TARGET);
    assert [STRAY][..0] == [];
    assert ObjsOf([Known(STRAY)]) == [STRAY] && ObjsOf([Known(TARGET)]) == [TARGET];
  }

  /** So this move crashes before it has done anything. */
  method MoveCrashes() returns (log: seq<Effect>, end: End)
    ensures log == [] && end == Crashed
  {
    var srcObj, dstDir := new Entry[1] [Known(STRAY)], new Entry[1] [Known(TARGET)];
    assert srcObj[..] == [Known(STRAY)] && dstDir[..] == [Known(TARGET)];
    RemarkFails();
    log, end := Move(map[], false, All, srcObj, dstDir);
    PlanSize([STRAY], [TARGET]);
  }
}
