/** The alias driver's conflict policies: the stateful filter closure, the in-place
    compaction of a candidate list, and the compressed list that `Get` hands out. */
module AliasPolicy {
  import opened Common

  // ----- Objects and candidate lists

  /** Attributes of a stored object that the driver looks at. */
  datatype Attr = Attr(isDir: bool, size: int, hash: map<string, string>)

  /** A path and the mount path of the storage it lies on; None when `fs.GetStorage` fails. */
  datatype Path = Path(text: string, mount: Option<string>)

  /** A backend object. `ident` stands for the identity of the Go object. */
  datatype Obj = Obj(ident: nat, path: Path, attr: Attr)

  /** One slot of a candidate list: Go's `nil`, an already fetched object, or a `tempObj`
      that still has to be looked up. */
  datatype Entry = Missing | Known(obj: Obj) | Untested(obj: Obj)

  datatype Error =
    | ObjectNotFound | NotFile | NotFolder | Unreachable
    | SamePathLeak | PathConflict
    | PermissionDenied | NotEnoughSrcObjs | VirtualPath | NoEnoughSpace

  datatype Policy =
    | Disabled | First | Deterministic | DeterministicOrAll | All | AllStrict
    | RandomBalanced | ByQuota | ByQuotaStrict

  /** The paths for which a lookup succeeds, and what it finds there. */
  type FileSystem = map<Path, Attr>

  const NO_ATTR := Attr(false, 0, map[])

  predicate IsConsistent(a: Attr, b: Attr) {
    && a.size == b.size
    && forall t :: t in a.hash && t in b.hash && b.hash[t] != "" ==> b.hash[t] == a.hash[t]
  }

  /** The error with which a candidate enters the filter; None for a valid one. */
  function Verdict(fs: FileSystem, check: bool, lead: Attr, e: Entry): Option<Error> {
    match e
    case Missing => Some(ObjectNotFound)
    case Known(_) => None
    case Untested(o) =>
      if o.path !in fs then Some(Unreachable)
      else if lead.isDir then (if fs[o.path].isDir then None else Some(NotFolder))
      else if fs[o.path].isDir then Some(NotFile)
      else if check && !IsConsistent(lead, fs[o.path]) then Some(ObjectNotFound)
      else None
  }

  /** A candidate together with its verdict. */
  datatype Cand = Cand(entry: Entry, err: Option<Error>)

  function Judged(fs: FileSystem, check: bool, lead: Attr, es: seq<Entry>): (cs: seq<Cand>)
    ensures |cs| == |es|
    ensures forall i :: 0 <= i < |es| ==> cs[i] == Cand(es[i], Verdict(fs, check, lead, es[i]))
  {
    if es == [] then []
    else [Cand(es[0], Verdict(fs, check, lead, es[0]))] + Judged(fs, check, lead, es[1..])
  }

  // ----- The filter automaton

  datatype Memory = Memory(all: bool, l: nat)

  /** One call of the filter: the new memory, whether to go on, and the error handed back. */
  datatype Reply = Reply(memory: Memory, cont: bool, err: Option<Error>)

  const FRESH := Memory(true, 0)

  function React(p: Policy, m: Memory, err: Option<Error>): Reply {
    if p.All? then Reply(m, true, err)
    else if err.Some? then
      if p.AllStrict? || (p.DeterministicOrAll? && m.l >= 2) then Reply(m, false, Some(SamePathLeak))
      else Reply(m.(all := false), true, err)
    else if p.First? then Reply(m, false, None)
    else if p.Deterministic? && m.l > 0 then Reply(m, false, Some(PathConflict))
    else if p.DeterministicOrAll? && m.l > 0 && !m.all then Reply(m, false, Some(SamePathLeak))
    else Reply(m.(l := m.l + 1), true, None)
  }

  /** The closure returned by `getWriteAndPutFilterFunc`, with its two captured variables. */
  class Filter {
    const policy: Policy
    var all: bool
    var l: nat

    ghost function State(): Memory reads this { Memory(all, l) }

    constructor (p: Policy)
      ensures policy == p && State() == FRESH
    {
      policy, all, l := p, true, 0;
    }

    method Call(err: Option<Error>) returns (cont: bool, out: Option<Error>)
      modifies this
      ensures Reply(State(), cont, out) == React(policy, old(State()), err)
    {
      if policy == All {
        return true, err;
      }
      if err.Some? {
        match policy {
          case AllStrict => return false, Some(SamePathLeak);
          case DeterministicOrAll =>
            if l >= 2 {
              return false, Some(SamePathLeak);
            }
          case _ =>
        }
        all := false;
      } else {
        match policy {
          case First => return false, None;
          case Deterministic =>
            if l > 0 {
              return false, Some(PathConflict);
            }
          case DeterministicOrAll =>
            if l > 0 && !all {
              return false, Some(SamePathLeak);
            }
          case _ =>
        }
        l := l + 1;
      }
      return true, err;
    }
  }

  // ----- Running the filter over a list

  /** The accepted form of a candidate: a `tempObj` becomes its plain object. */
  function Settled(e: Entry): Entry {
    match e
    case Untested(o) => Known(o)
    case _ => e
  }

  /** Where the walk over a list stands: the entries accepted so far, the memory of the filter,
      whether it goes on, and the error that cut it short. */
  datatype Sweep = Sweep(kept: seq<Entry>, memory: Memory, cont: bool, failure: Option<Error>)

  function Absorbed(p: Policy, s: Sweep, c: Cand): Sweep {
    var r := React(p, s.memory, c.err);
    if r.err.Some? then Sweep(s.kept, r.memory, r.cont, if r.cont then None else r.err)
    else Sweep(s.kept + [Settled(c.entry)], r.memory, r.cont, None)
  }

  function Swept(p: Policy, cs: seq<Cand>): (s: Sweep)
    ensures |s.kept| <= |cs|
  {
    if cs == [] then Sweep([], FRESH, true, None)
    else
      var s := Swept(p, cs[..|cs| - 1]);
      if s.cont then Absorbed(p, s, cs[|cs| - 1]) else s
  }

  function Outcome(s: Sweep): Result<seq<Entry>, Error> {
    if s.failure.Some? then Err(s.failure.value)
    else if s.kept == [] then Err(ObjectNotFound)
    else Ok(s.kept)
  }

  /** The result `getAllObjs` promises for a list of candidates. */
  function Selected(fs: FileSystem, check: bool, p: Policy, es: seq<Entry>): Result<seq<Entry>, Error>
    requires es != [] && es[0].Known?
  {
    Outcome(Swept(p, Judged(fs, check, es[0].obj.attr, es)))
  }

  lemma {:induction false} SweptSnoc(p: Policy, cs: seq<Cand>, i: nat)
    requires i < |cs|
    ensures
      var s := Swept(p, cs[..i]);
      Swept(p, cs[..i + 1]) == if s.cont then Absorbed(p, s, cs[i]) else s
  {
    assert cs[..i + 1][..i] == cs[..i];
  }

  lemma {:induction false} StoppedStays(p: Policy, cs: seq<Cand>, i: nat, j: nat)
    requires i <= j <= |cs| && !Swept(p, cs[..i]).cont
    ensures Swept(p, cs[..j]) == Swept(p, cs[..i])
  {
    if i < j {
      StoppedStays(p, cs, i, j - 1);
      SweptSnoc(p, cs, j - 1);
    }
  }

  /** A valid leading candidate is accepted by every policy and stays in front. */
  lemma {:induction false} LeadStays(p: Policy, cs: seq<Cand>, i: nat)
    requires 0 < i <= |cs| && cs[0].err.None?
    ensures
      var kept := Swept(p, cs[..i]).kept;
      kept != [] && kept[0] == Settled(cs[0].entry)
  {
    SweptSnoc(p, cs, i - 1);
    if i == 1 {
      assert cs[..0] == [];
    } else {
      LeadStays(p, cs, i - 1);
    }
  }

  /** The list `now` has the accepted entries compacted to its front and is otherwise as it was. */
  ghost predicate Compacted(now: seq<Entry>, kept: seq<Entry>, was: seq<Entry>) {
    |kept| <= |was| && now == kept + was[|kept|..]
  }

  /** One turn of the loop of `getAllObjs`: asks the filter about candidate `i` and, if it is
      accepted, writes it right behind the `length` entries accepted before. */
  method Offer(filter: Filter, objs: array<Entry>, i: nat, length: nat, err: Option<Error>,
               ghost s: Sweep, ghost was: seq<Entry>)
    returns (length': nat, cont: bool, failure: Option<Error>)
    requires length <= i < objs.Length && length == |s.kept| && filter.State() == s.memory
    requires Compacted(objs[..], s.kept, was)
    modifies filter, objs
    ensures
      var s' := Absorbed(filter.policy, s, Cand(old(objs[i]), err));
      && Sweep(s'.kept, filter.State(), cont, failure) == s'
      && length' == |s'.kept| && Compacted(objs[..], s'.kept, was)
  {
    var o := objs[i];
    var out;
    cont, out := filter.Call(err);
    if out.Some? {
      return length, cont, if cont then None else out;
    }
    failure := None;
    Overwrite(s.kept, was, Settled(o));
    objs[length] := Settled(o);
    length' := length + 1;
  }

  /** The candidate read in turn `i`, and the leading one, are still the original ones. */
  lemma {:induction false} NotYetOverwritten(p: Policy, cs: seq<Cand>, was: seq<Entry>, now: seq<Entry>, i: nat)
    requires i < |was| == |cs| && cs[0] == Cand(was[0], None) && was[0].Known?
    requires Compacted(now, Swept(p, cs[..i]).kept, was)
    ensures now[i] == was[i] && now[0] == was[0]
  {
    if i > 0 {
      LeadStays(p, cs, i);
    }
  }

  /** The loop of `getAllObjs`: the accepted entries are compacted to the front of the very
      array that is being iterated, and what lies behind them is left as it was. */
  method Compact(fs: FileSystem, check: bool, p: Policy, objs: array<Entry>)
    returns (length: nat, failure: Option<Error>)
    requires objs.Length > 0 && objs[0].Known?
    modifies objs
    ensures
      var was := old(objs[..]);
      var s := Swept(p, Judged(fs, check, was[0].obj.attr, was));
      length == |s.kept| && failure == s.failure && Compacted(objs[..], s.kept, was)
  {
    ghost var was := objs[..];
    ghost var cs := Judged(fs, check, was[0].obj.attr, was);
    ghost var s := Swept(p, cs[..0]);
    var filter := new Filter(p);
    var i, cont := 0, true;
    length, failure := 0, None;
    while cont && i < objs.Length
      invariant 0 <= i <= |cs| && s == Swept(p, cs[..i]) && length == |s.kept|
      invariant fresh(filter) && filter.policy == p && s == Sweep(s.kept, filter.State(), cont, failure)
      invariant Compacted(objs[..], s.kept, was)
    {
      SweptSnoc(p, cs, i);
      NotYetOverwritten(p, cs, was, objs[..], i);
      length, cont, failure := Offer(filter, objs, i, length, Verdict(fs, check, objs[0].obj.attr, objs[i]), s, was);
      s := Absorbed(p, s, cs[i]);
      i := i + 1;
    }
    if !cont {
      StoppedStays(p, cs, i, |cs|);
    }
    assert cs[..|cs|] == cs;
  }

  /** `getAllObjs`: either the error of the policy, or the compacted length. */
  method GetAllObjs(fs: FileSystem, check: bool, p: Policy, objs: array<Entry>)
    returns (r: Result<nat, Error>)
    requires objs.Length > 0 && objs[0].Known?
    modifies objs
    ensures
      var was := old(objs[..]);
      match Selected(fs, check, p, was)
      case Ok(kept) => r == Ok(|kept|) && |kept| <= |was| && objs[..] == kept + was[|kept|..]
      case Err(e) => r == Err(e)
  {
    var length, failure := Compact(fs, check, p, objs);
    if failure.Some? {
      return Err(failure.value);
    }
    r := if length == 0 then Err(ObjectNotFound) else Ok(length);
  }

  // ----- What each policy promises, without reference to the automaton

  /** The valid candidates, in order. */
  function Passing(cs: seq<Cand>): (ok: seq<Entry>)
    ensures |ok| <= |cs|
  {
    if cs == [] then []
    else
      var n := |cs| - 1;
      if cs[n].err.None? then Passing(cs[..n]) + [Settled(cs[n].entry)] else Passing(cs[..n])
  }

  ghost predicate AllPass(cs: seq<Cand>) {
    forall i :: 0 <= i < |cs| ==> cs[i].err.None?
  }

  ghost predicate NonePass(cs: seq<Cand>) {
    forall i :: 0 <= i < |cs| ==> cs[i].err.Some?
  }

  ghost function Promised(p: Policy, cs: seq<Cand>): Result<seq<Entry>, Error> {
    var ok := Passing(cs);
    if p.AllStrict? && !AllPass(cs) then Err(SamePathLeak)
    else if ok == [] then Err(ObjectNotFound)
    else if p.First? then Ok(ok[..1])
    else if p.Deterministic? && |ok| > 1 then Err(PathConflict)
    else if p.DeterministicOrAll? && |ok| > 1 && !AllPass(cs) then Err(SamePathLeak)
    else Ok(ok)
  }

  /** What the automaton has in mind as long as it goes on, and why it stops. */
  ghost predicate MeetsPromise(p: Policy, s: Sweep, cs: seq<Cand>) {
    var ok := Passing(cs);
    if s.cont then
      && s.kept == ok && s.failure.None?
      && s.memory == (if p.All? then FRESH else Memory(AllPass(cs), |ok|))
      && (p.First? ==> ok == [])
      && (p.AllStrict? ==> AllPass(cs))
      && (p.Deterministic? ==> |ok| <= 1)
      && (p.DeterministicOrAll? && |ok| > 1 ==> AllPass(cs))
    else match p
      case First => s.failure.None? && ok != [] && s.kept == ok[..1]
      case AllStrict => s.failure == Some(SamePathLeak) && !AllPass(cs)
      case Deterministic => s.failure == Some(PathConflict) && |ok| > 1
      case DeterministicOrAll => s.failure == Some(SamePathLeak) && |ok| > 1 && !AllPass(cs)
      case _ => false
  }

  lemma {:induction false} PassingSnoc(cs: seq<Cand>, c: Cand)
    ensures Passing(cs + [c]) == if c.err.None? then Passing(cs) + [Settled(c.entry)] else Passing(cs)
  {
    assert (cs + [c])[..|cs|] == cs;
  }

  lemma {:induction false} AllPassSnoc(cs: seq<Cand>, c: Cand)
    ensures AllPass(cs + [c]) <==> AllPass(cs) && c.err.None?
  {
    assert forall i :: 0 <= i < |cs| ==> (cs + [c])[i] == cs[i];
    assert (cs + [c])[|cs|] == c;
  }

  lemma {:induction false} MeetsPromiseSnoc(p: Policy, s: Sweep, cs: seq<Cand>, c: Cand)
    requires MeetsPromise(p, s, cs)
    ensures MeetsPromise(p, if s.cont then Absorbed(p, s, c) else s, cs + [c])
  {
    PassingSnoc(cs, c);
    AllPassSnoc(cs, c);
    if !s.cont && p.First? && c.err.None? {
      assert (Passing(cs) + [Settled(c.entry)])[..1] == Passing(cs)[..1];
    }
  }

  lemma {:induction false} SweepMeetsPromise(p: Policy, cs: seq<Cand>)
    ensures MeetsPromise(p, Swept(p, cs), cs)
  {
    if cs != [] {
      var n := |cs| - 1;
      SweepMeetsPromise(p, cs[..n]);
      MeetsPromiseSnoc(p, Swept(p, cs[..n]), cs[..n], cs[n]);
      assert cs == cs[..n] + [cs[n]];
    }
  }

  /** Every policy, run over any candidates from a fresh filter, ends exactly as promised. */
  lemma {:induction false} PolicyOutcome(p: Policy, cs: seq<Cand>)
    ensures Outcome(Swept(p, cs)) == Promised(p, cs)
  {
    SweepMeetsPromise(p, cs);
  }

  // ----- The compressed list handed out by `Get`

  /** The first configured root that exists, counting from `i`. */
  function FirstHit(fs: FileSystem, paths: seq<Path>, i: nat := 0): (k: nat)
    requires i <= |paths|
    ensures i <= k <= |paths|
    ensures forall j :: i <= j < k ==> paths[j] !in fs
    ensures k < |paths| ==> paths[k] in fs
    decreases |paths| - i
  {
    if i == |paths| || paths[i] in fs then i else FirstHit(fs, paths, i + 1)
  }

  function Probe(paths: seq<Path>, i: nat): Entry
    requires i < |paths|
  {
    Untested(Obj(i, paths[i], NO_ATTR))
  }

  function Hit(fs: FileSystem, paths: seq<Path>, k: nat): Entry
    requires k < |paths| && paths[k] in fs
  {
    Known(Obj(k, paths[k], fs[paths[k]]))
  }

  /** The roots from `k` on that have not been looked at. */
  function Probes(paths: seq<Path>, k: nat): (es: seq<Entry>)
    requires k <= |paths|
    ensures |es| == |paths| - k
  {
    seq(|paths| - k, i requires 0 <= i < |paths| - k => Probe(paths, k + i))
  }

  /** The whole configured root list, with the first hit `k` filled in. */
  function FullList(fs: FileSystem, paths: seq<Path>, k: nat): seq<Entry>
    requires k < |paths| && paths[k] in fs
  {
    Probes(paths, 0)[..k] + [Hit(fs, paths, k)] + Probes(paths, k + 1)
  }

  /** The list of `Get`: the first hit, one `nil` for all earlier misses, the later roots. */
  function Compressed(fs: FileSystem, paths: seq<Path>, k: nat): seq<Entry>
    requires k < |paths| && paths[k] in fs
  {
    [Hit(fs, paths, k)] + (if k > 0 then [Missing] else []) + Probes(paths, k + 1)
  }

  /** Appends the roots from `k` on to the list of `Get`, as not yet looked at. */
  method FillProbes(paths: seq<Path>, k: nat, objs: array<Entry>, at: nat)
    requires k <= |paths| && at + |paths| - k == objs.Length
    modifies objs
    ensures objs[..] == old(objs[..at]) + Probes(paths, k)
  {
    for j := k to |paths|
      invariant forall i :: 0 <= i < at ==> objs[i] == old(objs[i])
      invariant forall i :: at <= i < at + j - k ==> objs[i] == Probe(paths, k + i - at)
    {
      objs[at + j - k] := Untested(Obj(j, paths[j], NO_ATTR));
    }
  }

  /** `Get`, for the joined paths of all roots of the requested object. */
  method Get(fs: FileSystem, paths: seq<Path>) returns (r: Result<array<Entry>, Error>)
    ensures
      var k := FirstHit(fs, paths);
      if k == |paths| then r == Err(ObjectNotFound)
      else r.Ok? && fresh(r.value) && r.value[..] == Compressed(fs, paths, k)
  {
    for idx := 0 to |paths|
      invariant FirstHit(fs, paths) == FirstHit(fs, paths, idx)
    {
      if paths[idx] !in fs {
        continue;
      }
      var at := if idx > 0 then 2 else 1;
      var objs := new Entry[at + (|paths| - idx - 1)](_ => Missing);
      objs[0] := Known(Obj(idx, paths[idx], fs[paths[idx]]));
      assert objs[..at] == [Hit(fs, paths, idx)] + if idx > 0 then [Missing] else [];
      FillProbes(paths, idx + 1, objs, at);
      return Ok(objs);
    }
    r := Err(ObjectNotFound);
  }

  lemma {:induction false} PassingConcat(cs: seq<Cand>, cs': seq<Cand>)
    ensures Passing(cs + cs') == Passing(cs) + Passing(cs')
  {
    if cs' == [] {
      assert cs + cs' == cs;
    } else {
      var n := |cs'| - 1;
      PassingConcat(cs, cs'[..n]);
      PassingConcatSnoc(cs, cs'[..n], cs'[n]);
      assert cs' == cs'[..n] + [cs'[n]];
    }
  }

  lemma {:induction false} PassingConcatSnoc(cs: seq<Cand>, cs': seq<Cand>, c: Cand)
    requires Passing(cs + cs') == Passing(cs) + Passing(cs')
    ensures Passing(cs + (cs' + [c])) == Passing(cs) + Passing(cs' + [c])
  {
    Assoc(cs, cs', [c]);
    PassingSnoc(cs + cs', c);
    PassingSnoc(cs', c);
    Assoc(Passing(cs), Passing(cs'), [Settled(c.entry)]);
  }

  lemma {:induction false} AllPassConcat(cs: seq<Cand>, cs': seq<Cand>)
    ensures AllPass(cs + cs') <==> AllPass(cs) && AllPass(cs')
  {
    assert forall i :: 0 <= i < |cs| ==> (cs + cs')[i] == cs[i];
    assert forall i :: 0 <= i < |cs'| ==> (cs + cs')[|cs| + i] == cs'[i];
  }

  lemma {:induction false} NonePassing(cs: seq<Cand>)
    requires NonePass(cs)
    ensures Passing(cs) == []
    ensures AllPass(cs) <==> cs == []
  {
    if cs != [] {
      NonePassing(cs[..|cs| - 1]);
      assert cs[0].err.Some?;
    }
  }

  lemma {:induction false} JudgedConcat(fs: FileSystem, check: bool, lead: Attr, es: seq<Entry>, es': seq<Entry>)
    ensures Judged(fs, check, lead, es + es') == Judged(fs, check, lead, es) + Judged(fs, check, lead, es')
  {
    var a, b, c := Judged(fs, check, lead, es + es'), Judged(fs, check, lead, es), Judged(fs, check, lead, es');
    forall i | 0 <= i < |a| ensures a[i] == (b + c)[i] {
      if i < |es| {
        assert (b + c)[i] == b[i] && (es + es')[i] == es[i];
      } else {
        assert (b + c)[i] == c[i - |es|] && (es + es')[i] == es'[i - |es|];
      }
    }
    SameSeq(a, b + c);
  }

  /** Candidates that all fail may stand before or behind a hit, and only whether there are
      any of them matters. */
  lemma {:induction false} MissesMove(p: Policy, before: seq<Cand>, hit: seq<Cand>, between: seq<Cand>, rest: seq<Cand>)
    requires NonePass(before) && NonePass(between)
    requires before == [] <==> between == []
    ensures Promised(p, before + hit + rest) == Promised(p, hit + between + rest)
  {
    NonePassing(before);
    NonePassing(between);
    PassingConcat(before + hit, rest);
    PassingConcat(before, hit);
    PassingConcat(hit + between, rest);
    PassingConcat(hit, between);
    AllPassConcat(before + hit, rest);
    AllPassConcat(before, hit);
    AllPassConcat(hit + between, rest);
    AllPassConcat(hit, between);
    assert [] + Passing(hit) == Passing(hit) == Passing(hit) + [];
  }

  /** For every policy and every pattern of existing roots, `Get` followed by `getAllObjs` accepts,
      rejects and returns what the policy promises for the full configured root list. */
  lemma {:induction false} CompressionFaithful(fs: FileSystem, check: bool, p: Policy, paths: seq<Path>)
    requires FirstHit(fs, paths) < |paths|
    ensures
      var k := FirstHit(fs, paths);
      Selected(fs, check, p, Compressed(fs, paths, k))
        == Promised(p, Judged(fs, check, fs[paths[k]], FullList(fs, paths, k)))
  {
    var k := FirstHit(fs, paths);
    var lead := fs[paths[k]];
    var hit, before, rest := [Hit(fs, paths, k)], Probes(paths, 0)[..k], Probes(paths, k + 1);
    var between: seq<Entry> := if k > 0 then [Missing] else [];
    ProbesMiss(fs, check, lead, paths, k);
    Regroup(fs, check, lead, p, before, hit, between, rest);
  }

  lemma {:induction false} Regroup(fs: FileSystem, check: bool, lead: Attr, p: Policy,
                before: seq<Entry>, hit: seq<Entry>, between: seq<Entry>, rest: seq<Entry>)
    requires NonePass(Judged(fs, check, lead, before)) && NonePass(Judged(fs, check, lead, between))
    requires before == [] <==> between == []
    ensures Outcome(Swept(p, Judged(fs, check, lead, hit + between + rest)))
         == Promised(p, Judged(fs, check, lead, before + hit + rest))
  {
    JudgedConcat(fs, check, lead, before + hit, rest);
    JudgedConcat(fs, check, lead, before, hit);
    JudgedConcat(fs, check, lead, hit + between, rest);
    JudgedConcat(fs, check, lead, hit, between);
    MissesMove(p, Judged(fs, check, lead, before), Judged(fs, check, lead, hit),
               Judged(fs, check, lead, between), Judged(fs, check, lead, rest));
    PolicyOutcome(p, Judged(fs, check, lead, hit + between + rest));
  }

  /** The roots before the first hit all fail. */
  lemma {:induction false} ProbesMiss(fs: FileSystem, check: bool, lead: Attr, paths: seq<Path>, k: nat)
    requires k <= |paths| && forall i :: 0 <= i < k ==> paths[i] !in fs
    ensures NonePass(Judged(fs, check, lead, Probes(paths, 0)[..k]))
  {
    assert forall i :: 0 <= i < k ==> Probes(paths, 0)[..k][i] == Probe(paths, i);
  }

  /** When no root exists `Get` fails, and so does every policy over the full list. */
  lemma {:induction false} NothingExists(fs: FileSystem, check: bool, p: Policy, paths: seq<Path>, lead: Attr)
    requires FirstHit(fs, paths) == |paths|
    ensures Promised(p, Judged(fs, check, lead, Probes(paths, 0))).Err?
  {
    ProbesMiss(fs, check, lead, paths, |paths|);
    assert Probes(paths, 0)[..|paths|] == Probes(paths, 0);
    NonePassing(Judged(fs, check, lead, Probes(paths, 0)));
  }

  // ----- Accepted lists hold distinct objects

  ghost predicate AllKnown(es: seq<Entry>) {
    forall i :: 0 <= i < |es| ==> es[i].Known?
  }

  /** No object stands in a candidate list twice. */
  ghost predicate DistinctObjs(es: seq<Entry>) {
    forall i, j :: 0 <= i < j < |es| && !es[i].Missing? && !es[j].Missing? ==> es[i].obj != es[j].obj
  }

  function ObjsOf(es: seq<Entry>): (os: seq<Obj>)
    requires AllKnown(es)
    ensures |os| == |es| && forall i :: 0 <= i < |es| ==> es[i] == Known(os[i])
  {
    if es == [] then [] else [es[0].obj] + ObjsOf(es[1..])
  }

  ghost predicate Sane(cs: seq<Cand>) {
    && (forall i :: 0 <= i < |cs| && cs[i].entry.Missing? ==> cs[i].err.Some?)
    && (forall i, j :: 0 <= i < j < |cs| && !cs[i].entry.Missing? && !cs[j].entry.Missing? ==>
          cs[i].entry.obj != cs[j].entry.obj)
  }

  /** `e` is the accepted form of candidate `i`, which is valid. */
  ghost predicate IsFrom(e: Entry, cs: seq<Cand>, i: nat)
    requires i < |cs|
  {
    cs[i].err.None? && e == Settled(cs[i].entry)
  }

  /** `e` is the accepted form of a valid candidate among the first `n`. */
  ghost predicate ComesFrom(e: Entry, cs: seq<Cand>, n: nat)
    requires n <= |cs|
  {
    e.Known? && exists i: nat :: i < n && IsFrom(e, cs, i)
  }

  /** The accepted entries are known objects, each from another valid candidate among the first `n`. */
  ghost predicate Settling(kept: seq<Entry>, cs: seq<Cand>, n: nat)
    requires n <= |cs|
  {
    Distinct(kept) && forall i :: 0 <= i < |kept| ==> ComesFrom(kept[i], cs, n)
  }

  lemma {:induction false} ComesFromMore(e: Entry, cs: seq<Cand>, n: nat)
    requires n < |cs| && Sane(cs) && ComesFrom(e, cs, n)
    ensures ComesFrom(e, cs, n + 1)
    ensures cs[n].err.None? ==> e != Settled(cs[n].entry)
  {
    var i: nat :| i < n && IsFrom(e, cs, i);
    assert i < n + 1 && IsFrom(e, cs, i);
    if cs[n].err.None? {
      assert cs[i].entry.obj != cs[n].entry.obj;
    }
  }

  lemma {:induction false} SettlingSnoc(kept: seq<Entry>, cs: seq<Cand>, n: nat)
    requires n < |cs| && Sane(cs) && Settling(kept, cs, n)
    ensures Settling(kept, cs, n + 1)
    ensures cs[n].err.None? ==> Settling(kept + [Settled(cs[n].entry)], cs, n + 1)
  {
    forall i | 0 <= i < |kept|
      ensures ComesFrom(kept[i], cs, n + 1) && (cs[n].err.None? ==> kept[i] != Settled(cs[n].entry))
    {
      ComesFromMore(kept[i], cs, n);
    }
    if cs[n].err.None? {
      assert IsFrom(Settled(cs[n].entry), cs, n);
      assert ComesFrom(Settled(cs[n].entry), cs, n + 1);
    }
  }

  /** A turn keeps what was kept and adds the candidate, if that is valid, or nothing. */
  lemma {:induction false} KeptSnoc(p: Policy, cs: seq<Cand>, n: nat)
    requires n < |cs|
    ensures
      var kept, kept' := Swept(p, cs[..n]).kept, Swept(p, cs[..n + 1]).kept;
      kept' == kept || (cs[n].err.None? && kept' == kept + [Settled(cs[n].entry)])
  {
    SweptSnoc(p, cs, n);
  }

  lemma {:induction false} KeptEntries(p: Policy, cs: seq<Cand>, n: nat)
    requires Sane(cs) && n <= |cs|
    ensures Settling(Swept(p, cs[..n]).kept, cs, n)
  {
    if n > 0 {
      KeptEntries(p, cs, n - 1);
      SettlingSnoc(Swept(p, cs[..n - 1]).kept, cs, n - 1);
      KeptSnoc(p, cs, n - 1);
    }
  }

  /** What `getAllObjs` returns are looked-up objects, none of them twice. */
  lemma {:induction false} SelectedDistinct(fs: FileSystem, check: bool, p: Policy, es: seq<Entry>)
    requires es != [] && es[0].Known? && DistinctObjs(es)
    ensures Selected(fs, check, p, es).Ok? ==>
      var kept := Selected(fs, check, p, es).value;
      AllKnown(kept) && Distinct(ObjsOf(kept))
  {
    var cs := Judged(fs, check, es[0].obj.attr, es);
    KeptEntries(p, cs, |cs|);
    assert cs[..|cs|] == cs;
    var kept := Swept(p, cs).kept;
    assert forall i :: 0 <= i < |kept| ==> ComesFrom(kept[i], cs, |cs|);
  }

  lemma {:induction false} CompressedDistinct(fs: FileSystem, paths: seq<Path>)
    requires FirstHit(fs, paths) < |paths|
    ensures DistinctObjs(Compressed(fs, paths, FirstHit(fs, paths)))
  {
    var k := FirstHit(fs, paths);
    var es := Compressed(fs, paths, k);
    var gap := if k > 0 then 2 else 1;
    forall i | gap <= i < |es|
      ensures es[i] == Probe(paths, k + 1 + i - gap)
    {
      assert es[i] == Probes(paths, k + 1)[i - gap];
    }
  }
}
