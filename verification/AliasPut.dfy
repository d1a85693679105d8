/** Where the alias driver puts an uploaded file. */
module AliasPut {
  import opened Common
  import opened AliasPolicy
  import opened AliasSelect

  /** Known free space of the storages that the candidates lie on; storages that report none, or not
      within a second, are left out. */
  type Space = m: map<Obj, int> | forall o :: o in m ==> -0x8000_0000_0000_0000 <= m[o] < 0x8000_0000_0000_0000

  function Spaces(space: Space, os: seq<Obj>): (ds: seq<Details>)
    ensures |ds| == |os|
    ensures forall i :: 0 <= i < |os| ==> ds[i] == if os[i] in space then Some(space[os[i]]) else None
  {
    seq(|os|, i requires 0 <= i < |os| => if os[i] in space then Some(space[os[i]]) else None)
  }

  /** Which stretch of the accepted entries an upload goes to; `dirSize` is what is taken for the size of
      the upload. */
  ghost predicate Placed(put: Policy, os: seq<Obj>, space: Space, dirSize: int, draw: Weight,
                         r: Result<(nat, nat), Error>)
  {
    match put
    case RandomBalanced => r.Ok? && r.value.1 == r.value.0 + 1 <= |os|
    case ByQuota => ByRoom(false, os, space, dirSize, draw, r)
    case ByQuotaStrict => ByRoom(true, os, space, dirSize, draw, r)
    case _ => r == Ok((0, |os|))
  }

  ghost predicate ByRoom(strict: bool, os: seq<Obj>, space: Space, dirSize: int, draw: Weight,
                         r: Result<(nat, nat), Error>)
  {
    match r
    case Err(e) => e == NoEnoughSpace && Chosen(Spaces(space, os), strict, dirSize, draw, None)
    case Ok((i, j)) => j == i + 1 && Chosen(Spaces(space, os), strict, dirSize, draw, Some(i))
  }

  /** `getPutObjs`: the accepted entries, or one of them under the balancing policies. The size that is
      asked for is the one of the first entry, a directory: by then the list has been compacted, but its
      first entry is still the original one. */
  method GetPutObjs(fs: FileSystem, check: bool, put: Policy, objs: array<Entry>, space: Space, draw: Weight,
                    pick: nat -> nat)
    returns (r: Result<(nat, nat), Error>)
    requires objs.Length > 0 && objs[0].Known? && DistinctObjs(objs[..]) && forall n :: n > 0 ==> pick(n) < n
    modifies objs
    ensures
      var was := old(objs[..]);
      if put.Disabled? then r == Err(PermissionDenied) && objs[..] == was
      else
        match Selected(fs, check, put, was)
        case Err(e) => r == Err(e)
        case Ok(kept) =>
          && AllKnown(kept) && |kept| <= |was| && objs[..] == kept + was[|kept|..]
          && Placed(put, ObjsOf(kept), space, was[0].obj.attr.size, draw, r)
  {
    if put == Disabled {
      return Err(PermissionDenied);
    }
    SelectedDistinct(fs, check, put, objs[..]);
    FirstEntryStays(fs, check, put, objs[..]);
    var n := GetAllObjs(fs, check, put, objs);
    if n.Err? {
      return Err(n.error);
    }
    assert objs[..n.value] == Selected(fs, check, put, old(objs[..])).value;
    r := Choose(put, ObjsOf(objs[..n.value]), space, objs[0].obj.attr.size, draw, pick);
  }

  method Choose(put: Policy, os: seq<Obj>, space: Space, dirSize: int, draw: Weight, pick: nat -> nat)
    returns (r: Result<(nat, nat), Error>)
    requires os != [] && forall n :: n > 0 ==> pick(n) < n
    ensures Placed(put, os, space, dirSize, draw, r)
  {
    match put {
      case RandomBalanced =>
        var i := pick(|os|);
        r := Ok((i, i + 1));
      case ByQuota => r := ChooseByRoom(false, os, space, dirSize, draw, pick);
      case ByQuotaStrict => r := ChooseByRoom(true, os, space, dirSize, draw, pick);
      case _ => r := Ok((0, |os|));
    }
  }

  method ChooseByRoom(strict: bool, os: seq<Obj>, space: Space, dirSize: int, draw: Weight, pick: nat -> nat)
    returns (r: Result<(nat, nat), Error>)
    requires forall n :: n > 0 ==> pick(n) < n
    ensures ByRoom(strict, os, space, dirSize, draw, r)
  {
    var i := SelectBySpace(Spaces(space, os), strict, dirSize, draw, pick);
    r := if i.Some? then Ok((i.value, i.value + 1)) else Err(NoEnoughSpace);
  }

  /** Whatever the policy, the first candidate is accepted and stays in front. */
  lemma {:induction false} FirstEntryStays(fs: FileSystem, check: bool, p: Policy, es: seq<Entry>)
    requires es != [] && es[0].Known?
    ensures Selected(fs, check, p, es).Ok? ==>
      var kept := Selected(fs, check, p, es).value;
      kept != [] && kept[0] == es[0]
  {
    var cs := Judged(fs, check, es[0].obj.attr, es);
    LeadStays(p, cs, |cs|);
    assert cs[..|cs|] == cs;
  }
}
