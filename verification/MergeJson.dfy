/** Merging generated translations into existing ones: nested maps, changed in place. */
module MergeJson {

  /** A value as it is written: a text, or a map of values. */
  datatype Json = Text(x: int) | Object(fields: map<string, Json>)

  // ----- What merging means

  /** What a key holds after merging: what the target has stays, except that two maps are merged. */
  function MergedAt(s: Json, t: Json, k: string): Json
    requires s.Object? && t.Object? && k in s.fields.Keys + t.fields.Keys
    decreases s, 0
  {
    if k !in t.fields then s.fields[k]
    else if k in s.fields && s.fields[k].Object? && t.fields[k].Object? then Merged(s.fields[k], t.fields[k])
    else t.fields[k]
  }

  function Merged(s: Json, t: Json): (m: Json)
    requires s.Object? && t.Object?
    ensures m.Object? && m.fields.Keys == s.fields.Keys + t.fields.Keys
    decreases s, 1
  {
    Object(map k | k in s.fields.Keys + t.fields.Keys :: MergedAt(s, t, k))
  }

  // ----- Paths: where a value is, and what merging does there

  function At(j: Json, path: seq<string>): (v: Json)
    requires Has(j, path)
  {
    if path == [] then j else At(j.fields[path[0]], path[1..])
  }

  predicate Has(j: Json, path: seq<string>) {
    path == [] || (j.Object? && path[0] in j.fields && Has(j.fields[path[0]], path[1..]))
  }

  /** `path` ends in something that is missing: everything above it is there, as maps on both sides. */
  predicate Missing(t: Json, path: seq<string>) {
    path != [] && t.Object? && (path[0] !in t.fields || Missing(t.fields[path[0]], path[1..]))
  }

  /** Merging keeps every text of the target. */
  lemma {:induction false} KeepsTexts(s: Json, t: Json, path: seq<string>)
    requires s.Object? && t.Object? && Has(t, path) && At(t, path).Text?
    ensures Has(Merged(s, t), path) && At(Merged(s, t), path) == At(t, path)
  {
    var k := path[0];
    if k in s.fields && s.fields[k].Object? && t.fields[k].Object? {
      KeepsTexts(s.fields[k], t.fields[k], path[1..]);
    }
  }

  /** A place exists after merging if and only if the target had it, or the source has it and the target
      is missing it, rather than having a text in its way. */
  lemma {:induction false} AddsMissing(s: Json, t: Json, path: seq<string>)
    requires s.Object? && t.Object?
    ensures Has(Merged(s, t), path) <==> Has(t, path) || (Has(s, path) && Missing(t, path))
  {
    if path != [] && path[0] in s.fields.Keys + t.fields.Keys {
      var k := path[0];
      assert Merged(s, t).fields[k] == MergedAt(s, t, k);
      if k in s.fields && k in t.fields && s.fields[k].Object? && t.fields[k].Object? {
        AddsMissing(s.fields[k], t.fields[k], path[1..]);
      }
    }
  }

  /** What is added is what the source has there. */
  lemma {:induction false} AddsSource(s: Json, t: Json, path: seq<string>)
    requires s.Object? && t.Object? && Has(s, path) && Missing(t, path)
    ensures Has(Merged(s, t), path) && At(Merged(s, t), path) == At(s, path)
  {
    var k := path[0];
    assert Merged(s, t).fields[k] == MergedAt(s, t, k);
    if k in t.fields {
      AddsSource(s.fields[k], t.fields[k], path[1..]);
    }
  }

  /** The target lacks nothing that the source has. */
  predicate Covers(s: Json, t: Json)
    requires s.Object? && t.Object?
    decreases s
  {
    forall k :: k in s.fields ==>
      && k in t.fields
      && (s.fields[k].Object? && t.fields[k].Object? ==> Covers(s.fields[k], t.fields[k]))
  }

  /** Merging changes nothing exactly when nothing is missing. */
  lemma {:induction false} UnchangedIff(s: Json, t: Json)
    requires s.Object? && t.Object?
    ensures Merged(s, t) == t <==> Covers(s, t)
    decreases s
  {
    forall k | k in s.fields && k in t.fields && s.fields[k].Object? && t.fields[k].Object?
      ensures Merged(s.fields[k], t.fields[k]) == t.fields[k] <==> Covers(s.fields[k], t.fields[k])
    {
      UnchangedIff(s.fields[k], t.fields[k]);
    }
    if Covers(s, t) {
      assert forall k :: k in t.fields ==> MergedAt(s, t, k) == t.fields[k];
      assert Merged(s, t).fields == t.fields;
    } else {
      var k :| k in s.fields && (k in t.fields ==>
        s.fields[k].Object? && t.fields[k].Object? && !Covers(s.fields[k], t.fields[k]));
      assert k in t.fields ==> Merged(s, t).fields[k] == MergedAt(s, t, k) != t.fields[k];
    }
  }

  /** After merging, nothing is missing: a second merge changes nothing. */
  lemma {:induction false} MergedCovers(s: Json, t: Json)
    requires s.Object? && t.Object?
    ensures Covers(s, Merged(s, t))
    ensures Merged(s, Merged(s, t)) == Merged(s, t)
    decreases s
  {
    forall k | k in s.fields
      ensures s.fields[k].Object? && MergedAt(s, t, k).Object? ==> Covers(s.fields[k], MergedAt(s, t, k))
    {
      if s.fields[k].Object? {
        if k in t.fields && t.fields[k].Object? {
          MergedCovers(s.fields[k], t.fields[k]);
        } else {
          CoversItself(s.fields[k]);
        }
      }
    }
    UnchangedIff(s, Merged(s, t));
  }

  lemma {:induction false} CoversItself(s: Json)
    requires s.Object?
    ensures Covers(s, s)
    decreases s
  {
    forall k | k in s.fields && s.fields[k].Object? ensures Covers(s.fields[k], s.fields[k]) {
      CoversItself(s.fields[k]);
    }
  }

  // ----- The maps on the heap

  /** A map that can be changed in place; `repr` holds it and all maps below it. */
  class Dict {
    var entries: map<string, Value>
    ghost var repr: set<Dict>
  }

  datatype Value = Leaf(x: int) | Sub(dict: Dict)

  /** The maps below `d` form a tree. */
  ghost predicate Valid(d: Dict)
    reads d, d.repr
    decreases d.repr
  {
    && d in d.repr
    && (forall k :: k in d.entries && d.entries[k].Sub? ==>
          var c := d.entries[k].dict;
          c in d.repr && c.repr <= d.repr && d !in c.repr && Valid(c))
    && (forall j, k :: j in d.entries && k in d.entries && j != k && d.entries[j].Sub? && d.entries[k].Sub? ==>
          d.entries[j].dict.repr !! d.entries[k].dict.repr)
  }

  ghost predicate ValueOk(v: Value)
    reads if v.Sub? then {v.dict} + v.dict.repr else {}
  {
    v.Sub? ==> Valid(v.dict)
  }

  ghost function Below(v: Value): set<Dict>
    reads if v.Sub? then {v.dict} else {}
  {
    if v.Sub? then v.dict.repr else {}
  }

  ghost function Contents(d: Dict): (j: Json)
    requires Valid(d)
    reads d, d.repr
    ensures j.Object? && j.fields.Keys == d.entries.Keys
    decreases d.repr
  {
    Object(map k | k in d.entries ::
      match d.entries[k] case Leaf(x) => Text(x) case Sub(c) => Contents(c))
  }

  ghost function Written(v: Value): (j: Json)
    requires ValueOk(v)
    reads if v.Sub? then {v.dict} + v.dict.repr else {}
    ensures j.Object? <==> v.Sub?
  {
    match v case Leaf(x) => Text(x) case Sub(c) => Contents(c)
  }

  lemma {:induction false} ContentsAt(d: Dict, k: string)
    requires Valid(d) && k in d.entries
    ensures ValueOk(d.entries[k]) && Contents(d).fields[k] == Written(d.entries[k])
    ensures Below(d.entries[k]) <= d.repr - {d}
  {
  }

  /** The value is written `j`, and all its maps are within `region`. */
  ghost predicate Kept(v: Value, region: set<Dict>, j: Json)
    reads region
  {
    match v
    case Leaf(x) => j == Text(x)
    case Sub(c) => c in region && c.repr <= region && Valid(c) && Contents(c) == j
  }

  /** What a key of the target should hold once the key has been visited, given what both sides held. */
  function Result(s: Json, t: Json): Json {
    if s.Object? && t.Object? then Merged(s, t) else t
  }

  /** One turn of the loop over the source. */
  method MergeEntry(target: Dict, k: string, v: Value, ghost was: set<Dict>, ghost more: set<Dict>, ghost s: Json,
                    ghost t: Json)
    returns (same: bool)
    requires was !! more && target !in was && target !in more && Kept(v, more, s)
    requires k in target.entries ==> Kept(target.entries[k], was, t)
    modifies target`entries, was
    ensures target.entries.Keys == old(target.entries.Keys) + {k}
    ensures forall i :: i in target.entries && i != k ==> target.entries[i] == old(target.entries[i])
    ensures k in old(target.entries) ==>
      Kept(target.entries[k], was + more, Result(s, t)) && (same <==> Result(s, t) == t)
    ensures k !in old(target.entries) ==> Kept(target.entries[k], was + more, s) && !same
    decreases more, 3
  {
    if k !in target.entries {
      target.entries := target.entries[k := v];
      same := false;
    } else {
      var held := target.entries[k];
      same := true;
      if v.Sub? && held.Sub? {
        same := Merge(v.dict, held.dict);
      }
    }
  }

  /** The room of a key: the maps below it in the target, and in the source. */
  datatype Rooms = Rooms(was: map<string, set<Dict>>, more: map<string, set<Dict>>)
  {
    function Was(k: string): set<Dict> {
      if k in was then was[k] else {}
    }

    function More(k: string): set<Dict> {
      if k in more then more[k] else {}
    }

    function Both(k: string): set<Dict> {
      Was(k) + More(k)
    }
  }

  ghost predicate Within(rooms: Rooms, zone: set<Dict>) {
    forall k :: rooms.Both(k) <= zone
  }

  /** Different keys have different rooms, and what both sides have is apart. */
  ghost predicate Apart(rooms: Rooms) {
    && (forall i, k :: rooms.Was(i) !! rooms.More(k))
    && (forall i, k :: i != k ==> rooms.Was(i) !! rooms.Was(k))
    && (forall i, k :: i != k ==> rooms.More(i) !! rooms.More(k))
  }

  /** What a key of the target holds while the keys `todo` are still to be visited. */
  ghost function Want(s: Json, t: Json, todo: set<string>, k: string): Json
    requires s.Object? && t.Object? && k in s.fields.Keys + t.fields.Keys
  {
    if k in todo && k in t.fields then t.fields[k] else MergedAt(s, t, k)
  }

  ghost predicate Holds(v: Value, rooms: Rooms, s: Json, t: Json, todo: set<string>, k: string)
    requires s.Object? && t.Object? && k in s.fields.Keys + t.fields.Keys
    reads rooms.Both(k)
  {
    Kept(v, if k in todo then rooms.Was(k) else rooms.Both(k), Want(s, t, todo, k))
  }

  /** The target when the keys `todo` are still to be visited. */
  ghost predicate Progress(entries: map<string, Value>, rooms: Rooms, zone: set<Dict>, s: Json, t: Json,
                           todo: set<string>)
    requires s.Object? && t.Object? && todo <= s.fields.Keys && Within(rooms, zone)
    reads zone
  {
    && entries.Keys == t.fields.Keys + (s.fields.Keys - todo)
    && forall k :: k in entries ==> Holds(entries[k], rooms, s, t, todo, k)
  }

  /** The source's own values, each in its room. */
  ghost predicate Offered(entries: map<string, Value>, rooms: Rooms, yours: set<Dict>, s: Json)
    reads yours
  {
    && s.Object? && entries.Keys == s.fields.Keys
    && forall k :: k in entries ==> rooms.More(k) <= yours && Kept(entries[k], rooms.More(k), s.fields[k])
  }

  /** One turn of the loop, seen from the whole map. */
  method MergeKey(target: Dict, k: string, v: Value, ghost rooms: Rooms, ghost zone: set<Dict>,
                  ghost s: Json, ghost t: Json, ghost todo: set<string>)
    returns (same: bool)
    requires s.Object? && t.Object? && todo <= s.fields.Keys && Within(rooms, zone) && target !in zone
    requires rooms.Was(k) !! rooms.More(k) && forall i :: i != k ==> rooms.Both(i) !! rooms.Was(k)
    requires Progress(target.entries, rooms, zone, s, t, todo) && k in todo
    requires Kept(v, rooms.More(k), s.fields[k])
    modifies target`entries, rooms.Was(k)
    ensures Progress(target.entries, rooms, zone, s, t, todo - {k})
    ensures same <==> Same(s, t, k)
    decreases rooms.More(k), 4
  {
    assert rooms.Both(k) <= zone;
    assert k in target.entries ==> Holds(target.entries[k], rooms, s, t, todo, k);
    same := MergeEntry(target, k, v, rooms.Was(k), rooms.More(k), s.fields[k],
                       if k in t.fields then t.fields[k] else s.fields[k]);
    forall i | i in target.entries ensures Holds(target.entries[i], rooms, s, t, todo - {k}, i) {
      if i != k {
        assert rooms.Both(i) !! rooms.Was(k) && rooms.Both(i) <= zone;
        assert old(Holds(target.entries[i], rooms, s, t, todo, i));
      }
    }
  }

  /** With no key left, the target is the merged map. */
  lemma {:induction false} Finished(target: Dict, rooms: Rooms, zone: set<Dict>, s: Json, t: Json)
    requires s.Object? && t.Object? && Within(rooms, zone) && Apart(rooms)
    requires target !in zone && target.repr == zone + {target}
    requires Progress(target.entries, rooms, zone, s, t, {})
    ensures Valid(target) && Contents(target) == Merged(s, t)
  {
    ValidAtEnd(target, rooms, zone, s, t);
    ContentsAtEnd(target, rooms, s, t);
  }

  lemma {:induction false} ContentsAtEnd(target: Dict, rooms: Rooms, s: Json, t: Json)
    requires s.Object? && t.Object? && Valid(target) && target.entries.Keys == s.fields.Keys + t.fields.Keys
    requires forall k :: k in target.entries ==> Holds(target.entries[k], rooms, s, t, {}, k)
    ensures Contents(target) == Merged(s, t)
  {
    var c, m := Contents(target), Merged(s, t);
    forall k | k in c.fields ensures c.fields[k] == m.fields[k] {
      EndAt(target, rooms, s, t, k);
    }
    SameFields(c, m);
  }

  lemma {:induction false} SameFields(c: Json, m: Json)
    requires c.Object? && m.Object? && c.fields.Keys == m.fields.Keys
    requires forall k :: k in c.fields ==> c.fields[k] == m.fields[k]
    ensures c == m
  {
    assert c.fields == m.fields;
  }

  lemma {:induction false} EndAt(target: Dict, rooms: Rooms, s: Json, t: Json, k: string)
    requires s.Object? && t.Object? && k in s.fields.Keys + t.fields.Keys && Valid(target) && k in target.entries
    requires Holds(target.entries[k], rooms, s, t, {}, k)
    ensures Contents(target).fields[k] == Merged(s, t).fields[k]
  {
    ContentsAt(target, k);
  }

  lemma {:induction false} ValidAtEnd(target: Dict, rooms: Rooms, zone: set<Dict>, s: Json, t: Json)
    requires s.Object? && t.Object? && Within(rooms, zone) && Apart(rooms)
    requires target !in zone && target.repr == zone + {target}
    requires Progress(target.entries, rooms, zone, s, t, {})
    ensures Valid(target)
  {
    forall k | k in target.entries && target.entries[k].Sub?
      ensures var c := target.entries[k].dict;
        c in rooms.Both(k) && c.repr <= rooms.Both(k) && rooms.Both(k) <= zone && Valid(c)
    {
      assert Holds(target.entries[k], rooms, s, t, {}, k);
    }
    assert forall i, k :: i != k ==> rooms.Both(i) !! rooms.Both(k);
  }

  ghost function RoomsOf(source: Dict, target: Dict): Rooms
    requires Valid(source) && Valid(target)
    reads source, source.repr, target, target.repr
  {
    Rooms(map k | k in target.entries :: Below(target.entries[k]),
          map k | k in source.entries :: Below(source.entries[k]))
  }

  lemma {:induction false} RoomsApart(source: Dict, target: Dict)
    requires Valid(source) && Valid(target) && source.repr !! target.repr
    ensures Apart(RoomsOf(source, target))
    ensures forall k :: RoomsOf(source, target).Was(k) <= target.repr - {target}
    ensures forall k :: RoomsOf(source, target).More(k) <= source.repr - {source}
  {
    var rooms := RoomsOf(source, target);
    forall k ensures rooms.Was(k) <= target.repr - {target} {
      if k in target.entries { ContentsAt(target, k); }
    }
    forall k ensures rooms.More(k) <= source.repr - {source} {
      if k in source.entries { ContentsAt(source, k); }
    }
  }

  lemma {:induction false} AtStart(source: Dict, target: Dict, zone: set<Dict>)
    requires Valid(source) && Valid(target) && Within(RoomsOf(source, target), zone)
    ensures Progress(target.entries, RoomsOf(source, target), zone, Contents(source), Contents(target),
        source.entries.Keys)
  {
    forall k | k in target.entries
      ensures Holds(target.entries[k], RoomsOf(source, target), Contents(source), Contents(target),
          source.entries.Keys, k)
    {
      ContentsAt(target, k);
    }
  }

  lemma {:induction false} OffersAll(source: Dict, target: Dict)
    requires Valid(source) && Valid(target)
    requires forall k :: RoomsOf(source, target).More(k) <= source.repr - {source}
    ensures Offered(source.entries, RoomsOf(source, target), source.repr, Contents(source))
  {
    forall k | k in source.entries
      ensures Kept(source.entries[k], RoomsOf(source, target).More(k), Contents(source).fields[k])
    {
      ContentsAt(source, k);
    }
  }

  /** The loop over the source. */
  method MergeAll(target: Dict, offered: map<string, Value>, ghost rooms: Rooms, ghost mine: set<Dict>,
                  ghost yours: set<Dict>, ghost s: Json, ghost t: Json, ghost bound: set<Dict>)
    returns (equal: bool)
    requires s.Object? && t.Object? && Within(rooms, mine + yours) && Apart(rooms)
    requires target !in mine && target !in yours && mine !! yours
    requires forall k :: rooms.Was(k) <= mine && rooms.More(k) < bound
    requires Progress(target.entries, rooms, mine + yours, s, t, s.fields.Keys) && Offered(offered, rooms, yours, s)
    requires target.repr == mine + yours + {target}
    modifies target`entries, mine
    ensures Valid(target) && Contents(target) == Merged(s, t)
    ensures equal <==> Merged(s, t) == t
    decreases bound, 0
  {
    equal := true;
    var todo := offered.Keys;
    while todo != {}
      invariant todo <= s.fields.Keys
      invariant Progress(target.entries, rooms, mine + yours, s, t, todo) && Offered(offered, rooms, yours, s)
      invariant equal <==> AllSame(s, t, todo)
      decreases todo
    {
      var k :| k in todo;
      var same := MergeKey(target, k, offered[k], rooms, mine + yours, s, t, todo);
      SameStep(s, t, todo, k);
      equal := same && equal;
      todo := todo - {k};
    }
    Finished(target, rooms, mine + yours, s, t);
    SameIff(s, t);
  }

  method MergeWith(source: Dict, target: Dict, ghost mine: set<Dict>) returns (equal: bool)
    requires Valid(source) && Valid(target) && source.repr !! target.repr && mine == target.repr - {target}
    modifies target, mine
    ensures Valid(target) && target.repr == mine + source.repr + {target}
    ensures Contents(target) == Merged(old(Contents(source)), old(Contents(target)))
    ensures equal <==> Contents(target) == old(Contents(target))
    decreases source.repr, 1
  {
    ghost var s, t, yours := Contents(source), Contents(target), source.repr;
    ghost var rooms := RoomsOf(source, target);
    RoomsApart(source, target);
    AtStart(source, target, mine + yours);
    OffersAll(source, target);
    target.repr := mine + yours + {target};
    equal := MergeAll(target, source.entries, rooms, mine, yours, s, t, yours);
  }

  /** Merges `source` into `target` in place, key by key in any order; true when nothing had to be added. */
  method Merge(source: Dict, target: Dict) returns (equal: bool)
    requires Valid(source) && Valid(target) && source.repr !! target.repr
    modifies target.repr
    ensures Valid(target) && target.repr <= old(target.repr) + source.repr
    ensures Valid(source) && Contents(source) == old(Contents(source))
    ensures Contents(target) == Merged(Contents(source), old(Contents(target)))
    ensures equal <==> Contents(target) == old(Contents(target))
    decreases source.repr, 2
  {
    equal := MergeWith(source, target, target.repr - {target});
  }

  /** A target that lacks nothing has every key, and lacks nothing below it. */
  lemma {:induction false} CoversBelow(source: Dict, target: Dict, k: string)
    requires Valid(source) && Valid(target) && Covers(Contents(source), Contents(target)) && k in source.entries
    ensures k in target.entries
    ensures source.entries[k].Sub? && target.entries[k].Sub? ==>
      var c, d := source.entries[k].dict, target.entries[k].dict;
      Valid(c) && c.repr < source.repr && Valid(d) && Covers(Contents(c), Contents(d))
  {
    ContentsAt(source, k);
    assert k in Contents(source).fields;
    assert k in Contents(target).fields;
    ContentsAt(target, k);
  }

  /** The same loop, for a target that lacks nothing: whatever maps the two share, nothing is written. */
  method MergeCovered(source: Dict, target: Dict) returns (equal: bool)
    requires Valid(source) && Valid(target) && Covers(Contents(source), Contents(target))
    ensures equal
    decreases source.repr, 1
  {
    ghost var s, t := Contents(source), Contents(target);
    equal := true;
    var todo := source.entries.Keys;
    while todo != {}
      invariant equal && todo <= s.fields.Keys
      invariant Valid(source) && Valid(target) && Contents(source) == s && Contents(target) == t
      decreases todo
    {
      var k :| k in todo;
      var same := CoveredEntry(source, target, k, s, t);
      equal := same && equal;
      todo := todo - {k};
    }
  }

  method CoveredEntry(source: Dict, target: Dict, k: string, ghost s: Json, ghost t: Json) returns (same: bool)
    requires Valid(source) && Valid(target) && Contents(source) == s && Contents(target) == t
    requires Covers(s, t) && k in s.fields
    ensures same
    ensures Valid(source) && Valid(target) && Contents(source) == s && Contents(target) == t
    decreases source.repr, 0
  {
    CoversBelow(source, target, k);
    var v, held := source.entries[k], target.entries[k];
    same := true;
    if v.Sub? && held.Sub? {
      same := MergeCovered(v.dict, held.dict);
    }
  }

  /** Merging the same map a second time, when the target shares maps with it, finds nothing to add. */
  method MergeTwice(source: Dict, target: Dict) returns (first: bool, second: bool)
    requires Valid(source) && Valid(target) && source.repr !! target.repr
    modifies target.repr
    ensures first <==> Covers(old(Contents(source)), old(Contents(target)))
    ensures second
  {
    ghost var s, t := Contents(source), Contents(target);
    TwiceIs(s, t);
    first := Merge(source, target);
    second := MergeCovered(source, target);
  }

  lemma {:induction false} TwiceIs(s: Json, t: Json)
    requires s.Object? && t.Object?
    ensures Merged(s, t) == t <==> Covers(s, t)
    ensures Covers(s, Merged(s, t))
  {
    UnchangedIff(s, t);
    MergedCovers(s, t);
  }

  /** Merging leaves this key of the target as it is. */
  ghost predicate Same(s: Json, t: Json, k: string)
    requires s.Object? && t.Object? && k in s.fields
  {
    k in t.fields && MergedAt(s, t, k) == t.fields[k]
  }

  ghost predicate AllSame(s: Json, t: Json, todo: set<string>)
    requires s.Object? && t.Object?
  {
    forall k :: k in s.fields && k !in todo ==> Same(s, t, k)
  }

  lemma {:induction false} SameStep(s: Json, t: Json, todo: set<string>, k: string)
    requires s.Object? && t.Object? && k in todo && k in s.fields
    ensures AllSame(s, t, todo - {k}) <==> AllSame(s, t, todo) && Same(s, t, k)
  {
  }

  lemma {:induction false} SameIff(s: Json, t: Json)
    requires s.Object? && t.Object?
    ensures Merged(s, t) == t <==> AllSame(s, t, {})
  {
    var m := Merged(s, t);
    if AllSame(s, t, {}) {
      assert m.fields.Keys == t.fields.Keys;
      forall k | k in m.fields ensures m.fields[k] == t.fields[k] {
        assert m.fields[k] == MergedAt(s, t, k);
        assert k in s.fields ==> Same(s, t, k);
      }
      assert m.fields == t.fields;
    } else {
      var k :| k in s.fields && !Same(s, t, k);
      assert m.fields[k] == MergedAt(s, t, k);
    }
  }
}
