/** Small result types and sequence facts shared by the models. */
module Common {

  datatype Option<+T> = None | Some(value: T)

  datatype Result<+T, +E> = Ok(value: T) | Err(error: E)

  type Byte = x: int | 0 <= x < 256

  ghost predicate Distinct<T>(s: seq<T>) {
    forall i, j :: 0 <= i < j < |s| ==> s[i] != s[j]
  }

  ghost function Elems<T>(s: seq<T>): set<T> {
    set x | x in s
  }

  /** Writing the next element over the front of a list. */
  lemma {:induction false} Overwrite<T>(front: seq<T>, was: seq<T>, x: T)
    requires |front| < |was|
    ensures (front + was[|front|..])[|front| := x] == front + [x] + was[|front| + 1..]
  {
  }

  lemma {:induction false} Assoc<T>(a: seq<T>, b: seq<T>, c: seq<T>)
    ensures a + (b + c) == a + b + c
  {
  }

  lemma {:induction false} SameSeq<T>(a: seq<T>, b: seq<T>)
    requires |a| == |b| && forall i :: 0 <= i < |a| ==> a[i] == b[i]
    ensures a == b
  {
  }

  lemma {:induction false} ElemsConcat<T>(s: seq<T>, t: seq<T>)
    ensures Elems(s + t) == Elems(s) + Elems(t)
  {
  }

  lemma {:induction false} ElemsSnoc<T>(s: seq<T>, x: T)
    ensures Elems(s + [x]) == Elems(s) + {x}
  {
  }

  lemma {:induction false} MultisetPick<T>(a: set<T>, x: T)
    requires x in a
    ensures multiset(a) == multiset(a - {x}) + multiset{x}
  {
  }

  lemma {:induction false} DistinctSize<T>(s: seq<T>)
    requires Distinct(s)
    ensures |Elems(s)| == |s|
  {
    if s != [] {
      var n := |s| - 1;
      DistinctSize(s[..n]);
      assert Elems(s) == Elems(s[..n]) + {s[n]};
      assert s[n] !in s[..n];
    }
  }

  lemma {:induction false} DistinctMultiset<T>(s: seq<T>)
    requires Distinct(s)
    ensures multiset(s) == multiset(Elems(s))
  {
    if s != [] {
      var n := |s| - 1;
      DistinctMultiset(s[..n]);
      assert s == s[..n] + [s[n]];
      assert Elems(s) == Elems(s[..n]) + {s[n]};
      assert s[n] !in s[..n];
    }
  }

  /** Repetition-free lists with the same elements are permutations of each other. */
  lemma {:induction false} SameElems<T>(s: seq<T>, t: seq<T>)
    requires Distinct(s) && Distinct(t)
    requires Elems(s) <= Elems(t)
    ensures |s| <= |t|
    ensures |s| == |t| ==> multiset(s) == multiset(t)
    ensures Elems(s) == Elems(t) ==> |s| == |t|
  {
    DistinctSize(s);
    DistinctSize(t);
    DistinctMultiset(s);
    DistinctMultiset(t);
    SubsetSize(Elems(s), Elems(t));
  }

  lemma {:induction false} SubsetSize<T>(a: set<T>, b: set<T>)
    requires a <= b
    ensures |a| <= |b|
    ensures |a| == |b| ==> a == b
  {
    assert b == a + (b - a);
    assert |b| == |a| + |b - a|;
  }

  /** A one-to-one image of a set is not larger than the set it falls into. */
  lemma {:induction false} Pigeonhole<S, T>(a: set<S>, b: set<T>, f: map<S, T>)
    requires a <= f.Keys
    requires forall x :: x in a ==> f[x] in b
    requires forall x, y :: x in a && y in a && x != y ==> f[x] != f[y]
    ensures |a| <= |b|
    decreases a
  {
    if a != {} {
      var x :| x in a;
      Pigeonhole(a - {x}, b - {f[x]}, f);
    }
  }
}
