/** `Array.prototype.filter` and `find` over sequences, with the facts the pages rely on. */
module Seqs {

  import Wrappers

  /** `xs.filter(p)`: the elements satisfying `p`, in their original order. */
  function Filter<T(!new)>(p: T -> bool, xs: seq<T>): (r: seq<T>)
    ensures |r| <= |xs|
    ensures forall x :: x in r <==> x in xs && p(x)
    decreases |xs|
  {
    if xs == [] then []
    else if p(xs[0]) then [xs[0]] + Filter(p, xs[1..])
    else Filter(p, xs[1..])
  }

  /** Filtering distributes over concatenation: the relative order of the kept elements is unchanged. */
  lemma {:induction false} FilterAppend<T(!new)>(p: T -> bool, xs: seq<T>, ys: seq<T>)
    ensures Filter(p, xs + ys) == Filter(p, xs) + Filter(p, ys)
    decreases |xs|
  {
    if xs == [] {
      assert xs + ys == ys;
    } else {
      assert (xs + ys)[1..] == xs[1..] + ys;
      FilterAppend(p, xs[1..], ys);
    }
  }

  /** Elements that all pass `p` are kept as they are. */
  lemma {:induction false} FilterAllPass<T(!new)>(p: T -> bool, xs: seq<T>)
    requires forall i :: 0 <= i < |xs| ==> p(xs[i])
    ensures Filter(p, xs) == xs
    decreases |xs|
  {
    if xs != [] {
      FilterAllPass(p, xs[1..]);
    }
  }

  /** Nothing is kept when no element passes `p`. */
  lemma {:induction false} FilterNonePass<T(!new)>(p: T -> bool, xs: seq<T>)
    requires forall i :: 0 <= i < |xs| ==> !p(xs[i])
    ensures Filter(p, xs) == []
    decreases |xs|
  {
    if xs != [] {
      FilterNonePass(p, xs[1..]);
    }
  }

  /** An element failing `p` makes the filtered list strictly shorter. */
  lemma {:induction false} FilterDropsFailing<T(!new)>(p: T -> bool, xs: seq<T>, i: nat)
    requires i < |xs| && !p(xs[i])
    ensures |Filter(p, xs)| < |xs|
    decreases |xs|
  {
    if i > 0 {
      assert xs[1..][i - 1] == xs[i];
      FilterDropsFailing(p, xs[1..], i - 1);
    }
  }

  /** Number of elements satisfying `p` (`xs.filter(p).length`). */
  function Count<T(!new)>(p: T -> bool, xs: seq<T>): nat
  {
    |Filter(p, xs)|
  }

  /** The positions of the elements satisfying `p`. */
  function Positions<T>(p: T -> bool, xs: seq<T>): set<nat>
  {
    set i: nat | i < |xs| && p(xs[i])
  }

  /** The length of a filtered list is the number of positions whose element passes. */
  lemma {:induction false} CountIsPositions<T(!new)>(p: T -> bool, xs: seq<T>)
    ensures Count(p, xs) == |Positions(p, xs)|
    decreases |xs|
  {
    if xs == [] {
      assert Positions(p, xs) == {};
    } else {
      var tail := Positions(p, xs[1..]);
      CountIsPositions(p, xs[1..]);
      ShiftSize(tail);
      PositionsCons(p, xs);
      assert 0 !in Shift(tail);
    }
  }

  /** The positions in a non-empty list: maybe 0, then those of its tail moved up by one. */
  lemma PositionsCons<T>(p: T -> bool, xs: seq<T>)
    requires xs != []
    ensures Positions(p, xs) == (if p(xs[0]) then {0} else {}) + Shift(Positions(p, xs[1..]))
  {
    var tail := Positions(p, xs[1..]);
    var rhs := (if p(xs[0]) then {0} else {}) + Shift(tail);
    forall i: nat ensures i in Positions(p, xs) <==> i in rhs {
      if i >= 1 && i < |xs| {
        assert xs[1..][i - 1] == xs[i];
      }
    }
  }

  function Shift(s: set<nat>): (r: set<nat>)
    ensures forall i: nat :: i in r <==> i >= 1 && i - 1 in s
  {
    set i: nat | i in s :: i + 1
  }

  lemma {:induction false} ShiftSize(s: set<nat>)
    ensures |Shift(s)| == |s|
    decreases |s|
  {
    if s != {} {
      var x :| x in s;
      var rest := s - {x};
      ShiftSize(rest);
      assert Shift(s) == Shift(rest) + {x + 1};
      assert x + 1 !in Shift(rest);
    }
  }

  /** `xs.find(p)`: the first element satisfying `p`, or nothing. */
  function Find<T>(p: T -> bool, xs: seq<T>): (r: Wrappers.Option<T>)
    ensures r.None? <==> forall i :: 0 <= i < |xs| ==> !p(xs[i])
    ensures r.Some? ==> r.value in xs && p(r.value)
    ensures r.Some? ==> exists i :: 0 <= i < |xs| && xs[i] == r.value && forall j :: 0 <= j < i ==> !p(xs[j])
    decreases |xs|
  {
    if xs == [] then Wrappers.None
    else if p(xs[0]) then Wrappers.Some(xs[0])
    else
      var r := Find(p, xs[1..]);
      assert r.Some? ==> exists i :: 0 <= i < |xs[1..]| && xs[1..][i] == r.value && forall j :: 0 <= j < i ==> !p(xs[1..][j]);
      assert r.Some? ==> exists i :: 0 <= i < |xs| && xs[i] == r.value && forall j :: 0 <= j < i ==> !p(xs[j]) by {
        if r.Some? {
          var i :| 0 <= i < |xs[1..]| && xs[1..][i] == r.value && forall j :: 0 <= j < i ==> !p(xs[1..][j]);
          assert xs[i + 1] == r.value;
          forall j | 0 <= j < i + 1 ensures !p(xs[j]) {
            if j > 0 { assert xs[j] == xs[1..][j - 1]; }
          }
        }
      }
      r
  }

  /** `xs.findIndex(p)`: the first index whose element satisfies `p`, or -1. */
  function FindIndex<T>(p: T -> bool, xs: seq<T>): (r: int)
    ensures -1 <= r < |xs|
    ensures r == -1 <==> forall i :: 0 <= i < |xs| ==> !p(xs[i])
    ensures r >= 0 ==> p(xs[r]) && forall j :: 0 <= j < r ==> !p(xs[j])
    decreases |xs|
  {
    if xs == [] then -1
    else if p(xs[0]) then 0
    else
      var k := FindIndex(p, xs[1..]);
      if k == -1 then -1 else k + 1
  }

  /** `xs.map((x, i) => f(x, i))`. */
  function MapIndexed<A, B>(f: (A, nat) -> B, xs: seq<A>): (r: seq<B>)
    ensures |r| == |xs|
    ensures forall i :: 0 <= i < |xs| ==> r[i] == f(xs[i], i)
  {
    seq(|xs|, i requires 0 <= i < |xs| => f(xs[i], i))
  }

  /** Mapping one more element appends its image. */
  lemma MapIndexedExtend<A, B>(f: (A, nat) -> B, xs: seq<A>, n: nat)
    requires n < |xs|
    ensures MapIndexed(f, xs[..n + 1]) == MapIndexed(f, xs[..n]) + [f(xs[n], n)]
  {
    var a := MapIndexed(f, xs[..n + 1]);
    var b := MapIndexed(f, xs[..n]) + [f(xs[n], n)];
    forall i | 0 <= i < |a| ensures a[i] == b[i] {
      assert xs[..n + 1][i] == xs[i];
      if i < n {
        assert xs[..n][i] == xs[i];
      }
    }
  }
}
