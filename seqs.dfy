/** Order-preserving filtering and sums over sequences. */
module Seqs {

  /** The elements of `s` that satisfy `p`, in their original order (a boolean
      row mask applied to a DataFrame). */
  function Filter<T(!new)>(s: seq<T>, p: T -> bool): (r: seq<T>)
    ensures |r| <= |s|
    ensures forall x :: x in r <==> x in s && p(x)
  {
    if s == [] then []
    else if p(s[0]) then [s[0]] + Filter(s[1..], p)
    else Filter(s[1..], p)
  }

  function Sum(s: seq<nat>): nat {
    if s == [] then 0 else s[0] + Sum(s[1..])
  }

  /** The element-wise sum of two rows of counts. */
  function Plus(a: seq<nat>, b: seq<nat>): (r: seq<nat>)
    requires |a| == |b|
    ensures |r| == |a| && forall j :: 0 <= j < |a| ==> r[j] == a[j] + b[j]
  {
    seq(|a|, j requires 0 <= j < |a| => a[j] + b[j])
  }

  /** 1 where `ds` holds `x`, 0 elsewhere. */
  function Hits<T(==)>(ds: seq<T>, x: T): (r: seq<nat>)
    ensures |r| == |ds| && forall j :: 0 <= j < |ds| ==> r[j] == if ds[j] == x then 1 else 0
  {
    seq(|ds|, j requires 0 <= j < |ds| => if ds[j] == x then 1 else 0)
  }

  lemma {:induction false} SumPlus(a: seq<nat>, b: seq<nat>)
    requires |a| == |b|
    ensures Sum(Plus(a, b)) == Sum(a) + Sum(b)
  {
    if a != [] {
      assert Plus(a, b)[1..] == Plus(a[1..], b[1..]);
      SumPlus(a[1..], b[1..]);
    }
  }

  lemma {:induction false} SumZeros(a: seq<nat>)
    requires forall j :: 0 <= j < |a| ==> a[j] == 0
    ensures Sum(a) == 0
  {
    if a != [] {
      SumZeros(a[1..]);
    }
  }

  /** Counting the places of `x` in a sequence without repeats gives 1 if it
      occurs and 0 if not. */
  lemma {:induction false} SumHits<T>(ds: seq<T>, x: T)
    requires forall i, j :: 0 <= i < j < |ds| ==> ds[i] != ds[j]
    ensures Sum(Hits(ds, x)) == if x in ds then 1 else 0
  {
    if ds != [] {
      assert Hits(ds, x)[1..] == Hits(ds[1..], x);
      if ds[0] == x {
        assert x !in ds[1..];
        SumZeros(Hits(ds[1..], x));
      } else {
        SumHits(ds[1..], x);
        assert x in ds <==> x in ds[1..];
      }
    }
  }
}
