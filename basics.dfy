/** Small shared vocabulary: an option type, duplicate-free sequences,
    concatenation, sums of real vectors and Python's truncating int(). */
module Basics {

  datatype Option<T> = None | Some(value: T)

  /** A tensor, flattened in row-major order. */
  type Tensor = seq<real>

  /** No element occurs twice. */
  predicate Distinct<T(==)>(s: seq<T>)
  {
    forall i, j :: 0 <= i < j < |s| ==> s[i] != s[j]
  }

  /** Concatenation of a list of lists, as `list(chain(*ss))`. */
  function Concat<T>(ss: seq<seq<T>>): seq<T>
  {
    if |ss| == 0 then [] else Concat(ss[..|ss| - 1]) + ss[|ss| - 1]
  }

  lemma {:induction false} ConcatLength<T>(ss: seq<seq<T>>)
    ensures |Concat(ss)| == SumLengths(ss)
  {
    if |ss| > 0 {
      ConcatLength(ss[..|ss| - 1]);
    }
  }

  /** Part t sits in the concatenation right after the parts before it. */
  lemma {:induction false} ConcatSlice<T>(ss: seq<seq<T>>, t: nat)
    requires t < |ss|
    ensures SumLengths(ss[..t]) + |ss[t]| <= |Concat(ss)|
    ensures Concat(ss)[SumLengths(ss[..t])..SumLengths(ss[..t]) + |ss[t]|] == ss[t]
  {
    var n := |ss|;
    var p := ss[..n - 1];
    var c := Concat(p);
    ConcatLength(p);
    assert Concat(ss) == c + ss[n - 1];
    if t == n - 1 {
      assert ss[..t] == p;
      SliceOfAppend(c, ss[t], |c|, |c| + |ss[t]|);
    } else {
      assert p[..t] == ss[..t];
      assert p[t] == ss[t];
      ConcatSlice(p, t);
      var lo := SumLengths(ss[..t]);
      SliceOfAppend(c, ss[n - 1], lo, lo + |ss[t]|);
    }
  }

  /** A slice of `a + b` lies within `a` or within `b`. */
  lemma SliceOfAppend<T>(a: seq<T>, b: seq<T>, lo: nat, hi: nat)
    requires lo <= hi <= |a| + |b|
    ensures hi <= |a| ==> (a + b)[lo..hi] == a[lo..hi]
    ensures lo == |a| ==> (a + b)[lo..hi] == b[..hi - |a|]
  {
  }

  function SumLengths<T>(ss: seq<seq<T>>): nat
  {
    if |ss| == 0 then 0 else SumLengths(ss[..|ss| - 1]) + |ss[|ss| - 1]|
  }

  /** Sum of an integer vector, as `sum(...)` on labels. */
  function SumInts(s: seq<int>): int
  {
    if |s| == 0 then 0 else SumInts(s[..|s| - 1]) + s[|s| - 1]
  }

  /** Sum of a real vector. */
  function Sum(s: seq<real>): real
  {
    if |s| == 0 then 0.0 else Sum(s[..|s| - 1]) + s[|s| - 1]
  }

  /** Python's `int(r)` on a float: truncation toward zero. */
  function TruncToInt(r: real): (k: int)
    ensures 0.0 <= r ==> 0 <= k && k as real <= r < k as real + 1.0
    ensures r < 0.0 ==> k <= 0 && k as real - 1.0 < r <= k as real
  {
    if r >= 0.0 then r.Floor else -((-r).Floor)
  }

  /** Element-wise sum of two vectors of the same length. */
  function AddVec(a: seq<real>, b: seq<real>): (r: seq<real>)
    requires |a| == |b|
    ensures |r| == |a| && forall j :: 0 <= j < |a| ==> r[j] == a[j] + b[j]
  {
    seq(|a|, j requires 0 <= j < |a| => a[j] + b[j])
  }

  /** Element-wise division by a scalar, as `torch.div(t, d)`. */
  function DivVec(a: seq<real>, d: real): (r: seq<real>)
    requires d != 0.0
    ensures |r| == |a| && forall j :: 0 <= j < |a| ==> r[j] == a[j] / d
  {
    seq(|a|, j requires 0 <= j < |a| => a[j] / d)
  }

  /** The set of elements of a sequence. */
  function Elems<T>(s: seq<T>): set<T>
  {
    set x | x in s
  }

  /** The positions 0 .. n-1 as a set. */
  function Below(n: nat): set<nat>
  {
    if n == 0 then {} else Below(n - 1) + {n - 1}
  }

  lemma {:induction false} BelowMembers(n: nat)
    ensures forall j: nat :: j in Below(n) <==> j < n
  {
    if n > 0 {
      BelowMembers(n - 1);
    }
  }

  /** A subset is no larger than its superset. */
  lemma {:induction false} SubsetCardinality<T>(a: set<T>, b: set<T>)
    requires a <= b
    ensures |a| <= |b|
  {
    if a != {} {
      var x :| x in a;
      SubsetCardinality(a - {x}, b - {x});
    }
  }

  lemma {:induction false} BelowCardinality(n: nat)
    ensures |Below(n)| == n
  {
    if n > 0 {
      BelowCardinality(n - 1);
      BelowMembers(n - 1);
      assert n - 1 !in Below(n - 1);
    }
  }

  /** A sequence has at most as many distinct elements as entries, exactly as
      many when it is duplicate-free. */
  lemma {:induction false} ElemsCardinality<T>(s: seq<T>)
    ensures |Elems(s)| <= |s|
    ensures Distinct(s) ==> |Elems(s)| == |s|
  {
    if |s| > 0 {
      var p := s[..|s| - 1];
      ElemsCardinality(p);
      assert Elems(s) == Elems(p) + {s[|s| - 1]};
      if Distinct(s) {
        assert Distinct(p);
        assert s[|s| - 1] !in Elems(p);
      }
    }
  }

  /** A duplicate-free sequence of values below n is at most n long. */
  lemma DistinctBelowLength(s: seq<nat>, n: nat)
    requires Distinct(s)
    requires forall j :: 0 <= j < |s| ==> s[j] < n
    ensures |s| <= n
  {
    ElemsCardinality(s);
    BelowCardinality(n);
    BelowMembers(n);
    SubsetCardinality(Elems(s), Below(n));
  }

  /** `list(s)` for a set: its elements, each once, in some order. */
  method SetToList<T>(s: set<T>) returns (r: seq<T>)
    ensures Distinct(r) && Elems(r) == s
  {
    r := [];
    var rest := s;
    while rest != {}
      invariant Distinct(r)
      invariant Elems(r) + rest == s
      invariant Elems(r) !! rest
      decreases |rest|
    {
      var e :| e in rest;
      r := r + [e];
      rest := rest - {e};
    }
  }
}
