/** The top-K index selection shared by the four contribution rules and by the
    importance cap: `torch.topk(v, K)[1]`, the indices of the K largest signed
    values, largest first. Ties go to the lowest index (torch leaves them
    unspecified; the contracts below hold whichever tied index is chosen). */
module Selection {
  import opened Basics

  /** The position of a largest value among positions i.. not in `taken`,
      the lowest such position on ties; None when every position is taken. */
  function BestFrom(v: seq<real>, taken: seq<nat>, i: nat): (r: Option<nat>)
    requires i <= |v|
    ensures r.Some? ==> i <= r.value < |v| && r.value !in taken
    ensures r.Some? ==> forall j :: i <= j < |v| && j !in taken ==> v[j] <= v[r.value]
    ensures r.None? <==> forall j :: i <= j < |v| ==> j in taken
    decreases |v| - i
  {
    if i == |v| then None
    else
      var rest := BestFrom(v, taken, i + 1);
      if i in taken then rest
      else if rest.None? || v[rest.value] <= v[i] then Some(i)
      else rest
  }

  /** `torch.argmax`: the first position of the largest value. */
  function ArgMax(v: seq<real>): (k: nat)
    requires |v| > 0
    ensures k < |v|
    ensures forall j :: 0 <= j < |v| ==> v[j] <= v[k]
    ensures forall j :: 0 <= j < k ==> v[j] < v[k]
  {
    ArgMaxFrom(v, 0)
  }

  function ArgMaxFrom(v: seq<real>, i: nat): (k: nat)
    requires i < |v|
    ensures i <= k < |v|
    ensures forall j :: i <= j < |v| ==> v[j] <= v[k]
    ensures forall j :: i <= j < k ==> v[j] < v[k]
    decreases |v| - i
  {
    if i == |v| - 1 then i
    else
      var rest := ArgMaxFrom(v, i + 1);
      if v[rest] <= v[i] then i else rest
  }

  /** The indices of the k largest values of v, in non-increasing order of value. */
  function TopK(v: seq<real>, k: nat): (r: seq<nat>)
    requires k <= |v|
    ensures |r| == k && Distinct(r)
    ensures forall a :: 0 <= a < |r| ==> r[a] < |v|
    ensures forall a, b :: 0 <= a < b < |r| ==> v[r[b]] <= v[r[a]]
    ensures forall a, j :: 0 <= a < |r| && 0 <= j < |v| && j !in r ==> v[j] <= v[r[a]]
    decreases k
  {
    if k == 0 then []
    else
      var prev := TopK(v, k - 1);
      FreePositionExists(prev, |v|);
      var m := BestFrom(v, prev, 0);
      prev + [m.value]
  }

  /** A duplicate-free list of fewer than n positions below n misses one of them. */
  lemma FreePositionExists(s: seq<nat>, n: nat)
    requires Distinct(s) && |s| < n
    requires forall a :: 0 <= a < |s| ==> s[a] < n
    ensures exists j :: 0 <= j < n && j !in s
  {
    if forall j :: 0 <= j < n ==> j in s {
      BelowMembers(n);
      SubsetCardinality(Below(n), Elems(s));
      BelowCardinality(n);
      ElemsCardinality(s);
      assert false;
    }
  }

  /** A selected position is never worth less than an unselected one, so the
      selection is determined up to ties: two positions whose values differ
      cannot be swapped in or out of it. */
  lemma {:induction false} TopKIsUpperSet(v: seq<real>, k: nat, i: nat, j: nat)
    requires k <= |v| && i < |v| && j < |v|
    requires i in TopK(v, k) && v[i] < v[j]
    ensures j in TopK(v, k)
  {
    var r := TopK(v, k);
    var a :| 0 <= a < |r| && r[a] == i;
  }
}
