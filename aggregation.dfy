/** Federated aggregation over clients' `state_dict`s: plain averaging
    (`FedAvg`), flattening one model's parameters into a vector
    (`getGradVec`), and averaging with the clients a detector flagged left
    out (`defence_det`). Tensors are flattened and the arithmetic is exact. */
module Aggregation {
  import opened Basics

  /** A `state_dict`: the parameter names in order and each one's tensor. */
  datatype StateDict = StateDict(keys: seq<string>, tensors: map<string, Tensor>)

  ghost predicate WellFormed(w: StateDict)
  {
    Distinct(w.keys) && forall k :: k in w.keys ==> k in w.tensors
  }

  /** Every client has every parameter of client 0, with as many entries. */
  ghost predicate Conforming(w: seq<StateDict>)
  {
    && |w| > 0 && WellFormed(w[0])
    && forall i, k :: 0 <= i < |w| && k in w[0].keys ==>
         k in w[i].tensors && |w[i].tensors[k]| == |w[0].tensors[k]|
  }

  /** Entry j of parameter k summed over clients 0 .. n-1. */
  function ColumnSum(w: seq<StateDict>, k: string, j: nat, n: nat): real
    requires Conforming(w) && k in w[0].keys && j < |w[0].tensors[k]| && n <= |w|
  {
    if n == 0 then 0.0 else ColumnSum(w, k, j, n - 1) + w[n - 1].tensors[k][j]
  }

  /** `FedAvg`: for every parameter of client 0, the entry-wise sum over all
      clients divided by the number of clients. The result is a new value;
      the clients' dictionaries are not changed. */
  method FedAvg(w: seq<StateDict>) returns (avg: StateDict)
    requires Conforming(w)
    ensures avg.keys == w[0].keys && WellFormed(avg)
    ensures forall k :: k in avg.keys ==> |avg.tensors[k]| == |w[0].tensors[k]|
    ensures forall k, j :: k in avg.keys && 0 <= j < |w[0].tensors[k]| ==>
              avg.tensors[k][j] == ColumnSum(w, k, j, |w|) / |w| as real
  {
    var keys := w[0].keys;
    avg := w[0];
    for t := 0 to |keys|
      invariant avg.keys == keys
      invariant forall k :: k in keys ==> k in avg.tensors && |avg.tensors[k]| == |w[0].tensors[k]|
      invariant forall s, j :: 0 <= s < t && 0 <= j < |w[0].tensors[keys[s]]| ==>
                  avg.tensors[keys[s]][j] == ColumnSum(w, keys[s], j, |w|) / |w| as real
      invariant forall s :: t <= s < |keys| ==> avg.tensors[keys[s]] == w[0].tensors[keys[s]]
    {
      var k := keys[t];
      var acc := avg.tensors[k];
      for i := 1 to |w|
        invariant |acc| == |w[0].tensors[k]|
        invariant forall j :: 0 <= j < |acc| ==> acc[j] == ColumnSum(w, k, j, i)
      {
        acc := AddVec(acc, w[i].tensors[k]);
      }
      avg := avg.(tensors := avg.tensors[k := DivVec(acc, |w| as real)]);
      assert forall s :: 0 <= s < |keys| && s != t ==> keys[s] != k;
    }
  }

  /** Averaging clients that all hold the same value of a parameter gives
      that value back. */
  lemma {:induction false} ColumnSumOfCopies(w: seq<StateDict>, k: string, j: nat, n: nat)
    requires Conforming(w) && k in w[0].keys && j < |w[0].tensors[k]| && n <= |w|
    requires forall i :: 0 <= i < |w| ==> w[i].tensors[k] == w[0].tensors[k]
    ensures ColumnSum(w, k, j, n) == n as real * w[0].tensors[k][j]
  {
    if n > 0 {
      ColumnSumOfCopies(w, k, j, n - 1);
    }
  }

  lemma MeanOfCopies(w: seq<StateDict>, k: string, j: nat)
    requires Conforming(w) && k in w[0].keys && j < |w[0].tensors[k]|
    requires forall i :: 0 <= i < |w| ==> w[i].tensors[k] == w[0].tensors[k]
    ensures ColumnSum(w, k, j, |w|) / |w| as real == w[0].tensors[k][j]
  {
    ColumnSumOfCopies(w, k, j, |w|);
  }

  // ---------------------------------------------------------------------------
  // getGradVec

  /** The parameter tensors in key order. */
  function Parts(w: StateDict): (r: seq<Tensor>)
    requires WellFormed(w)
    ensures |r| == |w.keys| && forall t :: 0 <= t < |w.keys| ==> r[t] == w.tensors[w.keys[t]]
  {
    seq(|w.keys|, t requires 0 <= t < |w.keys| => w.tensors[w.keys[t]])
  }

  /** Where parameter t starts in the flattened vector: the sizes of the
      parameters before it. */
  function Offset(w: StateDict, t: nat): nat
    requires WellFormed(w) && t <= |w.keys|
  {
    SumLengths(Parts(w)[..t])
  }

  /** `getGradVec`: the tensors, each viewed flat, concatenated in key order.
      Its length is the total number of entries, and parameter t occupies
      the stretch that starts at its offset. */
  method GetGradVec(w: StateDict) returns (v: seq<real>)
    requires WellFormed(w)
    ensures |v| == SumLengths(Parts(w))
    ensures forall t :: 0 <= t < |w.keys| ==>
              Offset(w, t) + |w.tensors[w.keys[t]]| <= |v| &&
              v[Offset(w, t)..Offset(w, t) + |w.tensors[w.keys[t]]|] == w.tensors[w.keys[t]]
  {
    var gradVec: seq<Tensor> := [];
    for t := 0 to |w.keys|
      invariant gradVec == Parts(w)[..t]
    {
      gradVec := gradVec + [w.tensors[w.keys[t]]];
      assert Parts(w)[..t + 1] == Parts(w)[..t] + [Parts(w)[t]];
    }
    assert gradVec == Parts(w);
    v := Concat(gradVec);
    ConcatLength(gradVec);
    forall t | 0 <= t < |w.keys|
      ensures Offset(w, t) + |w.tensors[w.keys[t]]| <= |v|
      ensures v[Offset(w, t)..Offset(w, t) + |w.tensors[w.keys[t]]|] == w.tensors[w.keys[t]]
    {
      ConcatSlice(gradVec, t);
    }
  }

  // ---------------------------------------------------------------------------
  // defence_det

  /** `len(d_out) - sum(d_out)`: with 0/1 labels, the number of clients not flagged. */
  function Divisor(d: seq<int>): int
  {
    |d| - SumInts(d)
  }

  /** Client 0's entry plus the entries of clients 1 .. n-1 labelled 0. */
  function DetSum(w: seq<StateDict>, d: seq<int>, k: string, j: nat, n: nat): real
    requires Conforming(w) && |d| >= |w| && k in w[0].keys && j < |w[0].tensors[k]| && 1 <= n <= |w|
  {
    if n == 1 then w[0].tensors[k][j]
    else DetSum(w, d, k, j, n - 1) + (if d[n - 1] == 0 then w[n - 1].tensors[k][j] else 0.0)
  }

  /** `defence_det`: for every parameter, client 0 plus the unflagged clients
      among the others, divided by the number of unflagged clients. The
      division by zero when every client is flagged (torch yields inf/nan)
      is None; with no parameters nothing is divided. */
  method DefenceDet(w: seq<StateDict>, d: seq<int>) returns (r: Option<StateDict>)
    requires Conforming(w) && |d| >= |w|
    ensures r.None? <==> Divisor(d) == 0 && |w[0].keys| > 0
    ensures r.Some? ==> r.value.keys == w[0].keys && WellFormed(r.value)
    ensures r.Some? ==> forall k :: k in w[0].keys ==> |r.value.tensors[k]| == |w[0].tensors[k]|
    ensures r.Some? ==> forall k, j :: k in w[0].keys && 0 <= j < |w[0].tensors[k]| ==>
              r.value.tensors[k][j] == DetSum(w, d, k, j, |w|) / Divisor(d) as real
  {
    var keys := w[0].keys;
    var avg := w[0];
    var divisor := |d| - SumInts(d);
    for t := 0 to |keys|
      invariant avg.keys == keys
      invariant forall k :: k in keys ==> k in avg.tensors && |avg.tensors[k]| == |w[0].tensors[k]|
      invariant t > 0 ==> divisor != 0
      invariant forall s, j :: 0 <= s < t && 0 <= j < |w[0].tensors[keys[s]]| ==>
                  avg.tensors[keys[s]][j] == DetSum(w, d, keys[s], j, |w|) / divisor as real
      invariant forall s :: t <= s < |keys| ==> avg.tensors[keys[s]] == w[0].tensors[keys[s]]
    {
      var k := keys[t];
      var acc := avg.tensors[k];
      for i := 1 to |w|
        invariant |acc| == |w[0].tensors[k]|
        invariant forall j :: 0 <= j < |acc| ==> acc[j] == DetSum(w, d, k, j, i)
      {
        if d[i] == 0 {
          acc := AddVec(acc, w[i].tensors[k]);
        }
      }
      if divisor == 0 {
        return None;
      }
      avg := avg.(tensors := avg.tensors[k := DivVec(acc, divisor as real)]);
      assert forall s :: 0 <= s < |keys| && s != t ==> keys[s] != k;
    }
    return Some(avg);
  }

  /** Labels are the detector's 0 (clean) / 1 (poisoned). */
  predicate Binary(d: seq<int>)
  {
    forall i :: 0 <= i < |d| ==> d[i] == 0 || d[i] == 1
  }

  /** How many clients are labelled clean. */
  function CleanCount(d: seq<int>): nat
  {
    if |d| == 0 then 0 else CleanCount(d[..|d| - 1]) + (if d[|d| - 1] == 0 then 1 else 0)
  }

  /** The sum over the clients labelled clean, client 0 included only if it is. */
  function CleanSum(w: seq<StateDict>, d: seq<int>, k: string, j: nat, n: nat): real
    requires Conforming(w) && |d| >= |w| && k in w[0].keys && j < |w[0].tensors[k]| && n <= |w|
  {
    if n == 0 then 0.0
    else CleanSum(w, d, k, j, n - 1) + (if d[n - 1] == 0 then w[n - 1].tensors[k][j] else 0.0)
  }

  /** With 0/1 labels the divisor is the number of clients labelled clean. */
  lemma {:induction false} DivisorCountsClean(d: seq<int>)
    requires Binary(d)
    ensures Divisor(d) == CleanCount(d)
  {
    if |d| > 0 {
      DivisorCountsClean(d[..|d| - 1]);
    }
  }

  /** The summed part: client 0 always, then exactly the clean clients. */
  lemma {:induction false} DetSumIsClientZeroPlusClean(w: seq<StateDict>, d: seq<int>, k: string, j: nat, n: nat)
    requires Conforming(w) && |d| >= |w| && k in w[0].keys && j < |w[0].tensors[k]| && 1 <= n <= |w|
    ensures DetSum(w, d, k, j, n) == w[0].tensors[k][j] + CleanSum(w, d, k, j, n) - CleanSum(w, d, k, j, 1)
  {
    if n > 1 {
      DetSumIsClientZeroPlusClean(w, d, k, j, n - 1);
    }
  }

  /** When client 0 is labelled clean, `defence_det` is the mean of the clean
      clients: the summed part is their sum and the divisor their number. */
  lemma DefenceDetIsCleanMean(w: seq<StateDict>, d: seq<int>, k: string, j: nat)
    requires Conforming(w) && |d| == |w| && Binary(d) && d[0] == 0
    requires k in w[0].keys && j < |w[0].tensors[k]|
    ensures DetSum(w, d, k, j, |w|) == CleanSum(w, d, k, j, |w|)
    ensures Divisor(d) == CleanCount(d) && CleanCount(d) > 0
  {
    DetSumIsClientZeroPlusClean(w, d, k, j, |w|);
    DivisorCountsClean(d);
    CleanCountPositive(d);
  }

  lemma {:induction false} CleanCountPositive(d: seq<int>)
    requires |d| > 0 && d[0] == 0
    ensures CleanCount(d) > 0
  {
    if |d| > 1 {
      CleanCountPositive(d[..|d| - 1]);
    }
  }

  /** When client 0 is flagged its parameters are still summed: the result
      is the clean clients' sum plus client 0's, over their number. */
  lemma FlaggedClientZeroStillSummed(w: seq<StateDict>, d: seq<int>, k: string, j: nat)
    requires Conforming(w) && |d| == |w| && Binary(d) && d[0] == 1
    requires k in w[0].keys && j < |w[0].tensors[k]|
    ensures DetSum(w, d, k, j, |w|) == w[0].tensors[k][j] + CleanSum(w, d, k, j, |w|)
    ensures Divisor(d) == CleanCount(d)
  {
    DetSumIsClientZeroPlusClean(w, d, k, j, |w|);
    DivisorCountsClean(d);
  }

  /** With no client flagged, `defence_det` is `FedAvg`. */
  lemma {:induction false} NoneFlaggedIsFedAvg(w: seq<StateDict>, d: seq<int>, k: string, j: nat, n: nat)
    requires Conforming(w) && |d| == |w| && forall i :: 0 <= i < |d| ==> d[i] == 0
    requires k in w[0].keys && j < |w[0].tensors[k]| && 1 <= n <= |w|
    ensures DetSum(w, d, k, j, n) == ColumnSum(w, k, j, n)
    ensures Divisor(d) == |w|
  {
    if n > 1 {
      NoneFlaggedIsFedAvg(w, d, k, j, n - 1);
    } else {
      DivisorCountsClean(d);
      AllCleanCount(d);
    }
  }

  lemma {:induction false} AllCleanCount(d: seq<int>)
    requires forall i :: 0 <= i < |d| ==> d[i] == 0
    ensures CleanCount(d) == |d|
  {
    if |d| > 0 {
      AllCleanCount(d[..|d| - 1]);
    }
  }
}
