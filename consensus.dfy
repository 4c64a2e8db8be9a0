/** `defence_our`: the indices most clients rank as important for a
    parameter are kept, each client's update restricted to those indices
    becomes one row of a feature matrix, an outlier detector labels the rows,
    and `defence_det` aggregates with the flagged clients dropped. The
    scaler and the detector together are an opaque function from the matrix
    to a label vector. */
module Consensus {
  import opened Basics
  import opened Aggregation

  /** One client's `omega_index`: for every parameter, its top-k positions. */
  type OmegaIndex = map<string, seq<nat>>

  /** `MinMaxScaler` followed by `SOS(...).labels_`. */
  type Detector = seq<seq<real>> -> seq<int>

  /** An index is kept when strictly more clients than this list it. */
  const ConsensusThreshold: nat := 90

  /** Each client's list for parameter n. */
  function Lists(omegas: seq<OmegaIndex>, n: string): (r: seq<seq<nat>>)
    requires forall j :: 0 <= j < |omegas| ==> n in omegas[j]
    ensures |r| == |omegas| && forall j :: 0 <= j < |omegas| ==> r[j] == omegas[j][n]
  {
    seq(|omegas|, j requires 0 <= j < |omegas| => omegas[j][n])
  }

  /** `list(chain(*aggregate_index))`: all clients' lists for n, one after another. */
  function Pooled(omegas: seq<OmegaIndex>, n: string): seq<nat>
    requires forall j :: 0 <= j < |omegas| ==> n in omegas[j]
  {
    Concat(Lists(omegas, n))
  }

  /** The keys of a `Counter` in insertion order: each value at its first occurrence. */
  function Dedup(p: seq<nat>): (r: seq<nat>)
    ensures Distinct(r)
    ensures forall v :: v in r <==> v in p
  {
    if |p| == 0 then []
    else
      var q := Dedup(p[..|p| - 1]);
      var last := p[|p| - 1];
      assert forall v :: v in p <==> v in p[..|p| - 1] || v == last;
      if last in q then q else q + [last]
  }

  /** The values of `order` whose count in `p` is above the threshold, in order. */
  function Above(order: seq<nat>, p: seq<nat>): seq<nat>
  {
    if |order| == 0 then []
    else
      var last := order[|order| - 1];
      Above(order[..|order| - 1], p) + (if multiset(p)[last] > ConsensusThreshold then [last] else [])
  }

  /** The kept indices for one parameter. */
  function Kept(p: seq<nat>): seq<nat>
  {
    Above(Dedup(p), p)
  }

  lemma {:induction false} AboveIff(order: seq<nat>, p: seq<nat>)
    requires Distinct(order)
    ensures Distinct(Above(order, p))
    ensures forall v :: v in Above(order, p) <==> v in order && multiset(p)[v] > ConsensusThreshold
  {
    if |order| > 0 {
      var q := order[..|order| - 1];
      assert Distinct(q);
      AboveIff(q, p);
      assert forall v :: v in order <==> v in q || v == order[|order| - 1];
    }
  }

  /** An index is kept iff more than 90 clients list it; each is kept once. */
  lemma KeptIff(p: seq<nat>)
    ensures Distinct(Kept(p))
    ensures forall v :: v in Kept(p) <==> multiset(p)[v] > ConsensusThreshold
  {
    AboveIff(Dedup(p), p);
  }

  lemma {:induction false} DistinctCountsOnce(s: seq<nat>, v: nat)
    requires Distinct(s)
    ensures multiset(s)[v] <= 1
  {
    if |s| > 0 {
      var q := s[..|s| - 1];
      assert s == q + [s[|s| - 1]];
      assert Distinct(q);
      DistinctCountsOnce(q, v);
      if s[|s| - 1] == v {
        assert v !in q;
      }
    }
  }

  /** Over lists without repeats, a value occurs at most once per list. */
  lemma {:induction false} PooledCountBound(ls: seq<seq<nat>>, v: nat)
    requires forall j :: 0 <= j < |ls| ==> Distinct(ls[j])
    ensures multiset(Concat<nat>(ls))[v] <= |ls|
  {
    if |ls| > 0 {
      PooledCountBound(ls[..|ls| - 1], v);
      DistinctCountsOnce(ls[|ls| - 1], v);
    }
  }

  /** With at most 90 clients, each listing an index at most once, no index
      is kept. */
  lemma FewClientsKeepNothing(omegas: seq<OmegaIndex>, n: string)
    requires forall j :: 0 <= j < |omegas| ==> n in omegas[j] && Distinct(omegas[j][n])
    requires |omegas| <= ConsensusThreshold
    ensures Kept(Pooled(omegas, n)) == []
  {
    var p := Pooled(omegas, n);
    KeptIff(p);
    var ls := Lists(omegas, n);
    assert forall j :: 0 <= j < |ls| ==> Distinct(ls[j]) by {
      forall j | 0 <= j < |ls| ensures Distinct(ls[j]) {
        assert ls[j] == omegas[j][n];
      }
    }
    assert p == Concat(ls);
    if Kept(p) != [] {
      var v := Kept(p)[0];
      assert v in Kept(p);
      PooledCountBound(ls, v);
      assert false;
    }
  }

  // ---------------------------------------------------------------------------
  // Feature rows

  /** `d - d_pre` on the selected positions of one parameter. */
  function Diffs(c: Tensor, cPre: Tensor, idx: seq<nat>): (r: seq<real>)
    requires forall m :: 0 <= m < |idx| ==> idx[m] < |c| && idx[m] < |cPre|
    ensures |r| == |idx| && forall m :: 0 <= m < |idx| ==> r[m] == c[idx[m]] - cPre[idx[m]]
  {
    seq(|idx|, m requires 0 <= m < |idx| => c[idx[m]] - cPre[idx[m]])
  }

  /** Every parameter of `keys` has a selection whose positions exist in the
      client's and the previous round's tensors. */
  ghost predicate RowDefined(c: StateDict, pre: StateDict, keys: seq<string>, sel: map<string, seq<nat>>)
  {
    forall k :: k in keys ==>
      && k in c.tensors && k in pre.tensors && k in sel
      && forall m :: 0 <= m < |sel[k]| ==> sel[k][m] < |c.tensors[k]| && sel[k][m] < |pre.tensors[k]|
  }

  /** A client's row: its change since the previous round at the kept
      positions, parameter after parameter. */
  function Row(c: StateDict, pre: StateDict, keys: seq<string>, sel: map<string, seq<nat>>): seq<real>
    requires RowDefined(c, pre, keys, sel)
  {
    if |keys| == 0 then []
    else
      var k := keys[|keys| - 1];
      Row(c, pre, keys[..|keys| - 1], sel) + Diffs(c.tensors[k], pre.tensors[k], sel[k])
  }

  /** How many positions are kept over all parameters of `keys`. */
  function SelectedCount(keys: seq<string>, sel: map<string, seq<nat>>): nat
    requires forall k :: k in keys ==> k in sel
  {
    if |keys| == 0 then 0 else SelectedCount(keys[..|keys| - 1], sel) + |sel[keys[|keys| - 1]]|
  }

  /** A row is as long as the number of kept positions, whoever the client:
      the feature matrix is rectangular, and a parameter with nothing kept
      adds no column. */
  lemma {:induction false} RowLength(c: StateDict, pre: StateDict, keys: seq<string>, sel: map<string, seq<nat>>)
    requires RowDefined(c, pre, keys, sel)
    ensures |Row(c, pre, keys, sel)| == SelectedCount(keys, sel)
  {
    if |keys| > 0 {
      RowLength(c, pre, keys[..|keys| - 1], sel);
    }
  }

  /** The selection `selected_index` induces for the parameters of `keys`. */
  ghost predicate Admissible(omegas: seq<OmegaIndex>, w: seq<StateDict>, pre: StateDict)
  {
    && |omegas| > 0 && Conforming(w)
    && (forall j, n :: 0 <= j < |omegas| && n in omegas[0] ==> n in omegas[j])
    && (forall n :: n in w[0].keys ==> n in omegas[0] && n in pre.tensors)
    && (forall n, j, m :: n in w[0].keys && 0 <= j < |omegas| && 0 <= m < |omegas[j][n]| ==>
          omegas[j][n][m] < |w[0].tensors[n]| && omegas[j][n][m] < |pre.tensors[n]|)
  }

  /** The kept positions of every parameter listed by client 0. */
  function Selection(omegas: seq<OmegaIndex>): (sel: map<string, seq<nat>>)
    requires |omegas| > 0 && forall j, n :: 0 <= j < |omegas| && n in omegas[0] ==> n in omegas[j]
    ensures forall n :: n in sel <==> n in omegas[0]
  {
    map n | n in omegas[0] :: Kept(Pooled(omegas, n))
  }

  /** Kept positions come from the lists, so they exist in every tensor. */
  lemma SelectionInRange(omegas: seq<OmegaIndex>, w: seq<StateDict>, pre: StateDict, i: nat)
    requires Admissible(omegas, w, pre) && i < |w|
    ensures RowDefined(w[i], pre, w[0].keys, Selection(omegas))
  {
    var sel := Selection(omegas);
    forall k, m | k in w[0].keys && 0 <= m < |sel[k]|
      ensures sel[k][m] < |w[i].tensors[k]| && sel[k][m] < |pre.tensors[k]|
    {
      var p := Pooled(omegas, k);
      KeptIff(p);
      assert sel[k][m] in p by {
        assert multiset(p)[sel[k][m]] > 0;
      }
      ConcatMember(Lists(omegas, k), sel[k][m]);
    }
  }

  lemma {:induction false} ConcatMember(ls: seq<seq<nat>>, v: nat)
    requires v in Concat(ls)
    ensures exists j, m :: 0 <= j < |ls| && 0 <= m < |ls[j]| && ls[j][m] == v
  {
    var q := ls[..|ls| - 1];
    if v in Concat(q) {
      ConcatMember(q, v);
      var j, m :| 0 <= j < |q| && 0 <= m < |q[j]| && q[j][m] == v;
      assert ls[j] == q[j];
    } else {
      var m :| 0 <= m < |ls[|ls| - 1]| && ls[|ls| - 1][m] == v;
    }
  }

  /** The feature matrix `X_norm`: one row per client. */
  function Features(omegas: seq<OmegaIndex>, w: seq<StateDict>, pre: StateDict): (x: seq<seq<real>>)
    requires Admissible(omegas, w, pre)
    ensures |x| == |w|
  {
    seq(|w|, i requires 0 <= i < |w| =>
      SelectionInRange(omegas, w, pre, i);
      Row(w[i], pre, w[0].keys, Selection(omegas)))
  }

  /** Row i of the features is client i's row. */
  lemma FeaturesAt(omegas: seq<OmegaIndex>, w: seq<StateDict>, pre: StateDict, i: nat)
    requires Admissible(omegas, w, pre) && i < |w|
    ensures RowDefined(w[i], pre, w[0].keys, Selection(omegas))
    ensures Features(omegas, w, pre)[i] == Row(w[i], pre, w[0].keys, Selection(omegas))
  {
    SelectionInRange(omegas, w, pre, i);
  }

  /** With at most 90 clients every row is empty. */
  lemma FewClientsGiveEmptyRows(omegas: seq<OmegaIndex>, w: seq<StateDict>, pre: StateDict)
    requires Admissible(omegas, w, pre) && |omegas| <= ConsensusThreshold
    requires forall j, n :: 0 <= j < |omegas| && n in omegas[j] ==> Distinct(omegas[j][n])
    ensures forall i :: 0 <= i < |w| ==> Features(omegas, w, pre)[i] == []
  {
    var sel := Selection(omegas);
    var keys := w[0].keys;
    forall n | n in keys ensures sel[n] == [] {
      FewClientsKeepNothing(omegas, n);
    }
    forall i | 0 <= i < |w| ensures Features(omegas, w, pre)[i] == [] {
      SelectionInRange(omegas, w, pre, i);
      RowLength(w[i], pre, keys, sel);
      NothingSelected(keys, sel);
    }
  }

  lemma {:induction false} NothingSelected(keys: seq<string>, sel: map<string, seq<nat>>)
    requires forall k :: k in keys ==> k in sel && sel[k] == []
    ensures SelectedCount(keys, sel) == 0
  {
    if |keys| > 0 {
      NothingSelected(keys[..|keys| - 1], sel);
    }
  }

  /** The first loop of `defence_our`: for every parameter client 0 has an
      index for, every client's list for it, chained (the `Counter` is kept
      as that list: its counts are the list's multiset, its key order the
      first occurrences). */
  method PoolIndices(omegas: seq<OmegaIndex>) returns (selectedIndex: map<string, seq<nat>>)
    requires |omegas| > 0 && forall j, n :: 0 <= j < |omegas| && n in omegas[0] ==> n in omegas[j]
    ensures forall n :: n in selectedIndex <==> n in omegas[0]
    ensures forall n :: n in selectedIndex ==> selectedIndex[n] == Pooled(omegas, n)
  {
    selectedIndex := map[];
    var remaining := omegas[0].Keys;
    while remaining != {}
      invariant remaining <= omegas[0].Keys
      invariant forall n :: n in selectedIndex <==> n in omegas[0] && n !in remaining
      invariant forall n :: n in selectedIndex ==> selectedIndex[n] == Pooled(omegas, n)
      decreases |remaining|
    {
      var n :| n in remaining;
      var aggregateIndex: seq<seq<nat>> := [];
      for j := 0 to |omegas|
        invariant aggregateIndex == Lists(omegas, n)[..j]
      {
        aggregateIndex := aggregateIndex + [omegas[j][n]];
        assert Lists(omegas, n)[..j + 1] == Lists(omegas, n)[..j] + [omegas[j][n]];
      }
      assert aggregateIndex == Lists(omegas, n);
      selectedIndex := selectedIndex[n := Concat(aggregateIndex)];
      remaining := remaining - {n};
    }
  }

  /** The `indice` loop: the counter's keys, in order, whose count is above 90. */
  method KeptIndices(p: seq<nat>) returns (indice: seq<nat>)
    ensures indice == Kept(p)
  {
    var order := Dedup(p);
    indice := [];
    for a := 0 to |order|
      invariant indice == Above(order[..a], p)
    {
      if multiset(p)[order[a]] > ConsensusThreshold {
        indice := indice + [order[a]];
      }
      assert order[..a + 1][..a] == order[..a];
    }
    assert order[..|order|] == order;
  }

  /** One client's row: for every parameter, its change at the kept
      positions, appended only when something is kept, then chained. */
  method FeatureRow(c: StateDict, pre: StateDict, keys: seq<string>, selectedIndex: map<string, seq<nat>>,
                    ghost sel: map<string, seq<nat>>)
    returns (row: seq<real>)
    requires RowDefined(c, pre, keys, sel)
    requires forall n :: n in keys ==> n in selectedIndex && Kept(selectedIndex[n]) == sel[n]
    ensures row == Row(c, pre, keys, sel)
  {
    var selectedWeights: seq<seq<real>> := [];
    for t := 0 to |keys|
      invariant Concat(selectedWeights) == Row(c, pre, keys[..t], sel)
    {
      var n := keys[t];
      var indice := KeptIndices(selectedIndex[n]);
      assert keys[..t + 1][..t] == keys[..t];
      if |indice| > 0 {
        selectedWeights := selectedWeights + [Diffs(c.tensors[n], pre.tensors[n], indice)];
      }
    }
    assert keys[..|keys|] == keys;
    row := Concat(selectedWeights);
  }

  /** The second loop of `defence_our`: one row per client. */
  method FeatureMatrix(omegas: seq<OmegaIndex>, w: seq<StateDict>, pre: StateDict, selectedIndex: map<string, seq<nat>>)
    returns (xNorm: seq<seq<real>>)
    requires Admissible(omegas, w, pre)
    requires forall n :: n in selectedIndex <==> n in omegas[0]
    requires forall n :: n in selectedIndex ==> selectedIndex[n] == Pooled(omegas, n)
    ensures xNorm == Features(omegas, w, pre)
  {
    ghost var sel := Selection(omegas);
    ghost var features := Features(omegas, w, pre);
    xNorm := [];
    for i := 0 to |w|
      invariant xNorm == features[..i]
    {
      SelectionInRange(omegas, w, pre, i);
      var row := FeatureRow(w[i], pre, w[0].keys, selectedIndex, sel);
      FeaturesSnoc(omegas, w, pre, i, xNorm, row);
      xNorm := xNorm + [row];
    }
  }

  /** Appending client i's row to the first i rows gives the first i + 1. */
  lemma FeaturesSnoc(omegas: seq<OmegaIndex>, w: seq<StateDict>, pre: StateDict, i: nat,
                     rows: seq<seq<real>>, row: seq<real>)
    requires Admissible(omegas, w, pre) && i < |w|
    requires rows == Features(omegas, w, pre)[..i]
    requires RowDefined(w[i], pre, w[0].keys, Selection(omegas))
    requires row == Row(w[i], pre, w[0].keys, Selection(omegas))
    ensures rows + [row] == Features(omegas, w, pre)[..i + 1]
  {
    var features := Features(omegas, w, pre);
    FeaturesAt(omegas, w, pre, i);
    assert features[..i + 1] == features[..i] + [features[i]];
  }

  /** `defence_our`: the counters, the feature rows, the detector's labels
      and the `defence_det` aggregate. With no kept position in any
      parameter the feature matrix has no column and the scaler's `fit`
      raises before the detector runs: None, with no labels. A label vector
      shorter than the client list makes `defence_det` raise; that, like the
      zero divisor, is None. */
  method DefenceOur(omegas: seq<OmegaIndex>, w: seq<StateDict>, pre: StateDict, detector: Detector)
    returns (wGlob: Option<StateDict>, labels: seq<int>)
    requires Admissible(omegas, w, pre)
    ensures SelectedCount(w[0].keys, Selection(omegas)) == 0 ==> wGlob.None? && labels == []
    ensures SelectedCount(w[0].keys, Selection(omegas)) > 0 ==> labels == detector(Features(omegas, w, pre))
    ensures wGlob.None? <==>
              || SelectedCount(w[0].keys, Selection(omegas)) == 0
              || |labels| < |w|
              || (Divisor(labels) == 0 && |w[0].keys| > 0)
    ensures wGlob.Some? ==> wGlob.value.keys == w[0].keys && WellFormed(wGlob.value)
    ensures wGlob.Some? ==> forall k :: k in w[0].keys ==> |wGlob.value.tensors[k]| == |w[0].tensors[k]|
    ensures wGlob.Some? ==> forall k, j :: k in w[0].keys && 0 <= j < |w[0].tensors[k]| ==>
              wGlob.value.tensors[k][j] == DetSum(w, labels, k, j, |w|) / Divisor(labels) as real
  {
    var selectedIndex := PoolIndices(omegas);
    var xNorm := FeatureMatrix(omegas, w, pre, selectedIndex);
    ColumnCount(omegas, w, pre);
    if |xNorm[0]| == 0 {
      return None, [];
    }
    labels := detector(xNorm);
    if |labels| < |w| {
      return None, labels;
    }
    wGlob := DefenceDet(w, labels);
  }

  /** The feature matrix has as many columns as kept positions over all
      parameters. */
  lemma ColumnCount(omegas: seq<OmegaIndex>, w: seq<StateDict>, pre: StateDict)
    requires Admissible(omegas, w, pre)
    ensures |Features(omegas, w, pre)[0]| == SelectedCount(w[0].keys, Selection(omegas))
  {
    SelectionInRange(omegas, w, pre, 0);
    RowLength(w[0], pre, w[0].keys, Selection(omegas));
  }
}
