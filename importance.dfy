/** The per-client importance tracker of the training loop: an accumulator of
    `-grad * displacement` per weight, its consolidation into an importance
    score per weight (`consolidate`), and the top-K positions of each score
    tensor that the client reports as its `omega_index`. */
module Importance {
  import opened Basics
  import opened Selection
  import Profiler
  import Consensus

  /** The importance of one weight: `max(W, 0) / (change^2 + eps)`. */
  function ImportanceOf(weight: real, change: real, eps: real): (r: real)
    requires eps > 0.0
    ensures r >= 0.0
    ensures r == 0.0 <==> weight <= 0.0
  {
    var d := change * change + eps;
    assert d > 0.0 by { assert change * change >= 0.0; }
    (if weight > 0.0 then weight else 0.0) / d
  }

  /** A weight that did not move scores highest: its importance is its
      clipped accumulator over eps, and any displacement only lowers it. */
  lemma UnmovedScoresHighest(weight: real, change: real, eps: real)
    requires eps > 0.0
    ensures ImportanceOf(weight, 0.0, eps) == (if weight > 0.0 then weight else 0.0) / eps
    ensures ImportanceOf(weight, change, eps) <= ImportanceOf(weight, 0.0, eps)
  {
    var m := if weight > 0.0 then weight else 0.0;
    var d := change * change + eps;
    assert change * change >= 0.0;
    assert d >= eps;
    var a, b := m / d, m / eps;
    assert a * d == m && b * eps == m;
  }

  /** A larger accumulator never scores lower for the same displacement. */
  lemma ImportanceMonotone(w1: real, w2: real, change: real, eps: real)
    requires eps > 0.0 && w1 <= w2
    ensures ImportanceOf(w1, change, eps) <= ImportanceOf(w2, change, eps)
  {
    var d := change * change + eps;
    assert change * change >= 0.0;
    var m1 := if w1 > 0.0 then w1 else 0.0;
    var m2 := if w2 > 0.0 then w2 else 0.0;
    assert m1 <= m2;
    assert m1 / d <= m2 / d by {
      assert (m2 - m1) / d >= 0.0;
      assert m2 / d - m1 / d == (m2 - m1) / d;
    }
  }

  /** One parameter's importance tensor, position by position. */
  function ImportanceVec(weight: Tensor, current: Tensor, start: Tensor, eps: real): (r: Tensor)
    requires eps > 0.0 && |weight| == |current| == |start|
    ensures |r| == |weight|
    ensures forall j :: 0 <= j < |r| ==> r[j] == ImportanceOf(weight[j], current[j] - start[j], eps)
  {
    seq(|weight|, j requires 0 <= j < |weight| => ImportanceOf(weight[j], current[j] - start[j], eps))
  }

  /** The parameter tensors agree in shape for every named parameter. */
  predicate Shaped(names: seq<string>, current: map<string, Tensor>, weight: map<string, Tensor>,
                   meanPre: map<string, Tensor>)
  {
    forall n :: n in names ==>
      && n in current && n in weight && n in meanPre
      && |weight[n]| == |current[n]| == |meanPre[n]|
  }

  /** `consolidate`: a zero tensor per named parameter, then each replaced by
      that parameter's importance scores. */
  method Consolidate(names: seq<string>, current: map<string, Tensor>, weight: map<string, Tensor>,
                     meanPre: map<string, Tensor>, eps: real)
    returns (omega: map<string, Tensor>)
    requires eps > 0.0
    requires Shaped(names, current, weight, meanPre)
    ensures forall n :: n in omega <==> n in names
    ensures forall n :: n in omega ==>
              && |omega[n]| == |current[n]|
              && forall j :: 0 <= j < |omega[n]| ==>
                   && omega[n][j] == ImportanceOf(weight[n][j], current[n][j] - meanPre[n][j], eps)
                   && omega[n][j] >= 0.0
                   && (omega[n][j] == 0.0 <==> weight[n][j] <= 0.0)
  {
    omega := map n | n in Elems(names) :: seq(|current[n]|, _ => 0.0);
    for i := 0 to |names|
      invariant forall n :: n in omega <==> n in names
      invariant forall n :: n in omega ==> |omega[n]| == |current[n]|
      invariant forall n :: n in names[..i] ==> omega[n] == ImportanceVec(weight[n], current[n], meanPre[n], eps)
    {
      var n := names[i];
      omega := omega[n := ImportanceVec(weight[n], current[n], meanPre[n], eps)];
      assert forall m :: m in names[..i + 1] ==> m in names[..i] || m == n;
    }
    assert names[..|names|] == names;
  }

  // ---------------------------------------------------------------------------
  // The accumulator `w[n] -= grad * (p - old)`

  /** The inputs of one accumulator step agree in shape: one gradient per
      name, and every tensor of a name as long as its accumulator. */
  predicate StepShaped(w: map<string, Tensor>, names: seq<string>, grads: seq<Tensor>,
                       now: map<string, Tensor>, before: map<string, Tensor>)
  {
    && |grads| == |names|
    && forall j :: 0 <= j < |names| ==>
         && names[j] in w && names[j] in now && names[j] in before
         && |grads[j]| == |w[names[j]]| == |now[names[j]]| == |before[names[j]]|
  }

  /** `a - g * (p - q)` element-wise. */
  function StepVec(a: Tensor, g: Tensor, p: Tensor, q: Tensor): (r: Tensor)
    requires |a| == |g| == |p| == |q|
    ensures |r| == |a|
    ensures forall k :: 0 <= k < |a| ==> r[k] == a[k] - g[k] * (p[k] - q[k])
  {
    seq(|a|, k requires 0 <= k < |a| => a[k] - g[k] * (p[k] - q[k]))
  }

  /** The accumulator after the names are processed in order, the j-th name
      with the j-th gradient. */
  function Accumulated(w: map<string, Tensor>, names: seq<string>, grads: seq<Tensor>,
                       now: map<string, Tensor>, before: map<string, Tensor>): (r: map<string, Tensor>)
    requires StepShaped(w, names, grads, now, before)
    ensures r.Keys == w.Keys
    ensures forall n :: n in r ==> |r[n]| == |w[n]|
    decreases |names|
  {
    if |names| == 0 then w
    else
      var k := |names| - 1;
      var prev := Accumulated(w, names[..k], grads[..k], now, before);
      var n := names[k];
      prev[n := StepVec(prev[n], grads[k], now[n], before[n])]
  }

  /** The update loop of one batch: each named parameter's accumulator loses
      its gradient times its displacement. */
  method Accumulate(w: map<string, Tensor>, names: seq<string>, grads: seq<Tensor>,
                    now: map<string, Tensor>, before: map<string, Tensor>)
    returns (w': map<string, Tensor>)
    requires StepShaped(w, names, grads, now, before)
    ensures w' == Accumulated(w, names, grads, now, before)
  {
    w' := w;
    var j := 0;
    PrefixShaped(w, names, grads, now, before, 0);
    while j < |names|
      invariant 0 <= j <= |names|
      invariant StepShaped(w, names[..j], grads[..j], now, before)
      invariant w' == Accumulated(w, names[..j], grads[..j], now, before)
    {
      var n := names[j];
      AccumulatedSnoc(w, names, grads, now, before, j);
      w' := w'[n := StepVec(w'[n], grads[j], now[n], before[n])];
      j := j + 1;
    }
    assert names[..j] == names && grads[..j] == grads;
  }

  lemma PrefixShaped(w: map<string, Tensor>, names: seq<string>, grads: seq<Tensor>,
                     now: map<string, Tensor>, before: map<string, Tensor>, j: nat)
    requires StepShaped(w, names, grads, now, before) && j <= |names|
    ensures StepShaped(w, names[..j], grads[..j], now, before)
  {
  }

  /** One more name processed: its accumulator takes one step. */
  lemma AccumulatedSnoc(w: map<string, Tensor>, names: seq<string>, grads: seq<Tensor>,
                        now: map<string, Tensor>, before: map<string, Tensor>, j: nat)
    requires StepShaped(w, names, grads, now, before) && j < |names|
    ensures StepShaped(w, names[..j], grads[..j], now, before)
    ensures StepShaped(w, names[..j + 1], grads[..j + 1], now, before)
    ensures var prev := Accumulated(w, names[..j], grads[..j], now, before);
            var n := names[j];
            Accumulated(w, names[..j + 1], grads[..j + 1], now, before)
              == prev[n := StepVec(prev[n], grads[j], now[n], before[n])]
  {
    PrefixShaped(w, names, grads, now, before, j);
    PrefixShaped(w, names, grads, now, before, j + 1);
    assert names[..j + 1][..j] == names[..j] && grads[..j + 1][..j] == grads[..j];
  }

  /** An accumulator whose name is not processed keeps its value. */
  lemma {:induction false} AccumulatedUntouched(w: map<string, Tensor>, names: seq<string>, grads: seq<Tensor>,
                                                now: map<string, Tensor>, before: map<string, Tensor>)
    requires StepShaped(w, names, grads, now, before)
    ensures forall n :: n in w && n !in names ==> Accumulated(w, names, grads, now, before)[n] == w[n]
  {
    if |names| > 0 {
      var k := |names| - 1;
      assert StepShaped(w, names[..k], grads[..k], now, before);
      AccumulatedUntouched(w, names[..k], grads[..k], now, before);
      forall n | n in w && n !in names
        ensures Accumulated(w, names, grads, now, before)[n] == w[n]
      {
        assert n !in names[..k];
      }
    }
  }

  /** With distinct names, each accumulator moves by its own gradient once. */
  lemma {:induction false} AccumulatedPointwise(w: map<string, Tensor>, names: seq<string>, grads: seq<Tensor>,
                                                now: map<string, Tensor>, before: map<string, Tensor>)
    requires StepShaped(w, names, grads, now, before) && Distinct(names)
    ensures forall j :: 0 <= j < |names| ==>
              Accumulated(w, names, grads, now, before)[names[j]]
                == StepVec(w[names[j]], grads[j], now[names[j]], before[names[j]])
  {
    if |names| > 0 {
      var k := |names| - 1;
      var prefix, gs := names[..k], grads[..k];
      assert StepShaped(w, prefix, gs, now, before);
      assert Distinct(prefix);
      AccumulatedPointwise(w, prefix, gs, now, before);
      AccumulatedUntouched(w, prefix, gs, now, before);
      assert names[k] !in prefix;
      forall j | 0 <= j < k
        ensures Accumulated(w, names, grads, now, before)[names[j]]
                  == StepVec(w[names[j]], grads[j], now[names[j]], before[names[j]])
      {
        assert names[j] != names[k];
        assert prefix[j] == names[j] && gs[j] == grads[j];
      }
    }
  }

  // ---------------------------------------------------------------------------
  // The per-tensor top-K cap and the client's `omega_index`

  /** How many positions a client reports for a tensor of `size` entries:
      100 above 1000 entries, otherwise `int(0.1 * size)`. */
  function CapFor(size: nat): (k: nat)
    ensures k <= size && k <= 100
    ensures size > 1000 ==> k == 100
    ensures size <= 1000 ==> k == TruncToInt(Profiler.FixedThreshold * size as real) == size / 10
  {
    if size > 1000 then 100
    else
      Profiler.TenthOfSize(size);
      size / 10
  }

  /** The positions a client reports for one importance tensor. */
  function Reported(v: Tensor): (r: seq<nat>)
    ensures |r| == CapFor(|v|) && Distinct(r)
    ensures forall a :: 0 <= a < |r| ==> r[a] < |v|
    ensures forall a, j :: 0 <= a < |r| && 0 <= j < |v| && j !in r ==> v[j] <= v[r[a]]
  {
    TopK(v, CapFor(|v|))
  }

  /** The loop over `omega.keys()`: each parameter's reported positions are
      the top-K positions of its importance tensor, K capped as above.
      `names` lists the map's keys in their insertion order. */
  method OmegaIndexOf(names: seq<string>, omega: map<string, Tensor>) returns (idx: Consensus.OmegaIndex)
    requires forall n :: n in omega <==> n in names
    ensures forall n :: n in idx <==> n in omega
    ensures forall n :: n in idx ==> idx[n] == Reported(omega[n])
  {
    idx := map[];
    for i := 0 to |names|
      invariant forall n :: n in idx <==> n in names[..i]
      invariant forall n :: n in idx ==> n in omega && idx[n] == Reported(omega[n])
    {
      var n := names[i];
      idx := idx[n := Reported(omega[n])];
      assert forall m :: m in names[..i + 1] <==> m in names[..i] || m == n;
    }
    assert names[..|names|] == names;
  }

  /** The reported lists never repeat a position, so with at most 90
      clients no position reaches the consensus of `defence_our`. */
  lemma ReportedListsKeepNothing(omegas: seq<map<string, Tensor>>, reported: seq<Consensus.OmegaIndex>, n: string)
    requires |reported| == |omegas| <= Consensus.ConsensusThreshold
    requires forall j :: 0 <= j < |omegas| ==> n in omegas[j] && n in reported[j]
    requires forall j :: 0 <= j < |omegas| ==> reported[j][n] == Reported(omegas[j][n])
    ensures Consensus.Kept(Consensus.Pooled(reported, n)) == []
  {
    Consensus.FewClientsKeepNothing(reported, n);
  }
}
