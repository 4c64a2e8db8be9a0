/** The label-flipping attack of the training loop. Every client's labels are
    made binary (0 normal, 1 attack); in the last round the first 40 clients
    with something to poison keep their normal samples and append a `prate`
    share of their attack samples relabelled 0, and each client records which
    of its positions hold normal and which hold attack samples. */
module Poisoning {
  import opened Basics

  /** One sample, a 1x42 feature row. */
  type Sample = seq<real>

  /** At most this many clients are poisoned. */
  const MaxPoisonClients: nat := 40

  /** `y[y != 0] = 1`. */
  function Binarize(y: seq<int>): (r: seq<int>)
    ensures |r| == |y|
    ensures forall i :: 0 <= i < |y| ==> (r[i] == 0 || r[i] == 1) && (r[i] == 0 <==> y[i] == 0)
  {
    seq(|y|, i requires 0 <= i < |y| => if y[i] == 0 then 0 else 1)
  }

  /** The label tests of the list comprehensions: `y[i] == v` or `y[i] != v`. */
  datatype LabelTest = Is(v: int) | IsNot(v: int)

  predicate Passes(t: LabelTest, y: int)
  {
    match t
    case Is(v) => y == v
    case IsNot(v) => y != v
  }

  /** `[i for i in range(len(y)) if test(y[i])]`. */
  function Positions(y: seq<int>, t: LabelTest): (r: seq<nat>)
    ensures forall a :: 0 <= a < |r| ==> r[a] < |y| && Passes(t, y[r[a]])
    ensures forall a, b :: 0 <= a < b < |r| ==> r[a] < r[b]
  {
    if |y| == 0 then []
    else
      var k := |y| - 1;
      Positions(y[..k], t) + (if Passes(t, y[k]) then [k] else [])
  }

  /** Every position that passes the test is listed. */
  lemma {:induction false} PositionsComplete(y: seq<int>, t: LabelTest, i: nat)
    requires i < |y| && Passes(t, y[i])
    ensures i in Positions(y, t)
  {
    var k := |y| - 1;
    if i < k {
      PositionsComplete(y[..k], t, i);
    }
  }

  /** `x[idx]`: the entries at the given positions, in that order. */
  function Pick<T>(x: seq<T>, idx: seq<nat>): (r: seq<T>)
    requires forall a :: 0 <= a < |idx| ==> idx[a] < |x|
    ensures |r| == |idx| && forall a :: 0 <= a < |idx| ==> r[a] == x[idx[a]]
  {
    seq(|idx|, a requires 0 <= a < |idx| => x[idx[a]])
  }

  /** How many entries `s[0:k]` keeps of a sequence of length n: a negative
      stop counts from the end, and a stop past the end is clamped. */
  function SliceEnd(k: int, n: nat): (e: nat)
    ensures e <= n
    ensures 0 <= k <= n ==> e == k
    ensures k > n ==> e == n
    ensures k < 0 ==> e == (if n + k >= 0 then n + k else 0)
  {
    if k >= 0 then (if k <= n then k else n)
    else if n + k >= 0 then n + k else 0
  }

  /** `range(lo, hi)`. */
  function Range(lo: nat, hi: int): (r: seq<nat>)
    ensures |r| == (if hi > lo then hi - lo else 0)
    ensures forall a :: 0 <= a < |r| ==> r[a] == lo + a
  {
    if hi > lo then seq(hi - lo, a requires 0 <= a < hi - lo => lo + a) else []
  }

  /** n labels 0. */
  function Zeros(n: nat): (r: seq<int>)
    ensures |r| == n && forall i :: 0 <= i < n ==> r[i] == 0
  {
    seq(n, _ => 0)
  }

  /** `int(n * 0.8)`: how many attack labels are flipped. */
  function NumPoison(n: nat): (k: nat)
    ensures k == TruncToInt(n as real * (8.0 / 10.0))
    ensures k <= n && (k > 0 <==> n >= 2)
  {
    var q := 4 * n / 5;
    assert q * 5 <= 4 * n < q * 5 + 5;
    assert (q as real) * 5.0 <= 4.0 * n as real < (q as real) * 5.0 + 5.0;
    assert q as real <= n as real * (8.0 / 10.0) < q as real + 1.0;
    q
  }

  /** A client's data after the attack, with the positions it records as
      attack samples (`anomaly_list_client`). */
  datatype Poisoned = Poisoned(x: seq<Sample>, y: seq<int>, anomalies: seq<nat>)

  /** `int(prate * n)`: how many attack samples the attack appends. */
  function Share(prate: real, n: nat): (k: int)
    ensures 0.0 <= prate ==> 0 <= k
  {
    assert 0.0 <= prate ==> prate * n as real >= 0.0;
    TruncToInt(prate * n as real)
  }

  /** A rate in [0, 1] takes at most all n attack samples, and a rate up to
      0.8 at most the `int(0.8 * n)` flipped ones. */
  lemma ShareBounds(prate: real, n: nat)
    requires 0.0 <= prate <= 1.0
    ensures 0 <= Share(prate, n) <= n
    ensures prate <= 8.0 / 10.0 ==> Share(prate, n) <= NumPoison(n)
  {
    var r := prate * n as real;
    var k := Share(prate, n);
    assert k as real <= r;
    assert r <= n as real by {
      assert (1.0 - prate) * n as real >= 0.0;
    }
    if prate <= 8.0 / 10.0 {
      assert r <= n as real * (8.0 / 10.0) by {
        var d := 8.0 / 10.0 - prate;
        assert d >= 0.0;
        assert d * n as real >= 0.0;
        assert n as real * (8.0 / 10.0) - r == d * n as real;
      }
      assert n as real * (8.0 / 10.0) < NumPoison(n) as real + 1.0;
    }
  }

  /** The written assembly: normal samples and labels, then `x2[0:k]` but
      only `y2[0:k]` of the np flipped labels. */
  function AppendAsWritten(x1: seq<Sample>, y1: seq<int>, x2: seq<Sample>, np: nat, k: int): (p: Poisoned)
    ensures |p.x| == |x1| + SliceEnd(k, |x2|) && |p.y| == |y1| + SliceEnd(k, np)
    ensures |p.anomalies| == (if k > 0 then k else 0)
  {
    Poisoned(x1 + x2[..SliceEnd(k, |x2|)], y1 + Zeros(np)[..SliceEnd(k, np)], Range(|x1|, |x1| + k))
  }

  /** The intended assembly: normal samples and labels, then `x2[0:k]`, one
      label 0 each, recorded at the positions where they land. */
  function Append(x1: seq<Sample>, y1: seq<int>, x2: seq<Sample>, k: int): (p: Poisoned)
    requires |x1| == |y1|
    ensures |p.x| == |p.y| == |x1| + |p.anomalies| && |p.anomalies| == SliceEnd(k, |x2|)
    ensures forall i :: 0 <= i < |x1| ==> p.x[i] == x1[i] && p.y[i] == y1[i]
    ensures forall a :: 0 <= a < |p.anomalies| ==>
              p.anomalies[a] == |x1| + a && p.x[|x1| + a] == x2[a] && p.y[|x1| + a] == 0
  {
    var t := SliceEnd(k, |x2|);
    Poisoned(x1 + x2[..t], y1 + Zeros(t), Range(|x1|, |x1| + t))
  }

  /** The attack as the training loop writes it. The features take
      `int(prate * n)` attack samples, but the labels are sliced from the
      `int(0.8 * n)` flipped ones only. */
  function PoisonAsWritten(x: seq<Sample>, y: seq<int>, prate: real): Poisoned
    requires |x| == |y|
  {
    var ones := Positions(y, Is(1));
    var rest := Positions(y, IsNot(1));
    AppendAsWritten(Pick(x, rest), Pick(y, rest), Pick(x, ones), NumPoison(|ones|), Share(prate, |ones|))
  }

  /** The attack as intended: the same `prate` share of the attack samples
      is appended, each with label 0, and the recorded positions are exactly
      where they landed. */
  function Poison(x: seq<Sample>, y: seq<int>, prate: real): Poisoned
    requires |x| == |y|
  {
    var ones := Positions(y, Is(1));
    var rest := Positions(y, IsNot(1));
    Append(Pick(x, rest), Pick(y, rest), Pick(x, ones), Share(prate, |ones|))
  }

  /** The intended attack keeps features and labels aligned: one label per
      sample, and one recorded position per appended attack sample, never
      more than the client has and, for a rate in [0, 1], `int(prate * n)`. */
  lemma PoisonAligned(x: seq<Sample>, y: seq<int>, prate: real)
    requires |x| == |y|
    ensures var p := Poison(x, y, prate);
            var n := |Positions(y, Is(1))|;
            && |p.x| == |p.y| == |Positions(y, IsNot(1))| + |p.anomalies|
            && |p.anomalies| <= n
            && (0.0 <= prate <= 1.0 ==> |p.anomalies| == Share(prate, n))
  {
    if 0.0 <= prate <= 1.0 {
      ShareBounds(prate, |Positions(y, Is(1))|);
    }
  }

  /** The normal samples come first, in their order and with their labels. */
  lemma PoisonKeepsNormal(x: seq<Sample>, y: seq<int>, prate: real)
    requires |x| == |y|
    ensures var p := Poison(x, y, prate);
            var rest := Positions(y, IsNot(1));
            forall i :: 0 <= i < |rest| ==> i < |p.x| && p.x[i] == x[rest[i]] && p.y[i] == y[rest[i]] != 1
  {
    var ones := Positions(y, Is(1));
    var rest := Positions(y, IsNot(1));
    var x1, y1 := Pick(x, rest), Pick(y, rest);
    var p := Append(x1, y1, Pick(x, ones), Share(prate, |ones|));
    assert p == Poison(x, y, prate);
    forall i | 0 <= i < |rest| ensures p.x[i] == x[rest[i]] && p.y[i] == y[rest[i]] {
      assert p.x[i] == x1[i] && p.y[i] == y1[i];
    }
  }

  /** The recorded positions hold exactly the taken attack samples, in their
      original order, each labelled 0. */
  lemma PoisonRecordsAttack(x: seq<Sample>, y: seq<int>, prate: real)
    requires |x| == |y|
    ensures var p := Poison(x, y, prate);
            var ones := Positions(y, Is(1));
            forall a :: 0 <= a < |p.anomalies| ==>
              && a < |ones| && p.anomalies[a] < |p.x|
              && p.x[p.anomalies[a]] == x[ones[a]] && y[ones[a]] == 1
              && p.y[p.anomalies[a]] == 0
  {
    var ones := Positions(y, Is(1));
    var rest := Positions(y, IsNot(1));
    var x1, x2 := Pick(x, rest), Pick(x, ones);
    var p := Append(x1, Pick(y, rest), x2, Share(prate, |ones|));
    assert p == Poison(x, y, prate);
    forall a | 0 <= a < |p.anomalies|
      ensures p.x[p.anomalies[a]] == x[ones[a]] && p.y[p.anomalies[a]] == 0
    {
      assert p.x[|x1| + a] == x2[a];
    }
  }

  /** Up to a rate of 0.8 the written attack is the intended one. */
  lemma AsWrittenAgreesUpToFourFifths(x: seq<Sample>, y: seq<int>, prate: real)
    requires |x| == |y| && 0.0 <= prate <= 8.0 / 10.0
    ensures PoisonAsWritten(x, y, prate) == Poison(x, y, prate)
  {
    var n := |Positions(y, Is(1))|;
    var k := Share(prate, n);
    ShareBounds(prate, n);
    assert Zeros(NumPoison(n))[..k] == Zeros(k);
  }

  /** Above 0.8 the written attack appends more samples than labels whenever
      the share it takes exceeds the flipped labels. */
  lemma AsWrittenMisalignsAboveFourFifths(x: seq<Sample>, y: seq<int>, prate: real)
    requires |x| == |y|
    requires var n := |Positions(y, Is(1))|;
             NumPoison(n) < Share(prate, n) <= n
    ensures var p := PoisonAsWritten(x, y, prate);
            var n := |Positions(y, Is(1))|;
            |p.x| - |p.y| == Share(prate, n) - NumPoison(n) > 0
  {
  }

  /** Ten attack samples at rate 0.9: nine samples are appended but only
      eight labels, so features and labels no longer line up. */
  lemma AsWrittenCounterexample()
    ensures var p := PoisonAsWritten(seq(10, _ => [0.0]), seq(10, _ => 1), 9.0 / 10.0);
            |p.x| == 9 && |p.y| == 8
  {
    var y: seq<int> := seq(10, _ => 1);
    PositionsOfUniform(y, Is(1));
    PositionsOfUniform(y, IsNot(1));
    assert Share(9.0 / 10.0, 10) == 9;
  }

  /** Ten attack samples at rate -0.1: `int(-1.0)` is -1, so the written
      slices count from the end, appending nine samples with seven labels
      and recording no attack position, where the intended attack appends
      nine samples with nine labels at nine recorded positions. */
  lemma AsWrittenNegativeRate()
    ensures var x: seq<Sample> := seq(10, _ => [0.0]);
            var y: seq<int> := seq(10, _ => 1);
            var p := PoisonAsWritten(x, y, -1.0 / 10.0);
            var q := Poison(x, y, -1.0 / 10.0);
            && |p.x| == 9 && |p.y| == 7 && p.anomalies == []
            && |q.x| == 9 && |q.y| == 9 && |q.anomalies| == 9
  {
    var y: seq<int> := seq(10, _ => 1);
    PositionsOfUniform(y, Is(1));
    PositionsOfUniform(y, IsNot(1));
    assert Share(-1.0 / 10.0, 10) == -1;
  }

  /** When every label passes a test its positions are all of them, and when
      none does there are none. */
  lemma {:induction false} PositionsOfUniform(y: seq<int>, t: LabelTest)
    requires forall i, j :: 0 <= i < |y| && 0 <= j < |y| ==> y[i] == y[j]
    ensures |y| > 0 && Passes(t, y[0]) ==> Positions(y, t) == Range(0, |y|)
    ensures |y| > 0 && !Passes(t, y[0]) ==> Positions(y, t) == []
  {
    if |y| > 0 {
      var k := |y| - 1;
      PositionsOfUniform(y[..k], t);
      if k > 0 {
        assert y[..k][0] == y[0];
      }
      if Passes(t, y[0]) {
        assert Range(0, k) + [k] == Range(0, |y|);
      }
    }
  }

  // ---------------------------------------------------------------------------
  // Which clients are poisoned

  function Count(s: seq<bool>): (c: nat)
    ensures c <= |s|
  {
    if |s| == 0 then 0 else Count(s[..|s| - 1]) + (if s[|s| - 1] then 1 else 0)
  }

  /** A client has something to poison when `int(0.8 * #attack labels) > 0`. */
  function Eligible(ys: seq<seq<int>>): (e: seq<bool>)
    ensures |e| == |ys|
    ensures forall c :: 0 <= c < |ys| ==> e[c] == (NumPoison(|Positions(Binarize(ys[c]), Is(1))|) > 0)
  {
    seq(|ys|, c requires 0 <= c < |ys| => NumPoison(|Positions(Binarize(ys[c]), Is(1))|) > 0)
  }

  /** The poisoned clients: in the last round, an eligible client while fewer
      than 40 have been poisoned before it. */
  function Marked(e: seq<bool>, lastRound: bool): (m: seq<bool>)
    ensures |m| == |e|
  {
    if |e| == 0 then []
    else
      var prev := Marked(e[..|e| - 1], lastRound);
      prev + [lastRound && e[|e| - 1] && Count(prev) < MaxPoisonClients]
  }

  lemma {:induction false} MarkedPrefix(e: seq<bool>, lastRound: bool, c: nat)
    requires c <= |e|
    ensures Marked(e[..c], lastRound) == Marked(e, lastRound)[..c]
    decreases |e|
  {
    if c < |e| {
      assert e[..|e| - 1][..c] == e[..c];
      MarkedPrefix(e[..|e| - 1], lastRound, c);
    } else {
      assert e[..c] == e;
    }
  }

  /** Outside the last round nobody is poisoned; in it, the first 40
      eligible clients are. */
  lemma {:induction false} MarkedCount(e: seq<bool>, lastRound: bool)
    ensures Count(Marked(e, lastRound)) == (if !lastRound then 0 else if Count(e) < MaxPoisonClients then Count(e) else MaxPoisonClients)
  {
    if |e| > 0 {
      var k := |e| - 1;
      MarkedCount(e[..k], lastRound);
      var prev := Marked(e[..k], lastRound);
      var m := Marked(e, lastRound);
      assert m[..k] == prev;
      assert Count(m) == Count(prev) + (if m[k] then 1 else 0);
    }
  }

  /** Client c is poisoned iff it is the last round, c is eligible and fewer
      than 40 eligible clients precede it. */
  lemma {:induction false} MarkedAreFirstEligible(e: seq<bool>, lastRound: bool, c: nat)
    requires c < |e|
    ensures Marked(e, lastRound)[c] <==> lastRound && e[c] && Count(e[..c]) < MaxPoisonClients
  {
    MarkedPrefix(e, lastRound, c + 1);
    MarkedSnoc(e, lastRound, c);
    var prev := Marked(e[..c], lastRound);
    MarkedCount(e[..c], lastRound);
    assert Marked(e, lastRound)[c] == Marked(e[..c + 1], lastRound)[c];
  }

  /** The marks of the first c + 1 clients: those of the first c, then the
      loop's decision for client c. */
  lemma MarkedSnoc(e: seq<bool>, lastRound: bool, c: nat)
    requires c < |e|
    ensures var prev := Marked(e[..c], lastRound);
            Marked(e[..c + 1], lastRound) == prev + [lastRound && e[c] && Count(prev) < MaxPoisonClients]
  {
    assert e[..c + 1][..c] == e[..c];
  }

  /** What the client loop leaves behind for one client: its training data
      and the positions it records as normal and as attack samples. */
  datatype ClientData = ClientData(x: seq<Sample>, y: seq<int>)
  datatype Outcome = Outcome(data: ClientData, normal: seq<nat>, attack: seq<nat>)

  /** One client's outcome of the round: poisoned as intended when marked,
      recording the positions its non-attack samples had before poisoning
      and where its attack samples now are; otherwise its data with binary
      labels, recording the positions of label 0 and of label 1. */
  function ClientOutcome(x: seq<Sample>, y: seq<int>, prate: real, marked: bool): (o: Outcome)
    requires |x| == |y|
    ensures |o.data.x| == |o.data.y|
  {
    var yb := Binarize(y);
    if marked then
      PoisonAligned(x, yb, prate);
      var p := Poison(x, yb, prate);
      Outcome(ClientData(p.x, p.y), Positions(yb, IsNot(1)), p.anomalies)
    else Outcome(ClientData(x, yb), Positions(yb, Is(0)), Positions(yb, IsNot(0)))
  }

  /** Extending the clients by one extends the marks by the loop's decision,
      taken on the count of marks so far. */
  lemma PoisonDecision(ys: seq<seq<int>>, lastRound: bool, c: nat)
    requires c < |ys|
    ensures var flags := Marked(Eligible(ys[..c]), lastRound);
            Marked(Eligible(ys[..c + 1]), lastRound)
              == flags + [NumPoison(|Positions(Binarize(ys[c]), Is(1))|) > 0 && Count(flags) < MaxPoisonClients && lastRound]
  {
    assert Eligible(ys[..c + 1])[..c] == Eligible(ys[..c]);
  }

  /** The body of the client loop for one client: binary labels, the
      poison decision, the training data and the positions it would record. */
  method PrepareClient(x: seq<Sample>, y: seq<int>, prate: real, numPoisonClient: nat, lastRound: bool)
    returns (marked: bool, d: ClientData, normal: seq<nat>, anomaly: seq<nat>)
    requires |x| == |y|
    ensures marked == (NumPoison(|Positions(Binarize(y), Is(1))|) > 0 && numPoisonClient < MaxPoisonClients && lastRound)
    ensures Outcome(d, normal, anomaly) == ClientOutcome(x, y, prate, marked)
  {
    var yb := Binarize(y);
    var numPoison := NumPoison(|Positions(yb, Is(1))|);
    if numPoison > 0 && numPoisonClient < MaxPoisonClients && lastRound {
      marked := true;
      var p := Poison(x, yb, prate);
      d := ClientData(p.x, p.y);
      normal, anomaly := Positions(yb, IsNot(1)), p.anomalies;
    } else {
      marked := false;
      d := ClientData(x, yb);
      normal, anomaly := Positions(yb, Is(0)), Positions(yb, IsNot(0));
    }
  }

  /** The outcomes of clients 0..|flags|-1, each with its poison flag. */
  function Outcomes(xs: seq<seq<Sample>>, ys: seq<seq<int>>, prate: real, flags: seq<bool>): (r: seq<Outcome>)
    requires |flags| <= |xs| == |ys| && forall c :: 0 <= c < |xs| ==> |xs[c]| == |ys[c]|
    ensures |r| == |flags|
  {
    if |flags| == 0 then []
    else
      var c := |flags| - 1;
      Outcomes(xs, ys, prate, flags[..c]) + [ClientOutcome(xs[c], ys[c], prate, flags[c])]
  }

  /** Client i's outcome is its own, under its own flag. */
  lemma {:induction false} OutcomesAt(xs: seq<seq<Sample>>, ys: seq<seq<int>>, prate: real, flags: seq<bool>, i: nat)
    requires |flags| <= |xs| == |ys| && forall c :: 0 <= c < |xs| ==> |xs[c]| == |ys[c]|
    requires i < |flags|
    ensures Outcomes(xs, ys, prate, flags)[i] == ClientOutcome(xs[i], ys[i], prate, flags[i])
  {
    var c := |flags| - 1;
    if i < c {
      OutcomesAt(xs, ys, prate, flags[..c], i);
    }
  }

  lemma OutcomesSnoc(xs: seq<seq<Sample>>, ys: seq<seq<int>>, prate: real, flags: seq<bool>, marked: bool)
    requires |flags| < |xs| == |ys| && forall c :: 0 <= c < |xs| ==> |xs[c]| == |ys[c]|
    ensures Outcomes(xs, ys, prate, flags + [marked])
              == Outcomes(xs, ys, prate, flags) + [ClientOutcome(xs[|flags|], ys[|flags|], prate, marked)]
  {
    assert (flags + [marked])[..|flags|] == flags;
  }

  /** What the client loop has stored for the clients with outcomes `outs`
      (`x_client`, `y_client`, `normal_list_client` and `anomaly_list_client`,
      which it always writes together, kept as one map of outcomes): every
      client's outcome in the last round, nothing in any other. */
  ghost predicate Recorded(outs: seq<Outcome>, lastRound: bool, stored: map<nat, Outcome>)
  {
    && (forall i: nat :: i in stored <==> lastRound && i < |outs|)
    && forall i :: 0 <= i < |outs| && lastRound ==> stored[i] == outs[i]
  }

  /** In the last round, storing one more client's outcome keeps the record. */
  lemma RecordedStore(outs: seq<Outcome>, stored: map<nat, Outcome>, o: Outcome)
    requires Recorded(outs, true, stored)
    ensures Recorded(outs + [o], true, stored[|outs| := o])
  {
  }

  /** In any other round nothing is stored, and nothing needs to be. */
  lemma RecordedSkip(outs: seq<Outcome>, stored: map<nat, Outcome>, o: Outcome)
    requires Recorded(outs, false, stored)
    ensures Recorded(outs + [o], false, stored)
  {
  }

  /** `Y_norm`: 1 for a poisoned client, 0 for any other. */
  function GroundTruth(m: seq<bool>): (r: seq<int>)
    ensures |r| == |m| && forall c :: 0 <= c < |m| ==> (r[c] == 1 <==> m[c]) && (r[c] == 0 <==> !m[c])
  {
    seq(|m|, c requires 0 <= c < |m| => if m[c] then 1 else 0)
  }

  lemma GroundTruthSnoc(m: seq<bool>, b: bool)
    ensures GroundTruth(m + [b]) == GroundTruth(m) + [if b then 1 else 0]
  {
  }

  /** What the client loop has built after clients 0..c-1: their poison
      flags, the count of poisoned clients, the ground truth and the record. */
  ghost predicate Prepared(xs: seq<seq<Sample>>, ys: seq<seq<int>>, prate: real, lastRound: bool, c: nat,
                           flags: seq<bool>, count: nat, yNorm: seq<int>, stored: map<nat, Outcome>)
    requires c <= |xs| == |ys| && forall i :: 0 <= i < |xs| ==> |xs[i]| == |ys[i]|
  {
    && flags == Marked(Eligible(ys[..c]), lastRound)
    && count == Count(flags)
    && yNorm == GroundTruth(flags)
    && Recorded(Outcomes(xs, ys, prate, flags), lastRound, stored)
  }

  /** One pass of the client loop keeps `Prepared`. */
  lemma PreparedStep(xs: seq<seq<Sample>>, ys: seq<seq<int>>, prate: real, lastRound: bool, c: nat,
                     flags: seq<bool>, count: nat, yNorm: seq<int>, stored: map<nat, Outcome>, marked: bool, o: Outcome)
    requires c < |xs| == |ys| && forall i :: 0 <= i < |xs| ==> |xs[i]| == |ys[i]|
    requires Prepared(xs, ys, prate, lastRound, c, flags, count, yNorm, stored)
    requires marked == (NumPoison(|Positions(Binarize(ys[c]), Is(1))|) > 0 && count < MaxPoisonClients && lastRound)
    requires o == ClientOutcome(xs[c], ys[c], prate, marked)
    ensures Prepared(xs, ys, prate, lastRound, c + 1, flags + [marked], count + (if marked then 1 else 0),
                     yNorm + [if marked then 1 else 0], if lastRound then stored[c := o] else stored)
  {
    PoisonDecision(ys, lastRound, c);
    OutcomesSnoc(xs, ys, prate, flags, marked);
    GroundTruthSnoc(flags, marked);
    if lastRound {
      RecordedStore(Outcomes(xs, ys, prate, flags), stored, o);
    } else {
      RecordedSkip(Outcomes(xs, ys, prate, flags), stored, o);
    }
  }

  /** The client loop of one round: the poison counter, the `Y_norm` ground
      truth and, in the last round only, each client's data and its recorded
      normal and attack positions, all as the clients' outcomes under their
      poison flags say. */
  method PrepareClients(xs: seq<seq<Sample>>, ys: seq<seq<int>>, prate: real, lastRound: bool)
    returns (yNorm: seq<int>, stored: map<nat, Outcome>)
    requires |xs| == |ys| && forall c :: 0 <= c < |xs| ==> |xs[c]| == |ys[c]|
    ensures var flags := Marked(Eligible(ys), lastRound);
            && yNorm == GroundTruth(flags)
            && Recorded(Outcomes(xs, ys, prate, flags), lastRound, stored)
  {
    ghost var flags: seq<bool> := [];
    var numPoisonClient := 0;
    yNorm, stored := [], map[];
    for c := 0 to |xs|
      invariant Prepared(xs, ys, prate, lastRound, c, flags, numPoisonClient, yNorm, stored)
    {
      var marked, d, normal, anomaly := PrepareClient(xs[c], ys[c], prate, numPoisonClient, lastRound);
      PreparedStep(xs, ys, prate, lastRound, c, flags, numPoisonClient, yNorm, stored, marked, Outcome(d, normal, anomaly));
      flags := flags + [marked];
      if marked {
        numPoisonClient := numPoisonClient + 1;
      }
      yNorm := yNorm + [if marked then 1 else 0];
      if lastRound {
        stored := stored[c := Outcome(d, normal, anomaly)];
      }
    }
    assert ys[..|xs|] == ys;
  }
}
