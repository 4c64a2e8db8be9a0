/** Sample-level poisoning detection in the last round. Clean clients build a
    per-class fingerprint: for every profiled layer, the list of neuron lists
    of the correctly predicted sampled inputs and a neuron counter. The
    similarity of a sample to its class fingerprint is the mean, over the
    profiled layers 1..5, of the similarity between the sample's neurons and
    the most common neurons of the counter. A sample of a poisoned client is
    flagged when that mean is strictly below its class's threshold. The
    similarity measure, `most_common` and the percentile are parameters. */
module Flagging {
  import opened Basics

  /** The similarity of two neuron sets (`jaccard_simple`). */
  type Similarity = (set<nat>, set<nat>) -> real
  /** `Counter.most_common(k)`, keys only. */
  type MostCommon = (multiset<nat>, nat) -> seq<nat>

  /** Layers 1..5 are compared. */
  const ComparedLayers: nat := 5

  /** How many of the most common neurons each compared layer keeps. */
  function TopCount(layer: nat): nat
    requires 1 <= layer <= ComparedLayers
  {
    [12, 28, 3, 1, 1][layer - 1]
  }

  // ---------------------------------------------------------------------------
  // One fingerprint entry, as a fold over the profiles it sees

  /** What one sampled profile brings to one (class, layer) entry: whether
      the layer-0 prediction matched the label, and its neurons there. */
  datatype Observation = Observation(correct: bool, neurons: seq<nat>)

  /** One (class, layer) entry: `class_profiles[cls][layer]` and
      `selected_index[cls][layer]`. */
  datatype Tally = Tally(list: seq<seq<nat>>, counter: multiset<nat>)

  const EmptyTally := Tally([], multiset{})

  /** `Counter(list(chain(*ls)))`: every neuron of every list, with
      repetitions. */
  function Bag(ls: seq<seq<nat>>): multiset<nat>
  {
    if |ls| == 0 then multiset{} else Bag(ls[..|ls| - 1]) + multiset(ls[|ls| - 1])
  }

  /** A correctly predicted profile is appended; then the counter of the
      whole accumulated list is added, whether or not anything was appended. */
  function Absorb(t: Tally, o: Observation): Tally
  {
    var list := if o.correct then t.list + [o.neurons] else t.list;
    Tally(list, t.counter + Bag(list))
  }

  function Replay(t: Tally, os: seq<Observation>): Tally
  {
    if |os| == 0 then t else Absorb(Replay(t, os[..|os| - 1]), os[|os| - 1])
  }

  /** The neuron lists of the correctly predicted observations, in order. */
  function Accepted(os: seq<Observation>): seq<seq<nat>>
  {
    if |os| == 0 then []
    else if os[|os| - 1].correct then Accepted(os[..|os| - 1]) + [os[|os| - 1].neurons]
    else Accepted(os[..|os| - 1])
  }

  /** The list keeps exactly the correctly predicted profiles, in order. */
  lemma {:induction false} ReplayList(t: Tally, os: seq<Observation>)
    ensures Replay(t, os).list == t.list + Accepted(os)
  {
    if |os| > 0 {
      ReplayList(t, os[..|os| - 1]);
    }
  }

  /** Replaying two runs one after the other is replaying them joined. */
  lemma {:induction false} ReplayAppend(t: Tally, a: seq<Observation>, b: seq<Observation>)
    ensures Replay(t, a + b) == Replay(Replay(t, a), b)
  {
    if |b| == 0 {
      assert a + b == a;
    } else {
      assert (a + b)[..|a + b| - 1] == a + b[..|b| - 1];
      ReplayAppend(t, a, b[..|b| - 1]);
    }
  }

  /** `k` copies of a multiset. */
  function Times(m: multiset<nat>, k: nat): multiset<nat>
  {
    if k == 0 then multiset{} else Times(m, k - 1) + m
  }

  /** Every accepted observation at position j weighted by `n - j`, the
      number of observations from it up to the n-th. */
  function Weighted(os: seq<Observation>, n: nat): multiset<nat>
    requires |os| <= n
  {
    if |os| == 0 then multiset{}
    else
      var last := os[|os| - 1];
      if last.correct then Weighted(os[..|os| - 1], n) + Times(multiset(last.neurons), n - (|os| - 1))
      else Weighted(os[..|os| - 1], n)
  }

  lemma BagSnoc(ls: seq<seq<nat>>, l: seq<nat>)
    ensures Bag(ls + [l]) == Bag(ls) + multiset(l)
  {
    assert (ls + [l])[..|ls|] == ls;
  }

  lemma Regroup(a: multiset<nat>, b: multiset<nat>, c: multiset<nat>, d: multiset<nat>)
    ensures (a + b) + (c + d) == (a + c) + (b + d)
  {
  }

  lemma Reassociate(a: multiset<nat>, b: multiset<nat>, c: multiset<nat>)
    ensures (a + b) + c == a + (b + c)
  {
  }

  /** One more observation adds one more copy of everything accepted. */
  lemma {:induction false} WeightedGrows(os: seq<Observation>, n: nat)
    requires |os| <= n
    ensures Weighted(os, n + 1) == Weighted(os, n) + Bag(Accepted(os))
  {
    if |os| > 0 {
      WeightedGrows(os[..|os| - 1], n);
      WeightedGrowsLast(os, n);
    }
  }

  /** The inductive step of `WeightedGrows`, for the last observation. */
  lemma WeightedGrowsLast(os: seq<Observation>, n: nat)
    requires 0 < |os| <= n
    requires Weighted(os[..|os| - 1], n + 1) == Weighted(os[..|os| - 1], n) + Bag(Accepted(os[..|os| - 1]))
    ensures Weighted(os, n + 1) == Weighted(os, n) + Bag(Accepted(os))
  {
    var p, last := os[..|os| - 1], os[|os| - 1];
    var a, b := Weighted(p, n), Bag(Accepted(p));
    if last.correct {
      var m := multiset(last.neurons);
      var t := Times(m, n - |p|);
      BagSnoc(Accepted(p), last.neurons);
      calc {
        Weighted(os, n + 1);
        Weighted(p, n + 1) + Times(m, n + 1 - |p|);
        (a + b) + (t + m);
        { Regroup(a, b, t, m); }
        (a + t) + (b + m);
        Weighted(os, n) + Bag(Accepted(os));
      }
    }
  }

  /** The counter the loop builds from an empty entry counts the neurons of
      the accepted profile at position j once for every profile sampled
      from j on, misclassified ones included: earlier samples weigh more. */
  lemma {:induction false} CounterClosedForm(os: seq<Observation>)
    ensures Replay(EmptyTally, os).counter == Weighted(os, |os|)
  {
    if |os| > 0 {
      var p, last := os[..|os| - 1], os[|os| - 1];
      CounterClosedForm(p);
      ReplayList(EmptyTally, os);
      assert Replay(EmptyTally, os).list == Accepted(os);
      WeightedGrows(p, |p|);
      var a, b := Weighted(p, |p|), Bag(Accepted(p));
      assert Replay(EmptyTally, os).counter == a + Bag(Accepted(os));
      if last.correct {
        var m := multiset(last.neurons);
        assert Accepted(os) == Accepted(p) + [last.neurons];
        BagSnoc(Accepted(p), last.neurons);
        assert Times(m, 1) == m;
        calc {
          Weighted(os, |os|);
          Weighted(p, |os|) + Times(m, 1);
          (a + b) + m;
          { Reassociate(a, b, m); }
          a + (b + m);
          a + Bag(Accepted(os));
        }
      } else {
        assert Accepted(os) == Accepted(p);
      }
    }
  }

  // ---------------------------------------------------------------------------
  // Similarity of one sample to a class fingerprint

  /** The similarity of a sample to the class path at each compared layer. */
  function LayerScores(sample: map<nat, seq<nat>>, selected: map<nat, multiset<nat>>,
                       mostCommon: MostCommon, similarity: Similarity): (r: seq<real>)
    requires forall l :: 1 <= l <= ComparedLayers ==> l in sample && l in selected
    ensures |r| == ComparedLayers
  {
    seq(ComparedLayers, j requires 0 <= j < ComparedLayers =>
          similarity(Elems(sample[j + 1]), Elems(mostCommon(selected[j + 1], TopCount(j + 1)))))
  }

  function MeanSimilarity(sample: map<nat, seq<nat>>, selected: map<nat, multiset<nat>>,
                          mostCommon: MostCommon, similarity: Similarity): real
    requires forall l :: 1 <= l <= ComparedLayers ==> l in sample && l in selected
  {
    Sum(LayerScores(sample, selected, mostCommon, similarity)) / ComparedLayers as real
  }

  /** The inner loop over layers 1..5 and the mean of what it collects. */
  method SampleScore(sample: map<nat, seq<nat>>, selected: map<nat, multiset<nat>>,
                     mostCommon: MostCommon, similarity: Similarity) returns (avg: real)
    requires forall l :: 1 <= l <= ComparedLayers ==> l in sample && l in selected
    ensures avg == MeanSimilarity(sample, selected, mostCommon, similarity)
  {
    var ious: seq<real> := [];
    for layer := 1 to ComparedLayers + 1
      invariant ious == LayerScores(sample, selected, mostCommon, similarity)[..layer - 1]
    {
      var path := Elems(mostCommon(selected[layer], TopCount(layer)));
      ious := ious + [similarity(Elems(sample[layer]), path)];
    }
    assert ious == LayerScores(sample, selected, mostCommon, similarity);
    avg := Sum(ious) / |ious| as real;
  }

  /** The i-th profile of a class, read across its layer lists. */
  function Column(profiles: map<nat, seq<seq<nat>>>, i: nat): (c: map<nat, seq<nat>>)
    ensures forall l :: l in c <==> l in profiles && i < |profiles[l]|
  {
    map l | l in profiles && i < |profiles[l]| :: profiles[l][i]
  }

  /** `iou_normal[cls]`: the similarity of each stored clean profile of the
      class to the class's own fingerprint. */
  function NormalScoresOf(profiles: map<nat, seq<seq<nat>>>, selected: map<nat, multiset<nat>>,
                          mostCommon: MostCommon, similarity: Similarity): (r: seq<real>)
    requires forall l :: 1 <= l <= ComparedLayers ==> l in profiles && l in selected
    requires forall l :: 1 <= l <= ComparedLayers ==> |profiles[1]| <= |profiles[l]|
    ensures |r| == |profiles[1]|
  {
    seq(|profiles[1]|, i requires 0 <= i < |profiles[1]| =>
          MeanSimilarity(Column(profiles, i), selected, mostCommon, similarity))
  }

  /** The mean similarity of each sample of a client to its class's
      fingerprint. */
  function Means(samples: seq<map<nat, seq<nat>>>, labels: seq<nat>, selected: map<nat, map<nat, multiset<nat>>>,
                 mostCommon: MostCommon, similarity: Similarity): (r: seq<real>)
    requires |labels| == |samples|
    requires forall i :: 0 <= i < |labels| ==> labels[i] in selected
    requires forall i, l :: 0 <= i < |labels| && 1 <= l <= ComparedLayers ==> l in samples[i] && l in selected[labels[i]]
    ensures |r| == |samples|
    ensures forall i :: 0 <= i < |samples| ==> r[i] == MeanSimilarity(samples[i], selected[labels[i]], mostCommon, similarity)
  {
    seq(|samples|, i requires 0 <= i < |samples| => MeanSimilarity(samples[i], selected[labels[i]], mostCommon, similarity))
  }

  /** The positions, among the first n, of the samples whose mean falls
      strictly below their class's threshold. */
  function Flagged(means: seq<real>, labels: seq<nat>, thresholds: map<nat, real>, n: nat): (r: seq<nat>)
    requires n <= |labels| == |means|
    requires forall i :: 0 <= i < |labels| ==> labels[i] in thresholds
    ensures forall k :: 0 <= k < |r| ==> r[k] < n
  {
    if n == 0 then []
    else
      var i := n - 1;
      Flagged(means, labels, thresholds, i) + (if means[i] < thresholds[labels[i]] then [i] else [])
  }

  /** A sample is flagged exactly when its mean is strictly below its
      class's threshold. */
  lemma {:induction false} FlaggedIff(means: seq<real>, labels: seq<nat>, thresholds: map<nat, real>, n: nat)
    requires n <= |labels| == |means|
    requires forall i :: 0 <= i < |labels| ==> labels[i] in thresholds
    ensures forall i :: i in Flagged(means, labels, thresholds, n) <==> 0 <= i < n && means[i] < thresholds[labels[i]]
  {
    if n > 0 {
      FlaggedIff(means, labels, thresholds, n - 1);
    }
  }

  /** Flagged positions come in increasing order. */
  lemma {:induction false} FlaggedIncreasing(means: seq<real>, labels: seq<nat>, thresholds: map<nat, real>, n: nat)
    requires n <= |labels| == |means|
    requires forall i :: 0 <= i < |labels| ==> labels[i] in thresholds
    ensures forall a, b :: 0 <= a < b < |Flagged(means, labels, thresholds, n)| ==>
              Flagged(means, labels, thresholds, n)[a] < Flagged(means, labels, thresholds, n)[b]
  {
    if n > 0 {
      var r := Flagged(means, labels, thresholds, n - 1);
      FlaggedIncreasing(means, labels, thresholds, n - 1);
      if means[n - 1] < thresholds[labels[n - 1]] {
        var r' := r + [n - 1];
        assert Flagged(means, labels, thresholds, n) == r';
        forall a, b | 0 <= a < b < |r'|
          ensures r'[a] < r'[b]
        {
          assert r'[a] == r[a] < n - 1;
          if b < |r| {
            assert r'[b] == r[b];
          }
        }
      } else {
        assert Flagged(means, labels, thresholds, n) == r;
      }
    }
  }

  // ---------------------------------------------------------------------------
  // The fingerprint store

  /** A sampled input of a clean client: its label and its profile, the
      neurons of each layer (layer 0 holds the prediction). */
  datatype Sampled = Sampled(classLabel: nat, profile: map<nat, seq<nat>>)

  /** What the store can take: a label of one of the two classes, a
      prediction at layer 0, and exactly the layers of the reference
      profile, as every profile of the same model has. */
  predicate Storable(s: Sampled, layers: set<nat>)
  {
    s.classLabel < 2 && 0 in s.profile && |s.profile[0]| > 0 && s.profile.Keys == layers
  }

  predicate AllStorable(samples: seq<Sampled>, layers: set<nat>)
  {
    forall k :: 0 <= k < |samples| ==> Storable(samples[k], layers)
  }

  /** What the entry (cls, l) sees of the samples, in order: one observation
      for every sample labelled cls. */
  function Observations(samples: seq<Sampled>, layers: set<nat>, cls: nat, l: nat): seq<Observation>
    requires AllStorable(samples, layers) && l in layers
  {
    if |samples| == 0 then []
    else
      var s := samples[|samples| - 1];
      if s.classLabel == cls then Observations(samples[..|samples| - 1], layers, cls, l) + [Observation(s.profile[0][0] == cls, s.profile[l])]
      else Observations(samples[..|samples| - 1], layers, cls, l)
  }

  /** How many samples labelled cls were also predicted as cls. */
  function CorrectCount(samples: seq<Sampled>, layers: set<nat>, cls: nat): nat
    requires AllStorable(samples, layers)
  {
    if |samples| == 0 then 0
    else
      var s := samples[|samples| - 1];
      CorrectCount(samples[..|samples| - 1], layers, cls) + (if s.classLabel == cls && s.profile[0][0] == cls then 1 else 0)
  }

  /** Whatever the layer, an entry accepts one profile per correctly
      predicted sample of its class. */
  lemma {:induction false} AcceptedCount(samples: seq<Sampled>, layers: set<nat>, cls: nat, l: nat)
    requires AllStorable(samples, layers) && l in layers
    ensures |Accepted(Observations(samples, layers, cls, l))| == CorrectCount(samples, layers, cls)
  {
    if |samples| > 0 {
      AcceptedCount(samples[..|samples| - 1], layers, cls, l);
    }
  }

  /** Both classes have an entry for exactly the given layers. */
  ghost predicate ValidMaps(classProfiles: map<nat, map<nat, seq<seq<nat>>>>,
                            selectedIndex: map<nat, map<nat, multiset<nat>>>, layers: set<nat>)
  {
    forall cls: nat :: cls < 2 ==>
      && cls in classProfiles && cls in selectedIndex
      && classProfiles[cls].Keys == layers && selectedIndex[cls].Keys == layers
  }

  /** Every entry holds what replaying its observations of the samples on
      an empty entry gives. */
  ghost predicate Collected(classProfiles: map<nat, map<nat, seq<seq<nat>>>>,
                            selectedIndex: map<nat, map<nat, multiset<nat>>>, layers: set<nat>, samples: seq<Sampled>)
    requires AllStorable(samples, layers)
  {
    && ValidMaps(classProfiles, selectedIndex, layers)
    && forall cls: nat, l :: cls < 2 && l in layers ==>
         Tally(classProfiles[cls][l], selectedIndex[cls][l]) == Replay(EmptyTally, Observations(samples, layers, cls, l))
  }

  /** A class's empty lists and empty counters, one per layer. */
  function NoProfiles(cls: nat, layers: set<nat>): (m: map<nat, seq<seq<nat>>>)
    ensures m.Keys == layers && forall l :: l in layers ==> m[l] == []
  {
    map l | l in layers :: []
  }

  function NoCounts(cls: nat, layers: set<nat>): (m: map<nat, multiset<nat>>)
    ensures m.Keys == layers && forall l :: l in layers ==> m[l] == multiset{}
  {
    map l | l in layers :: multiset{}
  }

  /** The loop over the clean clients' sampled inputs: both stores start
      with an empty list and counter per class and layer, and each profile
      is absorbed by the entries of its label's class. Afterwards every
      entry is the replay of what it observed, and every list of a class
      holds one profile per correctly predicted sample of that class. */
  method CollectFingerprints(samples: seq<Sampled>, layers: set<nat>)
    returns (classProfiles: map<nat, map<nat, seq<seq<nat>>>>, selectedIndex: map<nat, map<nat, multiset<nat>>>)
    requires AllStorable(samples, layers)
    ensures Collected(classProfiles, selectedIndex, layers, samples)
    ensures forall cls: nat, l :: cls < 2 && l in layers ==> |classProfiles[cls][l]| == CorrectCount(samples, layers, cls)
  {
    classProfiles := map cls: nat | cls < 2 :: NoProfiles(cls, layers);
    selectedIndex := map cls: nat | cls < 2 :: NoCounts(cls, layers);
    assert samples[..0] == [];
    for k := 0 to |samples|
      invariant Collected(classProfiles, selectedIndex, layers, samples[..k])
    {
      var s := samples[k];
      var profiles, counters := AbsorbProfile(classProfiles[s.classLabel], selectedIndex[s.classLabel], s.profile[0][0] == s.classLabel, s.profile);
      CollectStep(classProfiles, selectedIndex, layers, samples, k, profiles, counters);
      classProfiles, selectedIndex := classProfiles[s.classLabel := profiles], selectedIndex[s.classLabel := counters];
    }
    assert samples[..|samples|] == samples;
    CollectedCounts(classProfiles, selectedIndex, layers, samples);
  }

  /** One more sample keeps every entry the replay of its observations. */
  lemma CollectStep(classProfiles: map<nat, map<nat, seq<seq<nat>>>>, selectedIndex: map<nat, map<nat, multiset<nat>>>,
                    layers: set<nat>, samples: seq<Sampled>, k: nat,
                    profiles: map<nat, seq<seq<nat>>>, counters: map<nat, multiset<nat>>)
    requires AllStorable(samples, layers) && k < |samples|
    requires Collected(classProfiles, selectedIndex, layers, samples[..k])
    requires profiles.Keys == layers && counters.Keys == layers
    requires var s := samples[k];
             forall l :: l in layers ==>
               Tally(profiles[l], counters[l])
                 == Absorb(Tally(classProfiles[s.classLabel][l], selectedIndex[s.classLabel][l]),
                           Observation(s.profile[0][0] == s.classLabel, s.profile[l]))
    ensures Collected(classProfiles[samples[k].classLabel := profiles], selectedIndex[samples[k].classLabel := counters],
                      layers, samples[..k + 1])
  {
    var s := samples[k];
    var cp, si := classProfiles[s.classLabel := profiles], selectedIndex[s.classLabel := counters];
    ReplaceKeepsValid(classProfiles, selectedIndex, layers, s.classLabel, profiles, counters);
    forall cls: nat, l | cls < 2 && l in layers
      ensures Tally(cp[cls][l], si[cls][l]) == Replay(EmptyTally, Observations(samples[..k + 1], layers, cls, l))
    {
      ObservationsStep(samples, layers, k, cls, l);
    }
  }

  /** The observations of the first k + 1 samples: those of the first k,
      and one more when the k-th sample is labelled cls. */
  lemma ObservationsStep(samples: seq<Sampled>, layers: set<nat>, k: nat, cls: nat, l: nat)
    requires AllStorable(samples, layers) && k < |samples| && l in layers
    ensures var s := samples[k];
            Observations(samples[..k + 1], layers, cls, l)
              == if s.classLabel == cls then Observations(samples[..k], layers, cls, l) + [Observation(s.profile[0][0] == cls, s.profile[l])]
                 else Observations(samples[..k], layers, cls, l)
  {
    assert samples[..k + 1][..k] == samples[..k];
  }

  /** Replacing one class's lists and counters by maps over the same
      layers keeps both stores keyed by the two classes and the layers. */
  lemma ReplaceKeepsValid(classProfiles: map<nat, map<nat, seq<seq<nat>>>>,
                          selectedIndex: map<nat, map<nat, multiset<nat>>>, layers: set<nat>, sampleClass: nat,
                          profiles: map<nat, seq<seq<nat>>>, counters: map<nat, multiset<nat>>)
    requires ValidMaps(classProfiles, selectedIndex, layers) && sampleClass < 2
    requires profiles.Keys == layers && counters.Keys == layers
    ensures ValidMaps(classProfiles[sampleClass := profiles], selectedIndex[sampleClass := counters], layers)
  {
  }

  /** After collecting, every list of a class has one profile per correctly
      predicted sample of that class. */
  lemma CollectedCounts(classProfiles: map<nat, map<nat, seq<seq<nat>>>>, selectedIndex: map<nat, map<nat, multiset<nat>>>,
                        layers: set<nat>, samples: seq<Sampled>)
    requires AllStorable(samples, layers) && Collected(classProfiles, selectedIndex, layers, samples)
    ensures forall cls: nat, l :: cls < 2 && l in layers ==> |classProfiles[cls][l]| == CorrectCount(samples, layers, cls)
  {
    forall cls: nat, l | cls < 2 && l in layers
      ensures |classProfiles[cls][l]| == CorrectCount(samples, layers, cls)
    {
      ReplayList(EmptyTally, Observations(samples, layers, cls, l));
      AcceptedCount(samples, layers, cls, l);
    }
  }

  /** The loop over a profile's layers, on its class's lists and counters:
      every entry absorbs the profile. */
  method AbsorbProfile(profiles: map<nat, seq<seq<nat>>>, counters: map<nat, multiset<nat>>, correct: bool,
                       sample: map<nat, seq<nat>>)
    returns (profiles': map<nat, seq<seq<nat>>>, counters': map<nat, multiset<nat>>)
    requires profiles.Keys == counters.Keys == sample.Keys
    ensures profiles'.Keys == profiles.Keys && counters'.Keys == counters.Keys
    ensures forall l :: l in sample ==>
              Tally(profiles'[l], counters'[l]) == Absorb(Tally(profiles[l], counters[l]), Observation(correct, sample[l]))
  {
    profiles', counters' := profiles, counters;
    var pending := sample.Keys;
    while pending != {}
      invariant pending <= sample.Keys
      invariant profiles'.Keys == profiles.Keys && counters'.Keys == counters.Keys
      invariant forall l :: l in profiles ==>
                  Tally(profiles'[l], counters'[l])
                    == if l in pending then Tally(profiles[l], counters[l])
                       else Absorb(Tally(profiles[l], counters[l]), Observation(correct, sample[l]))
      decreases pending
    {
      var layer :| layer in pending;
      var list := profiles'[layer];
      if correct {
        list := list + [sample[layer]];
      }
      profiles' := profiles'[layer := list];
      counters' := counters'[layer := counters'[layer] + Bag(list)];
      pending := pending - {layer};
    }
  }

  /** `iou_normal[cls]` for one class's stored profiles and counters: the
      double loop over the profiles and the compared layers. */
  method NormalScores(profiles: map<nat, seq<seq<nat>>>, selected: map<nat, multiset<nat>>,
                      mostCommon: MostCommon, similarity: Similarity) returns (scores: seq<real>)
    requires forall l :: 1 <= l <= ComparedLayers ==> l in profiles && l in selected
    requires forall l :: 1 <= l <= ComparedLayers ==> |profiles[1]| <= |profiles[l]|
    ensures scores == NormalScoresOf(profiles, selected, mostCommon, similarity)
  {
    ghost var all := NormalScoresOf(profiles, selected, mostCommon, similarity);
    scores := [];
    for i := 0 to |profiles[1]|
      invariant scores == all[..i]
    {
      var avg := SampleScore(Column(profiles, i), selected, mostCommon, similarity);
      assert all[..i + 1] == all[..i] + [avg];
      scores := scores + [avg];
    }
    assert all[..|profiles[1]|] == all;
  }

  /** The detection loop over one poisoned client's samples. */
  method FlagSamples(samples: seq<map<nat, seq<nat>>>, labels: seq<nat>, selected: map<nat, map<nat, multiset<nat>>>,
                     thresholds: map<nat, real>, mostCommon: MostCommon, similarity: Similarity)
    returns (anomalyPredicted: seq<nat>)
    requires |labels| == |samples|
    requires forall i :: 0 <= i < |labels| ==> labels[i] in thresholds && labels[i] in selected
    requires forall i, l :: 0 <= i < |labels| && 1 <= l <= ComparedLayers ==> l in samples[i] && l in selected[labels[i]]
    ensures anomalyPredicted == Flagged(Means(samples, labels, selected, mostCommon, similarity), labels, thresholds, |labels|)
  {
    ghost var means := Means(samples, labels, selected, mostCommon, similarity);
    anomalyPredicted := [];
    for i := 0 to |labels|
      invariant anomalyPredicted == Flagged(means, labels, thresholds, i)
    {
      var avg := SampleScore(samples[i], selected[labels[i]], mostCommon, similarity);
      FlaggedStep(means, labels, thresholds, i);
      if avg < thresholds[labels[i]] {
        anomalyPredicted := anomalyPredicted + [i];
      }
    }
  }

  /** One more position is flagged exactly when its mean is below its
      class's threshold. */
  lemma FlaggedStep(means: seq<real>, labels: seq<nat>, thresholds: map<nat, real>, i: nat)
    requires i < |labels| == |means|
    requires forall j :: 0 <= j < |labels| ==> labels[j] in thresholds
    ensures Flagged(means, labels, thresholds, i + 1)
              == Flagged(means, labels, thresholds, i) + (if means[i] < thresholds[labels[i]] then [i] else [])
  {
  }
}
