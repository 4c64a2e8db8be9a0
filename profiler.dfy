/** `TorchProfiler`: groups a network's leaf layers into logical layers
    (`create_layers`) and, for one input, walks those layers from the output
    back towards the input recording the most relevant neurons of each
    (`create_profile`). The numeric body of each contribution rule is an
    opaque, possibly failing relevance function; the top-K selection that
    every rule ends with is modelled exactly. */
module Profiler {
  import opened Basics
  import opened Hook
  import opened Grouper
  import opened Selection

  /** What `create_profile` returns. `neuronCounts[0]` is `[argmax]`; for a
      profiled layer `ldx >= 1` it is the rule's selected index list (the
      source wraps it twice, `[[list]]`, and its readers unwrap it with
      `chain(*counts[ldx][0])`). */
  datatype Profile = Profile(
    neuronCounts: map<nat, seq<nat>>,
    synapseCounts: map<nat, multiset<(nat, nat, nat)>>,
    synapseWeights: map<nat, seq<real>>,
    numInputs: nat)

  /** The opaque numeric part of a contribution rule: from the rule, the
      group's layer names, the incoming activation, the group's output and the
      relevance R coming from above, the redistributed relevance `Rx` and the
      channel sums of `Rx`, or None when torch raises. */
  type Relevance = (Rule, seq<string>, Tensor, Tensor, Tensor) -> Option<(Tensor, seq<real>)>

  /** The threshold the linear and convolution rules use whatever they are given. */
  const FixedThreshold: real := 1.0 / 10.0

  /** `K = int(threshold * size)` followed by `torch.topk(scores, K)[1]`,
      which raises when K is negative or larger than the vector. */
  function SelectTop(scores: seq<real>, threshold: real): (r: Option<seq<nat>>)
    ensures var k := TruncToInt(threshold * |scores| as real);
      && (r.Some? <==> 0 <= k <= |scores|)
      && (r.Some? ==>
            && |r.value| == k && Distinct(r.value)
            && (forall a :: 0 <= a < |r.value| ==> r.value[a] < |scores|)
            && (forall a, j :: 0 <= a < |r.value| && 0 <= j < |scores| && j !in r.value ==> scores[j] <= scores[r.value[a]]))
  {
    var k := TruncToInt(threshold * |scores| as real);
    if k < 0 || k > |scores| then None else Some(TopK(scores, k))
  }

  /** The arity a rule needs of its group: `conv, actf = layers` needs two
      names, the linear rule one or two, the max-pool rule at least one. */
  predicate ArityFits(rule: Rule, layers: seq<string>)
  {
    match rule
    case ContribLinear => |layers| == 1 || |layers| == 2
    case ContribConv1d => |layers| == 2
    case ContribMax1d => |layers| >= 1
    case _ => false
  }

  /** The vector the rule's top-K runs on: `Rx` itself for the linear rule,
      the channel sums of `Rx` for the others. */
  function ScoresOf(rule: Rule, out: (Tensor, seq<real>)): seq<real>
  {
    if rule == ContribLinear then out.0 else out.1
  }

  function ThresholdOf(rule: Rule, threshold: real): real
  {
    if rule == ContribLinear || rule == ContribConv1d then FixedThreshold else threshold
  }

  /** `_single_profile` and the rule it dispatches to: the selected neuron
      indices and the relevance handed to the next layer. A tag 0 has no
      method to call; the adaptive-average-pool rule indexes a fourth
      dimension that one-dimensional activations lack, so it always raises. */
  function ContribRule(rule: Rule, layers: seq<string>, xIn: Tensor, yOut: Tensor, r: Tensor,
                       threshold: real, relevance: Relevance): (res: Option<(seq<nat>, Tensor)>)
    ensures res.Some? ==> rule in {ContribLinear, ContribMax1d, ContribConv1d} && Distinct(res.value.0)
  {
    if !ArityFits(rule, layers) then None
    else
      var out := relevance(rule, layers, xIn, yOut, r);
      if out.None? then None
      else
        match SelectTop(ScoresOf(rule, out.value), ThresholdOf(rule, threshold))
        case None => None
        case Some(idx) => Some((idx, out.value.0))
  }

  /** Exactly when a rule succeeds, and what its neuron list then is: the
      K = int(threshold * size) distinct positions of the largest signed
      scores, every selected score at least every unselected one. */
  lemma ContribRuleSelects(rule: Rule, layers: seq<string>, xIn: Tensor, yOut: Tensor, r: Tensor,
                           threshold: real, relevance: Relevance)
    ensures var res := ContribRule(rule, layers, xIn, yOut, r, threshold, relevance);
            var out := relevance(rule, layers, xIn, yOut, r);
      && (res.Some? <==>
            && ArityFits(rule, layers) && out.Some?
            && 0 <= TruncToInt(ThresholdOf(rule, threshold) * |ScoresOf(rule, out.value)| as real) <= |ScoresOf(rule, out.value)|)
      && (res.Some? ==>
            var scores := ScoresOf(rule, out.value);
            && res.value.1 == out.value.0
            && |res.value.0| == TruncToInt(ThresholdOf(rule, threshold) * |scores| as real)
            && (forall a :: 0 <= a < |res.value.0| ==> res.value.0[a] < |scores|)
            && (forall a, j :: 0 <= a < |res.value.0| && 0 <= j < |scores| && j !in res.value.0 ==>
                  scores[j] <= scores[res.value.0[a]]))
  {
  }

  /** With the fixed threshold one tenth, K is the size divided by ten. */
  lemma TenthOfSize(size: nat)
    ensures TruncToInt(FixedThreshold * size as real) == size / 10
  {
    var q := size / 10;
    assert q * 10 <= size < q * 10 + 10;
    assert (q as real) * 10.0 <= size as real < (q as real) * 10.0 + 10.0;
    assert q as real <= FixedThreshold * size as real < q as real + 1.0;
  }

  /** The linear and convolution rules never fail on K: their top-K always
      takes a tenth of the scores, rounded down, whatever threshold is passed. */
  lemma FixedRulesTakeATenth(rule: Rule, layers: seq<string>, xIn: Tensor, yOut: Tensor, r: Tensor,
                             threshold: real, relevance: Relevance)
    requires rule == ContribLinear || rule == ContribConv1d
    requires ArityFits(rule, layers) && relevance(rule, layers, xIn, yOut, r).Some?
    ensures var res := ContribRule(rule, layers, xIn, yOut, r, threshold, relevance);
            var scores := ScoresOf(rule, relevance(rule, layers, xIn, yOut, r).value);
            res.Some? && |res.value.0| == |scores| / 10
  {
    var scores := ScoresOf(rule, relevance(rule, layers, xIn, yOut, r).value);
    TenthOfSize(|scores|);
  }

  /** How many logical layers `create_profile` walks: it visits `ldx = 1 .. n-1`. */
  function WalkLength(layerdict: seq<Entry>, nLayers: nat): (n: nat)
    ensures n <= |layerdict|
    ensures nLayers == 0 ==> n == |layerdict|
    ensures nLayers > 0 ==> n == if nLayers < |layerdict| then nLayers + 1 else |layerdict|
  {
    if nLayers == 0 || nLayers >= |layerdict| then |layerdict| else nLayers + 1
  }

  /** `x_in` for layer `ldx`, read from the entry with key `ldx + 1`: the raw
      input when that entry is the sentinel, otherwise the captured output of
      the last name of that group; None where the lookup raises. */
  function IncomingActivation(layerdict: seq<Entry>, ldx: nat, x: Tensor, acts: map<string, Tensor>): (r: Option<Tensor>)
    requires ldx < |layerdict|
    ensures layerdict[ldx].Sentinel? ==> r == Some(x)
    ensures layerdict[ldx].Group? ==>
      var names := layerdict[ldx].names;
      && (r.Some? <==> |names| > 0 && names[|names| - 1] in acts)
      && (r.Some? ==> r.value == acts[names[|names| - 1]])
  {
    match layerdict[ldx]
    case Sentinel => Some(x)
    case Group(names, _) =>
      if |names| > 0 && names[|names| - 1] in acts then Some(acts[names[|names| - 1]]) else None
  }

  /** The body of the `try` for layer `ldx` (key `ldx`, list position
      `ldx - 1`): fetch `x_in` and `y_out` and run the rule; None where any
      step raises. */
  function Step(layerdict: seq<Entry>, ldx: nat, x: Tensor, acts: map<string, Tensor>, r: Tensor,
                threshold: real, relevance: Relevance): Option<(seq<nat>, Tensor)>
    requires 1 <= ldx < |layerdict|
  {
    var xIn := IncomingActivation(layerdict, ldx, x, acts);
    var here := layerdict[ldx - 1];
    if xIn.None? || here.Sentinel? || |here.names| == 0 || here.names[|here.names| - 1] !in acts then None
    else ContribRule(here.rule, here.names, xIn.value, acts[here.names[|here.names| - 1]], r, threshold, relevance)
  }

  /** The profile after layers `ldx .. n-1` have been tried from profile
      `acc` with relevance `r`: the first failing layer ends the walk. */
  function Layers(layerdict: seq<Entry>, ldx: nat, n: nat, x: Tensor, acts: map<string, Tensor>, r: Tensor,
                  threshold: real, relevance: Relevance, acc: Profile): Profile
    requires 1 <= ldx && n <= |layerdict|
    decreases n - ldx
  {
    if ldx >= n then acc
    else
      match Step(layerdict, ldx, x, acts, r, threshold, relevance)
      case None => acc
      case Some(res) =>
        Layers(layerdict, ldx + 1, n, x, acts, res.1, threshold, relevance, Record(acc, ldx, res.0))
  }

  /** Record one profiled layer: its neuron list, an empty synapse counter and
      no synapse weights (the rules return none). */
  function Record(p: Profile, ldx: nat, neurons: seq<nat>): Profile
  {
    p.(neuronCounts := p.neuronCounts[ldx := neurons],
       synapseCounts := p.synapseCounts[ldx := multiset{}],
       synapseWeights := p.synapseWeights[ldx := []])
  }

  /** The relevance seeded at the output: the logits masked to the winner. */
  function OneHot(y: Tensor, k: nat): (r: Tensor)
    ensures |r| == |y|
    ensures forall j :: 0 <= j < |y| ==> r[j] == if j == k then y[j] else 0.0
  {
    seq(|y|, j requires 0 <= j < |y| => if j == k then y[j] else 0.0)
  }

  /** Layer 0 of every profile: the argmax neuron, counted once as the
      synapse `(n, n, 0)`, with the largest logit as its weight. */
  function Seed(y: Tensor): Profile
    requires |y| > 0
  {
    var k := ArgMax(y);
    Profile(map[0 := [k]], map[0 := multiset{(k, k, 0)}], map[0 := [y[k]]], 1)
  }

  /** What `create_profile` returns for a forward pass with output `y` and
      capture map `acts`; None where the argmax of an empty output raises
      outside the `try`. */
  function ProfileOf(y: Tensor, acts: map<string, Tensor>, x: Tensor, layerdict: seq<Entry>, nLayers: nat,
                     threshold: real, relevance: Relevance): Option<Profile>
  {
    if |y| == 0 then None
    else
      var n := WalkLength(layerdict, nLayers);
      if n == 0 then Some(Seed(y))
      else Some(Layers(layerdict, 1, n, x, acts, OneHot(y, ArgMax(y)), threshold, relevance, Seed(y)))
  }

  /** Keys all three maps share. */
  ghost predicate KeysBelow(p: Profile, m: nat)
  {
    && (forall l: nat :: l in p.neuronCounts <==> l < m)
    && (forall l: nat :: l in p.synapseCounts <==> l < m)
    && (forall l: nat :: l in p.synapseWeights <==> l < m)
  }

  /** What every recorded layer `l >= 1` satisfies: its group carries a
      working rule and its neuron list is duplicate-free. */
  predicate LayersRecorded(layerdict: seq<Entry>, p: Profile)
  {
    forall l :: l in p.neuronCounts && l >= 1 ==>
      && l - 1 < |layerdict| && layerdict[l - 1].Group?
      && layerdict[l - 1].rule in {ContribLinear, ContribMax1d, ContribConv1d}
      && Distinct(p.neuronCounts[l])
  }

  /** A profile whose keys are `0 .. m-1`, with layer 0 recording `first`
      and every later layer recorded from a working rule. */
  ghost predicate Shaped(layerdict: seq<Entry>, p: Profile, m: nat, first: seq<nat>)
  {
    1 <= m && KeysBelow(p, m) && LayersRecorded(layerdict, p) && p.neuronCounts[0] == first
  }

  lemma {:induction false} LayersKeys(layerdict: seq<Entry>, ldx: nat, n: nat, x: Tensor, acts: map<string, Tensor>, r: Tensor,
                                      threshold: real, relevance: Relevance, acc: Profile, first: seq<nat>) returns (m: nat)
    requires 1 <= ldx <= n <= |layerdict|
    requires Shaped(layerdict, acc, ldx, first)
    ensures ldx <= m <= n && Shaped(layerdict, Layers(layerdict, ldx, n, x, acts, r, threshold, relevance, acc), m, first)
    decreases n - ldx
  {
    var s := if ldx < n then Step(layerdict, ldx, x, acts, r, threshold, relevance) else None;
    if s.Some? {
      var acc' := Record(acc, ldx, s.value.0);
      RecordExtends(layerdict, acc, ldx, s.value.0, first);
      m := LayersKeys(layerdict, ldx + 1, n, x, acts, s.value.1, threshold, relevance, acc', first);
    } else {
      m := ldx;
    }
  }

  /** Recording layer ldx of a working group extends the key prefix by one. */
  lemma RecordExtends(layerdict: seq<Entry>, acc: Profile, ldx: nat, neurons: seq<nat>, first: seq<nat>)
    requires 1 <= ldx <= |layerdict| && layerdict[ldx - 1].Group?
    requires layerdict[ldx - 1].rule in {ContribLinear, ContribMax1d, ContribConv1d} && Distinct(neurons)
    requires Shaped(layerdict, acc, ldx, first)
    ensures Shaped(layerdict, Record(acc, ldx, neurons), ldx + 1, first)
  {
  }

  lemma {:induction false} SeedShape(y: Tensor, layerdict: seq<Entry>)
    requires |y| > 0
    ensures Shaped(layerdict, Seed(y), 1, [ArgMax(y)])
  {
  }

  /** The profile's shape: None exactly for an empty output; otherwise layer 0
      records exactly the argmax index, the keys of all three maps are one
      contiguous prefix `0 .. m-1` of the walked layers (a failing layer ends
      the walk), and each recorded layer came from a group with a working rule. */
  lemma {:induction false} ProfileShape(y: Tensor, acts: map<string, Tensor>, x: Tensor, layerdict: seq<Entry>, nLayers: nat,
                     threshold: real, relevance: Relevance)
    ensures var p := ProfileOf(y, acts, x, layerdict, nLayers, threshold, relevance);
      && (p.None? <==> |y| == 0)
      && (p.Some? ==>
            && 0 in p.value.neuronCounts && p.value.neuronCounts[0] == [ArgMax(y)]
            && (exists m :: 1 <= m && (m <= WalkLength(layerdict, nLayers) || m == 1) && KeysBelow(p.value, m))
            && LayersRecorded(layerdict, p.value))
  {
    if |y| > 0 {
      var n := WalkLength(layerdict, nLayers);
      var seed := Seed(y);
      SeedShape(y, layerdict);
      if n > 0 {
        var p := Layers(layerdict, 1, n, x, acts, OneHot(y, ArgMax(y)), threshold, relevance, seed);
        assert ProfileOf(y, acts, x, layerdict, nLayers, threshold, relevance) == Some(p);
        var m := LayersKeys(layerdict, 1, n, x, acts, OneHot(y, ArgMax(y)), threshold, relevance, seed, [ArgMax(y)]);
        assert 1 <= m <= n && KeysBelow(p, m);
      } else {
        assert ProfileOf(y, acts, x, layerdict, nLayers, threshold, relevance) == Some(seed);
      }
    }
  }

  /** The loop of `create_layers`: walk the layers from the output back,
      closing a group at each implemented layer, until the limit or an
      unimplemented layer breaks the walk off. */
  method GroupLayers(order: seq<string>, kinds: map<string, LayerKind>, nlayers: nat)
    returns (layerdict: seq<Entry>, namelist: set<string>)
    requires forall n :: n in order ==> n in kinds
    ensures layerdict == LayerDict(order, kinds, nlayers)
    ensures namelist == HookedNames(order, kinds, nlayers)
  {
    var limit := if nlayers == 0 then |order| else nlayers;
    assert limit == Limit(order, nlayers);
    var pending: seq<string> := [];
    var layeridx: nat := 0;
    namelist := {};
    var groups: seq<Entry> := [];
    var broke := false;
    assert order[..|order|] == order;
    for i := |order| downto 0
      invariant Walk(order, kinds, limit, Start)
             == Walk(order[..i], kinds, limit, WalkState(pending, layeridx, namelist, groups, false))
    {
      var kdx := order[i];
      assert order[..i + 1][..i] == order[..i];
      if layeridx == limit {
        pending := [kdx] + pending;
        namelist := namelist + {kdx};
        layeridx := layeridx + 1;
        groups := groups + [Group(pending, NoRule)];
        broke := true;
        assert Walk(order, kinds, limit, Start) == WalkState([], layeridx, namelist, groups, true);
        break;
      }
      var thisType := kinds[kdx];
      if thisType.Dropout? {
        continue;
      } else if thisType.Activation? {
        pending := [kdx] + pending;
        namelist := namelist + {kdx};
        continue;
      } else if thisType.BatchNorm? {
        continue;
      } else if Implemented(thisType) {
        pending := [kdx] + pending;
        namelist := namelist + {kdx};
        layeridx := layeridx + 1;
        groups := groups + [Group(pending, RuleFor(thisType))];
        pending := [];
        continue;
      } else {
        pending := [kdx] + pending;
        namelist := namelist + {kdx};
        layeridx := layeridx + 1;
        groups := groups + [Group(pending, NoRule)];
        broke := true;
        assert Walk(order, kinds, limit, Start) == WalkState([], layeridx, namelist, groups, true);
        break;
      }
    }
    if !broke {
      assert order[..0] == [];
      layeridx := layeridx + 1;
      groups := groups + [Sentinel];
    }
    layerdict := groups;
  }

  class TorchProfiler {
    /** The hook wrapper around the network. */
    const model: TorchHook
    /** `self.hooks`: the wrapper's module map, fixed at construction. */
    const hooksOrder: seq<string>
    const hooksDict: map<string, LayerKind>

    ghost predicate Valid()
      reads this, model
    {
      && model.Valid()
      && model.moduleOrder == hooksOrder
      && model.moduleDict == hooksDict
    }

    constructor (named: seq<NamedModule>, net: Tensor -> Trace)
      requires Distinct(Names(named))
      ensures Valid() && fresh(model)
      ensures model.net == net && model.registered == [] && model.hookedModuleNames == []
      ensures hooksOrder == Names(LeafModules(named)) && hooksDict == LeafDict(named)
    {
      var hook := new TorchHook(named, net);
      var order, dict := hook.AvailableModules();
      model := hook;
      hooksOrder := order;
      hooksDict := dict;
    }

    /** `create_layers`: the grouping walk, then `add_hooks` on the marked
        names in some order, each once. */
    method CreateLayers(nlayers: nat) returns (layerdict: seq<Entry>)
      requires Valid()
      modifies model`hookedModuleNames, model`registered
      ensures Valid()
      ensures layerdict == LayerDict(hooksOrder, hooksDict, nlayers)
      ensures |model.registered| >= |old(model.registered)|
      ensures model.registered[..|old(model.registered)|] == old(model.registered)
      ensures var added := model.registered[|old(model.registered)|..];
        && Distinct(added) && Elems(added) == HookedNames(hooksOrder, hooksDict, nlayers)
        && model.hookedModuleNames == old(model.hookedModuleNames) + added
    {
      var namelist;
      layerdict, namelist := GroupLayers(hooksOrder, hooksDict, nlayers);
      var names := SetToList(namelist);
      HookedNamesAreLayers(hooksOrder, hooksDict, nlayers);
      if |names| > 0 {
        assert forall j :: 0 <= j < |names| ==> names[j] in model.moduleDict by {
          forall j | 0 <= j < |names| ensures names[j] in model.moduleDict {
            assert names[j] in Elems(names);
          }
        }
        FirstMissingAt(names, model.moduleDict, |names|);
        var _ := model.AddHooks(names);
      }
      assert model.registered[|old(model.registered)|..] == names;
    }

    /** `create_profile`: one forward pass through the hooked network, the
        argmax seed, then the layer walk, stopping at the first failure. */
    method CreateProfile(x: Tensor, layerdict: seq<Entry>, nLayers: nat, threshold: real, relevance: Relevance)
      returns (p: Option<Profile>)
      modifies model`activationDict
      ensures p == ProfileOf(model.net(x).output, Captured(model.net(x).executed, model.registered), x, layerdict,
                             nLayers, threshold, relevance)
    {
      var y, actives := model.Forward(x);
      if |y| == 0 {
        return None;
      }
      var neuron := ArgMax(y);
      var seed := Seed(y);
      var neuronCounts := seed.neuronCounts;
      var synapseCounts := seed.synapseCounts;
      var synapseWeights := seed.synapseWeights;
      var r := OneHot(y, neuron);
      var n := WalkLength(layerdict, nLayers);
      if n == 0 {
        return Some(seed);
      }
      var ldx := 1;
      while ldx < n
        invariant 1 <= ldx <= n
        invariant Layers(layerdict, 1, n, x, actives, OneHot(y, neuron), threshold, relevance, seed)
               == Layers(layerdict, ldx, n, x, actives, r, threshold, relevance,
                         Profile(neuronCounts, synapseCounts, synapseWeights, 1))
      {
        var res := Step(layerdict, ldx, x, actives, r, threshold, relevance);
        if res.None? {
          break;
        }
        neuronCounts := neuronCounts[ldx := res.value.0];
        synapseCounts := synapseCounts[ldx := multiset{}];
        synapseWeights := synapseWeights[ldx := []];
        r := res.value.1;
        ldx := ldx + 1;
      }
      p := Some(Profile(neuronCounts, synapseCounts, synapseWeights, 1));
    }
  }
}
