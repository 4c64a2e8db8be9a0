/** The layer grouper of `TorchProfiler.create_layers`: the leaf layers are
    walked from the output back to the input and gathered into logical
    layers, each an implemented layer together with the activations that
    follow it, dropout and batch-norm layers being left out. This module holds
    the walk as a function and what it guarantees; the method that runs it
    imperatively is `Profiler.TorchProfiler.CreateLayers`. */
module Grouper {
  import opened Basics
  import opened Hook

  /** The contribution-rule tag of a logical layer; NoRule is the source's `0`. */
  datatype Rule = NoRule | ContribLinear | ContribMax1d | ContribAdaptiveAvgPool1d | ContribConv1d

  /** An entry of `layerdict`: `[names, tag]`, or the terminal `[0, 0]`. */
  datatype Entry = Group(names: seq<string>, rule: Rule) | Sentinel

  /** The kinds the profiler has a contribution rule for. */
  predicate Implemented(k: LayerKind)
  {
    k.Linear? || k.MaxPool1d? || k.AdaptiveAvgPool1d? || k.Conv1d?
  }

  /** Kinds the walk steps over without recording them. */
  predicate Skipped(k: LayerKind)
  {
    k.Dropout? || k.BatchNorm?
  }

  /** The rule at the same list position as the layer's class. */
  function RuleFor(k: LayerKind): (r: Rule)
    requires Implemented(k)
    ensures r != NoRule
  {
    match k
    case Linear => ContribLinear
    case MaxPool1d => ContribMax1d
    case AdaptiveAvgPool1d => ContribAdaptiveAvgPool1d
    case Conv1d => ContribConv1d
  }

  /** The walk's variables: the pending deque, the group counter, the names
      marked for hooking, the groups closed so far, and whether it broke off. */
  datatype WalkState = WalkState(pending: seq<string>, count: nat, named: set<string>, groups: seq<Entry>, stopped: bool)

  const Start := WalkState([], 0, {}, [], false)

  /** Put the visited layer in front of the pending group and close it. */
  function Close(s: WalkState, name: string, rule: Rule, stop: bool): WalkState
  {
    WalkState([], s.count + 1, s.named + {name}, s.groups + [Group([name] + s.pending, rule)], stop)
  }

  /** One iteration of the loop, for the visited layer `name` of kind `kind`. */
  function Visit(s: WalkState, name: string, kind: LayerKind, limit: nat): WalkState
  {
    if s.count == limit then Close(s, name, NoRule, true)
    else if kind.Dropout? then s
    else if kind.Activation? then s.(pending := [name] + s.pending, named := s.named + {name})
    else if kind.BatchNorm? then s
    else if Implemented(kind) then Close(s, name, RuleFor(kind), false)
    else Close(s, name, NoRule, true)
  }

  /** The walk over the layers `order`, last layer first, until it breaks off. */
  function Walk(order: seq<string>, kinds: map<string, LayerKind>, limit: nat, s: WalkState): WalkState
    requires forall n :: n in order ==> n in kinds
    decreases |order|
  {
    if |order| == 0 || s.stopped then s
    else
      var name := order[|order| - 1];
      Walk(order[..|order| - 1], kinds, limit, Visit(s, name, kinds[name], limit))
  }

  /** `nlayers = 0` means every layer may be grouped. */
  function Limit(order: seq<string>, nlayers: nat): nat
  {
    if nlayers == 0 then |order| else nlayers
  }

  /** The `layerdict` returned: entry i holds the logical layer with key i + 1. */
  function LayerDict(order: seq<string>, kinds: map<string, LayerKind>, nlayers: nat): seq<Entry>
    requires forall n :: n in order ==> n in kinds
  {
    var s := Walk(order, kinds, Limit(order, nlayers), Start);
    if s.stopped then s.groups else s.groups + [Sentinel]
  }

  /** The names handed to `add_hooks`. */
  function HookedNames(order: seq<string>, kinds: map<string, LayerKind>, nlayers: nat): set<string>
    requires forall n :: n in order ==> n in kinds
  {
    Walk(order, kinds, Limit(order, nlayers), Start).named
  }

  // ---------------------------------------------------------------------------
  // Shape of the groups

  /** A group closed by an implemented layer: that layer first, tagged with its
      rule, then only activations. */
  predicate RuleGroup(kinds: map<string, LayerKind>, e: Entry)
  {
    && e.Group? && |e.names| > 0
    && (forall n :: n in e.names ==> n in kinds)
    && Implemented(kinds[e.names[0]]) && e.rule == RuleFor(kinds[e.names[0]])
    && forall j :: 1 <= j < |e.names| ==> kinds[e.names[j]].Activation?
  }

  /** The group that ends a walk that broke off: tag 0, any layer first, then
      only activations. */
  predicate StopGroup(kinds: map<string, LayerKind>, e: Entry)
  {
    && e.Group? && |e.names| > 0 && e.rule == NoRule
    && (forall n :: n in e.names ==> n in kinds)
    && forall j :: 1 <= j < |e.names| ==> kinds[e.names[j]].Activation?
  }

  ghost predicate ShapeInv(kinds: map<string, LayerKind>, limit: nat, s: WalkState)
  {
    && |s.groups| == s.count
    && (forall i :: 0 <= i < |s.groups| - (if s.stopped then 1 else 0) ==> RuleGroup(kinds, s.groups[i]))
    && (s.stopped ==>
          && |s.groups| > 0 && StopGroup(kinds, s.groups[|s.groups| - 1])
          && (kinds[s.groups[|s.groups| - 1].names[0]].Other? || s.count == limit + 1)
          && s.count <= limit + 1 && s.pending == [])
    && (!s.stopped ==> s.count <= limit)
    && (forall n :: n in s.pending ==> n in kinds && kinds[n].Activation?)
  }

  lemma VisitKeepsShape(kinds: map<string, LayerKind>, limit: nat, s: WalkState, name: string)
    requires name in kinds && !s.stopped && ShapeInv(kinds, limit, s)
    ensures ShapeInv(kinds, limit, Visit(s, name, kinds[name], limit))
  {
    var r := Visit(s, name, kinds[name], limit);
    if r.groups != s.groups {
      var g := r.groups[|r.groups| - 1];
      assert g == Group([name] + s.pending, g.rule);
      assert forall j :: 1 <= j < |g.names| ==> g.names[j] == s.pending[j - 1];
    }
  }

  lemma {:induction false} WalkKeepsShape(order: seq<string>, kinds: map<string, LayerKind>, limit: nat, s: WalkState)
    requires forall n :: n in order ==> n in kinds
    requires ShapeInv(kinds, limit, s)
    ensures ShapeInv(kinds, limit, Walk(order, kinds, limit, s))
    decreases |order|
  {
    if |order| > 0 && !s.stopped {
      var name := order[|order| - 1];
      VisitKeepsShape(kinds, limit, s, name);
      WalkKeepsShape(order[..|order| - 1], kinds, limit, Visit(s, name, kinds[name], limit));
    }
  }

  /** While fewer groups are closed than layers remain below the limit, the
      limit cannot fire: a walk that breaks off then stopped at a layer of an
      unimplemented kind. */
  lemma {:induction false} WalkWithinLimit(order: seq<string>, kinds: map<string, LayerKind>, limit: nat, s: WalkState)
    requires forall n :: n in order ==> n in kinds
    requires !s.stopped && s.count + |order| <= limit && |s.groups| == s.count
    ensures var r := Walk(order, kinds, limit, s);
            r.stopped ==> |r.groups| > 0 && r.groups[|r.groups| - 1].Group?
                          && |r.groups[|r.groups| - 1].names| > 0
                          && r.groups[|r.groups| - 1].names[0] in kinds
                          && kinds[r.groups[|r.groups| - 1].names[0]].Other?
    decreases |order|
  {
    if |order| > 0 {
      var name := order[|order| - 1];
      var t := Visit(s, name, kinds[name], limit);
      if !t.stopped {
        WalkWithinLimit(order[..|order| - 1], kinds, limit, t);
      }
    }
  }

  /** Shape of `layerdict`: every entry but the last is a group closed by an
      implemented layer, tagged with that layer's rule and followed only by
      activations; the last is the sentinel `[0, 0]` exactly when the walk ran
      to the end, and otherwise a tag-0 group that starts with an unimplemented
      layer or with the layer met once `nlayers` groups were closed. At most
      the limit many groups carry a rule, and with `nlayers = 0` the limit
      never fires. */
  lemma LayerDictShape(order: seq<string>, kinds: map<string, LayerKind>, nlayers: nat)
    requires forall n :: n in order ==> n in kinds
    ensures var ld := LayerDict(order, kinds, nlayers);
      && |ld| > 0
      && (forall i :: 0 <= i < |ld| - 1 ==> RuleGroup(kinds, ld[i]))
      && |ld| - 1 <= Limit(order, nlayers)
      && (ld[|ld| - 1].Sentinel? <==> !Walk(order, kinds, Limit(order, nlayers), Start).stopped)
      && (ld[|ld| - 1].Group? ==>
            && StopGroup(kinds, ld[|ld| - 1])
            && (kinds[ld[|ld| - 1].names[0]].Other? || |ld| - 1 == Limit(order, nlayers)))
      && (nlayers == 0 && ld[|ld| - 1].Group? ==> kinds[ld[|ld| - 1].names[0]].Other?)
  {
    var limit := Limit(order, nlayers);
    WalkKeepsShape(order, kinds, limit, Start);
    if nlayers == 0 {
      WalkWithinLimit(order, kinds, limit, Start);
    }
  }

  // ---------------------------------------------------------------------------
  // Which layers end up in which group, and in what order

  /** The names of the layers the walk records, in forward order. */
  function Kept(order: seq<string>, kinds: map<string, LayerKind>): seq<string>
    requires forall n :: n in order ==> n in kinds
  {
    if |order| == 0 then []
    else
      var name := order[|order| - 1];
      Kept(order[..|order| - 1], kinds) + (if Skipped(kinds[name]) then [] else [name])
  }

  /** The names of all groups read in forward order: the last group closed
      (nearest the input) first, each group's names in their own order. */
  function ForwardNames(groups: seq<Entry>): seq<string>
  {
    if |groups| == 0 then []
    else
      var g := groups[|groups| - 1];
      (if g.Group? then g.names else []) + ForwardNames(groups[..|groups| - 1])
  }

  lemma {:induction false} ForwardNamesSnoc(groups: seq<Entry>, names: seq<string>, rule: Rule)
    ensures ForwardNames(groups + [Group(names, rule)]) == names + ForwardNames(groups)
  {
    assert (groups + [Group(names, rule)])[..|groups|] == groups;
  }

  /** Closing a group puts the visited layer and the pending ones in front. */
  lemma {:induction false} CloseCovers(s: WalkState, name: string, rule: Rule, stop: bool)
    ensures ForwardNames(Close(s, name, rule, stop).groups) == [name] + (s.pending + ForwardNames(s.groups))
  {
    ForwardNamesSnoc(s.groups, [name] + s.pending, rule);
  }

  /** One visit, seen through the names it places. */
  lemma {:induction false} VisitCovers(s: WalkState, name: string, kind: LayerKind, limit: nat, acc: seq<string>)
    requires !s.stopped && s.pending + ForwardNames(s.groups) == acc
    ensures var t := Visit(s, name, kind, limit);
      && (t.stopped ==> ForwardNames(t.groups) == [name] + acc)
      && (!t.stopped ==> t.pending + ForwardNames(t.groups) == (if Skipped(kind) then acc else [name] + acc))
  {
    if s.count == limit {
      CloseCovers(s, name, NoRule, true);
    } else if kind.Dropout? || kind.BatchNorm? {
    } else if kind.Activation? {
      assert [name] + s.pending + ForwardNames(s.groups) == [name] + acc;
    } else if Implemented(kind) {
      CloseCovers(s, name, RuleFor(kind), false);
    } else {
      CloseCovers(s, name, NoRule, true);
    }
  }

  lemma {:induction false} KeptSnoc(q: seq<string>, name: string, kinds: map<string, LayerKind>)
    requires forall n :: n in q ==> n in kinds
    requires name in kinds
    ensures Kept(q + [name], kinds) == Kept(q, kinds) + (if Skipped(kinds[name]) then [] else [name])
  {
    assert (q + [name])[..|q|] == q;
  }

  /** A break-off point found in the prefix is one of the whole order. */
  lemma {:induction false} StopPointExtends(order: seq<string>, kinds: map<string, LayerKind>, fwd: seq<string>, acc: seq<string>)
    requires |order| > 0 && forall n :: n in order ==> n in kinds
    requires var p := order[..|order| - 1];
             var name := order[|order| - 1];
             exists c :: 0 <= c < |p| && fwd == [p[c]] + Kept(p[c + 1..], kinds) + ((if Skipped(kinds[name]) then [] else [name]) + acc)
    ensures exists c :: 0 <= c < |order| && fwd == [order[c]] + Kept(order[c + 1..], kinds) + acc
  {
    var p := order[..|order| - 1];
    var name := order[|order| - 1];
    var c :| 0 <= c < |p| && fwd == [p[c]] + Kept(p[c + 1..], kinds) + ((if Skipped(kinds[name]) then [] else [name]) + acc);
    assert order[c + 1..] == p[c + 1..] + [name];
    KeptSnoc(p[c + 1..], name, kinds);
    assert fwd == [order[c]] + Kept(order[c + 1..], kinds) + acc;
  }

  /** A walk that runs to the end has placed, in forward order, exactly the
      recorded layers in front of what was placed before. */
  lemma {:induction false} WalkCoversKept(order: seq<string>, kinds: map<string, LayerKind>, limit: nat, s: WalkState, acc: seq<string>)
    requires forall n :: n in order ==> n in kinds
    requires !s.stopped && s.pending + ForwardNames(s.groups) == acc
    ensures var r := Walk(order, kinds, limit, s);
            !r.stopped ==> r.pending + ForwardNames(r.groups) == Kept(order, kinds) + acc
    decreases |order|
  {
    if |order| > 0 {
      var n := |order|;
      var name := order[n - 1];
      var p := order[..n - 1];
      var t := Visit(s, name, kinds[name], limit);
      VisitCovers(s, name, kinds[name], limit, acc);
      if !t.stopped {
        var tail := if Skipped(kinds[name]) then [] else [name];
        WalkCoversKept(p, kinds, limit, t, tail + acc);
        KeptSnoc(p, name, kinds);
        assert order == p + [name];
      }
    }
  }

  /** A walk that breaks off at layer c has placed, in forward order, layer c
      and then the recorded layers after it, in front of what was placed
      before. */
  lemma {:induction false} WalkCoversStopped(order: seq<string>, kinds: map<string, LayerKind>, limit: nat, s: WalkState, acc: seq<string>)
    requires forall n :: n in order ==> n in kinds
    requires !s.stopped && s.pending + ForwardNames(s.groups) == acc
    ensures var r := Walk(order, kinds, limit, s);
            r.stopped ==> exists c :: 0 <= c < |order| && ForwardNames(r.groups) == [order[c]] + Kept(order[c + 1..], kinds) + acc
    decreases |order|
  {
    if |order| > 0 {
      var n := |order|;
      var name := order[n - 1];
      var p := order[..n - 1];
      var t := Visit(s, name, kinds[name], limit);
      VisitCovers(s, name, kinds[name], limit, acc);
      if t.stopped {
        assert order[n..] == [];
        assert ForwardNames(t.groups) == [order[n - 1]] + Kept(order[n..], kinds) + acc;
      } else {
        var tail := if Skipped(kinds[name]) then [] else [name];
        WalkCoversStopped(p, kinds, limit, t, tail + acc);
        var r := Walk(p, kinds, limit, t);
        if r.stopped {
          StopPointExtends(order, kinds, ForwardNames(r.groups), acc);
        }
      }
    }
  }

  /** Group names end up in forward order and cover exactly the recorded
      layers: reading the groups from the input side, the names are the
      non-dropout, non-batch-norm layers of the walked part of the network in
      network order. When the walk runs to the end, activations left pending
      in front of the first layer are in no group. When it breaks off at layer
      c, layer c (of any kind) heads the last group and nothing before it is
      grouped. */
  lemma LayerDictCovers(order: seq<string>, kinds: map<string, LayerKind>, nlayers: nat)
    requires forall n :: n in order ==> n in kinds
    ensures var r := Walk(order, kinds, Limit(order, nlayers), Start);
            var ld := LayerDict(order, kinds, nlayers);
      && (!r.stopped ==> r.pending + ForwardNames(ld) == Kept(order, kinds))
      && (r.stopped ==> exists c :: 0 <= c < |order| && ForwardNames(ld) == [order[c]] + Kept(order[c + 1..], kinds))
  {
    var limit := Limit(order, nlayers);
    var r := Walk(order, kinds, limit, Start);
    WalkCoversKept(order, kinds, limit, Start, []);
    WalkCoversStopped(order, kinds, limit, Start, []);
    if !r.stopped {
      var ld := r.groups + [Sentinel];
      assert ld[..|ld| - 1] == r.groups;
      assert Kept(order, kinds) + [] == Kept(order, kinds);
    } else {
      var c :| 0 <= c < |order| && ForwardNames(r.groups) == [order[c]] + Kept(order[c + 1..], kinds) + [];
      assert [order[c]] + Kept(order[c + 1..], kinds) + [] == [order[c]] + Kept(order[c + 1..], kinds);
    }
  }

  // ---------------------------------------------------------------------------
  // Which names get hooked

  lemma {:induction false} WalkNamesPlaced(order: seq<string>, kinds: map<string, LayerKind>, limit: nat, s: WalkState)
    requires forall n :: n in order ==> n in kinds
    requires s.named == Elems(s.pending + ForwardNames(s.groups))
    ensures var r := Walk(order, kinds, limit, s);
            r.named == Elems(r.pending + ForwardNames(r.groups))
    decreases |order|
  {
    if |order| > 0 && !s.stopped {
      var name := order[|order| - 1];
      var t := Visit(s, name, kinds[name], limit);
      if t.groups != s.groups {
        assert t.groups[..|t.groups| - 1] == s.groups;
        assert ForwardNames(t.groups) == [name] + s.pending + ForwardNames(s.groups);
      }
      WalkNamesPlaced(order[..|order| - 1], kinds, limit, t);
    }
  }

  /** Every name ever placed in a pending group is hooked, and only those:
      the hooked names are the names of all groups together with the
      activations still pending when the walk ran to the end. */
  lemma HookedNamesArePlaced(order: seq<string>, kinds: map<string, LayerKind>, nlayers: nat)
    requires forall n :: n in order ==> n in kinds
    ensures var r := Walk(order, kinds, Limit(order, nlayers), Start);
            HookedNames(order, kinds, nlayers) == Elems(r.pending + ForwardNames(LayerDict(order, kinds, nlayers)))
  {
    var limit := Limit(order, nlayers);
    var r := Walk(order, kinds, limit, Start);
    assert Start.pending + ForwardNames(Start.groups) == [];
    WalkNamesPlaced(order, kinds, limit, Start);
    if !r.stopped {
      var ld := r.groups + [Sentinel];
      assert ld[..|ld| - 1] == r.groups;
    }
  }

  /** The hooked names are layers of the network. */
  lemma HookedNamesAreLayers(order: seq<string>, kinds: map<string, LayerKind>, nlayers: nat)
    requires forall n :: n in order ==> n in kinds
    ensures HookedNames(order, kinds, nlayers) <= Elems(order)
  {
    WalkNamesFrom(order, kinds, Limit(order, nlayers), Start);
  }

  /** The walk marks only names it visits. */
  lemma {:induction false} WalkNamesFrom(order: seq<string>, kinds: map<string, LayerKind>, limit: nat, s: WalkState)
    requires forall n :: n in order ==> n in kinds
    ensures forall x :: x in Walk(order, kinds, limit, s).named ==> x in s.named || x in order
    decreases |order|
  {
    if |order| > 0 && !s.stopped {
      var name := order[|order| - 1];
      var p := order[..|order| - 1];
      var t := Visit(s, name, kinds[name], limit);
      assert t.named <= s.named + {name};
      WalkNamesFrom(p, kinds, limit, t);
      forall x | x in p ensures x in order { }
    }
  }
}
