/** `TorchHook` (utils/torch_hook.py): wraps a network, lists its leaf layers
    and records the outputs of the layers it has hooked during a forward pass.
    A layer is abstracted to its kind and a forward pass to a trace of the
    leaf layers it executes. */
module Hook {
  import opened Basics

  /** The kind of a leaf layer, the closed set the profiler tells apart. */
  datatype LayerKind = Linear | MaxPool1d | AdaptiveAvgPool1d | Conv1d | Activation | Dropout | BatchNorm | Other

  /** One entry of `model.named_modules()`: dotted name, kind, number of children. */
  datatype NamedModule = NamedModule(name: string, kind: LayerKind, childCount: nat)

  /** One forward pass: the network's output and, in execution order, each
      leaf layer it ran with that layer's output. */
  datatype Trace = Trace(output: Tensor, executed: seq<(string, Tensor)>)

  function Names(ms: seq<NamedModule>): (r: seq<string>)
    ensures |r| == |ms| && forall i :: 0 <= i < |ms| ==> r[i] == ms[i].name
  {
    seq(|ms|, i requires 0 <= i < |ms| => ms[i].name)
  }

  /** The modules without children, in `named_modules` order. */
  function LeafModules(named: seq<NamedModule>): (r: seq<NamedModule>)
    ensures forall m :: m in r <==> m in named && m.childCount == 0
  {
    if |named| == 0 then []
    else
      var last := named[|named| - 1];
      LeafModules(named[..|named| - 1]) + (if last.childCount == 0 then [last] else [])
  }

  /** The name-to-layer map built from the leaf modules, as `OrderedDict(...)`. */
  function LeafDict(named: seq<NamedModule>): map<string, LayerKind>
  {
    if |named| == 0 then map[]
    else
      var last := named[|named| - 1];
      var prev := LeafDict(named[..|named| - 1]);
      if last.childCount == 0 then prev[last.name := last.kind] else prev
  }

  /** `module_dict` holds exactly the leaf modules: a name is a key iff some
      module of that name has no children, and the key maps to its kind. */
  lemma {:induction false} LeafDictIsLeaves(named: seq<NamedModule>)
    requires Distinct(Names(named))
    ensures forall n :: n in LeafDict(named) <==> n in Names(LeafModules(named))
    ensures forall m :: m in named && m.childCount == 0 ==> m.name in LeafDict(named) && LeafDict(named)[m.name] == m.kind
  {
    if |named| > 0 {
      var p := named[..|named| - 1];
      var last := named[|named| - 1];
      assert Distinct(Names(p)) by {
        forall i, j | 0 <= i < j < |p| ensures Names(p)[i] != Names(p)[j] {
          assert Names(named)[i] != Names(named)[j];
        }
      }
      LeafDictIsLeaves(p);
      assert Names(LeafModules(named)) == Names(LeafModules(p)) + (if last.childCount == 0 then [last.name] else []);
      forall m | m in named && m.childCount == 0
        ensures m.name in LeafDict(named) && LeafDict(named)[m.name] == m.kind
      {
        if m != last {
          var i :| 0 <= i < |named| && named[i] == m;
          assert i < |named| - 1;
          assert m in p;
          assert Names(named)[i] != Names(named)[|named| - 1];
        }
      }
    }
  }

  /** The names of the leaf modules are distinct when all module names are. */
  lemma {:induction false} LeafNamesDistinct(named: seq<NamedModule>)
    requires Distinct(Names(named))
    ensures Distinct(Names(LeafModules(named)))
  {
    if |named| > 0 {
      var p := named[..|named| - 1];
      var last := named[|named| - 1];
      assert Distinct(Names(p)) by {
        forall i, j | 0 <= i < j < |p| ensures Names(p)[i] != Names(p)[j] {
          assert Names(named)[i] != Names(named)[j];
        }
      }
      LeafNamesDistinct(p);
      var lp := LeafModules(p);
      if last.childCount == 0 {
        forall i | 0 <= i < |lp| ensures lp[i].name != last.name {
          assert lp[i] in p;
          var k :| 0 <= k < |p| && p[k] == lp[i];
          assert Names(named)[k] != Names(named)[|named| - 1];
        }
        assert LeafModules(named) == lp + [last];
      }
    }
  }

  /** The map a pass leaves behind: every executed layer that has a hook
      writes its output under its name, a later write replacing an earlier one. */
  function Captured(executed: seq<(string, Tensor)>, hooked: seq<string>): map<string, Tensor>
  {
    if |executed| == 0 then map[]
    else
      var prev := Captured(executed[..|executed| - 1], hooked);
      var step := executed[|executed| - 1];
      if step.0 in hooked then prev[step.0 := step.1] else prev
  }

  /** After a pass, a name is a key of the capture map iff it is hooked and
      its layer ran in this pass. */
  lemma {:induction false} CapturedKeys(executed: seq<(string, Tensor)>, hooked: seq<string>, n: string)
    ensures n in Captured(executed, hooked) <==> n in hooked && exists i :: 0 <= i < |executed| && executed[i].0 == n
  {
    if |executed| > 0 {
      var p := executed[..|executed| - 1];
      CapturedKeys(p, hooked, n);
      if exists i :: 0 <= i < |p| && p[i].0 == n {
        var i :| 0 <= i < |p| && p[i].0 == n;
        assert executed[i].0 == n;
      }
    }
  }

  /** A repeated write for one name keeps the last value: each key holds the
      output of the last executed layer of that name. */
  lemma {:induction false} CapturedKeepsLastWrite(executed: seq<(string, Tensor)>, hooked: seq<string>, n: string)
    requires n in Captured(executed, hooked)
    ensures exists i :: 0 <= i < |executed| && executed[i] == (n, Captured(executed, hooked)[n])
              && forall j :: i < j < |executed| ==> executed[j].0 != n
  {
    var p := executed[..|executed| - 1];
    var step := executed[|executed| - 1];
    if step.0 == n {
      CapturedKeys(executed, hooked, n);
      assert executed[|executed| - 1] == (n, Captured(executed, hooked)[n]);
    } else {
      CapturedKeepsLastWrite(p, hooked, n);
      var i :| 0 <= i < |p| && p[i] == (n, Captured(p, hooked)[n]) && forall j :: i < j < |p| ==> p[j].0 != n;
      assert executed[i] == p[i];
      assert Captured(executed, hooked)[n] == Captured(p, hooked)[n];
    }
  }

  /** The first position of a name that is not a layer of the dictionary,
      or the list's length when there is none. */
  function FirstMissing(names: seq<string>, dict: map<string, LayerKind>): (k: nat)
    ensures k <= |names|
    ensures forall j :: 0 <= j < k ==> names[j] in dict
    ensures k < |names| ==> names[k] !in dict
    decreases |names|
  {
    if |names| == 0 then 0
    else if names[0] !in dict then 0
    else 1 + FirstMissing(names[1..], dict)
  }

  class TorchHook {
    /** The wrapped network, run in evaluation mode. */
    const net: Tensor -> Trace
    /** The keys of `module_dict` in order, and the map itself. */
    var moduleOrder: seq<string>
    var moduleDict: map<string, LayerKind>
    var activationDict: map<string, Tensor>
    var hookedModuleNames: seq<string>
    /** The forward hooks attached to layers, one per successful registration. */
    var registered: seq<string>

    ghost predicate Valid()
      reads this
    {
      && Distinct(moduleOrder)
      && (forall n :: n in moduleDict <==> n in moduleOrder)
      && (forall n :: n in registered ==> n in moduleDict)
    }

    constructor (named: seq<NamedModule>, net: Tensor -> Trace)
      requires Distinct(Names(named))
      ensures Valid() && this.net == net
      ensures moduleOrder == Names(LeafModules(named)) && moduleDict == LeafDict(named)
      ensures activationDict == map[] && hookedModuleNames == [] && registered == []
    {
      this.net := net;
      moduleOrder := Names(LeafModules(named));
      moduleDict := LeafDict(named);
      activationDict := map[];
      hookedModuleNames := [];
      registered := [];
      LeafNamesDistinct(named);
      LeafDictIsLeaves(named);
    }

    /** `available_modules`: the module dictionary itself, unchanged. */
    method AvailableModules() returns (order: seq<string>, dict: map<string, LayerKind>)
      ensures order == moduleOrder && dict == moduleDict
    {
      order, dict := moduleOrder, moduleDict;
    }

    /** `hook_fn`: overwrite the entry of `name` with the latest output. */
    method HookFn(name: string, output: Tensor)
      modifies this`activationDict
      ensures activationDict == old(activationDict)[name := output]
    {
      activationDict := activationDict[name := output];
    }

    /** `add_hooks`: every given name is appended (duplicates included) and a
        hook is attached to its layer. A name that is not a layer is appended
        and then raises KeyError, which ends the call with ok false. */
    method AddHooks(nameList: seq<string>) returns (ok: bool)
      requires Valid()
      modifies this`hookedModuleNames, this`registered
      ensures Valid()
      ensures var k := FirstMissing(nameList, moduleDict);
              && ok == (k == |nameList|)
              && registered == old(registered) + nameList[..k]
              && hookedModuleNames == old(hookedModuleNames) + nameList[..if ok then k else k + 1]
    {
      var i := 0;
      while i < |nameList|
        invariant 0 <= i <= |nameList|
        invariant forall j :: 0 <= j < i ==> nameList[j] in moduleDict
        invariant hookedModuleNames == old(hookedModuleNames) + nameList[..i]
        invariant registered == old(registered) + nameList[..i]
        invariant Valid()
      {
        hookedModuleNames := hookedModuleNames + [nameList[i]];
        if nameList[i] !in moduleDict {
          assert nameList[..i + 1] == nameList[..i] + [nameList[i]];
          FirstMissingAt(nameList, moduleDict, i);
          return false;
        }
        registered := registered + [nameList[i]];
        assert nameList[..i + 1] == nameList[..i] + [nameList[i]];
        i := i + 1;
      }
      assert nameList[..i] == nameList;
      FirstMissingAt(nameList, moduleDict, i);
      return true;
    }

    /** `forward`: reset the capture map, run the network, let every attached
        hook write its layer's output, and return the output with the map. */
    method Forward(x: Tensor) returns (y: Tensor, acts: map<string, Tensor>)
      modifies this`activationDict
      ensures y == net(x).output
      ensures acts == activationDict == Captured(net(x).executed, registered)
    {
      activationDict := map[];
      var trace := net(x);
      for t := 0 to |trace.executed|
        invariant activationDict == Captured(trace.executed[..t], registered)
      {
        var step := trace.executed[t];
        ghost var before := activationDict;
        for r := 0 to |registered|
          invariant activationDict == if step.0 in registered[..r] then before[step.0 := step.1] else before
        {
          if registered[r] == step.0 {
            HookFn(step.0, step.1);
          }
          assert registered[..r + 1] == registered[..r] + [registered[r]];
        }
        assert registered[..|registered|] == registered;
        assert trace.executed[..t + 1][..t] == trace.executed[..t];
      }
      assert trace.executed[..|trace.executed|] == trace.executed;
      y, acts := trace.output, activationDict;
    }
  }

  /** FirstMissing finds exactly the first name outside the dictionary. */
  lemma {:induction false} FirstMissingAt(names: seq<string>, dict: map<string, LayerKind>, k: nat)
    requires k <= |names|
    requires forall j :: 0 <= j < k ==> names[j] in dict
    requires k < |names| ==> names[k] !in dict
    ensures FirstMissing(names, dict) == k
    decreases k
  {
    if k > 0 {
      FirstMissingAt(names[1..], dict, k - 1);
    }
  }
}
