/** The steps a plan is made of, what they declare to the control host, and their per-host
    resolution. */
module Plan {
  import opened Basics
  import opened Ast
  import Eval
  import Preserve
  import Text

  /** An instruction call, or one of the groups: `block` under `as`, `parallel`, `cond`. */
  datatype Step = Step(
    instruction: string,
    args: map<string, string>,
    refs: map<string, string>,
    templates: map<string, string>,
    bind: string,
    caught: bool,
    become: string,
    interp: string,
    env: map<string, string>,
    with: map<string, string>,
    control: seq<string>,
    block: seq<Step>,
    parallel: seq<Step>,
    cond: Option<IfBlock>)

  /** `inline` is the instruction run as the condition; `on` tests a captured result. */
  datatype IfBlock = IfBlock(
    inline: Option<Step>,
    pattern: Option<ResultRef>,
    on: Option<ResultRef>,
    negate: bool,
    thn: seq<Step>,
    els: seq<Step>)

  datatype ResultRef = ResultRef(name: string, category: Category, tag: string, changed: bool)

  // --- the allow-list ---

  /** The paths a step marks itself. */
  ghost function OwnPaths(s: Step): set<string> {
    OwnOf(s, s.control)
  }

  /** Every control-host path the steps mark, at any depth. */
  ghost function Paths(steps: seq<Step>): set<string> {
    if steps == [] then {} else StepPaths(steps[0]) + Paths(steps[1..])
  }

  ghost function StepPaths(s: Step): set<string> {
    OwnPaths(s) + Paths(s.block) + Paths(s.parallel) + (if s.cond.Some? then CondPaths(s.cond.value) else {})
  }

  ghost function CondPaths(ib: IfBlock): set<string> {
    (if ib.inline.Some? then StepPaths(ib.inline.value) else {}) + Paths(ib.thn) + Paths(ib.els)
  }

  /** `ControlResources`: what the control host will serve. */
  ghost function ControlResources(steps: seq<Step>): set<string> {
    Preserve.Resources(Paths(steps))
  }

  /** `scanSteps`: the shared set filled by recursion; `paths` is what it stands for. */
  class Scan {
    var seen: set<string>
    ghost var paths: set<string>

    ghost predicate Valid()
      reads this
    {
      seen == Preserve.Resources(paths)
    }

    constructor ()
      ensures Valid() && paths == {}
    {
      seen, paths := {}, {};
    }

    method Steps(steps: seq<Step>)
      requires Valid()
      modifies this
      ensures Valid() && paths == old(paths) + Paths(steps)
      decreases steps, 0
    {
      var i := 0;
      while i < |steps|
        invariant 0 <= i <= |steps| && Valid()
        invariant paths + Paths(steps[i..]) == old(paths) + Paths(steps)
        invariant old(paths) <= paths
      {
        One(steps[i]);
        assert steps[i..][1..] == steps[i + 1..];
        i := i + 1;
      }
    }

    method One(s: Step)
      requires Valid()
      modifies this
      ensures Valid() && paths == old(paths) + StepPaths(s)
      decreases s, 1
    {
      Own(s);
      Steps(s.block);
      Steps(s.parallel);
      if s.cond.Some? { Cond(s.cond.value); }
    }

    method Cond(ib: IfBlock)
      requires Valid()
      modifies this
      ensures Valid() && paths == old(paths) + CondPaths(ib)
      decreases ib, 0
    {
      if ib.inline.Some? { One(ib.inline.value); }
      Steps(ib.thn);
      Steps(ib.els);
    }

    method Own(s: Step)
      requires Valid()
      modifies this
      ensures Valid() && paths == old(paths) + OwnPaths(s)
    {
      var j := 0;
      while j < |s.control|
        invariant 0 <= j <= |s.control| && Valid()
        invariant paths == old(paths) + OwnOf(s, s.control[..j])
      {
        var arg := s.control[j];
        OwnAppend(s, s.control[..j], arg);
        assert s.control[..j] + [arg] == s.control[..j + 1];
        if arg in s.args { Mark(s.args[arg]); }
        j := j + 1;
      }
      assert s.control[..j] == s.control;
    }

    /** Every read primitive is allowed for a marked path. */
    method Mark(p: string)
      requires Valid()
      modifies this
      ensures Valid() && paths == old(paths) + {p}
    {
      FourKeys(p);
      ResourcesSplit(paths, {p});
      seen := seen + {Eval.ResourceKey("file.read", p), Eval.ResourceKey("file.render", p),
                      Eval.ResourceKey("dir.list", p), Eval.ResourceKey("dir.sync", p)};
      paths := paths + {p};
    }
  }

  /** `ControlResources`: scanned once, then sorted. */
  method DeclaredBy(steps: seq<Step>) returns (declared: seq<string>)
    ensures Sorted(declared) && Elems(declared) == ControlResources(steps)
  {
    var scan := new Scan();
    scan.Steps(steps);
    declared := SortStrings(scan.seen);
  }

  ghost function OwnOf(s: Step, control: seq<string>): set<string> {
    set a | a in control && a in s.args :: s.args[a]
  }

  lemma OwnAppend(s: Step, control: seq<string>, arg: string)
    ensures OwnOf(s, control + [arg]) == OwnOf(s, control) + if arg in s.args then {s.args[arg]} else {}
  {
    assert forall a :: a in control + [arg] <==> a in control || a == arg;
  }

  lemma ResourcesSplit(a: set<string>, b: set<string>)
    ensures Preserve.Resources(a + b) == Preserve.Resources(a) + Preserve.Resources(b)
    ensures Preserve.Resources({}) == {}
  {
  }

  lemma FourKeys(p: string)
    ensures Preserve.Resources({p}) ==
            {Eval.ResourceKey("file.read", p), Eval.ResourceKey("file.render", p),
             Eval.ResourceKey("dir.list", p), Eval.ResourceKey("dir.sync", p)}
  {
    forall r | r in {Eval.ResourceKey("file.read", p), Eval.ResourceKey("file.render", p),
                     Eval.ResourceKey("dir.list", p), Eval.ResourceKey("dir.sync", p)}
      ensures r in Preserve.Resources({p})
    {
      var k :| k in {"file.read", "file.render", "dir.list", "dir.sync"} && r == Eval.ResourceKey(k, p);
      Preserve.ResourceDeclared({p}, k, p);
    }
  }
}
