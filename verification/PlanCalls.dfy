/** A call in a plan: each argument becomes a literal, a reference, or a text left for the
    orchestrator, and what a host finally receives is one pass over both tables. */
module PlanCalls {
  import opened Basics
  import opened Plan
  import opened Resolve
  import Ast
  import Text

  /** An argument as written: `"…"`, a raw string, `%"…"`, a boolean, a bare name. */
  datatype Arg = Quoted(text: string) | Raw(text: string) | Path(text: string) | Flag(b: bool) | Name(name: string)

  /** What `callArg` and `call` make of it. */
  datatype Slot =
    | Refused
    | Reference(name: string)
    | Literal(value: string, marked: bool)
    | Deferred(value: string, marked: bool)

  predicate IsBoolValue(v: string) {
    v == "true" || v == "false"
  }

  /** A text read while the plan is: refused, final, or deferred. */
  ghost function TextSlot(p: Ast.Param, s: string, plan: Text.Table, marked: bool): Slot {
    var v := Text.Interpolate(s, plan);
    if v.None? then Refused
    else if Text.Defers(s) then Deferred(v.value, marked)
    else if p.isBool && !IsBoolValue(v.value) then Refused
    else Literal(v.value, marked)
  }

  ghost function SlotOf(p: Ast.Param, a: Arg, plan: Text.Table): Slot {
    match a
    case Quoted(s) => TextSlot(p, s, plan, false)
    case Path(s) => TextSlot(p, s, plan, true)
    case Raw(s) => if p.isBool && !IsBoolValue(s) then Refused else Literal(s, false)
    case Flag(b) => Literal(if b then "true" else "false", false)
    case Name(n) => if n in plan && p.isBool && !IsBoolValue(plan[n]) then Refused else Reference(n)
  }

  /** The argument was written `%"…"`. */
  predicate IsMarked(slot: Slot) {
    (slot.Literal? && slot.marked) || (slot.Deferred? && slot.marked)
  }

  /** A call's arguments apart: literals, references, deferred texts, and the marked names. */
  datatype Split = Split(
    args: map<string, string>,
    refs: map<string, string>,
    templates: map<string, string>,
    control: seq<string>)

  const NOTHING := Split(map[], map[], map[], [])

  /** The step of a call. */
  function StepOf(name: string, s: Split): Step {
    NO_STEP.(instruction := name, args := s.args, refs := s.refs, templates := s.templates, control := s.control)
  }

  /** The argument is in exactly the place its slot says. */
  ghost predicate Goes(s: Split, n: string, slot: Slot) {
    && (n in s.refs <==> slot.Reference?) && (slot.Reference? ==> s.refs[n] == slot.name)
    && (n in s.args <==> slot.Literal?) && (slot.Literal? ==> s.args[n] == slot.value)
    && (n in s.templates <==> slot.Deferred?) && (slot.Deferred? ==> s.templates[n] == slot.value)
    && (n in s.control <==> IsMarked(slot))
  }

  /** Some argument went to that name. */
  ghost predicate Holds(s: Split, n: string) {
    n in s.refs || n in s.args || n in s.templates || n in s.control
  }

  ghost predicate PlacedAt(s: Split, names: seq<string>, slots: seq<Slot>, k: nat)
    requires k < |slots| <= |names|
  {
    !slots[k].Refused? && Goes(s, names[k], slots[k])
  }

  /** The first i arguments are in place, and nothing else is. */
  ghost predicate Placed(s: Split, names: seq<string>, slots: seq<Slot>, i: nat)
    requires i <= |slots| <= |names|
  {
    && (forall k {:trigger PlacedAt(s, names, slots, k)} :: 0 <= k < i ==> PlacedAt(s, names, slots, k))
    && (forall n {:trigger Holds(s, n)} :: Holds(s, n) ==> n in names[..i])
  }

  /** The slots of a call's arguments, and the parameters they go to. */
  ghost function Slots(params: seq<Ast.Param>, args: seq<Arg>, plan: Text.Table): (r: seq<Slot>)
    requires |args| <= |params|
    ensures |r| == |args|
  {
    if args == [] then [] else [SlotOf(params[0], args[0], plan)] + Slots(params[1..], args[1..], plan)
  }

  lemma {:induction false} SlotAt(params: seq<Ast.Param>, args: seq<Arg>, plan: Text.Table, k: nat)
    requires k < |args| <= |params|
    ensures Slots(params, args, plan)[k] == SlotOf(params[k], args[k], plan)
    decreases |args|
  {
    if k > 0 { SlotAt(params[1..], args[1..], plan, k - 1); }
  }

  function NamesOf(params: seq<Ast.Param>): (r: seq<string>)
    ensures |r| == |params| && forall k :: 0 <= k < |params| ==> r[k] == params[k].name
  {
    seq(|params|, k requires 0 <= k < |params| => params[k].name)
  }

  /** One argument put where its slot says. */
  function Put(s: Split, n: string, slot: Slot): Split {
    match slot
    case Refused => s
    case Reference(r) => s.(refs := s.refs[n := r])
    case Literal(v, marked) => s.(args := s.args[n := v], control := if marked then s.control + [n] else s.control)
    case Deferred(v, marked) =>
      s.(templates := s.templates[n := v], control := if marked then s.control + [n] else s.control)
  }

  lemma PutGoes(s: Split, n: string, slot: Slot)
    requires !Holds(s, n) && !slot.Refused?
    ensures Goes(Put(s, n, slot), n, slot)
    ensures forall m :: Holds(Put(s, n, slot), m) <==> Holds(s, m) || m == n
  {
  }

  lemma PutElsewhere(s: Split, n: string, slot: Slot, m: string, other: Slot)
    requires m != n && Goes(s, m, other)
    ensures Goes(Put(s, n, slot), m, other)
  {
  }

  lemma PutPlaces(s: Split, names: seq<string>, slots: seq<Slot>, i: nat)
    requires i < |slots| <= |names| && Distinct(names) && Placed(s, names, slots, i) && !slots[i].Refused?
    ensures Placed(Put(s, names[i], slots[i]), names, slots, i + 1)
  {
    var s1 := Put(s, names[i], slots[i]);
    DistinctBefore(names, i);
    assert !Holds(s, names[i]);
    PutGoes(s, names[i], slots[i]);
    forall k | 0 <= k < i + 1 ensures PlacedAt(s1, names, slots, k) {
      if k < i {
        assert PlacedAt(s, names, slots, k) && names[k] in names[..i];
        PutElsewhere(s, names[i], slots[i], names[k], slots[k]);
      }
    }
    forall n | Holds(s1, n) ensures n in names[..i + 1] {
      if n != names[i] { assert Holds(s, n); }
      assert names[..i + 1] == names[..i] + [names[i]];
    }
  }

  method ReadText(p: Ast.Param, s: string, plan: Text.Table, marked: bool) returns (slot: Slot)
    ensures slot == TextSlot(p, s, plan, marked)
  {
    var v, deferred := Text.InterpolateLoop(s, plan);
    if v.None? { return Refused; }
    if deferred { return Deferred(v.value, marked); }
    if p.isBool && !IsBoolValue(v.value) { return Refused; }
    return Literal(v.value, marked);
  }

  method ReadArg(p: Ast.Param, a: Arg, plan: Text.Table) returns (slot: Slot)
    ensures slot == SlotOf(p, a, plan)
  {
    match a {
      case Quoted(s) => slot := ReadText(p, s, plan, false);
      case Path(s) => slot := ReadText(p, s, plan, true);
      case Raw(s) => slot := if p.isBool && !IsBoolValue(s) then Refused else Literal(s, false);
      case Flag(b) => slot := Literal(if b then "true" else "false", false);
      case Name(n) => slot := if n in plan && p.isBool && !IsBoolValue(plan[n]) then Refused else Reference(n);
    }
  }

  /** The first i arguments of a call, put in order. */
  ghost function Filled(names: seq<string>, slots: seq<Slot>, i: nat): Split
    requires i <= |slots| <= |names|
  {
    if i == 0 then NOTHING else Put(Filled(names, slots, i - 1), names[i - 1], slots[i - 1])
  }

  /** `call`: positional arguments, each put in turn; refused for their number, or for one of
      them. */
  method Call(name: string, params: seq<Ast.Param>, args: seq<Arg>, plan: Text.Table) returns (out: Option<Step>)
    ensures out.None? <==>
              || !(Ast.RequiredCount(params) <= |args| <= |params|)
              || AnyRefused(Slots(params, args, plan))
    ensures out.Some? ==> |args| <= |params|
    ensures out.Some? ==> out.value == StepOf(name, Filled(NamesOf(params), Slots(params, args, plan), |args|))
  {
    if !(Ast.RequiredCount(params) <= |args| <= |params|) { return None; }
    var s := Arguments(params, args, plan);
    return if s.None? then None else Some(StepOf(name, s.value));
  }

  method ReadNth(params: seq<Ast.Param>, args: seq<Arg>, plan: Text.Table, i: nat, ghost slots: seq<Slot>)
      returns (slot: Slot)
    requires i < |args| <= |params| && slots == Slots(params, args, plan)
    ensures slot == slots[i]
  {
    SlotAt(params, args, plan, i);
    slot := ReadArg(params[i], args[i], plan);
  }

  /** The loop over the arguments. */
  method Arguments(params: seq<Ast.Param>, args: seq<Arg>, plan: Text.Table) returns (out: Option<Split>)
    requires |args| <= |params|
    ensures out.None? <==> AnyRefused(Slots(params, args, plan))
    ensures out.Some? ==> out.value == Filled(NamesOf(params), Slots(params, args, plan), |args|)
  {
    ghost var slots := Slots(params, args, plan);
    out := PlaceAll(params, args, plan, slots);
  }

  ghost predicate AnyRefused(slots: seq<Slot>) {
    exists k :: 0 <= k < |slots| && slots[k].Refused?
  }

  method PlaceAll(params: seq<Ast.Param>, args: seq<Arg>, plan: Text.Table, ghost slots: seq<Slot>)
      returns (out: Option<Split>)
    requires |args| <= |params| && slots == Slots(params, args, plan)
    ensures out.None? <==> AnyRefused(slots)
    ensures out.Some? ==> out.value == Filled(NamesOf(params), slots, |args|)
  {
    var s := NOTHING;
    var i := 0;
    while i < |args|
      invariant i <= |args| && s == Filled(NamesOf(params), slots, i)
      invariant forall k :: 0 <= k < i ==> !slots[k].Refused?
    {
      var slot := ReadNth(params, args, plan, i, slots);
      if slot.Refused? { return None; }
      s := Put(s, params[i].name, slot);
      i := i + 1;
    }
    return Some(s);
  }

  /** When no two parameters share a name, every argument ends in the one place its slot says
      and nothing else is there. */
  lemma {:induction false} FilledPlaces(names: seq<string>, slots: seq<Slot>, i: nat)
    requires i <= |slots| <= |names| && Distinct(names)
    requires forall k :: 0 <= k < i ==> !slots[k].Refused?
    ensures Placed(Filled(names, slots, i), names, slots, i)
    decreases i
  {
    if i > 0 {
      FilledPlaces(names, slots, i - 1);
      PutPlaces(Filled(names, slots, i - 1), names, slots, i - 1);
    }
  }

  // --- what a host receives ---

  /** The value of an argument on a host, in one go: None when a name is nowhere to be found. */
  ghost function OnHost(a: Arg, plan: Text.Table, env: map<string, string>): Option<string> {
    match a
    case Quoted(s) => Text.TwoStage(s, plan, env)
    case Path(s) => Text.TwoStage(s, plan, env)
    case Raw(s) => Some(s)
    case Flag(b) => Some(if b then "true" else "false")
    case Name(n) => if n in env then Some(env[n]) else None
  }

  /** What an argument waits for is not in the host's table. */
  ghost predicate Missing(s: Step, env: map<string, string>, n: string) {
    (n in s.refs && s.refs[n] !in env) || (n in s.templates && Text.Expand(s.templates[n], env).None?)
  }

  lemma SlotOnHost(name: string, s: Split, p: Ast.Param, a: Arg, plan: Text.Table, env: map<string, string>)
    requires Goes(s, p.name, SlotOf(p, a, plan)) && !SlotOf(p, a, plan).Refused?
    ensures var h := HostArgs(StepOf(name, s), env);
            h.Some? && OnHost(a, plan, env).Some? ==>
              p.name in h.value && h.value[p.name] == OnHost(a, plan, env).value
    ensures OnHost(a, plan, env).None? <==> Missing(StepOf(name, s), env, p.name)
  {
  }

  lemma HostArgsMissing(s: Step, env: map<string, string>)
    ensures HostArgs(s, env).None? <==> exists n :: Missing(s, env, n)
  {
    if a :| a in s.refs && s.refs[a] !in env { assert Missing(s, env, a); }
    if a :| a in s.templates && Text.Expand(s.templates[a], env).None? { assert Missing(s, env, a); }
  }

  /** Resolution on a host gives every argument the value of one two-stage reading, and fails
      exactly when one of them has none. */
  lemma CallOnHost(name: string, s: Split, params: seq<Ast.Param>, args: seq<Arg>, plan: Text.Table,
      env: map<string, string>)
    requires |args| <= |params| && Placed(s, NamesOf(params), Slots(params, args, plan), |args|)
    ensures HostArgs(StepOf(name, s), env).None? <==> exists k :: 0 <= k < |args| && OnHost(args[k], plan, env).None?
    ensures var h := HostArgs(StepOf(name, s), env);
            h.Some? ==> forall k :: 0 <= k < |args| ==>
              params[k].name in h.value && OnHost(args[k], plan, env) == Some(h.value[params[k].name])
  {
    var step := StepOf(name, s);
    HostArgsMissing(step, env);
    forall k | 0 <= k < |args|
      ensures HostArgs(step, env).Some? && OnHost(args[k], plan, env).Some? ==>
                params[k].name in HostArgs(step, env).value &&
                HostArgs(step, env).value[params[k].name] == OnHost(args[k], plan, env).value
      ensures OnHost(args[k], plan, env).None? <==> Missing(step, env, params[k].name)
    {
      assert PlacedAt(s, NamesOf(params), Slots(params, args, plan), k);
      SlotAt(params, args, plan, k);
      SlotOnHost(name, s, params[k], args[k], plan, env);
    }
    if n :| Missing(step, env, n) {
      assert Holds(s, n);
      assert n in NamesOf(params)[..|args|];
      var k :| 0 <= k < |args| && params[k].name == n;
    }
  }

  /** A marked text waits for its host. */
  predicate LateMark(slot: Slot) {
    slot.Deferred? && slot.marked
  }

  /** A step the parser builds from a call is shaped as resolution expects, and its marks are
      known exactly when no marked text was deferred. */
  lemma CallIsShaped(name: string, s: Split, names: seq<string>, slots: seq<Slot>)
    requires |slots| <= |names| && Placed(s, names, slots, |slots|)
    ensures Shaped(StepOf(name, s))
    ensures MarksKnown(StepOf(name, s)) <==> forall k :: 0 <= k < |slots| ==> !LateMark(slots[k])
  {
    var step := StepOf(name, s);
    forall k | 0 <= k < |slots| && LateMark(slots[k]) ensures names[k] in step.control && names[k] in step.templates {
      assert PlacedAt(s, names, slots, k);
    }
    forall n | n in step.control && n in step.args ensures n !in step.refs && n !in step.templates {
      assert Holds(s, n);
      assert n in names[..|slots|];
      var k :| 0 <= k < |slots| && names[k] == n;
      assert PlacedAt(s, names, slots, k);
    }
    if forall k :: 0 <= k < |slots| ==> !LateMark(slots[k]) {
      forall n | n in step.control ensures n !in step.refs && n !in step.templates {
        assert Holds(s, n);
        assert n in names[..|slots|];
        var k :| 0 <= k < |slots| && names[k] == n;
        assert PlacedAt(s, names, slots, k) && !LateMark(slots[k]);
      }
    }
  }
}
