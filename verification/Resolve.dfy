/** `ResolveRefs`: a plan's steps become one host's steps. */
module Resolve {
  import opened Basics
  import opened Ast
  import opened Plan
  import Text

  const NO_STEP := Step("", map[], map[], map[], "", false, "", "", map[], map[], [], [], [], None)

  ghost function RefValues(s: Step, env: map<string, string>, but: set<string>): map<string, string>
    requires forall a :: a in s.refs && a !in but ==> s.refs[a] in env
  {
    map a | a in s.refs && a !in but :: env[s.refs[a]]
  }

  ghost function TemplateValues(s: Step, env: map<string, string>, but: set<string>): map<string, string>
    requires forall a :: a in s.templates && a !in but ==> Text.Expand(s.templates[a], env).Some?
  {
    map a | a in s.templates && a !in but :: Text.Expand(s.templates[a], env).value
  }

  /** The arguments of a call on one host: literals, then references, then what was
      deferred; None when a name is not in the host's table. */
  ghost function HostArgs(s: Step, env: map<string, string>): Option<map<string, string>> {
    if (exists a :: a in s.refs && s.refs[a] !in env) ||
      (exists a :: a in s.templates && Text.Expand(s.templates[a], env).None?) then None
    else Some(s.args + RefValues(s, env, {}) + TemplateValues(s, env, {}))
  }

  /** A plan's shell also gets the host's table, under its own `with`, and the host's
      interpreter when it names none. */
  ghost function HostCall(s: Step, env: map<string, string>, interp: string): Option<Step> {
    match HostArgs(s, env)
    case None => None
    case Some(args) =>
      var out := NO_STEP.(instruction := s.instruction, args := args, bind := s.bind, caught := s.caught,
                          become := s.become, interp := s.interp, with := s.with, control := s.control);
      if s.instruction != "shell" then Some(out)
      else Some(out.(env := env + s.with, interp := if s.interp == "" then interp else s.interp))
  }

  ghost function ResolveSteps(steps: seq<Step>, env: map<string, string>, interp: string): Option<seq<Step>>
    decreases steps, 0
  {
    if steps == [] then Some([])
    else match (ResolveStep(steps[0], env, interp), ResolveSteps(steps[1..], env, interp))
      case (Some(s), Some(rest)) => Some([s] + rest)
      case _ => None
  }

  ghost function ResolveStep(s: Step, env: map<string, string>, interp: string): Option<Step>
    decreases s, 1
  {
    if s.cond.Some? then
      match ResolveCond(s.cond.value, env, interp)
      case None => None
      case Some(ib) => Some(NO_STEP.(cond := Some(ib), control := s.control))
    else if s.block != [] then
      match ResolveSteps(s.block, env, interp)
      case None => None
      case Some(sub) => Some(NO_STEP.(block := sub, become := s.become, control := s.control))
    else if s.parallel != [] then
      match ResolveSteps(s.parallel, env, interp)
      case None => None
      case Some(sub) => Some(NO_STEP.(parallel := sub))
    else HostCall(s, env, interp)
  }

  ghost function ResolveCond(ib: IfBlock, env: map<string, string>, interp: string): Option<IfBlock>
    decreases ib, 0
  {
    var inline := if ib.inline.None? then Some(None) else
                    match ResolveStep(ib.inline.value, env, interp)
                    case None => None
                    case Some(c) => Some(Some(c));
    match (inline, ResolveSteps(ib.thn, env, interp), ResolveSteps(ib.els, env, interp))
    case (Some(c), Some(t), Some(e)) => Some(ib.(inline := c, thn := t, els := e))
    case _ => None
  }

  // --- the loops ---

  ghost function After(done: seq<Step>, rest: Option<seq<Step>>): Option<seq<Step>> {
    if rest.None? then None else Some(done + rest.value)
  }

  lemma AfterSteps(done: seq<Step>, s: Step, rest: Option<seq<Step>>)
    ensures After(done, After([s], rest)) == After(done + [s], rest)
    ensures After([], rest) == rest && After(done, Some([])) == Some(done)
  {
    if rest.Some? {
      assert done + ([s] + rest.value) == (done + [s]) + rest.value;
      assert [] + rest.value == rest.value;
    }
    assert done + [] == done;
  }

  /** `ResolveRefs`: the loop over the steps. */
  method ResolveRefs(steps: seq<Step>, env: map<string, string>, interp: string) returns (out: Option<seq<Step>>)
    ensures out == ResolveSteps(steps, env, interp)
    decreases steps, 0
  {
    var i, done := 0, [];
    assert steps[0..] == steps;
    AfterSteps([], NO_STEP, ResolveSteps(steps, env, interp));
    while i < |steps|
      invariant 0 <= i <= |steps|
      invariant ResolveSteps(steps, env, interp) == After(done, ResolveSteps(steps[i..], env, interp))
    {
      var s := ResolveOne(steps[i], env, interp);
      assert steps[i..][1..] == steps[i + 1..];
      if s.None? { return None; }
      AfterSteps(done, s.value, ResolveSteps(steps[i + 1..], env, interp));
      assert ResolveSteps(steps[i..], env, interp) == After([s.value], ResolveSteps(steps[i + 1..], env, interp));
      done := done + [s.value];
      i := i + 1;
    }
    AfterSteps(done, NO_STEP, Some([]));
    return Some(done);
  }

  method ResolveOne(s: Step, env: map<string, string>, interp: string) returns (out: Option<Step>)
    ensures out == ResolveStep(s, env, interp)
    decreases s, 1
  {
    if s.cond.Some? {
      var ib := s.cond.value;
      var inline: Option<Step> := None;
      if ib.inline.Some? {
        inline := ResolveOne(ib.inline.value, env, interp);
        if inline.None? { return None; }
      }
      var t := ResolveRefs(ib.thn, env, interp);
      if t.None? { return None; }
      var e := ResolveRefs(ib.els, env, interp);
      if e.None? { return None; }
      return Some(NO_STEP.(cond := Some(ib.(inline := inline, thn := t.value, els := e.value)), control := s.control));
    }
    if s.block != [] {
      var sub := ResolveRefs(s.block, env, interp);
      if sub.None? { return None; }
      return Some(NO_STEP.(block := sub.value, become := s.become, control := s.control));
    }
    if s.parallel != [] {
      var sub := ResolveRefs(s.parallel, env, interp);
      if sub.None? { return None; }
      return Some(NO_STEP.(parallel := sub.value));
    }
    out := ResolveCall(s, env, interp);
  }

  /** The references of a call, one argument at a time in any order. */
  method AddRefs(s: Step, env: map<string, string>) returns (args: Option<map<string, string>>)
    ensures args.Some? == forall a :: a in s.refs ==> s.refs[a] in env
    ensures args.Some? ==> args.value == s.args + RefValues(s, env, {})
  {
    var all, names := s.args, s.refs.Keys;
    while names != {}
      invariant names <= s.refs.Keys
      invariant forall a :: a in s.refs && a !in names ==> s.refs[a] in env
      invariant all == s.args + RefValues(s, env, names)
      decreases |names|
    {
      var a :| a in names;
      if s.refs[a] !in env { return None; }
      all := all[a := env[s.refs[a]]];
      names := names - {a};
    }
    return Some(all);
  }

  lemma TemplateAdded(s: Step, env: map<string, string>, base: map<string, string>, left: set<string>, a: string)
    requires a in left && a in s.templates && Text.Expand(s.templates[a], env).Some?
    requires forall b :: b in s.templates && b !in left ==> Text.Expand(s.templates[b], env).Some?
    ensures (base + TemplateValues(s, env, left))[a := Text.Expand(s.templates[a], env).value] ==
            base + TemplateValues(s, env, left - {a})
  {
  }

  method AddTemplates(s: Step, env: map<string, string>, base: map<string, string>)
      returns (args: Option<map<string, string>>)
    ensures args.Some? == forall a :: a in s.templates ==> Text.Expand(s.templates[a], env).Some?
    ensures args.Some? ==> args.value == base + TemplateValues(s, env, {})
  {
    var all, left := base, s.templates.Keys;
    while left != {}
      invariant left <= s.templates.Keys
      invariant forall a :: a in s.templates && a !in left ==> Text.Expand(s.templates[a], env).Some?
      invariant all == base + TemplateValues(s, env, left)
      decreases |left|
    {
      var a :| a in left;
      var v := Text.ExpandLoop(s.templates[a], env);
      if v.None? { return None; }
      TemplateAdded(s, env, base, left, a);
      all := all[a := v.value];
      left := left - {a};
    }
    return Some(all);
  }

  method ResolveCall(s: Step, env: map<string, string>, interp: string) returns (out: Option<Step>)
    ensures out == HostCall(s, env, interp)
  {
    var base := AddRefs(s, env);
    if base.None? { return None; }
    var args := AddTemplates(s, env, base.value);
    if args.None? { return None; }
    var step := NO_STEP.(instruction := s.instruction, args := args.value, bind := s.bind, caught := s.caught,
                         become := s.become, interp := s.interp, with := s.with, control := s.control);
    if s.instruction == "shell" {
      step := step.(env := env + s.with, interp := if s.interp == "" then interp else s.interp);
    }
    return Some(step);
  }

  // --- nothing deferred is left ---

  ghost predicate Resolved(steps: seq<Step>) {
    forall s :: s in steps ==> StepResolved(s)
  }

  ghost predicate StepResolved(s: Step) {
    && s.refs == map[] && s.templates == map[]
    && Resolved(s.block) && Resolved(s.parallel)
    && (s.cond.Some? ==>
          && (s.cond.value.inline.Some? ==> StepResolved(s.cond.value.inline.value))
          && Resolved(s.cond.value.thn) && Resolved(s.cond.value.els))
  }

  /** No reference and no template survives at any depth: the agent only ever sees values. */
  lemma {:induction false} NothingLeft(steps: seq<Step>, env: map<string, string>, interp: string)
    requires ResolveSteps(steps, env, interp).Some?
    ensures Resolved(ResolveSteps(steps, env, interp).value)
    decreases steps, 0
  {
    if steps != [] {
      StepNothingLeft(steps[0], env, interp);
      NothingLeft(steps[1..], env, interp);
    }
  }

  lemma {:induction false} StepNothingLeft(s: Step, env: map<string, string>, interp: string)
    requires ResolveStep(s, env, interp).Some?
    ensures StepResolved(ResolveStep(s, env, interp).value)
    decreases s, 1
  {
    if s.cond.Some? {
      var ib := s.cond.value;
      if ib.inline.Some? { StepNothingLeft(ib.inline.value, env, interp); }
      NothingLeft(ib.thn, env, interp);
      NothingLeft(ib.els, env, interp);
    } else if s.block != [] {
      NothingLeft(s.block, env, interp);
    } else if s.parallel != [] {
      NothingLeft(s.parallel, env, interp);
    }
  }

  // --- the allow-list survives resolution ---

  /** What the plan parser builds: a step is a call or exactly one group, and a marked argument
      is in one place. */
  ghost predicate Shaped(s: Step) {
    && (s.cond.Some? ==> s.args == map[] && s.block == [] && s.parallel == [])
    && (s.block != [] ==> s.args == map[] && s.parallel == [])
    && (s.parallel != [] ==> s.args == map[])
    && (forall a :: a in s.control && a in s.args ==> a !in s.refs && a !in s.templates)
    && AllShaped(s.block) && AllShaped(s.parallel)
    && (s.cond.Some? ==>
          && (s.cond.value.inline.Some? ==> Shaped(s.cond.value.inline.value))
          && AllShaped(s.cond.value.thn) && AllShaped(s.cond.value.els))
  }

  ghost predicate AllShaped(steps: seq<Step>) {
    forall s :: s in steps ==> Shaped(s)
  }

  /** The paths marked `%"…"` that only a host's table makes known, at any depth. */
  ghost function LatePaths(steps: seq<Step>, env: map<string, string>): set<string>
    decreases steps, 0
  {
    if steps == [] then {} else StepLate(steps[0], env) + LatePaths(steps[1..], env)
  }

  ghost function StepLate(s: Step, env: map<string, string>): set<string>
    decreases s, 1
  {
    if s.cond.Some? then CondLate(s.cond.value, env)
    else if s.block != [] then LatePaths(s.block, env)
    else if s.parallel != [] then LatePaths(s.parallel, env)
    else OwnLate(s, env)
  }

  ghost function CondLate(ib: IfBlock, env: map<string, string>): set<string>
    decreases ib, 0
  {
    (if ib.inline.Some? then StepLate(ib.inline.value, env) else {}) + LatePaths(ib.thn, env) + LatePaths(ib.els, env)
  }

  ghost function OwnLate(s: Step, env: map<string, string>): set<string> {
    match HostArgs(s, env)
    case None => {}
    case Some(args) => set a | a in s.control && (a in s.refs || a in s.templates) && a in args :: args[a]
  }

  /** A resolved plan marks what the plan marked and what its host made known, and nothing
      else. */
  lemma {:induction false} ResolvedPaths(steps: seq<Step>, env: map<string, string>, interp: string)
    requires AllShaped(steps) && ResolveSteps(steps, env, interp).Some?
    ensures Paths(ResolveSteps(steps, env, interp).value) == Paths(steps) + LatePaths(steps, env)
    decreases steps, 0
  {
    if steps != [] {
      StepResolvedPaths(steps[0], env, interp);
      ResolvedPaths(steps[1..], env, interp);
      var s, rest := ResolveStep(steps[0], env, interp).value, ResolveSteps(steps[1..], env, interp).value;
      assert ([s] + rest)[1..] == rest;
    }
  }

  /** The paths of a step that is one thing only. */
  lemma OneKindPaths(s: Step)
    requires Shaped(s)
    ensures StepPaths(s) ==
            if s.cond.Some? then CondPaths(s.cond.value)
            else if s.block != [] then Paths(s.block)
            else if s.parallel != [] then Paths(s.parallel)
            else OwnPaths(s)
  {
    assert Paths([]) == {};
    if s.args == map[] { assert OwnPaths(s) == {}; }
  }

  lemma GroupPaths(s: Step)
    requires s.args == map[]
    ensures StepPaths(s) == Paths(s.block) + Paths(s.parallel) + (if s.cond.Some? then CondPaths(s.cond.value) else {})
    ensures Paths([]) == {}
  {
    assert OwnPaths(s) == {};
  }

  lemma {:induction false} StepResolvedPaths(s: Step, env: map<string, string>, interp: string)
    requires Shaped(s) && ResolveStep(s, env, interp).Some?
    ensures StepPaths(ResolveStep(s, env, interp).value) == StepPaths(s) + StepLate(s, env)
    decreases s, 1
  {
    var r := ResolveStep(s, env, interp).value;
    OneKindPaths(s);
    if s.cond.Some? {
      CondResolvedPaths(s.cond.value, env, interp);
      GroupPaths(r);
    } else if s.block != [] {
      ResolvedPaths(s.block, env, interp);
      GroupPaths(r);
    } else if s.parallel != [] {
      ResolvedPaths(s.parallel, env, interp);
      GroupPaths(r);
    } else {
      CallResolvedPaths(s, env, interp);
    }
  }

  lemma CallResolvedPaths(s: Step, env: map<string, string>, interp: string)
    requires forall a :: a in s.control && a in s.args ==> a !in s.refs && a !in s.templates
    requires HostCall(s, env, interp).Some?
    ensures OwnPaths(HostCall(s, env, interp).value) == OwnPaths(s) + OwnLate(s, env)
  {
    var r := HostCall(s, env, interp).value;
    var args := HostArgs(s, env).value;
    assert r.args == args && r.control == s.control;
    MarkedArgs(s, env, args);
  }

  /** A marked argument is the plan's own text, or late. */
  lemma MarkedArgs(s: Step, env: map<string, string>, args: map<string, string>)
    requires forall a :: a in s.control && a in s.args ==> a !in s.refs && a !in s.templates
    requires HostArgs(s, env) == Some(args)
    ensures (set a | a in s.control && a in args :: args[a]) == OwnPaths(s) + OwnLate(s, env)
  {
    forall a | a in s.control && a in s.args ensures a in args && args[a] == s.args[a] { }
    forall a | a in s.control && a in args ensures a in s.args || a in s.refs || a in s.templates { }
  }

  lemma {:induction false} CondResolvedPaths(ib: IfBlock, env: map<string, string>, interp: string)
    requires ib.inline.Some? ==> Shaped(ib.inline.value)
    requires AllShaped(ib.thn) && AllShaped(ib.els) && ResolveCond(ib, env, interp).Some?
    ensures CondPaths(ResolveCond(ib, env, interp).value) == CondPaths(ib) + CondLate(ib, env)
    decreases ib, 0
  {
    if ib.inline.Some? { StepResolvedPaths(ib.inline.value, env, interp); }
    ResolvedPaths(ib.thn, env, interp);
    ResolvedPaths(ib.els, env, interp);
    CondParts(ib, env, interp);
    var r := ResolveCond(ib, env, interp).value;
    assert Paths(r.thn) == Paths(ib.thn) + LatePaths(ib.thn, env);
    assert Paths(r.els) == Paths(ib.els) + LatePaths(ib.els, env);
  }

  lemma CondParts(ib: IfBlock, env: map<string, string>, interp: string)
    requires ResolveCond(ib, env, interp).Some?
    ensures var r := ResolveCond(ib, env, interp).value;
            && ResolveSteps(ib.thn, env, interp) == Some(r.thn) && ResolveSteps(ib.els, env, interp) == Some(r.els)
            && (ib.inline.None? ==> r.inline.None?)
            && (ib.inline.Some? ==> ResolveStep(ib.inline.value, env, interp) == r.inline && r.inline.Some?)
  {
  }

  lemma SamePathsSameResources(a: set<string>, b: set<string>)
    ensures Preserve.Resources(a) <= Preserve.Resources(b) <==> a <= b
  {
    if Preserve.Resources(a) <= Preserve.Resources(b) {
      forall p | p in a ensures p in b {
        var r := Eval.ResourceKey("file.read", p);
        Preserve.ResourceDeclared(a, "file.read", p);
        var q, k :| q in b && k in {"file.read", "file.render", "dir.list", "dir.sync"} && r == Eval.ResourceKey(k, q);
        assert r[7] == 'a' && (k + ":" + q)[7] == k[7];
        assert r[10..] == p && (k + ":" + q)[|k| + 1..] == q;
      }
    }
  }

  /** Resolution keeps the declarations, and the list built from the plan covers whatever the
      resolved steps can ask for, exactly when every path a host makes known is one the plan
      marked anyway. */
  lemma DeclarationsKept(steps: seq<Step>, env: map<string, string>, interp: string)
    requires AllShaped(steps) && ResolveSteps(steps, env, interp).Some?
    ensures var resolved := ResolveSteps(steps, env, interp).value;
            && (Paths(resolved) == Paths(steps) <==> LatePaths(steps, env) <= Paths(steps))
            && (ControlResources(resolved) <= ControlResources(steps) <==> LatePaths(steps, env) <= Paths(steps))
  {
    ResolvedPaths(steps, env, interp);
    SamePathsSameResources(Paths(ResolveSteps(steps, env, interp).value), Paths(steps));
  }

  /** No argument marked `%"…"` waits for a host's value. */
  ghost predicate MarksKnown(s: Step) {
    && (forall a :: a in s.control ==> a !in s.refs && a !in s.templates)
    && AllMarksKnown(s.block) && AllMarksKnown(s.parallel)
    && (s.cond.Some? ==>
          && (s.cond.value.inline.Some? ==> MarksKnown(s.cond.value.inline.value))
          && AllMarksKnown(s.cond.value.thn) && AllMarksKnown(s.cond.value.els))
  }

  ghost predicate AllMarksKnown(steps: seq<Step>) {
    forall s :: s in steps ==> MarksKnown(s)
  }

  /** Then no path is late, on any host. */
  lemma {:induction false} KnownIsNotLate(steps: seq<Step>, env: map<string, string>)
    requires AllMarksKnown(steps)
    ensures LatePaths(steps, env) == {}
    decreases steps, 0
  {
    if steps != [] {
      StepKnownIsNotLate(steps[0], env);
      KnownIsNotLate(steps[1..], env);
    }
  }

  lemma {:induction false} StepKnownIsNotLate(s: Step, env: map<string, string>)
    requires MarksKnown(s)
    ensures StepLate(s, env) == {}
    decreases s, 1
  {
    if s.cond.Some? {
      var ib := s.cond.value;
      if ib.inline.Some? { StepKnownIsNotLate(ib.inline.value, env); }
      KnownIsNotLate(ib.thn, env);
      KnownIsNotLate(ib.els, env);
    } else if s.block != [] {
      KnownIsNotLate(s.block, env);
    } else if s.parallel != [] {
      KnownIsNotLate(s.parallel, env);
    }
  }

  /** A marked path deferred to the host is not in the list the control host was given. */
  lemma DeferredMarkIsUndeclared(env: map<string, string>, name: string, path: string)
    requires Text.BraceFree(name) && env == map[name := path]
    ensures var s := NO_STEP.(instruction := "file.read", control := ["src"],
              templates := map["src" := Text.Ref(name) + ""]);
            Paths([s]) == {} &&
            ResolveSteps([s], env, "").Some? && path in Paths(ResolveSteps([s], env, "").value)
  {
    var s := NO_STEP.(instruction := "file.read", control := ["src"], templates := map["src" := Text.Ref(name) + ""]);
    Text.ExpandName(name, "", env);
    Text.ClosedIsFinal("", env);
    assert HostArgs(s, env).Some? && HostArgs(s, env).value["src"] == path + "";
    assert path + "" == path;
    var r := ResolveStep(s, env, "").value;
    assert "src" in r.control && r.args["src"] == path;
    assert path in OwnPaths(r);
    assert [s][1..] == [] && ([r] + [])[0] == r;
    assert ResolveSteps([s], env, "") == Some([r] + []);
    assert OwnPaths(s) == {};
  }

  // --- one block, one interpreter ---

  function Effective(interp: string): string {
    if interp == "" then "sh" else interp
  }

  /** The interpreters of the plan's shells, in the order they are written. */
  ghost function ShellInterps(steps: seq<Step>): seq<string>
    decreases steps, 0
  {
    if steps == [] then [] else StepInterps(steps[0]) + ShellInterps(steps[1..])
  }

  ghost function StepInterps(s: Step): seq<string>
    decreases s, 1
  {
    if s.cond.Some? then
      (if s.cond.value.inline.Some? then StepInterps(s.cond.value.inline.value) else [])
      + ShellInterps(s.cond.value.thn) + ShellInterps(s.cond.value.els)
    else if s.block != [] then ShellInterps(s.block)
    else if s.parallel != [] then ShellInterps(s.parallel)
    else if s.instruction == "shell" then [Effective(s.interp)]
    else []
  }

  /** `hasUnannotatedShell`: some plan shell leaves its interpreter to the inventory. */
  predicate Unannotated(steps: seq<Step>) {
    exists s :: s in steps && StepUnannotated(s)
  }

  predicate StepUnannotated(s: Step) {
    if s.instruction == "shell" && s.interp == "" then true
    else if s.cond.Some? then
      || (s.cond.value.inline.Some? && s.cond.value.inline.value.instruction == "shell" &&
          s.cond.value.inline.value.interp == "")
      || Unannotated(s.cond.value.thn) || Unannotated(s.cond.value.els)
    else if s.block != [] then Unannotated(s.block)
    else if s.parallel != [] then Unannotated(s.parallel)
    else false
  }

  /** An inline condition is one instruction, never a group. */
  ghost predicate PlainConds(s: Step) {
    && (s.cond.Some? ==>
          && (s.cond.value.inline.Some? ==>
                s.cond.value.inline.value.cond.None? && s.cond.value.inline.value.block == [] &&
                    s.cond.value.inline.value.parallel == [])
          && AllPlainConds(s.cond.value.thn) && AllPlainConds(s.cond.value.els))
    && AllPlainConds(s.block) && AllPlainConds(s.parallel)
  }

  ghost predicate AllPlainConds(steps: seq<Step>) {
    forall s :: s in steps ==> PlainConds(s)
  }

  /** When the hosts agree, or no shell asks them, every plan shell runs under the same
      interpreter on both. */
  lemma {:induction false} SameInterpreters(steps: seq<Step>, env1: map<string, string>, i1: string,
      env2: map<string, string>, i2: string)
    requires AllPlainConds(steps)
    requires Unannotated(steps) ==> Effective(i1) == Effective(i2)
    requires ResolveSteps(steps, env1, i1).Some? && ResolveSteps(steps, env2, i2).Some?
    ensures ShellInterps(ResolveSteps(steps, env1, i1).value) == ShellInterps(ResolveSteps(steps, env2, i2).value)
    decreases steps, 0
  {
    if steps != [] {
      assert forall s :: s in steps[1..] ==> s in steps;
      StepSameInterpreters(steps[0], env1, i1, env2, i2);
      SameInterpreters(steps[1..], env1, i1, env2, i2);
      HeadTail(ResolveStep(steps[0], env1, i1).value, ResolveSteps(steps[1..], env1, i1).value);
      HeadTail(ResolveStep(steps[0], env2, i2).value, ResolveSteps(steps[1..], env2, i2).value);
    }
  }

  lemma HeadTail(s: Step, rest: seq<Step>)
    ensures ShellInterps([s] + rest) == StepInterps(s) + ShellInterps(rest)
  {
    assert ([s] + rest)[1..] == rest;
  }

  lemma {:induction false} StepSameInterpreters(s: Step, env1: map<string, string>, i1: string,
      env2: map<string, string>, i2: string)
    requires PlainConds(s)
    requires StepUnannotated(s) ==> Effective(i1) == Effective(i2)
    requires ResolveStep(s, env1, i1).Some? && ResolveStep(s, env2, i2).Some?
    ensures StepInterps(ResolveStep(s, env1, i1).value) == StepInterps(ResolveStep(s, env2, i2).value)
    decreases s, 1
  {
    if s.cond.Some? {
      var ib := s.cond.value;
      if ib.inline.Some? { StepSameInterpreters(ib.inline.value, env1, i1, env2, i2); }
      SameInterpreters(ib.thn, env1, i1, env2, i2);
      SameInterpreters(ib.els, env1, i1, env2, i2);
    } else if s.block != [] {
      SameInterpreters(s.block, env1, i1, env2, i2);
      GroupKept(s.block, env1, i1);
      GroupKept(s.block, env2, i2);
    } else if s.parallel != [] {
      SameInterpreters(s.parallel, env1, i1, env2, i2);
      GroupKept(s.parallel, env1, i1);
      GroupKept(s.parallel, env2, i2);
    }
  }

  lemma GroupKept(steps: seq<Step>, env: map<string, string>, interp: string)
    requires steps != [] && ResolveSteps(steps, env, interp).Some?
    ensures ResolveSteps(steps, env, interp).value != []
  {
  }
}
