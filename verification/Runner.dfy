/** The agent's step runner: halting, caught errors, captured results, groups. */
module Runner {
  import opened Basics
  import opened Ast
  import opened Eval
  import opened Plan
  import Preserve

  datatype Agent = Agent(m: Machine, defs: map<string, Def>, mode: Mode, channel: bool)

  datatype StepCat = SOk | SErr | SWould | SUndetermined

  datatype StepResult = StepResult(
    cat: StepCat,
    tag: string,
    changed: bool,
    shell: Option<ShellResult>,
    fields: seq<FieldDiff>,
    preview: string,
    caught: bool,
    sub: seq<StepResult>)

  /** The results captured by `name = <call>`, and the target. */
  datatype Rs = Rs(scope: map<string, Result>, sys: Sys)

  function CatOf(c: Category): StepCat {
    match c
    case OK => SOk
    case ERR => SErr
    case WOULD => SWould
  }

  function Leaf(r: Result): StepResult {
    StepResult(CatOf(r.category), r.tag, r.changed, r.shell, r.fields, r.preview, false, [])
  }

  /** The inline condition as it shows in the report: no fields, no preview. */
  function CondLeaf(r: Result): StepResult {
    StepResult(CatOf(r.category), r.tag, r.changed, r.shell, [], "", false, [])
  }

  function Group(cat: StepCat, sub: seq<StepResult>): StepResult {
    StepResult(cat, "", false, None, [], "", false, sub)
  }

  function Failed(tag: string): StepResult {
    StepResult(SErr, tag, false, None, [], "", false, [])
  }

  /** `refTruth`: the changed flag, or category and tag, an empty tag matching any. */
  predicate RefTruth(r: Result, ref: ResultRef) {
    if ref.changed then r.changed
    else r.category == ref.category && (ref.tag == "" || r.tag == ref.tag)
  }

  /** A name that was never captured reads as the zero result. */
  function Captured(scope: map<string, Result>, name: string): Result {
    if name in scope then scope[name] else Verdict(OK, "")
  }

  /** `handlesCaught`: an `if` on that name which matches it or has an else. */
  predicate Handles(step: Step, name: string, scope: map<string, Result>) {
    && step.cond.Some? && step.cond.value.on.Some? && step.cond.value.on.value.name == name
    && (step.cond.value.els != []
        || RefTruth(Captured(scope, name), step.cond.value.on.value) != step.cond.value.negate)
  }

  ghost function StepFrame(c: Agent, exec: Exec, name: string): Frame {
    Frame(c.m, c.defs, c.mode, [name], Some(exec), c.channel, Prologue)
  }

  /** A def when the name is one, else the one Go instruction left, `shell`. */
  ghost function RunInstruction(c: Agent, exec: Exec, step: Step, sys: Sys): (Finished, Sys) {
    if step.instruction in c.defs then
      EvalDef(StepFrame(c, exec, step.instruction), sys, c.defs[step.instruction], Args(step.args, step.control),
          step.with)
    else if step.instruction == "shell" then
      var (r, sys1) :=
        RunPlanShell(c.m, exec, c.mode, sys, if "cmd" in step.args then step.args["cmd"] else "", step.env);
      (Done(r), sys1)
    else (Broken(Fault), sys)
  }

  ghost function RunSteps(c: Agent, exec: Exec, steps: seq<Step>, pending: string, s: Rs): (seq<StepResult>, bool, Rs)
    decreases steps, 0
  {
    if steps == [] then ([], pending != "", s)
    else if pending != "" && !Handles(steps[0], pending, s.scope) then ([], true, s)
    else
      var (r, s1) := RunStep(c, exec, steps[0], s);
      var r1 := r.(caught := steps[0].caught);
      if r.cat.SErr? && !(steps[0].caught && steps[0].bind != "") then ([r1], true, s1)
      else
        var (rest, halted, s2) := RunSteps(c, exec, steps[1..], if r.cat.SErr? then steps[0].bind else "", s1);
        ([r1] + rest, halted, s2)
  }

  ghost function RunStep(c: Agent, exec: Exec, step: Step, s: Rs): (StepResult, Rs)
    decreases step, 1
  {
    if step.cond.Some? then RunIf(c, exec, step.cond.value, s)
    else if step.block != [] then
      var (sub, halted, s1) := RunSteps(c, exec.As(step.become), step.block, "", s);
      (Group(if halted then SErr else SOk, sub), s1)
    else if step.parallel != [] then
      var (sub, sys1) := RunBranches(c, exec, step.parallel, s);
      (Group(if exists r :: r in sub && r.cat.SErr? then SErr else SOk, sub), s.(sys := sys1))
    else
      var (fin, sys1) := RunInstruction(c, exec.As(step.become).Using(step.interp), step, s.sys);
      match fin
      case Broken(_) => (Failed("agent"), s.(sys := sys1))
      case Done(res) => (Leaf(res), Rs(if step.bind != "" then s.scope[step.bind := res] else s.scope, sys1))
  }

  /** Every branch starts from a copy of the scope, and its captures stay inside. */
  ghost function RunBranches(c: Agent, exec: Exec, branches: seq<Step>, s: Rs): (seq<StepResult>, Sys)
    decreases branches, 0
  {
    if branches == [] then ([], s.sys)
    else
      var (r, s1) := RunStep(c, exec, branches[0], s);
      var (rest, sys2) := RunBranches(c, exec, branches[1..], s.(sys := s1.sys));
      ([r] + rest, sys2)
  }

  /** What the condition of an `if` evaluates to: the result, the inline result for the
      report, or the failure that ends the step. */
  datatype CondOut = CondOut(res: Result, shown: seq<StepResult>) | CondFailed(r: StepResult)

  ghost function RunCond(c: Agent, exec: Exec, ib: IfBlock, s: Rs): (CondOut, Sys) {
    if ib.on.Some? then
      if ib.on.value.name !in s.scope then (CondFailed(Failed("undefinedResult")), s.sys)
      else (CondOut(s.scope[ib.on.value.name], []), s.sys)
    else if ib.inline.None? then (CondFailed(Failed("agent")), s.sys)
    else
      var (fin, sys1) := RunInstruction(c, exec, ib.inline.value, s.sys);
      match fin
      case Broken(_) => (CondFailed(Failed("agent")), sys1)
      case Done(res) => (CondOut(res, [CondLeaf(res)]), sys1)
  }

  predicate CondTruth(ib: IfBlock, res: Result) {
    var t := if ib.on.Some? then RefTruth(res, ib.on.value)
             else if ib.pattern.Some? then RefTruth(res, ib.pattern.value)
             else res.category == OK;
    t != ib.negate
  }

  /** A `?`-caught inline error no branch covers. */
  predicate Uncovered(ib: IfBlock, res: Result) {
    ib.on.None? && ib.inline.Some? && ib.inline.value.caught && res.category == ERR && !CondTruth(ib, res) &&
      ib.els == []
  }

  ghost function RunIf(c: Agent, exec: Exec, ib: IfBlock, s: Rs): (StepResult, Rs)
    decreases ib, 0
  {
    var (cond, sys1) := RunCond(c, exec, ib, s);
    var s1 := s.(sys := sys1);
    match cond
    case CondFailed(r) => (r, s1)
    case CondOut(res, shown) =>
      if c.mode == Check && res.category == WOULD then
        var (sub, _, s2) := RunSteps(c, exec, ib.thn, "", s1);
        (Group(SUndetermined, shown + sub), s2)
      else if Uncovered(ib, res) then
        (StepResult(SErr, res.tag, false, res.shell, [], "", false, shown), s1)
      else
        var (sub, halted, s2) := RunSteps(c, exec, if CondTruth(ib, res) then ib.thn else ib.els, "", s1);
        (Group(if halted then SErr else SOk, shown + sub), s2)
  }

  // --- the halting rule ---

  /** The state before step i when nothing ever halts. */
  ghost function Free(c: Agent, exec: Exec, steps: seq<Step>, i: nat, s: Rs): Rs
    requires i <= |steps|
    decreases i
  {
    if i == 0 then s else Free(c, exec, steps[1..], i - 1, RunStep(c, exec, steps[0], s).1)
  }

  /** The result step i has in that run. */
  ghost function FreeResult(c: Agent, exec: Exec, steps: seq<Step>, i: nat, s: Rs): StepResult
    requires i < |steps|
  {
    RunStep(c, exec, steps[i], Free(c, exec, steps, i, s)).0.(caught := steps[i].caught)
  }

  /** Step i does not stop the sequence: no error, or one captured by `?` that the very next
      step handles. */
  ghost predicate Passes(c: Agent, exec: Exec, steps: seq<Step>, i: nat, s: Rs)
    requires i < |steps|
  {
    FreeResult(c, exec, steps, i, s).cat.SErr? ==>
      && steps[i].caught && steps[i].bind != ""
      && i + 1 < |steps| && Handles(steps[i + 1], steps[i].bind, Free(c, exec, steps, i + 1, s).scope)
  }

  lemma FreeShift(c: Agent, exec: Exec, steps: seq<Step>, i: nat, s: Rs)
    requires 0 < i < |steps|
    ensures FreeResult(c, exec, steps, i, s) == FreeResult(c, exec, steps[1..], i - 1, RunStep(c, exec, steps[0], s).1)
    ensures Passes(c, exec, steps, i, s) == Passes(c, exec, steps[1..], i - 1, RunStep(c, exec, steps[0], s).1)
  {
  }

  /** How many steps report, and whether the sequence halted. */
  ghost predicate HaltsAt(c: Agent, exec: Exec, steps: seq<Step>, s: Rs, results: seq<StepResult>, halted: bool) {
    && |results| <= |steps|
    && (forall i :: 0 <= i < |results| ==> results[i] == FreeResult(c, exec, steps, i, s))
    && (forall i :: 0 <= i < |results| - 1 ==> Passes(c, exec, steps, i, s))
    && (!halted ==> |results| == |steps| && (|steps| > 0 ==> Passes(c, exec, steps, |steps| - 1, s)))
    && (halted ==> |results| > 0 && !Passes(c, exec, steps, |results| - 1, s))
  }

  lemma HaltsPrepend(c: Agent, exec: Exec, steps: seq<Step>, s: Rs, rest: seq<StepResult>, halted: bool)
    requires steps != [] && Passes(c, exec, steps, 0, s)
    requires HaltsAt(c, exec, steps[1..], RunStep(c, exec, steps[0], s).1, rest, halted)
    ensures HaltsAt(c, exec, steps, s, [FreeResult(c, exec, steps, 0, s)] + rest, halted)
  {
    var all := [FreeResult(c, exec, steps, 0, s)] + rest;
    forall i | 0 < i < |steps|
      ensures Passes(c, exec, steps, i, s) == Passes(c, exec, steps[1..], i - 1, RunStep(c, exec, steps[0], s).1)
      ensures FreeResult(c, exec, steps, i, s) ==
              FreeResult(c, exec, steps[1..], i - 1, RunStep(c, exec, steps[0], s).1)
    {
      FreeShift(c, exec, steps, i, s);
    }
    forall i | 0 <= i < |all| ensures all[i] == FreeResult(c, exec, steps, i, s) {
    }
  }

  /** Once handled, a pending error leaves no trace on the rest of the run. */
  lemma PendingForgotten(c: Agent, exec: Exec, steps: seq<Step>, pending: string, s: Rs)
    requires steps != [] && Handles(steps[0], pending, s.scope)
    ensures RunSteps(c, exec, steps, pending, s) == RunSteps(c, exec, steps, "", s)
  {
  }

  /** The halting rule: the results are those of the unhalted run, up to and including the
      first step that does not pass; not halted means every step ran and every one passed. */
  lemma {:induction false} HaltingRule(c: Agent, exec: Exec, steps: seq<Step>, s: Rs)
    ensures var (results, halted, _) := RunSteps(c, exec, steps, "", s); HaltsAt(c, exec, steps, s, results, halted)
    decreases steps
  {
    if steps != [] {
      var (r, s1) := RunStep(c, exec, steps[0], s);
      var tail := steps[1..];
      assert Free(c, exec, steps, 0, s) == s;
      assert FreeResult(c, exec, steps, 0, s) == r.(caught := steps[0].caught);
      if tail != [] { assert Free(c, exec, steps, 1, s) == Free(c, exec, tail, 0, s1) == s1; }
      if r.cat.SErr? && !(steps[0].caught && steps[0].bind != "") {
        assert !Passes(c, exec, steps, 0, s);
      } else if r.cat.SErr? && (tail == [] || !Handles(tail[0], steps[0].bind, s1.scope)) {
        assert !Passes(c, exec, steps, 0, s);
        assert RunSteps(c, exec, tail, steps[0].bind, s1) == ([], true, s1);
      } else {
        if r.cat.SErr? { PendingForgotten(c, exec, tail, steps[0].bind, s1); }
        HaltingRule(c, exec, tail, s1);
        var (rest, halted, _) := RunSteps(c, exec, tail, "", s1);
        HaltsPrepend(c, exec, steps, s, rest, halted);
      }
    }
  }

  /** What the runner waits for is what the `if` then does: a caught result that is covered
      takes the branch its test names, and one that is not would take an empty else. */
  lemma CaughtBranch(c: Agent, exec: Exec, step: Step, name: string, s: Rs)
    requires step.cond.Some? && step.cond.value.on.Some? && step.cond.value.on.value.name == name
    requires name in s.scope && s.scope[name].category == ERR
    ensures Handles(step, name, s.scope) <==> CondTruth(step.cond.value, s.scope[name]) || step.cond.value.els != []
    ensures var ib := step.cond.value;
            var (sub, halted, s1) := RunSteps(c, exec, if CondTruth(ib, s.scope[name]) then ib.thn else ib.els, "", s);
            RunStep(c, exec, step, s) == (Group(if halted then SErr else SOk, [] + sub), s1)
  {
    assert s.(sys := s.sys) == s;
  }

  /** Branches of a `parallel` neither see nor leave captures of each other. */
  lemma {:induction false} BranchesIsolated(c: Agent, exec: Exec, branches: seq<Step>, s: Rs)
    ensures |RunBranches(c, exec, branches, s).0| == |branches|
    ensures forall i :: 0 <= i < |branches| ==>
              exists sys :: RunBranches(c, exec, branches, s).0[i] == RunStep(c, exec, branches[i], Rs(s.scope, sys)).0
    decreases branches
  {
    if branches != [] {
      var (r, s1) := RunStep(c, exec, branches[0], s);
      var s2 := s.(sys := s1.sys);
      BranchesIsolated(c, exec, branches[1..], s2);
      var all, rest := RunBranches(c, exec, branches, s).0, RunBranches(c, exec, branches[1..], s2).0;
      forall i | 0 <= i < |branches|
        ensures exists sys :: all[i] == RunStep(c, exec, branches[i], Rs(s.scope, sys)).0
      {
        if i == 0 {
          assert all[0] == RunStep(c, exec, branches[0], Rs(s.scope, s.sys)).0;
        } else {
          assert all[i] == rest[i - 1];
        }
      }
    }
  }

  // --- a request ---

  /** `collectInterpreters`: the interpreters a request needs beyond the plain shell. */
  ghost function Needed(steps: seq<Step>): set<string>
    decreases steps, 0
  {
    if steps == [] then {} else StepNeeds(steps[0]) + Needed(steps[1..])
  }

  ghost function StepNeeds(s: Step): set<string>
    decreases s, 1
  {
    (if s.instruction == "shell" && s.interp != "" && s.interp != "sh" && s.interp != "raw" then {s.interp} else {})
    + (if s.cond.Some? then
         (if s.cond.value.inline.Some? then StepNeeds(s.cond.value.inline.value) else {})
         + Needed(s.cond.value.thn) + Needed(s.cond.value.els)
       else {})
    + Needed(s.block) + Needed(s.parallel)
  }

  /** `runRequest`: nothing runs when an interpreter is missing. */
  ghost function RunRequest(c: Agent, exec: Exec, installed: set<string>, steps: seq<Step>,
      sys: Sys): (seq<StepResult>, bool, Sys) {
    if !(Needed(steps) <= installed) then ([Failed("interpreterMissing")], true, sys)
    else
      var (results, halted, s) := RunSteps(c, exec, steps, "", Rs(map[], sys));
      (results, halted, s.sys)
  }
}
