/** What a whole request may do: dry runs and status reports act on nothing, and what is
    asked of the control host was declared by the plan. */
module Requests {
  import opened Basics
  import opened Ast
  import opened Eval
  import opened Plan
  import opened Runner
  import opened Preserve
  import Resolve

  ghost predicate TableOk(k: Policy, defs: map<string, Def>) {
    forall n :: n in defs ==> DefOk(k, defs, n, defs[n])
  }

  ghost predicate AgentOk(k: Policy, c: Agent) {
    TableOk(k, c.defs) && k.rank.None? && (k.modes ==> c.mode == k.mode && k.mode != Apply)
  }

  ghost predicate Marked(k: Policy, paths: set<string>) {
    k.paths.Some? ==> paths <= k.paths.value
  }

  lemma InstructionKept(k: Policy, c: Agent, exec: Exec, step: Step, sys: Sys)
    requires AgentOk(k, c) && LogOk(k, sys.log) && Marked(k, OwnPaths(step))
    ensures LogOk(k, RunInstruction(c, exec, step, sys).1.log)
  {
    if step.instruction in c.defs {
      var f := StepFrame(c, exec, step.instruction);
      assert forall n :: Known(f, n) ==> DefOk(k, f.defs, n, f.defs[n]);
      assert ArgsOk(k, Args(step.args, step.control)) by {
        forall n | n in step.control && n in step.args && k.paths.Some? ensures step.args[n] in k.paths.value {
          assert step.args[n] in OwnPaths(step);
        }
      }
      DefKept(k, f, sys, c.defs[step.instruction], step.instruction, Args(step.args, step.control), step.with);
    } else if step.instruction == "shell" && !k.modes {
      LogKept(k, sys, Event(ApplyPhase, RanShell(if "cmd" in step.args then step.args["cmd"] else "")));
    }
  }

  lemma {:induction false} StepsKept(k: Policy, c: Agent, exec: Exec, steps: seq<Step>, pending: string, s: Rs)
    requires AgentOk(k, c) && LogOk(k, s.sys.log) && Marked(k, Paths(steps))
    ensures LogOk(k, RunSteps(c, exec, steps, pending, s).2.sys.log)
    decreases steps, 0
  {
    if steps != [] && !(pending != "" && !Handles(steps[0], pending, s.scope)) {
      StepKept(k, c, exec, steps[0], s);
      var (r, s1) := RunStep(c, exec, steps[0], s);
      StepsKept(k, c, exec, steps[1..], if r.cat.SErr? then steps[0].bind else "", s1);
    }
  }

  lemma {:induction false} StepKept(k: Policy, c: Agent, exec: Exec, step: Step, s: Rs)
    requires AgentOk(k, c) && LogOk(k, s.sys.log) && Marked(k, StepPaths(step))
    ensures LogOk(k, RunStep(c, exec, step, s).1.sys.log)
    decreases step, 1
  {
    if step.cond.Some? {
      IfKept(k, c, exec, step.cond.value, s);
    } else if step.block != [] {
      StepsKept(k, c, exec.As(step.become), step.block, "", s);
    } else if step.parallel != [] {
      BranchesKept(k, c, exec, step.parallel, s);
    } else {
      InstructionKept(k, c, exec.As(step.become).Using(step.interp), step, s.sys);
    }
  }

  lemma {:induction false} BranchesKept(k: Policy, c: Agent, exec: Exec, branches: seq<Step>, s: Rs)
    requires AgentOk(k, c) && LogOk(k, s.sys.log) && Marked(k, Paths(branches))
    ensures LogOk(k, RunBranches(c, exec, branches, s).1.log)
    decreases branches, 0
  {
    if branches != [] {
      StepKept(k, c, exec, branches[0], s);
      BranchesKept(k, c, exec, branches[1..], s.(sys := RunStep(c, exec, branches[0], s).1.sys));
    }
  }

  lemma {:induction false} IfKept(k: Policy, c: Agent, exec: Exec, ib: IfBlock, s: Rs)
    requires AgentOk(k, c) && LogOk(k, s.sys.log) && Marked(k, CondPaths(ib))
    ensures LogOk(k, RunIf(c, exec, ib, s).1.sys.log)
    decreases ib, 0
  {
    if ib.inline.Some? {
      assert OwnPaths(ib.inline.value) <= StepPaths(ib.inline.value) <= CondPaths(ib);
      InstructionKept(k, c, exec, ib.inline.value, s.sys);
    }
    var s1 := s.(sys := RunCond(c, exec, ib, s).1);
    StepsKept(k, c, exec, ib.thn, "", s1);
    StepsKept(k, c, exec, ib.els, "", s1);
  }

  // --- dry runs and status ---

  /** What the def parser guarantees of every def in the table: a delegation has only checks
      beside it. */
  ghost predicate Parsed(defs: map<string, Def>) {
    forall n :: n in defs ==> WellFormed(defs[n])
  }

  /** For every request, def table and answer of the target: a checking or reporting run
      places no file, runs no shell of an apply (a plan's own shells are such), and a check
      drives no real transfer while a report touches no apply or preview statement. */
  lemma LookingActsOnNothing(c: Agent, exec: Exec, installed: set<string>, steps: seq<Step>, sys: Sys, e: Event)
    requires c.mode != Apply && Parsed(c.defs)
    requires sys.log == [] && e in RunRequest(c, exec, installed, steps, sys).2.log
    ensures Looks(c.mode, e)
  {
    var k := Policy(true, c.mode, None, None);
    StepsKept(k, c, exec, steps, "", Rs(map[], sys));
    assert Logged(RunRequest(c, exec, installed, steps, sys).2.log, e);
  }

  // --- the allow-list ---

  /** No def names a control-host path itself: `%"…"` in a def is a parse error. */
  ghost predicate LiteralFree(defs: map<string, Def>) {
    forall n, e :: n in defs && e in DefExprs(defs[n]) ==> NoLiteral(e)
  }

  /** No def lets an argument take another's mark; the parser does not check it, and without it
      the statement fails (`Marks.SharedMarkAsksUndeclared`). */
  ghost predicate MarksOwned(defs: map<string, Def>) {
    forall n :: n in defs ==> OwnMarks(defs[n].params)
  }

  /** Every resource a run asks for, at any depth of def calls and in any mode, was declared
      by the plan before it was resolved for this host and sent. */
  lemma AskedIsDeclared(plan: seq<Step>, env: map<string, string>, interp: string,
                        c: Agent, exec: Exec, installed: set<string>, sys: Sys, e: Event)
    requires Parsed(c.defs) && LiteralFree(c.defs) && MarksOwned(c.defs)
    requires Resolve.AllShaped(plan) && Resolve.ResolveSteps(plan, env, interp).Some?
    requires Resolve.LatePaths(plan, env) <= Paths(plan)
    requires sys.log == [] &&
            e in RunRequest(c, exec, installed, Resolve.ResolveSteps(plan, env, interp).value, sys).2.log
    ensures e.kind.Asked? || e.kind.Transferred? || e.kind.Previewed? ==> e.kind.resource in ControlResources(plan)
  {
    var steps := Resolve.ResolveSteps(plan, env, interp).value;
    Resolve.DeclarationsKept(plan, env, interp);
    var k := Policy(false, c.mode, Some(Paths(plan)), None);
    StepsKept(k, c, exec, steps, "", Rs(map[], sys));
    assert Logged(RunRequest(c, exec, installed, steps, sys).2.log, e);
  }
}
