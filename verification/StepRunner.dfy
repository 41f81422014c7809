/** The step runner as the program has it: a scope map the steps of a block write to, one
    target, loops that stop. Each method is proved to compute what `Runner` says. */
module StepRunner {
  import opened Basics
  import opened Ast
  import opened Eval
  import opened Plan
  import opened Runner
  import opened Evaluator

  lemma BranchNext(c: Agent, exec: Exec, branches: seq<Step>, i: nat, s: Rs, subs: seq<StepResult>)
    requires i < |branches|
    ensures var (r, s1) := RunStep(c, exec, branches[i], s);
            var (sub, sys) := RunBranches(c, exec, branches[i..], s);
            var (rest, sys1) := RunBranches(c, exec, branches[i + 1..], s.(sys := s1.sys));
            subs + sub == (subs + [r]) + rest && sys == sys1
  {
    assert branches[i..][0] == branches[i] && branches[i..][1..] == branches[i + 1..];
    var (r, s1) := RunStep(c, exec, branches[i], s);
    var rest := RunBranches(c, exec, branches[i + 1..], s.(sys := s1.sys)).0;
    assert subs + ([r] + rest) == (subs + [r]) + rest;
  }

  /** One block's scope on one target. */
  class Session {
    const c: Agent
    const target: Target
    var scope: map<string, Result>

    constructor (c: Agent, target: Target, scope: map<string, Result>)
      requires target.m == c.m
      ensures this.c == c && this.target == target && this.scope == scope
    {
      this.c, this.target, this.scope := c, target, scope;
    }

    ghost function Now(): Rs
      reads this, target
    {
      Rs(scope, target.Now())
    }

    ghost predicate Valid()
      reads this, target
    {
      target.m == c.m
    }

    method Instruction(exec: Exec, step: Step) returns (fin: Finished)
      requires Valid()
      modifies target
      ensures (fin, target.Now()) == RunInstruction(c, exec, step, old(target.Now()))
    {
      if step.instruction in c.defs {
        fin := Ev.EvalDef(Frame(c.m, c.defs, c.mode, [step.instruction], Some(exec), c.channel, Prologue), target,
                          c.defs[step.instruction], Args(step.args, step.control), step.with);
      } else if step.instruction == "shell" {
        var r := PlanShell(exec, if "cmd" in step.args then step.args["cmd"] else "", step.env);
        fin := Done(r);
      } else {
        fin := Broken(Fault);
      }
    }

    /** A plan's own shell: refused when empty, announced unless the run acts. */
    method PlanShell(exec: Exec, cmd: string, env: map<string, string>) returns (r: Result)
      requires Valid()
      modifies target
      ensures (r, target.Now()) == RunPlanShell(c.m, exec, c.mode, old(target.Now()), cmd, env)
    {
      if TrimRight(cmd) == "" { return Verdict(ERR, "emptyCommand"); }
      if c.mode != Apply { return Verdict(WOULD, "ran").(changed := true); }
      var got := target.Shell(ShellReq(ApplyPhase, exec, cmd, env));
      if got.exit != 0 { return Verdict(ERR, "runtime").(shell := Some(got)); }
      return Verdict(OK, "ran").(changed := true);
    }

    /** Results reported already, before those of the rest. */
    static ghost function After(done: seq<StepResult>, r: (seq<StepResult>, bool, Rs)): (seq<StepResult>, bool, Rs) {
      (done + r.0, r.1, r.2)
    }

    static lemma AfterAfter(done: seq<StepResult>, x: StepResult, r: (seq<StepResult>, bool, Rs))
      ensures After(done, ([x] + r.0, r.1, r.2)) == After(done + [x], r)
    {
      assert done + ([x] + r.0) == (done + [x]) + r.0;
    }

    static lemma AfterNone(r: (seq<StepResult>, bool, Rs))
      ensures After([], r) == r
    {
      assert [] + r.0 == r.0;
    }

    method Steps(exec: Exec, steps: seq<Step>) returns (results: seq<StepResult>, halted: bool)
      requires Valid()
      modifies this, target
      ensures (results, halted, Now()) == RunSteps(c, exec, steps, "", old(Now()))
      decreases steps, 0
    {
      results := [];
      var pending := "";
      var i := 0;
      ghost var s0 := Now();
      AfterNone(RunSteps(c, exec, steps, "", s0));
      while i < |steps|
        invariant i <= |steps|
        invariant RunSteps(c, exec, steps, "", s0) == After(results, RunSteps(c, exec, steps[i..], pending, Now()))
      {
        var step := steps[i];
        assert steps[i..][0] == step && steps[i..][1..] == steps[i + 1..];
        if pending != "" && !Handles(step, pending, scope) {
          assert results + [] == results;
          return results, true;
        }
        ghost var s1 := Now();
        var r := OneStep(exec, step);
        r := r.(caught := step.caught);
        if r.cat.SErr? && !(step.caught && step.bind != "") { return results + [r], true; }
        pending := if r.cat.SErr? then step.bind else "";
        AfterAfter(results, r, RunSteps(c, exec, steps[i + 1..], pending, Now()));
        results := results + [r];
        i := i + 1;
      }
      assert results + [] == results;
      return results, pending != "";
    }

    method OneStep(exec: Exec, step: Step) returns (r: StepResult)
      requires Valid()
      modifies this, target
      ensures (r, Now()) == RunStep(c, exec, step, old(Now()))
      decreases step, 1
    {
      if step.cond.Some? {
        r := IfStep(exec, step.cond.value);
      } else if step.block != [] {
        var sub, halted := Steps(exec.As(step.become), step.block);
        r := Group(if halted then SErr else SOk, sub);
      } else if step.parallel != [] {
        var sub := Branches(exec, step.parallel);
        r := Group(if exists x :: x in sub && x.cat.SErr? then SErr else SOk, sub);
      } else {
        var fin := Instruction(exec.As(step.become).Using(step.interp), step);
        match fin {
          case Broken(_) => r := Failed("agent");
          case Done(res) =>
            if step.bind != "" { scope := scope[step.bind := res]; }
            r := Leaf(res);
        }
      }
    }

    /** Each branch on a session of its own, with a copy of the scope. */
    method Branches(exec: Exec, branches: seq<Step>) returns (subs: seq<StepResult>)
      requires Valid()
      modifies target
      ensures (subs, target.Now()) == RunBranches(c, exec, branches, old(Now()))
      decreases branches, 0
    {
      subs := [];
      var i := 0;
      ghost var s0 := Now();
      assert [] + RunBranches(c, exec, branches, s0).0 == RunBranches(c, exec, branches, s0).0;
      while i < |branches|
        invariant i <= |branches|
        invariant subs + RunBranches(c, exec, branches[i..], Now()).0 == RunBranches(c, exec, branches, s0).0
        invariant RunBranches(c, exec, branches[i..], Now()).1 == RunBranches(c, exec, branches, s0).1
      {
        BranchNext(c, exec, branches, i, Now(), subs);
        var copy := new Session(c, target, scope);
        var r := copy.OneStep(exec, branches[i]);
        subs := subs + [r];
        i := i + 1;
      }
      assert subs + [] == subs;
    }

    method Cond(exec: Exec, ib: IfBlock) returns (out: CondOut)
      requires Valid()
      modifies target
      ensures (out, target.Now()) == RunCond(c, exec, ib, old(Now()))
    {
      if ib.on.Some? {
        if ib.on.value.name !in scope { return CondFailed(Failed("undefinedResult")); }
        return CondOut(scope[ib.on.value.name], []);
      }
      if ib.inline.None? { return CondFailed(Failed("agent")); }
      var fin := Instruction(exec, ib.inline.value);
      match fin {
        case Broken(_) => return CondFailed(Failed("agent"));
        case Done(res) => return CondOut(res, [CondLeaf(res)]);
      }
    }

    method IfStep(exec: Exec, ib: IfBlock) returns (r: StepResult)
      requires Valid()
      modifies this, target
      ensures (r, Now()) == RunIf(c, exec, ib, old(Now()))
      decreases ib, 0
    {
      var cond := Cond(exec, ib);
      if cond.CondFailed? { return cond.r; }
      var res, shown := cond.res, cond.shown;
      if c.mode == Check && res.category == WOULD {
        var sub, _ := Steps(exec, ib.thn);
        return Group(SUndetermined, shown + sub);
      }
      if Uncovered(ib, res) { return StepResult(SErr, res.tag, false, res.shell, [], "", false, shown); }
      var sub, halted := Steps(exec, if CondTruth(ib, res) then ib.thn else ib.els);
      return Group(if halted then SErr else SOk, shown + sub);
    }
  }
}
