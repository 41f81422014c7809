/** Arguments refused while the plan is read: the small evaluator behind the early check
    agrees with the one on the target. */
module EarlyRefusal {
  import opened Basics
  import opened Ast
  import opened Eval
  import opened Plan
  import Runner

  /** `pureExpr`: reaches no host, no file and no shell. */
  predicate PureExpr(e: Expr) {
    match e
    case Primitive(n, args) => IsText(n) && forall a :: a in args ==> PureExpr(a)
    case Compare(_, l, r) => PureExpr(l) && PureExpr(r)
    case Not(x) => PureExpr(x)
    case Field(x, _) => PureExpr(x)
    case StrLit(_) => true
    case BoolLit(_) => true
    case IntLit(_) => true
    case Ident(_) => true
    case _ => false
  }

  predicate PureStmt(st: Stmt) {
    match st
    case Let(_, e) => PureExpr(e)
    case Effect(e) => PureExpr(e)
    case If(c, body) => PureExpr(c) && forall b :: b in body ==> PureStmt(b)
    case Return(o) => o.payload.Some? ==> PureExpr(o.payload.value)
    case StateReturn(_) => false
  }

  predicate PureStmts(stmts: seq<Stmt>) {
    forall s :: s in stmts ==> PureStmt(s)
  }

  /** `pureCheck`: the first `check`, when all of it is pure. */
  function PureCheck(phases: seq<Phase>): Option<Phase> {
    if phases == [] then None
    else if phases[0].name == CheckPhase then (if PureStmts(phases[0].stmts) then Some(phases[0]) else None)
    else PureCheck(phases[1..])
  }

  /** `newPureEvaluator`: no executor, no channel, no def to call. */
  ghost function BareFrame(m: Machine): Frame {
    Frame(m, map[], Check, [], None, false, Prologue)
  }

  /** `evalPureCheck`: decided is Some; any failure is silence. */
  ghost function EvalPureCheck(m: Machine, def: Def, p: Phase, a: Args, with: map<string, string>): Option<Result> {
    var f := BareFrame(m);
    var s := EvalPrologue(f, Sys(0, 0, []), def, a, with);
    if !s.out.Val? then None
    else
      var r := RunPhase(f, s.s, p);
      if r.out.Val? then r.out.v else None
  }

  /** Two evaluators that see the same variables. */
  ghost predicate Twin(f0: Frame, f: Frame, s0: S, s: S) {
    && f0.exec.None? && !f0.channel && f0.defs == map[] && f0.stack == [] && f0.m == f.m
    && s0.vars == s.vars && s0.last == s.last
  }

  /** The bare evaluator touched nothing but variables, and the other did the same. */
  ghost predicate Same<T>(r0: R<T>, r: R<T>, s: S) {
    r.out == r0.out && r.s == s.(vars := r0.s.vars, last := r0.s.last)
  }

  lemma {:induction false} ExprSame(f0: Frame, f: Frame, s0: S, s: S, e: Expr)
    requires Twin(f0, f, s0, s)
    requires PureExpr(e) || EvalExpr(f0, s0, e).out.Val?
    ensures Same(EvalExpr(f0, s0, e), EvalExpr(f, s, e), s)
    decreases e, 1
  {
    match e
    case Field(x, _) => ExprSame(f0, f, s0, s, x);
    case Compare(_, _, _) => CompareSame(f0, f, s0, s, e);
    case Not(x) => ExprSame(f0, f, s0, s, x);
    case Primitive(n, args) =>
      if |args| == PrimitiveArity(n) && IsText(n) { TextSame(f0, f, s0, s, e); }
    case _ =>
  }

  lemma {:induction false} CompareSame(f0: Frame, f: Frame, s0: S, s: S, e: Expr)
    requires Twin(f0, f, s0, s) && e.Compare?
    requires PureExpr(e) || EvalExpr(f0, s0, e).out.Val?
    ensures Same(EvalExpr(f0, s0, e), EvalExpr(f, s, e), s)
    decreases e, 0
  {
    ExprSame(f0, f, s0, s, e.l);
    if EvalExpr(f0, s0, e.l).out.Val? { ExprSame(f0, f, EvalExpr(f0, s0, e.l).s, EvalExpr(f, s, e.l).s, e.r); }
  }

  lemma {:induction false} TextSame(f0: Frame, f: Frame, s0: S, s: S, e: Expr)
    requires Twin(f0, f, s0, s) && e.Primitive? && |e.args| == PrimitiveArity(e.name) && IsText(e.name)
    requires PureExpr(e) || EvalText(f0, s0, e).out.Val?
    ensures Same(EvalText(f0, s0, e), EvalText(f, s, e), s)
    decreases e, 0
  {
    ExprSame(f0, f, s0, s, e.args[0]);
    var a0, a := EvalExpr(f0, s0, e.args[0]), EvalExpr(f, s, e.args[0]);
    if a0.out.Val? {
      ExprSame(f0, f, a0.s, a.s, e.args[1]);
      var b0, b := EvalExpr(f0, a0.s, e.args[1]), EvalExpr(f, a.s, e.args[1]);
      if b0.out.Val? && |e.args| > 2 && (PureExpr(e.args[2]) || EvalExpr(f0, b0.s, e.args[2]).out.Val?) {
        ExprSame(f0, f, b0.s, b.s, e.args[2]);
      }
    }
  }

  lemma {:induction false} StmtSame(f0: Frame, f: Frame, s0: S, s: S, st: Stmt)
    requires Twin(f0, f, s0, s)
    requires PureStmt(st) || EvalStmt(f0, s0, st).out.Val?
    ensures Same(EvalStmt(f0, s0, st), EvalStmt(f, s, st), s)
    decreases st, 0
  {
    match st
    case Let(_, e) => ExprSame(f0, f, s0, s, e);
    case Effect(e) => ExprSame(f0, f, s0, s, e);
    case If(c, body) =>
      ExprSame(f0, f, s0, s, c);
      var r0, r := EvalExpr(f0, s0, c), EvalExpr(f, s, c);
      if r0.out.Val? && Truthy(r0.out.v) { StmtsSame(f0, f, r0.s, r.s, body); }
    case _ =>
  }

  lemma {:induction false} StmtsSame(f0: Frame, f: Frame, s0: S, s: S, stmts: seq<Stmt>)
    requires Twin(f0, f, s0, s)
    requires PureStmts(stmts) || EvalStmts(f0, s0, stmts).out.Val?
    ensures Same(EvalStmts(f0, s0, stmts), EvalStmts(f, s, stmts), s)
    decreases stmts, 0
  {
    if stmts != [] {
      StmtSame(f0, f, s0, s, stmts[0]);
      var r0, r := EvalStmt(f0, s0, stmts[0]), EvalStmt(f, s, stmts[0]);
      if r0.out.Val? && r0.out.v.None? { StmtsSame(f0, f, r0.s, r.s, stmts[1..]); }
    }
  }

  /** A pure statement can only return a pure payload. */
  lemma {:induction false} PurePayload(f: Frame, s: S, stmts: seq<Stmt>)
    requires PureStmts(stmts) && EvalStmts(f, s, stmts).out.Val? && EvalStmts(f, s, stmts).out.v.Some?
    ensures var o := EvalStmts(f, s, stmts).out.v.value; o.payload.Some? ==> PureExpr(o.payload.value)
    decreases stmts
  {
    assert PureStmt(stmts[0]);
    var r := EvalStmt(f, s, stmts[0]);
    if r.out.v.None? {
      PurePayload(f, r.s, stmts[1..]);
    } else if stmts[0].If? {
      var c := EvalExpr(f, s, stmts[0].cond);
      assert r == EvalStmts(f, c.s, stmts[0].body);
      PurePayload(f, c.s, stmts[0].body);
    }
  }

  lemma PhaseSame(f0: Frame, f: Frame, s0: S, s: S, p: Phase)
    requires Twin(f0, f, s0, s)
    requires PureStmts(p.stmts) || RunPhase(f0, s0, p).out.Val?
    ensures Same(RunPhase(f0, s0, p), RunPhase(f, s, p), s)
  {
    var g0, g := In(f0, p.name), In(f, p.name);
    StmtsSame(g0, g, s0, s, p.stmts);
    var r0, r := EvalStmts(g0, s0, p.stmts), EvalStmts(g, s, p.stmts);
    if r0.out.Val? && r0.out.v.Some? {
      var o := r0.out.v.value;
      if PureStmts(p.stmts) { PurePayload(g0, s0, p.stmts); }
      if o.payload.Some? { ExprSame(g0, g, r0.s, r.s, o.payload.value); }
    }
  }

  lemma {:induction false} DefaultsSame(f0: Frame, f: Frame, s0: S, s: S, params: seq<Param>)
    requires Twin(f0, f, s0, s)
    requires (forall p :: p in params && p.default.Some? ==> PureExpr(p.default.value)) ||
            EvalDefaults(f0, s0, params).out.Val?
    ensures Same(EvalDefaults(f0, s0, params), EvalDefaults(f, s, params), s)
    decreases params
  {
    if params != [] {
      if params[0].name in s.vars || params[0].default.None? {
        DefaultsSame(f0, f, s0, s, params[1..]);
      } else {
        ExprSame(f0, f, s0, s, params[0].default.value);
        var r0, r := EvalExpr(f0, s0, params[0].default.value), EvalExpr(f, s, params[0].default.value);
        if r0.out.Val? {
          var x := params[0].name;
          DefaultsSame(f0, f, r0.s.(vars := r0.s.vars[x := r0.out.v]), r.s.(vars := r.s.vars[x := r.out.v]),
              params[1..]);
        }
      }
    }
  }

  lemma PrologueSame(f0: Frame, f: Frame, sys: Sys, def: Def, a: Args, with: map<string, string>)
    requires f0.exec.None? && !f0.channel && f0.defs == map[] && f0.stack == [] && f0.m == f.m
    requires (forall p :: p in def.params && p.default.Some? ==> PureExpr(p.default.value))
             || EvalPrologue(f0, Sys(0, 0, []), def, a, with).out.Val?
    ensures var p0, p := EvalPrologue(f0, Sys(0, 0, []), def, a, with), EvalPrologue(f, sys, def, a, with);
            p.out == p0.out && p.s == S(p0.s.vars, p0.s.last, false, sys)
  {
    var vars := MarkControl(Bound(a.values), a.control);
    DefaultsSame(f0, f, S(vars, VNone, false, Sys(0, 0, [])), S(vars, VNone, false, sys), def.params);
  }

  /** A refusal decided while the plan is read is the target's own answer, for every
      executor, control host and def table, and the target is not touched. A question is the
      one shape a check run answers differently. */
  lemma EarlyRefusalAgrees(f: Frame, sys: Sys, def: Def, a: Args, with: map<string, string>)
    requires WellFormed(def) && def.phases != [] && def.phases[0].name == CheckPhase
    requires var r := EvalPureCheck(f.m, def, def.phases[0], a, with); r.Some?
    ensures EvalDef(f, sys, def, a, with) ==
            (Done(Softened(def, f.mode, EvalPureCheck(f.m, def, def.phases[0], a, with).value)), sys)
  {
    var f0, g := BareFrame(f.m), Inside(f, def);
    PrologueSame(f0, g, sys, def, a, with);
    var p0, p := EvalPrologue(f0, Sys(0, 0, []), def, a, with), EvalPrologue(g, sys, def, a, with);
    PhaseSame(f0, g, p0.s, p.s, def.phases[0]);
    FirstCheckDecides(g, p.s, def, RunPhase(g, p.s, def.phases[0]).out.v.value);
  }

  lemma FirstCheckDecides(g: Frame, s: S, def: Def, r: Result)
    requires WellFormed(def) && def.phases != [] && def.phases[0].name == CheckPhase
    requires RunPhase(g, s, def.phases[0]).out == Val(Some(r))
    ensures EvalBody(g, s, def) == R(Val(Softened(def, g.mode, r)), RunPhase(g, s, def.phases[0]).s)
  {
    var desired := Desired(s.vars, def.params);
    var s1 := RunPhase(g, s, def.phases[0]).s;
    if def.delegate.Some? {
      assert EvalBeside(g, s, def.phases) == R(Val(Some(r)), s1);
    } else if g.mode == Status {
      assert EvalNamed(g, s, CheckPhase, def.phases) == R(Val(Some(r)), s1);
    } else {
      assert DecidePhase(g, s, def, desired, def.phases[0]) == R(Val(Some(Softened(def, g.mode, r))), s1);
      assert EvalDecide(g, s, def, desired, def.phases) == R(Val(Some(Softened(def, g.mode, r))), s1);
    }
  }

  /** For a pure check over pure defaults the early pass misses nothing either: it decides
      exactly when the target's check does. */
  lemma EarlyPassIsExact(f: Frame, sys: Sys, def: Def, p: Phase, a: Args, with: map<string, string>)
    requires PureStmts(p.stmts)
    requires forall x :: x in def.params && x.default.Some? ==> PureExpr(x.default.value)
    ensures var s := EvalPrologue(f, sys, def, a, with);
            EvalPureCheck(f.m, def, p, a, with) ==
            if s.out.Val? && RunPhase(f, s.s, p).out.Val? then RunPhase(f, s.s, p).out.v else None
  {
    var f0 := BareFrame(f.m);
    PrologueSame(f0, f, sys, def, a, with);
    var p0, q := EvalPrologue(f0, Sys(0, 0, []), def, a, with), EvalPrologue(f, sys, def, a, with);
    if p0.out.Val? { PhaseSame(f0, f, p0.s, q.s, p); }
  }

  // --- a step of the plan ---

  /** `checkStepArguments` on one call: silent while an argument waits for its host. */
  ghost function StepRefused(m: Machine, defs: map<string, Def>, step: Step): Option<Result> {
    if step.instruction == "" || step.instruction == "shell" || step.instruction !in defs then None
    else if step.refs != map[] || step.templates != map[] then None
    else
      var def := defs[step.instruction];
      var p := PureCheck(def.phases);
      if p.None? then None
      else
        var r := EvalPureCheck(m, def, p.value, Args(step.args, step.control), step.with);
        if r.Some? && r.value.category == ERR then r else None
  }

  /** A step refused early is refused by the agent too, in Apply and Status, before it
      touches the target. */
  lemma RefusedStepIsRefusedThere(c: Runner.Agent, exec: Exec, step: Step, s: Runner.Rs)
    requires step.cond.None? && step.block == [] && step.parallel == [] && c.mode != Check
    requires StepRefused(c.m, c.defs, step).Some?
    requires WellFormed(c.defs[step.instruction]) && c.defs[step.instruction].phases[0].name == CheckPhase
    ensures var r := StepRefused(c.m, c.defs, step).value;
            Runner.RunStep(c, exec, step, s).0 == Runner.Leaf(r) && Runner.RunStep(c, exec, step, s).1.sys == s.sys
  {
    var ex := exec.As(step.become).Using(step.interp);
    EarlyRefusalAgrees(Runner.StepFrame(c, ex, step.instruction), s.sys, c.defs[step.instruction],
                       Args(step.args, step.control), step.with);
  }
}
