/** What comes before a def acts or observes: its arguments and its checks. When those are
    pure, every run of the def sees the same thing, whatever its mode and its target. */
module Front {
  import opened Basics
  import opened Ast
  import opened Eval
  import opened EarlyRefusal

  /** Pure checks do not depend on the mode and touch nothing. */
  lemma {:induction false} ChecksSame(f0: Frame, f: Frame, s0: S, s: S, phases: seq<Phase>)
    requires Twin(f0, f, s0, s)
    requires forall j :: 0 <= j < |phases| && phases[j].name == CheckPhase ==> PureStmts(phases[j].stmts)
    ensures Same(EvalNamed(f0, s0, CheckPhase, phases), EvalNamed(f, s, CheckPhase, phases), s)
    decreases |phases|
  {
    if phases != [] {
      if phases[0].name != CheckPhase {
        ChecksSame(f0, f, s0, s, phases[1..]);
      } else {
        PhaseSame(f0, f, s0, s, phases[0]);
        var r0, r := RunPhase(f0, s0, phases[0]), RunPhase(f, s, phases[0]);
        if r0.out.Val? && r0.out.v.None? { ChecksSame(f0, f, r0.s, r.s, phases[1..]); }
      }
    }
  }

  /** The state a run is in when its checks are done. */
  ghost function Checked(f: Frame, sys: Sys, def: Def, a: Args, with: map<string, string>): R<Option<Result>> {
    var g := Inside(f, def);
    var p := EvalPrologue(g, sys, def, a, with);
    if p.out.Val? then EvalNamed(g, p.s, CheckPhase, def.phases) else p.PropagateFailure<Option<Result>>()
  }

  /** Pure checks over pure defaults. */
  ghost predicate PureFront(def: Def) {
    && (forall j :: 0 <= j < |def.phases| && def.phases[j].name == CheckPhase ==> PureStmts(def.phases[j].stmts))
    && (forall p :: p in def.params && p.default.Some? ==> PureExpr(p.default.value))
  }

  /** Two runs of the def end their checks with the same answer and the same variables,
      having touched nothing. */
  lemma CheckedSame(f: Frame, sys: Sys, f2: Frame, sys2: Sys, def: Def, a: Args, with: map<string, string>)
    requires PureFront(def) && f2.m == f.m
    ensures var c, c2 := Checked(f, sys, def, a, with), Checked(f2, sys2, def, a, with);
            c2.out == c.out && c.s.sys == sys && !c.s.acted && c2.s == c.s.(sys := sys2)
    ensures EvalPrologue(Inside(f2, def), sys2, def, a, with).s.vars ==
            EvalPrologue(Inside(f, def), sys, def, a, with).s.vars
  {
    var f0, g, g2 := BareFrame(f.m), Inside(f, def), Inside(f2, def);
    PrologueSame(f0, g, sys, def, a, with);
    PrologueSame(f0, g2, sys2, def, a, with);
    var p0 := EvalPrologue(f0, Sys(0, 0, []), def, a, with);
    if p0.out.Val? {
      ChecksSame(f0, g, p0.s, EvalPrologue(g, sys, def, a, with).s, def.phases);
      ChecksSame(f0, g2, p0.s, EvalPrologue(g2, sys2, def, a, with).s, def.phases);
    }
  }
}
