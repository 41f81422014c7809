/** Checks written after the observe: exactly when the report and the skip disagree. */
module StatusExact {
  import opened Basics
  import opened Ast
  import opened Eval
  import opened EarlyRefusal
  import opened Front
  import opened Confirm
  import opened SecondRun
  import opened StatusReport

  /** Phases of a name, up to one place and from there on. */
  lemma {:induction false} NamedSplit(f: Frame, s: S, name: PhaseName, phases: seq<Phase>, i: nat)
    requires i <= |phases|
    ensures var c := EvalNamed(f, s, name, phases[..i]);
            EvalNamed(f, s, name, phases) == if c.out == Val(None) then EvalNamed(f, c.s, name, phases[i..]) else c
    decreases i
  {
    if i > 0 {
      var first := phases[..i];
      assert first[0] == phases[0] && first[1..] == phases[1..][..i - 1] && phases[1..][i - 1..] == phases[i..];
      if phases[0].name != name {
        NamedSplit(f, s, name, phases[1..], i - 1);
      } else {
        var r := RunPhase(f, s, phases[0]);
        if r.out.Val? && r.out.v.None? { NamedSplit(f, r.s, name, phases[1..], i - 1); }
      }
    } else {
      assert phases[..0] == [] && phases[0..] == phases;
    }
  }

  // --- phases that bind nothing ---

  lemma {:induction false} StmtVars(f: Frame, s: S, st: Stmt)
    requires StmtLets(st) == {}
    ensures EvalStmt(f, s, st).s.vars == s.vars
    decreases st, 0
  {
    match st
    case Effect(e) => ExprVars(f, s, e);
    case If(c, body) =>
      ExprVars(f, s, c);
      var r := EvalExpr(f, s, c);
      if r.out.Val? && Truthy(r.out.v) { StmtsVars(f, r.s, body); }
    case _ =>
  }

  lemma {:induction false} StmtsVars(f: Frame, s: S, stmts: seq<Stmt>)
    requires StmtsLets(stmts) == {}
    ensures EvalStmts(f, s, stmts).s.vars == s.vars
    decreases stmts, 0
  {
    if stmts != [] {
      StmtVars(f, s, stmts[0]);
      var r := EvalStmt(f, s, stmts[0]);
      if r.out.Val? && r.out.v.None? { StmtsVars(f, r.s, stmts[1..]); }
    }
  }

  lemma PhaseVars(f: Frame, s: S, p: Phase)
    requires StmtsLets(p.stmts) == {}
    ensures RunPhase(f, s, p).s.vars == s.vars
  {
    var g := In(f, p.name);
    StmtsVars(g, s, p.stmts);
    var r := EvalStmts(g, s, p.stmts);
    if r.out.Val? && r.out.v.Some? {
      var o := r.out.v.value;
      if o.payload.Some? { ExprVars(g, r.s, o.payload.value); }
    }
  }

  lemma {:induction false} NamedVars(f: Frame, s: S, name: PhaseName, phases: seq<Phase>)
    requires NamedLets(phases, name) == {}
    ensures EvalNamed(f, s, name, phases).s.vars == s.vars
    decreases |phases|
  {
    if phases != [] {
      if phases[0].name != name {
        NamedVars(f, s, name, phases[1..]);
      } else {
        PhaseVars(f, s, phases[0]);
        var r := RunPhase(f, s, phases[0]);
        if r.out.Val? && r.out.v.None? { NamedVars(f, r.s, name, phases[1..]); }
      }
    }
  }

  // --- the checks after the observe ---

  /** One observe, whose reading no mode changes and which reads only what is in scope; pure
      checks anywhere, of which those after it bind nothing. */
  ghost predicate TwoSided(f: Frame, sys: Sys, def: Def, i: nat, a: Args, with: map<string, string>) {
    && OneObserve(def, i) && PureFront(def) && ModeFreeStmts(def.phases[i].stmts)
    && NamedLets(def.phases[i + 1..], CheckPhase) == {}
    && ReadsOnly(In(Inside(f, def), ObservePhase), def.phases[i].stmts, Scope(f, sys, def, i, a, with).Keys)
  }

  /** What the checks after the observe answer, run where Status runs them. */
  ghost function Later(f: Frame, sys: Sys, def: Def, i: nat, a: Args, with: map<string, string>): R<Option<Result>>
    requires i < |def.phases|
  {
    EvalNamed(Inside(f, def), Checked(f, sys, Upto(def, i), a, with).s, CheckPhase, def.phases[i + 1..])
  }

  ghost predicate IsOk(r: Finished) {
    r.Done? && r.res.category == OK
  }

  /** The acting run skips: its reading is the desired state. */
  ghost predicate Skips(f: Frame, sys: Sys, def: Def, i: nat, a: Args, with: map<string, string>)
    requires i < |def.phases|
  {
    var m := Reading(f, sys, def, i, a, with);
    m.out.Val? && Converged(Observed(m.out.v), Wanted(f, sys, def, a, with))
  }

  /** Every check of a report: those before the observe, then those after it. */
  lemma AllChecks(f: Frame, sys: Sys, def: Def, i: nat, a: Args, with: map<string, string>)
    requires OneObserve(def, i) && Checked(f, sys, Upto(def, i), a, with).out == Val(None)
    ensures var g := Inside(f, def);
            var p := EvalPrologue(g, sys, def, a, with);
            p.out.Val? && EvalNamed(g, p.s, CheckPhase, def.phases) == Later(f, sys, def, i, a, with)
  {
    var g := Inside(f, def);
    var p := EvalPrologue(g, sys, def, a, with);
    var c := Checked(f, sys, Upto(def, i), a, with);
    assert c == EvalNamed(g, p.s, CheckPhase, def.phases[..i]);
    NamedSplit(g, p.s, CheckPhase, def.phases, i);
    assert def.phases[i..][0] == def.phases[i] && def.phases[i..][1..] == def.phases[i + 1..];
  }

  /** Pure checks that bind nothing leave the world and the variables to the reading. */
  lemma LaterLooks(f: Frame, sys: Sys, def: Def, i: nat, a: Args, with: map<string, string>)
    requires TwoSided(f, sys, def, i, a, with)
    ensures Later(f, sys, def, i, a, with).s.sys == Checked(f, sys, Upto(def, i), a, with).s.sys
    ensures Later(f, sys, def, i, a, with).s.vars == Checked(f, sys, Upto(def, i), a, with).s.vars
  {
    var g, s := Inside(f, def), Checked(f, sys, Upto(def, i), a, with).s;
    var f0 := BareFrame(f.m);
    var rest := def.phases[i + 1..];
    forall j | 0 <= j < |rest| && rest[j].name == CheckPhase ensures PureStmts(rest[j].stmts) {
      assert rest[j] == def.phases[i + 1 + j];
    }
    ChecksSame(f0, g, s.(sys := Sys(0, 0, [])), s, rest);
    NamedVars(g, s, CheckPhase, rest);
  }

  /** The reading Status makes, after those checks, is the one the acting run makes. */
  lemma SameAfterLater(f: Frame, sys: Sys, def: Def, i: nat, a: Args, with: map<string, string>)
    requires TwoSided(f, sys, def, i, a, with)
    ensures var late := ReRead(f, def, i, Later(f, sys, def, i, a, with).s);
            var m := Reading(f, sys, def, i, a, with);
            (late.out.Val? <==> m.out.Val?) && (m.out.Val? ==> late.out == m.out)
  {
    LaterLooks(f, sys, def, i, a, with);
    var names := Scope(f, sys, def, i, a, with).Keys;
    var s, t := Checked(f, sys, Upto(def, i), a, with).s, Later(f, sys, def, i, a, with).s;
    assert SameView(names, s, t) && SameView(names, t, s);
  }

  lemma StatusRuns(f: Frame, sys: Sys, def: Def, i: nat, a: Args, with: map<string, string>)
    requires OneObserve(def, i) && f.mode == Status
    requires Checked(f, sys, Upto(def, i), a, with).out == Val(None)
    ensures var later, desired := Later(f, sys, def, i, a, with), Wanted(f, sys, def, a, with);
            EvalDef(f, sys, def, a, with).0 ==
            if !later.out.Val? then Settle(later.PropagateFailure<Result>())
            else if later.out.v.Some? then Done(later.out.v.value)
            else Settle(EvalStatus(Inside(f, def), later.s, desired, def.phases))
  {
    AllChecks(f, sys, def, i, a, with);
  }

  lemma ReportIsOk(f: Frame, s: S, def: Def, i: nat, desired: map<string, string>)
    requires OneObserve(def, i)
    ensures var m := ReRead(f, def, i, s);
            IsOk(Settle(EvalStatus(Inside(f, def), s, desired, def.phases))) <==>
            m.out.Val? && Converged(Observed(m.out.v), desired)
  {
    StatusAt(Inside(f, def), s, desired, def.phases, i);
    var m := ReRead(f, def, i, s);
    if m.out.Val? { DiffAgrees(Observed(m.out.v), desired); }
  }

  /** What Status answers: the later checks' answer, or the reading's report. */
  lemma StatusSays(f: Frame, sys: Sys, def: Def, i: nat, a: Args, with: map<string, string>)
    requires TwoSided(f, sys, def, i, a, with) && f.mode == Status
    requires Checked(f, sys, Upto(def, i), a, with).out == Val(None)
    ensures var later := Later(f, sys, def, i, a, with);
            IsOk(EvalDef(f, sys, def, a, with).0) <==>
            if later.out == Val(None) then Skips(f, sys, def, i, a, with)
            else later.out.Val? && later.out.v.value.category == OK
  {
    StatusRuns(f, sys, def, i, a, with);
    SameAfterLater(f, sys, def, i, a, with);
    ReportIsOk(f, Later(f, sys, def, i, a, with).s, def, i, Wanted(f, sys, def, a, with));
  }

  /** Exactly when the report and the skip part: a check after the observe has an answer, and
      that answer is ok on a state that is not the desired one, or is something else on a state
      that is. When the reading is the desired state the acting run is ok.already at once. */
  lemma DisagreeExactly(f: Frame, sys: Sys, def: Def, i: nat, a: Args, with: map<string, string>)
    requires TwoSided(f, sys, def, i, a, with) && f.mode == Status
    requires Checked(f, sys, Upto(def, i), a, with).out == Val(None)
    ensures var later := Later(f, sys, def, i, a, with);
            var skips := Skips(f, sys, def, i, a, with);
            (IsOk(EvalDef(f, sys, def, a, with).0) <==> skips) <==>
            (later.out == Val(None) || (skips <==> later.out.Val? && later.out.v.value.category == OK))
    ensures Skips(f, sys, def, i, a, with) ==>
              EvalDef(f.(mode := Apply), sys, def, a, with) ==
              (Done(Verdict(OK, "already")), Reading(f.(mode := Apply), sys, def, i, a, with).s.sys)
  {
    StatusSays(f, sys, def, i, a, with);
    SkipsAlike(f, sys, def, i, a, with);
    ApplyIs(f.(mode := Apply), sys, def, i, a, with);
  }

  /** The acting run makes the same reading. */
  lemma SkipsAlike(f: Frame, sys: Sys, def: Def, i: nat, a: Args, with: map<string, string>)
    requires TwoSided(f, sys, def, i, a, with) && f.mode == Status
    ensures var fa := f.(mode := Apply);
            && Checked(fa, sys, Upto(def, i), a, with).out == Checked(f, sys, Upto(def, i), a, with).out
            && (Skips(fa, sys, def, i, a, with) <==> Skips(f, sys, def, i, a, with))
  {
    var fa := f.(mode := Apply);
    var up := Upto(def, i);
    forall j | 0 <= j < |up.phases| && up.phases[j].name == CheckPhase ensures PureStmts(up.phases[j].stmts) {
      assert up.phases[j] == def.phases[j];
    }
    CheckedSame(f, sys, fa, sys, up, a, with);
    var s := Checked(f, sys, up, a, with).s;
    ObserveMode(In(Inside(f, def), ObservePhase), In(Inside(fa, def), ObservePhase), s, def.phases[i].stmts);
  }
}
