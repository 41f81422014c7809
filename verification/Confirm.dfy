/** A changed verdict was seen in the state: confirmation, the second run that finds nothing
    to do, and the report that agrees with it. */
module Confirm {
  import opened Basics
  import opened Ast
  import opened Eval
  import opened EarlyRefusal
  import opened Front

  // --- the two readings of an observation ---

  /** The report of those names: its entries follow them. */
  ghost predicate Listed(d: seq<FieldDiff>, names: seq<string>, observed: map<string, string>) {
    |d| == |names| && forall k :: 0 <= k < |d| ==>
      d[k].name == names[k] && names[k] in observed && d[k].current == observed[names[k]]
  }

  ghost predicate AllConverged(names: seq<string>, observed: map<string, string>, desired: map<string, string>) {
    forall n :: n in names ==> n in observed && FieldConverged(n, observed[n], desired)
  }

  lemma {:induction false} MissedDiffs(names: seq<string>, observed: map<string, string>, desired: map<string, string>)
    requires forall n :: n in names ==> n in observed
    ensures Listed(Diffs(names, observed, desired), names, observed)
    ensures Missed(Diffs(names, observed, desired)) == [] <==> AllConverged(names, observed, desired)
  {
    if names != [] {
      MissedDiffs(names[1..], observed, desired);
      assert forall n :: n in names <==> n == names[0] || n in names[1..];
    }
  }

  lemma AllIsConverged(names: seq<string>, observed: map<string, string>, desired: map<string, string>)
    requires Elems(names) == observed.Keys
    ensures AllConverged(names, observed, desired) <==> Converged(observed, desired)
    ensures forall n :: n in names ==> n in observed
  {
    assert forall n :: n in names <==> n in Elems(names);
  }

  /** The report has one entry per observed field, in name order, and it is clean exactly
      when the skip decision calls the state converged. */
  lemma DiffAgrees(observed: map<string, string>, desired: map<string, string>)
    ensures Listed(DiffFields(observed, desired), SortedSeq(observed.Keys), observed)
    ensures Missed(DiffFields(observed, desired)) == [] <==> Converged(observed, desired)
  {
    AllIsConverged(SortedSeq(observed.Keys), observed, desired);
    MissedDiffs(SortedSeq(observed.Keys), observed, desired);
  }

  // --- what a phase leaves in scope ---

  ghost function StmtLets(st: Stmt): set<string> {
    match st
    case Let(x, _) => {x}
    case If(_, body) => StmtsLets(body)
    case _ => {}
  }

  ghost function StmtsLets(stmts: seq<Stmt>): set<string> {
    if stmts == [] then {} else StmtLets(stmts[0]) + StmtsLets(stmts[1..])
  }

  ghost function PhasesLets(phases: seq<Phase>): set<string> {
    if phases == [] then {} else StmtsLets(phases[0].stmts) + PhasesLets(phases[1..])
  }

  ghost function NamedLets(phases: seq<Phase>, name: PhaseName): set<string> {
    if phases == [] then {}
    else (if phases[0].name == name then StmtsLets(phases[0].stmts) else {}) + NamedLets(phases[1..], name)
  }

  lemma {:induction false} ExprVars(f: Frame, s: S, e: Expr)
    ensures EvalExpr(f, s, e).s.vars == s.vars
    decreases e, 2
  {
    match e
    case Field(x, _) => ExprVars(f, s, x);
    case Compare(_, l, r) =>
      ExprVars(f, s, l);
      if EvalExpr(f, s, l).out.Val? { ExprVars(f, EvalExpr(f, s, l).s, r); }
    case Not(x) => ExprVars(f, s, x);
    case Primitive(_, _) => PrimitiveVars(f, s, e);
    case Call(name, args) => CallVars(f, s, name, args);
    case _ =>
  }

  lemma {:induction false} PrimitiveVars(f: Frame, s: S, e: Expr)
    requires e.Primitive?
    ensures EvalPrimitive(f, s, e).s.vars == s.vars
    decreases e, 1
  {
    if |e.args| == PrimitiveArity(e.name) {
      assert forall i :: 0 <= i < |e.args| ==> e.args[i] in e.args;
      if IsText(e.name) {
        TextVars(f, s, e);
      } else if f.channel && f.exec.Some? {
        ExprVars(f, s, e.args[0]);
        var a := EvalExpr(f, s, e.args[0]);
        if a.out.Val? {
          if e.name == "dir.sync" { SyncVars(f, a.s, e, a.out.v); }
          if e.name == "file.write" && a.out.v.VStr? { ExprVars(f, a.s, e.args[1]); }
        }
      }
    }
  }

  lemma {:induction false} TextVars(f: Frame, s: S, e: Expr)
    requires e.Primitive? && |e.args| == PrimitiveArity(e.name) && IsText(e.name)
    ensures EvalText(f, s, e).s.vars == s.vars
    decreases e, 0
  {
    assert forall i :: 0 <= i < |e.args| ==> e.args[i] in e.args;
    ExprVars(f, s, e.args[0]);
    var a := EvalExpr(f, s, e.args[0]);
    if a.out.Val? {
      ExprVars(f, a.s, e.args[1]);
      var b := EvalExpr(f, a.s, e.args[1]);
      if b.out.Val? && |e.args| > 2 { ExprVars(f, b.s, e.args[2]); }
    }
  }

  lemma {:induction false} SyncVars(f: Frame, s: S, e: Expr, v: Value)
    requires e.Primitive? && |e.args| == 4 && f.exec.Some?
    ensures EvalSync(f, s, e, v).s.vars == s.vars
    decreases e, 0
  {
    assert forall i :: 0 <= i < |e.args| ==> e.args[i] in e.args;
    if v.VPath? {
      ExprVars(f, s, e.args[1]);
      var d := EvalExpr(f, s, e.args[1]);
      if d.out.Val? {
        ExprVars(f, d.s, e.args[2]);
        var x := EvalExpr(f, d.s, e.args[2]);
        if x.out.Val? { ExprVars(f, x.s, e.args[3]); }
      }
    }
  }

  lemma {:induction false} ArgsVars(f: Frame, s: S, args: seq<Expr>, params: seq<Param>, acc: Args)
    requires |args| <= |params|
    ensures EvalArgs(f, s, args, params, acc).s.vars == s.vars
    decreases args, 0
  {
    if args != [] {
      ExprVars(f, s, args[0]);
      var r := EvalExpr(f, s, args[0]);
      if r.out.Val? && !r.out.v.VBytes? && TypeHolds(params[0], r.out.v) {
        var name := params[0].name;
        ArgsVars(f, r.s, args[1..], params[1..],
                 Args(acc.values[name := Stringify(r.out.v)],
                      if r.out.v.VPath? then acc.control + [name] else acc.control));
      }
    }
  }

  lemma {:induction false} CallVars(f: Frame, s: S, name: string, args: seq<Expr>)
    ensures EvalCall(f, s, name, args).s.vars == s.vars
    decreases args, 1
  {
    if name !in f.stack && name in f.defs && RequiredCount(f.defs[name].params) <= |args| <= |f.defs[name].params| {
      ArgsVars(f, s, args, f.defs[name].params, Args(map[], []));
    }
  }

  /** The bindings v0 are still in scope. */
  ghost predicate Over(v0: Vars, s: S) {
    forall k :: k in v0 ==> k in s.vars && s.vars[k] == v0[k]
  }

  lemma LetOver(v0: Vars, s: S, x: string, v: Value)
    requires Over(v0, s) && x !in v0
    ensures Over(v0, s.(vars := s.vars[x := v]))
  {
  }

  lemma {:induction false} StmtOver(f: Frame, s: S, st: Stmt, v0: Vars)
    requires Over(v0, s) && StmtLets(st) !! v0.Keys
    ensures Over(v0, EvalStmt(f, s, st).s)
    decreases st, 0
  {
    match st
    case Let(x, e) =>
      ExprVars(f, s, e);
      var r := EvalExpr(f, s, e);
      if r.out.Val? { LetOver(v0, r.s, x, r.out.v); }
    case Effect(e) => ExprVars(f, s, e);
    case If(c, body) =>
      ExprVars(f, s, c);
      var r := EvalExpr(f, s, c);
      if r.out.Val? && Truthy(r.out.v) { StmtsOver(f, r.s, body, v0); }
    case _ =>
  }

  lemma {:induction false} StmtsOver(f: Frame, s: S, stmts: seq<Stmt>, v0: Vars)
    requires Over(v0, s) && StmtsLets(stmts) !! v0.Keys
    ensures Over(v0, EvalStmts(f, s, stmts).s)
    decreases stmts, 0
  {
    if stmts != [] {
      StmtOver(f, s, stmts[0], v0);
      var r := EvalStmt(f, s, stmts[0]);
      if r.out.Val? && r.out.v.None? { StmtsOver(f, r.s, stmts[1..], v0); }
    }
  }

  lemma {:induction false} FieldsVars(f: Frame, s: S, fields: seq<StateField>, acc: map<string, string>)
    ensures EvalFields(f, s, fields, acc).s.vars == s.vars
    decreases fields
  {
    if fields != [] {
      ExprVars(f, s, fields[0].value);
      var r := EvalExpr(f, s, fields[0].value);
      if r.out.Val? { FieldsVars(f, r.s, fields[1..], acc[fields[0].name := TrimRight(Stringify(r.out.v))]); }
    }
  }

  lemma {:induction false} ObserveOver(f: Frame, s: S, stmts: seq<Stmt>, v0: Vars)
    requires Over(v0, s) && StmtsLets(stmts) !! v0.Keys
    ensures Over(v0, EvalObserve(f, s, stmts).s)
    decreases stmts
  {
    if stmts != [] {
      match stmts[0]
      case Let(x, e) =>
        ExprVars(f, s, e);
        var r := EvalExpr(f, s, e);
        if r.out.Val? {
          LetOver(v0, r.s, x, r.out.v);
          ObserveOver(f, r.s.(vars := r.s.vars[x := r.out.v]), stmts[1..], v0);
        }
      case Effect(e) =>
        ExprVars(f, s, e);
        var r := EvalExpr(f, s, e);
        if r.out.Val? { ObserveOver(f, r.s, stmts[1..], v0); }
      case If(c, body) =>
        ExprVars(f, s, c);
        var r := EvalExpr(f, s, c);
        if r.out.Val? {
          if Truthy(r.out.v) {
            ObserveOver(f, r.s, body, v0);
            var m := EvalObserve(f, r.s, body);
            if m.out.Val? && m.out.v.None? { ObserveOver(f, m.s, stmts[1..], v0); }
          } else {
            ObserveOver(f, r.s, stmts[1..], v0);
          }
        }
      case StateReturn(fields) => FieldsVars(f, s, fields, map[]);
      case Return(_) => ObserveOver(f, s, stmts[1..], v0);
    }
  }

  lemma PhaseOver(f: Frame, s: S, p: Phase, v0: Vars)
    requires Over(v0, s) && StmtsLets(p.stmts) !! v0.Keys
    ensures Over(v0, RunPhase(f, s, p).s)
    ensures RunPhase(f, s, p).out.Val? && RunPhase(f, s, p).out.v.Some? ==> !RunPhase(f, s, p).out.v.value.changed
  {
    var g := In(f, p.name);
    StmtsOver(g, s, p.stmts, v0);
    var r := EvalStmts(g, s, p.stmts);
    if r.out.Val? && r.out.v.Some? {
      var o := r.out.v.value;
      if o.payload.Some? { ExprVars(g, r.s, o.payload.value); }
    }
  }

  lemma {:induction false} NamedOver(f: Frame, s: S, name: PhaseName, phases: seq<Phase>, v0: Vars)
    requires Over(v0, s) && NamedLets(phases, name) !! v0.Keys
    ensures Over(v0, EvalNamed(f, s, name, phases).s)
    ensures EvalNamed(f, s, name, phases).out.Val? && EvalNamed(f, s, name, phases).out.v.Some? ==>
            !EvalNamed(f, s, name, phases).out.v.value.changed
    decreases |phases|
  {
    if phases != [] {
      if phases[0].name != name {
        NamedOver(f, s, name, phases[1..], v0);
      } else {
        PhaseOver(f, s, phases[0], v0);
        var r := RunPhase(f, s, phases[0]);
        if r.out.Val? && r.out.v.None? { NamedOver(f, r.s, name, phases[1..], v0); }
      }
    }
  }

  lemma {:induction false} DecideOver(f: Frame, s: S, def: Def, desired: map<string, string>, phases: seq<Phase>,
      v0: Vars)
    requires Over(v0, s) && PhasesLets(phases) !! v0.Keys
    ensures Over(v0, EvalDecide(f, s, def, desired, phases).s)
    ensures EvalDecide(f, s, def, desired, phases).out.Val? && EvalDecide(f, s, def, desired, phases).out.v.Some? ==>
            !EvalDecide(f, s, def, desired, phases).out.v.value.changed
    decreases |phases|
  {
    if phases != [] {
      var p := phases[0];
      if p.name == CheckPhase { PhaseOver(f, s, p, v0); }
      if p.name == ObservePhase { ObserveOver(In(f, ObservePhase), s, p.stmts, v0); }
      var r := DecidePhase(f, s, def, desired, p);
      if r.out.Val? && r.out.v.None? { DecideOver(f, r.s, def, desired, phases[1..], v0); }
    }
  }
}
