/** The report against the run: Status says OK exactly where Apply would skip. */
module StatusReport {
  import opened Basics
  import opened Ast
  import opened Eval
  import opened EarlyRefusal
  import opened Front
  import opened Confirm
  import opened SecondRun

  /** Nothing whose behaviour depends on whether the run acts: no call, no write. */
  ghost predicate ModeFree(e: Expr) {
    match e
    case Call(_, _) => false
    case Primitive(n, args) => n != "file.write" && forall a :: a in args ==> ModeFree(a)
    case Compare(_, l, r) => ModeFree(l) && ModeFree(r)
    case Not(x) => ModeFree(x)
    case Field(x, _) => ModeFree(x)
    case _ => true
  }

  ghost predicate ModeFreeStmt(st: Stmt) {
    match st
    case Let(_, e) => ModeFree(e)
    case Effect(e) => ModeFree(e)
    case If(c, body) => ModeFree(c) && forall b :: b in body ==> ModeFreeStmt(b)
    case Return(o) => o.payload.Some? ==> ModeFree(o.payload.value)
    case StateReturn(fields) => forall x :: x in fields ==> ModeFree(x.value)
  }

  ghost predicate ModeFreeStmts(stmts: seq<Stmt>) {
    forall b :: b in stmts ==> ModeFreeStmt(b)
  }

  /** The same evaluation, once reporting and once acting. */
  ghost predicate Modes(fs: Frame, fa: Frame) {
    fs.mode == Status && fa == fs.(mode := Apply)
  }

  lemma {:induction false} ExprMode(fs: Frame, fa: Frame, s: S, e: Expr)
    requires Modes(fs, fa) && ModeFree(e)
    ensures EvalExpr(fs, s, e) == EvalExpr(fa, s, e)
    decreases e, 2
  {
    match e
    case Field(x, _) => ExprMode(fs, fa, s, x);
    case Compare(_, l, r) =>
      ExprMode(fs, fa, s, l);
      if EvalExpr(fs, s, l).out.Val? { ExprMode(fs, fa, EvalExpr(fs, s, l).s, r); }
    case Not(x) => ExprMode(fs, fa, s, x);
    case Primitive(_, _) => PrimitiveMode(fs, fa, s, e);
    case _ =>
  }

  lemma {:induction false} PrimitiveMode(fs: Frame, fa: Frame, s: S, e: Expr)
    requires Modes(fs, fa) && ModeFree(e) && e.Primitive?
    ensures EvalPrimitive(fs, s, e) == EvalPrimitive(fa, s, e)
    decreases e, 1
  {
    if |e.args| == PrimitiveArity(e.name) {
      assert forall i :: 0 <= i < |e.args| ==> e.args[i] in e.args;
      if IsText(e.name) {
        TextMode(fs, fa, s, e);
      } else if fs.channel && fs.exec.Some? {
        ExprMode(fs, fa, s, e.args[0]);
        var a := EvalExpr(fs, s, e.args[0]);
        if a.out.Val? && e.name == "dir.sync" { SyncMode(fs, fa, a.s, e, a.out.v); }
      }
    }
  }

  lemma {:induction false} TextMode(fs: Frame, fa: Frame, s: S, e: Expr)
    requires Modes(fs, fa) && ModeFree(e) && e.Primitive? && |e.args| == PrimitiveArity(e.name) && IsText(e.name)
    ensures EvalText(fs, s, e) == EvalText(fa, s, e)
    decreases e, 0
  {
    assert forall i :: 0 <= i < |e.args| ==> e.args[i] in e.args;
    ExprMode(fs, fa, s, e.args[0]);
    var a := EvalExpr(fs, s, e.args[0]);
    if a.out.Val? {
      ExprMode(fs, fa, a.s, e.args[1]);
      var b := EvalExpr(fs, a.s, e.args[1]);
      if b.out.Val? && |e.args| > 2 { ExprMode(fs, fa, b.s, e.args[2]); }
    }
  }

  lemma {:induction false} SyncMode(fs: Frame, fa: Frame, s: S, e: Expr, v: Value)
    requires Modes(fs, fa) && ModeFree(e) && e.Primitive? && |e.args| == 4 && fs.exec.Some?
    ensures EvalSync(fs, s, e, v) == EvalSync(fa, s, e, v)
    decreases e, 0
  {
    assert forall i :: 0 <= i < |e.args| ==> e.args[i] in e.args;
    if v.VPath? {
      ExprMode(fs, fa, s, e.args[1]);
      var d := EvalExpr(fs, s, e.args[1]);
      if d.out.Val? {
        ExprMode(fs, fa, d.s, e.args[2]);
        var x := EvalExpr(fs, d.s, e.args[2]);
        if x.out.Val? { ExprMode(fs, fa, x.s, e.args[3]); }
      }
    }
  }

  lemma {:induction false} StmtMode(fs: Frame, fa: Frame, s: S, st: Stmt)
    requires Modes(fs, fa) && ModeFreeStmt(st)
    ensures EvalStmt(fs, s, st) == EvalStmt(fa, s, st)
    ensures var r := EvalStmt(fs, s, st);
            r.out.Val? && r.out.v.Some? && r.out.v.value.payload.Some? ==> ModeFree(r.out.v.value.payload.value)
    decreases st, 0
  {
    match st
    case Let(_, e) => ExprMode(fs, fa, s, e);
    case Effect(e) => ExprMode(fs, fa, s, e);
    case If(c, body) =>
      ExprMode(fs, fa, s, c);
      var r := EvalExpr(fs, s, c);
      if r.out.Val? && Truthy(r.out.v) { StmtsMode(fs, fa, r.s, body); }
    case _ =>
  }

  lemma {:induction false} StmtsMode(fs: Frame, fa: Frame, s: S, stmts: seq<Stmt>)
    requires Modes(fs, fa) && ModeFreeStmts(stmts)
    ensures EvalStmts(fs, s, stmts) == EvalStmts(fa, s, stmts)
    ensures var r := EvalStmts(fs, s, stmts);
            r.out.Val? && r.out.v.Some? && r.out.v.value.payload.Some? ==> ModeFree(r.out.v.value.payload.value)
    decreases stmts, 0
  {
    if stmts != [] {
      assert ModeFreeStmt(stmts[0]);
      StmtMode(fs, fa, s, stmts[0]);
      var r := EvalStmt(fs, s, stmts[0]);
      if r.out.Val? && r.out.v.None? { StmtsMode(fs, fa, r.s, stmts[1..]); }
    }
  }

  lemma PhaseMode(fs: Frame, fa: Frame, s: S, p: Phase)
    requires Modes(fs, fa) && ModeFreeStmts(p.stmts)
    ensures RunPhase(fs, s, p) == RunPhase(fa, s, p)
  {
    var gs, ga := In(fs, p.name), In(fa, p.name);
    StmtsMode(gs, ga, s, p.stmts);
    var r := EvalStmts(gs, s, p.stmts);
    if r.out.Val? && r.out.v.Some? {
      var o := r.out.v.value;
      if o.payload.Some? { ExprMode(gs, ga, r.s, o.payload.value); }
    }
  }

  lemma {:induction false} ChecksMode(fs: Frame, fa: Frame, s: S, phases: seq<Phase>)
    requires Modes(fs, fa)
    requires forall j :: 0 <= j < |phases| && phases[j].name == CheckPhase ==> ModeFreeStmts(phases[j].stmts)
    ensures EvalNamed(fs, s, CheckPhase, phases) == EvalNamed(fa, s, CheckPhase, phases)
    decreases |phases|
  {
    if phases != [] {
      if phases[0].name == CheckPhase {
        PhaseMode(fs, fa, s, phases[0]);
        var r := RunPhase(fs, s, phases[0]);
        if r.out.Val? && r.out.v.None? { ChecksMode(fs, fa, r.s, phases[1..]); }
      } else {
        ChecksMode(fs, fa, s, phases[1..]);
      }
    }
  }

  lemma {:induction false} DefaultsMode(fs: Frame, fa: Frame, s: S, params: seq<Param>)
    requires Modes(fs, fa)
    requires forall p :: p in params && p.default.Some? ==> ModeFree(p.default.value)
    ensures EvalDefaults(fs, s, params) == EvalDefaults(fa, s, params)
    decreases params
  {
    if params != [] {
      if params[0].name in s.vars || params[0].default.None? {
        DefaultsMode(fs, fa, s, params[1..]);
      } else {
        var e := params[0].default.value;
        ExprMode(fs, fa, s, e);
        var r := EvalExpr(fs, s, e);
        if r.out.Val? { DefaultsMode(fs, fa, r.s.(vars := r.s.vars[params[0].name := r.out.v]), params[1..]); }
      }
    }
  }

  lemma {:induction false} FieldsMode(fs: Frame, fa: Frame, s: S, fields: seq<StateField>, acc: map<string, string>)
    requires Modes(fs, fa) && forall x :: x in fields ==> ModeFree(x.value)
    ensures EvalFields(fs, s, fields, acc) == EvalFields(fa, s, fields, acc)
    decreases fields
  {
    if fields != [] {
      ExprMode(fs, fa, s, fields[0].value);
      var r := EvalExpr(fs, s, fields[0].value);
      if r.out.Val? { FieldsMode(fs, fa, r.s, fields[1..], acc[fields[0].name := TrimRight(Stringify(r.out.v))]); }
    }
  }

  lemma {:induction false} ObserveMode(fs: Frame, fa: Frame, s: S, stmts: seq<Stmt>)
    requires Modes(fs, fa) && ModeFreeStmts(stmts)
    ensures EvalObserve(fs, s, stmts) == EvalObserve(fa, s, stmts)
    decreases stmts
  {
    if stmts != [] {
      assert ModeFreeStmt(stmts[0]);
      match stmts[0]
      case Let(x, e) =>
        ExprMode(fs, fa, s, e);
        var r := EvalExpr(fs, s, e);
        if r.out.Val? { ObserveMode(fs, fa, r.s.(vars := r.s.vars[x := r.out.v]), stmts[1..]); }
      case Effect(e) =>
        ExprMode(fs, fa, s, e);
        var r := EvalExpr(fs, s, e);
        if r.out.Val? { ObserveMode(fs, fa, r.s, stmts[1..]); }
      case If(c, body) =>
        ExprMode(fs, fa, s, c);
        var r := EvalExpr(fs, s, c);
        if r.out.Val? {
          if Truthy(r.out.v) {
            ObserveMode(fs, fa, r.s, body);
            var m := EvalObserve(fs, r.s, body);
            if m.out.Val? && m.out.v.None? { ObserveMode(fs, fa, m.s, stmts[1..]); }
          } else {
            ObserveMode(fs, fa, r.s, stmts[1..]);
          }
        }
      case StateReturn(fields) => FieldsMode(fs, fa, s, fields, map[]);
      case Return(_) => ObserveMode(fs, fa, s, stmts[1..]);
    }
  }

  // --- the report and the decision ---

  /** One observe, after every check, and a decision no mode changes. */
  ghost predicate Reportable(def: Def, i: nat) {
    && OneObserve(def, i)
    && (forall j :: i < j < |def.phases| ==> def.phases[j].name != CheckPhase)
    && (forall j :: 0 <= j < |def.phases| && (def.phases[j].name == CheckPhase || j == i) ==>
        ModeFreeStmts(def.phases[j].stmts))
    && (forall p :: p in def.params && p.default.Some? ==> ModeFree(p.default.value))
  }

  lemma {:induction false} ChecksBefore(f: Frame, s: S, phases: seq<Phase>, i: nat)
    requires i <= |phases| && forall j :: i <= j < |phases| ==> phases[j].name != CheckPhase
    ensures EvalNamed(f, s, CheckPhase, phases) == EvalNamed(f, s, CheckPhase, phases[..i])
    decreases |phases|
  {
    if phases != [] {
      if i == 0 {
        assert phases[1..][..0] == phases[..0];
        ChecksBefore(f, s, phases[1..], 0);
      } else {
        assert phases[..i][0] == phases[0] && phases[..i][1..] == phases[1..][..i - 1];
        if phases[0].name == CheckPhase {
          var r := RunPhase(f, s, phases[0]);
          if r.out.Val? && r.out.v.None? { ChecksBefore(f, r.s, phases[1..], i - 1); }
        } else {
          ChecksBefore(f, s, phases[1..], i - 1);
        }
      }
    }
  }

  ghost function Reported(m: R<Option<map<string, string>>>, desired: map<string, string>): R<Result> {
    if m.out.Val? then R(Val(StatusOf(DiffFields(Observed(m.out.v), desired))), m.s) else m.PropagateFailure<Result>()
  }

  lemma StatusHead(f: Frame, s: S, desired: map<string, string>, phases: seq<Phase>)
    requires phases != []
    ensures EvalStatus(f, s, desired, phases) ==
            if phases[0].name == ObservePhase
              then Reported(EvalObserve(In(f, ObservePhase), s, phases[0].stmts), desired)
            else EvalStatus(f, s, desired, phases[1..])
  {
  }

  lemma {:induction false} StatusSkips(f: Frame, s: S, desired: map<string, string>, phases: seq<Phase>, k: nat)
    requires k <= |phases| && forall j :: 0 <= j < k ==> phases[j].name != ObservePhase
    ensures EvalStatus(f, s, desired, phases) == EvalStatus(f, s, desired, phases[k..])
    decreases k
  {
    if k > 0 {
      var rest := phases[k - 1..];
      StatusSkips(f, s, desired, phases, k - 1);
      StatusHead(f, s, desired, rest);
      assert rest[0] == phases[k - 1] && rest[1..] == phases[k..];
    } else {
      assert phases[0..] == phases;
    }
  }

  lemma StatusAt(f: Frame, s: S, desired: map<string, string>, phases: seq<Phase>, i: nat)
    requires i < |phases| && phases[i].name == ObservePhase
    requires forall j :: 0 <= j < i ==> phases[j].name != ObservePhase
    ensures EvalStatus(f, s, desired, phases) == Reported(EvalObserve(In(f, ObservePhase), s, phases[i].stmts), desired)
  {
    StatusSkips(f, s, desired, phases, i);
    StatusHead(f, s, desired, phases[i..]);
  }

  /** What Status answers, in terms of the reading. */
  lemma StatusIs(f: Frame, sys: Sys, def: Def, i: nat, a: Args, with: map<string, string>)
    requires Reportable(def, i) && f.mode == Status
    requires Checked(f, sys, Upto(def, i), a, with).out == Val(None)
    ensures var m := Reading(f, sys, def, i, a, with);
            EvalDef(f, sys, def, a, with) == (Settle(Reported(m, Wanted(f, sys, def, a, with))), m.s.sys)
  {
    var g := Inside(f, def);
    var p := EvalPrologue(g, sys, def, a, with);
    assert Checked(f, sys, Upto(def, i), a, with) == EvalNamed(g, p.s, CheckPhase, def.phases[..i]);
    ChecksBefore(g, p.s, def.phases, i);
    StatusAt(g, Checked(f, sys, Upto(def, i), a, with).s, Wanted(f, sys, def, a, with), def.phases, i);
  }

  /** What the acting run decides, in terms of the same reading. */
  lemma ApplyIs(f: Frame, sys: Sys, def: Def, i: nat, a: Args, with: map<string, string>)
    requires OneObserve(def, i) && f.mode == Apply
    requires Checked(f, sys, Upto(def, i), a, with).out == Val(None)
    ensures var m := Reading(f, sys, def, i, a, with);
            (!m.out.Val? ==> EvalDef(f, sys, def, a, with) == (Settle(m.PropagateFailure<Result>()), m.s.sys)) &&
            (m.out.Val? && Converged(Observed(m.out.v), Wanted(f, sys, def, a, with)) ==>
               EvalDef(f, sys, def, a, with) == (Done(Verdict(OK, "already")), m.s.sys) &&
                   ApplyPass(f, sys, def, a, with).None?)
  {
    var g := Inside(f, def);
    var p := EvalPrologue(g, sys, def, a, with);
    assert Checked(f, sys, Upto(def, i), a, with) == EvalNamed(g, p.s, CheckPhase, def.phases[..i]);
    DecideAt(g, p.s, def, Wanted(f, sys, def, a, with), def.phases, i);
  }

  /** With no check after the observe, an unconverged reading is what starts the apply. */
  lemma {:induction false} RestDecidesNothing(f: Frame, s: S, def: Def, desired: map<string, string>,
      phases: seq<Phase>)
    requires forall j :: 0 <= j < |phases| ==> phases[j].name != CheckPhase && phases[j].name != ObservePhase
    ensures EvalDecide(f, s, def, desired, phases) == R(Val(None), s)
    decreases |phases|
  {
    if phases != [] { RestDecidesNothing(f, s, def, desired, phases[1..]); }
  }

  lemma ApplyRunsOn(f: Frame, sys: Sys, def: Def, i: nat, a: Args, with: map<string, string>)
    requires Reportable(def, i) && f.mode == Apply
    requires Checked(f, sys, Upto(def, i), a, with).out == Val(None)
    requires var m := Reading(f, sys, def, i, a, with);
             m.out.Val? && !Converged(Observed(m.out.v), Wanted(f, sys, def, a, with))
    ensures ApplyPass(f, sys, def, a, with).Some?
  {
    var g := Inside(f, def);
    var p := EvalPrologue(g, sys, def, a, with);
    assert Checked(f, sys, Upto(def, i), a, with) == EvalNamed(g, p.s, CheckPhase, def.phases[..i]);
    DecideAt(g, p.s, def, Wanted(f, sys, def, a, with), def.phases, i);
    RestDecidesNothing(g, Reading(f, sys, def, i, a, with).s, def, Wanted(f, sys, def, a, with), def.phases[i + 1..]);
  }

  lemma SameReading(fs: Frame, fa: Frame, sys: Sys, def: Def, i: nat, a: Args, with: map<string, string>)
    requires Modes(fs, fa) && Reportable(def, i)
    ensures Checked(fs, sys, Upto(def, i), a, with) == Checked(fa, sys, Upto(def, i), a, with)
    ensures Reading(fs, sys, def, i, a, with) == Reading(fa, sys, def, i, a, with)
    ensures Wanted(fs, sys, def, a, with) == Wanted(fa, sys, def, a, with)
  {
    var gs, ga := Inside(fs, def), Inside(fa, def);
    DefaultsMode(gs, ga, S(MarkControl(Bound(a.values), a.control), VNone, false, sys), def.params);
    var p := EvalPrologue(gs, sys, def, a, with);
    ChecksMode(gs, ga, p.s, def.phases[..i]);
    ObserveMode(In(gs, ObservePhase), In(ga, ObservePhase), Checked(fs, sys, Upto(def, i), a, with).s,
        def.phases[i].stmts);
  }

  /** On the same world, for a def whose checks let the call through and whose reading
      succeeds, Status answers OK exactly when the acting run skips its apply: OK means it
      ends with ok.already where Status ended, and drift means it goes on to its apply. When
      the reading fails, both runs fail the same way. */
  lemma StatusIsTheSkip(f: Frame, sys: Sys, def: Def, i: nat, a: Args, with: map<string, string>)
    requires Reportable(def, i) && f.mode == Status
    requires Checked(f, sys, Upto(def, i), a, with).out == Val(None)
    ensures var fa := f.(mode := Apply);
            var report, run := EvalDef(f, sys, def, a, with), EvalDef(fa, sys, def, a, with);
            if !Reading(f, sys, def, i, a, with).out.Val? then report == run
            else
              && report.0.Done? && (report.0.res.category == OK || report.0.res.category == WOULD)
              && (report.0.res.category == OK <==> ApplyPass(fa, sys, def, a, with).None?)
              && (report.0.res.category == OK ==> run == (Done(Verdict(OK, "already")), report.1))
  {
    var fa := f.(mode := Apply);
    SameReading(f, fa, sys, def, i, a, with);
    StatusIs(f, sys, def, i, a, with);
    ApplyIs(fa, sys, def, i, a, with);
    var m := Reading(f, sys, def, i, a, with);
    if m.out.Val? {
      DiffAgrees(Observed(m.out.v), Wanted(f, sys, def, a, with));
      if !Converged(Observed(m.out.v), Wanted(f, sys, def, a, with)) { ApplyRunsOn(fa, sys, def, i, a, with); }
    }
  }

  /** A call the checks refuse is refused by both, alike. */
  lemma StatusRefusesAlike(f: Frame, sys: Sys, def: Def, i: nat, a: Args, with: map<string, string>)
    requires Reportable(def, i) && f.mode == Status
    requires Checked(f, sys, Upto(def, i), a, with).out != Val(None)
    ensures EvalDef(f, sys, def, a, with) == EvalDef(f.(mode := Apply), sys, def, a, with)
  {
    var fa := f.(mode := Apply);
    SameReading(f, fa, sys, def, i, a, with);
    var g, ga := Inside(f, def), Inside(fa, def);
    DefaultsMode(g, ga, S(MarkControl(Bound(a.values), a.control), VNone, false, sys), def.params);
    var p := EvalPrologue(g, sys, def, a, with);
    if p.out.Val? {
      assert Checked(f, sys, Upto(def, i), a, with) == EvalNamed(g, p.s, CheckPhase, def.phases[..i]);
      ChecksBefore(g, p.s, def.phases, i);
      DecideAt(ga, p.s, def, Wanted(fa, sys, def, a, with), def.phases, i);
    }
  }

  /** After a confirmed change the report is clean: Status on the world that run left
      answers OK with no field off. */
  lemma StatusAfterChange(f: Frame, sys: Sys, sys2: Sys, def: Def, i: nat, a: Args, with: map<string, string>)
    requires Reportable(def, i) && PureFront(Upto(def, i)) && f.mode == Apply
    requires ChangedOk(EvalDef(f, sys, def, a, with).0) && Lasting(f, sys, def, i, a, with)
    requires sys2.w == EvalDef(f, sys, def, a, with).1.w
    ensures var r := EvalDef(f.(mode := Status), sys2, def, a, with).0;
            r.Done? && r.res.category == OK && Missed(r.res.fields) == []
  {
    var fs := f.(mode := Status);
    NextReading(f, sys, sys2, def, i, a, with);
    SameReading(fs, f, sys2, def, i, a, with);
    StatusIs(fs, sys2, def, i, a, with);
    DiffAgrees(Observed(Reading(f, sys2, def, i, a, with).out.v), Wanted(f, sys2, def, a, with));
  }

  // --- a check written after the observe ---

  /** A def whose observe comes before a check that refuses. */
  function Backwards(): Def {
    Def([], "", "",
        [Phase(ObservePhase, [StateReturn([StateField("ready", BoolLit(true))])]),
         Phase(CheckPhase, [Return(Outcome(ERR, "refused", None))])],
        None)
  }

  lemma BackwardsStart(g: Frame, sys: Sys)
    ensures EvalPrologue(g, sys, Backwards(), Args(map[], []), map[]) == R(Val(()), S(map[], VNone, false, sys))
  {
    var s := S(map[], VNone, false, sys);
    assert MarkControl(Bound(map[]), []) == map[] && Bound(map[]) == map[];
    assert EvalDefaults(g, s, []) == R(Val(()), s);
  }

  lemma RefusingCheck(g: Frame, s: S)
    ensures EvalNamed(g, s, CheckPhase, Backwards().phases) == R(Val(Some(Verdict(ERR, "refused"))), s)
  {
    var p := Backwards().phases;
    var o := Outcome(ERR, "refused", None);
    var h := In(g, CheckPhase);
    assert EvalStmt(h, s, Return(o)) == R(Val(Some(o)), s);
    assert EvalStmts(h, s, [Return(o)]) == R(Val(Some(o)), s);
    assert ToResult(h, s, o) == R(Val(Verdict(ERR, "refused")), s);
    assert RunPhase(g, s, p[1]) == R(Val(Some(Verdict(ERR, "refused"))), s);
    assert EvalNamed(g, s, CheckPhase, p[1..]) == R(Val(Some(Verdict(ERR, "refused"))), s);
  }

  lemma ReadyObserve(h: Frame, s: S)
    ensures EvalObserve(h, s, Backwards().phases[0].stmts) == R(Val(Some(map["ready" := "true"])), s)
  {
    var fields := [StateField("ready", BoolLit(true))];
    var acc: map<string, string> := map[];
    assert EvalExpr(h, s, BoolLit(true)) == R(Val(VBool(true)), s);
    assert TrimRight("true") == "true";
    assert acc["ready" := "true"] == map["ready" := "true"];
    assert EvalFields(h, s, fields[1..], map["ready" := "true"]) == R(Val(map["ready" := "true"]), s);
    assert EvalFields(h, s, fields, map[]) == R(Val(map["ready" := "true"]), s);
  }

  /** Status runs every check first, Apply runs the phases in order: when a check comes after
      the observe, the report refuses a call the run skips. */
  lemma CheckAfterObserveDiverges(f: Frame, sys: Sys)
    requires f.mode == Status
    ensures EvalDef(f, sys, Backwards(), Args(map[], []), map[]).0 == Done(Verdict(ERR, "refused"))
    ensures EvalDef(f.(mode := Apply), sys, Backwards(), Args(map[], []), map[]).0 == Done(Verdict(OK, "already"))
  {
    var def := Backwards();
    var fa := f.(mode := Apply);
    var g, ga := Inside(f, def), Inside(fa, def);
    var s := S(map[], VNone, false, sys);
    BackwardsStart(g, sys);
    BackwardsStart(ga, sys);
    RefusingCheck(g, s);
    ReadyObserve(In(ga, ObservePhase), s);
    assert def.phases[..0] == [];
    assert Checked(fa, sys, Upto(def, 0), Args(map[], []), map[]) == R(Val(None), s);
    ApplyIs(fa, sys, def, 0, Args(map[], []), map[]);
  }
}
