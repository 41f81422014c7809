/** The two defs every plan moves a tree with, `dir.copy` and `dir.sync`: what a dry run of them
    says is what the real run then says. */
module StdTransfer {
  import opened Basics
  import opened Ast
  import opened Eval
  import opened EarlyRefusal
  import opened Front
  import opened DryRun
  import opened DryRunLimits
  import opened DryRunSync
  import Text

  /** `~dir.sync(src, dst, "<del>", compare)`. */
  function Exchange(del: string): Expr {
    Primitive("dir.sync", [Ident("src"), Ident("dst"), StrLit(del), Ident("compare")])
  }

  /** `n = ~dir.sync(…)`. */
  function Moves(del: string): Stmt {
    Let("n", Exchange(del))
  }

  function Unmoved(): Outcome {
    Outcome(OK, "already", None)
  }

  function Moved(tag: string): Outcome {
    Outcome(OK, tag, None)
  }

  /** `if n == "0" { return ok.already }` and the other return. */
  function Naming(tag: string): seq<Stmt> {
    [If(Compare(true, Ident("n"), StrLit("0")), [Return(Unmoved())]), Return(Moved(tag))]
  }

  function ApplyOf(del: string, tag: string): Phase {
    Phase(ApplyPhase, [] + ([Moves(del)] + Naming(tag)))
  }

  function Params(): seq<Param> {
    [Param("src", false, None), Param("dst", false, None), Param("compare", false, Some(StrLit("meta")))]
  }

  /** `dir.copy`: deletes nothing. */
  function Copy(): Def {
    Def(Params(), "", "", [ApplyOf("false", "copied")], None)
  }

  /** `dir.sync`: previews, and deletes what the source lacks. */
  function Sync(): Def {
    Def(Params(), "", "", [Phase(PreviewPhase, [Effect(Exchange("true"))]), ApplyOf("true", "synced")], None)
  }

  ghost predicate Transfers(def: Def, i: nat, del: string, tag: string) {
    (def == Copy() && i == 0 && del == "false" && tag == "copied")
    || (def == Sync() && i == 1 && del == "true" && tag == "synced")
  }

  // --- the shape ---

  lemma IsAround(del: string, tag: string)
    ensures Around([], Moves(del), Naming(tag))
    ensures forall st :: st in ApplyOf(del, tag).stmts ==> InertStmt(st)
  {
    var e, c := Exchange(del), Naming(tag)[0];
    forall x | x in e.args ensures Simple(x) && InertExpr(x) { }
    assert InertExpr(e);
    forall b | b in c.body ensures BareStmt(b) && InertStmt(b) { }
    assert Bare(c.cond) && InertExpr(c.cond) && BareStmt(c) && InertStmt(c);
    forall st | st in ApplyOf(del, tag).stmts ensures InertStmt(st) { }
  }

  lemma IsSyncApply(def: Def, i: nat, del: string, tag: string)
    requires Transfers(def, i, del, tag)
    ensures SyncApply(def, i, [], Moves(del), Naming(tag))
  {
    IsAround(del, tag);
    assert PureExpr(StrLit("meta"));
    assert forall p :: p in def.params && p.default.Some? ==> p.default.value == StrLit("meta");
  }

  // --- what the apply does ---

  /** A transfer answers with a text. */
  lemma SyncText(f: Frame, s: S, e: Expr)
    requires IsSync(e) && EvalExpr(f, s, e).out.Val?
    ensures EvalExpr(f, s, e).out.v.VStr?
  {
    SyncIs(f, s, e);
  }

  /** What the two returns make of it. */
  lemma Names(f: Frame, s: S, tag: string)
    requires "n" in s.vars && s.vars["n"].VStr?
    ensures EvalStmts(f, s, Naming(tag)) ==
            R(Val(Some(if s.vars["n"] == VStr("0") then Unmoved() else Moved(tag))), s)
  {
    var stmts := Naming(tag);
    PlainLit(f, s, "0");
    var c := stmts[0].cond;
    assert EvalExpr(f, s, c.l) == R(Val(s.vars["n"]), s);
    assert EvalExpr(f, s, c) == R(Val(VBool(s.vars["n"] == VStr("0"))), s);
    ReturnAlone(f, s, Unmoved(), stmts[0].body);
    ReturnAlone(f, s, Moved(tag), stmts[1..]);
  }

  lemma MovesThenNames(f: Frame, s: S, del: string, tag: string)
    ensures var e := EvalExpr(f, s, Exchange(del));
            var run := EvalStmts(f, s, [] + ([Moves(del)] + Naming(tag)));
            && run.s.sys == e.s.sys && run.s.acted == e.s.acted
            && run.out == if e.out.Val? then Val(Some(if e.out.v == VStr("0") then Unmoved() else Moved(tag)))
                          else e.out.PropagateFailure<Option<Outcome>>()
    ensures Ends(f, s, [], Moves(del), Naming(tag))
  {
    IsAround(del, tag);
    var t, e := Moves(del), EvalExpr(f, s, Exchange(del));
    assert [] + [t] == [t] && [] + ([t] + Naming(tag)) == [t] + Naming(tag) && [t][1..] == [];
    StmtsSplit(f, s, [t], Naming(tag));
    OneStmt(f, s, t);
    if e.out.Val? {
      SyncText(f, s, Exchange(del));
      var s1 := e.s.(vars := e.s.vars["n" := e.out.v]);
      assert EvalStmt(f, s, t) == R(Val(None), s1);
      assert EvalStmts(f, s, [t]) == R(Val(None), s1);
      Names(f, s1, tag);
    }
  }

  // --- the two runs ---

  /** The real run: the outcome reached, changed exactly when the transfer did something. */
  lemma LiveSays(f: Frame, sys: Sys, def: Def, i: nat, a: Args, with: map<string, string>, del: string, tag: string)
    requires Transfers(def, i, del, tag) && f.mode == Apply && Checked(f, sys, def, a, with).out == Val(None)
    ensures var s := Checked(f, sys, def, a, with).s.(acted := false);
            var run := ApplyRun(f, def, i, s);
            var live := EvalDef(f, sys, def, a, with);
            && (run.out.Val? ==> run.out.v == Some(Unmoved()) || run.out.v == Some(Moved(tag)))
            && (run.out.Val? ==> live.0 == Done(Verdict(OK, run.out.v.value.tag).(changed := run.s.acted)))
            && (!run.out.Val? ==> live.0 == Settle(run.PropagateFailure<Result>()))
  {
    IsSyncApply(def, i, del, tag);
    var g, s := Inside(f, def), Checked(f, sys, def, a, with).s;
    var h := In(g, ApplyPhase);
    DefFromChecked(f, sys, def, i, a, with);
    MovesThenNames(h, s.(acted := false), del, tag);
    OnlyApplyRuns(g, s.(acted := false), def.phases, i);
    AroundCallsNothing(h, s.(acted := false), [], Moves(del), Naming(tag));
    ConfirmQuiet(g, s, def, i, Desired(EvalPrologue(g, sys, def, a, with).s.vars, def.params));
  }

  /** The dry run's text is never the count it compares with. */
  lemma PreviewText(f: Frame, s: S, e: Expr)
    requires IsSync(e) && f.mode == Check
    ensures EvalExpr(f, s, e).out != Val(VStr("0"))
  {
    SyncIs(f, s, e);
    var r := SyncInput(f, s, e);
    if r.out.Val? {
      var got :=
        f.m.preview(r.s.sys.w, f.exec.value, ResourceKey("dir.sync", r.out.v.src), r.out.v.dst, r.out.v.compare);
      if got.Some? { assert |SyncSummary(got.value.0, got.value.1, r.out.v.del == "true")| > 1; }
    }
  }

  /** The names the exchange reads. */
  ghost predicate SameNames(s: S, s1: S) {
    && s1.sys.w == s.sys.w
    && forall x :: x in {"src", "dst", "compare"} ==>
         (x in s.vars <==> x in s1.vars) && (x in s.vars ==> s.vars[x] == s1.vars[x])
  }

  lemma DelLit(f: Frame, s: S, del: string)
    requires del == "true" || del == "false"
    ensures EvalExpr(f, s, StrLit(del)) == R(Val(VStr(del)), s)
  {
    Text.FindIsNot(del, "${") by {
      forall j: nat ensures !Text.At(del, "${", j) { if j < |del| { Text.NotAt(del, "${", j); } }
    }
    assert Text.Interpolate(del, Scalars(s.vars)) == Some(del);
  }

  /** The arguments by name. */
  function InputOf(vars: Vars, del: string): Out<Input> {
    if "src" !in vars || !vars["src"].VPath? || "dst" !in vars || "compare" !in vars then Fail(Fault)
    else if vars["dst"].VBytes? || vars["compare"].VBytes? then Fail(Fault)
    else Val(Input(vars["src"].path, Stringify(vars["dst"]), del, Stringify(vars["compare"])))
  }

  lemma NameIs(f: Frame, s: S, x: string)
    requires x != "ok" && x != "err"
    ensures EvalExpr(f, s, Ident(x)) == if x in s.vars then R(Val(s.vars[x]), s) else R(Fail(Fault), s)
  {
  }

  lemma ThreeAre(f: Frame, s: S, del: string, es: seq<Expr>)
    requires (del == "true" || del == "false") && |es| == 3
    requires es[0] == Ident("dst") && es[1] == StrLit(del) && es[2] == Ident("compare")
    ensures EvalAll(f, s, es) ==
            if "dst" in s.vars && "compare" in s.vars then R(Val([s.vars["dst"], VStr(del), s.vars["compare"]]), s)
            else R(Fail(Fault), s)
  {
    NameIs(f, s, "dst");
    DelLit(f, s, del);
    NameIs(f, s, "compare");
    AllThree(f, s, es);
  }

  /** The arguments are read, and nothing happens. */
  lemma InputIs(f: Frame, s: S, del: string)
    requires (del == "true" || del == "false") && IsSync(Exchange(del))
    ensures SyncInput(f, s, Exchange(del)) ==
            R(if f.channel && f.exec.Some? then InputOf(s.vars, del) else Fail(Fault), s)
  {
    NameIs(f, s, "src");
    ThreeAre(f, s, del, Exchange(del).args[1..]);
  }

  lemma InputSame(s: S, s1: S, del: string)
    requires SameNames(s, s1)
    ensures InputOf(s.vars, del) == InputOf(s1.vars, del)
  {
    var names := {"src", "dst", "compare"};
    assert "src" in names && "dst" in names && "compare" in names;
  }

  /** Asked again on the same world, a preview answers again. */
  lemma PreviewRepeats(f: Frame, f1: Frame, s: S, s1: S, del: string)
    requires f.mode == Check && f1 == In(f, f1.phase) && (del == "true" || del == "false") && SameNames(s, s1)
    requires EvalExpr(f, s, Exchange(del)).out.Val?
    ensures EvalExpr(f1, s1, Exchange(del)).out.Val?
    ensures SameNames(s, EvalExpr(f, s, Exchange(del)).s)
  {
    IsAround(del, "");
    var e := Exchange(del);
    InputIs(f, s, del);
    InputIs(f1, s1, del);
    InputSame(s, s1, del);
    SyncIs(f, s, e);
    SyncIs(f1, s1, e);
  }

  /** The previews of the def show what the transfer would do, and do not break where it did not. */
  lemma PreviewsShow(g: Frame, s: S, s1: S, def: Def, i: nat, del: string, tag: string)
    requires Transfers(def, i, del, tag) && g.mode == Check && SameNames(s, s1)
    requires EvalExpr(In(g, ApplyPhase), s, Exchange(del)).out.Val?
    ensures EvalPreviews(g, s1, def.phases, "").out.Val?
  {
    if def == Copy() {
      assert def.phases[1..] == [];
    } else {
      var p, h := def.phases[0], In(g, PreviewPhase);
      PreviewRepeats(In(g, ApplyPhase), h, s, s1, del);
      assert p.stmts[1..] == [];
      assert EvalStmt(h, s1, p.stmts[0]).out == Val(None);
      var s2, rest := EvalStmt(h, s1, p.stmts[0]).s, def.phases[1..];
      assert EvalPreview(h, s2, []) == R(Val([]), s2);
      assert EvalPreview(h, s1, p.stmts) == R(Val(Shown(s2.last) + []), s2);
      assert rest[0].name == ApplyPhase && rest[1..] == [];
      var acc := Join(Shown(s2.last) + [], "\n");
      assert EvalPreviews(g, s2, rest, acc) == R(Val(acc), s2);
    }
  }

  /** Check mode after the checks: ok.already, or the outcome the real run has, announced. */
  lemma AnnounceSays(g: Frame, s: S, def: Def, i: nat, del: string, tag: string)
    requires Transfers(def, i, del, tag) && g.mode == Check && !s.acted
    ensures var e := EvalExpr(In(g, ApplyPhase), s, Exchange(del));
            var r := EvalAnnounce(g, s, def);
            e.out.Val? && e.s.acted ==>
              r.out.Val? && r.out.v.category == WOULD && r.out.v.changed && r.out.v.tag == tag
  {
    var h := In(g, ApplyPhase);
    var e := EvalExpr(h, s, Exchange(del));
    IsSyncApply(def, i, del, tag);
    OnlyApplyIsLast(def.phases, i);
    assert InertApply(def) == Some(def.phases[i].stmts);
    assert s.(acted := false) == s;
    if e.out.Val? {
      MovesThenNames(h, s, del, tag);
      PreviewText(h, s, Exchange(del));
      PreviewRepeats(h, h, s, s, del);
      RunNames(h, s, del, tag);
      PreviewsShow(g, s, EvalStmts(h, s, def.phases[i].stmts).s, def, i, del, tag);
    }
  }

  /** The apply changes no name the exchange reads. */
  lemma RunNames(h: Frame, s: S, del: string, tag: string)
    requires EvalExpr(h, s, Exchange(del)).out.Val? && SameNames(s, EvalExpr(h, s, Exchange(del)).s)
    ensures SameNames(s, EvalStmts(h, s, ApplyOf(del, tag).stmts).s)
  {
    IsAround(del, tag);
    var t, e := Moves(del), EvalExpr(h, s, Exchange(del));
    assert ApplyOf(del, tag).stmts == [t] + Naming(tag) && [t][1..] == [];
    StmtsSplit(h, s, [t], Naming(tag));
    SyncText(h, s, Exchange(del));
    var s1 := e.s.(vars := e.s.vars["n" := e.out.v]);
    assert EvalStmt(h, s, t) == R(Val(None), s1);
    assert EvalStmts(h, s, [t]) == R(Val(None), s1);
    Names(h, s1, tag);
  }

  /** The dry run of a transfer that would act announces the outcome the real run has. */
  lemma DrySays(f: Frame, sys: Sys, def: Def, i: nat, a: Args, with: map<string, string>, s: S, del: string,
      tag: string)
    requires Transfers(def, i, del, tag) && f.mode == Check && Checked(f, sys, def, a, with) == R(Val(None), s)
    requires !s.acted
    requires var e := EvalExpr(In(Inside(f, def), ApplyPhase), s, Exchange(del)); e.out.Val? && e.s.acted
    ensures var dry := EvalDef(f, sys, def, a, with).0;
            dry.Done? && dry.res.category == WOULD && dry.res.changed && dry.res.tag == tag
  {
    IsSyncApply(def, i, del, tag);
    DefFromChecked(f, sys, def, i, a, with);
    AnnounceSays(Inside(f, def), s, def, i, del, tag);
  }

  /** `dir.copy` and `dir.sync`, called with the same arguments on the same world, where previews
      and transfers agree: a dry run says ok.already exactly when the real run does, and that run
      wrote and removed nothing; it announces the def's outcome exactly when the real run has that
      outcome, changed; and it breaks exactly when the real run does, alike. */
  lemma DryRunOfTransfer(f: Frame, sys: Sys, def: Def, i: nat, a: Args, with: map<string, string>, del: string,
      tag: string)
    requires Transfers(def, i, del, tag) && PreviewsAgree(f.m) && f.mode == Check && NoPut(sys.log)
    requires Checked(f, sys, def, a, with).out == Val(None)
    ensures var dry, live := EvalDef(f, sys, def, a, with).0, EvalDef(f.(mode := Apply), sys, def, a, with).0;
            || (dry == live == Done(Verdict(OK, "already")))
            || (live == Done(Verdict(OK, tag).(changed := true))
                && dry.Done? && dry.res.category == WOULD && dry.res.changed && dry.res.tag == tag)
            || (dry == live && dry.Broken?)
  {
    var fa := f.(mode := Apply);
    IsSyncApply(def, i, del, tag);
    CheckedSame(f, sys, fa, sys, def, a, with);
    var s := Checked(f, sys, def, a, with).s;
    assert s.(acted := false) == s;
    var hc, h := In(Inside(f, def), ApplyPhase), In(Inside(fa, def), ApplyPhase);
    MovesThenNames(hc, s, del, tag);
    MovesThenNames(h, s, del, tag);
    SyncExact(f, sys, def, i, a, with, [], Moves(del), Naming(tag));
    LiveSays(fa, sys, def, i, a, with, del, tag);
    ExchangeQuiet(hc, h, s, del);
    AroundCallsNothing(h, s, [], Moves(del), Naming(tag));
    var e := EvalExpr(h, s, Exchange(del));
    if e.out.Val? && e.s.acted { DrySays(f, sys, def, i, a, with, s, del, tag); }
  }

  /** The exchange places no file of its own, and the def acted exactly when it reports something. */
  lemma ExchangeQuiet(fc: Frame, fa: Frame, s: S, del: string)
    requires Pair(fc, fa, s) && PreviewsAgree(fc.m)
    ensures var r := EvalExpr(fa, s, Exchange(del));
            && NoPut(r.s.sys.log) && (r.out.Val? ==> (r.s.acted <==> r.out.v != VStr("0")))
            && (r.out.Val? ==>
                EvalExpr(fc, s, Exchange(del)).out.Val? && EvalExpr(fc, s, Exchange(del)).s.acted == r.s.acted)
  {
    var e := Exchange(del);
    IsAround(del, "");
    SyncedExpr(fc, fa, s, e);
    SyncIs(fa, s, e);
    InputQuiet(fa, s, e);
    var r := SyncInput(fa, s, e);
    if r.out.Val? {
      var kind := Event(fa.phase, Transferred(ResourceKey("dir.sync", r.out.v.src)));
      assert forall x :: x in r.s.sys.log + [kind] <==> x in r.s.sys.log || x == kind;
    }
  }

  lemma InputQuiet(f: Frame, s: S, e: Expr)
    requires IsSync(e) && (forall x :: x in e.args ==> Writeless(x)) && NoPut(s.sys.log)
    ensures NoPut(SyncInput(f, s, e).s.sys.log)
  {
    if |e.args| == 4 && f.channel && f.exec.Some? {
      assert e.args[0] in e.args && forall x :: x in e.args[1..] ==> x in e.args;
      ExprQuiet(f, s, e.args[0]);
      var a := EvalExpr(f, s, e.args[0]);
      if a.out.Val? { AllQuiet(f, a.s, e.args[1..]); }
    }
  }

  lemma {:induction false} AllQuiet(f: Frame, s: S, es: seq<Expr>)
    requires (forall x :: x in es ==> Simple(x) && Writeless(x)) && NoPut(s.sys.log)
    ensures NoPut(EvalAll(f, s, es).s.sys.log)
    decreases |es|
  {
    if es != [] {
      assert es[0] in es && forall x :: x in es[1..] ==> x in es;
      ExprQuiet(f, s, es[0]);
      if EvalExpr(f, s, es[0]).out.Val? { AllQuiet(f, EvalExpr(f, s, es[0]).s, es[1..]); }
    }
  }
}
