/** The two shapes of apply the dry run does not predict, each with a def that shows it, run
    once in Check and once in Apply on the same arguments and the same world. */
module DryRunLimits {
  import opened Basics
  import opened Ast
  import opened Eval
  import opened Front
  import opened DryRun
  import Text

  /** `~file.write(path, content)`. */
  function Write(): Expr {
    Primitive("file.write", [Ident("path"), Ident("content")])
  }

  function Text_(name: string): Param {
    Param(name, false, None)
  }

  /** The write sits in the payload of the return. */
  function PayloadDef(): Def {
    Def([Text_("path"), Text_("content")], "", "",
        [Phase(ApplyPhase, [Return(Outcome(OK, "done", Some(Write())))])], None)
  }

  /** `~dir.sync(src, dst, false, "")`. */
  function Transfer(): Expr {
    Primitive("dir.sync", [Ident("src"), Ident("dst"), BoolLit(false), StrLit("")])
  }

  /** The write depends on what a transfer answered. */
  function TransferDef(): Def {
    Def([Text_("src"), Text_("dst"), Text_("path"), Text_("content")], "", "",
        [Phase(ApplyPhase, [
                 Let("n", Transfer()),
                 If(Compare(false, Ident("n"), StrLit("0")), [Effect(Write())]),
                 Return(Outcome(OK, "done", None))])],
        None)
  }

  /** A target where the file is not what the def would write. */
  ghost predicate Stale(f: Frame, sys: Sys, vars: Vars) {
    && f.exec.Some? && f.channel
    && "path" in vars && vars["path"].VStr? && vars["path"].s != ""
    && "content" in vars && vars["content"].VStr?
    && f.m.digest(sys.w, f.exec.value, vars["path"].s) != Some(f.m.sum(vars["content"].s))
  }

  /** A def of one apply, with its arguments bound, starts that apply at once. */
  lemma {:induction false} NoDefaults(f: Frame, s: S, params: seq<Param>)
    requires forall p :: p in params ==> p.default.None?
    ensures EvalDefaults(f, s, params) == R(Val(()), s)
    decreases |params|
  {
    if params != [] {
      assert params[0] in params;
      NoDefaults(f, s, params[1..]);
    }
  }

  ghost function Start(a: Args, sys: Sys): S {
    S(MarkControl(Bound(a.values), a.control), VNone, false, sys)
  }

  lemma StartsAt(f: Frame, sys: Sys, def: Def, a: Args)
    requires |def.phases| == 1 && def.phases[0].name == ApplyPhase
    requires forall p :: p in def.params ==> p.default.None?
    ensures EvalPrologue(f, sys, def, a, map[]) == R(Val(()), Start(a, sys))
    ensures EvalNamed(f, Start(a, sys), CheckPhase, def.phases) == R(Val(None), Start(a, sys))
    ensures EvalDecide(f, Start(a, sys), def, Desired(Start(a, sys).vars, def.params), def.phases) ==
            R(Val(None), Start(a, sys))
  {
    var s := Start(a, sys);
    NoDefaults(f, s, def.params);
    assert s.vars + Bound(map[]) == s.vars;
    assert def.phases[1..] == [];
    assert EvalNamed(f, s, CheckPhase, def.phases[1..]) == R(Val(None), s);
  }

  /** So the run is what comes after the checks. */
  lemma StartsDef(f: Frame, sys: Sys, def: Def, a: Args)
    requires |def.phases| == 1 && def.phases[0].name == ApplyPhase && def.delegate.None? && f.mode != Status
    requires forall p :: p in def.params ==> p.default.None?
    ensures var s := Start(a, sys);
            var r := AfterChecks(Inside(f, def), s, def, Desired(s.vars, def.params));
            EvalDef(f, sys, def, a, map[]) == (Settle(r), r.s.sys)
  {
    StartsAt(Inside(f, def), sys, def, a);
  }

  lemma ReturnAlone(h: Frame, s: S, o: Outcome, stmts: seq<Stmt>)
    requires stmts != [] && stmts[0] == Return(o)
    ensures EvalStmts(h, s, stmts) == R(Val(Some(o)), s)
  {
    assert EvalStmt(h, s, stmts[0]) == R(Val(Some(o)), s);
  }

  // --- the payload ---

  function PayloadArgs(path: string, content: string): Args {
    Args(map["path" := path, "content" := content], [])
  }

  /** Check mode never evaluates the payload of a return: it answers ok.already, and the real run
      then attempts the write. */
  lemma PayloadWriteIsMissed(f: Frame, sys: Sys, path: string, content: string)
    requires f.mode == Check && f.exec.Some? && f.channel && NoPut(sys.log)
    requires path != "" && f.m.digest(sys.w, f.exec.value, path) != Some(f.m.sum(content))
    ensures var a := PayloadArgs(path, content);
            && EvalDef(f, sys, PayloadDef(), a, map[]).0 == Done(Verdict(OK, "already"))
            && !NoPut(EvalDef(f.(mode := Apply), sys, PayloadDef(), a, map[]).1.log)
  {
    var def, a, fa := PayloadDef(), PayloadArgs(path, content), f.(mode := Apply);
    var s := Start(a, sys);
    assert s.vars == map["path" := VStr(path), "content" := VStr(content)];
    StartsAt(Inside(f, def), sys, def, a);
    assert Checked(f, sys, def, a, map[]) == R(Val(None), s);
    PayloadIsPredictable();
    PayloadIsReached(fa, s, path, content);
    DryRunExact(f, sys, def, 0, a, map[]);
  }

  /** The apply returns at once, with a payload that writes. */
  lemma PayloadIsReached(fa: Frame, s: S, path: string, content: string)
    requires fa.mode == Apply && fa.exec.Some? && fa.channel && NoPut(s.sys.log) && !s.acted
    requires s.vars == map["path" := VStr(path), "content" := VStr(content)]
    requires path != "" && fa.m.digest(s.sys.w, fa.exec.value, path) != Some(fa.m.sum(content))
    ensures var run := ApplyRun(fa, PayloadDef(), 0, s);
            run.out.Val? && NoPut(run.s.sys.log) && PayloadPlaces(In(Inside(fa, PayloadDef()), ApplyPhase), run)
  {
    var def := PayloadDef();
    var h := In(Inside(fa, def), ApplyPhase);
    assert s.(acted := false) == s;
    ReturnAlone(h, s, Outcome(OK, "done", Some(Write())), def.phases[0].stmts);
    assert EvalExpr(h, s, Ident("path")) == R(Val(VStr(path)), s);
    assert EvalExpr(h, s, Ident("content")) == R(Val(VStr(content)), s);
    WritePayload(h, ApplyRun(fa, def, 0, s), Ident("path"), Ident("content"));
  }

  lemma PayloadIsPredictable()
    ensures Predictable(PayloadDef(), 0)
  {
    var e := Write();
    assert Simple(e.args[0]) && Simple(e.args[1]);
    assert Simple(e) by { forall x | x in e.args ensures Simple(x) { } }
    assert SimpleStmt(PayloadDef().phases[0].stmts[0]);
    SimpleStmtIsInert(PayloadDef().phases[0].stmts[0]);
  }

  // --- the transfer ---

  function TransferArgs(src: string, dst: string, path: string, content: string): Args {
    Args(map["src" := src, "dst" := dst, "path" := path, "content" := content], ["src"])
  }

  /** A text without a dollar sign is itself. */
  lemma PlainLit(f: Frame, s: S, t: string)
    requires t == "" || t == "0"
    ensures EvalExpr(f, s, StrLit(t)) == R(Val(VStr(t)), s)
  {
    Text.FindIsNot(t, "${") by {
      forall j: nat ensures !Text.At(t, "${", j) { }
    }
    assert Text.Interpolate(t, Scalars(s.vars)) == Some(t);
  }

  ghost predicate TransferScope(vars: Vars) {
    "src" in vars && vars["src"].VPath? && "dst" in vars && vars["dst"].VStr?
  }

  /** The tree is in sync: nothing to send, nothing extra. */
  ghost predicate InSync(f: Frame, w: World, src: string, dst: string)
    requires f.exec.Some?
  {
    var r := ResourceKey("dir.sync", src);
    && f.m.preview(w, f.exec.value, r, dst, "") == Some((0, []))
    && f.m.transfer(w, f.exec.value, r, dst, "", false) == (Some((0, 0)), w)
  }

  /** The real run is told "0", the dry run is told a sentence. */
  function TransferSays(mode: Mode): string {
    if mode == Check then SyncSummary(0, [], false) else "0"
  }

  lemma TransferAnswers(f: Frame, s: S)
    requires f.exec.Some? && f.channel && TransferScope(s.vars) &&
            InSync(f, s.sys.w, s.vars["src"].path, s.vars["dst"].s)
    ensures var r := ResourceKey("dir.sync", s.vars["src"].path);
            var kind := if f.mode == Check then Previewed(r) else Transferred(r);
            var v := VStr(TransferSays(f.mode));
            EvalExpr(f, s, Transfer()) == R(Val(v), s.(last := v, sys := s.sys.Log(Event(f.phase, kind))))
  {
    var e := Transfer();
    assert EvalExpr(f, s, e.args[0]) == R(Val(s.vars["src"]), s);
    assert EvalExpr(f, s, e.args[1]) == R(Val(s.vars["dst"]), s);
    assert EvalExpr(f, s, e.args[2]) == R(Val(VBool(false)), s);
    PlainLit(f, s, "");
    var t := SyncTree(f, s, s.vars["src"].path, s.vars["dst"].s, "false", "");
    assert EvalSync(f, s, e, s.vars["src"]) == t;
    assert EvalPrimitive(f, s, e) == t;
    assert Itoa(0) == "0";
    assert s.sys.(w := s.sys.w) == s.sys;
  }

  /** The write on a stale target: announced in Check, attempted in Apply. */
  lemma WriteActs(f: Frame, s: S)
    requires Stale(f, s.sys, s.vars) && f.mode == Check
    ensures EvalExpr(f, s, Write()).out == Val(VStr("1")) && EvalExpr(f, s, Write()).s.acted
  {
    var e := Write();
    assert EvalExpr(f, s, e.args[0]) == R(Val(s.vars["path"]), s);
    assert EvalExpr(f, s, e.args[1]) == R(Val(s.vars["content"]), s);
    var w := WriteFile(f, s, s.vars["path"].s, s.vars["content"].s);
    assert EvalWrite(f, s, e, s.vars["path"]) == w;
    assert EvalPrimitive(f, s, e) == w;
  }

  /** The branch the def takes after the transfer. */
  lemma BranchTaken(f: Frame, s: S, n: string)
    requires "n" in s.vars && s.vars["n"] == VStr(n)
    ensures var st := TransferDef().phases[0].stmts[1];
            EvalStmt(f, s, st) == if n == "0" then R(Val(None), s) else EvalStmts(f, s, [Effect(Write())])
  {
    var st := TransferDef().phases[0].stmts[1];
    assert EvalExpr(f, s, st.cond.l) == R(Val(VStr(n)), s);
    PlainLit(f, s, "0");
    assert EvalExpr(f, s, st.cond) == R(Val(VBool(n != "0")), s);
  }

  /** The statements of the apply: the real run places nothing and acts on nothing, the dry run
      writes. Both reach the return. */
  lemma ApplyDiverges(f: Frame, s: S)
    requires f.mode != Status && f.phase == ApplyPhase && !s.acted && NoPut(s.sys.log)
    requires Stale(f, s.sys, s.vars) && TransferScope(s.vars) && InSync(f, s.sys.w, s.vars["src"].path, s.vars["dst"].s)
    ensures var run := EvalStmts(f, s, TransferDef().phases[0].stmts);
            && run.out == Val(Some(Outcome(OK, "done", None)))
            && (f.mode == Apply ==> NoPut(run.s.sys.log) && !run.s.acted)
            && (f.mode == Check ==> run.s.acted)
  {
    var stmts := TransferDef().phases[0].stmts;
    TransferAnswers(f, s);
    var r := EvalExpr(f, s, stmts[0].value);
    var s1 := r.s.(vars := r.s.vars["n" := r.out.v]);
    assert EvalStmt(f, s, stmts[0]) == R(Val(None), s1);
    BranchTaken(f, s1, TransferSays(f.mode));
    if f.mode == Check {
      assert |SyncSummary(0, [], false)| > 1;
      WriteActs(f, s1);
      OneEffect(f, s1);
    }
    LastReturns(f, s1, stmts);
  }

  lemma OneEffect(f: Frame, s: S)
    requires EvalExpr(f, s, Write()).out.Val?
    ensures EvalStmts(f, s, [Effect(Write())]) == R(Val(None), EvalExpr(f, s, Write()).s)
  {
    var st := Effect(Write());
    assert EvalStmt(f, s, st) == R(Val(None), EvalExpr(f, s, Write()).s);
    assert [st][1..] == [];
  }

  lemma LastReturns(f: Frame, s1: S, stmts: seq<Stmt>)
    requires stmts == TransferDef().phases[0].stmts && EvalStmt(f, s1, stmts[1]).out == Val(None)
    ensures EvalStmts(f, s1, stmts[1..]) == R(Val(Some(Outcome(OK, "done", None))), EvalStmt(f, s1, stmts[1]).s)
  {
    assert stmts[1..][0] == stmts[1] && stmts[1..][1..] == stmts[2..];
    var s2 := EvalStmt(f, s1, stmts[1]).s;
    ReturnAlone(f, s2, Outcome(OK, "done", None), stmts[2..]);
  }

  lemma TransferIsInert()
    ensures InertApply(TransferDef()) == Some(TransferDef().phases[0].stmts)
  {
    var stmts := TransferDef().phases[0].stmts;
    forall e | e in Transfer().args ensures InertExpr(e) { }
    forall e | e in Write().args ensures InertExpr(e) { }
    assert InertExpr(Transfer()) && InertExpr(Write());
    forall st | st in [Effect(Write())] ensures InertStmt(st) { }
    forall st | st in stmts ensures InertStmt(st) { }
    assert LastPhase(TransferDef().phases, ApplyPhase) == Some(stmts);
  }

  /** With a transfer in the apply the two runs can part before any write: on a target whose tree
      is in sync, the real run returns ok.done unchanged and places nothing, and the dry run
      announces a change. */
  lemma TransferTextDiverges(f: Frame, sys: Sys, src: string, dst: string, path: string, content: string)
    requires f.mode == Check && f.exec.Some? && f.channel && NoPut(sys.log)
    requires path != "" && f.m.digest(sys.w, f.exec.value, path) != Some(f.m.sum(content)) && InSync(f, sys.w, src, dst)
    ensures var a := TransferArgs(src, dst, path, content);
            var dry, live :=
              EvalDef(f, sys, TransferDef(), a, map[]), EvalDef(f.(mode := Apply), sys, TransferDef(), a, map[]);
            && dry.0.Done? && dry.0.res.category == WOULD && dry.0.res.changed
            && live.0 == Done(Verdict(OK, "done")) && NoPut(live.1.log)
  {
    var def, a := TransferDef(), TransferArgs(src, dst, path, content);
    var s := Start(a, sys);
    assert s.vars == map["src" := VPath(src), "dst" := VStr(dst), "path" := VStr(path), "content" := VStr(content)];
    DryAnnounces(f, def, a, s);
    LiveIsQuiet(f.(mode := Apply), def, a, s);
  }

  ghost predicate Diverging(f: Frame, s: S) {
    && !s.acted && NoPut(s.sys.log)
    && Stale(f, s.sys, s.vars) && TransferScope(s.vars) && InSync(f, s.sys.w, s.vars["src"].path, s.vars["dst"].s)
  }

  lemma DryAnnounces(f: Frame, def: Def, a: Args, s: S)
    requires f.mode == Check && def == TransferDef() && s == Start(a, s.sys) && Diverging(f, s)
    ensures var dry := EvalDef(f, s.sys, def, a, map[]).0; dry.Done? && dry.res.category == WOULD && dry.res.changed
  {
    var g := Inside(f, def);
    StartsDef(f, s.sys, def, a);
    AnnouncesChange(g, s);
  }

  lemma AnnouncesChange(g: Frame, s: S)
    requires g.mode == Check && Diverging(g, s)
    ensures var r := EvalAnnounce(g, s, TransferDef()).out; r.Val? && r.v.category == WOULD && r.v.changed
  {
    var def := TransferDef();
    assert s.(acted := false) == s;
    ApplyDiverges(In(g, ApplyPhase), s);
    TransferIsInert();
    var run := EvalStmts(In(g, ApplyPhase), s, def.phases[0].stmts);
    NoPreview(g, run.s);
  }

  lemma NoPreview(g: Frame, s: S)
    ensures EvalPreviews(g, s, TransferDef().phases, "") == R(Val(""), s)
  {
    assert TransferDef().phases[1..] == [];
  }

  lemma LiveIsQuiet(f: Frame, def: Def, a: Args, s: S)
    requires f.mode == Apply && def == TransferDef() && s == Start(a, s.sys) && Diverging(f, s)
    ensures var live := EvalDef(f, s.sys, def, a, map[]); live.0 == Done(Verdict(OK, "done")) && NoPut(live.1.log)
  {
    StartsDef(f, s.sys, def, a);
    AppliesQuietly(Inside(f, def), s);
  }

  lemma AppliesQuietly(g: Frame, s: S)
    requires g.mode == Apply && Diverging(g, s)
    ensures var r := EvalApplies(g, s, TransferDef().phases);
            r.out == Val(Verdict(OK, "done")) && NoPut(r.s.sys.log) && !r.s.acted
    ensures s.(acted := false) == s
  {
    var p, h := TransferDef().phases[0], In(g, ApplyPhase);
    ApplyDiverges(h, s);
    OnlyApplyRuns(g, s, TransferDef().phases, 0);
    var run := EvalStmts(h, s, p.stmts);
    assert RunPhase(g, s, p) == R(Val(Some(Verdict(OK, "done"))), run.s);
  }
}
