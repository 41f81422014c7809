/** Whose mark is it: a control-host path crosses a call with its mark, and a parameter's name
    declared twice lets one argument take the mark of another. */
module Marks {
  import opened Basics
  import opened Ast
  import opened Eval
  import opened Plan
  import opened Preserve
  import Runner
  import Text

  /** Positional arguments bound to a callee's names, marks and all. */
  function Bind(vs: seq<Value>, params: seq<Param>, acc: Args): Args
    requires |vs| <= |params|
  {
    if vs == [] then acc
    else
      var n := params[0].name;
      Bind(vs[1..], params[1..],
          Args(acc.values[n := Stringify(vs[0])], if vs[0].VPath? then acc.control + [n] else acc.control))
  }

  /** Values a call accepts: no bytes, and a boolean where one is declared. */
  predicate Accepts(params: seq<Param>, vs: seq<Value>) {
    |vs| <= |params| && forall i :: 0 <= i < |vs| ==> !vs[i].VBytes? && TypeHolds(params[i], vs[i])
  }

  /** What evaluating a call's arguments binds is values the call accepts, bound in order. */
  lemma {:induction false} ArgsAreBound(f: Frame, s: S, args: seq<Expr>, params: seq<Param>, acc: Args)
      returns (vs: seq<Value>)
    requires |args| <= |params| && EvalArgs(f, s, args, params, acc).out.Val?
    ensures |vs| == |args| && Accepts(params, vs) && EvalArgs(f, s, args, params, acc).out.v == Bind(vs, params, acc)
    decreases |args|
  {
    if args == [] {
      vs := [];
    } else {
      var r := EvalExpr(f, s, args[0]);
      var n := params[0].name;
      var next := Args(acc.values[n := Stringify(r.out.v)], if r.out.v.VPath? then acc.control + [n] else acc.control);
      var rest := ArgsAreBound(f, r.s, args[1..], params[1..], next);
      vs := [r.out.v] + rest;
    }
  }

  /** Argument i is the last one for that name. */
  predicate LastFor(vs: seq<Value>, params: seq<Param>, n: string, i: nat)
    requires |vs| <= |params|
  {
    i < |vs| && params[i].name == n && forall j :: i < j < |vs| ==> params[j].name != n
  }

  predicate Gives(vs: seq<Value>, params: seq<Param>, n: string, i: nat)
    requires |vs| <= |params|
  {
    i < |vs| && params[i].name == n && vs[i].VPath?
  }

  /** A name is marked when any of its arguments was; its value is the last one's. */
  lemma {:induction false} BoundIs(vs: seq<Value>, params: seq<Param>, acc: Args, n: string)
    requires |vs| <= |params|
    ensures n in Bind(vs, params, acc).control <==> n in acc.control || exists i: nat :: Gives(vs, params, n, i)
    ensures forall i: nat :: LastFor(vs, params, n, i) ==>
              n in Bind(vs, params, acc).values && Bind(vs, params, acc).values[n] == Stringify(vs[i])
    ensures (forall i :: 0 <= i < |vs| ==> params[i].name != n) ==>
              (n in Bind(vs, params, acc).values <==> n in acc.values) &&
              (n in acc.values ==> Bind(vs, params, acc).values[n] == acc.values[n])
    decreases |vs|
  {
    if vs != [] {
      var h := params[0].name;
      var next := Args(acc.values[h := Stringify(vs[0])], if vs[0].VPath? then acc.control + [h] else acc.control);
      BoundIs(vs[1..], params[1..], next, n);
      forall i: nat | i < |vs[1..]| ensures Gives(vs[1..], params[1..], n, i) == Gives(vs, params, n, i + 1) { }
      if i: nat :| Gives(vs, params, n, i) {
        if i > 0 { assert Gives(vs[1..], params[1..], n, i - 1); }
      }
      if i: nat :| Gives(vs[1..], params[1..], n, i) { assert Gives(vs, params, n, i + 1); }
      if n in next.control && n !in acc.control { assert Gives(vs, params, n, 0); }
      forall i: nat | LastFor(vs, params, n, i)
        ensures n in Bind(vs, params, acc).values && Bind(vs, params, acc).values[n] == Stringify(vs[i])
      {
        if i > 0 { assert LastFor(vs[1..], params[1..], n, i - 1); } else {
          forall j | 0 <= j < |vs[1..]| ensures params[1..][j].name != n { assert params[j + 1].name != n; }
        }
      }
      if forall i :: 0 <= i < |vs| ==> params[i].name != n {
        forall j | 0 <= j < |vs[1..]| ensures params[1..][j].name != n { assert params[j + 1].name != n; }
      }
    }
  }

  /** Every marked name of what is bound holds a path that was marked for it. */
  ghost predicate MarksTrue(vs: seq<Value>, params: seq<Param>)
    requires |vs| <= |params|
  {
    var a := Bind(vs, params, Args(map[], []));
    forall n :: n in a.control ==>
      n in a.values && exists i: nat :: Gives(vs, params, n, i) && a.values[n] == vs[i].path
  }

  lemma LastOf(vs: seq<Value>, params: seq<Param>, n: string, i: nat) returns (j: nat)
    requires |vs| <= |params| && i < |vs| && params[i].name == n
    ensures i <= j && LastFor(vs, params, n, j)
  {
    j := i;
    var k := i + 1;
    while k < |vs|
      invariant i <= j < k <= |vs| && params[j].name == n
      invariant forall x :: j < x < k ==> params[x].name != n
    {
      if params[k].name == n { j := k; }
      k := k + 1;
    }
  }

  lemma OwnMarksAreTrue(vs: seq<Value>, params: seq<Param>)
    requires OwnMarks(params) && Accepts(params, vs)
    ensures MarksTrue(vs, params)
  {
    var a := Bind(vs, params, Args(map[], []));
    forall n | n in a.control
      ensures n in a.values && exists i: nat :: Gives(vs, params, n, i) && a.values[n] == vs[i].path
    {
      BoundIs(vs, params, Args(map[], []), n);
      var i: nat :| Gives(vs, params, n, i);
      var j := LastOf(vs, params, n, i);
      assert !Shared(params, i, j);
    }
  }

  /** The arguments that show it: a path for the first, plain text for the others. */
  function Mixed(i: nat, j: nat): seq<Value> {
    seq(j + 1, k => if k == i then VPath("a") else VStr("true"))
  }

  lemma SharedMarkIsFalse(params: seq<Param>, i: nat, j: nat)
    requires Shared(params, i, j)
    ensures Accepts(params, Mixed(i, j)) && !MarksTrue(Mixed(i, j), params)
  {
    var vs, n := Mixed(i, j), params[i].name;
    BoundIs(vs, params, Args(map[], []), n);
    assert Gives(vs, params, n, i) && LastFor(vs, params, n, j);
  }

  /** Exactly when marks stay with their arguments, whatever a call passes: no parameter that
      can hold a path shares its name with a later one. */
  lemma MarksTrueIffOwn(params: seq<Param>)
    ensures OwnMarks(params) <==> forall vs :: Accepts(params, vs) ==> MarksTrue(vs, params)
  {
    if OwnMarks(params) {
      forall vs | Accepts(params, vs) ensures MarksTrue(vs, params) { OwnMarksAreTrue(vs, params); }
    } else {
      var i, j :| Shared(params, i, j);
      SharedMarkIsFalse(params, i, j);
    }
  }

  // --- a run that asks for what was not declared ---

  /** `f(p, p)` reads p on the control host; `g(a)` calls it with its own argument and a text. */
  function F(): Def {
    Def([Param("p", false, None), Param("p", false, None)], "", "",
        [Phase(ApplyPhase, [Effect(Primitive("file.read", [Ident("p")])), Return(Outcome(OK, "done", None))])], None)
  }

  function G(): Def {
    Def([Param("a", false, None)], "", "",
        [Phase(ApplyPhase, [Effect(Call("f", [Ident("a"), StrLit("secret")])), Return(Outcome(OK, "done", None))])],
        None)
  }

  function Table(): map<string, Def> {
    map["f" := F(), "g" := G()]
  }

  /** The plan calls `g` on one marked path. */
  function CallG(): Step {
    Step("g", map["a" := "x"], map[], map[], "", false, "", "", map[], map[], ["a"], [], [], None)
  }

  const SECRET: Event := Event(ApplyPhase, Asked("file.read:secret"))

  /** One effect, then a return. */
  ghost predicate OneEffect(def: Def, e: Expr) {
    && def.phases == [Phase(ApplyPhase, [Effect(e), Return(Outcome(OK, "done", None))])] && def.delegate.None?
    && forall p :: p in def.params ==> p.default.None?
  }

  /** A def of one apply, with its arguments bound: the run's log has what its effect logs. */
  lemma OneApply(f: Frame, sys: Sys, def: Def, a: Args, e: Expr)
    requires f.mode == Apply && OneEffect(def, e)
    ensures var g := Inside(f, def);
            var s := S(MarkControl(Bound(a.values), a.control), VNone, false, sys);
            EvalExpr(In(g, ApplyPhase), s, e).s.sys == EvalDef(f, sys, def, a, map[]).1
  {
    var g := Inside(f, def);
    var vars := MarkControl(Bound(a.values), a.control);
    var s := S(vars, VNone, false, sys);
    NoDefaults(g, s, def.params);
    assert vars + Bound(map[]) == vars;
    var p := EvalPrologue(g, sys, def, a, map[]);
    assert p.s == s;
    var desired := Desired(vars, def.params);
    assert DecidePhase(g, s, def, desired, def.phases[0]) == R(Val(None), s);
    assert def.phases[1..] == [];
    assert EvalDecide(g, s, def, desired, def.phases) == R(Val(None), s);
    ApplyLogs(g, s, def, desired, e);
  }

  lemma {:induction false} NoDefaults(f: Frame, s: S, params: seq<Param>)
    requires forall p :: p in params ==> p.default.None?
    ensures EvalDefaults(f, s, params) == R(Val(()), s)
    decreases |params|
  {
    if params != [] {
      assert params[0] in params;
      NoDefaults(f, s, params[1..]);
    }
  }

  lemma ApplyLogs(g: Frame, s: S, def: Def, desired: map<string, string>, e: Expr)
    requires g.mode == Apply && OneEffect(def, e) && !s.acted
    ensures var d := EvalApplies(g, s, def.phases);
            && d.s.sys == EvalExpr(In(g, ApplyPhase), s, e).s.sys
            && (d.out.Val? ==> EvalConfirm(g, d.s, def, desired, d.out.v).s == d.s)
  {
    var h := In(g, ApplyPhase);
    EffectThenReturn(h, s, e);
    PhaseEnds(g, s, def.phases[0]);
    var run := EvalStmts(h, s, def.phases[0].stmts);
    assert def.phases[1..] == [];
    assert EvalNamed(g, s, ApplyPhase, def.phases).s == run.s;
    assert EvalApplies(g, s, def.phases).s == run.s;
    assert LastPhase(def.phases[..0], ObservePhase) == None;
  }

  /** A phase that ends with no payload ends where its statements do. */
  lemma PhaseEnds(g: Frame, s: S, p: Phase)
    requires var run := EvalStmts(In(g, p.name), s, p.stmts);
             run.out.Val? ==> run.out.v == Some(Outcome(OK, "done", None))
    ensures var run := EvalStmts(In(g, p.name), s, p.stmts);
            var r := RunPhase(g, s, p);
            r.s == run.s && (r.out.Val? ==> r.out.v == Some(Verdict(OK, "done"))) && (r.out.Val? <==> run.out.Val?)
  {
  }

  lemma EffectThenReturn(h: Frame, s: S, e: Expr)
    ensures var o := Outcome(OK, "done", None);
            var r := EvalStmts(h, s, [Effect(e), Return(o)]);
            r.s == EvalExpr(h, s, e).s && (r.out.Val? ==> r.out.v == Some(o))
  {
    var o := Outcome(OK, "done", None);
    var stmts := [Effect(e), Return(o)];
    assert stmts[1..] == [Return(o)];
    var s1 := EvalExpr(h, s, e).s;
    assert EvalStmt(h, s1, Return(o)) == R(Val(Some(o)), s1);
  }

  /** `f`, with the mark of its first argument on the value of its second. */
  lemma FAsks(f: Frame, sys: Sys)
    requires f.mode == Apply && f.exec.Some? && f.channel
    ensures SECRET in EvalDef(f, sys, F(), Args(map["p" := "secret"], ["p"]), map[]).1.log
  {
    var a := Args(map["p" := "secret"], ["p"]);
    var e := Primitive("file.read", [Ident("p")]);
    OneApply(f, sys, F(), a, e);
    var h := In(Inside(f, F()), ApplyPhase);
    var s := S(MarkControl(Bound(a.values), a.control), VNone, false, sys);
    assert s.vars == map["p" := VPath("secret")];
    FReads(h, s);
  }

  /** Reading it asks for it. */
  lemma FReads(h: Frame, s: S)
    requires h.phase == ApplyPhase && h.exec.Some? && h.channel && s.vars == map["p" := VPath("secret")]
    ensures SECRET in EvalExpr(h, s, Primitive("file.read", [Ident("p")])).s.sys.log
  {
    var e := Primitive("file.read", [Ident("p")]);
    assert EvalExpr(h, s, Ident("p")) == R(Val(VPath("secret")), s);
    assert ResourceKey("file.read", "secret") == "file.read:secret";
    assert SECRET in ReadPath(h, s, "file.read", VPath("secret")).s.sys.log;
    assert EvalPrimitive(h, s, e) == ReadPath(h, s, "file.read", VPath("secret"));
  }

  /** The two arguments `g` passes, and what they are bound to. */
  lemma GPasses(h: Frame, s: S)
    requires s.vars == map["a" := VPath("x")]
    ensures EvalArgs(h, s, [Ident("a"), StrLit("secret")], F().params, Args(map[], [])) ==
            R(Val(Args(map["p" := "secret"], ["p"])), s)
  {
    var args, params := [Ident("a"), StrLit("secret")], F().params;
    assert EvalExpr(h, s, Ident("a")) == R(Val(VPath("x")), s);
    Text.FindIsNot("secret", "${") by {
      forall j: nat ensures !Text.At("secret", "${", j) {
        if j < 6 { Text.NotAt("secret", "${", j); }
      }
    }
    assert Text.Interpolate("secret", Scalars(s.vars)) == Some("secret");
    assert EvalExpr(h, s, StrLit("secret")) == R(Val(VStr("secret")), s);
    var one, two := Args(map["p" := "x"], ["p"]), Args(map["p" := "secret"], ["p"]);
    assert args[1..] == [StrLit("secret")] && params[1..] == [params[1]];
    assert EvalArgs(h, s, [], params[2..], two) == R(Val(two), s);
    assert map["p" := "x"]["p" := "secret"] == map["p" := "secret"];
    assert EvalArgs(h, s, args[1..], params[1..], one) == R(Val(two), s) by {
      assert args[1..][1..] == [] && params[1..][1..] == params[2..];
    }
    var none: map<string, string> := map[];
    assert none["p" := "x"] == map["p" := "x"] && [] + ["p"] == ["p"];
    assert Stringify(VPath("x")) == "x" && !params[0].isBool;
  }

  lemma GCalls(h: Frame, s: S, callee: Args)
    requires s.vars == map["a" := VPath("x")] && h.defs == Table() && h.stack == ["g"]
    requires callee == Args(map["p" := "secret"], ["p"])
    ensures EvalExpr(h, s, Call("f", [Ident("a"), StrLit("secret")])) == Enter(h, s, "f", callee)
  {
    GPasses(h, s);
    assert RequiredCount(F().params) == 2 by {
      assert RequiredCount(F().params[1..]) == 1 + RequiredCount(F().params[1..][1..]);
    }
  }

  lemma GAsks(f: Frame, sys: Sys)
    requires f.mode == Apply && f.exec.Some? && f.channel && f.defs == Table() && f.stack == ["g"]
    ensures SECRET in EvalDef(f, sys, G(), Args(map["a" := "x"], ["a"]), map[]).1.log
  {
    var a := Args(map["a" := "x"], ["a"]);
    OneApply(f, sys, G(), a, Call("f", [Ident("a"), StrLit("secret")]));
    var h := In(Inside(f, G()), ApplyPhase);
    var s := S(MarkControl(Bound(a.values), a.control), VNone, false, sys);
    assert s.vars == map["a" := VPath("x")];
    var callee := Args(map["p" := "secret"], ["p"]);
    FAsks(h.(stack := h.stack + ["f"]), sys);
    GCalls(h, s, callee);
  }

  lemma OnlyX()
    ensures "file.read:secret" !in ControlResources([CallG()])
  {
    assert [CallG()][1..] == [];
    assert OwnPaths(CallG()) <= {"x"};
    assert Paths([CallG()]) <= {"x"};
    forall k | k in {"file.read", "file.render", "dir.list", "dir.sync"}
      ensures ResourceKey(k, "x") != "file.read:secret"
    {
      assert ResourceKey(k, "x")[|ResourceKey(k, "x")| - 1] == 'x';
    }
  }

  /** A def that declares a parameter twice asks the control host for a path the plan never
      marked: the second argument takes the mark of the first. */
  lemma SharedMarkAsksUndeclared(m: Machine, exec: Exec, sys: Sys)
    ensures var c := Runner.Agent(m, Table(), Apply, true);
            SECRET in Runner.RunRequest(c, exec, {}, [CallG()], sys).2.log
    ensures SECRET.kind.resource !in ControlResources([CallG()])
  {
    var c := Runner.Agent(m, Table(), Apply, true);
    OnlyX();
    GAsks(Runner.StepFrame(c, exec.As("").Using(""), "g"), sys);
    assert [CallG()][1..] == [];
    assert Runner.Needed([CallG()]) == {};
    var s := Runner.Rs(map[], sys);
    assert Runner.RunStep(c, exec, CallG(), s).1.sys ==
           EvalDef(Runner.StepFrame(c, exec, "g"), sys, G(), Args(map["a" := "x"], ["a"]), map[]).1;
  }
}
