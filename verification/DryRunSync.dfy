/** A dry run of an apply with a tree transfer: its verdict is the one the real run earns, when
    what follows the transfer only decides how to name it. */
module DryRunSync {
  import opened Basics
  import opened Ast
  import opened Eval
  import opened Front
  import opened DryRun
  import opened DryRunLimits

  // --- what follows the transfer ---

  /** Names, literals, comparisons. */
  ghost predicate Bare(e: Expr) {
    match e
    case Shell(_, _) => false
    case Call(_, _) => false
    case Primitive(_, _) => false
    case Compare(_, l, r) => Bare(l) && Bare(r)
    case Not(x) => Bare(x)
    case Field(x, _) => Bare(x)
    case _ => true
  }

  ghost predicate BareStmt(st: Stmt) {
    match st
    case Let(_, e) => Bare(e)
    case Effect(e) => Bare(e)
    case If(c, body) => Bare(c) && forall b :: b in body ==> BareStmt(b)
    case Return(o) => o.payload.Some? ==> Bare(o.payload.value)
    case StateReturn(fields) => forall x :: x in fields ==> Bare(x.value)
  }

  ghost predicate BareStmts(stmts: seq<Stmt>) {
    forall s :: s in stmts ==> BareStmt(s)
  }

  lemma {:induction false} BareIsSimple(e: Expr)
    requires Bare(e)
    ensures Simple(e)
  {
    match e
    case Compare(_, l, r) =>
      BareIsSimple(l);
      BareIsSimple(r);
    case Not(x) => BareIsSimple(x);
    case Field(x, _) => BareIsSimple(x);
    case _ =>
  }

  lemma {:induction false} BareStmtIsSimple(st: Stmt)
    requires BareStmt(st)
    ensures SimpleStmt(st)
  {
    match st
    case Let(_, e) => BareIsSimple(e);
    case Effect(e) => BareIsSimple(e);
    case If(c, body) =>
      BareIsSimple(c);
      forall b | b in body ensures SimpleStmt(b) { BareStmtIsSimple(b); }
    case Return(o) => if o.payload.Some? { BareIsSimple(o.payload.value); }
    case StateReturn(fields) => forall x | x in fields ensures Simple(x.value) { BareIsSimple(x.value); }
  }

  lemma BareAreSimple(stmts: seq<Stmt>)
    requires BareStmts(stmts)
    ensures SimpleStmts(stmts)
  {
    forall st | st in stmts ensures SimpleStmt(st) { BareStmtIsSimple(st); }
  }

  /** The target is untouched. */
  ghost predicate Still(s: S, s1: S) {
    s1.sys == s.sys && s1.acted == s.acted
  }

  lemma {:induction false} BareStill(f: Frame, s: S, e: Expr)
    requires Bare(e)
    ensures Still(s, EvalExpr(f, s, e).s)
    decreases e
  {
    match e
    case Field(x, _) => BareStill(f, s, x);
    case Compare(_, l, r) =>
      BareStill(f, s, l);
      if EvalExpr(f, s, l).out.Val? { BareStill(f, EvalExpr(f, s, l).s, r); }
    case Not(x) => BareStill(f, s, x);
    case _ =>
  }

  lemma {:induction false} StmtStill(f: Frame, s: S, st: Stmt)
    requires BareStmt(st)
    ensures Still(s, EvalStmt(f, s, st).s)
    decreases st, 0
  {
    match st
    case Let(_, e) => BareStill(f, s, e);
    case Effect(e) => BareStill(f, s, e);
    case If(c, body) =>
      BareStill(f, s, c);
      var r := EvalExpr(f, s, c);
      if r.out.Val? && Truthy(r.out.v) { StmtsStill(f, r.s, body); }
    case _ =>
  }

  lemma {:induction false} StmtsStill(f: Frame, s: S, stmts: seq<Stmt>)
    requires BareStmts(stmts)
    ensures Still(s, EvalStmts(f, s, stmts).s)
    decreases stmts, 0
  {
    if stmts != [] {
      assert BareStmt(stmts[0]);
      StmtStill(f, s, stmts[0]);
      var r := EvalStmt(f, s, stmts[0]);
      if r.out.Val? && r.out.v.None? { StmtsStill(f, r.s, stmts[1..]); }
    }
  }

  lemma {:induction false} StmtsSplit(f: Frame, s: S, pre: seq<Stmt>, rest: seq<Stmt>)
    ensures var r := EvalStmts(f, s, pre);
            EvalStmts(f, s, pre + rest) == if r.out == Val(None) then EvalStmts(f, r.s, rest) else r
    decreases |pre|
  {
    if pre == [] {
      assert [] + rest == rest;
    } else {
      assert (pre + rest)[1..] == pre[1..] + rest;
      var r := EvalStmt(f, s, pre[0]);
      if r.out == Val(None) { StmtsSplit(f, r.s, pre[1..], rest); }
    }
  }

  // --- the transfer ---

  ghost predicate IsSync(e: Expr) {
    e.Primitive? && e.name == "dir.sync" && forall a :: a in e.args ==> Simple(a)
  }

  /** `n = ~dir.sync(…)`, or the call alone. */
  ghost predicate SyncStmt(st: Stmt) {
    (st.Let? || st.Effect?) && IsSync(SyncOf(st))
  }

  function SyncOf(st: Stmt): Expr
    requires st.Let? || st.Effect?
  {
    if st.Let? then st.value else st.expr
  }

  ghost function EvalAll(f: Frame, s: S, es: seq<Expr>): R<seq<Value>>
    decreases |es|
  {
    if es == [] then R(Val([]), s)
    else
      var (v, s1) :- EvalExpr(f, s, es[0]);
      var (vs, s2) :- EvalAll(f, s1, es[1..]);
      R(Val([v] + vs), s2)
  }

  datatype Input = Input(src: string, dst: string, del: string, compare: string)

  /** The arguments of a transfer. */
  ghost function SyncInput(f: Frame, s: S, e: Expr): R<Input>
    requires IsSync(e)
  {
    if |e.args| != 4 || !f.channel || f.exec.None? then R(Fail(Fault), s)
    else
      var (a, s1) :- EvalExpr(f, s, e.args[0]);
      if !a.VPath? then R(Fail(Fault), s1)
      else
        var (vs, s2) :- EvalAll(f, s1, e.args[1..]);
        if |vs| != 3 || vs[0].VBytes? || vs[1].VBytes? || vs[2].VBytes? then R(Fail(Fault), s2)
        else R(Val(Input(a.path, Stringify(vs[0]), Stringify(vs[1]), Stringify(vs[2]))), s2)
  }

  lemma AllThree(f: Frame, s: S, es: seq<Expr>)
    requires |es| == 3
    ensures var a := EvalExpr(f, s, es[0]);
            if !a.out.Val? then EvalAll(f, s, es) == a.PropagateFailure<seq<Value>>()
            else
              var b := EvalExpr(f, a.s, es[1]);
              if !b.out.Val? then EvalAll(f, s, es) == b.PropagateFailure<seq<Value>>()
              else
                var c := EvalExpr(f, b.s, es[2]);
                if !c.out.Val? then EvalAll(f, s, es) == c.PropagateFailure<seq<Value>>()
                else EvalAll(f, s, es) == R(Val([a.out.v, b.out.v, c.out.v]), c.s)
  {
    var two, one := es[1..], es[2..];
    assert two[0] == es[1] && two[1..] == one && one[0] == es[2] && one[1..] == [];
    var a := EvalExpr(f, s, es[0]);
    if a.out.Val? {
      var b := EvalExpr(f, a.s, es[1]);
      if b.out.Val? {
        var c := EvalExpr(f, b.s, es[2]);
        if c.out.Val? {
          assert EvalAll(f, c.s, one[1..]) == R(Val([]), c.s);
          assert [c.out.v] + [] == [c.out.v] && [b.out.v] + [c.out.v] == [b.out.v, c.out.v];
          assert EvalAll(f, b.s, one) == R(Val([c.out.v]), c.s);
          assert EvalAll(f, a.s, two) == R(Val([b.out.v, c.out.v]), c.s);
          assert [a.out.v] + [b.out.v, c.out.v] == [a.out.v, b.out.v, c.out.v];
        } else {
          assert EvalAll(f, b.s, one) == c.PropagateFailure<seq<Value>>();
          assert EvalAll(f, a.s, two) == c.PropagateFailure<seq<Value>>();
        }
      }
    }
  }

  /** A transfer is its arguments, then the exchange. */
  lemma SyncIs(f: Frame, s: S, e: Expr)
    requires IsSync(e)
    ensures var r := SyncInput(f, s, e);
            r.out.Val? ==>
              f.exec.Some?
              && EvalPrimitive(f, s, e) == SyncTree(f, r.s, r.out.v.src, r.out.v.dst, r.out.v.del, r.out.v.compare)
    ensures var r := SyncInput(f, s, e); !r.out.Val? ==> EvalPrimitive(f, s, e) == r.PropagateFailure<Value>()
  {
    if |e.args| == 4 && f.channel && f.exec.Some? {
      var a := EvalExpr(f, s, e.args[0]);
      if a.out.Val? {
        assert EvalPrimitive(f, s, e) == EvalSync(f, a.s, e, a.out.v);
        if a.out.v.VPath? {
          var es := e.args[1..];
          assert es[0] == e.args[1] && es[1] == e.args[2] && es[2] == e.args[3];
          AllThree(f, a.s, es);
        }
      }
    }
  }

  lemma {:induction false} AllOnward(f: Frame, s: S, es: seq<Expr>)
    requires forall e :: e in es ==> Simple(e)
    ensures Onward(s, EvalAll(f, s, es).s) && !EvalAll(f, s, es).out.Callee?
    decreases |es|
  {
    if es != [] {
      assert es[0] in es && forall e :: e in es[1..] ==> e in es;
      ExprOnward(f, s, es[0]);
      ExprNoCallee(f, s, es[0]);
      if EvalExpr(f, s, es[0]).out.Val? { AllOnward(f, EvalExpr(f, s, es[0]).s, es[1..]); }
    }
  }

  lemma {:induction false} AllLocked(fc: Frame, fa: Frame, s: S, es: seq<Expr>)
    requires Pair(fc, fa, s) && forall e :: e in es ==> Simple(e)
    ensures Locked(EvalAll(fc, s, es), EvalAll(fa, s, es))
    decreases |es|
  {
    if es != [] {
      assert es[0] in es && forall e :: e in es[1..] ==> e in es;
      ExprLocked(fc, fa, s, es[0]);
      var c, a := EvalExpr(fc, s, es[0]), EvalExpr(fa, s, es[0]);
      if c == a && !a.s.acted && NoPut(a.s.sys.log) {
        if a.out.Val? { AllLocked(fc, fa, a.s, es[1..]); }
      } else {
        if c.out.Val? { AllOnward(fc, c.s, es[1..]); }
        if a.out.Val? { AllOnward(fa, a.s, es[1..]); }
        ApartStays(c.s, EvalAll(fc, s, es).s, a.s, EvalAll(fa, s, es).s);
      }
    }
  }

  lemma InputOnward(f: Frame, s: S, e: Expr)
    requires IsSync(e)
    ensures Onward(s, SyncInput(f, s, e).s) && !SyncInput(f, s, e).out.Callee?
    ensures |e.args| == 4 && f.channel && f.exec.Some? ==> Onward(EvalExpr(f, s, e.args[0]).s, SyncInput(f, s, e).s)
  {
    if |e.args| == 4 && f.channel && f.exec.Some? {
      assert forall i :: 0 <= i < |e.args| ==> e.args[i] in e.args;
      ExprOnward(f, s, e.args[0]);
      ExprNoCallee(f, s, e.args[0]);
      var a := EvalExpr(f, s, e.args[0]);
      assert forall x :: x in e.args[1..] ==> x in e.args;
      if a.out.Val? { AllOnward(f, a.s, e.args[1..]); }
    }
  }

  lemma InputLocked(fc: Frame, fa: Frame, s: S, e: Expr)
    requires Pair(fc, fa, s) && IsSync(e)
    ensures Locked(SyncInput(fc, s, e), SyncInput(fa, s, e))
  {
    if |e.args| == 4 && fc.channel && fc.exec.Some? {
      assert e.args[0] in e.args && forall x :: x in e.args[1..] ==> x in e.args;
      ExprLocked(fc, fa, s, e.args[0]);
      var c, a := EvalExpr(fc, s, e.args[0]), EvalExpr(fa, s, e.args[0]);
      if c == a && !a.s.acted && NoPut(a.s.sys.log) {
        if a.out.Val? { AllLocked(fc, fa, a.s, e.args[1..]); }
      } else {
        InputOnward(fc, s, e);
        InputOnward(fa, s, e);
        ApartStays(c.s, SyncInput(fc, s, e).s, a.s, SyncInput(fa, s, e).s);
      }
    }
  }

  /** On every world a preview and a transfer fail together, and the preview finds something to
      send or to remove exactly when the transfer then writes or removes something. */
  ghost predicate PreviewsAgree(m: Machine) {
    forall w: World, x, r, dst, compare, del {:trigger m.transfer(w, x, r, dst, compare, del)} ::
      PreviewAgrees(m.preview(w, x, r, dst, compare), m.transfer(w, x, r, dst, compare, del).0, del)
  }

  predicate PreviewAgrees(seen: Option<(nat, seq<string>)>, done: Option<(nat, nat)>, del: bool) {
    && (seen.None? <==> done.None?)
    && (seen.Some? ==> (seen.value.0 > 0 || (del && seen.value.1 != []) <==> done.value.0 + done.value.1 > 0))
  }

  lemma ZeroText(n: nat)
    ensures Itoa(n) == "0" <==> n == 0
  {
    if n < 10 {
      assert Decimal(n) == ["0123456789"[n]];
    } else {
      DecimalSome(n / 10);
    }
  }

  lemma {:induction false} DecimalSome(n: nat)
    ensures Decimal(n) != ""
    decreases n
  {
    if n >= 10 { DecimalSome(n / 10); }
  }

  /** After the transfer: apart since a write in its arguments, or broken alike, or both runs know
      whether it acts. */
  ghost predicate Synced<T>(c: R<T>, a: R<T>, idle: bool) {
    || (c.s.acted && !NoPut(a.s.sys.log))
    || (NoPut(a.s.sys.log) && !c.out.Val? && c.out == a.out && !c.s.acted && !a.s.acted)
    || (NoPut(a.s.sys.log) && c.out.Val? && a.out.Val? && c.s.acted == a.s.acted == !idle)
  }

  lemma TreeSynced(fc: Frame, fa: Frame, s: S, i: Input)
    requires Pair(fc, fa, s) && fc.exec.Some? && PreviewsAgree(fc.m)
    ensures var c, a := SyncTree(fc, s, i.src, i.dst, i.del, i.compare),
            SyncTree(fa, s, i.src, i.dst, i.del, i.compare);
            Synced(c, a, a.out == Val(VStr("0")))
  {
    var r := ResourceKey("dir.sync", i.src);
    var done := fa.m.transfer(s.sys.w, fa.exec.value, r, i.dst, i.compare, i.del == "true").0;
    if done.Some? { ZeroText(done.value.0 + done.value.1); }
    var kind := Event(fa.phase, Transferred(r));
    assert forall x :: x in s.sys.log + [kind] <==> x in s.sys.log || x == kind;
  }

  lemma SyncedExpr(fc: Frame, fa: Frame, s: S, e: Expr)
    requires Pair(fc, fa, s) && IsSync(e) && PreviewsAgree(fc.m)
    ensures var c, a := EvalExpr(fc, s, e), EvalExpr(fa, s, e); Synced(c, a, a.out == Val(VStr("0")))
  {
    InputLocked(fc, fa, s, e);
    SyncIs(fc, s, e);
    SyncIs(fa, s, e);
    var c, a := SyncInput(fc, s, e), SyncInput(fa, s, e);
    if c == a && !a.s.acted && NoPut(a.s.sys.log) {
      if a.out.Val? { TreeSynced(fc, fa, a.s, a.out.v); }
    } else {
      SyncOnward(fc, s, e);
      SyncOnward(fa, s, e);
      ApartStays(c.s, EvalExpr(fc, s, e).s, a.s, EvalExpr(fa, s, e).s);
    }
  }

  lemma SyncOnward(f: Frame, s: S, e: Expr)
    requires IsSync(e)
    ensures Onward(SyncInput(f, s, e).s, EvalExpr(f, s, e).s) && Onward(s, EvalExpr(f, s, e).s)
    ensures !EvalExpr(f, s, e).out.Callee?
  {
    SyncIs(f, s, e);
    InputOnward(f, s, e);
    var r := SyncInput(f, s, e);
    if r.out.Val? { TreeOnward(f, r.s, r.out.v); }
  }

  lemma TreeOnward(f: Frame, s: S, i: Input)
    requires f.exec.Some?
    ensures Onward(s, SyncTree(f, s, i.src, i.dst, i.del, i.compare).s)
    ensures !SyncTree(f, s, i.src, i.dst, i.del, i.compare).out.Callee?
  {
  }

  // --- an apply around a transfer ---

  ghost predicate Around(pre: seq<Stmt>, t: Stmt, post: seq<Stmt>) {
    SimpleStmts(pre) && SyncStmt(t) && BareStmts(post)
  }

  /** The transfer, when it is reached, reports nothing written and nothing removed. */
  ghost predicate Idle(f: Frame, s: S, pre: seq<Stmt>, t: Stmt)
    requires SyncStmt(t)
  {
    var r := EvalStmts(f, s, pre);
    r.out == Val(None) ==> EvalExpr(f, r.s, SyncOf(t)).out == Val(VStr("0"))
  }

  /** What follows the transfer, when it is reached, does not break. */
  ghost predicate Ends(f: Frame, s: S, pre: seq<Stmt>, t: Stmt, post: seq<Stmt>) {
    var r := EvalStmts(f, s, pre + [t]);
    r.out == Val(None) ==> EvalStmts(f, r.s, post).out.Val?
  }

  lemma OneStmt(f: Frame, s: S, t: Stmt)
    requires SyncStmt(t)
    ensures var r, e := EvalStmts(f, s, [t]), EvalExpr(f, s, SyncOf(t));
            && r.s.sys == e.s.sys && r.s.acted == e.s.acted
            && r.out == if e.out.Val? then Val(None) else e.out.PropagateFailure<Option<Outcome>>()
  {
    assert [t][1..] == [];
    assert EvalStmts(f, s, [t]).out == EvalStmt(f, s, t).out;
  }

  /** From the transfer on. */
  lemma RestSynced(fc: Frame, fa: Frame, s: S, t: Stmt, post: seq<Stmt>)
    requires Pair(fc, fa, s) && SyncStmt(t) && BareStmts(post) && PreviewsAgree(fc.m)
    requires Ends(fc, s, [], t, post) && Ends(fa, s, [], t, post)
    ensures Synced(EvalStmts(fc, s, [t] + post), EvalStmts(fa, s, [t] + post),
                   EvalExpr(fa, s, SyncOf(t)).out == Val(VStr("0")))
  {
    SyncedExpr(fc, fa, s, SyncOf(t));
    OneStmt(fc, s, t);
    OneStmt(fa, s, t);
    StmtsSplit(fc, s, [t], post);
    StmtsSplit(fa, s, [t], post);
    assert [] + [t] == [t];
    StmtsStill(fc, EvalStmts(fc, s, [t]).s, post);
    StmtsStill(fa, EvalStmts(fa, s, [t]).s, post);
  }

  /** Nothing before the transfer, after the statements before it. */
  lemma EndsAfter(f: Frame, s: S, pre: seq<Stmt>, t: Stmt, post: seq<Stmt>)
    requires Ends(f, s, pre, t, post) && EvalStmts(f, s, pre).out == Val(None)
    ensures Ends(f, EvalStmts(f, s, pre).s, [], t, post)
  {
    StmtsSplit(f, s, pre, [t]);
    assert [] + [t] == [t];
  }

  lemma RestOnward(f: Frame, s: S, t: Stmt, post: seq<Stmt>)
    requires SyncStmt(t) && BareStmts(post)
    ensures Onward(s, EvalStmts(f, s, [t] + post).s)
  {
    SyncOnward(f, s, SyncOf(t));
    OneStmt(f, s, t);
    StmtsSplit(f, s, [t], post);
    StmtsStill(f, EvalStmts(f, s, [t]).s, post);
  }

  /** The two runs of the whole apply. */
  lemma ApplySynced(fc: Frame, fa: Frame, s: S, pre: seq<Stmt>, t: Stmt, post: seq<Stmt>)
    requires Pair(fc, fa, s) && Around(pre, t, post) && PreviewsAgree(fc.m)
    requires Ends(fc, s, pre, t, post) && Ends(fa, s, pre, t, post)
    ensures Synced(EvalStmts(fc, s, pre + ([t] + post)), EvalStmts(fa, s, pre + ([t] + post)), Idle(fa, s, pre, t))
  {
    StmtsLocked(fc, fa, s, pre);
    StmtsSplit(fc, s, pre, [t] + post);
    StmtsSplit(fa, s, pre, [t] + post);
    var c, a := EvalStmts(fc, s, pre), EvalStmts(fa, s, pre);
    if c == a && !a.s.acted && NoPut(a.s.sys.log) {
      if a.out == Val(None) {
        EndsAfter(fc, s, pre, t, post);
        EndsAfter(fa, s, pre, t, post);
        RestSynced(fc, fa, a.s, t, post);
      }
    } else {
      RestOnward(fc, c.s, t, post);
      RestOnward(fa, a.s, t, post);
    }
  }

  /** Nothing in the apply calls a def. */
  lemma AroundCallsNothing(h: Frame, s: S, pre: seq<Stmt>, t: Stmt, post: seq<Stmt>)
    requires Around(pre, t, post)
    ensures !Calls(EvalStmts(h, s, pre + ([t] + post)))
  {
    SimpleCallsNothing(h, s, pre);
    StmtsSplit(h, s, pre, [t] + post);
    var r := EvalStmts(h, s, pre);
    if r.out == Val(None) {
      SyncOnward(h, r.s, SyncOf(t));
      OneStmt(h, r.s, t);
      StmtsSplit(h, r.s, [t], post);
      BareAreSimple(post);
      SimpleCallsNothing(h, EvalStmts(h, r.s, [t]).s, post);
    }
  }

  lemma SyncDry(f: Frame, sys: Sys, def: Def, i: nat, a: Args, with: map<string, string>, s: S, run: R<Option<Outcome>>)
    requires Framed(def, i) && f.mode == Check && Checked(f, sys, def, a, with) == R(Val(None), s) && !s.acted
    requires run == EvalStmts(In(Inside(f, def), ApplyPhase), s.(acted := false), def.phases[i].stmts)
    requires !run.out.Callee?
    ensures EvalDef(f, sys, def, a, with).0 == Done(Verdict(OK, "already")) <==> run.out.Val? && !run.s.acted
    ensures !run.out.Val? ==> EvalDef(f, sys, def, a, with).0 == Settle(run.PropagateFailure<Result>())
  {
    DefFromChecked(f, sys, def, i, a, with);
    CheckSide(Inside(f, def), s, def, i);
  }

  /** The apply at i is statements of primitives, one transfer, and what only names the outcome. */
  ghost predicate SyncApply(def: Def, i: nat, pre: seq<Stmt>, t: Stmt, post: seq<Stmt>) {
    Framed(def, i) && Around(pre, t, post) && def.phases[i].stmts == pre + ([t] + post)
  }

  /** Dry-run exactness for an inert apply with a transfer, on a target where previews and
      transfers agree. The dry run answers ok.already exactly when the statements of the real run's
      apply attempt no placement, do not break, and the transfer reports nothing written and nothing
      removed; what follows the transfer may branch differently in the two. When the real run breaks
      before any placement both break alike; and the verdict is the whole real run's exactly when
      the payload of the outcome reached attempts no placement, and then that run changes nothing. */
  lemma SyncExact(f: Frame, sys: Sys, def: Def, i: nat, a: Args, with: map<string, string>, pre: seq<Stmt>, t: Stmt,
      post: seq<Stmt>)
    requires SyncApply(def, i, pre, t, post) && PreviewsAgree(f.m) && f.mode == Check && NoPut(sys.log)
    requires Checked(f, sys, def, a, with).out == Val(None)
    requires var s, h := Checked(f, sys, def, a, with).s.(acted := false), In(Inside(f, def), ApplyPhase);
             Ends(h, s, pre, t, post) && Ends(h.(mode := Apply), s, pre, t, post)
    ensures var fa := f.(mode := Apply);
            var dry, live := EvalDef(f, sys, def, a, with), EvalDef(fa, sys, def, a, with);
            var s, h := Checked(f, sys, def, a, with).s.(acted := false), In(Inside(fa, def), ApplyPhase);
            var run := ApplyRun(fa, def, i, s);
            var already := dry.0 == Done(Verdict(OK, "already"));
            && (already <==> run.out.Val? && NoPut(run.s.sys.log) && Idle(h, s, pre, t))
            && (NoPut(run.s.sys.log) && !run.out.Val? ==> dry.0 == live.0)
            && (already ==> (NoPut(live.1.log) <==> !PayloadPlaces(h, run)))
            && (already && NoPut(live.1.log) && live.0.Done? ==> !live.0.res.changed)
  {
    var fa := f.(mode := Apply);
    CheckedSame(f, sys, fa, sys, def, a, with);
    var s0 := Checked(f, sys, def, a, with).s;
    var s := s0.(acted := false);
    var hc, h := In(Inside(f, def), ApplyPhase), In(Inside(fa, def), ApplyPhase);
    ApplySynced(hc, h, s, pre, t, post);
    AroundCallsNothing(hc, s, pre, t, post);
    AroundCallsNothing(h, s, pre, t, post);
    SyncDry(f, sys, def, i, a, with, s0, EvalStmts(hc, s, pre + ([t] + post)));
    LiveSide(fa, sys, def, i, a, with);
    PayloadSide(h, ApplyRun(fa, def, i, s));
  }
}
