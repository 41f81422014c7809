/** A dry run of an apply made of primitives gives the verdict the real run earns: lockstep
    of the two evaluations up to the first write that would differ. */
module DryRun {
  import opened Basics
  import opened Ast
  import opened Eval
  import opened EarlyRefusal
  import opened Front

  ghost predicate NoPut(log: seq<Event>) {
    forall e :: e in log ==> !e.kind.Put?
  }

  /** Primitives only, and no tree transfer. */
  ghost predicate Simple(e: Expr) {
    match e
    case Shell(_, _) => false
    case Call(_, _) => false
    case Primitive(n, args) => n != "dir.sync" && forall a :: a in args ==> Simple(a)
    case Compare(_, l, r) => Simple(l) && Simple(r)
    case Not(x) => Simple(x)
    case Field(x, _) => Simple(x)
    case _ => true
  }

  /** No write at any depth. */
  ghost predicate Writeless(e: Expr) {
    match e
    case Primitive(n, args) => n != "file.write" && forall a :: a in args ==> Writeless(a)
    case Compare(_, l, r) => Writeless(l) && Writeless(r)
    case Not(x) => Writeless(x)
    case Field(x, _) => Writeless(x)
    case _ => true
  }

  ghost predicate SimpleStmt(st: Stmt) {
    match st
    case Let(_, e) => Simple(e)
    case Effect(e) => Simple(e)
    case If(c, body) => Simple(c) && forall b :: b in body ==> SimpleStmt(b)
    case Return(o) => o.payload.Some? ==> Simple(o.payload.value)
    case StateReturn(fields) => forall x :: x in fields ==> Simple(x.value)
  }

  ghost predicate SimpleStmts(stmts: seq<Stmt>) {
    forall s :: s in stmts ==> SimpleStmt(s)
  }

  lemma {:induction false} SimpleIsInert(e: Expr)
    requires Simple(e)
    ensures InertExpr(e)
  {
    match e
    case Primitive(_, args) => forall a | a in args ensures InertExpr(a) { SimpleIsInert(a); }
    case Compare(_, l, r) =>
      SimpleIsInert(l);
      SimpleIsInert(r);
    case Not(x) => SimpleIsInert(x);
    case Field(x, _) => SimpleIsInert(x);
    case _ =>
  }

  lemma {:induction false} SimpleStmtIsInert(st: Stmt)
    requires SimpleStmt(st)
    ensures InertStmt(st)
  {
    match st
    case Let(_, e) => SimpleIsInert(e);
    case Effect(e) => SimpleIsInert(e);
    case If(c, body) =>
      SimpleIsInert(c);
      forall b | b in body ensures InertStmt(b) { SimpleStmtIsInert(b); }
    case Return(o) => if o.payload.Some? { SimpleIsInert(o.payload.value); }
    case StateReturn(fields) => forall x | x in fields ensures InertExpr(x.value) { SimpleIsInert(x.value); }
  }

  // --- what an evaluation never takes back ---

  /** The log only grows, and having acted is never forgotten. */
  ghost predicate Onward(s: S, s1: S) {
    s.sys.log <= s1.sys.log && (s.acted ==> s1.acted)
  }

  lemma {:induction false} ExprOnward(f: Frame, s: S, e: Expr)
    requires Simple(e)
    ensures Onward(s, EvalExpr(f, s, e).s)
    decreases e, 3
  {
    match e
    case Field(x, _) => ExprOnward(f, s, x);
    case Compare(_, l, r) =>
      ExprOnward(f, s, l);
      if EvalExpr(f, s, l).out.Val? { ExprOnward(f, EvalExpr(f, s, l).s, r); }
    case Not(x) => ExprOnward(f, s, x);
    case Primitive(_, _) => PrimitiveOnward(f, s, e);
    case _ =>
  }

  lemma WriteOnward(f: Frame, s: S, path: string, content: string)
    requires f.exec.Some?
    ensures Onward(s, WriteFile(f, s, path, content).s)
  {
  }

  lemma ReadOnward(f: Frame, s: S, name: string, v: Value)
    requires f.exec.Some?
    ensures Onward(s, ReadPath(f, s, name, v).s) && Onward(s, Render(f, s, v).s)
  {
  }

  lemma {:induction false} WriteArgsOnward(f: Frame, s: S, e: Expr, v: Value)
    requires Simple(e) && e.Primitive? && |e.args| == 2 && f.exec.Some?
    ensures Onward(s, EvalWrite(f, s, e, v).s)
    decreases e, 0
  {
    if v.VStr? {
      assert e.args[1] in e.args;
      ExprOnward(f, s, e.args[1]);
      var c := EvalExpr(f, s, e.args[1]);
      if c.out.Val? && (c.out.v.VStr? || c.out.v.VBytes?) { WriteOnward(f, c.s, v.s, TextOf(c.out.v)); }
    }
  }

  /** What a primitive does after its first argument only goes on from there. */
  lemma {:induction false} DispatchOnward(f: Frame, s: S, e: Expr)
    requires Simple(e) && e.Primitive? && |e.args| == PrimitiveArity(e.name) && !IsText(e.name)
    requires f.channel && f.exec.Some?
    ensures Onward(EvalExpr(f, s, e.args[0]).s, EvalPrimitive(f, s, e).s)
    decreases e, 1
  {
    var a := EvalExpr(f, s, e.args[0]);
    if a.out.Val? {
      if e.name == "file.write" {
        WriteArgsOnward(f, a.s, e, a.out.v);
      } else {
        ReadOnward(f, a.s, e.name, a.out.v);
      }
    }
  }

  lemma {:induction false} PrimitiveOnward(f: Frame, s: S, e: Expr)
    requires Simple(e) && e.Primitive?
    ensures Onward(s, EvalPrimitive(f, s, e).s)
    decreases e, 2
  {
    if |e.args| == PrimitiveArity(e.name) {
      assert e.args[0] in e.args;
      if IsText(e.name) {
        ExprOnward(f, s, e.args[0]);
        TextOnward(f, s, e);
      } else if f.channel && f.exec.Some? {
        ExprOnward(f, s, e.args[0]);
        DispatchOnward(f, s, e);
      }
    }
  }

  /** The states an evaluation of a text primitive goes through. */
  lemma {:induction false} TextOnward(f: Frame, s: S, e: Expr)
    requires Simple(e) && e.Primitive? && |e.args| == PrimitiveArity(e.name) && IsText(e.name)
    ensures var a := EvalExpr(f, s, e.args[0]);
            Onward(a.s, EvalText(f, s, e).s) &&
            (a.out.Val? ==> Onward(EvalExpr(f, a.s, e.args[1]).s, EvalText(f, s, e).s))
    decreases e, 0
  {
    assert forall i :: 0 <= i < |e.args| ==> e.args[i] in e.args;
    var a := EvalExpr(f, s, e.args[0]);
    if a.out.Val? {
      ExprOnward(f, a.s, e.args[1]);
      var b := EvalExpr(f, a.s, e.args[1]);
      if b.out.Val? && |e.args| > 2 { ExprOnward(f, b.s, e.args[2]); }
    }
  }

  lemma {:induction false} StmtOnward(f: Frame, s: S, st: Stmt)
    requires SimpleStmt(st)
    ensures Onward(s, EvalStmt(f, s, st).s)
    decreases st, 0
  {
    match st
    case Let(_, e) => ExprOnward(f, s, e);
    case Effect(e) => ExprOnward(f, s, e);
    case If(c, body) =>
      ExprOnward(f, s, c);
      var r := EvalExpr(f, s, c);
      if r.out.Val? && Truthy(r.out.v) { StmtsOnward(f, r.s, body); }
    case _ =>
  }

  lemma {:induction false} StmtsOnward(f: Frame, s: S, stmts: seq<Stmt>)
    requires SimpleStmts(stmts)
    ensures Onward(s, EvalStmts(f, s, stmts).s)
    decreases stmts, 0
  {
    if stmts != [] {
      assert SimpleStmt(stmts[0]);
      StmtOnward(f, s, stmts[0]);
      var r := EvalStmt(f, s, stmts[0]);
      if r.out.Val? && r.out.v.None? { StmtsOnward(f, r.s, stmts[1..]); }
    }
  }

  // --- lockstep ---

  /** Nothing differed yet, or the real run attempted a write and the dry run knows it. */
  ghost predicate Locked<T>(c: R<T>, a: R<T>) {
    || (c == a && !a.s.acted && NoPut(a.s.sys.log))
    || (c.s.acted && !NoPut(a.s.sys.log))
  }

  ghost predicate Pair(fc: Frame, fa: Frame, s: S) {
    fc.mode == Check && fa == fc.(mode := Apply) && !s.acted && NoPut(s.sys.log)
  }

  /** Once apart, always apart. */
  lemma ApartStays(c: S, c1: S, a: S, a1: S)
    requires c.acted && !NoPut(a.sys.log) && Onward(c, c1) && Onward(a, a1)
    ensures c1.acted && !NoPut(a1.sys.log)
  {
  }

  lemma WriteLocked(fc: Frame, fa: Frame, s: S, path: string, content: string)
    requires Pair(fc, fa, s) && fc.exec.Some?
    ensures Locked(WriteFile(fc, s, path, content), WriteFile(fa, s, path, content))
  {
    if path != "" {
      var g := Event(fc.phase, Guarded(path));
      assert forall e :: e in s.sys.log + [g] <==> e in s.sys.log || e == g;
      var p := Event(fc.phase, Put(path));
      assert p in s.sys.log + [g] + [p];
    }
  }

  lemma {:induction false} ExprLocked(fc: Frame, fa: Frame, s: S, e: Expr)
    requires Pair(fc, fa, s) && Simple(e)
    ensures Locked(EvalExpr(fc, s, e), EvalExpr(fa, s, e))
    decreases e, 2
  {
    match e
    case Field(x, _) => ExprLocked(fc, fa, s, x);
    case Compare(_, l, r) => CompareLocked(fc, fa, s, e);
    case Not(x) => ExprLocked(fc, fa, s, x);
    case Primitive(_, _) => PrimitiveLocked(fc, fa, s, e);
    case _ =>
  }

  lemma {:induction false} CompareLocked(fc: Frame, fa: Frame, s: S, e: Expr)
    requires Pair(fc, fa, s) && Simple(e) && e.Compare?
    ensures Locked(EvalExpr(fc, s, e), EvalExpr(fa, s, e))
    decreases e, 1
  {
    ExprLocked(fc, fa, s, e.l);
    var c, a := EvalExpr(fc, s, e.l), EvalExpr(fa, s, e.l);
    if c == a && !a.s.acted && NoPut(a.s.sys.log) {
      if a.out.Val? { ExprLocked(fc, fa, a.s, e.r); }
    } else {
      CompareRest(fc, s, e);
      CompareRest(fa, s, e);
      ApartStays(c.s, EvalExpr(fc, s, e).s, a.s, EvalExpr(fa, s, e).s);
    }
  }

  lemma {:induction false} CompareRest(f: Frame, s: S, e: Expr)
    requires Simple(e) && e.Compare?
    ensures Onward(EvalExpr(f, s, e.l).s, EvalExpr(f, s, e).s)
  {
    var l := EvalExpr(f, s, e.l);
    if l.out.Val? { ExprOnward(f, l.s, e.r); }
  }

  lemma {:induction false} PrimitiveLocked(fc: Frame, fa: Frame, s: S, e: Expr)
    requires Pair(fc, fa, s) && Simple(e) && e.Primitive?
    ensures Locked(EvalPrimitive(fc, s, e), EvalPrimitive(fa, s, e))
    decreases e, 1
  {
    if |e.args| == PrimitiveArity(e.name) {
      assert forall i :: 0 <= i < |e.args| ==> Simple(e.args[i]);
      if IsText(e.name) {
        TextLocked(fc, fa, s, e);
      } else if fc.channel && fc.exec.Some? {
        ExprLocked(fc, fa, s, e.args[0]);
        var c, a := EvalExpr(fc, s, e.args[0]), EvalExpr(fa, s, e.args[0]);
        if c == a && !a.s.acted && NoPut(a.s.sys.log) {
          if a.out.Val? { DispatchLocked(fc, fa, a.s, e, a.out.v); }
        } else {
          DispatchOnward(fc, s, e);
          DispatchOnward(fa, s, e);
          ApartStays(c.s, EvalPrimitive(fc, s, e).s, a.s, EvalPrimitive(fa, s, e).s);
        }
      }
    }
  }

  lemma {:induction false} DispatchLocked(fc: Frame, fa: Frame, s: S, e: Expr, v: Value)
    requires Pair(fc, fa, s) && Simple(e) && e.Primitive? && |e.args| == PrimitiveArity(e.name) && !IsText(e.name)
    requires fc.channel && fc.exec.Some?
    ensures e.name == "file.write" ==> Locked(EvalWrite(fc, s, e, v), EvalWrite(fa, s, e, v))
    ensures e.name == "file.read" || e.name == "dir.list" ==>
            Locked(ReadPath(fc, s, e.name, v), ReadPath(fa, s, e.name, v))
    ensures e.name == "file.render" ==> Locked(Render(fc, s, v), Render(fa, s, v))
    decreases e, 0
  {
    if e.name == "file.write" {
      if v.VStr? {
        assert e.args[1] in e.args;
        ExprLocked(fc, fa, s, e.args[1]);
        var c, a := EvalExpr(fc, s, e.args[1]), EvalExpr(fa, s, e.args[1]);
        if c == a && !a.s.acted && NoPut(a.s.sys.log) {
          if a.out.Val? && (a.out.v.VStr? || a.out.v.VBytes?) { WriteLocked(fc, fa, a.s, v.s, TextOf(a.out.v)); }
        } else {
          WriteRestOnward(fc, s, e, v);
          WriteRestOnward(fa, s, e, v);
          ApartStays(c.s, EvalWrite(fc, s, e, v).s, a.s, EvalWrite(fa, s, e, v).s);
        }
      }
    } else if e.name == "file.read" || e.name == "dir.list" {
      ReadLocked(fc, fa, s, e.name, v);
    } else if e.name == "file.render" {
      ReadLocked(fc, fa, s, "file.render", v);
    }
  }

  lemma {:induction false} WriteRestOnward(f: Frame, s: S, e: Expr, v: Value)
    requires Simple(e) && e.Primitive? && |e.args| == 2 && f.exec.Some? && v.VStr?
    ensures Onward(EvalExpr(f, s, e.args[1]).s, EvalWrite(f, s, e, v).s)
  {
    var c := EvalExpr(f, s, e.args[1]);
    if c.out.Val? && (c.out.v.VStr? || c.out.v.VBytes?) { WriteOnward(f, c.s, v.s, TextOf(c.out.v)); }
  }

  lemma ReadLocked(fc: Frame, fa: Frame, s: S, name: string, v: Value)
    requires Pair(fc, fa, s) && fc.exec.Some?
    ensures Locked(ReadPath(fc, s, name, v), ReadPath(fa, s, name, v)) && Locked(Render(fc, s, v), Render(fa, s, v))
  {
  }

  lemma {:induction false} TextLocked(fc: Frame, fa: Frame, s: S, e: Expr)
    requires Pair(fc, fa, s) && Simple(e) && e.Primitive? && |e.args| == PrimitiveArity(e.name) && IsText(e.name)
    ensures Locked(EvalText(fc, s, e), EvalText(fa, s, e))
    decreases e, 0
  {
    assert forall i :: 0 <= i < |e.args| ==> e.args[i] in e.args;
    TextOnward(fc, s, e);
    TextOnward(fa, s, e);
    ExprLocked(fc, fa, s, e.args[0]);
    var c, a := EvalExpr(fc, s, e.args[0]), EvalExpr(fa, s, e.args[0]);
    if !(c == a && !a.s.acted && NoPut(a.s.sys.log)) {
      ApartStays(c.s, EvalText(fc, s, e).s, a.s, EvalText(fa, s, e).s);
    } else if a.out.Val? {
      ExprLocked(fc, fa, a.s, e.args[1]);
      var c1, a1 := EvalExpr(fc, a.s, e.args[1]), EvalExpr(fa, a.s, e.args[1]);
      if !(c1 == a1 && !a1.s.acted && NoPut(a1.s.sys.log)) {
        ApartStays(c1.s, EvalText(fc, s, e).s, a1.s, EvalText(fa, s, e).s);
      } else if a1.out.Val? && |e.args| > 2 {
        ExprLocked(fc, fa, a1.s, e.args[2]);
      }
    }
  }

  lemma {:induction false} StmtLocked(fc: Frame, fa: Frame, s: S, st: Stmt)
    requires Pair(fc, fa, s) && SimpleStmt(st)
    ensures Locked(EvalStmt(fc, s, st), EvalStmt(fa, s, st))
    decreases st, 0
  {
    match st
    case Let(_, e) => ExprLocked(fc, fa, s, e);
    case Effect(e) => ExprLocked(fc, fa, s, e);
    case If(cond, body) =>
      ExprLocked(fc, fa, s, cond);
      var c, a := EvalExpr(fc, s, cond), EvalExpr(fa, s, cond);
      if c == a && !a.s.acted && NoPut(a.s.sys.log) {
        if a.out.Val? && Truthy(a.out.v) { StmtsLocked(fc, fa, a.s, body); }
      } else {
        if c.out.Val? { StmtsOnward(fc, c.s, body); }
        if a.out.Val? { StmtsOnward(fa, a.s, body); }
        ApartStays(c.s, EvalStmt(fc, s, st).s, a.s, EvalStmt(fa, s, st).s);
      }
    case _ =>
  }

  lemma {:induction false} StmtsLocked(fc: Frame, fa: Frame, s: S, stmts: seq<Stmt>)
    requires Pair(fc, fa, s) && SimpleStmts(stmts)
    ensures Locked(EvalStmts(fc, s, stmts), EvalStmts(fa, s, stmts))
    decreases stmts, 0
  {
    if stmts != [] {
      assert SimpleStmt(stmts[0]);
      StmtLocked(fc, fa, s, stmts[0]);
      var c, a := EvalStmt(fc, s, stmts[0]), EvalStmt(fa, s, stmts[0]);
      if c == a && !a.s.acted && NoPut(a.s.sys.log) {
        if a.out.Val? && a.out.v.None? { StmtsLocked(fc, fa, a.s, stmts[1..]); }
      } else {
        if c.out.Val? { StmtsOnward(fc, c.s, stmts[1..]); }
        if a.out.Val? { StmtsOnward(fa, a.s, stmts[1..]); }
        ApartStays(c.s, EvalStmts(fc, s, stmts).s, a.s, EvalStmts(fa, s, stmts).s);
      }
    }
  }

  // --- without a call there is no callee's error ---

  lemma {:induction false} ExprNoCallee(f: Frame, s: S, e: Expr)
    requires Simple(e)
    ensures !EvalExpr(f, s, e).out.Callee?
    decreases e, 1
  {
    match e
    case Field(x, _) => ExprNoCallee(f, s, x);
    case Compare(_, l, r) =>
      ExprNoCallee(f, s, l);
      if EvalExpr(f, s, l).out.Val? { ExprNoCallee(f, EvalExpr(f, s, l).s, r); }
    case Not(x) => ExprNoCallee(f, s, x);
    case Primitive(_, _) => PrimitiveNoCallee(f, s, e);
    case _ =>
  }

  lemma {:induction false} PrimitiveNoCallee(f: Frame, s: S, e: Expr)
    requires Simple(e) && e.Primitive?
    ensures !EvalPrimitive(f, s, e).out.Callee?
    decreases e, 0
  {
    if |e.args| == PrimitiveArity(e.name) {
      assert forall i :: 0 <= i < |e.args| ==> e.args[i] in e.args;
      ExprNoCallee(f, s, e.args[0]);
      var a := EvalExpr(f, s, e.args[0]);
      if a.out.Val? && |e.args| > 1 {
        ExprNoCallee(f, a.s, e.args[1]);
        var b := EvalExpr(f, a.s, e.args[1]);
        if b.out.Val? && |e.args| > 2 { ExprNoCallee(f, b.s, e.args[2]); }
      }
    }
  }

  lemma {:induction false} StmtNoCallee(f: Frame, s: S, st: Stmt)
    requires SimpleStmt(st)
    ensures !EvalStmt(f, s, st).out.Callee?
    decreases st, 0
  {
    match st
    case Let(_, e) => ExprNoCallee(f, s, e);
    case Effect(e) => ExprNoCallee(f, s, e);
    case If(c, body) =>
      ExprNoCallee(f, s, c);
      var r := EvalExpr(f, s, c);
      if r.out.Val? && Truthy(r.out.v) { StmtsNoCallee(f, r.s, body); }
    case _ =>
  }

  lemma {:induction false} StmtsNoCallee(f: Frame, s: S, stmts: seq<Stmt>)
    requires SimpleStmts(stmts)
    ensures !EvalStmts(f, s, stmts).out.Callee?
    decreases stmts, 0
  {
    if stmts != [] {
      assert SimpleStmt(stmts[0]);
      StmtNoCallee(f, s, stmts[0]);
      var r := EvalStmt(f, s, stmts[0]);
      if r.out.Val? && r.out.v.None? { StmtsNoCallee(f, r.s, stmts[1..]); }
    }
  }

  // --- a payload without a write ---

  ghost predicate Quiet(s: S, s1: S) {
    s1.acted == s.acted && (NoPut(s.sys.log) ==> NoPut(s1.sys.log))
  }

  lemma ReadQuiet(f: Frame, s: S, name: string, v: Value)
    requires f.exec.Some?
    ensures Quiet(s, ReadPath(f, s, name, v).s) && Quiet(s, Render(f, s, v).s)
  {
  }

  lemma {:induction false} ExprQuiet(f: Frame, s: S, e: Expr)
    requires Simple(e) && Writeless(e)
    ensures Quiet(s, EvalExpr(f, s, e).s) && !EvalExpr(f, s, e).out.Callee?
    decreases e, 1
  {
    match e
    case Field(x, _) => ExprQuiet(f, s, x);
    case Compare(_, l, r) =>
      ExprQuiet(f, s, l);
      if EvalExpr(f, s, l).out.Val? { ExprQuiet(f, EvalExpr(f, s, l).s, r); }
    case Not(x) => ExprQuiet(f, s, x);
    case Primitive(_, _) => PrimitiveQuiet(f, s, e);
    case _ =>
  }

  lemma {:induction false} PrimitiveQuiet(f: Frame, s: S, e: Expr)
    requires Simple(e) && Writeless(e) && e.Primitive?
    ensures Quiet(s, EvalPrimitive(f, s, e).s) && !EvalPrimitive(f, s, e).out.Callee?
    decreases e, 0
  {
    if |e.args| == PrimitiveArity(e.name) {
      assert forall i :: 0 <= i < |e.args| ==> e.args[i] in e.args;
      ExprQuiet(f, s, e.args[0]);
      var a := EvalExpr(f, s, e.args[0]);
      if a.out.Val? {
        if !IsText(e.name) {
          if f.exec.Some? { ReadQuiet(f, a.s, e.name, a.out.v); }
        } else {
          ExprQuiet(f, a.s, e.args[1]);
          var b := EvalExpr(f, a.s, e.args[1]);
          if b.out.Val? && |e.args| > 2 { ExprQuiet(f, b.s, e.args[2]); }
        }
      }
    }
  }

  /** The payload a run of statements ends with, if it does. */
  ghost predicate SimplePayload(o: Option<Outcome>) {
    o.Some? && o.value.payload.Some? ==> Simple(o.value.payload.value)
  }

  lemma {:induction false} PayloadOfStmt(f: Frame, s: S, st: Stmt)
    requires SimpleStmt(st)
    ensures var r := EvalStmt(f, s, st); r.out.Val? ==> SimplePayload(r.out.v)
    decreases st, 0
  {
    if st.If? {
      var r := EvalExpr(f, s, st.cond);
      if r.out.Val? && Truthy(r.out.v) { PayloadOf(f, r.s, st.body); }
    }
  }

  lemma {:induction false} PayloadOf(f: Frame, s: S, stmts: seq<Stmt>)
    requires SimpleStmts(stmts)
    ensures var r := EvalStmts(f, s, stmts); r.out.Val? ==> SimplePayload(r.out.v)
    decreases stmts, 0
  {
    if stmts != [] {
      assert SimpleStmt(stmts[0]);
      PayloadOfStmt(f, s, stmts[0]);
      var r := EvalStmt(f, s, stmts[0]);
      if r.out.Val? && r.out.v.None? { PayloadOf(f, r.s, stmts[1..]); }
    }
  }

  // --- a def whose dry run is exact ---

  /** The apply is the phase at i and no other. */
  ghost predicate OnlyApply(phases: seq<Phase>, i: nat) {
    && i < |phases| && phases[i].name == ApplyPhase
    && forall j :: 0 <= j < |phases| && j != i ==> phases[j].name != ApplyPhase
  }

  /** No observe, pure checks and defaults, and an apply that cannot act. */
  ghost predicate Framed(def: Def, i: nat) {
    && def.delegate.None? && OnlyApply(def.phases, i)
    && (forall st :: st in def.phases[i].stmts ==> InertStmt(st))
    && (forall j :: 0 <= j < |def.phases| ==> def.phases[j].name != ObservePhase)
    && PureFront(def)
  }

  /** And that apply is without a transfer. */
  ghost predicate Predictable(def: Def, i: nat) {
    Framed(def, i) && SimpleStmts(def.phases[i].stmts)
  }

  lemma {:induction false} OnlyApplyIsLast(phases: seq<Phase>, i: nat)
    requires OnlyApply(phases, i)
    ensures LastPhase(phases, ApplyPhase) == Some(phases[i].stmts)
    decreases |phases|
  {
    if i < |phases| - 1 { OnlyApplyIsLast(phases[..|phases| - 1], i); }
  }

  lemma {:induction false} NoneNamed(f: Frame, s: S, name: PhaseName, phases: seq<Phase>)
    requires forall j :: 0 <= j < |phases| ==> phases[j].name != name
    ensures EvalNamed(f, s, name, phases) == R(Val(None), s)
    decreases |phases|
  {
    if phases != [] { NoneNamed(f, s, name, phases[1..]); }
  }

  lemma {:induction false} OnlyApplyRuns(f: Frame, s: S, phases: seq<Phase>, i: nat)
    requires OnlyApply(phases, i)
    ensures EvalNamed(f, s, ApplyPhase, phases) == RunPhase(f, s, phases[i])
    decreases |phases|
  {
    if i > 0 {
      OnlyApplyRuns(f, s, phases[1..], i - 1);
    } else {
      var r := RunPhase(f, s, phases[0]);
      if r.out.Val? && r.out.v.None? {
        NoneNamed(f, r.s, ApplyPhase, phases[1..]);
      }
    }
  }

  /** Without an observe, pass 1 is the checks. */
  lemma {:induction false} DecideIsChecks(f: Frame, s: S, def: Def, desired: map<string, string>, phases: seq<Phase>)
    requires !IsQuestion(def) && forall j :: 0 <= j < |phases| ==> phases[j].name != ObservePhase
    ensures EvalDecide(f, s, def, desired, phases) == EvalNamed(f, s, CheckPhase, phases)
    decreases |phases|
  {
    if phases != [] {
      var r := DecidePhase(f, s, def, desired, phases[0]);
      if phases[0].name == CheckPhase {
        assert r == RunPhase(f, s, phases[0]);
      }
      if r.out.Val? && r.out.v.None? { DecideIsChecks(f, r.s, def, desired, phases[1..]); }
    }
  }

  /** Where EvalDef goes from there. */
  lemma DefFromChecked(f: Frame, sys: Sys, def: Def, i: nat, a: Args, with: map<string, string>)
    requires Framed(def, i) && f.mode != Status
    ensures var g, c := Inside(f, def), Checked(f, sys, def, a, with);
            EvalDef(f, sys, def, a, with) ==
            if !c.out.Val? then (Settle(c.PropagateFailure<Result>()), c.s.sys)
            else if c.out.v.Some? then (Done(c.out.v.value), c.s.sys)
            else
              var r := AfterChecks(g, c.s, def, Desired(EvalPrologue(g, sys, def, a, with).s.vars, def.params));
              (Settle(r), r.s.sys)
  {
    var g := Inside(f, def);
    var p := EvalPrologue(g, sys, def, a, with);
    assert !IsQuestion(def) by { assert def.phases[i] in def.phases; }
    if p.out.Val? { DecideIsChecks(g, p.s, def, Desired(p.s.vars, def.params), def.phases); }
  }

  ghost function AfterChecks(g: Frame, s: S, def: Def, desired: map<string, string>): R<Result> {
    if g.mode == Check then EvalAnnounce(g, s, def)
    else
      var r := EvalApplies(g, s.(acted := false), def.phases);
      if r.out.Val? then EvalConfirm(g, r.s, def, desired, r.out.v) else r
  }

  /** The apply's statements, as the run in mode f evaluates them. */
  ghost function ApplyRun(f: Frame, def: Def, i: nat, s: S): R<Option<Outcome>>
    requires i < |def.phases|
  {
    EvalStmts(In(Inside(f, def), ApplyPhase), s.(acted := false), def.phases[i].stmts)
  }

  lemma CheckSide(g: Frame, s: S, def: Def, i: nat)
    requires Framed(def, i) && g.mode == Check && !s.acted
    ensures var c := EvalStmts(In(g, ApplyPhase), s.(acted := false), def.phases[i].stmts);
            var out := EvalAnnounce(g, s, def).out;
            (!c.out.Val? ==> out == c.PropagateFailure<Result>().out) &&
            (c.out.Val? && !c.s.acted ==> out == Val(Verdict(OK, "already"))) &&
            (c.out.Val? && c.s.acted ==> !(out.Val? && out.v.category == OK))
  {
    OnlyApplyIsLast(def.phases, i);
    assert !HasPhase(def.phases, ObservePhase);
    assert InertApply(def) == Some(def.phases[i].stmts);
  }

  /** Where the payload of the outcome reached leaves the real run; without one, where the
      statements did. */
  ghost function AfterPayload(h: Frame, run: R<Option<Outcome>>): S {
    if run.out.Val? && run.out.v.Some? && run.out.v.value.payload.Some?
    then EvalExpr(h, run.s, run.out.v.value.payload.value).s else run.s
  }

  lemma ApplySide(g: Frame, s: S, def: Def, i: nat)
    requires Framed(def, i) && g.mode == Apply
    ensures var h := In(g, ApplyPhase);
            var a := EvalStmts(h, s.(acted := false), def.phases[i].stmts);
            var r := EvalApplies(g, s.(acted := false), def.phases);
            && r.s == AfterPayload(h, a)
            && (!a.out.Val? ==> r == a.PropagateFailure<Result>())
            && (r.out.Val? ==> !r.out.v.changed)
  {
    OnlyApplyRuns(g, s.(acted := false), def.phases, i);
  }

  /** The statements end without a callee's error, and so does the payload they reach. */
  ghost predicate Calls(run: R<Option<Outcome>>) {
    run.out.Callee? || (run.out.Val? && !SimplePayload(run.out.v))
  }

  lemma PayloadNoCallee(g: Frame, s: S, def: Def, i: nat)
    requires Framed(def, i) && !Calls(EvalStmts(In(g, ApplyPhase), s.(acted := false), def.phases[i].stmts))
    ensures !EvalApplies(g, s.(acted := false), def.phases).out.Callee?
  {
    var h, stmts := In(g, ApplyPhase), def.phases[i].stmts;
    OnlyApplyRuns(g, s.(acted := false), def.phases, i);
    var a := EvalStmts(h, s.(acted := false), stmts);
    if a.out.Val? && a.out.v.Some? && a.out.v.value.payload.Some? { ExprNoCallee(h, a.s, a.out.v.value.payload.value); }
  }

  /** A payload that attempts no placement does nothing at all; whatever it does, it takes
      nothing back. */
  lemma PayloadSide(h: Frame, run: R<Option<Outcome>>)
    requires h.mode == Apply && (run.out.Val? ==> SimplePayload(run.out.v))
    ensures run.s.sys.log <= AfterPayload(h, run).sys.log
    ensures !run.s.acted && NoPut(AfterPayload(h, run).sys.log) ==> !AfterPayload(h, run).acted
  {
    if run.out.Val? && run.out.v.Some? && run.out.v.value.payload.Some? {
      var e := run.out.v.value.payload.value;
      ExprOnward(h, run.s, e);
      if !run.s.acted && NoPut(AfterPayload(h, run).sys.log) {
        assert NoPut(run.s.sys.log) by { assert forall x :: x in run.s.sys.log ==> x in AfterPayload(h, run).sys.log; }
        ExprLocked(h.(mode := Check), h, run.s, e);
      }
    }
  }

  /** The whole real run: the statements, the payload, and nothing to confirm. */
  lemma LiveSide(f: Frame, sys: Sys, def: Def, i: nat, a: Args, with: map<string, string>)
    requires Framed(def, i) && f.mode == Apply && Checked(f, sys, def, a, with).out == Val(None)
    requires !Calls(ApplyRun(f, def, i, Checked(f, sys, def, a, with).s))
    ensures var s := Checked(f, sys, def, a, with).s;
            var run := ApplyRun(f, def, i, s);
            var h := In(Inside(f, def), ApplyPhase);
            var live := EvalDef(f, sys, def, a, with);
            && live.1 == AfterPayload(h, run).sys
            && (!run.out.Val? ==> live.0 == Settle(run.PropagateFailure<Result>()))
            && (live.0.Done? && !AfterPayload(h, run).acted && run.out.Val? ==> !live.0.res.changed)
  {
    var g, s := Inside(f, def), Checked(f, sys, def, a, with).s;
    DefFromChecked(f, sys, def, i, a, with);
    ApplySide(g, s, def, i);
    PayloadNoCallee(g, s, def, i);
    ConfirmQuiet(g, s, def, i, Desired(EvalPrologue(g, sys, def, a, with).s.vars, def.params));
  }

  /** Without a call in the apply. */
  lemma SimpleCallsNothing(h: Frame, s: S, stmts: seq<Stmt>)
    requires SimpleStmts(stmts)
    ensures !Calls(EvalStmts(h, s, stmts))
  {
    StmtsNoCallee(h, s, stmts);
    PayloadOf(h, s, stmts);
  }

  /** The dry run: what the statements alone would do. */
  lemma DrySide(f: Frame, sys: Sys, def: Def, i: nat, a: Args, with: map<string, string>)
    requires Predictable(def, i) && f.mode == Check && NoPut(sys.log)
    requires Checked(f, sys, def, a, with).out == Val(None)
    ensures var run := ApplyRun(f.(mode := Apply), def, i, Checked(f, sys, def, a, with).s);
            var dry := EvalDef(f, sys, def, a, with);
            && (dry.0 == Done(Verdict(OK, "already")) <==> run.out.Val? && NoPut(run.s.sys.log))
            && (NoPut(run.s.sys.log) ==> !run.s.acted)
            && (NoPut(run.s.sys.log) && !run.out.Val? ==> dry.0 == Settle(run.PropagateFailure<Result>()))
  {
    var fa := f.(mode := Apply);
    CheckedSame(f, sys, fa, sys, def, a, with);
    DefFromChecked(f, sys, def, i, a, with);
    var s := Checked(f, sys, def, a, with).s;
    var g, ga := Inside(f, def), Inside(fa, def);
    StmtsLocked(In(g, ApplyPhase), In(ga, ApplyPhase), s.(acted := false), def.phases[i].stmts);
    CheckSide(g, s, def, i);
  }

  /** Nothing was placed before the payload, and the payload attempts to place something. */
  ghost predicate PayloadPlaces(h: Frame, run: R<Option<Outcome>>) {
    run.out.Val? && NoPut(run.s.sys.log) && !NoPut(AfterPayload(h, run).sys.log)
  }

  /** Dry-run exactness, for every inert apply without a transfer. On the same world the dry run
      answers ok.already exactly when the statements of the real run's apply attempt no placement
      and do not break; when they break before any placement both runs break the same way. That
      verdict is the whole real run's exactly when the payload of the outcome reached, which a
      dry run does not evaluate, attempts no placement either; and then the real run changes
      nothing. */
  lemma DryRunExact(f: Frame, sys: Sys, def: Def, i: nat, a: Args, with: map<string, string>)
    requires Predictable(def, i) && f.mode == Check && NoPut(sys.log)
    requires Checked(f, sys, def, a, with).out == Val(None)
    ensures var fa := f.(mode := Apply);
            var dry, live := EvalDef(f, sys, def, a, with), EvalDef(fa, sys, def, a, with);
            var run := ApplyRun(fa, def, i, Checked(f, sys, def, a, with).s);
            var already := dry.0 == Done(Verdict(OK, "already"));
            && (already <==> run.out.Val? && NoPut(run.s.sys.log))
            && (NoPut(run.s.sys.log) && !run.out.Val? ==> dry.0 == live.0)
            && ((already <==> run.out.Val? && NoPut(live.1.log)) <==>
                !PayloadPlaces(In(Inside(fa, def), ApplyPhase), run))
            && (already && NoPut(live.1.log) && live.0.Done? ==> !live.0.res.changed)
  {
    var fa := f.(mode := Apply);
    CheckedSame(f, sys, fa, sys, def, a, with);
    var s := Checked(f, sys, def, a, with).s;
    var run := ApplyRun(fa, def, i, s);
    var h := In(Inside(fa, def), ApplyPhase);
    DrySide(f, sys, def, i, a, with);
    SimpleCallsNothing(h, s.(acted := false), def.phases[i].stmts);
    LiveSide(fa, sys, def, i, a, with);
    PayloadOf(h, s.(acted := false), def.phases[i].stmts);
    PayloadSide(h, run);
    assert forall x :: x in run.s.sys.log ==> x in AfterPayload(h, run).sys.log;
  }

  /** A payload with no write in it, at any depth, attempts none. */
  lemma WritelessPayload(h: Frame, run: R<Option<Outcome>>)
    requires run.out.Val? ==> SimplePayload(run.out.v)
    requires run.out.Val? && run.out.v.Some? && run.out.v.value.payload.Some? ==>
            Writeless(run.out.v.value.payload.value)
    ensures !PayloadPlaces(h, run)
  {
    if run.out.Val? && run.out.v.Some? && run.out.v.value.payload.Some? {
      ExprQuiet(h, run.s, run.out.v.value.payload.value);
    }
  }

  /** What a write attempts: there is a channel, the path is a string that is not empty, the
      content is text or bytes, and the file there is not already that content. */
  ghost predicate WriteDue(h: Frame, s: S, p: Expr, c: Expr) {
    h.channel && h.exec.Some? &&
    var a := EvalExpr(h, s, p);
    a.out.Val? && a.out.v.VStr? && a.out.v.s != "" &&
    var b := EvalExpr(h, a.s, c);
    b.out.Val? && (b.out.v.VStr? || b.out.v.VBytes?) &&
    h.m.digest(b.s.sys.w, h.exec.value, a.out.v.s) != Some(h.m.sum(TextOf(b.out.v)))
  }

  lemma WriteAttempts(h: Frame, s: S, path: string, content: string)
    requires h.mode == Apply && h.exec.Some? && NoPut(s.sys.log)
    ensures NoPut(WriteFile(h, s, path, content).s.sys.log) <==>
            path == "" || h.m.digest(s.sys.w, h.exec.value, path) == Some(h.m.sum(content))
  {
    var guard := Event(h.phase, Guarded(path));
    var put := Event(h.phase, Put(path));
    assert forall x :: x in s.sys.log + [guard] <==> x in s.sys.log || x == guard;
    assert put in s.sys.log + [guard] + [put];
  }

  /** A write of any path and any content without a write in them attempts a placement exactly
      when it is due. */
  lemma WriteExactly(h: Frame, s: S, p: Expr, c: Expr)
    requires h.mode == Apply && NoPut(s.sys.log)
    requires Simple(p) && Simple(c) && Writeless(p) && Writeless(c)
    ensures NoPut(EvalExpr(h, s, Primitive("file.write", [p, c])).s.sys.log) <==> !WriteDue(h, s, p, c)
  {
    var e := Primitive("file.write", [p, c]);
    assert e.args[0] == p && e.args[1] == c;
    assert EvalExpr(h, s, e).s.sys == EvalPrimitive(h, s, e).s.sys;
    if h.channel && h.exec.Some? {
      ExprQuiet(h, s, p);
      var a := EvalExpr(h, s, p);
      if a.out.Val? && a.out.v.VStr? {
        ExprQuiet(h, a.s, c);
        var b := EvalExpr(h, a.s, c);
        assert EvalPrimitive(h, s, e) == EvalWrite(h, a.s, e, a.out.v);
        if b.out.Val? && (b.out.v.VStr? || b.out.v.VBytes?) {
          assert EvalWrite(h, a.s, e, a.out.v) == WriteFile(h, b.s, a.out.v.s, TextOf(b.out.v));
          WriteAttempts(h, b.s, a.out.v.s, TextOf(b.out.v));
        } else {
          assert EvalWrite(h, a.s, e, a.out.v).s == b.s;
        }
      } else if a.out.Val? {
        assert EvalPrimitive(h, s, e) == EvalWrite(h, a.s, e, a.out.v) == R(Fail(Fault), a.s);
      } else {
        assert EvalPrimitive(h, s, e).s == a.s;
      }
    }
  }

  /** A payload that is a write attempts a placement exactly when the write is due where the
      statements end. */
  lemma WritePayload(h: Frame, run: R<Option<Outcome>>, p: Expr, c: Expr)
    requires h.mode == Apply && run.out.Val? && run.out.v.Some? && NoPut(run.s.sys.log)
    requires run.out.v.value.payload == Some(Primitive("file.write", [p, c]))
    requires Simple(p) && Simple(c) && Writeless(p) && Writeless(c)
    ensures PayloadPlaces(h, run) <==> WriteDue(h, run.s, p, c)
  {
    WriteExactly(h, run.s, p, c);
  }

  /** Without an observe there is nothing to confirm. */
  lemma ConfirmQuiet(g: Frame, s: S, def: Def, i: nat, desired: map<string, string>)
    requires Framed(def, i)
    ensures var r := EvalApplies(g, s.(acted := false), def.phases);
            r.out.Val? ==>
              var c := EvalConfirm(g, r.s, def, desired, r.out.v);
              c.s == r.s && c.out.Val? &&
              c.out.v == (if r.out.v.category == OK && r.s.acted then r.out.v.(changed := true) else r.out.v)
  {
    NoObserve(def.phases);
  }

  lemma {:induction false} NoObserve(phases: seq<Phase>)
    requires forall j :: 0 <= j < |phases| ==> phases[j].name != ObservePhase
    ensures LastPhase(phases, ObservePhase) == None
    decreases |phases|
  {
    if phases != [] { NoObserve(phases[..|phases| - 1]); }
  }

  /** Before the apply the two runs are one: same verdict, same failure, nothing touched. */
  lemma DryRunSameRefusal(f: Frame, sys: Sys, def: Def, i: nat, a: Args, with: map<string, string>)
    requires Predictable(def, i) && f.mode == Check
    requires Checked(f, sys, def, a, with).out != Val(None)
    ensures EvalDef(f, sys, def, a, with) == EvalDef(f.(mode := Apply), sys, def, a, with)
    ensures EvalDef(f, sys, def, a, with).1 == sys
  {
    CheckedSame(f, sys, f.(mode := Apply), sys, def, a, with);
    DefFromChecked(f, sys, def, i, a, with);
    DefFromChecked(f.(mode := Apply), sys, def, i, a, with);
  }
}
