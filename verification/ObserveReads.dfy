/** When an observe depends on nothing but its scope and the world: a condition that can be
    read off its text, given shells that only look. */
module ObserveReads {
  import opened Basics
  import opened Ast
  import opened Eval
  import opened Text
  import opened Confirm
  import opened SecondRun

  /** Every `${…}` names one of the known variables. */
  ghost predicate RefsIn(t: string, known: set<string>) {
    match CutRef(t)
    case Found(_, name, tail) => (INVENTORY <= name || name in known) && RefsIn(tail, known)
    case _ => true
  }

  ghost predicate TablesAgree(p1: Table, p2: Table, known: set<string>) {
    forall k :: k in known ==> (k in p1 <==> k in p2) && (k in p1 ==> p1[k] == p2[k])
  }

  lemma {:induction false} InterpolateLocal(t: string, p1: Table, p2: Table, known: set<string>)
    requires RefsIn(t, known) && TablesAgree(p1, p2, known)
    ensures Interpolate(t, p1) == Interpolate(t, p2)
    decreases |t|
  {
    var c := CutRef(t);
    if c.Found? { InterpolateLocal(c.tail, p1, p2, known); }
  }

  /** Shells, text primitives and known names: no call, no file, no control host; and `ok` and `err`
      only where what they read is a result of the observe's own, which `told` says. */
  ghost predicate Closed(e: Expr, known: set<string>, told: bool) {
    match e
    case StrLit(t) => RefsIn(t, known)
    case ControlPath(_) => false
    case BoolLit(_) => true
    case IntLit(_) => true
    case Ident(n) => if n == "ok" || n == "err" then told else n in known
    case Field(x, _) => Closed(x, known, told)
    case Compare(_, l, r) => Closed(l, known, told) && Closed(r, known, told)
    case Not(x) => Closed(x, known, told)
    case Call(_, _) => false
    case Primitive(n, args) => IsText(n) && forall a :: a in args ==> Closed(a, known, told)
    case Shell(_, _) => true
  }

  /** The expression runs something whose result `ok` then reads. */
  ghost predicate Tells(e: Expr) {
    match e
    case Shell(_, _) => true
    case Primitive(_, _) => true
    case Field(x, _) => Tells(x)
    case Compare(_, l, r) => Tells(l) || Tells(r)
    case Not(x) => Tells(x)
    case _ => false
  }

  /** A `let` adds its name; what an `if` binds stays inside. */
  ghost predicate ClosedStmts(stmts: seq<Stmt>, known: set<string>, told: bool) {
    if stmts == [] then true
    else match stmts[0]
      case Let(x, e) => Closed(e, known, told) && ClosedStmts(stmts[1..], known + {x}, told || Tells(e))
      case Effect(e) => Closed(e, known, told) && ClosedStmts(stmts[1..], known, told || Tells(e))
      case If(c, body) =>
        && Closed(c, known, told) && ClosedStmts(body, known, told || Tells(c))
        && ClosedStmts(stmts[1..], known, told || Tells(c))
      case StateReturn(fields) => forall x :: x in fields ==> Closed(x.value, known, told)
      case Return(_) => ClosedStmts(stmts[1..], known, told)
  }

  /** The states show the same names, and the same last result when there is one of this observe. */
  ghost predicate View(known: set<string>, told: bool, s1: S, s2: S) {
    SameView(known, s1, s2) && (told ==> s1.last == s2.last)
  }

  /** An observe's shells change nothing and read no variable but those. */
  ghost predicate QuietShells(m: Machine, names: set<string>) {
    forall w, exec, cmd, env, env2 :: TablesAgree(env, env2, names) ==>
      m.shell(w, ShellReq(ObservePhase, exec, cmd, env)) == m.shell(w, ShellReq(ObservePhase, exec, cmd, env2)) &&
      m.shell(w, ShellReq(ObservePhase, exec, cmd, env)).1 == w
  }

  ghost predicate Observing(f: Frame, names: set<string>) {
    f.phase == ObservePhase && QuietShells(f.m, names)
  }

  lemma {:induction false} ExprStill(f: Frame, s: S, e: Expr, known: set<string>, told: bool, names: set<string>)
    requires Observing(f, names) && Closed(e, known, told)
    ensures EvalExpr(f, s, e).s.sys.w == s.sys.w
    decreases e, 1
  {
    match e
    case Field(x, _) => ExprStill(f, s, x, known, told, names);
    case Compare(_, l, r) =>
      ExprStill(f, s, l, known, told, names);
      if EvalExpr(f, s, l).out.Val? { ExprStill(f, EvalExpr(f, s, l).s, r, known, told, names); }
    case Not(x) => ExprStill(f, s, x, known, told, names);
    case Primitive(n, args) => if |args| == PrimitiveArity(n) { TextStill(f, s, e, known, told, names); }
    case Shell(cmd, interp) => ShellStill(f, s, cmd, interp, names);
    case _ =>
  }

  lemma ShellStill(f: Frame, s: S, cmd: string, interp: string, names: set<string>)
    requires Observing(f, names)
    ensures RunShell(f, s, cmd, interp).s.sys.w == s.sys.w
  {
    assert TablesAgree(ShellEnv(s.vars), ShellEnv(s.vars), names);
  }

  lemma {:induction false} TextStill(f: Frame, s: S, e: Expr, known: set<string>, told: bool, names: set<string>)
    requires Observing(f, names) && Closed(e, known, told) && e.Primitive? && |e.args| == PrimitiveArity(e.name)
    ensures EvalText(f, s, e).s.sys.w == s.sys.w
    decreases e, 0
  {
    assert forall i :: 0 <= i < |e.args| ==> e.args[i] in e.args;
    ExprStill(f, s, e.args[0], known, told, names);
    var a := EvalExpr(f, s, e.args[0]);
    if a.out.Val? {
      ExprStill(f, a.s, e.args[1], known, told, names);
      var b := EvalExpr(f, a.s, e.args[1]);
      if b.out.Val? && |e.args| > 2 { ExprStill(f, b.s, e.args[2], known, told, names); }
    }
  }

  lemma ScalarsAgree(s1: S, s2: S, known: set<string>)
    requires SameView(known, s1, s2)
    ensures TablesAgree(Scalars(s1.vars), Scalars(s2.vars), known) &&
            TablesAgree(ShellEnv(s1.vars), ShellEnv(s2.vars), known)
  {
  }

  lemma ViewKept(known: set<string>, s1: S, s2: S, t1: S, t2: S)
    requires SameView(known, s1, s2) && t1.sys.w == s1.sys.w && t2.sys.w == s2.sys.w
    requires t1.vars == s1.vars && t2.vars == s2.vars
    ensures SameView(known, t1, t2)
  {
  }

  /** After the same expression the two states still show the same. */
  lemma {:induction false} ViewAfter(f: Frame, s1: S, s2: S, e: Expr, known: set<string>, told: bool,
      names: set<string>)
    requires Observing(f, names) && names <= known && Closed(e, known, told) && View(known, told, s1, s2)
    ensures EvalExpr(f, s1, e).out.Val? ==> View(known, told || Tells(e), EvalExpr(f, s1, e).s, EvalExpr(f, s2, e).s)
    decreases e, 3
  {
    ExprStill(f, s1, e, known, told, names);
    ExprStill(f, s2, e, known, told, names);
    ExprVars(f, s1, e);
    ExprVars(f, s2, e);
    ViewKept(known, s1, s2, EvalExpr(f, s1, e).s, EvalExpr(f, s2, e).s);
    if EvalExpr(f, s1, e).out.Val? { LastAgrees(f, s1, s2, e, known, told, told, names); }
  }

  /** What the last result is, when the expression tells one or it was the same before. */
  lemma {:induction false} LastAgrees(f: Frame, s1: S, s2: S, e: Expr, known: set<string>, told: bool, same: bool,
      names: set<string>)
    requires Observing(f, names) && names <= known && Closed(e, known, told) && View(known, told, s1, s2)
    requires EvalExpr(f, s1, e).out.Val? && (same ==> s1.last == s2.last)
    ensures same || Tells(e) ==> EvalExpr(f, s1, e).s.last == EvalExpr(f, s2, e).s.last
    decreases e, 2
  {
    match e
    case Field(x, _) => LastAgrees(f, s1, s2, x, known, told, same, names);
    case Compare(_, l, r) =>
      ExprAgrees(f, s1, s2, l, known, told, names);
      ViewAfter(f, s1, s2, l, known, told, names);
      LastAgrees(f, s1, s2, l, known, told, same, names);
      var a1, a2 := EvalExpr(f, s1, l), EvalExpr(f, s2, l);
      LastAgrees(f, a1.s, a2.s, r, known, told, same || Tells(l), names);
      ExprAgrees(f, a1.s, a2.s, r, known, told, names);
    case Not(x) => LastAgrees(f, s1, s2, x, known, told, same, names);
    case Primitive(_, _) => ExprAgrees(f, s1, s2, e, known, told, names);
    case Shell(_, _) => ExprAgrees(f, s1, s2, e, known, told, names);
    case _ =>
  }

  ghost predicate Agrees<T>(r1: R<T>, r2: R<T>) {
    r1.out.Val? ==> r2.out == r1.out
  }

  lemma ShellAgrees(f: Frame, s1: S, s2: S, cmd: string, interp: string, known: set<string>, names: set<string>)
    requires Observing(f, names) && names <= known && SameView(known, s1, s2)
    ensures Agrees(RunShell(f, s1, cmd, interp), RunShell(f, s2, cmd, interp))
  {
    ScalarsAgree(s1, s2, known);
    assert TablesAgree(ShellEnv(s1.vars), ShellEnv(s2.vars), names);
    assert HoldsBytes(s2.vars) ==> HoldsBytes(s1.vars);
  }

  lemma {:induction false} ExprAgrees(f: Frame, s1: S, s2: S, e: Expr, known: set<string>, told: bool,
      names: set<string>)
    requires Observing(f, names) && names <= known && Closed(e, known, told) && View(known, told, s1, s2)
    ensures Agrees(EvalExpr(f, s1, e), EvalExpr(f, s2, e))
    decreases e, 1
  {
    match e
    case StrLit(t) =>
      ScalarsAgree(s1, s2, known);
      InterpolateLocal(t, Scalars(s1.vars), Scalars(s2.vars), known);
    case Field(x, _) => ExprAgrees(f, s1, s2, x, known, told, names);
    case Compare(_, _, _) => CompareAgrees(f, s1, s2, e, known, told, names);
    case Not(x) => ExprAgrees(f, s1, s2, x, known, told, names);
    case Primitive(n, args) => if |args| == PrimitiveArity(n) { TextAgrees(f, s1, s2, e, known, told, names); }
    case Shell(cmd, interp) => ShellAgrees(f, s1, s2, cmd, interp, known, names);
    case _ =>
  }

  lemma {:induction false} CompareAgrees(f: Frame, s1: S, s2: S, e: Expr, known: set<string>, told: bool,
      names: set<string>)
    requires Observing(f, names) && names <= known && Closed(e, known, told) && View(known, told, s1, s2)
    requires e.Compare?
    ensures Agrees(EvalExpr(f, s1, e), EvalExpr(f, s2, e))
    decreases e, 0
  {
    ExprAgrees(f, s1, s2, e.l, known, told, names);
    ViewAfter(f, s1, s2, e.l, known, told, names);
    var a1, a2 := EvalExpr(f, s1, e.l), EvalExpr(f, s2, e.l);
    if a1.out.Val? { ExprAgrees(f, a1.s, a2.s, e.r, known, told, names); }
  }

  lemma {:induction false} TextAgrees(f: Frame, s1: S, s2: S, e: Expr, known: set<string>, told: bool,
      names: set<string>)
    requires Observing(f, names) && names <= known && Closed(e, known, told) && View(known, told, s1, s2)
    requires e.Primitive? && |e.args| == PrimitiveArity(e.name)
    ensures Agrees(EvalText(f, s1, e), EvalText(f, s2, e))
    decreases e, 0
  {
    assert forall i :: 0 <= i < |e.args| ==> e.args[i] in e.args;
    ExprAgrees(f, s1, s2, e.args[0], known, told, names);
    ViewAfter(f, s1, s2, e.args[0], known, told, names);
    var a1, a2 := EvalExpr(f, s1, e.args[0]), EvalExpr(f, s2, e.args[0]);
    if a1.out.Val? {
      ExprAgrees(f, a1.s, a2.s, e.args[1], known, told, names);
      ViewAfter(f, a1.s, a2.s, e.args[1], known, told, names);
      var b1, b2 := EvalExpr(f, a1.s, e.args[1]), EvalExpr(f, a2.s, e.args[1]);
      if b1.out.Val? && |e.args| > 2 { ExprAgrees(f, b1.s, b2.s, e.args[2], known, told, names); }
    }
  }

  lemma {:induction false} FieldsAgree(f: Frame, s1: S, s2: S, fields: seq<StateField>, acc: map<string, string>,
      known: set<string>, told: bool, names: set<string>)
    requires Observing(f, names) && names <= known && View(known, told, s1, s2)
    requires forall x :: x in fields ==> Closed(x.value, known, told)
    ensures Agrees(EvalFields(f, s1, fields, acc), EvalFields(f, s2, fields, acc))
    ensures View(known, told, EvalFields(f, s1, fields, acc).s, EvalFields(f, s2, fields, acc).s) ||
            !EvalFields(f, s1, fields, acc).out.Val?
    decreases fields
  {
    if fields != [] {
      var e := fields[0].value;
      ExprAgrees(f, s1, s2, e, known, told, names);
      ViewAfter(f, s1, s2, e, known, told, names);
      var r1, r2 := EvalExpr(f, s1, e), EvalExpr(f, s2, e);
      if r1.out.Val? {
        FieldsAgree(f, r1.s, r2.s, fields[1..], acc[fields[0].name := TrimRight(Stringify(r1.out.v))], known, told,
            names);
      }
    }
  }

  lemma BoundView(known: set<string>, told: bool, s1: S, s2: S, x: string, v: Value)
    requires View(known, told, s1, s2)
    ensures View(known + {x}, told, s1.(vars := s1.vars[x := v]), s2.(vars := s2.vars[x := v]))
  {
  }

  lemma LessView(known: set<string>, told: bool, less: set<string>, s1: S, s2: S)
    requires View(known, told, s1, s2) && less <= known
    ensures View(less, told, s1, s2)
  {
  }

  /** The two readings agree and leave the same view. */
  ghost predicate Alike(f: Frame, s1: S, s2: S, stmts: seq<Stmt>, known: set<string>, told: bool) {
    var r1, r2 := EvalObserve(f, s1, stmts), EvalObserve(f, s2, stmts);
    r1.out.Val? ==> r2.out == r1.out && View(known, told, r1.s, r2.s)
  }

  lemma {:induction false} ObserveAgrees(f: Frame, s1: S, s2: S, stmts: seq<Stmt>, known: set<string>, told: bool,
      names: set<string>)
    requires Observing(f, names) && names <= known && ClosedStmts(stmts, known, told) && View(known, told, s1, s2)
    ensures Alike(f, s1, s2, stmts, known, told)
    decreases stmts, 1
  {
    if stmts != [] {
      match stmts[0]
      case Let(x, e) =>
        ExprAgrees(f, s1, s2, e, known, told, names);
        ViewAfter(f, s1, s2, e, known, told, names);
        var r1, r2 := EvalExpr(f, s1, e), EvalExpr(f, s2, e);
        if r1.out.Val? {
          var told1 := told || Tells(e);
          BoundView(known, told1, r1.s, r2.s, x, r1.out.v);
          var t1, t2 := r1.s.(vars := r1.s.vars[x := r1.out.v]), r2.s.(vars := r2.s.vars[x := r2.out.v]);
          ObserveAgrees(f, t1, t2, stmts[1..], known + {x}, told1, names);
          var o1, o2 := EvalObserve(f, t1, stmts[1..]), EvalObserve(f, t2, stmts[1..]);
          if o1.out.Val? { LessView(known + {x}, told1, known, o1.s, o2.s); }
        }
      case Effect(e) =>
        ExprAgrees(f, s1, s2, e, known, told, names);
        ViewAfter(f, s1, s2, e, known, told, names);
        var r1, r2 := EvalExpr(f, s1, e), EvalExpr(f, s2, e);
        if r1.out.Val? { ObserveAgrees(f, r1.s, r2.s, stmts[1..], known, told || Tells(e), names); }
      case If(_, _) => IfAgrees(f, s1, s2, stmts, known, told, names);
      case StateReturn(fields) => FieldsAgree(f, s1, s2, fields, map[], known, told, names);
      case Return(_) => ObserveAgrees(f, s1, s2, stmts[1..], known, told, names);
    }
  }

  lemma {:induction false} IfAgrees(f: Frame, s1: S, s2: S, stmts: seq<Stmt>, known: set<string>, told: bool,
      names: set<string>)
    requires Observing(f, names) && names <= known && ClosedStmts(stmts, known, told) && View(known, told, s1, s2)
    requires stmts != [] && stmts[0].If?
    ensures Alike(f, s1, s2, stmts, known, told)
    decreases stmts, 0
  {
    var c, body := stmts[0].cond, stmts[0].body;
    ExprAgrees(f, s1, s2, c, known, told, names);
    ViewAfter(f, s1, s2, c, known, told, names);
    var r1, r2 := EvalExpr(f, s1, c), EvalExpr(f, s2, c);
    if r1.out.Val? {
      if Truthy(r1.out.v) {
        ObserveAgrees(f, r1.s, r2.s, body, known, told || Tells(c), names);
        var m1, m2 := EvalObserve(f, r1.s, body), EvalObserve(f, r2.s, body);
        if m1.out.Val? && m1.out.v.None? { ObserveAgrees(f, m1.s, m2.s, stmts[1..], known, told || Tells(c), names); }
      } else {
        ObserveAgrees(f, r1.s, r2.s, stmts[1..], known, told || Tells(c), names);
      }
    }
  }

  lemma {:induction false} FieldsStill(f: Frame, s: S, fields: seq<StateField>, acc: map<string, string>,
      known: set<string>, told: bool, names: set<string>)
    requires Observing(f, names) && forall x :: x in fields ==> Closed(x.value, known, told)
    ensures EvalFields(f, s, fields, acc).s.sys.w == s.sys.w
    decreases fields
  {
    if fields != [] {
      ExprStill(f, s, fields[0].value, known, told, names);
      var r := EvalExpr(f, s, fields[0].value);
      if r.out.Val? {
        FieldsStill(f, r.s, fields[1..], acc[fields[0].name := TrimRight(Stringify(r.out.v))], known, told, names);
      }
    }
  }

  lemma {:induction false} ObserveStill(f: Frame, s: S, stmts: seq<Stmt>, known: set<string>, told: bool,
      names: set<string>)
    requires Observing(f, names) && ClosedStmts(stmts, known, told)
    ensures EvalObserve(f, s, stmts).s.sys.w == s.sys.w
    decreases stmts
  {
    if stmts != [] {
      match stmts[0]
      case Let(x, e) =>
        ExprStill(f, s, e, known, told, names);
        var r := EvalExpr(f, s, e);
        if r.out.Val? {
          ObserveStill(f, r.s.(vars := r.s.vars[x := r.out.v]), stmts[1..], known + {x}, told || Tells(e), names);
        }
      case Effect(e) =>
        ExprStill(f, s, e, known, told, names);
        var r := EvalExpr(f, s, e);
        if r.out.Val? { ObserveStill(f, r.s, stmts[1..], known, told || Tells(e), names); }
      case If(c, body) =>
        ExprStill(f, s, c, known, told, names);
        var r := EvalExpr(f, s, c);
        if r.out.Val? {
          if Truthy(r.out.v) {
            ObserveStill(f, r.s, body, known, told || Tells(c), names);
            var m := EvalObserve(f, r.s, body);
            if m.out.Val? && m.out.v.None? { ObserveStill(f, m.s, stmts[1..], known, told || Tells(c), names); }
          } else {
            ObserveStill(f, r.s, stmts[1..], known, told || Tells(c), names);
          }
        }
      case StateReturn(fields) => FieldsStill(f, s, fields, map[], known, told, names);
      case Return(_) => ObserveStill(f, s, stmts[1..], known, told, names);
    }
  }

  /** A closed observe over quiet shells is one a confirmed change lasts for. */
  lemma ClosedReads(f: Frame, stmts: seq<Stmt>, names: set<string>)
    requires Observing(f, names) && ClosedStmts(stmts, names, false)
    ensures ReadsOnly(f, stmts, names)
  {
    forall s ensures EvalObserve(f, s, stmts).s.sys.w == s.sys.w { ObserveStill(f, s, stmts, names, false, names); }
    forall s1, s2 | SameView(names, s1, s2) && EvalObserve(f, s1, stmts).out.Val?
      ensures EvalObserve(f, s2, stmts).out == EvalObserve(f, s1, stmts).out
    {
      ObserveAgrees(f, s1, s2, stmts, names, false, names);
    }
  }

  /** So a change to it, once confirmed, lasts. */
  lemma ClosedLasts(f: Frame, sys: Sys, def: Def, i: nat, a: Args, with: map<string, string>)
    requires OneObserve(def, i)
    requires var names := Scope(f, sys, def, i, a, with).Keys;
             NoShadowing(def, i, names) && QuietShells(f.m, names) && ClosedStmts(def.phases[i].stmts, names, false)
    ensures Lasting(f, sys, def, i, a, with)
  {
    ClosedReads(In(Inside(f, def), ObservePhase), def.phases[i].stmts, Scope(f, sys, def, i, a, with).Keys);
  }
}
