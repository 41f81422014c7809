/** One induction over the evaluator: what every step of a def keeps. A policy switches on
    the facts of interest, and the theorems about dry runs, the allow-list and call cycles
    are read off it. */
module Preserve {
  import opened Basics
  import opened Ast
  import opened Eval

  /** `modes`: the run only looks. `paths`: the control-host paths the plan marked.
      `rank`: a numbering that every call between defs lowers. */
  datatype Policy = Policy(modes: bool, mode: Mode, paths: Option<set<string>>, rank: Option<map<string, nat>>)

  // --- the expressions of a def ---

  ghost function StmtExprs(st: Stmt): set<Expr> {
    match st
    case Let(_, e) => {e}
    case Effect(e) => {e}
    case If(c, body) => {c} + StmtsExprs(body)
    case Return(o) => if o.payload.Some? then {o.payload.value} else {}
    case StateReturn(fields) => set f | f in fields :: f.value
  }

  ghost function StmtsExprs(stmts: seq<Stmt>): set<Expr> {
    if stmts == [] then {} else StmtExprs(stmts[0]) + StmtsExprs(stmts[1..])
  }

  ghost predicate NoLiteral(e: Expr) {
    match e
    case ControlPath(_) => false
    case Field(x, _) => NoLiteral(x)
    case Compare(_, l, r) => NoLiteral(l) && NoLiteral(r)
    case Not(x) => NoLiteral(x)
    case Call(_, args) => forall a :: a in args ==> NoLiteral(a)
    case Primitive(_, args) => forall a :: a in args ==> NoLiteral(a)
    case _ => true
  }

  /** No call to one of the names, at any depth of the expression. */
  ghost predicate CallsAvoid(e: Expr, names: set<string>) {
    match e
    case Field(x, _) => CallsAvoid(x, names)
    case Compare(_, l, r) => CallsAvoid(l, names) && CallsAvoid(r, names)
    case Not(x) => CallsAvoid(x, names)
    case Call(n, args) => n !in names && forall a :: a in args ==> CallsAvoid(a, names)
    case Primitive(_, args) => forall a :: a in args ==> CallsAvoid(a, names)
    case _ => true
  }

  // --- what a policy asks ---

  /** A looking run places nothing, runs no shell of an apply, drives no real transfer when
      checking, and when reporting touches no apply or preview phase at all. */
  ghost predicate Looks(mode: Mode, e: Event) {
    && !e.kind.Put?
    && !(e.phase == ApplyPhase && e.kind.RanShell?)
    && (mode == Check ==> !e.kind.Transferred?)
    && (mode == Status ==> e.phase != ApplyPhase && e.phase != PreviewPhase)
  }

  function Resources(paths: set<string>): set<string> {
    set p, k | p in paths && k in {"file.read", "file.render", "dir.list", "dir.sync"} :: ResourceKey(k, p)
  }

  ghost predicate Declared(paths: set<string>, e: Event) {
    match e.kind
    case Asked(r) => r in Resources(paths)
    case Transferred(r) => r in Resources(paths)
    case Previewed(r) => r in Resources(paths)
    case _ => true
  }

  ghost predicate EventOk(k: Policy, e: Event) {
    (k.modes ==> Looks(k.mode, e)) && (k.paths.Some? ==> Declared(k.paths.value, e))
  }

  ghost predicate Logged(log: seq<Event>, e: Event) {
    e in log
  }

  ghost predicate Binds(vars: Vars, x: string) {
    x in vars
  }

  ghost predicate LogOk(k: Policy, log: seq<Event>) {
    forall e {:trigger Logged(log, e)} :: Logged(log, e) ==> EventOk(k, e)
  }

  ghost predicate VarsOk(k: Policy, vars: Vars) {
    forall x {:trigger Binds(vars, x)} :: Binds(vars, x) ==> ValueOk(k, vars[x])
  }

  ghost predicate ValueOk(k: Policy, v: Value) {
    k.paths.Some? && v.VPath? ==> v.path in k.paths.value
  }

  ghost predicate StateOk(k: Policy, s: S) {
    LogOk(k, s.sys.log) && VarsOk(k, s.vars)
  }

  ghost function Top(f: Frame): string
    requires f.stack != []
  {
    f.stack[|f.stack| - 1]
  }

  /** The defs a def of that name may not call. */
  ghost function Above(defs: map<string, Def>, rank: map<string, nat>, name: string): set<string> {
    set n | n in defs && (n !in rank || (name in rank && rank[n] >= rank[name]))
  }

  ghost predicate ExprOk(k: Policy, f: Frame, e: Expr) {
    && (k.modes && f.phase == ApplyPhase ==> InertExpr(e))
    && (k.paths.Some? ==> NoLiteral(e))
    && (k.rank.Some? ==> f.stack != [] && CallsAvoid(e, Above(f.defs, k.rank.value, Top(f))))
  }

  ghost predicate StmtsOk(k: Policy, f: Frame, stmts: seq<Stmt>) {
    forall e :: e in StmtsExprs(stmts) ==> ExprOk(k, f, e)
  }

  /** Every expression of a def that does not depend on its phase. */
  ghost function DefExprs(def: Def): set<Expr> {
    (set p, e | p in def.phases && e in StmtsExprs(p.stmts) :: e)
    + (set p | p in def.params && p.default.Some? :: p.default.value)
    + (if def.delegate.Some? then Elems(def.delegate.value.args) else {})
  }

  /** Two parameters of one name, of which the first can hold a marked path. */
  predicate Shared(params: seq<Param>, i: int, j: int) {
    0 <= i < j < |params| && params[i].name == params[j].name && !params[i].isBool
  }

  /** No parameter can take the mark of another: a name declared twice is a boolean first. */
  ghost predicate OwnMarks(params: seq<Param>) {
    forall i, j {:trigger Shared(params, i, j)} :: !Shared(params, i, j)
  }

  ghost predicate DefOk(k: Policy, defs: map<string, Def>, name: string, def: Def) {
    && WellFormed(def)
    && (k.paths.Some? ==> OwnMarks(def.params))
    && (k.paths.Some? ==> forall e :: e in DefExprs(def) ==> NoLiteral(e))
    && (k.rank.Some? ==>
          && (forall e :: e in DefExprs(def) ==> CallsAvoid(e, Above(defs, k.rank.value, name)))
          && (def.delegate.Some? ==> def.delegate.value.name !in Above(defs, k.rank.value, name)))
  }

  ghost predicate Known(f: Frame, n: string) {
    n in f.defs
  }

  /** The numbering, where there is one, is about that def. */
  ghost predicate Ranked(k: Policy, n: string) {
    k.rank.Some? ==> n in k.rank.value
  }

  ghost predicate Entered(f: Frame, n: string) {
    n in f.stack
  }

  ghost predicate Fits(k: Policy, f: Frame) {
    && (k.modes ==> f.mode == k.mode && k.mode != Apply)
    && (k.modes && k.mode == Status ==> f.phase != ApplyPhase && f.phase != PreviewPhase)
    && (forall n {:trigger Known(f, n)} :: Known(f, n) && Ranked(k, n) ==> DefOk(k, f.defs, n, f.defs[n]))
    && (k.rank.Some? ==>
          && f.stack != [] && Top(f) in k.rank.value
          && forall n {:trigger Entered(f, n)} :: Entered(f, n) ==>
              n in k.rank.value && n in Above(f.defs, k.rank.value, Top(f)))
  }

  ghost predicate Kept<T>(k: Policy, r: R<T>) {
    StateOk(k, r.s) && (k.rank.Some? ==> r.out != Fail(Cycle))
  }

  // --- the steps ---

  lemma LogKept(k: Policy, sys: Sys, e: Event)
    requires LogOk(k, sys.log) && EventOk(k, e)
    ensures LogOk(k, sys.Log(e).log)
  {
    forall x | Logged(sys.Log(e).log, x) ensures EventOk(k, x) {
      assert x == e || Logged(sys.log, x);
    }
  }

  lemma VarKept(k: Policy, vars: Vars, x: string, v: Value)
    requires VarsOk(k, vars) && ValueOk(k, v)
    ensures VarsOk(k, vars[x := v])
  {
    var after := vars[x := v];
    forall y | Binds(after, y) ensures ValueOk(k, after[y]) {
      assert y == x || Binds(vars, y);
    }
  }

  lemma ShellKept(k: Policy, f: Frame, s: S, cmd: string, interp: string)
    requires Fits(k, f) && StateOk(k, s) && (k.modes ==> f.phase != ApplyPhase)
    ensures Kept(k, RunShell(f, s, cmd, interp))
    ensures RunShell(f, s, cmd, interp).out.Val? ==> ValueOk(k, RunShell(f, s, cmd, interp).out.v)
  {
    LogKept(k, s.sys, Event(f.phase, RanShell(cmd)));
  }

  lemma AskKept(k: Policy, f: Frame, s: S, resource: string, scope: map<string, string>)
    requires Fits(k, f) && StateOk(k, s) && (k.paths.Some? ==> resource in Resources(k.paths.value))
    ensures StateOk(k, Ask(f, s, resource, scope).1)
  {
    LogKept(k, s.sys, Event(f.phase, Asked(resource)));
  }

  lemma ResourceDeclared(paths: set<string>, kind: string, path: string)
    requires path in paths && kind in {"file.read", "file.render", "dir.list", "dir.sync"}
    ensures ResourceKey(kind, path) in Resources(paths)
  {
  }

  lemma WriteKept(k: Policy, f: Frame, s: S, path: string, content: string)
    requires Fits(k, f) && StateOk(k, s) && f.exec.Some?
    ensures Kept(k, WriteFile(f, s, path, content))
    ensures WriteFile(f, s, path, content).out.Val? ==> ValueOk(k, WriteFile(f, s, path, content).out.v)
  {
    if path != "" {
      var sys1 := s.sys.Log(Event(f.phase, Guarded(path)));
      LogKept(k, s.sys, Event(f.phase, Guarded(path)));
      if !k.modes { LogKept(k, sys1, Event(f.phase, Put(path))); }
    }
  }

  lemma ReadKept(k: Policy, f: Frame, s: S, name: string, a: Value)
    requires Fits(k, f) && StateOk(k, s) && f.exec.Some? && ValueOk(k, a)
    requires name == "file.read" || name == "dir.list"
    ensures Kept(k, ReadPath(f, s, name, a))
    ensures ReadPath(f, s, name, a).out.Val? ==> ValueOk(k, ReadPath(f, s, name, a).out.v)
  {
    if a.VPath? {
      if k.paths.Some? { ResourceDeclared(k.paths.value, name, a.path); }
      AskKept(k, f, s, ResourceKey(name, a.path), map[]);
    } else if a.VStr? {
      LogKept(k, s.sys, Event(f.phase, ReadTarget(a.s)));
    }
  }

  lemma RenderKept(k: Policy, f: Frame, s: S, a: Value)
    requires Fits(k, f) && StateOk(k, s) && ValueOk(k, a)
    ensures Kept(k, Render(f, s, a))
    ensures Render(f, s, a).out.Val? ==> ValueOk(k, Render(f, s, a).out.v)
  {
    if a.VPath? {
      if k.paths.Some? { ResourceDeclared(k.paths.value, "file.render", a.path); }
      AskKept(k, f, s, ResourceKey("file.render", a.path), ShellEnv(s.vars));
    }
  }

  lemma SyncKept(k: Policy, f: Frame, s: S, src: string, dst: string, del: string, compare: string)
    requires Fits(k, f) && StateOk(k, s) && f.exec.Some?
    requires k.paths.Some? ==> src in k.paths.value
    ensures Kept(k, SyncTree(f, s, src, dst, del, compare))
    ensures SyncTree(f, s, src, dst, del, compare).out.Val? ==> ValueOk(k, SyncTree(f, s, src, dst, del, compare).out.v)
  {
    var resource := ResourceKey("dir.sync", src);
    if k.paths.Some? { ResourceDeclared(k.paths.value, "dir.sync", src); }
    if f.mode == Check {
      LogKept(k, s.sys, Event(f.phase, Previewed(resource)));
    } else {
      LogKept(k, s.sys, Event(f.phase, Transferred(resource)));
    }
  }

  lemma {:induction false} ExprKept(k: Policy, f: Frame, s: S, e: Expr)
    requires Fits(k, f) && StateOk(k, s) && ExprOk(k, f, e)
    ensures Kept(k, EvalExpr(f, s, e))
    ensures EvalExpr(f, s, e).out.Val? ==> ValueOk(k, EvalExpr(f, s, e).out.v)
    decreases Room(f), 1, e, 2
  {
    match e
    case Field(recv, _) => ExprKept(k, f, s, recv);
    case Compare(_, l, r) =>
      ExprKept(k, f, s, l);
      if EvalExpr(f, s, l).out.Val? { ExprKept(k, f, EvalExpr(f, s, l).s, r); }
    case Not(x) => ExprKept(k, f, s, x);
    case Ident(x) => assert x in s.vars ==> Binds(s.vars, x);
    case Shell(cmd, interp) => ShellKept(k, f, s, cmd, interp);
    case Primitive(_, _) => PrimitiveKept(k, f, s, e);
    case Call(name, args) => CallKept(k, f, s, name, args);
    case _ =>
  }

  lemma {:induction false} PrimitiveKept(k: Policy, f: Frame, s: S, e: Expr)
    requires Fits(k, f) && StateOk(k, s) && ExprOk(k, f, e) && e.Primitive?
    ensures Kept(k, EvalPrimitive(f, s, e))
    ensures EvalPrimitive(f, s, e).out.Val? ==> ValueOk(k, EvalPrimitive(f, s, e).out.v)
    decreases Room(f), 1, e, 1
  {
    if |e.args| == PrimitiveArity(e.name) {
      assert forall i :: 0 <= i < |e.args| ==> ExprOk(k, f, e.args[i]);
      if IsText(e.name) {
        TextKept(k, f, s, e);
      } else if f.channel && f.exec.Some? {
        ExprKept(k, f, s, e.args[0]);
        var a := EvalExpr(f, s, e.args[0]);
        if a.out.Val? {
          if e.name == "dir.sync" {
            SyncArgsKept(k, f, a.s, e, a.out.v);
          } else if e.name == "file.write" {
            WriteArgsKept(k, f, a.s, e, a.out.v);
          } else if e.name == "file.read" || e.name == "dir.list" {
            ReadKept(k, f, a.s, e.name, a.out.v);
          } else if e.name == "file.render" {
            RenderKept(k, f, a.s, a.out.v);
          }
        }
      }
    }
  }

  lemma {:induction false} TextKept(k: Policy, f: Frame, s: S, e: Expr)
    requires e.Primitive? && |e.args| == PrimitiveArity(e.name) && IsText(e.name)
    requires Fits(k, f) && StateOk(k, s) && forall i :: 0 <= i < |e.args| ==> ExprOk(k, f, e.args[i])
    ensures Kept(k, EvalText(f, s, e))
    ensures EvalText(f, s, e).out.Val? ==> ValueOk(k, EvalText(f, s, e).out.v)
    decreases Room(f), 1, e, 0
  {
    ExprKept(k, f, s, e.args[0]);
    var a := EvalExpr(f, s, e.args[0]);
    if a.out.Val? {
      ExprKept(k, f, a.s, e.args[1]);
      var b := EvalExpr(f, a.s, e.args[1]);
      if b.out.Val? && |e.args| > 2 { ExprKept(k, f, b.s, e.args[2]); }
    }
  }

  lemma {:induction false} SyncArgsKept(k: Policy, f: Frame, s: S, e: Expr, a: Value)
    requires e.Primitive? && |e.args| == 4 && f.exec.Some? && ValueOk(k, a)
    requires Fits(k, f) && StateOk(k, s) && forall i :: 0 <= i < |e.args| ==> ExprOk(k, f, e.args[i])
    ensures Kept(k, EvalSync(f, s, e, a))
    ensures EvalSync(f, s, e, a).out.Val? ==> ValueOk(k, EvalSync(f, s, e, a).out.v)
    decreases Room(f), 1, e, 0
  {
    if a.VPath? {
      ExprKept(k, f, s, e.args[1]);
      var d := EvalExpr(f, s, e.args[1]);
      if d.out.Val? {
        ExprKept(k, f, d.s, e.args[2]);
        var del := EvalExpr(f, d.s, e.args[2]);
        if del.out.Val? {
          ExprKept(k, f, del.s, e.args[3]);
          var c := EvalExpr(f, del.s, e.args[3]);
          if c.out.Val? {
            SyncKept(k, f, c.s, a.path, Stringify(d.out.v), Stringify(del.out.v), Stringify(c.out.v));
          }
        }
      }
    }
  }

  lemma {:induction false} WriteArgsKept(k: Policy, f: Frame, s: S, e: Expr, a: Value)
    requires e.Primitive? && |e.args| == 2 && f.exec.Some?
    requires Fits(k, f) && StateOk(k, s) && forall i :: 0 <= i < |e.args| ==> ExprOk(k, f, e.args[i])
    ensures Kept(k, EvalWrite(f, s, e, a))
    ensures EvalWrite(f, s, e, a).out.Val? ==> ValueOk(k, EvalWrite(f, s, e, a).out.v)
    decreases Room(f), 1, e, 0
  {
    if a.VStr? {
      ExprKept(k, f, s, e.args[1]);
      var c := EvalExpr(f, s, e.args[1]);
      if c.out.Val? && (c.out.v.VStr? || c.out.v.VBytes?) { WriteKept(k, f, c.s, a.s, TextOf(c.out.v)); }
    }
  }

  ghost predicate ArgsOk(k: Policy, a: Args) {
    k.paths.Some? ==> forall n :: n in a.control && n in a.values ==> a.values[n] in k.paths.value
  }

  /** No parameter still to come has a name that is marked already. */
  ghost predicate Unmarked(params: seq<Param>, control: seq<string>) {
    forall i :: 0 <= i < |params| ==> params[i].name !in control
  }

  lemma MarksTail(params: seq<Param>, control: seq<string>, marked: bool)
    requires params != [] && OwnMarks(params) && Unmarked(params, control) && (marked ==> !params[0].isBool)
    ensures OwnMarks(params[1..])
    ensures Unmarked(params[1..], if marked then control + [params[0].name] else control)
  {
    forall i, j ensures !Shared(params[1..], i, j) { assert !Shared(params, i + 1, j + 1); }
    forall i | 0 <= i < |params[1..]| ensures marked ==> params[1..][i].name != params[0].name {
      assert !Shared(params, 0, i + 1);
    }
  }

  lemma {:induction false} ArgsKept(k: Policy, f: Frame, s: S, args: seq<Expr>, params: seq<Param>, acc: Args)
    requires |args| <= |params| && (k.paths.Some? ==> OwnMarks(params) && Unmarked(params, acc.control))
    requires Fits(k, f) && StateOk(k, s) && ArgsOk(k, acc) && forall e :: e in args ==> ExprOk(k, f, e)
    ensures Kept(k, EvalArgs(f, s, args, params, acc))
    ensures EvalArgs(f, s, args, params, acc).out.Val? ==> ArgsOk(k, EvalArgs(f, s, args, params, acc).out.v)
    decreases Room(f), 1, args, 0
  {
    if args != [] {
      ExprKept(k, f, s, args[0]);
      var r := EvalExpr(f, s, args[0]);
      if r.out.Val? && !r.out.v.VBytes? && TypeHolds(params[0], r.out.v) {
        var name := params[0].name;
        var values := acc.values[name := Stringify(r.out.v)];
        var control := if r.out.v.VPath? then acc.control + [name] else acc.control;
        if k.paths.Some? { MarksTail(params, acc.control, r.out.v.VPath?); }
        assert forall n :: n in control ==> n in acc.control || n == name;
        ArgsKept(k, f, r.s, args[1..], params[1..], Args(values, control));
      }
    }
  }

  /** The callee's frame fits when the name is one the caller may call. */
  lemma CalleeFits(k: Policy, f: Frame, name: string)
    requires Fits(k, f) && name in f.defs
    requires k.rank.Some? ==> name !in Above(f.defs, k.rank.value, Top(f))
    ensures Fits(k, f.(stack := f.stack + [name]))
    ensures k.rank.Some? ==> Top(f.(stack := f.stack + [name])) == name
  {
    var g := f.(stack := f.stack + [name]);
    assert forall n {:trigger Known(g, n)} :: Known(g, n) == Known(f, n);
    if k.rank.Some? {
      var rank := k.rank.value;
      assert Top(g) == name;
      forall n | Entered(g, n) ensures n in rank && n in Above(f.defs, rank, name) {
        if Entered(f, n) { assert rank[n] >= rank[Top(f)] > rank[name]; }
      }
    }
  }

  lemma {:induction false} CallKept(k: Policy, f: Frame, s: S, name: string, args: seq<Expr>)
    requires Fits(k, f) && StateOk(k, s) && forall e :: e in args ==> ExprOk(k, f, e)
    requires !(k.modes && f.phase == ApplyPhase)
    requires k.rank.Some? ==> name !in Above(f.defs, k.rank.value, Top(f))
    ensures Kept(k, EvalCall(f, s, name, args))
    ensures EvalCall(f, s, name, args).out.Val? ==> ValueOk(k, EvalCall(f, s, name, args).out.v)
    decreases Room(f), 1, args, 1
  {
    assert Entered(f, name) == (name in f.stack) && Known(f, name) == (name in f.defs);
    if name !in f.stack && name in f.defs {
      var def := f.defs[name];
      if RequiredCount(def.params) <= |args| <= |def.params| {
        ArgsKept(k, f, s, args, def.params, Args(map[], []));
        var r := EvalArgs(f, s, args, def.params, Args(map[], []));
        if r.out.Val? { EnterKept(k, f, r.s, name, r.out.v); }
      }
    }
  }

  lemma {:induction false} EnterKept(k: Policy, f: Frame, s: S, name: string, a: Args)
    requires Fits(k, f) && StateOk(k, s) && ArgsOk(k, a) && name in f.defs && name !in f.stack
    requires k.rank.Some? ==> name !in Above(f.defs, k.rank.value, Top(f))
    ensures Kept(k, Enter(f, s, name, a))
    ensures Enter(f, s, name, a).out.Val? ==> ValueOk(k, Enter(f, s, name, a).out.v)
    decreases Room(f), 0
  {
    RoomShrinks(f, name);
    CalleeFits(k, f, name);
    assert Known(f, name);
    DefKept(k, f.(stack := f.stack + [name]), s.sys, f.defs[name], name, a, map[]);
  }

  // --- statements ---

  lemma {:induction false} StmtKept(k: Policy, f: Frame, s: S, st: Stmt)
    requires Fits(k, f) && StateOk(k, s) && forall e :: e in StmtExprs(st) ==> ExprOk(k, f, e)
    ensures Kept(k, EvalStmt(f, s, st))
    ensures EvalStmt(f, s, st).out.Val? && EvalStmt(f, s, st).out.v.Some? ==>
              OutcomeOk(k, f, EvalStmt(f, s, st).out.v.value)
    decreases Room(f), 2, st, 0
  {
    match st
    case Let(name, e) =>
      ExprKept(k, f, s, e);
      var r := EvalExpr(f, s, e);
      if r.out.Val? { VarKept(k, r.s.vars, name, r.out.v); }
    case Effect(e) => ExprKept(k, f, s, e);
    case If(c, body) =>
      ExprKept(k, f, s, c);
      var r := EvalExpr(f, s, c);
      if r.out.Val? { StmtsKept(k, f, r.s, body); }
    case Return(o) => assert o.payload.Some? ==> o.payload.value in StmtExprs(st);
    case StateReturn(_) =>
  }

  ghost predicate OutcomeOk(k: Policy, f: Frame, o: Outcome) {
    o.payload.Some? ==> ExprOk(k, f, o.payload.value)
  }

  lemma {:induction false} StmtsKept(k: Policy, f: Frame, s: S, stmts: seq<Stmt>)
    requires Fits(k, f) && StateOk(k, s) && StmtsOk(k, f, stmts)
    ensures Kept(k, EvalStmts(f, s, stmts))
    ensures EvalStmts(f, s, stmts).out.Val? && EvalStmts(f, s, stmts).out.v.Some? ==>
              OutcomeOk(k, f, EvalStmts(f, s, stmts).out.v.value)
    decreases Room(f), 2, stmts, 0
  {
    if stmts != [] {
      StmtKept(k, f, s, stmts[0]);
      var r := EvalStmt(f, s, stmts[0]);
      if r.out.Val? && r.out.v.None? { StmtsKept(k, f, r.s, stmts[1..]); }
    }
  }

  lemma {:induction false} FieldsKept(k: Policy, f: Frame, s: S, fields: seq<StateField>, acc: map<string, string>)
    requires Fits(k, f) && StateOk(k, s) && forall x :: x in fields ==> ExprOk(k, f, x.value)
    ensures Kept(k, EvalFields(f, s, fields, acc))
    decreases Room(f), 2, fields, 0
  {
    if fields != [] {
      ExprKept(k, f, s, fields[0].value);
      var r := EvalExpr(f, s, fields[0].value);
      if r.out.Val? {
        FieldsKept(k, f, r.s, fields[1..], acc[fields[0].name := TrimRight(Stringify(r.out.v))]);
      }
    }
  }

  lemma {:induction false} ObserveKept(k: Policy, f: Frame, s: S, stmts: seq<Stmt>)
    requires Fits(k, f) && StateOk(k, s) && StmtsOk(k, f, stmts)
    ensures Kept(k, EvalObserve(f, s, stmts))
    decreases Room(f), 2, stmts, 0
  {
    if stmts != [] {
      assert forall e :: e in StmtExprs(stmts[0]) ==> ExprOk(k, f, e);
      match stmts[0]
      case Let(name, e) =>
        ExprKept(k, f, s, e);
        var r := EvalExpr(f, s, e);
        if r.out.Val? {
          VarKept(k, r.s.vars, name, r.out.v);
          ObserveKept(k, f, r.s.(vars := r.s.vars[name := r.out.v]), stmts[1..]);
        }
      case Effect(e) =>
        ExprKept(k, f, s, e);
        var r := EvalExpr(f, s, e);
        if r.out.Val? { ObserveKept(k, f, r.s, stmts[1..]); }
      case If(c, body) =>
        ExprKept(k, f, s, c);
        var r := EvalExpr(f, s, c);
        if r.out.Val? {
          if Truthy(r.out.v) {
            ObserveKept(k, f, r.s, body);
            var m := EvalObserve(f, r.s, body);
            if m.out.Val? && m.out.v.None? { ObserveKept(k, f, m.s, stmts[1..]); }
          } else {
            ObserveKept(k, f, r.s, stmts[1..]);
          }
        }
      case StateReturn(fields) =>
        assert forall x :: x in fields ==> x.value in StmtExprs(stmts[0]);
        FieldsKept(k, f, s, fields, map[]);
      case Return(_) => ObserveKept(k, f, s, stmts[1..]);
    }
  }

  lemma {:induction false} PreviewKept(k: Policy, f: Frame, s: S, stmts: seq<Stmt>)
    requires Fits(k, f) && StateOk(k, s) && StmtsOk(k, f, stmts)
    ensures Kept(k, EvalPreview(f, s, stmts))
    decreases Room(f), 2, stmts, 0
  {
    if stmts != [] {
      StmtKept(k, f, s, stmts[0]);
      var r := EvalStmt(f, s, stmts[0]);
      if r.out.Val? { PreviewKept(k, f, r.s, stmts[1..]); }
    }
  }

  // --- phases ---

  ghost predicate Listed(phases: seq<Phase>, p: Phase) {
    p in phases
  }

  ghost predicate PhaseOk(k: Policy, f: Frame, p: Phase) {
    forall e :: e in StmtsExprs(p.stmts) ==>
      (k.paths.Some? ==> NoLiteral(e)) &&
      (k.rank.Some? ==> f.stack != [] && CallsAvoid(e, Above(f.defs, k.rank.value, Top(f))))
  }

  ghost predicate PhasesOk(k: Policy, f: Frame, phases: seq<Phase>) {
    forall p {:trigger Listed(phases, p)} :: Listed(phases, p) ==> PhaseOk(k, f, p)
  }

  lemma PhasesTail(k: Policy, f: Frame, phases: seq<Phase>)
    requires PhasesOk(k, f, phases) && phases != []
    ensures PhasesOk(k, f, phases[1..]) && PhaseOk(k, f, phases[0])
  {
    assert Listed(phases, phases[0]);
    forall p | Listed(phases[1..], p) ensures PhaseOk(k, f, p) {
      assert Listed(phases, p);
    }
  }

  lemma FitsIn(k: Policy, f: Frame, phase: PhaseName)
    requires Fits(k, f)
    requires k.modes && k.mode == Status ==> phase != ApplyPhase && phase != PreviewPhase
    ensures Fits(k, In(f, phase)) && (k.rank.Some? ==> Top(In(f, phase)) == Top(f))
  {
    var g := In(f, phase);
    assert forall n {:trigger Known(g, n)} {:trigger Entered(g, n)} ::
      Known(g, n) == Known(f, n) && Entered(g, n) == Entered(f, n);
  }

  lemma PhaseFits(k: Policy, f: Frame, p: Phase)
    requires Fits(k, f) && PhaseOk(k, f, p)
    requires k.modes ==> p.name != ApplyPhase
    requires k.modes && k.mode == Status ==> p.name != PreviewPhase
    ensures Fits(k, In(f, p.name)) && StmtsOk(k, In(f, p.name), p.stmts)
  {
    FitsIn(k, f, p.name);
  }

  lemma {:induction false} ResultKept(k: Policy, f: Frame, s: S, o: Outcome)
    requires Fits(k, f) && StateOk(k, s) && OutcomeOk(k, f, o)
    ensures Kept(k, ToResult(f, s, o))
    decreases Room(f), 2, o, 0
  {
    if o.payload.Some? { ExprKept(k, f, s, o.payload.value); }
  }

  lemma {:induction false} RunPhaseKept(k: Policy, f: Frame, s: S, p: Phase)
    requires Fits(k, f) && StateOk(k, s) && PhaseOk(k, f, p)
    requires k.modes ==> p.name != ApplyPhase
    requires k.modes && k.mode == Status ==> p.name != PreviewPhase
    ensures Kept(k, RunPhase(f, s, p))
    decreases Room(f), 3, p, 0
  {
    PhaseFits(k, f, p);
    var g := In(f, p.name);
    StmtsKept(k, g, s, p.stmts);
    var r := EvalStmts(g, s, p.stmts);
    if r.out.Val? && r.out.v.Some? { ResultKept(k, g, r.s, r.out.v.value); }
  }

  lemma {:induction false} NamedKept(k: Policy, f: Frame, s: S, name: PhaseName, phases: seq<Phase>)
    requires Fits(k, f) && StateOk(k, s) && PhasesOk(k, f, phases)
    requires k.modes ==> name == CheckPhase
    ensures Kept(k, EvalNamed(f, s, name, phases))
    decreases Room(f), 3, phases, 1
  {
    if phases != [] {
      PhasesTail(k, f, phases);
      if phases[0].name != name {
        NamedKept(k, f, s, name, phases[1..]);
      } else {
        RunPhaseKept(k, f, s, phases[0]);
        var r := RunPhase(f, s, phases[0]);
        if r.out.Val? && r.out.v.None? { NamedKept(k, f, r.s, name, phases[1..]); }
      }
    }
  }

  lemma {:induction false} BesideKept(k: Policy, f: Frame, s: S, phases: seq<Phase>)
    requires Fits(k, f) && StateOk(k, s) && PhasesOk(k, f, phases) && forall p :: p in phases ==> p.name == CheckPhase
    ensures Kept(k, EvalBeside(f, s, phases))
    decreases Room(f), 3, phases, 1
  {
    if phases != [] {
      PhasesTail(k, f, phases);
      RunPhaseKept(k, f, s, phases[0]);
      var r := RunPhase(f, s, phases[0]);
      if r.out.Val? && r.out.v.None? { BesideKept(k, f, r.s, phases[1..]); }
    }
  }

  lemma {:induction false} DecidePhaseKept(k: Policy, f: Frame, s: S, def: Def, desired: map<string, string>, p: Phase)
    requires Fits(k, f) && StateOk(k, s) && PhaseOk(k, f, p)
    ensures Kept(k, DecidePhase(f, s, def, desired, p))
    decreases Room(f), 3, p, 1
  {
    if p.name == CheckPhase {
      RunPhaseKept(k, f, s, p);
    } else if p.name == ObservePhase {
      PhaseFits(k, f, p);
      ObserveKept(k, In(f, ObservePhase), s, p.stmts);
    }
  }

  lemma {:induction false} DecideKept(k: Policy, f: Frame, s: S, def: Def, desired: map<string, string>,
      phases: seq<Phase>)
    requires Fits(k, f) && StateOk(k, s) && PhasesOk(k, f, phases)
    ensures Kept(k, EvalDecide(f, s, def, desired, phases))
    decreases Room(f), 3, phases, 1
  {
    if phases != [] {
      PhasesTail(k, f, phases);
      DecidePhaseKept(k, f, s, def, desired, phases[0]);
      var r := DecidePhase(f, s, def, desired, phases[0]);
      if r.out.Val? && r.out.v.None? { DecideKept(k, f, r.s, def, desired, phases[1..]); }
    }
  }

  lemma {:induction false} StatusKept(k: Policy, f: Frame, s: S, desired: map<string, string>, phases: seq<Phase>)
    requires Fits(k, f) && StateOk(k, s) && PhasesOk(k, f, phases)
    ensures Kept(k, EvalStatus(f, s, desired, phases))
    decreases Room(f), 3, phases, 1
  {
    if phases != [] {
      PhasesTail(k, f, phases);
      if phases[0].name == ObservePhase {
        PhaseFits(k, f, phases[0]);
        ObserveKept(k, In(f, ObservePhase), s, phases[0].stmts);
      } else {
        StatusKept(k, f, s, desired, phases[1..]);
      }
    }
  }

  lemma {:induction false} PreviewsKept(k: Policy, f: Frame, s: S, phases: seq<Phase>, acc: string)
    requires Fits(k, f) && StateOk(k, s) && PhasesOk(k, f, phases) && (k.modes ==> k.mode == Check)
    ensures Kept(k, EvalPreviews(f, s, phases, acc))
    decreases Room(f), 3, phases, 1
  {
    if phases != [] {
      PhasesTail(k, f, phases);
      if phases[0].name == PreviewPhase {
        PhaseFits(k, f, phases[0]);
        PreviewKept(k, In(f, PreviewPhase), s, phases[0].stmts);
        var r := EvalPreview(In(f, PreviewPhase), s, phases[0].stmts);
        if r.out.Val? { PreviewsKept(k, f, r.s, phases[1..], Join(r.out.v, "\n")); }
      } else {
        PreviewsKept(k, f, s, phases[1..], acc);
      }
    }
  }

  lemma {:induction false} InertExprs(stmts: seq<Stmt>)
    requires InertStmts(stmts)
    ensures forall e :: e in StmtsExprs(stmts) ==> InertExpr(e)
  {
    if stmts != [] {
      InertStmtExprs(stmts[0]);
      InertExprs(stmts[1..]);
    }
  }

  lemma {:induction false} InertStmtExprs(st: Stmt)
    requires InertStmt(st)
    ensures forall e :: e in StmtExprs(st) ==> InertExpr(e)
  {
    if st.If? { InertExprs(st.body); }
  }

  lemma {:induction false} LastPhaseIs(phases: seq<Phase>, name: PhaseName)
    requires LastPhase(phases, name).Some?
    ensures Phase(name, LastPhase(phases, name).value) in phases
  {
    if phases[|phases| - 1].name == name {
      assert phases[|phases| - 1] == Phase(name, LastPhase(phases, name).value);
    } else {
      LastPhaseIs(phases[..|phases| - 1], name);
    }
  }

  lemma {:induction false} AnnounceKept(k: Policy, f: Frame, s: S, def: Def)
    requires Fits(k, f) && StateOk(k, s) && PhasesOk(k, f, def.phases) && f.mode == Check
    ensures Kept(k, EvalAnnounce(f, s, def))
    decreases Room(f), 4, 1
  {
    var ap := InertApply(def);
    if ap.None? {
      PreviewsKept(k, f, s, def.phases, "");
    } else {
      LastPhaseIs(def.phases, ApplyPhase);
      InertExprs(ap.value);
      var g, s0 := In(f, ApplyPhase), s.(acted := false);
      assert Listed(def.phases, Phase(ApplyPhase, ap.value));
      FitsIn(k, f, ApplyPhase);
      StmtsKept(k, g, s0, ap.value);
      var r := EvalStmts(g, s0, ap.value);
      if r.out.Val? { PreviewsKept(k, f, r.s, def.phases, ""); }
    }
  }

  lemma {:induction false} ConfirmKept(k: Policy, f: Frame, s: S, def: Def, desired: map<string, string>, r: Result)
    requires Fits(k, f) && StateOk(k, s) && PhasesOk(k, f, def.phases)
    ensures Kept(k, EvalConfirm(f, s, def, desired, r))
    decreases Room(f), 3, def.phases, 1
  {
    var obs := LastPhase(def.phases, ObservePhase);
    if obs.Some? {
      ObserveFits(k, f, def.phases);
      ObserveKept(k, In(f, ObservePhase), s, obs.value);
    }
  }

  lemma ObserveFits(k: Policy, f: Frame, phases: seq<Phase>)
    requires Fits(k, f) && PhasesOk(k, f, phases) && LastPhase(phases, ObservePhase).Some?
    ensures Fits(k, In(f, ObservePhase))
    ensures StmtsOk(k, In(f, ObservePhase), LastPhase(phases, ObservePhase).value)
  {
    var obs := Phase(ObservePhase, LastPhase(phases, ObservePhase).value);
    LastPhaseIs(phases, ObservePhase);
    assert Listed(phases, obs);
    PhaseFits(k, f, obs);
  }

  // --- a def ---

  /** The frame of a def between its phases. */
  ghost predicate Owns(k: Policy, f: Frame, name: string, def: Def) {
    DefOk(k, f.defs, name, def) && Fits(k, f) && f.phase == Prologue && (k.rank.Some? ==> Top(f) == name)
  }

  lemma DefParts(k: Policy, f: Frame, name: string, def: Def)
    requires Owns(k, f, name, def)
    ensures PhasesOk(k, f, def.phases)
    ensures def.delegate.Some? ==> forall e :: e in def.delegate.value.args ==> ExprOk(k, f, e)
    ensures forall p :: p in def.params && p.default.Some? ==> ExprOk(k, f, p.default.value)
  {
    forall p | Listed(def.phases, p) ensures PhaseOk(k, f, p) {
      forall e | e in StmtsExprs(p.stmts) ensures e in DefExprs(def) {
      }
    }
    if def.delegate.Some? {
      forall e | e in def.delegate.value.args ensures e in DefExprs(def) {
        assert e in Elems(def.delegate.value.args);
      }
    }
    forall p | p in def.params && p.default.Some? ensures p.default.value in DefExprs(def) {
    }
  }

  lemma {:induction false} DefaultsKept(k: Policy, f: Frame, s: S, params: seq<Param>)
    requires Fits(k, f) && StateOk(k, s)
    requires forall p :: p in params && p.default.Some? ==> ExprOk(k, f, p.default.value)
    ensures Kept(k, EvalDefaults(f, s, params))
    decreases Room(f), 2, params, 0
  {
    if params != [] {
      if params[0].name in s.vars || params[0].default.None? {
        DefaultsKept(k, f, s, params[1..]);
      } else {
        ExprKept(k, f, s, params[0].default.value);
        var r := EvalExpr(f, s, params[0].default.value);
        if r.out.Val? {
          VarKept(k, r.s.vars, params[0].name, r.out.v);
          DefaultsKept(k, f, r.s.(vars := r.s.vars[params[0].name := r.out.v]), params[1..]);
        }
      }
    }
  }

  lemma WithKept(k: Policy, vars: Vars, with: map<string, string>)
    requires VarsOk(k, vars)
    ensures VarsOk(k, vars + Bound(with))
  {
    var all := vars + Bound(with);
    forall x | Binds(all, x) ensures ValueOk(k, all[x]) {
      assert x in with || Binds(vars, x);
    }
  }

  lemma {:induction false} PrologueKept(k: Policy, f: Frame, sys: Sys, name: string, def: Def, a: Args,
      with: map<string, string>)
    requires Owns(k, f, name, def) && LogOk(k, sys.log) && ArgsOk(k, a)
    ensures Kept(k, EvalPrologue(f, sys, def, a, with))
    decreases Room(f), 3
  {
    DefParts(k, f, name, def);
    var vars := MarkControl(Bound(a.values), a.control);
    assert VarsOk(k, vars);
    DefaultsKept(k, f, S(vars, VNone, false, sys), def.params);
    var r := EvalDefaults(f, S(vars, VNone, false, sys), def.params);
    if r.out.Val? {
      WithKept(k, r.s.vars, with);
    }
  }

  lemma {:induction false} BodyKept(k: Policy, f: Frame, s: S, name: string, def: Def)
    requires Owns(k, f, name, def) && StateOk(k, s)
    ensures Kept(k, EvalBody(f, s, def))
    decreases Room(f), 5
  {
    DefParts(k, f, name, def);
    var desired := Desired(s.vars, def.params);
    if def.delegate.Some? {
      BesideKept(k, f, s, def.phases);
      var r := EvalBeside(f, s, def.phases);
      if r.out.Val? && r.out.v.None? { CallKept(k, f, r.s, def.delegate.value.name, def.delegate.value.args); }
    } else if f.mode == Status {
      NamedKept(k, f, s, CheckPhase, def.phases);
      var r := EvalNamed(f, s, CheckPhase, def.phases);
      if r.out.Val? && r.out.v.None? { StatusKept(k, f, r.s, desired, def.phases); }
    } else {
      DecideKept(k, f, s, def, desired, def.phases);
      var r := EvalDecide(f, s, def, desired, def.phases);
      if r.out.Val? && r.out.v.None? {
        if f.mode == Check {
          AnnounceKept(k, f, r.s, def);
        } else {
          NamedKept(k, f, r.s.(acted := false), ApplyPhase, def.phases);
          var a := EvalApplies(f, r.s.(acted := false), def.phases);
          if a.out.Val? { ConfirmKept(k, f, a.s, def, desired, a.out.v); }
        }
      }
    }
  }

  lemma InsideOwns(k: Policy, f: Frame, name: string, def: Def)
    requires Fits(k, f) && DefOk(k, f.defs, name, def) && (k.rank.Some? ==> Top(f) == name)
    ensures Owns(k, Inside(f, def), name, def) && Room(Inside(f, def)) == Room(f)
  {
    var g := Inside(f, def);
    assert forall n {:trigger Known(g, n)} {:trigger Entered(g, n)} ::
      Known(g, n) == Known(f, n) && Entered(g, n) == Entered(f, n);
  }

  /** What a whole def keeps: the log stays within the policy, and the cycle guard of the
      evaluator never fires under a ranking. */
  lemma {:induction false} DefKept(k: Policy, f: Frame, sys: Sys, def: Def, name: string, a: Args,
      with: map<string, string>)
    requires Fits(k, f) && DefOk(k, f.defs, name, def) && (k.rank.Some? ==> Top(f) == name)
    requires LogOk(k, sys.log) && ArgsOk(k, a)
    ensures LogOk(k, EvalDef(f, sys, def, a, with).1.log)
    ensures k.rank.Some? ==> EvalDef(f, sys, def, a, with).0 != Broken(Cycle)
    decreases Room(f), 6
  {
    var g := Inside(f, def);
    InsideOwns(k, f, name, def);
    PrologueKept(k, g, sys, name, def, a, with);
    var p := EvalPrologue(g, sys, def, a, with);
    if p.out.Val? { BodyKept(k, g, p.s, name, def); }
  }
}
