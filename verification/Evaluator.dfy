/** The evaluator as the program has it: an object that changes its variables, its last
    result and its `acted` flag as it goes, beside the target it acts on. Every method is
    proved to compute what the functions of `Eval` say. */
module Evaluator {
  import opened Basics
  import opened Ast
  import opened Eval
  import Text

  /** The target and its control host, as the oracles of a machine. */
  class Target {
    const m: Machine
    var w: World
    var asks: nat
    var log: seq<Event>

    constructor (m: Machine, w: World)
      ensures this.m == m && Now() == Sys(w, 0, [])
    {
      this.m, this.w, asks, log := m, w, 0, [];
    }

    function Now(): Sys
      reads this
    {
      Sys(w, asks, log)
    }

    method Note(e: Event)
      modifies this`log
      ensures Now() == old(Now()).Log(e)
    {
      log := log + [e];
    }

    method Shell(req: ShellReq) returns (r: ShellResult)
      modifies this
      ensures r == m.shell(old(w), req).0
      ensures Now() == old(Now()).(w := m.shell(old(w), req).1).Log(Event(req.phase, RanShell(req.cmd)))
    {
      var (got, next) := m.shell(w, req);
      r, w := got, next;
      Note(Event(req.phase, RanShell(req.cmd)));
    }

    method Ask(phase: PhaseName, resource: string, scope: map<string, string>) returns (got: Option<string>)
      modifies this
      ensures got == m.fetch(old(asks), resource, scope)
      ensures Now() == old(Now()).(asks := old(asks) + 1).Log(Event(phase, Asked(resource)))
    {
      got := m.fetch(asks, resource, scope);
      asks := asks + 1;
      Note(Event(phase, Asked(resource)));
    }

    /** The guard of a file put, then the placement where the mode acts. */
    method PutFile(exec: Exec, mode: Mode, phase: PhaseName, path: string, content: string) returns (r: Result)
      modifies this
      ensures (r, Now()) == RunFilePut(m, exec, mode, phase, old(Now()), path, content)
    {
      if path == "" { return Verdict(ERR, "pathMustNotBeEmpty"); }
      var found := m.digest(w, exec, path);
      Note(Event(phase, Guarded(path)));
      if found == Some(m.sum(content)) { return Verdict(OK, "already"); }
      if mode != Apply { return Verdict(WOULD, "written").(changed := true); }
      var (failed, next) := m.place(w, exec, path, content);
      w := next;
      Note(Event(phase, Put(path)));
      if failed.Some? { return Verdict(ERR, "runtime").(shell := failed); }
      return Verdict(OK, "written").(changed := true);
    }
  }

  class Ev {
    const f: Frame
    const target: Target
    var phase: PhaseName
    var vars: Vars
    var last: Value
    var acted: bool

    constructor (f: Frame, target: Target, vars: Vars)
      requires target.m == f.m
      ensures this.f == f && this.target == target && phase == f.phase
      ensures this.vars == vars && last == VNone && !acted
    {
      this.f, this.target, this.phase, this.vars, this.last, this.acted := f, target, f.phase, vars, VNone, false;
    }

    /** What the functions call the frame and the state. */
    ghost function Fr(): Frame
      reads this
    {
      f.(phase := phase)
    }

    ghost function Now(): S
      reads this, target
    {
      S(vars, last, acted, target.Now())
    }

    ghost predicate Valid()
      reads this, target
    {
      target.m == f.m
    }

    // --- expressions ---

    method EvalExpr(e: Expr) returns (out: Out<Value>)
      requires Valid()
      modifies this`last, this`acted, target
      ensures R(out, Now()) == Eval.EvalExpr(Fr(), old(Now()), e)
      decreases Room(Fr()), 1, e, 2
    {
      match e {
        case StrLit(t) =>
          var r, _ := Text.InterpolateLoop(t, Scalars(vars));
          return if r.None? then Fail(Fault) else Val(VStr(r.value));
        case ControlPath(t) =>
          var r, _ := Text.InterpolateLoop(t, Scalars(vars));
          return if r.None? then Fail(Fault) else Val(VPath(r.value));
        case BoolLit(b) => return Val(VBool(b));
        case IntLit(n) => return if n.None? then Fail(Fault) else Val(VInt(n.value));
        case Ident(name) =>
          if name == "ok" { return Val(VBool(LastOk(last))); }
          if name == "err" { return Val(VBool(!LastOk(last))); }
          return if name !in vars then Fail(Fault) else Val(vars[name]);
        case Field(recv, name) =>
          var v :- EvalExpr(recv);
          return FieldOf(v, name);
        case Compare(equal, l, r) =>
          var a :- EvalExpr(l);
          var b :- EvalExpr(r);
          return if !Comparable(a) || !Comparable(b) then Fail(Fault) else Val(VBool((a == b) == equal));
        case Not(x) =>
          var v :- EvalExpr(x);
          return Val(VBool(!Truthy(v)));
        case Shell(cmd, interp) => out := RunShell(cmd, interp);
        case Primitive(_, _) =>
          var v :- EvalPrimitive(e);
          last := v;
          return Val(v);
        case Call(name, args) => out := EvalCall(name, args);
      }
    }

    static function FieldOf(v: Value, name: string): Out<Value> {
      if !v.VShell? then Fail(Fault)
      else if name == "exit" then Val(VInt(v.res.exit))
      else if name == "stdout" then Val(VStr(v.res.stdout))
      else if name == "stderr" then Val(VStr(v.res.stderr))
      else Fail(Fault)
    }

    method RunShell(cmd: string, interp: string) returns (out: Out<Value>)
      requires Valid()
      modifies this`last, this`acted, target
      ensures R(out, Now()) == Eval.RunShell(Fr(), old(Now()), cmd, interp)
    {
      acted := true;
      if f.exec.None? || HoldsBytes(vars) { return Fail(Fault); }
      var r := target.Shell(ShellReq(phase, f.exec.value.Using(interp), cmd, ShellEnv(vars)));
      last := VShell(r);
      return Val(last);
    }

    method EvalPrimitive(e: Expr) returns (out: Out<Value>)
      requires Valid() && e.Primitive?
      modifies this`last, this`acted, target
      ensures R(out, Now()) == Eval.EvalPrimitive(Fr(), old(Now()), e)
      decreases Room(Fr()), 1, e, 1
    {
      if |e.args| != PrimitiveArity(e.name) { return Fail(Fault); }
      if IsText(e.name) {
        out := EvalText(e);
        return;
      }
      if !f.channel || f.exec.None? { return Fail(Fault); }
      var a :- EvalExpr(e.args[0]);
      match e.name {
        case "dir.sync" => out := EvalSync(e, a);
        case "file.write" => out := EvalWrite(e, a);
        case "file.read" => out := ReadPath(e.name, a);
        case "dir.list" => out := ReadPath(e.name, a);
        case "file.render" => out := Render(a);
        case _ => return Fail(Fault);
      }
    }

    method EvalText(e: Expr) returns (out: Out<Value>)
      requires Valid() && e.Primitive? && |e.args| == PrimitiveArity(e.name) && IsText(e.name)
      modifies this`last, this`acted, target
      ensures R(out, Now()) == Eval.EvalText(Fr(), old(Now()), e)
      decreases Room(Fr()), 1, e, 0
    {
      var a :- EvalExpr(e.args[0]);
      var p :- EvalExpr(e.args[1]);
      if !p.VStr? || !f.m.compiles(p.s) || !(a.VStr? || a.VBytes?) { return Fail(Fault); }
      if e.name == "text.matches" { return Val(VBool(f.m.matches(p.s, TextOf(a)))); }
      var t :- EvalExpr(e.args[2]);
      if !(t.VStr? || t.VBytes?) { return Fail(Fault); }
      var text := f.m.replaceAll(p.s, TextOf(a), TextOf(t));
      return Val(if a.VStr? then VStr(text) else VBytes(text));
    }

    method EvalSync(e: Expr, a: Value) returns (out: Out<Value>)
      requires Valid() && e.Primitive? && |e.args| == 4 && f.exec.Some?
      modifies this`last, this`acted, target
      ensures R(out, Now()) == Eval.EvalSync(Fr(), old(Now()), e, a)
      decreases Room(Fr()), 1, e, 0
    {
      if !a.VPath? { return Fail(Fault); }
      var d :- EvalExpr(e.args[1]);
      var del :- EvalExpr(e.args[2]);
      var c :- EvalExpr(e.args[3]);
      if d.VBytes? || del.VBytes? || c.VBytes? { return Fail(Fault); }
      out := SyncTree(a.path, Stringify(d), Stringify(del), Stringify(c));
    }

    /** A preview in Check, a transfer otherwise. */
    method SyncTree(src: string, dst: string, del: string, compare: string) returns (out: Out<Value>)
      requires Valid() && f.exec.Some?
      modifies this`acted, target
      ensures R(out, Now()) == Eval.SyncTree(Fr(), old(Now()), src, dst, del, compare)
    {
      if compare != "" && compare != "meta" && compare != "sha256" { return Fail(Fault); }
      if f.mode == Check {
        out := Preview(src, dst, del, compare);
      } else {
        out := Transfer(src, dst, del, compare);
      }
    }

    method Preview(src: string, dst: string, del: string, compare: string) returns (out: Out<Value>)
      requires Valid() && f.exec.Some? && f.mode == Check && (compare == "" || compare == "meta" || compare == "sha256")
      modifies this`acted, target
      ensures R(out, Now()) == Eval.SyncTree(Fr(), old(Now()), src, dst, del, compare)
    {
      var resource := ResourceKey("dir.sync", src);
      var got := f.m.preview(target.w, f.exec.value, resource, dst, compare);
      target.Note(Event(phase, Previewed(resource)));
      if got.None? { return Fail(Fault); }
      var (n, extras) := got.value;
      if n > 0 || (del == "true" && extras != []) { acted := true; }
      return Val(VStr(SyncSummary(n, extras, del == "true")));
    }

    method Transfer(src: string, dst: string, del: string, compare: string) returns (out: Out<Value>)
      requires Valid() && f.exec.Some? && f.mode != Check && (compare == "" || compare == "meta" || compare == "sha256")
      modifies this`acted, target
      ensures R(out, Now()) == Eval.SyncTree(Fr(), old(Now()), src, dst, del, compare)
    {
      var resource := ResourceKey("dir.sync", src);
      var (moved, next) := f.m.transfer(target.w, f.exec.value, resource, dst, compare, del == "true");
      target.w := next;
      target.Note(Event(phase, Transferred(resource)));
      if moved.None? { return Fail(Fault); }
      var n := moved.value.0 + moved.value.1;
      if n > 0 { acted := true; }
      return Val(VStr(Itoa(n)));
    }

    method EvalWrite(e: Expr, a: Value) returns (out: Out<Value>)
      requires Valid() && e.Primitive? && |e.args| == 2 && f.exec.Some?
      modifies this`last, this`acted, target
      ensures R(out, Now()) == Eval.EvalWrite(Fr(), old(Now()), e, a)
      decreases Room(Fr()), 1, e, 0
    {
      if !a.VStr? { return Fail(Fault); }
      var c :- EvalExpr(e.args[1]);
      if !(c.VStr? || c.VBytes?) { return Fail(Fault); }
      out := WriteFile(a.s, TextOf(c));
    }

    method WriteFile(path: string, content: string) returns (out: Out<Value>)
      requires Valid() && f.exec.Some?
      modifies this`acted, target
      ensures R(out, Now()) == Eval.WriteFile(Fr(), old(Now()), path, content)
    {
      var r := target.PutFile(f.exec.value, f.mode, phase, path, content);
      if r.changed { acted := true; }
      if r.category == ERR { return Fail(Fault); }
      return Val(VStr(if r.changed then "1" else "0"));
    }

    method ReadPath(name: string, a: Value) returns (out: Out<Value>)
      requires Valid() && f.exec.Some?
      modifies target
      ensures R(out, Now()) == Eval.ReadPath(Fr(), old(Now()), name, a)
    {
      var got: Option<string>;
      if a.VPath? {
        got := target.Ask(phase, ResourceKey(name, a.path), map[]);
      } else if a.VStr? {
        got := f.m.read(target.w, f.exec.value, name, a.s);
        target.Note(Event(phase, ReadTarget(a.s)));
      } else {
        return Fail(Fault);
      }
      return if got.None? then Fail(Fault) else Val(VBytes(got.value));
    }

    method Render(a: Value) returns (out: Out<Value>)
      requires Valid()
      modifies target
      ensures R(out, Now()) == Eval.Render(Fr(), old(Now()), a)
    {
      if !a.VPath? { return Fail(Fault); }
      var got := target.Ask(phase, ResourceKey("file.render", a.path), ShellEnv(vars));
      return if got.None? then Fail(Fault) else Val(VStr(got.value));
    }

    // --- calls ---

    method EvalCall(name: string, args: seq<Expr>) returns (out: Out<Value>)
      requires Valid()
      modifies this`last, this`acted, target
      ensures R(out, Now()) == Eval.EvalCall(Fr(), old(Now()), name, args)
      decreases Room(Fr()), 1, args, 1
    {
      if name in f.stack { return Fail(Cycle); }
      if name !in f.defs { return Fail(Fault); }
      var def := f.defs[name];
      if !(RequiredCount(def.params) <= |args| <= |def.params|) { return Fail(Fault); }
      var a :- EvalArgs(args, def.params);
      out := Enter(name, a);
    }

    method EvalArgs(args: seq<Expr>, params: seq<Param>) returns (out: Out<Args>)
      requires Valid() && |args| <= |params|
      modifies this`last, this`acted, target
      ensures R(out, Now()) == Eval.EvalArgs(Fr(), old(Now()), args, params, Args(map[], []))
      decreases Room(Fr()), 1, args, 0
    {
      var acc := Args(map[], []);
      var i := 0;
      while i < |args|
        invariant i <= |args|
        invariant Eval.EvalArgs(Fr(), old(Now()), args, params, Args(map[], [])) ==
                  Eval.EvalArgs(Fr(), Now(), args[i..], params[i..], acc)
      {
        assert args[i..][1..] == args[i + 1..] && params[i..][1..] == params[i + 1..];
        var v :- EvalExpr(args[i]);
        if v.VBytes? || !TypeHolds(params[i], v) { return Fail(Fault); }
        var x := params[i].name;
        acc := Args(acc.values[x := Stringify(v)], if v.VPath? then acc.control + [x] else acc.control);
        i := i + 1;
      }
      return Val(acc);
    }

    /** The callee is an evaluator of its own on the same target. */
    method Enter(name: string, a: Args) returns (out: Out<Value>)
      requires Valid() && name in f.defs && name !in f.stack
      modifies this`last, this`acted, target
      ensures R(out, Now()) == Eval.Enter(Fr(), old(Now()), name, a)
      decreases Room(Fr()), 0
    {
      RoomShrinks(Fr(), name);
      var fin := EvalDef(f.(stack := f.stack + [name], phase := phase), target, f.defs[name], a, map[]);
      match fin {
        case Broken(why) => return Fail(why);
        case Done(res) =>
          if res.changed { acted := true; }
          if res.category == ERR { return Callee(res); }
          last := VResult(res);
          return Val(last);
      }
    }

    // --- statements ---

    method EvalStmt(st: Stmt) returns (out: Out<Option<Outcome>>)
      requires Valid()
      modifies this`vars, this`last, this`acted, target
      ensures R(out, Now()) == Eval.EvalStmt(Fr(), old(Now()), st)
      decreases Room(Fr()), 2, st, 0
    {
      match st {
        case Let(name, e) =>
          var v :- EvalExpr(e);
          vars := vars[name := v];
          return Val(None);
        case Effect(e) =>
          var _ :- EvalExpr(e);
          return Val(None);
        case Return(o) => return Val(Some(o));
        case If(c, body) =>
          var v :- EvalExpr(c);
          if Truthy(v) {
            out := EvalStmts(body);
          } else {
            return Val(None);
          }
        case StateReturn(_) => return Val(None);
      }
    }

    method EvalStmts(stmts: seq<Stmt>) returns (out: Out<Option<Outcome>>)
      requires Valid()
      modifies this`vars, this`last, this`acted, target
      ensures R(out, Now()) == Eval.EvalStmts(Fr(), old(Now()), stmts)
      decreases Room(Fr()), 2, stmts, 0
    {
      var i := 0;
      while i < |stmts|
        invariant i <= |stmts|
        invariant Eval.EvalStmts(Fr(), old(Now()), stmts) == Eval.EvalStmts(Fr(), Now(), stmts[i..])
      {
        assert stmts[i..][1..] == stmts[i + 1..];
        var o :- EvalStmt(stmts[i]);
        if o.Some? { return Val(o); }
        i := i + 1;
      }
      return Val(None);
    }

    method EvalFields(fields: seq<StateField>) returns (out: Out<map<string, string>>)
      requires Valid()
      modifies this`last, this`acted, target
      ensures R(out, Now()) == Eval.EvalFields(Fr(), old(Now()), fields, map[])
      decreases Room(Fr()), 2, fields, 0
    {
      var acc: map<string, string> := map[];
      var i := 0;
      while i < |fields|
        invariant i <= |fields|
        invariant Eval.EvalFields(Fr(), old(Now()), fields, map[]) == Eval.EvalFields(Fr(), Now(), fields[i..], acc)
      {
        assert fields[i..][1..] == fields[i + 1..];
        var v :- EvalExpr(fields[i].value);
        acc := acc[fields[i].name := TrimRight(Stringify(v))];
        i := i + 1;
      }
      return Val(acc);
    }

    method EvalObserve(stmts: seq<Stmt>) returns (out: Out<Option<map<string, string>>>)
      requires Valid()
      modifies this`vars, this`last, this`acted, target
      ensures R(out, Now()) == Eval.EvalObserve(Fr(), old(Now()), stmts)
      decreases Room(Fr()), 2, stmts, 0
    {
      var i := 0;
      while i < |stmts|
        invariant i <= |stmts|
        invariant Eval.EvalObserve(Fr(), old(Now()), stmts) == Eval.EvalObserve(Fr(), Now(), stmts[i..])
      {
        assert stmts[i..][1..] == stmts[i + 1..];
        match stmts[i] {
          case Let(name, e) =>
            var v :- EvalExpr(e);
            vars := vars[name := v];
          case Effect(e) =>
            var _ :- EvalExpr(e);
          case If(c, body) =>
            var v :- EvalExpr(c);
            if Truthy(v) {
              var m :- EvalObserve(body);
              if m.Some? { return Val(m); }
            }
          case StateReturn(fields) =>
            var m :- EvalFields(fields);
            return Val(Some(m));
          case Return(_) =>
        }
        i := i + 1;
      }
      return Val(None);
    }

    /** Lines shown already, before what the rest shows. */
    static ghost function After(lines: seq<string>, r: R<seq<string>>): R<seq<string>> {
      if r.out.Val? then R(Val(lines + r.out.v), r.s) else r
    }

    static lemma AfterNothing(r: R<seq<string>>)
      ensures After([], r) == r
    {
      if r.out.Val? { assert [] + r.out.v == r.out.v; }
    }

    static lemma AfterAfter(a: seq<string>, b: seq<string>, r: R<seq<string>>)
      ensures After(a, After(b, r)) == After(a + b, r)
    {
      if r.out.Val? { assert a + (b + r.out.v) == a + b + r.out.v; }
    }

    /** One statement of a preview. */
    static lemma PreviewNext(f: Frame, s: S, stmts: seq<Stmt>, i: nat, lines: seq<string>)
      requires i < |stmts|
      ensures var r := Eval.EvalStmt(f, s, stmts[i]);
              After(lines, Eval.EvalPreview(f, s, stmts[i..])) ==
              if r.out.Val? then After(lines + Shown(r.s.last), Eval.EvalPreview(f, r.s, stmts[i + 1..]))
              else r.PropagateFailure<seq<string>>()
    {
      assert stmts[i..][0] == stmts[i] && stmts[i..][1..] == stmts[i + 1..];
      var r := Eval.EvalStmt(f, s, stmts[i]);
      if r.out.Val? { AfterAfter(lines, Shown(r.s.last), Eval.EvalPreview(f, r.s, stmts[i + 1..])); }
    }

    method EvalPreview(stmts: seq<Stmt>) returns (out: Out<seq<string>>)
      requires Valid()
      modifies this`vars, this`last, this`acted, target
      ensures R(out, Now()) == Eval.EvalPreview(Fr(), old(Now()), stmts)
      decreases Room(Fr()), 2, stmts, 0
    {
      var lines := [];
      var i := 0;
      ghost var s0 := Now();
      AfterNothing(Eval.EvalPreview(Fr(), s0, stmts));
      while i < |stmts|
        invariant i <= |stmts|
        invariant Eval.EvalPreview(Fr(), s0, stmts) == After(lines, Eval.EvalPreview(Fr(), Now(), stmts[i..]))
      {
        PreviewNext(Fr(), Now(), stmts, i, lines);
        var _ :- EvalStmt(stmts[i]);
        lines := lines + Shown(last);
        i := i + 1;
      }
      assert lines + [] == lines;
      return Val(lines);
    }

    // --- phases ---

    method ToResult(o: Outcome) returns (out: Out<Result>)
      requires Valid()
      modifies this`last, this`acted, target
      ensures R(out, Now()) == Eval.ToResult(Fr(), old(Now()), o)
      decreases Room(Fr()), 2, o, 0
    {
      var shell := None;
      if o.payload.Some? {
        var v :- EvalExpr(o.payload.value);
        if v.VShell? { shell := Some(v.res); }
      }
      return Val(Verdict(o.category, o.tag).(shell := shell));
    }

    method RunPhase(p: Phase) returns (out: Out<Option<Result>>)
      requires Valid()
      modifies this, target
      ensures R(out, Now()) == Eval.RunPhase(old(Fr()), old(Now()), p)
      ensures out.Val? ==> phase == old(phase)
      decreases Room(Fr()), 3, p, 0
    {
      var was := phase;
      phase := p.name;
      var o :- EvalStmts(p.stmts);
      if o.None? {
        phase := was;
        return Val(None);
      }
      var r :- ToResult(o.value);
      phase := was;
      return Val(Some(r));
    }

    /** The observe phase, read. */
    method Observe(stmts: seq<Stmt>) returns (out: Out<map<string, string>>)
      requires Valid()
      modifies this, target
      ensures var r := Eval.EvalObserve(In(old(Fr()), ObservePhase), old(Now()), stmts);
              Now() == r.s &&
                out == if r.out.Val? then Val(Observed(r.out.v)) else r.out.PropagateFailure<map<string, string>>()
      ensures out.Val? ==> phase == old(phase)
      decreases Room(Fr()), 2, stmts, 1
    {
      var was := phase;
      phase := ObservePhase;
      var m :- EvalObserve(stmts);
      phase := was;
      return Val(Observed(m));
    }

    method EvalNamed(name: PhaseName, phases: seq<Phase>) returns (out: Out<Option<Result>>)
      requires Valid()
      modifies this, target
      ensures R(out, Now()) == Eval.EvalNamed(old(Fr()), old(Now()), name, phases)
      ensures out.Val? ==> phase == old(phase)
      decreases Room(Fr()), 3, phases
    {
      var i := 0;
      while i < |phases|
        invariant i <= |phases| && phase == old(phase)
        invariant Eval.EvalNamed(old(Fr()), old(Now()), name, phases) ==
                  Eval.EvalNamed(old(Fr()), Now(), name, phases[i..])
      {
        assert phases[i..][1..] == phases[i + 1..];
        if phases[i].name == name {
          var o :- RunPhase(phases[i]);
          if o.Some? { return Val(o); }
        }
        i := i + 1;
      }
      return Val(None);
    }

    method EvalBeside(phases: seq<Phase>) returns (out: Out<Option<Result>>)
      requires Valid()
      modifies this, target
      ensures R(out, Now()) == Eval.EvalBeside(old(Fr()), old(Now()), phases)
      ensures out.Val? ==> phase == old(phase)
      decreases Room(Fr()), 3, phases
    {
      var i := 0;
      while i < |phases|
        invariant i <= |phases| && phase == old(phase)
        invariant Eval.EvalBeside(old(Fr()), old(Now()), phases) == Eval.EvalBeside(old(Fr()), Now(), phases[i..])
      {
        assert phases[i..][1..] == phases[i + 1..];
        var o :- RunPhase(phases[i]);
        if o.Some? { return Val(o); }
        i := i + 1;
      }
      return Val(None);
    }

    /** Pass 1. */
    method EvalDecide(def: Def, desired: map<string, string>, phases: seq<Phase>) returns (out: Out<Option<Result>>)
      requires Valid()
      modifies this, target
      ensures R(out, Now()) == Eval.EvalDecide(old(Fr()), old(Now()), def, desired, phases)
      ensures out.Val? ==> phase == old(phase)
      decreases Room(Fr()), 3, phases
    {
      var i := 0;
      while i < |phases|
        invariant i <= |phases| && phase == old(phase)
        invariant Eval.EvalDecide(old(Fr()), old(Now()), def, desired, phases) ==
                  Eval.EvalDecide(old(Fr()), Now(), def, desired, phases[i..])
      {
        assert phases[i..][1..] == phases[i + 1..];
        var o :- DecidePhase(def, desired, phases[i]);
        if o.Some? { return Val(o); }
        i := i + 1;
      }
      return Val(None);
    }

    method DecidePhase(def: Def, desired: map<string, string>, p: Phase) returns (out: Out<Option<Result>>)
      requires Valid()
      modifies this, target
      ensures R(out, Now()) == Eval.DecidePhase(old(Fr()), old(Now()), def, desired, p)
      ensures out.Val? ==> phase == old(phase)
      decreases Room(Fr()), 3, p, 1
    {
      if p.name == CheckPhase {
        var o :- RunPhase(p);
        if o.None? { return Val(None); }
        var question := AsksOnly(def);
        return Val(Some(if f.mode == Check && o.value.category == ERR &&
              question then Verdict(WOULD, "") else o.value));
      }
      if p.name == ObservePhase {
        var m :- Observe(p.stmts);
        return Val(SkipIf(Converged(m, desired)));
      }
      return Val(None);
    }

    /** `diffFields`: the names sorted, one entry appended for each. */
    static method DiffFields(observed: map<string, string>, desired: map<string, string>) returns (out: seq<FieldDiff>)
      ensures out == Eval.DiffFields(observed, desired)
    {
      var names := SortStrings(observed.Keys);
      NamesObserved(names, observed);
      out := DiffEach(names, observed, desired);
    }

    static lemma NamesObserved(names: seq<string>, observed: map<string, string>)
      requires Elems(names) == observed.Keys
      ensures forall n :: n in names ==> n in observed
    {
      assert forall n :: n in names <==> n in Elems(names);
    }

    static lemma DiffNext(names: seq<string>, observed: map<string, string>, desired: map<string, string>, i: nat,
        out: seq<FieldDiff>)
      requires i < |names| && forall n :: n in names ==> n in observed
      ensures out + Diffs(names[i..], observed, desired) ==
              (out + [DiffOf(names[i], observed[names[i]], desired)]) + Diffs(names[i + 1..], observed, desired)
    {
      assert names[i..][0] == names[i] && names[i..][1..] == names[i + 1..];
      var d := DiffOf(names[i], observed[names[i]], desired);
      assert out + ([d] + Diffs(names[i + 1..], observed, desired)) ==
             (out + [d]) + Diffs(names[i + 1..], observed, desired);
    }

    static method DiffEach(names: seq<string>, observed: map<string, string>, desired: map<string, string>)
        returns (out: seq<FieldDiff>)
      requires forall n :: n in names ==> n in observed
      ensures out == Diffs(names, observed, desired)
    {
      out := [];
      var i := 0;
      while i < |names|
        invariant i <= |names|
        invariant Diffs(names, observed, desired) == out + Diffs(names[i..], observed, desired)
      {
        assert names[i] in names;
        DiffNext(names, observed, desired, i, out);
        out := out + [DiffOf(names[i], observed[names[i]], desired)];
        i := i + 1;
      }
    }

    /** `statusResult`. */
    method EvalStatus(desired: map<string, string>, phases: seq<Phase>) returns (out: Out<Result>)
      requires Valid()
      modifies this, target
      ensures R(out, Now()) == Eval.EvalStatus(old(Fr()), old(Now()), desired, phases)
      decreases Room(Fr()), 3, phases
    {
      var i := 0;
      while i < |phases|
        invariant i <= |phases| && phase == old(phase) && Now() == old(Now())
        invariant Eval.EvalStatus(old(Fr()), old(Now()), desired, phases) ==
                  Eval.EvalStatus(old(Fr()), old(Now()), desired, phases[i..])
      {
        assert phases[i..][1..] == phases[i + 1..];
        if phases[i].name == ObservePhase {
          var m :- Observe(phases[i].stmts);
          var fields := DiffFields(m, desired);
          return Val(StatusOf(fields));
        }
        i := i + 1;
      }
      return Val(Verdict(OK, "action"));
    }

    method EvalPreviews(phases: seq<Phase>) returns (out: Out<string>)
      requires Valid()
      modifies this, target
      ensures R(out, Now()) == Eval.EvalPreviews(old(Fr()), old(Now()), phases, "")
      ensures out.Val? ==> phase == old(phase)
      decreases Room(Fr()), 3, phases
    {
      var acc := "";
      var i := 0;
      while i < |phases|
        invariant i <= |phases| && phase == old(phase)
        invariant Eval.EvalPreviews(old(Fr()), old(Now()), phases, "") ==
                  Eval.EvalPreviews(old(Fr()), Now(), phases[i..], acc)
      {
        assert phases[i..][1..] == phases[i + 1..];
        if phases[i].name == PreviewPhase {
          var was := phase;
          phase := PreviewPhase;
          var lines :- EvalPreview(phases[i].stmts);
          phase := was;
          acc := Join(lines, "\n");
        }
        i := i + 1;
      }
      return Val(acc);
    }

    method Announced(def: Def, tag: string) returns (out: Out<Result>)
      requires Valid()
      modifies this, target
      ensures R(out, Now()) == Eval.Announced(old(Fr()), old(Now()), def, tag)
      decreases Room(Fr()), 4, 0
    {
      var text :- EvalPreviews(def.phases);
      return Val(Verdict(WOULD, tag).(changed := true, preview := text));
    }

    /** `isQuestion`: every phase a check, and at least one. */
    static method AsksOnly(def: Def) returns (yes: bool)
      ensures yes == IsQuestion(def)
    {
      var i := 0;
      while i < |def.phases|
        invariant i <= |def.phases| && forall p :: p in def.phases[..i] ==> p.name == CheckPhase
      {
        assert def.phases[i] in def.phases;
        if def.phases[i].name != CheckPhase { return false; }
        i := i + 1;
      }
      assert def.phases[..i] == def.phases;
      return def.phases != [] && def.delegate.None?;
    }

    /** `inertApply`: none beside an observe, else the last apply when nothing in it acts. */
    static method KeptApply(def: Def) returns (ap: Option<seq<Stmt>>)
      ensures ap == InertApply(def)
    {
      ap := None;
      var i := 0;
      while i < |def.phases|
        invariant i <= |def.phases| && ap == LastPhase(def.phases[..i], ApplyPhase)
        invariant forall p :: p in def.phases[..i] ==> p.name != ObservePhase
      {
        assert def.phases[..i + 1][..i] == def.phases[..i] && def.phases[i] in def.phases;
        if def.phases[i].name == ObservePhase { return None; }
        if def.phases[i].name == ApplyPhase { ap := Some(def.phases[i].stmts); }
        i := i + 1;
      }
      assert def.phases[..i] == def.phases;
      return if ap.Some? && InertStmts(ap.value) then ap else None;
    }

    /** Check mode after pass 1. */
    method EvalAnnounce(def: Def) returns (out: Out<Result>)
      requires Valid()
      modifies this, target
      ensures R(out, Now()) == Eval.EvalAnnounce(old(Fr()), old(Now()), def)
      decreases Room(Fr()), 4, 1
    {
      var tag := RetTag(def.phases);
      var ap := KeptApply(def);
      if ap.Some? {
        acted := false;
        var was := phase;
        phase := ApplyPhase;
        var o :- EvalStmts(ap.value);
        phase := was;
        if !acted { return Val(Verdict(OK, "already")); }
        if o.Some? && o.value.category == OK && o.value.tag != "" { tag := o.value.tag; }
      }
      out := Announced(def, tag);
    }

    /** The phase `confirm` keeps: the last observe. */
    static method LastObserve(phases: seq<Phase>) returns (obs: Option<seq<Stmt>>)
      ensures obs == LastPhase(phases, ObservePhase)
    {
      obs := None;
      var i := 0;
      while i < |phases|
        invariant i <= |phases| && obs == LastPhase(phases[..i], ObservePhase)
      {
        assert phases[..i + 1][..i] == phases[..i];
        if phases[i].name == ObservePhase { obs := Some(phases[i].stmts); }
        i := i + 1;
      }
      assert phases[..i] == phases;
    }

    static method MissedOf(fields: seq<FieldDiff>) returns (missed: seq<FieldDiff>)
      ensures missed == Missed(fields)
    {
      missed := [];
      var i := 0;
      while i < |fields|
        invariant i <= |fields| && Missed(fields) == missed + Missed(fields[i..])
      {
        assert fields[i..][1..] == fields[i + 1..];
        if !fields[i].converged { missed := missed + [fields[i]]; }
        i := i + 1;
      }
    }

    /** `changedIfActed` and `confirm`. */
    method Confirm(def: Def, desired: map<string, string>, proposed: Result) returns (out: Out<Result>)
      requires Valid()
      modifies this, target
      ensures R(out, Now()) == Eval.EvalConfirm(old(Fr()), old(Now()), def, desired, proposed)
      decreases Room(Fr()), 3, def.phases
    {
      if proposed.category != OK || !acted { return Val(proposed); }
      var r := proposed.(changed := true);
      var obs := LastObserve(def.phases);
      if obs.None? { return Val(r); }
      var observed :- Observe(obs.value);
      if Converged(observed, desired) { return Val(r); }
      var fields := DiffFields(observed, desired);
      var missed := MissedOf(fields);
      return Val(Verdict(ERR, "unconfirmed").(fields := missed));
    }

    // --- a def ---

    /** Everything before the phases: defaults for what is missing, then `with`. */
    method Prologue(def: Def, with: map<string, string>) returns (out: Out<()>)
      requires Valid()
      modifies this`vars, this`last, this`acted, target
      ensures var d := Eval.EvalDefaults(Fr(), old(Now()), def.params);
              R(out, Now()) == if d.out.Val? then R(Val(()), d.s.(vars := d.s.vars + Bound(with))) else d
      decreases Room(Fr()), 2, def.params, 1
    {
      var _ :- Defaults(def.params);
      vars := vars + Bound(with);
      return Val(());
    }

    method Defaults(params: seq<Param>) returns (out: Out<()>)
      requires Valid()
      modifies this`vars, this`last, this`acted, target
      ensures R(out, Now()) == Eval.EvalDefaults(Fr(), old(Now()), params)
      decreases Room(Fr()), 2, params, 0
    {
      ghost var s0 := Now();
      var i := 0;
      while i < |params|
        invariant i <= |params|
        invariant Eval.EvalDefaults(Fr(), s0, params) == Eval.EvalDefaults(Fr(), Now(), params[i..])
      {
        var p := params[i];
        assert params[i..][0] == p && params[i..][1..] == params[i + 1..];
        if p.name !in vars && p.default.Some? {
          var v :- EvalExpr(p.default.value);
          vars := vars[p.name := v];
        }
        i := i + 1;
      }
      return Val(());
    }

    method Body(def: Def) returns (out: Out<Result>)
      requires Valid()
      modifies this, target
      ensures R(out, Now()) == Eval.EvalBody(old(Fr()), old(Now()), def)
      decreases Room(Fr()), 5, 0
    {
      var desired := Desired(vars, def.params);
      if def.delegate.Some? {
        out := Delegate(def);
        return;
      }
      if f.mode == Status {
        var o :- EvalNamed(CheckPhase, def.phases);
        if o.Some? { return Val(o.value); }
        out := EvalStatus(desired, def.phases);
        return;
      }
      var o :- EvalDecide(def, desired, def.phases);
      if o.Some? { return Val(o.value); }
      if f.mode == Check {
        out := EvalAnnounce(def);
        return;
      }
      acted := false;
      var r :- EvalNamed(ApplyPhase, def.phases);
      out := Confirm(def, desired, if r.Some? then r.value else Verdict(OK, ""));
    }

    method Delegate(def: Def) returns (out: Out<Result>)
      requires Valid() && def.delegate.Some?
      modifies this, target
      ensures R(out, Now()) == Eval.EvalBody(old(Fr()), old(Now()), def)
      decreases Room(Fr()), 4
    {
      var o :- EvalBeside(def.phases);
      if o.Some? { return Val(o.value); }
      var v :- EvalCall(def.delegate.value.name, def.delegate.value.args);
      if !v.VResult? { return Fail(Fault); }
      return Val(v.verdict);
    }

    /** The arguments as variables, then the control-host marks put on them. */
    static method Bind(a: Args) returns (vars: Vars)
      ensures vars == MarkControl(Bound(a.values), a.control)
    {
      vars := Bound(a.values);
      ghost var bound := vars;
      var i := 0;
      while i < |a.control|
        invariant i <= |a.control|
        invariant vars == MarkControl(bound, a.control[..i])
      {
        var x := a.control[i];
        assert forall k :: k in a.control[..i + 1] <==> k in a.control[..i] || k == x;
        if x in vars && vars[x].VStr? { vars := vars[x := VPath(vars[x].s)]; }
        i := i + 1;
      }
      assert a.control[..i] == a.control;
    }

    /** `EvalDefFull`: an evaluator for this def alone. */
    static method EvalDef(f: Frame, target: Target, def: Def, a: Args, with: map<string, string>)
        returns (fin: Finished)
      requires target.m == f.m
      modifies target
      ensures (fin, target.Now()) == Eval.EvalDef(f, old(target.Now()), def, a, with)
      decreases Room(f), 6
    {
      var vars := Bind(a);
      ghost var sys := target.Now();
      var ev := new Ev(Inside(f, def), target, vars);
      assert ev.Fr() == Inside(f, def) && ev.Now() == S(vars, VNone, false, sys);
      RoomInside(f, def);
      var out := ev.Run(def, with);
      DefIs(f, sys, def, a, with);
      fin := Settled(out);
    }

    static lemma RoomInside(f: Frame, def: Def)
      ensures Room(Inside(f, def)) == Room(f)
    {
    }

    /** A def from its bound arguments to its verdict. */
    static ghost function WholeDef(g: Frame, s: S, def: Def, with: map<string, string>): R<Result> {
      var d := Eval.EvalDefaults(g, s, def.params);
      if d.out.Val? then Eval.EvalBody(g, d.s.(vars := d.s.vars + Bound(with)), def) else d.PropagateFailure<Result>()
    }

    static lemma DefIs(f: Frame, sys: Sys, def: Def, a: Args, with: map<string, string>)
      ensures var r := WholeDef(Inside(f, def), S(MarkControl(Bound(a.values), a.control), VNone, false, sys), def,
                with);
              Eval.EvalDef(f, sys, def, a, with) == (Settled(r.out), r.s.sys)
    {
    }

    /** An evaluator with its arguments bound, from its defaults to its verdict. */
    method Run(def: Def, with: map<string, string>) returns (out: Out<Result>)
      requires Valid()
      modifies this, target
      ensures R(out, Now()) == WholeDef(old(Fr()), old(Now()), def, with)
      decreases Room(Fr()), 5, 1
    {
      var _ :- Prologue(def, with);
      out := Body(def);
    }
  }
}
