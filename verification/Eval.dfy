/** What evaluating a def computes: the interpreter as functions from a state to a result
    and the state after it. The executor, the control host and the tree transfer are
    oracles; every touch of one of them leaves an event. */
module Eval {
  import opened Basics
  import opened Ast
  import Text

  /** The target's state, as a code: the oracles say how it answers and how it changes. */
  type World = nat

  /** Who runs a shell and under which interpreter; an empty name changes nothing. */
  datatype Exec = Exec(user: string, interp: string) {
    function As(u: string): Exec { if u == "" then this else this.(user := u) }
    function Using(i: string): Exec { if i == "" then this else this.(interp := i) }
  }

  datatype ShellReq = ShellReq(phase: PhaseName, exec: Exec, cmd: string, env: map<string, string>)

  datatype Machine = Machine(
    shell: (World, ShellReq) -> (ShellResult, World),
    digest: (World, Exec, string) -> Option<string>,
    place: (World, Exec, string, string) -> (Option<ShellResult>, World),
    read: (World, Exec, string, string) -> Option<string>,
    transfer: (World, Exec, string, string, string, bool) -> (Option<(nat, nat)>, World),
    preview: (World, Exec, string, string, string) -> Option<(nat, seq<string>)>,
    fetch: (nat, string, map<string, string>) -> Option<string>,
    sum: string -> string,
    compiles: string -> bool,
    matches: (string, string) -> bool,
    replaceAll: (string, string, string) -> string)

  datatype Kind =
    | RanShell(cmd: string)
    | Guarded(path: string)
    | Put(path: string)
    | ReadTarget(path: string)
    | Transferred(resource: string)
    | Previewed(resource: string)
    | Asked(resource: string)

  datatype Event = Event(phase: PhaseName, kind: Kind)

  /** The target and the log of what was done to it; `asks` counts what the control host
      was asked. */
  datatype Sys = Sys(w: World, asks: nat, log: seq<Event>) {
    function Log(e: Event): Sys { this.(log := log + [e]) }
  }

  /** What one evaluation holds fixed. No executor is the early argument check's evaluator. */
  datatype Frame = Frame(
    m: Machine,
    defs: map<string, Def>,
    mode: Mode,
    stack: seq<string>,
    exec: Option<Exec>,
    channel: bool,
    phase: PhaseName)

  /** The evaluator's own fields. */
  datatype S = S(vars: Vars, last: Value, acted: bool, sys: Sys)

  datatype Why = Cycle | Fault

  /** A value, an evaluation failure, or a callee's error travelling up. */
  datatype Out<+T> = Val(v: T) | Fail(why: Why) | Callee(res: Refusal) {
    predicate IsFailure() { !Val? }
    function PropagateFailure<U>(): Out<U>
      requires !Val?
    {
      if Fail? then Fail(why) else Callee(res)
    }
    function Extract(): T
      requires Val?
    {
      v
    }
  }

  datatype R<+T> = R(out: Out<T>, s: S) {
    predicate IsFailure() { !out.Val? }
    function PropagateFailure<U>(): R<U>
      requires !out.Val?
    {
      R(out.PropagateFailure<U>(), s)
    }
    function Extract(): (T, S)
      requires out.Val?
    {
      (out.v, s)
    }
  }

  datatype Finished = Done(res: Result) | Broken(why: Why)

  /** How many defs a call may still enter. */
  ghost function Room(f: Frame): nat {
    |f.defs.Keys - Elems(f.stack)|
  }

  lemma RoomShrinks(f: Frame, name: string)
    requires name in f.defs && name !in f.stack
    ensures Room(f.(stack := f.stack + [name])) < Room(f)
  {
    assert f.defs.Keys - Elems(f.stack + [name]) == (f.defs.Keys - Elems(f.stack)) - {name} by {
      assert forall x :: x in f.stack + [name] <==> x in f.stack || x == name;
    }
    assert name in f.defs.Keys - Elems(f.stack);
  }

  // --- engine.Run over ~file.write and a plan's own shell ---

  /** `engine.Run(FilePut{…})`: guard by digest, and place only when the mode acts. */
  ghost function RunFilePut(m: Machine, exec: Exec, mode: Mode, phase: PhaseName, sys: Sys, path: string,
      content: string): (Result, Sys) {
    if path == "" then (Verdict(ERR, "pathMustNotBeEmpty"), sys)
    else
      var sys1 := sys.Log(Event(phase, Guarded(path)));
      if m.digest(sys.w, exec, path) == Some(m.sum(content)) then (Verdict(OK, "already"), sys1)
      else if mode != Apply then (Verdict(WOULD, "written").(changed := true), sys1)
      else
        var (failed, w) := m.place(sys.w, exec, path, content);
        var sys2 := sys1.(w := w).Log(Event(phase, Put(path)));
        if failed.Some? then (Verdict(ERR, "runtime").(shell := failed), sys2)
        else (Verdict(OK, "written").(changed := true), sys2)
  }

  /** `engine.Run(Shell{…})`, the shell a plan writes itself. */
  ghost function RunPlanShell(m: Machine, exec: Exec, mode: Mode, sys: Sys, cmd: string,
      env: map<string, string>): (Result, Sys) {
    if TrimRight(cmd) == "" then (Verdict(ERR, "emptyCommand"), sys)
    else if mode != Apply then (Verdict(WOULD, "ran").(changed := true), sys)
    else
      var (r, w) := m.shell(sys.w, ShellReq(ApplyPhase, exec, cmd, env));
      var sys1 := sys.(w := w).Log(Event(ApplyPhase, RanShell(cmd)));
      if r.exit != 0 then (Verdict(ERR, "runtime").(shell := Some(r)), sys1)
      else (Verdict(OK, "ran").(changed := true), sys1)
  }

  // --- expressions ---

  ghost function EvalExpr(f: Frame, s: S, e: Expr): R<Value>
    decreases Room(f), 1, e, 2
  {
    match e
    case StrLit(t) =>
      var r := Text.Interpolate(t, Scalars(s.vars));
      if r.None? then R(Fail(Fault), s) else R(Val(VStr(r.value)), s)
    case ControlPath(t) =>
      var r := Text.Interpolate(t, Scalars(s.vars));
      if r.None? then R(Fail(Fault), s) else R(Val(VPath(r.value)), s)
    case BoolLit(b) => R(Val(VBool(b)), s)
    case IntLit(n) => if n.None? then R(Fail(Fault), s) else R(Val(VInt(n.value)), s)
    case Ident(name) =>
      if name == "ok" then R(Val(VBool(LastOk(s.last))), s)
      else if name == "err" then R(Val(VBool(!LastOk(s.last))), s)
      else if name !in s.vars then R(Fail(Fault), s)
      else R(Val(s.vars[name]), s)
    case Field(recv, name) =>
      var (v, s1) :- EvalExpr(f, s, recv);
      if !v.VShell? then R(Fail(Fault), s1)
      else if name == "exit" then R(Val(VInt(v.res.exit)), s1)
      else if name == "stdout" then R(Val(VStr(v.res.stdout)), s1)
      else if name == "stderr" then R(Val(VStr(v.res.stderr)), s1)
      else R(Fail(Fault), s1)
    case Compare(equal, l, r) =>
      var (a, s1) :- EvalExpr(f, s, l);
      var (b, s2) :- EvalExpr(f, s1, r);
      if !Comparable(a) || !Comparable(b) then R(Fail(Fault), s2)
      else R(Val(VBool((a == b) == equal)), s2)
    case Not(x) =>
      var (v, s1) :- EvalExpr(f, s, x);
      R(Val(VBool(!Truthy(v))), s1)
    case Shell(cmd, interp) => RunShell(f, s, cmd, interp)
    case Primitive(_, _) =>
      var (v, s1) :- EvalPrimitive(f, s, e);
      R(Val(v), s1.(last := v))
    case Call(name, args) => EvalCall(f, s, name, args)
  }

  /** A def's `shell { … }`: the one thing that always marks the def as having acted. */
  ghost function RunShell(f: Frame, s: S, cmd: string, interp: string): R<Value> {
    var s1 := s.(acted := true);
    if f.exec.None? || HoldsBytes(s.vars) then R(Fail(Fault), s1)
    else
      var (r, w) := f.m.shell(s.sys.w, ShellReq(f.phase, f.exec.value.Using(interp), cmd, ShellEnv(s.vars)));
      R(Val(VShell(r)), s1.(last := VShell(r), sys := s.sys.(w := w).Log(Event(f.phase, RanShell(cmd)))))
  }

  function PrimitiveArity(name: string): nat {
    if name == "file.write" || name == "text.matches" then 2
    else if name == "text.replace" then 3
    else if name == "dir.sync" then 4
    else 1
  }

  predicate IsText(name: string) {
    name == "text.matches" || name == "text.replace"
  }

  ghost function EvalPrimitive(f: Frame, s: S, e: Expr): R<Value>
    requires e.Primitive?
    decreases Room(f), 1, e, 1
  {
    if |e.args| != PrimitiveArity(e.name) then R(Fail(Fault), s)
    else if IsText(e.name) then EvalText(f, s, e)
    else if !f.channel || f.exec.None? then R(Fail(Fault), s)
    else
      var (a, s1) :- EvalExpr(f, s, e.args[0]);
      if e.name == "dir.sync" then EvalSync(f, s1, e, a)
      else if e.name == "file.write" then EvalWrite(f, s1, e, a)
      else if e.name == "file.read" || e.name == "dir.list" then ReadPath(f, s1, e.name, a)
      else if e.name == "file.render" then Render(f, s1, a)
      else R(Fail(Fault), s1)
  }

  /** `evalText`: no file, no host; the subject's kind is kept. */
  ghost function EvalText(f: Frame, s: S, e: Expr): R<Value>
    requires e.Primitive? && |e.args| == PrimitiveArity(e.name) && IsText(e.name)
    decreases Room(f), 1, e, 0
  {
    var (a, s1) :- EvalExpr(f, s, e.args[0]);
    var (p, s2) :- EvalExpr(f, s1, e.args[1]);
    if !p.VStr? || !f.m.compiles(p.s) || !(a.VStr? || a.VBytes?) then R(Fail(Fault), s2)
    else if e.name == "text.matches" then R(Val(VBool(f.m.matches(p.s, TextOf(a)))), s2)
    else
      var (t, s3) :- EvalExpr(f, s2, e.args[2]);
      if !(t.VStr? || t.VBytes?) then R(Fail(Fault), s3)
      else
        var out := f.m.replaceAll(p.s, TextOf(a), TextOf(t));
        R(Val(if a.VStr? then VStr(out) else VBytes(out)), s3)
  }

  /** `evalSync`: the source must be a marked path, and no argument bytes. */
  ghost function EvalSync(f: Frame, s: S, e: Expr, a: Value): R<Value>
    requires e.Primitive? && |e.args| == 4 && f.exec.Some?
    decreases Room(f), 1, e, 0
  {
    if !a.VPath? then R(Fail(Fault), s)
    else
      var (d, s1) :- EvalExpr(f, s, e.args[1]);
      var (del, s2) :- EvalExpr(f, s1, e.args[2]);
      var (c, s3) :- EvalExpr(f, s2, e.args[3]);
      if d.VBytes? || del.VBytes? || c.VBytes? then R(Fail(Fault), s3)
      else SyncTree(f, s3, a.path, Stringify(d), Stringify(del), Stringify(c))
  }

  ghost function EvalWrite(f: Frame, s: S, e: Expr, a: Value): R<Value>
    requires e.Primitive? && |e.args| == 2 && f.exec.Some?
    decreases Room(f), 1, e, 0
  {
    if !a.VStr? then R(Fail(Fault), s)
    else
      var (c, s1) :- EvalExpr(f, s, e.args[1]);
      if !(c.VStr? || c.VBytes?) then R(Fail(Fault), s1) else WriteFile(f, s1, a.s, TextOf(c))
  }

  function TextOf(v: Value): string
    requires v.VStr? || v.VBytes?
  {
    if v.VStr? then v.s else v.data
  }

  function ResourceKey(primitive: string, path: string): string {
    primitive + ":" + path
  }

  ghost function Ask(f: Frame, s: S, resource: string, scope: map<string, string>): (Option<string>, S) {
    (f.m.fetch(s.sys.asks, resource, scope),
     s.(sys := s.sys.(asks := s.sys.asks + 1).Log(Event(f.phase, Asked(resource)))))
  }

  /** `~file.render`: a declared template, with the caller's scope. */
  ghost function Render(f: Frame, s: S, a: Value): R<Value> {
    if !a.VPath? then R(Fail(Fault), s)
    else
      var (got, s1) := Ask(f, s, ResourceKey("file.render", a.path), ShellEnv(s.vars));
      if got.None? then R(Fail(Fault), s1) else R(Val(VStr(got.value)), s1)
  }

  /** `~file.write`: the count of files written, "1" or "0". */
  ghost function WriteFile(f: Frame, s: S, path: string, content: string): R<Value>
    requires f.exec.Some?
  {
    var (r, sys1) := RunFilePut(f.m, f.exec.value, f.mode, f.phase, s.sys, path, content);
    var s1 := s.(sys := sys1, acted := s.acted || r.changed);
    if r.category == ERR then R(Fail(Fault), s1)
    else R(Val(VStr(if r.changed then "1" else "0")), s1)
  }

  /** `~file.read` and `~dir.list`: a marked path is the control host's, any other is the
      target's. */
  ghost function ReadPath(f: Frame, s: S, name: string, a: Value): R<Value>
    requires f.exec.Some?
  {
    if a.VPath? then
      var (got, s1) := Ask(f, s, ResourceKey(name, a.path), map[]);
      if got.None? then R(Fail(Fault), s1) else R(Val(VBytes(got.value)), s1)
    else if a.VStr? then
      var got := f.m.read(s.sys.w, f.exec.value, name, a.s);
      var s1 := s.(sys := s.sys.Log(Event(f.phase, ReadTarget(a.s))));
      if got.None? then R(Fail(Fault), s1) else R(Val(VBytes(got.value)), s1)
    else R(Fail(Fault), s)
  }

  /** `~dir.sync`: a preview in Check, a transfer otherwise. */
  ghost function SyncTree(f: Frame, s: S, src: string, dst: string, del: string, compare: string): R<Value>
    requires f.exec.Some?
  {
    var resource := ResourceKey("dir.sync", src);
    if compare != "" && compare != "meta" && compare != "sha256" then R(Fail(Fault), s)
    else if f.mode == Check then
      var got := f.m.preview(s.sys.w, f.exec.value, resource, dst, compare);
      var s1 := s.(sys := s.sys.Log(Event(f.phase, Previewed(resource))));
      if got.None? then R(Fail(Fault), s1)
      else
        var (n, extras) := got.value;
        var drift := n > 0 || (del == "true" && extras != []);
        R(Val(VStr(SyncSummary(n, extras, del == "true"))), s1.(acted := s.acted || drift))
    else
      var (got, w) := f.m.transfer(s.sys.w, f.exec.value, resource, dst, compare, del == "true");
      var s1 := s.(sys := s.sys.(w := w).Log(Event(f.phase, Transferred(resource))));
      if got.None? then R(Fail(Fault), s1)
      else
        var n := got.value.0 + got.value.1;
        R(Val(VStr(Itoa(n))), s1.(acted := s.acted || n > 0))
  }

  function SyncSummary(n: nat, extras: seq<string>, del: bool): string {
    Itoa(n) + " file(s) would be transferred" +
    if extras == [] then ""
    else if !del then "; " + Itoa(|extras|) + " extra file(s) on the target would be left alone"
    else "; " + Itoa(|extras|) + " file(s) would be REMOVED from the target:" + Bullets(extras)
  }

  function Bullets(extras: seq<string>): string {
    if extras == [] then "" else "\n  - " + extras[0] + Bullets(extras[1..])
  }

  // --- calls ---

  datatype Args = Args(values: map<string, string>, control: seq<string>)

  predicate TypeHolds(p: Param, v: Value) {
    p.isBool ==> v.VBool? || v == VStr("true") || v == VStr("false")
  }

  /** Positional arguments, evaluated in the caller's scope; a control-host path stays one. */
  ghost function EvalArgs(f: Frame, s: S, args: seq<Expr>, params: seq<Param>, acc: Args): R<Args>
    requires |args| <= |params|
    decreases Room(f), 1, args, 0
  {
    if args == [] then R(Val(acc), s)
    else
      var (v, s1) :- EvalExpr(f, s, args[0]);
      if v.VBytes? || !TypeHolds(params[0], v) then R(Fail(Fault), s1)
      else
        var name := params[0].name;
        EvalArgs(f, s1, args[1..], params[1..],
                 Args(acc.values[name := Stringify(v)],
                      if v.VPath? then acc.control + [name] else acc.control))
  }

  /** `evalCall`: the callee sees its own parameters only, runs in the caller's mode, and an
      `err` verdict stops the caller as it is. */
  ghost function EvalCall(f: Frame, s: S, name: string, args: seq<Expr>): R<Value>
    decreases Room(f), 1, args, 1
  {
    if name in f.stack then R(Fail(Cycle), s)
    else if name !in f.defs then R(Fail(Fault), s)
    else
      var def := f.defs[name];
      if !(RequiredCount(def.params) <= |args| <= |def.params|) then R(Fail(Fault), s)
      else
        var (a, s1) :- EvalArgs(f, s, args, def.params, Args(map[], []));
        Enter(f, s1, name, a)
  }

  /** The callee runs on the same target; its change and its error reach the caller. */
  ghost function Enter(f: Frame, s: S, name: string, a: Args): R<Value>
    requires name in f.defs && name !in f.stack
    decreases Room(f), 0
  {
    RoomShrinks(f, name);
    var (fin, sys) := EvalDef(f.(stack := f.stack + [name]), s.sys, f.defs[name], a, map[]);
    match fin
    case Broken(why) => R(Fail(why), s.(sys := sys))
    case Done(res) =>
      var s1 := s.(sys := sys, acted := s.acted || res.changed);
      if res.category == ERR then R(Callee(res), s1) else R(Val(VResult(res)), s1.(last := VResult(res)))
  }

  // --- statements and phases ---

  /** The outcome is Some when the statement short-circuits the def. */
  ghost function EvalStmt(f: Frame, s: S, st: Stmt): R<Option<Outcome>>
    decreases Room(f), 2, st, 0
  {
    match st
    case Let(name, e) =>
      var (v, s1) :- EvalExpr(f, s, e);
      R(Val(None), s1.(vars := s1.vars[name := v]))
    case Effect(e) =>
      var (_, s1) :- EvalExpr(f, s, e);
      R(Val(None), s1)
    case Return(o) => R(Val(Some(o)), s)
    case If(c, body) =>
      var (v, s1) :- EvalExpr(f, s, c);
      if Truthy(v) then EvalStmts(f, s1, body) else R(Val(None), s1)
    case StateReturn(_) => R(Val(None), s)
  }

  ghost function EvalStmts(f: Frame, s: S, stmts: seq<Stmt>): R<Option<Outcome>>
    decreases Room(f), 2, stmts, 0
  {
    if stmts == [] then R(Val(None), s)
    else
      var (o, s1) :- EvalStmt(f, s, stmts[0]);
      if o.Some? then R(Val(o), s1) else EvalStmts(f, s1, stmts[1..])
  }

  function In(f: Frame, phase: PhaseName): Frame {
    f.(phase := phase)
  }

  ghost function EvalFields(f: Frame, s: S, fields: seq<StateField>, acc: map<string, string>): R<map<string, string>>
    decreases Room(f), 2, fields, 0
  {
    if fields == [] then R(Val(acc), s)
    else
      var (v, s1) :- EvalExpr(f, s, fields[0].value);
      EvalFields(f, s1, fields[1..], acc[fields[0].name := TrimRight(Stringify(v))])
  }

  /** `evalObserve`: the record of the `state(…)` reached, None when none is. */
  ghost function EvalObserve(f: Frame, s: S, stmts: seq<Stmt>): R<Option<map<string, string>>>
    decreases Room(f), 2, stmts, 0
  {
    if stmts == [] then R(Val(None), s)
    else match stmts[0]
      case Let(name, e) =>
        var (v, s1) :- EvalExpr(f, s, e);
        EvalObserve(f, s1.(vars := s1.vars[name := v]), stmts[1..])
      case Effect(e) =>
        var (_, s1) :- EvalExpr(f, s, e);
        EvalObserve(f, s1, stmts[1..])
      case If(c, body) =>
        var (v, s1) :- EvalExpr(f, s, c);
        if Truthy(v) then
          var (m, s2) :- EvalObserve(f, s1, body);
          if m.Some? then R(Val(m), s2) else EvalObserve(f, s2, stmts[1..])
        else EvalObserve(f, s1, stmts[1..])
      case StateReturn(fields) =>
        var (m, s1) :- EvalFields(f, s, fields, map[]);
        R(Val(Some(m)), s1)
      case Return(_) => EvalObserve(f, s, stmts[1..])
  }

  /** What a preview statement adds to the text: the last shell's or primitive's output. */
  function Shown(last: Value): seq<string> {
    var t := match last
      case VShell(r) => TrimRight(r.stdout)
      case VStr(x) => TrimRight(x)
      case _ => "";
    if t == "" then [] else [t]
  }

  ghost function EvalPreview(f: Frame, s: S, stmts: seq<Stmt>): R<seq<string>>
    decreases Room(f), 2, stmts, 0
  {
    if stmts == [] then R(Val([]), s)
    else
      var (_, s1) :- EvalStmt(f, s, stmts[0]);
      var (rest, s2) :- EvalPreview(f, s1, stmts[1..]);
      R(Val(Shown(s1.last) + rest), s2)
  }

  // --- observed against desired ---

  function Observed(m: Option<map<string, string>>): map<string, string> {
    if m.Some? then m.value else map[]
  }

  predicate TruthyStr(s: string) {
    s != "" && s != "false" && s != "0"
  }

  /** One field of `converged`: no parameter means the condition must hold, an empty one
      means don't care, any other must match. */
  predicate FieldConverged(field: string, got: string, desired: map<string, string>) {
    if field !in desired then TruthyStr(got)
    else desired[field] == "" || got == desired[field]
  }

  predicate Converged(observed: map<string, string>, desired: map<string, string>) {
    forall field :: field in observed ==> FieldConverged(field, observed[field], desired)
  }

  function DiffOf(field: string, got: string, desired: map<string, string>): FieldDiff {
    if field !in desired then FieldDiff(field, got, "true", TruthyStr(got))
    else if desired[field] == "" then FieldDiff(field, got, got, true)
    else FieldDiff(field, got, desired[field], got == desired[field])
  }

  function Diffs(names: seq<string>, observed: map<string, string>, desired: map<string, string>): seq<FieldDiff>
    requires forall n :: n in names ==> n in observed
  {
    if names == [] then [] else [DiffOf(names[0], observed[names[0]], desired)] + Diffs(names[1..], observed, desired)
  }

  ghost function DiffFields(observed: map<string, string>, desired: map<string, string>): seq<FieldDiff> {
    assert forall n :: n in SortedSeq(observed.Keys) ==> n in Elems(SortedSeq(observed.Keys));
    Diffs(SortedSeq(observed.Keys), observed, desired)
  }

  function Missed(fields: seq<FieldDiff>): seq<FieldDiff> {
    if fields == [] then []
    else (if fields[0].converged then [] else [fields[0]]) + Missed(fields[1..])
  }

  // --- a def ---

  function MarkControl(vars: Vars, control: seq<string>): Vars {
    map k | k in vars :: if k in control && vars[k].VStr? then VPath(vars[k].s) else vars[k]
  }

  function Bound(args: map<string, string>): Vars {
    map k | k in args :: VStr(args[k])
  }

  ghost function EvalDefaults(f: Frame, s: S, params: seq<Param>): R<()>
    decreases Room(f), 2, params, 0
  {
    if params == [] then R(Val(()), s)
    else if params[0].name in s.vars || params[0].default.None? then EvalDefaults(f, s, params[1..])
    else
      var (v, s1) :- EvalExpr(f, s, params[0].default.value);
      EvalDefaults(f, s1.(vars := s1.vars[params[0].name := v]), params[1..])
  }

  /** Arguments, the marks on them, defaults for what the caller omitted, then `with`. */
  ghost function EvalPrologue(f: Frame, sys: Sys, def: Def, a: Args, with: map<string, string>): R<()>
    decreases Room(f), 3
  {
    var s0 := S(MarkControl(Bound(a.values), a.control), VNone, false, sys);
    var (_, s1) :- EvalDefaults(f, s0, def.params);
    R(Val(()), s1.(vars := s1.vars + Bound(with)))
  }

  function Desired(vars: Vars, params: seq<Param>): map<string, string> {
    var names := set p | p in params :: p.name;
    map n | n in names && n in vars :: Stringify(vars[n])
  }

  /** `toResult`: the payload is evaluated here, after the phase that returned. */
  ghost function ToResult(f: Frame, s: S, o: Outcome): R<Result>
    decreases Room(f), 2, o, 0
  {
    if o.payload.None? then R(Val(Verdict(o.category, o.tag)), s)
    else
      var (v, s1) :- EvalExpr(f, s, o.payload.value);
      R(Val(Verdict(o.category, o.tag).(shell := if v.VShell? then Some(v.res) else None)), s1)
  }

  /** One phase and the result of the outcome it reached, if it reached one. */
  ghost function RunPhase(f: Frame, s: S, p: Phase): R<Option<Result>>
    decreases Room(f), 3, p, 0
  {
    var g := In(f, p.name);
    var (o, s1) :- EvalStmts(g, s, p.stmts);
    if o.None? then R(Val(None), s1)
    else
      var (r, s2) :- ToResult(g, s1, o.value);
      R(Val(Some(r)), s2)
  }

  /** The phases of that name in order; the first outcome is the answer. */
  ghost function EvalNamed(f: Frame, s: S, name: PhaseName, phases: seq<Phase>): R<Option<Result>>
    decreases Room(f), 3, phases
  {
    if phases == [] then R(Val(None), s)
    else if phases[0].name != name then EvalNamed(f, s, name, phases[1..])
    else
      var (o, s1) :- RunPhase(f, s, phases[0]);
      if o.Some? then R(Val(o), s1) else EvalNamed(f, s1, name, phases[1..])
  }

  /** A def that delegates runs every phase written beside it, which can only be `check`. */
  ghost function EvalBeside(f: Frame, s: S, phases: seq<Phase>): R<Option<Result>>
    decreases Room(f), 3, phases
  {
    if phases == [] then R(Val(None), s)
    else
      var (o, s1) :- RunPhase(f, s, phases[0]);
      if o.Some? then R(Val(o), s1) else EvalBeside(f, s1, phases[1..])
  }

  /** A failing question is not knowable yet in check mode. */
  function Softened(def: Def, mode: Mode, r: Result): Result {
    if mode == Check && r.category == ERR && IsQuestion(def) then Verdict(WOULD, "") else r
  }

  function SkipIf(converged: bool): Option<Result> {
    if converged then Some(Verdict(OK, "already")) else None
  }

  /** Pass 1, one phase: `check` decides, `observe` skips when the state is the desired one. */
  ghost function DecidePhase(f: Frame, s: S, def: Def, desired: map<string, string>, p: Phase): R<Option<Result>>
    decreases Room(f), 3, p, 1
  {
    match p.name
    case CheckPhase =>
      var (o, s1) :- RunPhase(f, s, p);
      R(Val(if o.None? then None else Some(Softened(def, f.mode, o.value))), s1)
    case ObservePhase =>
      var (m, s1) :- EvalObserve(In(f, ObservePhase), s, p.stmts);
      R(Val(SkipIf(Converged(Observed(m), desired))), s1)
    case _ => R(Val(None), s)
  }

  ghost function EvalDecide(f: Frame, s: S, def: Def, desired: map<string, string>,
      phases: seq<Phase>): R<Option<Result>>
    decreases Room(f), 3, phases
  {
    if phases == [] then R(Val(None), s)
    else
      var (o, s1) :- DecidePhase(f, s, def, desired, phases[0]);
      if o.Some? then R(Val(o), s1) else EvalDecide(f, s1, def, desired, phases[1..])
  }

  function StatusOf(fields: seq<FieldDiff>): Result {
    Verdict(if Missed(fields) == [] then OK else WOULD, "").(fields := fields)
  }

  ghost function EvalStatus(f: Frame, s: S, desired: map<string, string>, phases: seq<Phase>): R<Result>
    decreases Room(f), 3, phases
  {
    if phases == [] then R(Val(Verdict(OK, "action")), s)
    else if phases[0].name == ObservePhase then
      var (m, s1) :- EvalObserve(In(f, ObservePhase), s, phases[0].stmts);
      R(Val(StatusOf(DiffFields(Observed(m), desired))), s1)
    else EvalStatus(f, s, desired, phases[1..])
  }

  ghost function EvalPreviews(f: Frame, s: S, phases: seq<Phase>, acc: string): R<string>
    decreases Room(f), 3, phases
  {
    if phases == [] then R(Val(acc), s)
    else if phases[0].name == PreviewPhase then
      var (lines, s1) :- EvalPreview(In(f, PreviewPhase), s, phases[0].stmts);
      EvalPreviews(f, s1, phases[1..], Join(lines, "\n"))
    else EvalPreviews(f, s, phases[1..], acc)
  }

  ghost function Announced(f: Frame, s: S, def: Def, tag: string): R<Result>
    decreases Room(f), 4, 0
  {
    var (text, s1) :- EvalPreviews(f, s, def.phases, "");
    R(Val(Verdict(WOULD, tag).(changed := true, preview := text)), s1)
  }

  function ReachedTag(o: Option<Outcome>, def: Def): string {
    if o.Some? && o.value.category == OK && o.value.tag != "" then o.value.tag else RetTag(def.phases)
  }

  /** Check mode after pass 1: an apply that cannot act is evaluated and its primitives
      decide; any other is announced. */
  ghost function EvalAnnounce(f: Frame, s: S, def: Def): R<Result>
    decreases Room(f), 4, 1
  {
    var ap := InertApply(def);
    if ap.None? then Announced(f, s, def, RetTag(def.phases))
    else
      var (o, s1) :- EvalStmts(In(f, ApplyPhase), s.(acted := false), ap.value);
      if !s1.acted then R(Val(Verdict(OK, "already")), s1) else Announced(f, s1, def, ReachedTag(o, def))
  }

  /** Pass 2: the `apply` phases in order, up to the one that returns; none is a bare ok. */
  ghost function EvalApplies(f: Frame, s: S, phases: seq<Phase>): R<Result>
    decreases Room(f), 4, 0
  {
    var (o, s1) :- EvalNamed(f, s, ApplyPhase, phases);
    R(Val(if o.Some? then o.value else Verdict(OK, "")), s1)
  }

  /** `changedIfActed` then `confirm`: a success that acted must be seen in the state. */
  ghost function EvalConfirm(f: Frame, s: S, def: Def, desired: map<string, string>, r: Result): R<Result>
    decreases Room(f), 3, def.phases
  {
    if r.category != OK || !s.acted then R(Val(r), s)
    else
      var changed := r.(changed := true);
      var obs := LastPhase(def.phases, ObservePhase);
      if obs.None? then R(Val(changed), s)
      else
        var (m, s1) :- EvalObserve(In(f, ObservePhase), s, obs.value);
      R(Val(Confirmed(changed, Observed(m), desired)), s1)
  }

  ghost function Confirmed(r: Result, observed: map<string, string>, desired: map<string, string>): Result {
    if Converged(observed, desired) then r
    else Verdict(ERR, "unconfirmed").(fields := Missed(DiffFields(observed, desired)))
  }

  /** The body of `EvalDefFull` once the arguments are bound. */
  ghost function EvalBody(f: Frame, s: S, def: Def): R<Result>
    decreases Room(f), 5
  {
    var desired := Desired(s.vars, def.params);
    if def.delegate.Some? then
      var (o, s1) :- EvalBeside(f, s, def.phases);
      if o.Some? then R(Val(o.value), s1)
      else
        var (v, s2) :- EvalCall(f, s1, def.delegate.value.name, def.delegate.value.args);
        if v.VResult? then R(Val(v.verdict), s2) else R(Fail(Fault), s2)
    else if f.mode == Status then
      var (o, s1) :- EvalNamed(f, s, CheckPhase, def.phases);
      if o.Some? then R(Val(o.value), s1) else EvalStatus(f, s1, desired, def.phases)
    else
      var (o, s1) :- EvalDecide(f, s, def, desired, def.phases);
      if o.Some? then R(Val(o.value), s1)
      else if f.mode == Check then EvalAnnounce(f, s1, def)
      else
        var (r, s2) :- EvalApplies(f, s1.(acted := false), def.phases);
        EvalConfirm(f, s2, def, desired, r)
  }

  /** How an evaluation ends: a callee's error is its verdict. */
  function Settled(out: Out<Result>): Finished {
    match out
    case Val(res) => Done(res)
    case Callee(res) => Done(res)
    case Fail(why) => Broken(why)
  }

  ghost function Settle(r: R<Result>): Finished {
    Settled(r.out)
  }

  /** A def's own `as` and `using` win over its caller's. */
  function Inside(f: Frame, def: Def): Frame {
    f.(exec := if f.exec.None? then None else Some(f.exec.value.As(def.become).Using(def.interp)), phase := Prologue)
  }

  /** `EvalDefFull`: the def named by the top of the stack. */
  ghost function EvalDef(f: Frame, sys: Sys, def: Def, a: Args, with: map<string, string>): (Finished, Sys)
    decreases Room(f), 6
  {
    var g := Inside(f, def);
    var p := EvalPrologue(g, sys, def, a, with);
    if !p.out.Val? then (Settle(p.PropagateFailure<Result>()), p.s.sys)
    else
      var r := EvalBody(g, p.s, def);
      (Settle(r), r.s.sys)
  }
}
