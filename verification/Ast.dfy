/** The tree a def parses to, and the values and results evaluation yields. */
module Ast {
  import opened Basics

  /** Apply acts, Check only decides, Status only reports. */
  datatype Mode = Apply | Check | Status

  /** The four phases a def may declare. Prologue is what runs before any of them: parameter
      defaults and a delegation's arguments. */
  datatype PhaseName = Prologue | CheckPhase | ObservePhase | PreviewPhase | ApplyPhase

  datatype Def = Def(
    params: seq<Param>,
    become: string,
    interp: string,
    phases: seq<Phase>,
    delegate: Option<Delegation>)

  datatype Param = Param(name: string, isBool: bool, default: Option<Expr>)
  datatype Phase = Phase(name: PhaseName, stmts: seq<Stmt>)
  datatype Delegation = Delegation(name: string, args: seq<Expr>)

  datatype Stmt =
    | Let(name: string, value: Expr)
    | Effect(expr: Expr)
    | If(cond: Expr, body: seq<Stmt>)
    | Return(outcome: Outcome)
    | StateReturn(fields: seq<StateField>)

  datatype StateField = StateField(name: string, value: Expr)
  datatype Outcome = Outcome(category: Category, tag: string, payload: Option<Expr>)

  /** An integer literal carries the number it parses to, None when it overflows. */
  datatype Expr =
    | StrLit(text: string)
    | ControlPath(text: string)
    | BoolLit(b: bool)
    | IntLit(parsed: Option<int>)
    | Ident(name: string)
    | Field(recv: Expr, name: string)
    | Compare(equal: bool, l: Expr, r: Expr)
    | Not(x: Expr)
    | Call(name: string, args: seq<Expr>)
    | Primitive(name: string, args: seq<Expr>)
    | Shell(cmd: string, interp: string)

  datatype Category = OK | ERR | WOULD

  datatype ShellResult = ShellResult(exit: int, stdout: string, stderr: string)

  datatype FieldDiff = FieldDiff(name: string, current: string, desired: string, converged: bool)

  /** An instruction's outcome. `fields` carries the observed-versus-desired report, and for
      `err.unconfirmed` the fields that did not move. */
  datatype Result = Result(
    category: Category,
    tag: string,
    changed: bool,
    shell: Option<ShellResult>,
    fields: seq<FieldDiff>,
    preview: string)

  function Verdict(c: Category, tag: string): Result {
    Result(c, tag, false, None, [], "")
  }

  /** The verdict that stops a caller. */
  type Refusal = r: Result | r.category == ERR witness Verdict(ERR, "")

  datatype Value =
    | VNone
    | VStr(s: string)
    | VInt(n: int)
    | VBool(b: bool)
    | VBytes(data: string)
    | VPath(path: string)
    | VShell(res: ShellResult)
    | VResult(verdict: Result)

  type Vars = map<string, Value>

  function Stringify(v: Value): string {
    match v
    case VStr(s) => s
    case VBool(b) => if b then "true" else "false"
    case VInt(n) => Itoa(n)
    case VPath(p) => p
    case VShell(r) => TrimRight(r.stdout)
    case _ => ""
  }

  predicate Truthy(v: Value) {
    match v
    case VBool(b) => b
    case VShell(r) => r.exit == 0
    case VResult(r) => r.category == OK
    case _ => false
  }

  predicate Comparable(v: Value) {
    v.VStr? || v.VInt? || v.VBool?
  }

  predicate LastOk(last: Value) {
    last.VShell? && last.res.exit == 0
  }

  /** Bytes from the control host never become a shell variable. */
  predicate HoldsBytes(vars: Vars) {
    exists k :: k in vars && vars[k].VBytes?
  }

  /** What an interpolation may read: every variable but the bytes. */
  function Scalars(vars: Vars): map<string, string> {
    map k | k in vars && !vars[k].VBytes? :: Stringify(vars[k])
  }

  /** `shellEnv` and `renderScope`: the strings, booleans and numbers in scope. */
  function ShellEnv(vars: Vars): map<string, string> {
    map k | k in vars && Comparable(vars[k]) :: Stringify(vars[k])
  }

  // --- shapes of a def ---

  function RequiredCount(params: seq<Param>): nat {
    if params == [] then 0
    else (if params[0].default.None? then 1 else 0) + RequiredCount(params[1..])
  }

  /** `nominalReturn`: the tag of the `return` an apply ends with. */
  function RetTag(phases: seq<Phase>): string {
    if phases == [] then ""
    else
      var st := phases[0].stmts;
      if phases[0].name == ApplyPhase && st != [] && st[|st| - 1].Return? then st[|st| - 1].outcome.tag
      else RetTag(phases[1..])
  }

  predicate HasPhase(phases: seq<Phase>, name: PhaseName) {
    exists p :: p in phases && p.name == name
  }

  /** `isQuestion`: the whole body is a `check`. */
  predicate IsQuestion(def: Def) {
    def.phases != [] && def.delegate.None? && forall p :: p in def.phases ==> p.name == CheckPhase
  }

  /** The last phase of that name, which is the one `inertApply` and `confirm` keep. */
  function LastPhase(phases: seq<Phase>, name: PhaseName): Option<seq<Stmt>> {
    if phases == [] then None
    else if phases[|phases| - 1].name == name then Some(phases[|phases| - 1].stmts)
    else LastPhase(phases[..|phases| - 1], name)
  }

  /** `inertExpr`: nothing check mode could make act. */
  predicate InertExpr(e: Expr) {
    match e
    case Shell(_, _) => false
    case Call(_, _) => false
    case Primitive(_, args) => forall a :: a in args ==> InertExpr(a)
    case Compare(_, l, r) => InertExpr(l) && InertExpr(r)
    case Not(x) => InertExpr(x)
    case Field(recv, _) => InertExpr(recv)
    case _ => true
  }

  predicate InertStmt(s: Stmt) {
    match s
    case Let(_, v) => InertExpr(v)
    case Effect(e) => InertExpr(e)
    case If(c, body) => InertExpr(c) && forall b :: b in body ==> InertStmt(b)
    case Return(o) => o.payload.Some? ==> InertExpr(o.payload.value)
    case StateReturn(fields) => forall f :: f in fields ==> InertExpr(f.value)
  }

  predicate InertStmts(stmts: seq<Stmt>) {
    forall s :: s in stmts ==> InertStmt(s)
  }

  /** `inertApply`: the apply that check mode may evaluate. */
  function InertApply(def: Def): Option<seq<Stmt>> {
    if HasPhase(def.phases, ObservePhase) then None
    else
      var ap := LastPhase(def.phases, ApplyPhase);
      if ap.Some? && InertStmts(ap.value) then ap else None
  }

  /** What the def parser guarantees of a delegation: only `check` beside it. */
  predicate WellFormed(def: Def) {
    def.delegate.Some? ==> forall p :: p in def.phases ==> p.name == CheckPhase
  }
}
