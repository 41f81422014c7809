/** Call cycles, found before anything runs: which defs a def calls, the depth-first walk
    with its memo set, and what acceptance buys the evaluator. */
module Cycles {
  import opened Basics
  import opened Ast
  import opened Eval
  import opened Preserve

  // --- callees ---

  /** The calls of an expression, in the order they appear; a primitive is not a call. */
  function ExprCalls(e: Expr): seq<string>
    decreases e, 0
  {
    match e
    case Call(n, args) => [n] + ArgsCalls(args)
    case Primitive(_, args) => ArgsCalls(args)
    case Compare(_, l, r) => ExprCalls(l) + ExprCalls(r)
    case Not(x) => ExprCalls(x)
    case Field(x, _) => ExprCalls(x)
    case _ => []
  }

  function ArgsCalls(args: seq<Expr>): seq<string>
    decreases args, 0
  {
    if args == [] then [] else ExprCalls(args[0]) + ArgsCalls(args[1..])
  }

  /** `callsInStmts`: a return's payload is not walked. */
  function StmtCalls(st: Stmt): seq<string> {
    match st
    case If(c, body) => ExprCalls(c) + StmtsCalls(body)
    case Let(_, e) => ExprCalls(e)
    case Effect(e) => ExprCalls(e)
    case StateReturn(fields) => FieldsCalls(fields)
    case Return(_) => []
  }

  function StmtsCalls(stmts: seq<Stmt>): seq<string> {
    if stmts == [] then [] else StmtCalls(stmts[0]) + StmtsCalls(stmts[1..])
  }

  function FieldsCalls(fields: seq<StateField>): seq<string> {
    if fields == [] then [] else ExprCalls(fields[0].value) + FieldsCalls(fields[1..])
  }

  function PhasesCalls(phases: seq<Phase>): seq<string> {
    if phases == [] then [] else StmtsCalls(phases[0].stmts) + PhasesCalls(phases[1..])
  }

  /** The closure `add`: a name not seen yet goes at the end. */
  function AddAll(out: seq<string>, names: seq<string>): seq<string>
    decreases |names|
  {
    if names == [] then out
    else AddAll(if names[0] in out then out else out + [names[0]], names[1..])
  }

  function Callees(def: Def): seq<string> {
    AddAll([], PhasesCalls(def.phases) + if def.delegate.Some? then [def.delegate.value.name] else [])
  }

  lemma {:induction false} AddAllKeeps(out: seq<string>, names: seq<string>)
    requires Distinct(out)
    ensures Distinct(AddAll(out, names))
    ensures forall n :: n in AddAll(out, names) <==> n in out || n in names
    decreases |names|
  {
    if names != [] {
      var next := if names[0] in out then out else out + [names[0]];
      if names[0] !in out { DistinctAppend(out, names[0]); }
      AddAllKeeps(next, names[1..]);
      assert forall n :: n in names <==> n == names[0] || n in names[1..];
    }
  }

  /** Each callee is listed once, and exactly the calls written outside return payloads,
      plus the delegation, are listed. */
  lemma CalleesAre(def: Def)
    ensures Distinct(Callees(def))
    ensures forall n :: n in Callees(def) <==>
              n in PhasesCalls(def.phases) || (def.delegate.Some? && n == def.delegate.value.name)
  {
    AddAllKeeps([], PhasesCalls(def.phases) + if def.delegate.Some? then [def.delegate.value.name] else []);
  }

  // --- walks ---

  type Table = map<string, Def>

  predicate Calls(defs: Table, a: string, b: string) {
    a in defs && b in Callees(defs[a])
  }

  /** A chain of calls, each def calling the next. */
  ghost predicate IsWalk(defs: Table, w: seq<string>) {
    forall i {:trigger w[i]} :: 0 <= i < |w| - 1 ==> Calls(defs, w[i], w[i + 1])
  }

  /** The last name of the chain is already in it. */
  ghost predicate Closes(w: seq<string>) {
    |w| >= 2 && w[|w| - 1] in w[..|w| - 1]
  }

  ghost predicate CycleFrom(defs: Table, roots: set<string>, w: seq<string>) {
    IsWalk(defs, w) && Closes(w) && w[0] in roots
  }

  /** An order in which every def comes after the defs it calls. */
  ghost predicate Ordered(defs: Table, order: seq<string>) {
    Distinct(order) && forall i {:trigger OrderedAt(defs, order, i)} :: 0 <= i < |order| ==> OrderedAt(defs, order, i)
  }

  ghost predicate OrderedAt(defs: Table, order: seq<string>, i: nat)
    requires i < |order|
  {
    order[i] in defs && forall c :: c in Callees(defs[order[i]]) && c in defs ==> c in order[..i]
  }

  /** `walk`, with the path it stands on and the defs proven free of cycles. */
  class Walker {
    const defs: Table
    var onPath: set<string>
    var done: set<string>
    ghost var order: seq<string>

    constructor (defs: Table)
      ensures this.defs == defs && onPath == {} && done == {} && order == []
    {
      this.defs := defs;
      onPath, done, order := {}, {}, [];
    }

    ghost predicate Valid()
      reads this
    {
      Ordered(defs, order) && done == Elems(order)
    }

    ghost predicate At(chain: seq<string>)
      reads this
    {
      && Valid() && Distinct(chain) && onPath == Elems(chain) && onPath <= defs.Keys && onPath !! done
    }

    method Walk(name: string, chain: seq<string>) returns (bad: Option<seq<string>>)
      requires At(chain) && IsWalk(defs, chain + [name])
      modifies this`onPath, this`done, this`order
      ensures bad.None? ==> At(chain) && old(order) <= order && (name in defs ==> name in done)
      ensures bad.Some? ==> IsWalk(defs, bad.value) && Closes(bad.value) && bad.value[0] == (chain + [name])[0]
      decreases |defs.Keys - onPath|, 0
    {
      if name in done { return None; }
      if name in onPath {
        assert name in chain;
        assert (chain + [name])[..|chain|] == chain;
        return Some(chain + [name]);
      }
      if name !in defs { return None; }
      var here := chain + [name];
      PathGrows(defs, chain, name);
      onPath := onPath + {name};
      bad := WalkCallees(name, here);
      if bad.Some? {
        assert here[0] == (chain + [name])[0];
        return;
      }
      onPath := onPath - {name};
      OrderExtends(defs, order, name);
      done := done + {name};
      order := order + [name];
    }

    /** The loop over the callees of the def the path ends with. */
    method WalkCallees(name: string, here: seq<string>) returns (bad: Option<seq<string>>)
      requires At(here) && IsWalk(defs, here) && here != [] && here[|here| - 1] == name && name in defs
      modifies this`onPath, this`done, this`order
      ensures bad.None? ==> At(here) && onPath == old(onPath) && old(order) <= order
      ensures bad.None? ==> forall c :: c in Callees(defs[name]) && c in defs ==> c in order
      ensures bad.Some? ==> IsWalk(defs, bad.value) && Closes(bad.value) && bad.value[0] == here[0]
      decreases |defs.Keys - onPath|, 1
    {
      var callees := Callees(defs[name]);
      var i := 0;
      while i < |callees|
        invariant 0 <= i <= |callees|
        invariant At(here) && onPath == old(onPath) && old(order) <= order
        invariant forall j :: 0 <= j < i && callees[j] in defs ==> callees[j] in order
      {
        WalkExtends(defs, here, callees[i]);
        bad := Walk(callees[i], here);
        if bad.Some? { return; }
        assert callees[i] in defs ==> callees[i] in Elems(order);
        i := i + 1;
      }
      return None;
    }
  }

  /** Stepping onto a def leaves one def less to step onto. */
  lemma PathGrows(defs: Table, chain: seq<string>, name: string)
    requires Distinct(chain) && name !in chain && name in defs
    ensures Distinct(chain + [name]) && Elems(chain + [name]) == Elems(chain) + {name}
    ensures |defs.Keys - (Elems(chain) + {name})| < |defs.Keys - Elems(chain)|
  {
    DistinctAppend(chain, name);
    ElemsAppend(chain, name);
    assert name in defs.Keys - Elems(chain);
    SubsetSize(defs.Keys - (Elems(chain) + {name}), (defs.Keys - Elems(chain)) - {name});
  }

  lemma WalkExtends(defs: Table, w: seq<string>, next: string)
    requires w != [] && IsWalk(defs, w) && Calls(defs, w[|w| - 1], next)
    ensures IsWalk(defs, w + [next])
  {
  }

  lemma OrderExtends(defs: Table, order: seq<string>, name: string)
    requires Ordered(defs, order) && name in defs && name !in order
    requires forall c :: c in Callees(defs[name]) && c in defs ==> c in order
    ensures Ordered(defs, order + [name]) && Elems(order + [name]) == Elems(order) + {name}
  {
    ElemsAppend(order, name);
    DistinctAppend(order, name);
    var longer := order + [name];
    forall i | 0 <= i < |longer| ensures OrderedAt(defs, longer, i) {
      if i < |order| {
        assert OrderedAt(defs, order, i);
        assert longer[..i] == order[..i];
      } else {
        assert longer[..i] == order;
      }
    }
  }

  /** `CheckCycles`: every root in name order, one memo set for all of them. The answer is
      exact: none means no chain of calls from a root ever repeats a def, and otherwise it is
      such a chain. */
  method CheckCycles(roots: set<string>, defs: Table) returns (bad: Option<seq<string>>, ghost order: seq<string>)
    ensures bad.Some? ==> CycleFrom(defs, roots, bad.value)
    ensures bad.None? ==> !exists w :: CycleFrom(defs, roots, w)
    ensures bad.None? ==> Ordered(defs, order) && forall r :: r in roots && r in defs ==> r in order
  {
    var names := SortStrings(roots);
    assert forall n :: n in names ==> n in Elems(names);
    var w := new Walker(defs);
    order := [];
    var i := 0;
    while i < |names|
      invariant 0 <= i <= |names| && w.Valid() && fresh(w) && w.defs == defs
      invariant forall j :: 0 <= j < i && names[j] in defs ==> names[j] in w.done
    {
      w.onPath := {};
      bad := w.Walk(names[i], []);
      if bad.Some? { return; }
      i := i + 1;
    }
    order := w.order;
    forall r | r in roots && r in defs ensures r in order {
      assert r in Elems(names);
    }
    forall p ensures !CycleFrom(defs, roots, p) { OrderedHasNoCycle(defs, roots, order, p); }
    return None, order;
  }

  /** Along a chain of calls the position in the order only goes down. */
  lemma {:induction false} WalkDescends(defs: Table, order: seq<string>, w: seq<string>, k: nat, i: nat)
    requires Ordered(defs, order) && IsWalk(defs, w) && |w| > 0
    requires k < |order| && w[0] == order[k]
    requires i < |w| && w[i] in defs
    ensures w[i] in order[..k + 1] && (i > 0 ==> w[i] in order[..k])
    decreases i
  {
    if i > 0 {
      assert Calls(defs, w[i - 1], w[i]);
      WalkDescends(defs, order, w, k, i - 1);
      var j :| 0 <= j < k + 1 && order[j] == w[i - 1];
      assert OrderedAt(defs, order, j);
      assert w[i] in order[..j];
      assert forall x :: x in order[..j] ==> x in order[..k];
    }
  }

  lemma WalkSuffix(defs: Table, w: seq<string>, i: nat)
    requires IsWalk(defs, w) && i <= |w|
    ensures IsWalk(defs, w[i..])
  {
    var tail := w[i..];
    forall m | 0 <= m < |tail| - 1 ensures Calls(defs, tail[m], tail[m + 1]) {
      assert tail[m] == w[i + m] && tail[m + 1] == w[i + m + 1];
    }
  }

  /** A walk from an ordered def does not come back to it. */
  lemma NoReturn(defs: Table, order: seq<string>, w: seq<string>, i: nat)
    requires Ordered(defs, order) && IsWalk(defs, w) && 0 < i < |w|
    requires w[0] in order && w[i] in defs
    ensures w[i] != w[0]
  {
    var k :| 0 <= k < |order| && order[k] == w[0];
    WalkDescends(defs, order, w, k, i);
    DistinctBefore(order, k);
  }

  lemma NoRepeat(defs: Table, order: seq<string>, w: seq<string>, i: nat)
    requires Ordered(defs, order) && IsWalk(defs, w) && i < |w| - 1 && w[0] in order
    ensures w[i] != w[|w| - 1]
  {
    var n := |w| - 1;
    assert Calls(defs, w[i], w[i + 1]);
    if w[n] in defs {
      var k :| 0 <= k < |order| && order[k] == w[0];
      WalkDescends(defs, order, w, k, i);
      WalkSuffix(defs, w, i);
      NoReturn(defs, order, w[i..], n - i);
    }
  }

  lemma OrderedHasNoCycle(defs: Table, roots: set<string>, order: seq<string>, w: seq<string>)
    requires Ordered(defs, order) && forall r :: r in roots && r in defs ==> r in order
    ensures !CycleFrom(defs, roots, w)
  {
    if IsWalk(defs, w) && |w| >= 2 && w[0] in roots {
      assert Calls(defs, w[0], w[1]);
      forall i | 0 <= i < |w| - 1 ensures w[i] != w[|w| - 1] { NoRepeat(defs, order, w, i); }
    }
  }

  // --- what acceptance buys the evaluator ---

  /** Every call a def can make is one the check walks: no call hides in a return's payload,
      a delegation's arguments or a parameter's default. */
  ghost predicate AllListed(def: Def) {
    forall e, n :: e in DefExprs(def) && n in ExprCalls(e) ==> n in Callees(def)
  }

  ghost function RankOf(order: seq<string>): map<string, nat>
    requires Distinct(order)
  {
    map n | n in order :: Position(order, n)
  }

  ghost function Position(order: seq<string>, n: string): (i: nat)
    requires n in order
    ensures i < |order| && order[i] == n
  {
    var i: nat :| i < |order| && order[i] == n;
    i
  }

  lemma {:induction false} AvoidsUncalled(e: Expr, names: set<string>)
    requires forall n :: n in ExprCalls(e) ==> n !in names
    ensures CallsAvoid(e, names)
    decreases e, 0
  {
    match e
    case Call(n, args) =>
      assert n in ExprCalls(e);
      ArgsAvoidUncalled(args, names);
    case Primitive(_, args) => ArgsAvoidUncalled(args, names);
    case Compare(_, l, r) =>
      AvoidsUncalled(l, names);
      AvoidsUncalled(r, names);
    case Not(x) => AvoidsUncalled(x, names);
    case Field(x, _) => AvoidsUncalled(x, names);
    case _ =>
  }

  lemma {:induction false} ArgsAvoidUncalled(args: seq<Expr>, names: set<string>)
    requires forall n :: n in ArgsCalls(args) ==> n !in names
    ensures forall a :: a in args ==> CallsAvoid(a, names)
    decreases args, 0
  {
    if args != [] {
      AvoidsUncalled(args[0], names);
      ArgsAvoidUncalled(args[1..], names);
    }
  }

  /** The def can call that name, anywhere in it: payloads, delegation arguments and defaults
      included. */
  ghost predicate CanCall(def: Def, n: string) {
    || (def.delegate.Some? && def.delegate.value.name == n)
    || exists e :: e in DefExprs(def) && n in ExprCalls(e)
  }

  /** An order of defs in which every call, wherever it is written, goes to an earlier one. */
  ghost predicate Layered(defs: Table, order: seq<string>) {
    Distinct(order) && forall i {:trigger LayeredAt(defs, order, i)} :: 0 <= i < |order| ==> LayeredAt(defs, order, i)
  }

  ghost predicate LayeredAt(defs: Table, order: seq<string>, i: nat)
    requires i < |order|
  {
    order[i] in defs && forall c :: CanCall(defs[order[i]], c) && c in defs ==> c in order[..i]
  }

  lemma CallsBelow(defs: Table, order: seq<string>, name: string)
    requires Layered(defs, order) && name in order
    ensures name in defs && forall c :: CanCall(defs[name], c) ==> c !in Above(defs, RankOf(order), name)
  {
    var rank := RankOf(order);
    var i := rank[name];
    assert LayeredAt(defs, order, i);
    forall c | CanCall(defs[name], c) && c in defs ensures c in rank && rank[c] < i {
      var j :| 0 <= j < i && order[j] == c;
      assert Apart(order, j, rank[c]) && Apart(order, rank[c], j);
    }
  }

  lemma LayeredDefOk(defs: Table, order: seq<string>, mode: Mode, name: string)
    requires Layered(defs, order) && name in order && name in defs && WellFormed(defs[name])
    ensures DefOk(Policy(false, mode, None, Some(RankOf(order))), defs, name, defs[name])
  {
    var def, above := defs[name], Above(defs, RankOf(order), name);
    CallsBelow(defs, order, name);
    forall e | e in DefExprs(def) ensures CallsAvoid(e, above) {
      forall n | n in ExprCalls(e) ensures n !in above { assert CanCall(def, n); }
      AvoidsUncalled(e, above);
    }
    assert def.delegate.Some? ==> CanCall(def, def.delegate.value.name);
  }

  /** When the defs a name can reach call each other without a cycle, wherever the calls are
      written, the evaluator's own guard never fires: for every argument, mode, target and
      control host. */
  lemma GuardNeverFires(defs: Table, order: seq<string>, f: Frame, sys: Sys, name: string, a: Args,
      with: map<string, string>)
    requires Layered(defs, order) && name in order && name in defs
    requires forall n :: n in order && n in defs ==> WellFormed(defs[n])
    requires f.defs == defs && f.stack == [name]
    ensures EvalDef(f, sys, defs[name], a, with).0 != Broken(Cycle)
  {
    var k := Policy(false, f.mode, None, Some(RankOf(order)));
    forall n | Known(f, n) && Ranked(k, n) ensures DefOk(k, f.defs, n, f.defs[n]) {
      LayeredDefOk(defs, order, f.mode, n);
    }
    assert forall n :: Entered(f, n) ==> n == name;
    LayeredDefOk(defs, order, f.mode, name);
    DefKept(k, f, sys, defs[name], name, a, with);
  }

  /** What the check accepts is such an order when it walks every call of the defs it reaches. */
  lemma AcceptedIsLayered(defs: Table, order: seq<string>)
    requires Ordered(defs, order) && forall n :: n in order && n in defs ==> AllListed(defs[n])
    ensures Layered(defs, order)
  {
    forall i | 0 <= i < |order| ensures LayeredAt(defs, order, i) {
      assert OrderedAt(defs, order, i);
      CalleesAre(defs[order[i]]);
    }
  }

  /** A def whose apply returns a call to itself as payload. */
  function SelfInPayload(): Def {
    Def([], "", "", [Phase(ApplyPhase, [Return(Outcome(OK, "x", Some(Call("a", []))))])], None)
  }

  lemma SelfIsAccepted()
    ensures Ordered(map["a" := SelfInPayload()], ["a"]) && !AllListed(SelfInPayload())
  {
    var def := SelfInPayload();
    assert PhasesCalls(def.phases) == [] by { assert StmtsCalls(def.phases[0].stmts) == []; }
    assert Callees(def) == [];
    assert OrderedAt(map["a" := def], ["a"], 0);
    var payload := Call("a", []);
    assert payload in StmtsExprs(def.phases[0].stmts);
    assert payload in DefExprs(def) && "a" in ExprCalls(payload);
  }

  lemma SelfDecides(g: Frame, s: S, desired: map<string, string>)
    ensures EvalDecide(g, s, SelfInPayload(), desired, SelfInPayload().phases) == R(Val(None), s)
  {
    var phases := SelfInPayload().phases;
    assert DecidePhase(g, s, SelfInPayload(), desired, phases[0]) == R(Val(None), s);
    assert EvalDecide(g, s, SelfInPayload(), desired, phases[1..]) == R(Val(None), s);
  }

  lemma SelfApplies(g: Frame, s: S)
    requires "a" in g.stack
    ensures EvalNamed(g, s, ApplyPhase, SelfInPayload().phases) == R(Fail(Cycle), s)
  {
    var p := SelfInPayload().phases[0];
    var h, o := In(g, ApplyPhase), p.stmts[0].outcome;
    assert EvalStmts(h, s, p.stmts) == R(Val(Some(o)), s);
    assert EvalCall(h, s, "a", []) == R(Fail(Cycle), s);
    assert EvalExpr(h, s, o.payload.value) == R(Fail(Cycle), s);
    assert ToResult(h, s, o) == R(Fail(Cycle), s);
    assert RunPhase(g, s, p) == R(Fail(Cycle), s);
  }

  /** The walk does not see a call in a return's payload: the check accepts the def and the
      evaluator's guard is what stops it, on the target, after the apply has run. */
  lemma PayloadCycleIsMissed(m: Machine, exec: Exec, sys: Sys)
    ensures var defs: Table := map["a" := SelfInPayload()];
            var f := Frame(m, defs, Apply, ["a"], Some(exec), true, Prologue);
            Ordered(defs, ["a"]) && !AllListed(SelfInPayload()) &&
            EvalDef(f, sys, SelfInPayload(), Args(map[], []), map[]).0 == Broken(Cycle)
  {
    SelfIsAccepted();
    var def := SelfInPayload();
    var f := Frame(m, map["a" := def], Apply, ["a"], Some(exec), true, Prologue);
    var g := Inside(f, def);
    var p := EvalPrologue(g, sys, def, Args(map[], []), map[]);
    assert p.out.Val? by {
      var s0 := S(MarkControl(Bound(map[]), []), VNone, false, sys);
      assert EvalDefaults(g, s0, def.params) == R(Val(()), s0);
    }
    SelfDecides(g, p.s, Desired(p.s.vars, def.params));
    SelfApplies(g, p.s.(acted := false));
    assert EvalApplies(g, p.s.(acted := false), def.phases).out == Fail(Cycle);
    assert EvalBody(g, p.s, def).out == Fail(Cycle);
  }
}
