/** A step whose `parallel` groups run as goroutines: tasks that advance one move at a time in
    any interleaving, at any depth, and what they report. */
module Interleave {
  import opened Basics
  import opened Ast
  import opened Eval
  import opened Plan
  import opened Runner

  /** One instruction on an executor: what a single move does to the target. */
  datatype Act = Act(exec: Exec, step: Step)

  ghost function Do(c: Agent, a: Act, sys: Sys): (Finished, Sys) {
    RunInstruction(c, a.exec, a.step, sys)
  }

  // --- tasks ---

  /** What a sequence's results become: an `if` shows its condition, and a dry run leaves the
      branch it explores open. */
  datatype Shape = Shape(shown: seq<StepResult>, open: bool)

  /** A goroutine: the scope it captures into and what it has left to do. */
  datatype Proc = Proc(scope: map<string, Result>, task: Task)

  /** A step to run or done, a sequence between two steps or inside one, a group. */
  datatype Task =
    | Todo(exec: Exec, step: Step)
    | Over(r: StepResult)
    | Line(exec: Exec, shape: Shape, steps: seq<Step>, pending: string, results: seq<StepResult>)
    | Inside(exec: Exec, shape: Shape, step: Step, rest: seq<Step>, results: seq<StepResult>, cur: Task)
    | Fork(procs: seq<Proc>)

  function Wrap(h: Shape, sub: seq<StepResult>, halted: bool): StepResult {
    Group(if h.open then SUndetermined else if halted then SErr else SOk, h.shown + sub)
  }

  function Joined(sub: seq<StepResult>): StepResult {
    Group(if exists r :: r in sub && r.cat.SErr? then SErr else SOk, sub)
  }

  predicate Stops(step: Step, r: StepResult) {
    r.cat.SErr? && !(step.caught && step.bind != "")
  }

  function Waits(step: Step, r: StepResult): string {
    if r.cat.SErr? then step.bind else ""
  }

  function Marked(step: Step, r: StepResult): StepResult {
    r.(caught := step.caught)
  }

  function Spawn(exec: Exec, branches: seq<Step>, scope: map<string, Result>): (r: seq<Proc>)
    ensures |r| == |branches|
  {
    if branches == [] then [] else [Proc(scope, Todo(exec, branches[0]))] + Spawn(exec, branches[1..], scope)
  }

  predicate AllOver(procs: seq<Proc>) {
    forall i :: 0 <= i < |procs| ==> procs[i].task.Over?
  }

  function Reports(procs: seq<Proc>): seq<StepResult>
    requires AllOver(procs)
  {
    if procs == [] then [] else [procs[0].task.r] + Reports(procs[1..])
  }

  // --- moves ---

  /** The instruction an `if` runs as its condition. */
  function CondAct(exec: Exec, ib: IfBlock): Option<Act> {
    if ib.on.Some? || ib.inline.None? then None else Some(Act(exec, ib.inline.value))
  }

  function StepAct(exec: Exec, step: Step): Option<Act> {
    if step.cond.Some? then CondAct(exec, step.cond.value)
    else if step.block != [] || step.parallel != [] then None
    else Some(Act(exec.As(step.become).Using(step.interp), step))
  }

  /** The instruction the next move runs, if it runs one; `pick` names the goroutine to move in
      each group on the way down. */
  function Next(t: Task, pick: seq<nat>): Option<Act>
    decreases t
  {
    match t
    case Todo(exec, step) => StepAct(exec, step)
    case Over(_) => None
    case Line(_, _, _, _, _) => None
    case Inside(_, _, _, _, _, cur) => Next(cur, pick)
    case Fork(procs) => if pick != [] && pick[0] < |procs| then Next(procs[pick[0]].task, pick[1..]) else None
  }

  /** An `if` once its condition has answered. */
  function Chosen(mode: Mode, exec: Exec, ib: IfBlock, res: Result, shown: seq<StepResult>): Task {
    if mode == Check && res.category == WOULD then Line(exec, Shape(shown, true), ib.thn, "", [])
    else if Uncovered(ib, res) then Over(StepResult(SErr, res.tag, false, res.shell, [], "", false, shown))
    else Line(exec, Shape(shown, false), if CondTruth(ib, res) then ib.thn else ib.els, "", [])
  }

  function StartIf(mode: Mode, exec: Exec, ib: IfBlock, scope: map<string, Result>, fin: Finished): Task {
    if ib.on.Some? then
      if ib.on.value.name !in scope then Over(Failed("undefinedResult"))
      else Chosen(mode, exec, ib, scope[ib.on.value.name], [])
    else if ib.inline.None? then Over(Failed("agent"))
    else match fin
      case Broken(_) => Over(Failed("agent"))
      case Done(res) => Chosen(mode, exec, ib, res, [CondLeaf(res)])
  }

  function Start(mode: Mode, exec: Exec, step: Step, scope: map<string, Result>,
      fin: Finished): (Task, map<string, Result>) {
    if step.cond.Some? then (StartIf(mode, exec, step.cond.value, scope, fin), scope)
    else if step.block != [] then (Line(exec.As(step.become), Shape([], false), step.block, "", []), scope)
    else if step.parallel != [] then (Fork(Spawn(exec, step.parallel, scope)), scope)
    else match fin
      case Broken(_) => (Over(Failed("agent")), scope)
      case Done(res) => (Over(Leaf(res)), if step.bind != "" then scope[step.bind := res] else scope)
  }

  /** A sequence takes up its next step, or ends. */
  function Onward(exec: Exec, h: Shape, steps: seq<Step>, pending: string, results: seq<StepResult>,
      scope: map<string, Result>): Task {
    if steps == [] then Over(Wrap(h, results, pending != ""))
    else if pending != "" && !Handles(steps[0], pending, scope) then Over(Wrap(h, results, true))
    else Inside(exec, h, steps[0], steps[1..], results, Todo(exec, steps[0]))
  }

  /** A sequence has the result of the step it was in. */
  function Returned(exec: Exec, h: Shape, step: Step, rest: seq<Step>, results: seq<StepResult>, r: StepResult): Task {
    if Stops(step, r) then Over(Wrap(h, results + [Marked(step, r)], true))
    else Line(exec, h, rest, Waits(step, r), results + [Marked(step, r)])
  }

  /** One move, given how the instruction it ran came out. */
  function Advance(mode: Mode, t: Task, scope: map<string, Result>, pick: seq<nat>,
      fin: Finished): (Task, map<string, Result>)
    decreases t
  {
    match t
    case Todo(exec, step) => Start(mode, exec, step, scope, fin)
    case Over(_) => (t, scope)
    case Line(exec, h, steps, pending, results) => (Onward(exec, h, steps, pending, results, scope), scope)
    case Inside(exec, h, step, rest, results, cur) =>
      if cur.Over? then (Returned(exec, h, step, rest, results, cur.r), scope)
      else
        var (cur1, scope1) := Advance(mode, cur, scope, pick, fin);
        (Inside(exec, h, step, rest, results, cur1), scope1)
    case Fork(procs) =>
      if AllOver(procs) then (Over(Joined(Reports(procs))), scope)
      else if pick != [] && pick[0] < |procs| then
        var p := procs[pick[0]];
        var (t1, scope1) := Advance(mode, p.task, p.scope, pick[1..], fin);
        (Fork(procs[pick[0] := Proc(scope1, t1)]), scope)
      else (t, scope)
  }

  ghost function Perform(c: Agent, a: Option<Act>, sys: Sys): (Finished, Sys) {
    match a
    case None => (Broken(Fault), sys)
    case Some(act) => Do(c, act, sys)
  }

  ghost function Move(c: Agent, t: Task, s: Rs, pick: seq<nat>): (Task, Rs) {
    var (fin, sys1) := Perform(c, Next(t, pick), s.sys);
    var (t1, scope1) := Advance(c.mode, t, s.scope, pick, fin);
    (t1, Rs(scope1, sys1))
  }

  /** A run under a scheduler: each pick is a move. */
  ghost function After(c: Agent, t: Task, s: Rs, picks: seq<seq<nat>>): (Task, Rs)
    decreases |picks|
  {
    if picks == [] then (t, s)
    else
      var (t1, s1) := Move(c, t, s, picks[0]);
      After(c, t1, s1, picks[1..])
  }

  // --- what a task comes to when each group runs in turn ---

  ghost function Finish(c: Agent, t: Task, s: Rs): (StepResult, Rs)
    decreases t, 0
  {
    match t
    case Todo(exec, step) => RunStep(c, exec, step, s)
    case Over(r) => (r, s)
    case Line(exec, h, steps, pending, results) => FinishLine(c, exec, h, steps, pending, results, s)
    case Inside(exec, h, step, rest, results, cur) =>
      var (r, s1) := Finish(c, cur, s);
      FinishRest(c, exec, h, step, rest, results, r, s1)
    case Fork(procs) =>
      var (sub, sys1) := FinishAll(c, procs, s.sys);
      (Joined(sub), s.(sys := sys1))
  }

  ghost function FinishLine(c: Agent, exec: Exec, h: Shape, steps: seq<Step>, pending: string, results: seq<StepResult>,
      s: Rs): (StepResult, Rs) {
    var (sub, halted, s1) := RunSteps(c, exec, steps, pending, s);
    (Wrap(h, results + sub, halted), s1)
  }

  /** A task that is over or between two steps. */
  ghost function FinishFlat(c: Agent, t: Task, s: Rs): (StepResult, Rs) {
    match t
    case Line(exec, h, steps, pending, results) => FinishLine(c, exec, h, steps, pending, results, s)
    case Over(r) => (r, s)
    case _ => (Failed(""), s)
  }

  ghost function FinishRest(c: Agent, exec: Exec, h: Shape, step: Step, rest: seq<Step>, results: seq<StepResult>,
      r: StepResult, s: Rs): (StepResult, Rs) {
    if Stops(step, r) then (Wrap(h, results + [Marked(step, r)], true), s)
    else FinishLine(c, exec, h, rest, Waits(step, r), results + [Marked(step, r)], s)
  }

  ghost function FinishAll(c: Agent, procs: seq<Proc>, sys: Sys): (seq<StepResult>, Sys)
    decreases procs, 1
  {
    if procs == [] then ([], sys)
    else
      var (r, s1) := FinishProc(c, procs[0], sys);
      var (rest, sys2) := FinishAll(c, procs[1..], s1.sys);
      ([r] + rest, sys2)
  }

  ghost function FinishProc(c: Agent, p: Proc, sys: Sys): (StepResult, Rs)
    decreases p, 1
  {
    Finish(c, p.task, Rs(p.scope, sys))
  }

  // --- the instructions a task may run ---

  function Just(a: Option<Act>): set<Act> {
    if a.Some? then {a.value} else {}
  }

  ghost function StepActs(exec: Exec, step: Step): set<Act>
    decreases step, 1
  {
    Just(StepAct(exec, step))
    + (if step.cond.Some? then LineActs(exec, step.cond.value.thn) + LineActs(exec, step.cond.value.els)
       else if step.block != [] then LineActs(exec.As(step.become), step.block)
       else LineActs(exec, step.parallel))
  }

  ghost function LineActs(exec: Exec, steps: seq<Step>): set<Act>
    decreases steps, 0
  {
    if steps == [] then {} else StepActs(exec, steps[0]) + LineActs(exec, steps[1..])
  }

  ghost function TaskActs(t: Task): set<Act>
    decreases t, 0
  {
    match t
    case Todo(exec, step) => StepActs(exec, step)
    case Over(_) => {}
    case Line(exec, _, steps, _, _) => LineActs(exec, steps)
    case Inside(exec, _, _, rest, _, cur) => TaskActs(cur) + LineActs(exec, rest)
    case Fork(procs) => ProcsActs(procs)
  }

  ghost function ProcsActs(procs: seq<Proc>): set<Act>
    decreases procs, 1
  {
    if procs == [] then {} else ProcActs(procs[0]) + ProcsActs(procs[1..])
  }

  ghost function ProcActs(p: Proc): set<Act>
    decreases p, 1
  {
    TaskActs(p.task)
  }

  // --- targets that cannot be told apart ---

  type Rel = (Sys, Sys) -> bool

  /** One instruction answers the same on both and leaves them related. */
  ghost predicate SimAt(c: Agent, a: Act, rel: Rel, x: Sys, y: Sys) {
    rel(x, y) ==> Do(c, a, x).0 == Do(c, a, y).0 && rel(Do(c, a, x).1, Do(c, a, y).1)
  }

  ghost predicate Sim(c: Agent, acts: set<Act>, rel: Rel) {
    forall a, x, y {:trigger SimAt(c, a, rel, x, y)} :: a in acts ==> SimAt(c, a, rel, x, y)
  }

  ghost predicate Equivalence(rel: Rel) {
    && (forall x :: rel(x, x))
    && (forall x, y :: rel(x, y) ==> rel(y, x))
    && (forall x, y, z :: rel(x, y) && rel(y, z) ==> rel(x, z))
  }

  /** Same report, same captures, related targets. */
  ghost predicate Agree(a: (StepResult, Rs), b: (StepResult, Rs), rel: Rel) {
    a.0 == b.0 && a.1.scope == b.1.scope && rel(a.1.sys, b.1.sys)
  }

  lemma PerformSim(c: Agent, a: Option<Act>, x: Sys, y: Sys, rel: Rel)
    requires Sim(c, Just(a), rel) && rel(x, y)
    ensures Perform(c, a, x).0 == Perform(c, a, y).0 && rel(Perform(c, a, x).1, Perform(c, a, y).1)
  {
    if a.Some? { assert SimAt(c, a.value, rel, x, y); }
  }

  lemma {:induction false} StepsSim(c: Agent, exec: Exec, steps: seq<Step>, pending: string, s: Rs, y: Sys, rel: Rel)
    requires Sim(c, LineActs(exec, steps), rel) && rel(s.sys, y)
    ensures var (sub, halted, s1) := RunSteps(c, exec, steps, pending, s);
            var (sub2, halted2, s2) := RunSteps(c, exec, steps, pending, s.(sys := y));
            sub == sub2 && halted == halted2 && s1.scope == s2.scope && rel(s1.sys, s2.sys)
    decreases steps, 0
  {
    if steps != [] && !(pending != "" && !Handles(steps[0], pending, s.scope)) {
      StepSim(c, exec, steps[0], s, y, rel);
      var (r, s1) := RunStep(c, exec, steps[0], s);
      var (r2, s2) := RunStep(c, exec, steps[0], s.(sys := y));
      if !Stops(steps[0], r) {
        StepsSim(c, exec, steps[1..], Waits(steps[0], r), s1, s2.sys, rel);
        assert s1.(sys := s2.sys) == s2;
      }
    }
  }

  lemma {:induction false} StepSim(c: Agent, exec: Exec, step: Step, s: Rs, y: Sys, rel: Rel)
    requires Sim(c, StepActs(exec, step), rel) && rel(s.sys, y)
    ensures Agree(RunStep(c, exec, step, s), RunStep(c, exec, step, s.(sys := y)), rel)
    decreases step, 1
  {
    if step.cond.Some? {
      IfSim(c, exec, step.cond.value, s, y, rel);
    } else if step.block != [] {
      StepsSim(c, exec.As(step.become), step.block, "", s, y, rel);
    } else if step.parallel != [] {
      BranchesSim(c, exec, step.parallel, s, y, rel);
    } else {
      assert SimAt(c, StepAct(exec, step).value, rel, s.sys, y);
    }
  }

  lemma {:induction false} BranchesSim(c: Agent, exec: Exec, branches: seq<Step>, s: Rs, y: Sys, rel: Rel)
    requires Sim(c, LineActs(exec, branches), rel) && rel(s.sys, y)
    ensures RunBranches(c, exec, branches, s).0 == RunBranches(c, exec, branches, s.(sys := y)).0
    ensures rel(RunBranches(c, exec, branches, s).1, RunBranches(c, exec, branches, s.(sys := y)).1)
    decreases branches, 0
  {
    if branches != [] {
      StepSim(c, exec, branches[0], s, y, rel);
      var s1 := s.(sys := RunStep(c, exec, branches[0], s).1.sys);
      var y1 := RunStep(c, exec, branches[0], s.(sys := y)).1.sys;
      BranchesSim(c, exec, branches[1..], s1, y1, rel);
      assert s1.(sys := y1) == s.(sys := y).(sys := y1);
    }
  }

  /** A sequence about to begin. */
  lemma LineBegins(c: Agent, exec: Exec, h: Shape, steps: seq<Step>, s: Rs)
    ensures var (sub, halted, s1) := RunSteps(c, exec, steps, "", s);
            FinishLine(c, exec, h, steps, "", [], s) == (Wrap(h, sub, halted), s1)
  {
    var sub := RunSteps(c, exec, steps, "", s).0;
    assert [] + sub == sub;
  }

  /** What an `if` comes to once its condition has answered. */
  lemma ChosenIs(c: Agent, exec: Exec, ib: IfBlock, res: Result, shown: seq<StepResult>, s: Rs)
    ensures FinishFlat(c, Chosen(c.mode, exec, ib, res, shown), s) ==
            if c.mode == Check && res.category == WOULD then
              var (sub, _, s1) := RunSteps(c, exec, ib.thn, "", s);
              (Group(SUndetermined, shown + sub), s1)
            else if Uncovered(ib, res) then (StepResult(SErr, res.tag, false, res.shell, [], "", false, shown), s)
            else
              var (sub, halted, s1) := RunSteps(c, exec, if CondTruth(ib, res) then ib.thn else ib.els, "", s);
              (Group(if halted then SErr else SOk, shown + sub), s1)
  {
    var t := Chosen(c.mode, exec, ib, res, shown);
    if t.Line? { LineBegins(c, exec, t.shape, t.steps, s); }
  }

  /** What an `if` comes to is its condition, then the sequence it chose. */
  lemma IfStarts(c: Agent, exec: Exec, ib: IfBlock, s: Rs)
    ensures var (fin, sys1) := Perform(c, CondAct(exec, ib), s.sys);
            RunIf(c, exec, ib, s) == FinishFlat(c, StartIf(c.mode, exec, ib, s.scope, fin), Rs(s.scope, sys1))
  {
    var (fin, sys1) := Perform(c, CondAct(exec, ib), s.sys);
    assert s.(sys := sys1) == Rs(s.scope, sys1);
    if ib.on.Some? {
      if ib.on.value.name in s.scope { ChosenIs(c, exec, ib, s.scope[ib.on.value.name], [], Rs(s.scope, sys1)); }
    } else if fin.Done? {
      ChosenIs(c, exec, ib, fin.res, [CondLeaf(fin.res)], Rs(s.scope, sys1));
    }
  }

  lemma IfFrom(c: Agent, exec: Exec, ib: IfBlock, s: Rs, y: Sys, t: Task, x1: Sys, y1: Sys, rel: Rel)
    requires Perform(c, CondAct(exec, ib), s.sys).1 == x1 && Perform(c, CondAct(exec, ib), y).1 == y1
    requires t == StartIf(c.mode, exec, ib, s.scope, Perform(c, CondAct(exec, ib), s.sys).0)
    requires t == StartIf(c.mode, exec, ib, s.scope, Perform(c, CondAct(exec, ib), y).0)
    requires Agree(FinishFlat(c, t, Rs(s.scope, x1)), FinishFlat(c, t, Rs(s.scope, y1)), rel)
    ensures Agree(RunIf(c, exec, ib, s), RunIf(c, exec, ib, s.(sys := y)), rel)
  {
    IfStarts(c, exec, ib, s);
    IfStarts(c, exec, ib, s.(sys := y));
  }

  lemma {:induction false} ChosenSim(c: Agent, exec: Exec, ib: IfBlock, t: Task, s: Rs, y: Sys, rel: Rel)
    requires t.Over? || (t.Line? && t.exec == exec && (t.steps == ib.thn || t.steps == ib.els))
    requires Sim(c, LineActs(exec, ib.thn), rel) && Sim(c, LineActs(exec, ib.els), rel) && rel(s.sys, y)
    ensures Agree(FinishFlat(c, t, s), FinishFlat(c, t, s.(sys := y)), rel)
    decreases ib, 0
  {
    if t.Line? { StepsSim(c, exec, t.steps, t.pending, s, y, rel); }
  }

  lemma {:induction false} IfSim(c: Agent, exec: Exec, ib: IfBlock, s: Rs, y: Sys, rel: Rel)
    requires Sim(c, Just(CondAct(exec, ib)) + (LineActs(exec, ib.thn) + LineActs(exec, ib.els)), rel) && rel(s.sys, y)
    ensures Agree(RunIf(c, exec, ib, s), RunIf(c, exec, ib, s.(sys := y)), rel)
    decreases ib, 1
  {
    var (fin, x1) := Perform(c, CondAct(exec, ib), s.sys);
    var y1 := Perform(c, CondAct(exec, ib), y).1;
    PerformSim(c, CondAct(exec, ib), s.sys, y, rel);
    var t := StartIf(c.mode, exec, ib, s.scope, fin);
    ChosenSim(c, exec, ib, t, Rs(s.scope, x1), y1, rel);
    assert Rs(s.scope, x1).(sys := y1) == Rs(s.scope, y1);
    IfFrom(c, exec, ib, s, y, t, x1, y1, rel);
  }

  lemma LineSim(c: Agent, exec: Exec, h: Shape, steps: seq<Step>, pending: string, results: seq<StepResult>, s: Rs,
      y: Sys, rel: Rel)
    requires Sim(c, LineActs(exec, steps), rel) && rel(s.sys, y)
    ensures Agree(FinishLine(c, exec, h, steps, pending, results, s),
              FinishLine(c, exec, h, steps, pending, results, s.(sys := y)), rel)
  {
    StepsSim(c, exec, steps, pending, s, y, rel);
  }

  lemma RestSim(c: Agent, exec: Exec, h: Shape, step: Step, rest: seq<Step>, results: seq<StepResult>, r: StepResult,
      s: Rs, y: Sys, rel: Rel)
    requires Sim(c, LineActs(exec, rest), rel) && rel(s.sys, y)
    ensures Agree(FinishRest(c, exec, h, step, rest, results, r, s),
              FinishRest(c, exec, h, step, rest, results, r, s.(sys := y)), rel)
  {
    if !Stops(step, r) { LineSim(c, exec, h, rest, Waits(step, r), results + [Marked(step, r)], s, y, rel); }
  }

  lemma {:induction false} TaskSim(c: Agent, t: Task, s: Rs, y: Sys, rel: Rel)
    requires Sim(c, TaskActs(t), rel) && rel(s.sys, y)
    ensures Agree(Finish(c, t, s), Finish(c, t, s.(sys := y)), rel)
    decreases t, 0
  {
    match t {
      case Todo(exec, step) => StepSim(c, exec, step, s, y, rel);
      case Over(_) =>
      case Line(exec, h, steps, pending, results) => LineSim(c, exec, h, steps, pending, results, s, y, rel);
      case Inside(exec, h, step, rest, results, cur) =>
        TaskSim(c, cur, s, y, rel);
        var (r, s1) := Finish(c, cur, s);
        var s2 := Finish(c, cur, s.(sys := y)).1;
        RestSim(c, exec, h, step, rest, results, r, s1, s2.sys, rel);
        assert s1.(sys := s2.sys) == s2;
      case Fork(procs) => ProcsSim(c, procs, s.sys, y, rel);
    }
  }

  lemma {:induction false} ProcsSim(c: Agent, procs: seq<Proc>, x: Sys, y: Sys, rel: Rel)
    requires Sim(c, ProcsActs(procs), rel) && rel(x, y)
    ensures FinishAll(c, procs, x).0 == FinishAll(c, procs, y).0
    ensures rel(FinishAll(c, procs, x).1, FinishAll(c, procs, y).1)
    decreases procs, 1
  {
    if procs != [] {
      ProcSim(c, procs[0], x, y, rel);
      ProcsSim(c, procs[1..], FinishProc(c, procs[0], x).1.sys, FinishProc(c, procs[0], y).1.sys, rel);
    }
  }

  lemma {:induction false} ProcSim(c: Agent, p: Proc, x: Sys, y: Sys, rel: Rel)
    requires Sim(c, ProcActs(p), rel) && rel(x, y)
    ensures Agree(FinishProc(c, p, x), FinishProc(c, p, y), rel)
    decreases p, 1
  {
    TaskSim(c, p.task, Rs(p.scope, x), y, rel);
    assert Rs(p.scope, x).(sys := y) == Rs(p.scope, y);
  }

  // --- groups whose branches keep out of each other's way ---

  /** The two instructions may run in either order: each answers as it would first, and the
      targets they leave cannot be told apart. */
  ghost predicate Swap(c: Agent, a: Act, b: Act, alike: Rel, x: Sys) {
    && Do(c, a, Do(c, b, x).1).0 == Do(c, a, x).0
    && Do(c, b, Do(c, a, x).1).0 == Do(c, b, x).0
    && alike(Do(c, b, Do(c, a, x).1).1, Do(c, a, Do(c, b, x).1).1)
  }

  ghost predicate Commute(c: Agent, first: set<Act>, second: set<Act>, alike: Rel) {
    forall a, b, x {:trigger Swap(c, a, b, alike, x)} :: a in first && b in second ==> Swap(c, a, b, alike, x)
  }

  /** In every group of the step, at any depth, the instructions of different branches commute. */
  ghost predicate StepApart(c: Agent, exec: Exec, step: Step, alike: Rel)
    decreases step, 1
  {
    if step.cond.Some? then
      LineApart(c, exec, step.cond.value.thn, alike) && LineApart(c, exec, step.cond.value.els, alike)
    else if step.block != [] then LineApart(c, exec.As(step.become), step.block, alike)
    else BranchesApart(c, exec, step.parallel, alike)
  }

  ghost predicate LineApart(c: Agent, exec: Exec, steps: seq<Step>, alike: Rel)
    decreases steps, 0
  {
    steps == [] || (StepApart(c, exec, steps[0], alike) && LineApart(c, exec, steps[1..], alike))
  }

  ghost predicate BranchesApart(c: Agent, exec: Exec, branches: seq<Step>, alike: Rel)
    decreases branches, 0
  {
    branches == [] ||
    (&& StepApart(c, exec, branches[0], alike)
     && Commute(c, StepActs(exec, branches[0]), LineActs(exec, branches[1..]), alike)
     && BranchesApart(c, exec, branches[1..], alike))
  }

  ghost predicate TaskApart(c: Agent, t: Task, alike: Rel)
    decreases t, 0
  {
    match t
    case Todo(exec, step) => StepApart(c, exec, step, alike)
    case Over(_) => true
    case Line(exec, _, steps, _, _) => LineApart(c, exec, steps, alike)
    case Inside(exec, _, _, rest, _, cur) => TaskApart(c, cur, alike) && LineApart(c, exec, rest, alike)
    case Fork(procs) => ProcsApart(c, procs, alike)
  }

  ghost predicate ProcsApart(c: Agent, procs: seq<Proc>, alike: Rel)
    decreases procs, 1
  {
    procs == [] ||
    (&& ProcApart(c, procs[0], alike)
     && Commute(c, ProcActs(procs[0]), ProcsActs(procs[1..]), alike)
     && ProcsApart(c, procs[1..], alike))
  }

  ghost predicate ProcApart(c: Agent, p: Proc, alike: Rel)
    decreases p, 1
  {
    TaskApart(c, p.task, alike)
  }

  /** A group's goroutines, just started, are its branches. */
  lemma {:induction false} SpawnIs(c: Agent, exec: Exec, branches: seq<Step>, s: Rs, alike: Rel)
    ensures FinishAll(c, Spawn(exec, branches, s.scope), s.sys) == RunBranches(c, exec, branches, s)
    ensures ProcsActs(Spawn(exec, branches, s.scope)) == LineActs(exec, branches)
    ensures BranchesApart(c, exec, branches, alike) ==> ProcsApart(c, Spawn(exec, branches, s.scope), alike)
    decreases branches
  {
    if branches != [] {
      var all := Spawn(exec, branches, s.scope);
      assert all[0] == Proc(s.scope, Todo(exec, branches[0])) && all[1..] == Spawn(exec, branches[1..], s.scope);
      assert ProcActs(all[0]) == StepActs(exec, branches[0]);
      var s1 := RunStep(c, exec, branches[0], s).1;
      assert Rs(s.scope, s.sys) == s && FinishProc(c, all[0], s.sys) == RunStep(c, exec, branches[0], s);
      SpawnIs(c, exec, branches[1..], s.(sys := s1.sys), alike);
    }
  }

  // --- what a move keeps of the condition ---

  ghost predicate Within(c: Agent, t1: Task, t: Task, alike: Rel) {
    TaskActs(t1) <= TaskActs(t) && TaskApart(c, t1, alike)
  }

  lemma StartWithin(c: Agent, exec: Exec, step: Step, scope: map<string, Result>, fin: Finished, sys: Sys, alike: Rel)
    requires StepApart(c, exec, step, alike)
    ensures Within(c, Start(c.mode, exec, step, scope, fin).0, Todo(exec, step), alike)
  {
    if step.cond.None? && step.block == [] && step.parallel != [] {
      SpawnIs(c, exec, step.parallel, Rs(scope, sys), alike);
    }
  }

  lemma LineWithin(c: Agent, exec: Exec, h: Shape, steps: seq<Step>, pending: string, results: seq<StepResult>,
      scope: map<string, Result>, alike: Rel)
    requires LineApart(c, exec, steps, alike)
    ensures Within(c, Onward(exec, h, steps, pending, results, scope), Line(exec, h, steps, pending, results), alike)
  {
  }

  lemma {:induction false} AdvanceWithin(c: Agent, t: Task, scope: map<string, Result>, pick: seq<nat>, fin: Finished,
      sys: Sys, alike: Rel)
    requires TaskApart(c, t, alike)
    ensures Within(c, Advance(c.mode, t, scope, pick, fin).0, t, alike) && Just(Next(t, pick)) <= TaskActs(t)
    decreases t, 0
  {
    match t {
      case Todo(exec, step) => StartWithin(c, exec, step, scope, fin, sys, alike);
      case Over(_) =>
      case Line(exec, h, steps, pending, results) => LineWithin(c, exec, h, steps, pending, results, scope, alike);
      case Inside(exec, h, step, rest, results, cur) => AdvanceWithin(c, cur, scope, pick, fin, sys, alike);
      case Fork(procs) =>
        if pick != [] && pick[0] < |procs| { ForkWithin(c, procs, pick[0], pick[1..], fin, sys, alike); }
    }
  }

  /** The goroutine the move makes of p. */
  function Moved(mode: Mode, p: Proc, pick: seq<nat>, fin: Finished): Proc
    decreases p, 1
  {
    var (t1, scope1) := Advance(mode, p.task, p.scope, pick, fin);
    Proc(scope1, t1)
  }

  lemma {:induction false} ForkWithin(c: Agent, procs: seq<Proc>, k: nat, pick: seq<nat>, fin: Finished, sys: Sys,
      alike: Rel)
    requires k < |procs| && ProcsApart(c, procs, alike)
    ensures var q := Moved(c.mode, procs[k], pick, fin);
            ProcsActs(procs[k := q]) <= ProcsActs(procs) && ProcsApart(c, procs[k := q], alike)
    ensures Just(Next(procs[k].task, pick)) <= ProcsActs(procs)
    decreases procs, 1
  {
    var q := Moved(c.mode, procs[k], pick, fin);
    var all := procs[k := q];
    if k == 0 {
      ProcWithin(c, procs[0], pick, fin, sys, alike);
      assert all[1..] == procs[1..];
    } else {
      ForkWithin(c, procs[1..], k - 1, pick, fin, sys, alike);
      assert all[1..] == procs[1..][k - 1 := q];
    }
  }

  lemma {:induction false} ProcWithin(c: Agent, p: Proc, pick: seq<nat>, fin: Finished, sys: Sys, alike: Rel)
    requires ProcApart(c, p, alike)
    ensures var q := Moved(c.mode, p, pick, fin); ProcActs(q) <= ProcActs(p) && ProcApart(c, q, alike)
    ensures Just(Next(p.task, pick)) <= ProcActs(p)
    decreases p, 1
  {
    AdvanceWithin(c, p.task, p.scope, pick, fin, sys, alike);
  }

  // --- what a move keeps of the outcome ---

  /** y is what the instruction makes of x, and it answers `fin` there. */
  ghost function Shifted(c: Agent, a: Option<Act>, fin: Finished, alike: Rel): Rel {
    (x, y) => Perform(c, a, x).0 == fin && alike(y, Perform(c, a, x).1)
  }

  /** An instruction that commutes with all the others shifts past each of them. */
  lemma ShiftedSim(c: Agent, acts: set<Act>, a: Option<Act>, fin: Finished, alike: Rel)
    requires Equivalence(alike) && Sim(c, acts, alike) && Commute(c, acts, Just(a), alike)
    ensures Sim(c, acts, Shifted(c, a, fin, alike))
  {
    var rel := Shifted(c, a, fin, alike);
    forall b, x, y | b in acts ensures SimAt(c, b, rel, x, y) {
      if rel(x, y) { ShiftedAt(c, acts, b, a, fin, alike, x, y); }
    }
  }

  lemma ShiftedAt(c: Agent, acts: set<Act>, b: Act, a: Option<Act>, fin: Finished, alike: Rel, x: Sys, y: Sys)
    requires Equivalence(alike) && Sim(c, acts, alike) && Commute(c, acts, Just(a), alike) && b in acts
    requires Perform(c, a, x).0 == fin && alike(y, Perform(c, a, x).1)
    ensures Do(c, b, x).0 == Do(c, b, y).0
    ensures Perform(c, a, Do(c, b, x).1).0 == fin && alike(Do(c, b, y).1, Perform(c, a, Do(c, b, x).1).1)
  {
    var x1 := Perform(c, a, x).1;
    assert SimAt(c, b, alike, y, x1);
    if a.Some? { assert Swap(c, b, a.value, alike, x); }
  }

  lemma BlockAgrees(c: Agent, exec: Exec, step: Step, s: Rs)
    requires step.cond.None? && step.block != []
    ensures FinishLine(c, exec.As(step.become), Shape([], false), step.block, "", [], s) == RunStep(c, exec, step, s)
  {
    LineBegins(c, exec.As(step.become), Shape([], false), step.block, s);
    var sub := RunSteps(c, exec.As(step.become), step.block, "", s).0;
    assert [] + sub == sub;
  }

  lemma GroupAgrees(c: Agent, exec: Exec, step: Step, s: Rs, alike: Rel)
    requires step.cond.None? && step.block == [] && step.parallel != []
    ensures Finish(c, Fork(Spawn(exec, step.parallel, s.scope)), s) == RunStep(c, exec, step, s)
  {
    SpawnIs(c, exec, step.parallel, s, alike);
  }

  lemma TodoAgrees(c: Agent, exec: Exec, step: Step, s: Rs, alike: Rel)
    ensures var (fin, sys1) := Perform(c, StepAct(exec, step), s.sys);
            var (t1, scope1) := Start(c.mode, exec, step, s.scope, fin);
            Finish(c, t1, Rs(scope1, sys1)) == RunStep(c, exec, step, s)
  {
    if step.cond.Some? {
      IfStarts(c, exec, step.cond.value, s);
    } else if step.block != [] {
      BlockAgrees(c, exec, step, s);
    } else if step.parallel != [] {
      GroupAgrees(c, exec, step, s, alike);
    }
  }

  lemma LineAgrees(c: Agent, exec: Exec, h: Shape, steps: seq<Step>, pending: string, results: seq<StepResult>, s: Rs)
    ensures Finish(c, Onward(exec, h, steps, pending, results, s.scope), s) ==
            FinishLine(c, exec, h, steps, pending, results, s)
  {
    assert results + [] == results;
    if steps != [] && !(pending != "" && !Handles(steps[0], pending, s.scope)) {
      var (r, s1) := RunStep(c, exec, steps[0], s);
      var rest := RunSteps(c, exec, steps[1..], Waits(steps[0], r), s1).0;
      assert results + ([Marked(steps[0], r)] + rest) == (results + [Marked(steps[0], r)]) + rest;
    }
  }

  lemma ReturnAgrees(c: Agent, exec: Exec, h: Shape, step: Step, rest: seq<Step>, results: seq<StepResult>,
      r: StepResult, s: Rs)
    ensures Finish(c, Returned(exec, h, step, rest, results, r), s) == FinishRest(c, exec, h, step, rest, results, r, s)
    ensures Finish(c, Inside(exec, h, step, rest, results, Over(r)), s) ==
            FinishRest(c, exec, h, step, rest, results, r, s)
  {
  }

  lemma {:induction false} AllOverIs(c: Agent, procs: seq<Proc>, sys: Sys)
    requires AllOver(procs)
    ensures FinishAll(c, procs, sys) == (Reports(procs), sys)
    decreases |procs|
  {
    if procs != [] {
      var t := procs[0].task;
      assert t.Over? && FinishProc(c, procs[0], sys) == (t.r, Rs(procs[0].scope, sys));
      AllOverIs(c, procs[1..], sys);
    }
  }

  /** A move ends in what the task came to before it. */
  lemma {:induction false} MoveAgrees(c: Agent, t: Task, s: Rs, pick: seq<nat>, alike: Rel)
    requires Equivalence(alike) && Sim(c, TaskActs(t), alike) && TaskApart(c, t, alike)
    ensures Agree(Finish(c, Move(c, t, s, pick).0, Move(c, t, s, pick).1), Finish(c, t, s), alike)
    decreases t, 0
  {
    match t {
      case Todo(exec, step) => TodoAgrees(c, exec, step, s, alike);
      case Over(_) =>
      case Line(exec, h, steps, pending, results) => LineAgrees(c, exec, h, steps, pending, results, s);
      case Inside(exec, h, step, rest, results, cur) =>
        if cur.Over? {
          ReturnMove(c, t, s, pick);
        } else {
          MoveAgrees(c, cur, s, pick, alike);
          InsideAgrees(c, t, s, pick, alike);
        }
      case Fork(procs) =>
        if AllOver(procs) {
          JoinMove(c, procs, s, pick);
        } else if pick != [] && pick[0] < |procs| {
          ProcsAgree(c, procs, pick[0], s.sys, pick[1..], alike);
        }
    }
  }

  lemma ReturnMove(c: Agent, t: Task, s: Rs, pick: seq<nat>)
    requires t.Inside? && t.cur.Over?
    ensures Finish(c, Move(c, t, s, pick).0, Move(c, t, s, pick).1) == Finish(c, t, s)
  {
    assert t == Inside(t.exec, t.shape, t.step, t.rest, t.results, Over(t.cur.r));
    assert Next(t, pick) == Next(t.cur, pick) == None;
    assert Move(c, t, s, pick) == (Returned(t.exec, t.shape, t.step, t.rest, t.results, t.cur.r), s);
    ReturnAgrees(c, t.exec, t.shape, t.step, t.rest, t.results, t.cur.r, s);
  }

  lemma JoinMove(c: Agent, procs: seq<Proc>, s: Rs, pick: seq<nat>)
    requires AllOver(procs)
    ensures Finish(c, Move(c, Fork(procs), s, pick).0, Move(c, Fork(procs), s, pick).1) == Finish(c, Fork(procs), s)
  {
    if pick != [] && pick[0] < |procs| { assert procs[pick[0]].task.Over?; }
    assert Next(Fork(procs), pick) == None;
    assert Move(c, Fork(procs), s, pick) == (Over(Joined(Reports(procs))), s);
    AllOverIs(c, procs, s.sys);
  }

  /** What a move inside a step keeps, the sequence around it keeps. */
  lemma InsideAgrees(c: Agent, t: Task, s: Rs, pick: seq<nat>, alike: Rel)
    requires t.Inside? && !t.cur.Over? && Sim(c, LineActs(t.exec, t.rest), alike)
    requires Agree(Finish(c, Move(c, t.cur, s, pick).0, Move(c, t.cur, s, pick).1), Finish(c, t.cur, s), alike)
    ensures Agree(Finish(c, Move(c, t, s, pick).0, Move(c, t, s, pick).1), Finish(c, t, s), alike)
  {
    var (cur1, s1) := Move(c, t.cur, s, pick);
    assert Move(c, t, s, pick) == (t.(cur := cur1), s1);
    var (r, s2) := Finish(c, t.cur, s);
    var s3 := Finish(c, cur1, s1).1;
    RestSim(c, t.exec, t.shape, t.step, t.rest, t.results, r, s3, s2.sys, alike);
    assert s3.(sys := s2.sys) == s2;
  }

  /** Goroutine k of a group moves: the goroutines before it do not notice, nor do those after. */
  lemma {:induction false} ProcsAgree(c: Agent, procs: seq<Proc>, k: nat, x: Sys, pick: seq<nat>, alike: Rel)
    requires k < |procs| && Equivalence(alike) && Sim(c, ProcsActs(procs), alike) && ProcsApart(c, procs, alike)
    ensures var (fin, x1) := Perform(c, Next(procs[k].task, pick), x);
            var all := procs[k := Moved(c.mode, procs[k], pick, fin)];
            FinishAll(c, all, x1).0 == FinishAll(c, procs, x).0 &&
              alike(FinishAll(c, all, x1).1, FinishAll(c, procs, x).1)
    decreases procs, 1
  {
    var a := Next(procs[k].task, pick);
    var (fin, x1) := Perform(c, a, x);
    var q := Moved(c.mode, procs[k], pick, fin);
    var h, tail := procs[0], procs[1..];
    var y := FinishProc(c, h, x).1.sys;
    if k == 0 {
      ProcAgrees(c, h, x, pick, alike);
      assert procs[0 := q][1..] == tail;
      ProcsSim(c, tail, FinishProc(c, q, x1).1.sys, y, alike);
    } else {
      ForkWithin(c, tail, k - 1, pick, fin, x, alike);
      assert tail[k - 1] == procs[k];
      ShiftedSim(c, ProcActs(h), a, fin, alike);
      ProcSim(c, h, x, x1, Shifted(c, a, fin, alike));
      var y1 := FinishProc(c, h, x1).1.sys;
      ProcsAgree(c, tail, k - 1, y, pick, alike);
      ProcsSim(c, tail[k - 1 := q], y1, Perform(c, a, y).1, alike);
      assert procs[k := q][0] == h && procs[k := q][1..] == tail[k - 1 := q];
    }
  }

  lemma {:induction false} ProcAgrees(c: Agent, p: Proc, x: Sys, pick: seq<nat>, alike: Rel)
    requires Equivalence(alike) && Sim(c, ProcActs(p), alike) && ProcApart(c, p, alike)
    ensures var (fin, x1) := Perform(c, Next(p.task, pick), x);
            Agree(FinishProc(c, Moved(c.mode, p, pick, fin), x1), FinishProc(c, p, x), alike)
    decreases p, 1
  {
    MoveAgrees(c, p.task, Rs(p.scope, x), pick, alike);
  }

  lemma {:induction false} RunAgrees(c: Agent, t: Task, s: Rs, picks: seq<seq<nat>>, alike: Rel)
    requires Equivalence(alike) && Sim(c, TaskActs(t), alike) && TaskApart(c, t, alike)
    ensures var (t1, s1) := After(c, t, s, picks); Agree(Finish(c, t1, s1), Finish(c, t, s), alike)
    decreases |picks|
  {
    if picks != [] {
      MoveAgrees(c, t, s, picks[0], alike);
      var fin := Perform(c, Next(t, picks[0]), s.sys).0;
      AdvanceWithin(c, t, s.scope, picks[0], fin, s.sys, alike);
      var (t1, s1) := Move(c, t, s, picks[0]);
      RunAgrees(c, t1, s1, picks[1..], alike);
    }
  }

  /** Every interleaving that ends reports what running each group's branches in turn reports,
      with the same captures, on a target nobody can tell apart. */
  lemma EveryInterleaving(c: Agent, exec: Exec, step: Step, s: Rs, picks: seq<seq<nat>>, alike: Rel)
    requires Equivalence(alike) && Sim(c, StepActs(exec, step), alike) && StepApart(c, exec, step, alike)
    requires After(c, Todo(exec, step), s, picks).0.Over?
    ensures var (t, s1) := After(c, Todo(exec, step), s, picks); Agree((t.r, s1), RunStep(c, exec, step, s), alike)
  {
    RunAgrees(c, Todo(exec, step), s, picks, alike);
  }

  /** The same for the steps of a whole request. */
  lemma RequestInterleaved(c: Agent, exec: Exec, steps: seq<Step>, s: Rs, picks: seq<seq<nat>>, alike: Rel)
    requires Equivalence(alike) && Sim(c, LineActs(exec, steps), alike) && LineApart(c, exec, steps, alike)
    requires After(c, Line(exec, Shape([], false), steps, "", []), s, picks).0.Over?
    ensures var (t, s1) := After(c, Line(exec, Shape([], false), steps, "", []), s, picks);
            var (sub, halted, s2) := RunSteps(c, exec, steps, "", s);
            t.r.sub == sub && (t.r.cat == SErr <==> halted) && s1.scope == s2.scope && alike(s1.sys, s2.sys)
  {
    RunAgrees(c, Line(exec, Shape([], false), steps, "", []), s, picks, alike);
    LineBegins(c, exec, Shape([], false), steps, s);
    var sub := RunSteps(c, exec, steps, "", s).0;
    assert [] + sub == sub;
  }

  // --- every run ends ---

  function StepRank(step: Step): nat
    decreases step, 1
  {
    1 + (if step.cond.Some? then 1 + LineRank(step.cond.value.thn) + LineRank(step.cond.value.els)
         else if step.block != [] then 1 + LineRank(step.block)
         else if step.parallel != [] then 1 + LineRank(step.parallel)
         else 0)
  }

  function LineRank(steps: seq<Step>): nat
    decreases steps, 0
  {
    if steps == [] then 0 else 2 + StepRank(steps[0]) + LineRank(steps[1..])
  }

  /** A bound on the moves a task has left. */
  function Rank(t: Task): nat
    decreases t, 0
  {
    match t
    case Todo(_, step) => StepRank(step)
    case Over(_) => 0
    case Line(_, _, steps, _, _) => 1 + LineRank(steps)
    case Inside(_, _, _, rest, _, cur) => 2 + Rank(cur) + LineRank(rest)
    case Fork(procs) => 1 + ProcsRank(procs)
  }

  function ProcsRank(procs: seq<Proc>): nat
    decreases procs, 1
  {
    if procs == [] then 0 else ProcRank(procs[0]) + ProcsRank(procs[1..])
  }

  function ProcRank(p: Proc): nat
    decreases p, 1
  {
    Rank(p.task)
  }

  /** The pick names a goroutine that can move. */
  predicate Enabled(t: Task, pick: seq<nat>)
    decreases t
  {
    match t
    case Todo(_, _) => true
    case Over(_) => false
    case Line(_, _, _, _, _) => true
    case Inside(_, _, _, _, _, cur) => cur.Over? || Enabled(cur, pick)
    case Fork(procs) => AllOver(procs) || (pick != [] && pick[0] < |procs| && Enabled(procs[pick[0]].task, pick[1..]))
  }

  lemma {:induction false} SpawnRank(exec: Exec, branches: seq<Step>, scope: map<string, Result>)
    ensures ProcsRank(Spawn(exec, branches, scope)) <= LineRank(branches)
    decreases branches
  {
    if branches != [] {
      var all := Spawn(exec, branches, scope);
      assert all[0] == Proc(scope, Todo(exec, branches[0])) && all[1..] == Spawn(exec, branches[1..], scope);
      assert ProcRank(all[0]) == StepRank(branches[0]);
      SpawnRank(exec, branches[1..], scope);
    }
  }

  lemma StartShrinks(mode: Mode, exec: Exec, step: Step, scope: map<string, Result>, fin: Finished)
    ensures Rank(Start(mode, exec, step, scope, fin).0) < StepRank(step)
  {
    if step.cond.Some? {
      IfShrinks(mode, exec, step.cond.value, scope, fin);
    } else if step.block == [] {
      SpawnRank(exec, step.parallel, scope);
    }
  }

  lemma IfShrinks(mode: Mode, exec: Exec, ib: IfBlock, scope: map<string, Result>, fin: Finished)
    ensures Rank(StartIf(mode, exec, ib, scope, fin)) <= 1 + LineRank(ib.thn) + LineRank(ib.els)
  {
  }

  lemma {:induction false} MoveShrinks(mode: Mode, t: Task, scope: map<string, Result>, pick: seq<nat>, fin: Finished)
    requires Enabled(t, pick)
    ensures Rank(Advance(mode, t, scope, pick, fin).0) < Rank(t)
    decreases t, 0
  {
    match t {
      case Todo(exec, step) => StartShrinks(mode, exec, step, scope, fin);
      case Line(exec, h, steps, pending, results) =>
      case Inside(exec, h, step, rest, results, cur) => if !cur.Over? { MoveShrinks(mode, cur, scope, pick, fin); }
      case Fork(procs) => if !AllOver(procs) { ForkShrinks(mode, procs, pick[0], pick[1..], fin); }
    }
  }

  lemma {:induction false} ForkShrinks(mode: Mode, procs: seq<Proc>, k: nat, pick: seq<nat>, fin: Finished)
    requires k < |procs| && Enabled(procs[k].task, pick)
    ensures ProcsRank(procs[k := Moved(mode, procs[k], pick, fin)]) < ProcsRank(procs)
    decreases procs, 1
  {
    var all := procs[k := Moved(mode, procs[k], pick, fin)];
    if k == 0 {
      ProcShrinks(mode, procs[0], pick, fin);
      assert all[1..] == procs[1..];
    } else {
      ForkShrinks(mode, procs[1..], k - 1, pick, fin);
      assert all[1..] == procs[1..][k - 1 := all[k]];
    }
  }

  lemma {:induction false} ProcShrinks(mode: Mode, p: Proc, pick: seq<nat>, fin: Finished)
    requires Enabled(p.task, pick)
    ensures ProcRank(Moved(mode, p, pick, fin)) < ProcRank(p)
    decreases p, 1
  {
    MoveShrinks(mode, p.task, p.scope, pick, fin);
  }

  /** No group is ever stuck: while a task is not over, some goroutine of it can move. */
  lemma {:induction false} SomeMove(t: Task) returns (pick: seq<nat>)
    requires !t.Over?
    ensures Enabled(t, pick)
    decreases t, 0
  {
    pick := [];
    match t {
      case Todo(_, _) =>
      case Line(_, _, _, _, _) =>
      case Inside(_, _, _, _, _, cur) => if !cur.Over? { pick := SomeMove(cur); }
      case Fork(procs) =>
        if !AllOver(procs) {
          var k :| 0 <= k < |procs| && !procs[k].task.Over?;
          var rest := ProcMoves(procs[k]);
          pick := [k] + rest;
          assert pick[0] == k && pick[1..] == rest;
        }
    }
  }

  lemma {:induction false} ProcMoves(p: Proc) returns (pick: seq<nat>)
    requires !p.task.Over?
    ensures Enabled(p.task, pick)
    decreases p, 1
  {
    pick := SomeMove(p.task);
  }

  /** Each pick is a move. */
  ghost predicate Moving(c: Agent, t: Task, s: Rs, picks: seq<seq<nat>>)
    decreases |picks|
  {
    picks == [] || (Enabled(t, picks[0]) && Moving(c, Move(c, t, s, picks[0]).0, Move(c, t, s, picks[0]).1, picks[1..]))
  }

  /** However the scheduler picks, a run makes no more moves than the task has. */
  lemma {:induction false} MovesAreBounded(c: Agent, t: Task, s: Rs, picks: seq<seq<nat>>)
    requires Moving(c, t, s, picks)
    ensures |picks| + Rank(After(c, t, s, picks).0) <= Rank(t)
    decreases |picks|
  {
    if picks != [] {
      var fin := Perform(c, Next(t, picks[0]), s.sys).0;
      MoveShrinks(c.mode, t, s.scope, picks[0], fin);
      var (t1, s1) := Move(c, t, s, picks[0]);
      MovesAreBounded(c, t1, s1, picks[1..]);
    }
  }

  /** So every run can be brought to its end, and there it reports what running each group's
      branches in turn reports. */
  lemma {:induction false} EveryRunEnds(c: Agent, t: Task, s: Rs) returns (picks: seq<seq<nat>>)
    ensures Moving(c, t, s, picks) && After(c, t, s, picks).0.Over?
    decreases Rank(t)
  {
    picks := [];
    if !t.Over? {
      var pick := SomeMove(t);
      MoveShrinks(c.mode, t, s.scope, pick, Perform(c, Next(t, pick), s.sys).0);
      var (t1, s1) := Move(c, t, s, pick);
      var rest := EveryRunEnds(c, t1, s1);
      picks := [pick] + rest;
      assert picks[0] == pick && picks[1..] == rest;
    }
  }
}
