/** A `parallel` group whose branches run on executors of their own: what the group reports
    under every interleaving. */
module Parallel {
  import opened Basics
  import opened Ast
  import opened Eval
  import opened Plan
  import opened Runner
  import opened Interleave
  import Resolve

  /** What executor i shows of the target. */
  type View<!V> = (nat, Sys) -> V

  /** An instruction of branch i answers by its own executor's view alone, and changes no other. */
  ghost predicate OwnAt<V>(c: Agent, a: Act, i: nat, n: nat, view: View<V>, x: Sys, y: Sys) {
    && (view(i, x) == view(i, y) ==> Do(c, a, x).0 == Do(c, a, y).0 && view(i, Do(c, a, x).1) == view(i, Do(c, a, y).1))
    && forall j: nat :: j < n && j != i ==> view(j, Do(c, a, x).1) == view(j, x)
  }

  ghost predicate Own<V>(c: Agent, acts: set<Act>, i: nat, n: nat, view: View<V>) {
    forall a, x, y {:trigger OwnAt(c, a, i, n, view, x, y)} :: a in acts ==> OwnAt(c, a, i, n, view, x, y)
  }

  ghost predicate OwnExecutors<V>(c: Agent, exec: Exec, branches: seq<Step>, view: View<V>) {
    forall i: nat :: i < |branches| ==> Own(c, StepActs(exec, branches[i]), i, |branches|, view)
  }

  /** No executor shows a difference. */
  ghost function SameViews<V>(n: nat, view: View<V>): Rel {
    (x, y) => forall j: nat :: j < n ==> view(j, x) == view(j, y)
  }

  lemma OwnSim<V>(c: Agent, acts: set<Act>, i: nat, n: nat, view: View<V>)
    requires i < n && Own(c, acts, i, n, view)
    ensures Sim(c, acts, SameViews(n, view))
  {
    var same := SameViews(n, view);
    forall a, x, y | a in acts ensures SimAt(c, a, same, x, y) {
      assert OwnAt(c, a, i, n, view, x, y) && OwnAt(c, a, i, n, view, y, x);
    }
  }

  lemma OwnCommute<V>(c: Agent, first: set<Act>, i: nat, second: set<Act>, j: nat, n: nat, view: View<V>)
    requires i < n && j < n && i != j && Own(c, first, i, n, view) && Own(c, second, j, n, view)
    ensures Commute(c, first, second, SameViews(n, view))
  {
    forall a, b, x | a in first && b in second ensures Swap(c, a, b, SameViews(n, view), x) {
      OwnSwap(c, a, i, b, j, n, view, x);
    }
  }

  lemma OwnSwap<V>(c: Agent, a: Act, i: nat, b: Act, j: nat, n: nat, view: View<V>, x: Sys)
    requires i < n && j < n && i != j
    requires (forall u, v :: OwnAt(c, a, i, n, view, u, v)) && forall u, v :: OwnAt(c, b, j, n, view, u, v)
    ensures Swap(c, a, b, SameViews(n, view), x)
  {
    var xa, xb := Do(c, a, x).1, Do(c, b, x).1;
    assert OwnAt(c, a, i, n, view, x, xb) && OwnAt(c, a, i, n, view, xb, x);
    assert OwnAt(c, b, j, n, view, x, xa) && OwnAt(c, b, j, n, view, xa, x);
  }

  /** Every instruction of a line is one of its steps'. */
  lemma {:induction false} LineActOf(exec: Exec, steps: seq<Step>, a: Act) returns (i: nat)
    requires a in LineActs(exec, steps)
    ensures i < |steps| && a in StepActs(exec, steps[i])
    decreases |steps|
  {
    if a in StepActs(exec, steps[0]) {
      i := 0;
    } else {
      i := LineActOf(exec, steps[1..], a);
      i := i + 1;
    }
  }

  lemma OwnLineSim<V>(c: Agent, exec: Exec, branches: seq<Step>, view: View<V>)
    requires OwnExecutors(c, exec, branches, view)
    ensures Sim(c, LineActs(exec, branches), SameViews(|branches|, view))
  {
    var same := SameViews(|branches|, view);
    forall a, x, y | a in LineActs(exec, branches) ensures SimAt(c, a, same, x, y) {
      var i := LineActOf(exec, branches, a);
      OwnSim(c, StepActs(exec, branches[i]), i, |branches|, view);
    }
  }

  /** What commutes with every step's instructions commutes with the line's. */
  lemma {:induction false} CommuteLine(c: Agent, acts: set<Act>, exec: Exec, steps: seq<Step>, alike: Rel)
    requires forall i: nat :: i < |steps| ==> Commute(c, acts, StepActs(exec, steps[i]), alike)
    ensures Commute(c, acts, LineActs(exec, steps), alike)
    decreases |steps|
  {
    if steps != [] { CommuteLine(c, acts, exec, steps[1..], alike); }
  }

  lemma OwnCommuteLater<V>(c: Agent, exec: Exec, branches: seq<Step>, k: nat, view: View<V>)
    requires OwnExecutors(c, exec, branches, view) && k < |branches|
    ensures Commute(c, StepActs(exec, branches[k]), LineActs(exec, branches[k + 1..]), SameViews(|branches|, view))
  {
    var n, later := |branches|, branches[k + 1..];
    forall i: nat | i < |later|
      ensures Commute(c, StepActs(exec, branches[k]), StepActs(exec, later[i]), SameViews(n, view))
    {
      OwnCommute(c, StepActs(exec, branches[k]), k, StepActs(exec, later[i]), k + 1 + i, n, view);
    }
    CommuteLine(c, StepActs(exec, branches[k]), exec, later, SameViews(n, view));
  }

  ghost predicate EachApart(c: Agent, exec: Exec, branches: seq<Step>, alike: Rel) {
    forall i: nat :: i < |branches| ==> StepApart(c, exec, branches[i], alike)
  }

  ghost predicate CommutesLater(c: Agent, exec: Exec, branches: seq<Step>, k: nat, alike: Rel)
    requires k < |branches|
  {
    Commute(c, StepActs(exec, branches[k]), LineActs(exec, branches[k + 1..]), alike)
  }

  /** The branches from k on keep out of each other's way. */
  lemma {:induction false} ApartFrom(c: Agent, exec: Exec, branches: seq<Step>, k: nat, alike: Rel)
    requires k <= |branches| && EachApart(c, exec, branches, alike)
    requires forall i: nat :: i < |branches| ==> CommutesLater(c, exec, branches, i, alike)
    ensures BranchesApart(c, exec, branches[k..], alike)
    decreases |branches| - k
  {
    if k < |branches| {
      var later := branches[k + 1..];
      ApartFrom(c, exec, branches, k + 1, alike);
      assert CommutesLater(c, exec, branches, k, alike);
      ApartCons(c, exec, branches[k], later, alike);
      assert branches[k..] == [branches[k]] + later;
    }
  }

  lemma ApartCons(c: Agent, exec: Exec, step: Step, later: seq<Step>, alike: Rel)
    requires StepApart(c, exec, step, alike) && Commute(c, StepActs(exec, step), LineActs(exec, later), alike)
    requires BranchesApart(c, exec, later, alike)
    ensures BranchesApart(c, exec, [step] + later, alike)
  {
    assert ([step] + later)[1..] == later;
  }

  /** A branch answers by its own view, and no other executor shows what it did. */
  lemma BranchAlone<V>(c: Agent, exec: Exec, branches: seq<Step>, i: nat, s: Rs, y: Sys, view: View<V>)
    requires OwnExecutors(c, exec, branches, view) && i < |branches| && view(i, s.sys) == view(i, y)
    ensures RunStep(c, exec, branches[i], s).0 == RunStep(c, exec, branches[i], s.(sys := y)).0
    ensures forall j: nat :: j < |branches| && j != i ==>
            view(j, RunStep(c, exec, branches[i], s).1.sys) == view(j, s.sys)
  {
    var acts, n := StepActs(exec, branches[i]), |branches|;
    var mine: Rel := (u, v) => view(i, u) == view(i, v);
    forall a, u, v | a in acts ensures SimAt(c, a, mine, u, v) { assert OwnAt(c, a, i, n, view, u, v); }
    StepSim(c, exec, branches[i], s, y, mine);
    forall j: nat | j < n && j != i ensures view(j, RunStep(c, exec, branches[i], s).1.sys) == view(j, s.sys) {
      var kept: Rel := (u, v) => u == v && view(j, u) == view(j, s.sys);
      forall a, u, v | a in acts ensures SimAt(c, a, kept, u, v) { assert OwnAt(c, a, i, n, view, u, v); }
      assert s.(sys := s.sys) == s;
      StepSim(c, exec, branches[i], s, s.sys, kept);
    }
  }

  /** The branches in turn, from the k-th on, each report what they would on the target as it was. */
  lemma {:induction false} InTurn<V>(c: Agent, exec: Exec, branches: seq<Step>, s: Rs, k: nat, sys: Sys, view: View<V>)
    requires OwnExecutors(c, exec, branches, view) && k <= |branches|
    requires forall i: nat :: k <= i < |branches| ==> view(i, s.sys) == view(i, sys)
    ensures var subs := RunBranches(c, exec, branches[k..], s.(sys := sys)).0;
            && |subs| == |branches| - k
            && forall i: nat :: k <= i < |branches| ==> subs[i - k] == RunStep(c, exec, branches[i], s).0
    decreases |branches| - k
  {
    if k < |branches| {
      BranchAlone(c, exec, branches, k, s, sys, view);
      var now := s.(sys := sys);
      BranchAlone(c, exec, branches, k, now, sys, view);
      var next := RunStep(c, exec, branches[k], now).1.sys;
      assert branches[k..][0] == branches[k] && branches[k..][1..] == branches[k + 1..];
      assert now.(sys := next) == s.(sys := next);
      InTurn(c, exec, branches, s, k + 1, next, view);
    }
  }

  /** What such a group reports when its branches run in turn. */
  lemma GroupInTurn<V>(c: Agent, exec: Exec, step: Step, s: Rs, view: View<V>)
    requires IsGroup(step) && OwnExecutors(c, exec, step.parallel, view)
    ensures var (r, s1) := RunStep(c, exec, step, s); s1.scope == s.scope && Slots(c, exec, step.parallel, s, r)
  {
    var branches := step.parallel;
    assert branches[0..] == branches && s.(sys := s.sys) == s;
    InTurn(c, exec, branches, s, 0, s.sys, view);
    var r := RunStep(c, exec, step, s).0;
    assert r.sub == RunBranches(c, exec, branches, s).0;
    assert r.cat == SErr <==> exists x :: x in r.sub && x.cat == SErr;
  }

  ghost predicate IsGroup(step: Step) {
    step.cond.None? && step.block == [] && step.parallel != []
  }

  /** Slot i is what branch i yields alone, and the group fails exactly when a branch does. */
  ghost predicate Slots(c: Agent, exec: Exec, branches: seq<Step>, s: Rs, r: StepResult) {
    && |r.sub| == |branches|
    && (forall i: nat :: i < |branches| ==> r.sub[i] == RunStep(c, exec, branches[i], s).0)
    && (r.cat == SErr <==> exists i: nat :: i < |branches| && RunStep(c, exec, branches[i], s).0.cat == SErr)
  }

  lemma GroupApart<V>(c: Agent, exec: Exec, step: Step, view: View<V>)
    requires IsGroup(step) && OwnExecutors(c, exec, step.parallel, view)
    requires EachApart(c, exec, step.parallel, SameViews(|step.parallel|, view))
    ensures var same := SameViews(|step.parallel|, view);
            Sim(c, StepActs(exec, step), same) && StepApart(c, exec, step, same)
  {
    OwnLineSim(c, exec, step.parallel, view);
    forall i: nat | i < |step.parallel|
      ensures CommutesLater(c, exec, step.parallel, i, SameViews(|step.parallel|, view))
    {
      OwnCommuteLater(c, exec, step.parallel, i, view);
    }
    ApartFrom(c, exec, step.parallel, 0, SameViews(|step.parallel|, view));
    assert step.parallel[0..] == step.parallel;
    assert StepActs(exec, step) == {} + LineActs(exec, step.parallel);
  }

  /** Branches on executors of their own: in every interleaving that ends, groups inside the
      branches included, slot i of the report is what branch i yields alone on the target as it
      was, and the group fails exactly when one of them does. */
  lemma ParallelReports<V>(c: Agent, exec: Exec, step: Step, s: Rs, picks: seq<seq<nat>>, view: View<V>)
    requires IsGroup(step) && OwnExecutors(c, exec, step.parallel, view)
    requires EachApart(c, exec, step.parallel, SameViews(|step.parallel|, view))
    requires After(c, Todo(exec, step), s, picks).0.Over?
    ensures var (t, s1) := After(c, Todo(exec, step), s, picks);
            s1.scope == s.scope && Slots(c, exec, step.parallel, s, t.r)
  {
    GroupApart(c, exec, step, view);
    EveryInterleaving(c, exec, step, s, picks, SameViews(|step.parallel|, view));
    GroupInTurn(c, exec, step, s, view);
  }

  // --- branches that get in each other's way ---

  /** A target on which only the first shell of all succeeds. */
  ghost predicate OnlyOnce(c: Agent) {
    && c.mode == Apply && c.defs == map[]
    && forall w: World, q {:trigger c.m.shell(w, q)} ::
         (c.m.shell(w, q).0.exit == 0 <==> w == 0) && c.m.shell(w, q).1 == w + 1
  }

  function Shell(cmd: string): Step {
    Resolve.NO_STEP.(instruction := "shell", args := map["cmd" := cmd])
  }

  function Racing(): Step {
    Resolve.NO_STEP.(parallel := [Shell("a"), Shell("b")])
  }

  lemma ShellMoves(c: Agent, exec: Exec, cmd: string, s: Rs, pick: seq<nat>)
    requires OnlyOnce(c) && TrimRight(cmd) != ""
    ensures var (t, s1) := Move(c, Todo(exec, Shell(cmd)), s, pick);
            t.Over? && (t.r.cat == SOk <==> s.sys.w == 0) && (t.r.cat == SErr <==> s.sys.w != 0)
            && s1.scope == s.scope && s1.sys.w == s.sys.w + 1
  {
    var q := ShellReq(ApplyPhase, exec, cmd, map[]);
    assert c.m.shell(s.sys.w, q).1 == s.sys.w + 1;
  }

  lemma ForkMoves(c: Agent, procs: seq<Proc>, k: nat, s: Rs)
    requires k < |procs| && !AllOver(procs)
    ensures var (t1, s1) := Move(c, procs[k].task, Rs(procs[k].scope, s.sys), []);
            Move(c, Fork(procs), s, [k]) == (Fork(procs[k := Proc(s1.scope, t1)]), Rs(s.scope, s1.sys))
  {
    assert [k][1..] == [];
  }

  lemma RaceStarts(c: Agent, exec: Exec, s: Rs)
    ensures Move(c, Todo(exec, Racing()), s, []) ==
            (Fork([Proc(s.scope, Todo(exec, Shell("a"))), Proc(s.scope, Todo(exec, Shell("b")))]), s)
  {
    var branches, b := Racing().parallel, [Shell("b")];
    assert branches[1..] == b && b[1..] == [];
    var pa, pb := Proc(s.scope, Todo(exec, Shell("a"))), Proc(s.scope, Todo(exec, Shell("b")));
    assert Spawn(exec, b, s.scope) == [pb] + Spawn(exec, [], s.scope);
    assert Spawn(exec, branches, s.scope) == [pa] + [pb] == [pa, pb];
  }

  lemma RaceEnds(c: Agent, procs: seq<Proc>, s: Rs)
    requires |procs| == 2 && AllOver(procs)
    ensures Move(c, Fork(procs), s, []).0 == Over(Joined([procs[0].task.r, procs[1].task.r]))
  {
    var b := procs[1..];
    assert b[1..] == [] && b[0] == procs[1] && AllOver(b);
    assert Reports(b) == [procs[1].task.r] + Reports([]);
  }

  lemma ThenAfter(c: Agent, t: Task, s: Rs, pick: seq<nat>, picks: seq<seq<nat>>)
    ensures After(c, t, s, [pick] + picks) == var (t1, s1) := Move(c, t, s, pick); After(c, t1, s1, picks)
  {
    assert ([pick] + picks)[1..] == picks;
  }

  /** The other one moves, and the group is over. */
  lemma RaceTail(c: Agent, exec: Exec, procs: seq<Proc>, two: nat, cmd: string, s: Rs)
    requires OnlyOnce(c) && TrimRight(cmd) != "" && s.sys.w > 0
    requires |procs| == 2 && two < 2 && procs[1 - two].task.Over? && procs[two].task == Todo(exec, Shell(cmd))
    ensures var t := After(c, Fork(procs), s, [[two]] + ([[]] + [])).0;
            t.Over? && |t.r.sub| == 2 && t.r.sub[two].cat == SErr && t.r.sub[1 - two] == procs[1 - two].task.r
  {
    var next := Rs(procs[two].scope, s.sys);
    ShellMoves(c, exec, cmd, next, []);
    ForkMoves(c, procs, two, s);
    var (t2, s2) := Move(c, procs[two].task, next, []);
    var procs2 := procs[two := Proc(s2.scope, t2)];
    ThenAfter(c, Fork(procs), s, [two], [[]] + []);
    RaceEnds(c, procs2, Rs(s.scope, s2.sys));
    ThenAfter(c, Fork(procs2), Rs(s.scope, s2.sys), [], []);
  }

  lemma RaceBoth(c: Agent, exec: Exec, procs: seq<Proc>, one: nat, cmd: string, later: string, s: Rs)
    requires OnlyOnce(c) && TrimRight(cmd) != "" && TrimRight(later) != "" && s.sys.w == 0
    requires |procs| == 2 && one < 2
    requires procs[one].task == Todo(exec, Shell(cmd)) && procs[1 - one].task == Todo(exec, Shell(later))
    ensures var t := After(c, Fork(procs), s, [[one]] + ([[1 - one]] + ([[]] + []))).0;
            t.Over? && |t.r.sub| == 2 && t.r.sub[one].cat == SOk && t.r.sub[1 - one].cat == SErr
  {
    var first := Rs(procs[one].scope, s.sys);
    ShellMoves(c, exec, cmd, first, []);
    ForkMoves(c, procs, one, s);
    var (t1, s1) := Move(c, procs[one].task, first, []);
    ThenAfter(c, Fork(procs), s, [one], [[1 - one]] + ([[]] + []));
    RaceTail(c, exec, procs[one := Proc(s1.scope, t1)], 1 - one, later, Rs(s.scope, s1.sys));
  }

  /** The report depends on which goroutine moves first: the one that does succeeds. */
  lemma RaceShows(c: Agent, exec: Exec, s: Rs, one: nat)
    requires OnlyOnce(c) && s.sys.w == 0 && one < 2
    ensures var t := After(c, Todo(exec, Racing()), s, [[]] + ([[one]] + ([[1 - one]] + ([[]] + [])))).0;
            t.Over? && |t.r.sub| == 2 && t.r.sub[one].cat == SOk && t.r.sub[1 - one].cat == SErr
  {
    var procs := [Proc(s.scope, Todo(exec, Shell("a"))), Proc(s.scope, Todo(exec, Shell("b")))];
    RaceStarts(c, exec, s);
    ThenAfter(c, Todo(exec, Racing()), s, [], [[one]] + ([[1 - one]] + ([[]] + [])));
    RaceBoth(c, exec, procs, one, if one == 0 then "a" else "b", if one == 0 then "b" else "a", s);
  }
}
