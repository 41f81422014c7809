/** A def with an observe, run again: what a confirmed change means for the next run and for
    the report. */
module SecondRun {
  import opened Basics
  import opened Ast
  import opened Eval
  import opened EarlyRefusal
  import opened Front
  import opened Confirm

  /** One observe, at i. */
  ghost predicate OneObserve(def: Def, i: nat) {
    && i < |def.phases| && def.delegate.None? && def.phases[i].name == ObservePhase
    && forall j :: 0 <= j < |def.phases| && j != i ==> def.phases[j].name != ObservePhase
  }

  /** The def as far as its observe. */
  function Upto(def: Def, i: nat): Def
    requires i <= |def.phases|
  {
    def.(phases := def.phases[..i])
  }

  lemma {:induction false} OnlyObserve(phases: seq<Phase>, i: nat)
    requires i < |phases| && phases[i].name == ObservePhase
    requires forall j :: 0 <= j < |phases| && j != i ==> phases[j].name != ObservePhase
    ensures LastPhase(phases, ObservePhase) == Some(phases[i].stmts)
    decreases |phases|
  {
    if i < |phases| - 1 { OnlyObserve(phases[..|phases| - 1], i); }
  }

  /** What the decision does after the checks before the observe have had no answer. */
  ghost function FromObserve(f: Frame, s: S, def: Def, desired: map<string, string>, phases: seq<Phase>,
      i: nat): R<Option<Result>>
    requires i < |phases|
  {
    var o := EvalObserve(In(f, ObservePhase), s, phases[i].stmts);
    if !o.out.Val? then o.PropagateFailure<Option<Result>>()
    else if Converged(Observed(o.out.v), desired) then R(Val(Some(Verdict(OK, "already"))), o.s)
    else EvalDecide(f, o.s, def, desired, phases[i + 1..])
  }

  ghost function Then(c: R<Option<Result>>, def: Def, mode: Mode, next: R<Option<Result>>): R<Option<Result>> {
    if !c.out.Val? then c
    else if c.out.v.Some? then R(Val(Some(Softened(def, mode, c.out.v.value))), c.s)
    else next
  }

  /** The decision is the checks before the observe, then the observe. */
  lemma {:induction false} DecideAt(f: Frame, s: S, def: Def, desired: map<string, string>, phases: seq<Phase>, i: nat)
    requires i < |phases| && phases[i].name == ObservePhase
    requires forall j :: 0 <= j < i ==> phases[j].name != ObservePhase
    ensures var c := EvalNamed(f, s, CheckPhase, phases[..i]);
            EvalDecide(f, s, def, desired, phases) == Then(c, def, f.mode, FromObserve(f, c.s, def, desired, phases, i))
    decreases i
  {
    if i > 0 {
      assert phases[..i][0] == phases[0] && phases[..i][1..] == phases[1..][..i - 1];
      assert phases[1..][i - 1] == phases[i] && phases[1..][i..] == phases[i + 1..];
      if phases[0].name == CheckPhase {
        var r := RunPhase(f, s, phases[0]);
        if r.out.Val? && r.out.v.None? { DecideAt(f, r.s, def, desired, phases[1..], i - 1); }
      } else {
        DecideAt(f, s, def, desired, phases[1..], i - 1);
      }
    } else {
      assert phases[..0] == [];
    }
  }

  // --- confirmation ---

  /** What the run knows when its apply is done: the target values, the applied state. */
  datatype Applied = Applied(desired: map<string, string>, r: R<Result>)

  /** The apply pass of a run that reached it. */
  ghost function ApplyPass(f: Frame, sys: Sys, def: Def, a: Args, with: map<string, string>): Option<Applied> {
    var g := Inside(f, def);
    var p := EvalPrologue(g, sys, def, a, with);
    var desired := Desired(p.s.vars, def.params);
    var d := EvalDecide(g, p.s, def, desired, def.phases);
    if !p.out.Val? || d.out != Val(None) then None
    else Some(Applied(desired, EvalApplies(g, d.s.(acted := false), def.phases)))
  }

  /** The observe read again on the state the apply left. */
  ghost function ReRead(f: Frame, def: Def, i: nat, s: S): R<Option<map<string, string>>>
    requires i < |def.phases|
  {
    EvalObserve(In(Inside(f, def), ObservePhase), s, def.phases[i].stmts)
  }

  ghost predicate ChangedOk(r: Finished) {
    r.Done? && r.res.category == OK && r.res.changed
  }

  /** An apply that acted and succeeded, on a state the second reading supports. */
  ghost predicate SeenConverged(f: Frame, sys: Sys, def: Def, i: nat, a: Args, with: map<string, string>)
    requires i < |def.phases|
  {
    var p := ApplyPass(f, sys, def, a, with);
    && p.Some? && p.value.r.out.Val? && p.value.r.out.v.category == OK && p.value.r.s.acted
    && var m := ReRead(f, def, i, p.value.r.s);
       m.out.Val? && Converged(Observed(m.out.v), p.value.desired)
  }

  /** A run that does not reach its apply changes nothing. */
  lemma NoPassNoChange(f: Frame, sys: Sys, def: Def, a: Args, with: map<string, string>)
    requires def.delegate.None? && f.mode == Apply && ApplyPass(f, sys, def, a, with).None?
    ensures !ChangedOk(EvalDef(f, sys, def, a, with).0)
  {
    var g := Inside(f, def);
    var p := EvalPrologue(g, sys, def, a, with);
    if p.out.Val? { DecideOver(g, p.s, def, Desired(p.s.vars, def.params), def.phases, map[]); }
  }

  /** A run that reaches it ends with the confirmation. */
  lemma PassThenConfirm(f: Frame, sys: Sys, def: Def, a: Args, with: map<string, string>)
    requires def.delegate.None? && f.mode == Apply && ApplyPass(f, sys, def, a, with).Some?
    ensures var p := ApplyPass(f, sys, def, a, with).value;
            var c :=
              EvalConfirm(Inside(f, def), p.r.s, def, p.desired, if p.r.out.Val? then p.r.out.v else Verdict(ERR, ""));
            EvalDef(f, sys, def, a, with) == if p.r.out.Val? then (Settle(c), c.s.sys) else (Settle(p.r), p.r.s.sys)
    ensures var p := ApplyPass(f, sys, def, a, with).value; p.r.out.Val? ==> !p.r.out.v.changed
  {
    var g := Inside(f, def);
    var p := EvalPrologue(g, sys, def, a, with);
    var d := EvalDecide(g, p.s, def, Desired(p.s.vars, def.params), def.phases);
    NamedOver(g, d.s.(acted := false), ApplyPhase, def.phases, map[]);
  }

  lemma ConfirmReads(f: Frame, s: S, def: Def, i: nat, desired: map<string, string>, r: Result)
    requires OneObserve(def, i)
    ensures var c, m := EvalConfirm(Inside(f, def), s, def, desired, r), ReRead(f, def, i, s);
            c == if r.category != OK || !s.acted then R(Val(r), s)
                 else if m.out.Val? then R(Val(Confirmed(r.(changed := true), Observed(m.out.v), desired)), m.s)
                 else m.PropagateFailure<Result>()
  {
    OnlyObserve(def.phases, i);
  }

  /** The verdict is ok and changed exactly when an apply acted, succeeded, and the re-read
      state is the desired one; the run ends with that reading. */
  lemma ChangedIsConfirmed(f: Frame, sys: Sys, def: Def, i: nat, a: Args, with: map<string, string>)
    requires OneObserve(def, i) && f.mode == Apply
    ensures ChangedOk(EvalDef(f, sys, def, a, with).0) <==> SeenConverged(f, sys, def, i, a, with)
    ensures SeenConverged(f, sys, def, i, a, with) ==>
            EvalDef(f, sys, def, a, with).1 == ReRead(f, def, i, ApplyPass(f, sys, def, a, with).value.r.s).s.sys
  {
    if ApplyPass(f, sys, def, a, with).None? {
      NoPassNoChange(f, sys, def, a, with);
    } else {
      PassThenConfirm(f, sys, def, a, with);
      var p := ApplyPass(f, sys, def, a, with).value;
      if p.r.out.Val? { ConfirmReads(f, p.r.s, def, i, p.desired, p.r.out.v); }
    }
  }

  /** A success the state does not support is refused, naming exactly the fields that did
      not move. */
  lemma UnconfirmedNamesTheRest(f: Frame, sys: Sys, def: Def, i: nat, a: Args, with: map<string, string>)
    requires OneObserve(def, i) && f.mode == Apply
    requires var p := ApplyPass(f, sys, def, a, with);
             p.Some? && p.value.r.out.Val? && p.value.r.out.v.category == OK && p.value.r.s.acted &&
             ReRead(f, def, i, p.value.r.s).out.Val?
    requires !SeenConverged(f, sys, def, i, a, with)
    ensures var p := ApplyPass(f, sys, def, a, with).value;
            var missed := Missed(DiffFields(Observed(ReRead(f, def, i, p.r.s).out.v), p.desired));
            missed != [] && EvalDef(f, sys, def, a, with).0 == Done(Verdict(ERR, "unconfirmed").(fields := missed))
  {
    PassThenConfirm(f, sys, def, a, with);
    var p := ApplyPass(f, sys, def, a, with).value;
    ConfirmReads(f, p.r.s, def, i, p.desired, p.r.out.v);
    DiffAgrees(Observed(ReRead(f, def, i, p.r.s).out.v), p.desired);
  }

  // --- the second run ---

  /** s2 shows the same world and the same values of those names as s1, and holds no bytes
      that s1 does not. */
  ghost predicate SameView(names: set<string>, s1: S, s2: S) {
    && s1.sys.w == s2.sys.w
    && (forall k :: k in names ==> k in s1.vars && k in s2.vars && s1.vars[k] == s2.vars[k])
    && (forall k :: k in s2.vars && s2.vars[k].VBytes? ==> k in s1.vars && s1.vars[k].VBytes?)
  }

  /** The observe changes nothing and depends on nothing but the world and those names. */
  ghost predicate ReadsOnly(f: Frame, stmts: seq<Stmt>, names: set<string>) {
    && (forall s :: EvalObserve(f, s, stmts).s.sys.w == s.sys.w)
    && (forall s1, s2 :: SameView(names, s1, s2) && EvalObserve(f, s1, stmts).out.Val? ==>
          EvalObserve(f, s2, stmts).out == EvalObserve(f, s1, stmts).out)
  }

  /** What is in scope when the observe starts. */
  ghost function Scope(f: Frame, sys: Sys, def: Def, i: nat, a: Args, with: map<string, string>): Vars
    requires i <= |def.phases|
  {
    Checked(f, sys, Upto(def, i), a, with).s.vars
  }

  /** Nothing from the observe on rebinds a name the observe could read. */
  ghost predicate NoShadowing(def: Def, i: nat, names: set<string>)
    requires i <= |def.phases|
  {
    PhasesLets(def.phases[i..]) !! names && NamedLets(def.phases, ApplyPhase) !! names
  }

  /** The bindings of the first reading are still there for the second. */
  lemma ScopeKept(f: Frame, sys: Sys, def: Def, i: nat, a: Args, with: map<string, string>)
    requires OneObserve(def, i)
    requires NoShadowing(def, i, Scope(f, sys, def, i, a, with).Keys)
    requires ApplyPass(f, sys, def, a, with).Some?
    ensures Over(Scope(f, sys, def, i, a, with), ApplyPass(f, sys, def, a, with).value.r.s)
    ensures Checked(f, sys, Upto(def, i), a, with).out == Val(None)
  {
    var g := Inside(f, def);
    var p := EvalPrologue(g, sys, def, a, with);
    var desired := Desired(p.s.vars, def.params);
    var v0 := Scope(f, sys, def, i, a, with);
    DecideAt(g, p.s, def, desired, def.phases, i);
    var c := EvalNamed(g, p.s, CheckPhase, def.phases[..i]);
    assert c == Checked(f, sys, Upto(def, i), a, with);
    assert def.phases[i..][0] == def.phases[i] && def.phases[i..][1..] == def.phases[i + 1..];
    ObserveOver(In(g, ObservePhase), c.s, def.phases[i].stmts, v0);
    var o := EvalObserve(In(g, ObservePhase), c.s, def.phases[i].stmts);
    DecideOver(g, o.s, def, desired, def.phases[i + 1..], v0);
    var d := EvalDecide(g, p.s, def, desired, def.phases);
    NamedOver(g, d.s.(acted := false), ApplyPhase, def.phases, v0);
  }

  /** The reading a run makes before it decides, and the values it compares it with. */
  ghost function Reading(f: Frame, sys: Sys, def: Def, i: nat, a: Args,
      with: map<string, string>): R<Option<map<string, string>>>
    requires i < |def.phases|
  {
    ReRead(f, def, i, Checked(f, sys, Upto(def, i), a, with).s)
  }

  ghost function Wanted(f: Frame, sys: Sys, def: Def, a: Args, with: map<string, string>): map<string, string> {
    Desired(EvalPrologue(Inside(f, def), sys, def, a, with).s.vars, def.params)
  }

  /** What makes a change hold: an observe that only reads what nothing after it rebinds. */
  ghost predicate Lasting(f: Frame, sys: Sys, def: Def, i: nat, a: Args, with: map<string, string>)
    requires i < |def.phases|
  {
    var names := Scope(f, sys, def, i, a, with).Keys;
    NoShadowing(def, i, names) && ReadsOnly(In(Inside(f, def), ObservePhase), def.phases[i].stmts, names)
  }

  /** From the world a confirmed change left, the next reading is the desired state. */
  lemma NextReading(f: Frame, sys: Sys, sys2: Sys, def: Def, i: nat, a: Args, with: map<string, string>)
    requires OneObserve(def, i) && PureFront(Upto(def, i)) && f.mode == Apply
    requires ChangedOk(EvalDef(f, sys, def, a, with).0) && Lasting(f, sys, def, i, a, with)
    requires sys2.w == EvalDef(f, sys, def, a, with).1.w
    ensures var m := Reading(f, sys2, def, i, a, with);
            m.out.Val? && Converged(Observed(m.out.v), Wanted(f, sys2, def, a, with)) && m.s.sys.w == sys2.w
    ensures Checked(f, sys2, Upto(def, i), a, with).out == Val(None)
  {
    var v0 := Scope(f, sys, def, i, a, with);
    ChangedIsConfirmed(f, sys, def, i, a, with);
    ScopeKept(f, sys, def, i, a, with);
    var s1 := ApplyPass(f, sys, def, a, with).value.r.s;
    CheckedSame(f, sys, f, sys2, Upto(def, i), a, with);
    var c := Checked(f, sys2, Upto(def, i), a, with);
    assert SameView(v0.Keys, s1, c.s) by { assert Over(v0, s1) && c.s.vars == v0; }
  }

  /** A confirmed change holds on the next run: from the world the first run left, whatever
      the control host answers, the same call finds the state converged, returns ok.already,
      and does nothing but look. */
  lemma SecondRunConverged(f: Frame, sys: Sys, sys2: Sys, def: Def, i: nat, a: Args, with: map<string, string>)
    requires OneObserve(def, i) && PureFront(Upto(def, i)) && f.mode == Apply
    requires ChangedOk(EvalDef(f, sys, def, a, with).0) && Lasting(f, sys, def, i, a, with)
    requires sys2.w == EvalDef(f, sys, def, a, with).1.w
    ensures EvalDef(f, sys2, def, a, with) == (Done(Verdict(OK, "already")), Reading(f, sys2, def, i, a, with).s.sys)
    ensures EvalDef(f, sys2, def, a, with).1.w == sys2.w
  {
    NextReading(f, sys, sys2, def, i, a, with);
    var p := EvalPrologue(Inside(f, def), sys2, def, a, with);
    assert Checked(f, sys2, Upto(def, i), a, with) == EvalNamed(Inside(f, def), p.s, CheckPhase, def.phases[..i]);
    DecideAt(Inside(f, def), p.s, def, Wanted(f, sys2, def, a, with), def.phases, i);
  }
}
