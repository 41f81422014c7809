/** A whole run over a fleet: targets and limits refused before anything is dialled, blocks
    one after the other, and a host that failed left alone afterwards. */
module Orchestrator {
  import opened Basics
  import opened Plan
  import opened Resolve
  import Eval
  import Fleet
  import Runner

  datatype Block = Block(target: string, steps: seq<Step>)

  datatype HostInfo = HostInfo(address: string, user: string, port: string, interp: string, vars: map<string, string>)

  /** `groups` and `hosts` as declared, defaults merged in. */
  datatype Inventory = Inventory(groups: map<string, seq<string>>, hosts: map<string, HostInfo>)

  datatype Response = Response(error: string, results: seq<Runner.StepResult>)

  /** What came of one host in one block. */
  datatype Out = Disagrees | NoRequest | Unreachable | Replied(response: Response)

  datatype HostOutcome = HostOutcome(host: string, out: Out)

  datatype BlockError = UnknownTarget(name: string) | UnknownLimit(name: string) | EmptyLimit

  datatype BlockReport = BlockReport(target: string, hosts: seq<HostOutcome>, error: Option<BlockError>)

  /** A run: its plan and inventory, the plan-side tables, the limit, and how each host would
      answer in each block. */
  datatype Run = Run(
    plan: seq<Block>,
    inv: Inventory,
    base: map<string, string>,
    set_: map<string, string>,
    limit: seq<string>,
    valid: seq<Step> -> bool,
    answer: (nat, string) -> Option<Response>)

  // --- the host's table ---

  const INV := "inventory."

  function Fields(prefix: string, alias: string, h: HostInfo, but: set<string>): map<string, string> {
    map[prefix + "name" := alias, prefix + "address" := h.address, prefix + "user" := h.user, prefix + "port" := h.port]
    + Prefixed(prefix, h.vars, but)
  }

  function Prefixed(prefix: string, vars: map<string, string>, but: set<string>): map<string, string> {
    var names := set k | k in vars && k !in but :: prefix + k;
    map n | n in names && n[|prefix|..] in vars :: vars[n[|prefix|..]]
  }

  /** `mergeEnv` and `addInventoryFields`; what other hosts declare is `cross`. */
  function HostEnv(r: Run, alias: string, cross: map<string, string>): map<string, string> {
    var own := if alias in r.inv.hosts then Fields(INV, alias, r.inv.hosts[alias], {}) else map[];
    r.base + r.set_ + own + cross
  }

  function HostInterp(r: Run, alias: string): string {
    if alias in r.inv.hosts then r.inv.hosts[alias].interp else ""
  }

  // --- members and limits ---

  function Members(inv: Inventory, target: string): Option<seq<string>> {
    if target in inv.groups then Some(inv.groups[target])
    else if target in inv.hosts then Some([target])
    else None
  }

  function MembersOf(inv: Inventory, target: string): seq<string> {
    var m := Members(inv, target);
    if m.Some? then m.value else []
  }

  /** The targets nobody declares, in plan order, each once. */
  function Unknown(plan: seq<Block>, inv: Inventory, seen: set<string>): seq<string> {
    if plan == [] then []
    else
      var t := plan[0].target;
      if Members(inv, t).Some? || t in seen then Unknown(plan[1..], inv, seen)
      else [t] + Unknown(plan[1..], inv, seen + {t})
  }

  datatype Limit = Everyone | Only(allowed: set<string>) | Bad(name: string)

  function LimitFrom(limit: seq<string>, inv: Inventory, sofar: set<string>): Limit {
    if limit == [] then Only(sofar)
    else match Members(inv, limit[0])
      case None => Bad(limit[0])
      case Some(m) => LimitFrom(limit[1..], inv, sofar + Elems(m))
  }

  /** `resolveLimit`: no limit at all is not an empty one. */
  function ResolveLimit(r: Run): Limit {
    if r.limit == [] then Everyone else LimitFrom(r.limit, r.inv, {})
  }

  predicate Allows(l: Limit, host: string) {
    l.Everyone? || (l.Only? && host in l.allowed)
  }

  function Live(members: seq<string>, l: Limit, dead: set<string>): seq<string> {
    if members == [] then []
    else (if Allows(l, members[0]) && members[0] !in dead then [members[0]] else []) + Live(members[1..], l, dead)
  }

  predicate Intersects(members: seq<string>, l: Limit) {
    exists m :: m in members && Allows(l, m)
  }

  /** `interpAgreement`: unannotated shells need one interpreter. */
  predicate Agree(r: Run, live: seq<string>, steps: seq<Step>) {
    Unannotated(steps) ==> forall i, j :: 0 <= i < |live| && 0 <= j < |live| ==>
      Effective(HostInterp(r, live[i])) == Effective(HostInterp(r, live[j]))
  }

  // --- blocks ---

  predicate FailedResponse(p: Response) {
    p.error != "" || exists x :: x in p.results && x.cat.SErr?
  }

  /** An outcome that keeps the host out of the rest of the run. */
  predicate Fatal(o: Out) {
    !o.Replied? || FailedResponse(o.response)
  }

  predicate Dialled(o: Out) {
    o.Unreachable? || o.Replied?
  }

  /** The request of one host: its steps resolved against its own table, and checked. */
  ghost function Request(r: Run, steps: seq<Step>, alias: string, cross: map<string, string>): Option<seq<Step>> {
    var s := ResolveSteps(steps, HostEnv(r, alias, cross), HostInterp(r, alias));
    if s.Some? && r.valid(s.value) then s else None
  }

  ghost function Outcome(r: Run, b: nat, alias: string, cross: map<string, string>): Out
    requires b < |r.plan|
  {
    if Request(r, r.plan[b].steps, alias, cross).None? then NoRequest
    else match r.answer(b, alias)
      case None => Unreachable
      case Some(p) => Replied(p)
  }

  ghost function Hosts(r: Run, b: nat, live: seq<string>, agree: bool, cross: map<string, string>): seq<HostOutcome>
    requires b < |r.plan|
  {
    if live == [] then []
    else
      var first := HostOutcome(live[0], if agree then Outcome(r, b, live[0], cross) else Disagrees);
      [first] + Hosts(r, b, live[1..], agree, cross)
  }

  ghost function OneBlock(r: Run, b: nat, l: Limit, dead: set<string>, cross: map<string, string>): BlockReport
    requires b < |r.plan|
  {
    var block := r.plan[b];
    var members := MembersOf(r.inv, block.target);
    var live := Live(members, l, dead);
    if l.Only? && members != [] && !Intersects(members, l) then BlockReport(block.target, [], Some(EmptyLimit))
    else BlockReport(block.target, Hosts(r, b, live, Agree(r, live, block.steps), cross), None)
  }

  function Deaths(hosts: seq<HostOutcome>): set<string> {
    set h | h in hosts && Fatal(h.out) :: h.host
  }

  /** What a block reports, given the hosts that are dead by then. */
  type BlockStep = (nat, set<string>) -> BlockReport

  /** The blocks from b to n, one after the other. */
  ghost function Blocks(step: BlockStep, n: nat, b: nat, dead: set<string>): seq<BlockReport>
    requires b <= n
    decreases n - b
  {
    if b == n then []
    else
      var report := step(b, dead);
      [report] + Blocks(step, n, b + 1, dead + Deaths(report.hosts))
  }

  ghost function Stepping(r: Run, l: Limit, cross: map<string, string>): BlockStep {
    (b: nat, dead: set<string>) => if b < |r.plan| then OneBlock(r, b, l, dead, cross) else BlockReport("", [], None)
  }

  function Refusals(names: seq<string>): seq<BlockReport> {
    if names == [] then [] else [BlockReport(names[0], [], Some(UnknownTarget(names[0])))] + Refusals(names[1..])
  }

  /** How a run ends: its reports, or an index past the end of the plan. */
  datatype End = Reported(reports: seq<BlockReport>) | Crashed

  /** A run. An unknown limit is reported on the first block, which an empty plan lacks. */
  ghost function RunEnd(r: Run, cross: map<string, string>): End {
    var bad := Unknown(r.plan, r.inv, {});
    if bad != [] then Reported(Refusals(bad))
    else match ResolveLimit(r)
      case Bad(name) =>
        if r.plan == [] then Crashed
        else Reported([BlockReport(r.plan[0].target, [], Some(UnknownLimit(name)))])
      case l => Reported(Blocks(Stepping(r, l, cross), |r.plan|, 0, {}))
  }

  /** The reports of a run that has some. */
  ghost function Reports(r: Run, cross: map<string, string>): seq<BlockReport> {
    var end := RunEnd(r, cross);
    if end.Reported? then end.reports else []
  }

  // --- the loops ---

  method UnknownTargets(r: Run) returns (bad: seq<string>)
    ensures bad == Unknown(r.plan, r.inv, {})
  {
    bad := [];
    var seen: set<string> := {};
    var i := 0;
    while i < |r.plan|
      invariant i <= |r.plan| && bad + Unknown(r.plan[i..], r.inv, seen) == Unknown(r.plan, r.inv, {})
    {
      var t := r.plan[i].target;
      assert r.plan[i..][0] == r.plan[i] && r.plan[i..][1..] == r.plan[i + 1..];
      if Members(r.inv, t).None? && t !in seen {
        assert (bad + [t]) + Unknown(r.plan[i + 1..], r.inv, seen + {t}) ==
               bad + ([t] + Unknown(r.plan[i + 1..], r.inv, seen + {t}));
        bad, seen := bad + [t], seen + {t};
      }
      i := i + 1;
    }
    assert bad + [] == bad;
  }

  method LimitLoop(r: Run) returns (l: Limit)
    ensures l == ResolveLimit(r)
  {
    if r.limit == [] { return Everyone; }
    var allowed: set<string> := {};
    var i := 0;
    while i < |r.limit|
      invariant i <= |r.limit| && LimitFrom(r.limit[i..], r.inv, allowed) == LimitFrom(r.limit, r.inv, {})
    {
      assert r.limit[i..][0] == r.limit[i] && r.limit[i..][1..] == r.limit[i + 1..];
      var m := Members(r.inv, r.limit[i]);
      if m.None? { return Bad(r.limit[i]); }
      allowed := allowed + Elems(m.value);
      i := i + 1;
    }
    return Only(allowed);
  }

  method LiveLoop(members: seq<string>, l: Limit, dead: set<string>) returns (live: seq<string>)
    ensures live == Live(members, l, dead)
  {
    live := [];
    var i := 0;
    while i < |members|
      invariant i <= |members| && live + Live(members[i..], l, dead) == Live(members, l, dead)
    {
      assert members[i..][0] == members[i] && members[i..][1..] == members[i + 1..];
      if Allows(l, members[i]) && members[i] !in dead {
        assert (live + [members[i]]) + Live(members[i + 1..], l, dead) ==
               live + ([members[i]] + Live(members[i + 1..], l, dead));
        live := live + [members[i]];
      } else {
        assert [] + Live(members[i + 1..], l, dead) == Live(members[i + 1..], l, dead);
      }
      i := i + 1;
    }
    assert live + [] == live;
  }

  /** The interpreters seen, by name: more than one is a disagreement. */
  method AgreeLoop(r: Run, live: seq<string>, steps: seq<Step>) returns (ok: bool)
    ensures ok == Agree(r, live, steps)
  {
    if !Unannotated(steps) { return true; }
    var i := 0;
    while i < |live|
      invariant i <= |live|
      invariant forall j :: 0 <= j < i ==> Effective(HostInterp(r, live[j])) == Effective(HostInterp(r, live[0]))
    {
      if Effective(HostInterp(r, live[i])) != Effective(HostInterp(r, live[0])) { return false; }
      i := i + 1;
    }
    return true;
  }

  method OneHost(r: Run, b: nat, alias: string, cross: map<string, string>) returns (o: Out)
    requires b < |r.plan|
    ensures o == Outcome(r, b, alias, cross)
  {
    var steps := ResolveRefs(r.plan[b].steps, HostEnv(r, alias, cross), HostInterp(r, alias));
    if steps.None? || !r.valid(steps.value) { return NoRequest; }
    var p := r.answer(b, alias);
    return if p.None? then Unreachable else Replied(p.value);
  }

  /** The outcomes of a block, one for each live host. */
  method FanOut(r: Run, b: nat, live: seq<string>, agree: bool, cross: map<string, string>)
      returns (hosts: seq<HostOutcome>)
    requires b < |r.plan|
    ensures hosts == Hosts(r, b, live, agree, cross)
  {
    hosts := [];
    var i := 0;
    while i < |live|
      invariant i <= |live| && hosts + Hosts(r, b, live[i..], agree, cross) == Hosts(r, b, live, agree, cross)
    {
      assert live[i..][0] == live[i] && live[i..][1..] == live[i + 1..];
      var o := Disagrees;
      if agree { o := OneHost(r, b, live[i], cross); }
      assert (hosts + [HostOutcome(live[i], o)]) + Hosts(r, b, live[i + 1..], agree, cross) ==
             hosts + ([HostOutcome(live[i], o)] + Hosts(r, b, live[i + 1..], agree, cross));
      hosts := hosts + [HostOutcome(live[i], o)];
      i := i + 1;
    }
    assert hosts + [] == hosts;
  }

  method BlockLoop(r: Run, b: nat, l: Limit, dead: set<string>, cross: map<string, string>)
      returns (report: BlockReport)
    requires b < |r.plan|
    ensures report == Stepping(r, l, cross)(b, dead)
  {
    var block := r.plan[b];
    var members := MembersOf(r.inv, block.target);
    var live := LiveLoop(members, l, dead);
    if l.Only? && members != [] && !Intersects(members, l) { return BlockReport(block.target, [], Some(EmptyLimit)); }
    var agree := AgreeLoop(r, live, block.steps);
    var hosts := FanOut(r, b, live, agree, cross);
    return BlockReport(block.target, hosts, None);
  }

  /** `Run`. */
  method RunPlan(r: Run, cross: map<string, string>) returns (end: End)
    ensures end == RunEnd(r, cross)
  {
    var bad := UnknownTargets(r);
    if bad != [] { return Reported(Refusals(bad)); }
    var l := LimitLoop(r);
    if l.Bad? {
      if r.plan == [] { return Crashed; }
      return Reported([BlockReport(r.plan[0].target, [], Some(UnknownLimit(l.name)))]);
    }
    var reports := AllBlocks(r, l, cross);
    return Reported(reports);
  }

  /** The blocks in turn, and who is dead. */
  method AllBlocks(r: Run, l: Limit, cross: map<string, string>) returns (reports: seq<BlockReport>)
    ensures reports == Blocks(Stepping(r, l, cross), |r.plan|, 0, {})
  {
    var dead: set<string> := {};
    reports := [];
    var b := 0;
    ghost var step := Stepping(r, l, cross);
    while b < |r.plan|
      invariant b <= |r.plan| && step == Stepping(r, l, cross)
      invariant reports + Blocks(step, |r.plan|, b, dead) == Blocks(step, |r.plan|, 0, {})
    {
      var report := BlockLoop(r, b, l, dead, cross);
      BlocksNext(step, |r.plan|, b, dead, reports, report);
      reports, dead := reports + [report], dead + Deaths(report.hosts);
      b := b + 1;
    }
    assert reports + [] == reports;
  }

  lemma BlocksNext(step: BlockStep, n: nat, b: nat, dead: set<string>, done: seq<BlockReport>, report: BlockReport)
    requires b < n && report == step(b, dead)
    ensures done + Blocks(step, n, b, dead) == (done + [report]) + Blocks(step, n, b + 1, dead + Deaths(report.hosts))
  {
    var rest := Blocks(step, n, b + 1, dead + Deaths(report.hosts));
    assert Blocks(step, n, b, dead) == [report] + rest;
    assert (done + [report]) + rest == done + ([report] + rest);
  }

  // --- what a run promises ---

  /** The hosts that failed in one of the first reports. */
  ghost function DeadAfter(reports: seq<BlockReport>, k: nat): set<string>
    requires k <= |reports|
  {
    if k == 0 then {} else DeadAfter(reports, k - 1) + Deaths(reports[k - 1].hosts)
  }

  lemma {:induction false} DeadShift(reports: seq<BlockReport>, k: nat)
    requires 0 < k <= |reports|
    ensures DeadAfter(reports, k) == Deaths(reports[0].hosts) + DeadAfter(reports[1..], k - 1)
    decreases k
  {
    if k > 1 { DeadShift(reports, k - 1); }
  }

  /** Block k runs against what the blocks before it left alive. */
  lemma {:induction false} BlockAt(step: BlockStep, n: nat, b: nat, dead: set<string>, k: nat)
    requires b <= n
    ensures |Blocks(step, n, b, dead)| == n - b
    ensures b + k < n ==> Blocks(step, n, b, dead)[k] == step(b + k, dead + DeadAfter(Blocks(step, n, b, dead), k))
    decreases n - b
  {
    if b < n {
      var all := Blocks(step, n, b, dead);
      var next := dead + Deaths(step(b, dead).hosts);
      var rest := Blocks(step, n, b + 1, next);
      assert all[1..] == rest;
      BlockAt(step, n, b + 1, next, if k > 0 then k - 1 else 0);
      if 0 < k && b + k < n {
        DeadShift(all, k);
        assert dead + DeadAfter(all, k) == next + DeadAfter(rest, k - 1);
      } else {
        assert dead + {} == dead;
      }
    }
  }

  lemma {:induction false} LiveIs(members: seq<string>, l: Limit, dead: set<string>)
    ensures forall h :: h in Live(members, l, dead) <==> h in members && Allows(l, h) && h !in dead
    decreases |members|
  {
    if members != [] {
      LiveIs(members[1..], l, dead);
      assert forall h :: h in members <==> h == members[0] || h in members[1..];
    }
  }

  lemma {:induction false} HostsAre(r: Run, b: nat, live: seq<string>, agree: bool, cross: map<string, string>)
    requires b < |r.plan|
    ensures |Hosts(r, b, live, agree, cross)| == |live|
    ensures forall i :: 0 <= i < |live| ==>
              Hosts(r, b, live, agree, cross)[i] ==
                HostOutcome(live[i], if agree then Outcome(r, b, live[i], cross) else Disagrees)
    decreases |live|
  {
    if live != [] { HostsAre(r, b, live[1..], agree, cross); }
  }

  /** The host has an outcome in the report. */
  ghost predicate Reached(report: BlockReport, h: string) {
    exists o :: o in report.hosts && o.host == h
  }

  ghost predicate FailedIn(report: BlockReport, h: string) {
    exists o :: o in report.hosts && o.host == h && Fatal(o.out)
  }

  lemma {:induction false} DeadMeansFailed(reports: seq<BlockReport>, k: nat, h: string)
    requires k <= |reports|
    ensures h in DeadAfter(reports, k) <==> exists j :: 0 <= j < k && FailedIn(reports[j], h)
    decreases k
  {
    if k > 0 {
      DeadMeansFailed(reports, k - 1, h);
      if h in Deaths(reports[k - 1].hosts) { assert FailedIn(reports[k - 1], h); }
    }
  }

  lemma OneBlockReaches(r: Run, b: nat, l: Limit, dead: set<string>, cross: map<string, string>, h: string)
    requires b < |r.plan|
    ensures var report := OneBlock(r, b, l, dead, cross);
            Reached(report, h) <==> h in MembersOf(r.inv, r.plan[b].target) && Allows(l, h) && h !in dead
  {
    var report := OneBlock(r, b, l, dead, cross);
    var members := MembersOf(r.inv, r.plan[b].target);
    var live := Live(members, l, dead);
    LiveIs(members, l, dead);
    HostsAre(r, b, live, Agree(r, live, r.plan[b].steps), cross);
    if report.error.None? {
      if h in live {
        var i :| 0 <= i < |live| && live[i] == h;
        assert report.hosts[i].host == h && report.hosts[i] in report.hosts;
      }
    }
  }

  /** Block k of a run that is not refused. */
  lemma ReportAt(r: Run, cross: map<string, string>, k: nat)
    requires Unknown(r.plan, r.inv, {}) == [] && !ResolveLimit(r).Bad? && k < |r.plan|
    ensures |Reports(r, cross)| == |r.plan|
    ensures Reports(r, cross)[k] == Stepping(r, ResolveLimit(r), cross)(k, DeadAfter(Reports(r, cross), k))
  {
    BlockAt(Stepping(r, ResolveLimit(r), cross), |r.plan|, 0, {}, k);
    assert {} + DeadAfter(Reports(r, cross), k) == DeadAfter(Reports(r, cross), k);
  }

  /** Whole-run safety and completeness: block k reports exactly the members of its target the
      limit allows that failed in no earlier block; so a host that failed is never dialled
      again, and none outside the limit or the target is dialled at all. */
  lemma BlockReaches(r: Run, cross: map<string, string>, k: nat, h: string)
    requires Unknown(r.plan, r.inv, {}) == [] && !ResolveLimit(r).Bad? && k < |r.plan|
    ensures |Reports(r, cross)| == |r.plan|
    ensures var reports := Reports(r, cross);
            Reached(reports[k], h) <==>
              && h in MembersOf(r.inv, r.plan[k].target) && Allows(ResolveLimit(r), h)
              && !exists j :: 0 <= j < k && FailedIn(reports[j], h)
  {
    var reports := Reports(r, cross);
    ReportAt(r, cross, k);
    DeadMeansFailed(reports, k, h);
    OneBlockReaches(r, k, ResolveLimit(r), DeadAfter(reports, k), cross, h);
  }

  lemma {:induction false} RefusalsEmpty(names: seq<string>)
    ensures |Refusals(names)| == |names| && forall k :: 0 <= k < |names| ==>
              Refusals(names)[k].hosts == [] && Refusals(names)[k].error == Some(UnknownTarget(names[k]))
  {
    if names != [] { RefusalsEmpty(names[1..]); }
  }

  /** The plan has a block on that target. */
  ghost predicate Targets(plan: seq<Block>, t: string) {
    exists i :: 0 <= i < |plan| && plan[i].target == t
  }

  lemma TargetsSplit(plan: seq<Block>, t: string)
    requires plan != []
    ensures Targets(plan, t) <==> plan[0].target == t || Targets(plan[1..], t)
  {
    if i :| 0 <= i < |plan| && plan[i].target == t {
      if i > 0 { assert plan[1..][i - 1].target == t; }
    }
    if i :| 0 <= i < |plan[1..]| && plan[1..][i].target == t { assert plan[i + 1].target == t; }
  }

  lemma {:induction false} UnknownIs(plan: seq<Block>, inv: Inventory, seen: set<string>)
    ensures forall t :: t in Unknown(plan, inv, seen) <==> t !in seen && Members(inv, t).None? && Targets(plan, t)
    ensures Distinct(Unknown(plan, inv, seen))
    decreases |plan|
  {
    if plan != [] {
      var t := plan[0].target;
      var next := if Members(inv, t).Some? || t in seen then seen else seen + {t};
      var rest := Unknown(plan[1..], inv, next);
      UnknownIs(plan[1..], inv, next);
      forall x {:trigger Targets(plan, x)} ensures Targets(plan, x) <==> x == t || Targets(plan[1..], x) {
        TargetsSplit(plan, x);
      }
      if !(Members(inv, t).Some? || t in seen) {
        var all := [t] + rest;
        forall i, j | 0 <= i < |all| && 0 <= j < |all| ensures Apart(all, i, j) {
          assert Apart(rest, i - 1, j - 1);
          if 0 == i < j { assert all[j] in rest; }
        }
      }
    }
  }

  /** A run crashes exactly for an empty plan with a limit that names nobody. */
  lemma CrashesExactly(r: Run, cross: map<string, string>)
    ensures RunEnd(r, cross).Crashed? <==>
            r.plan == [] && exists i :: 0 <= i < |r.limit| && Members(r.inv, r.limit[i]).None?
  {
    UnknownIs(r.plan, r.inv, {});
    if Unknown(r.plan, r.inv, {}) != [] { assert Unknown(r.plan, r.inv, {})[0] in Unknown(r.plan, r.inv, {}); }
    LimitBad(r.limit, r.inv, {});
  }

  lemma {:induction false} LimitBad(limit: seq<string>, inv: Inventory, sofar: set<string>)
    ensures LimitFrom(limit, inv, sofar).Bad? <==> exists i :: 0 <= i < |limit| && Members(inv, limit[i]).None?
    decreases |limit|
  {
    if limit != [] && Members(inv, limit[0]).Some? {
      var next := sofar + Elems(Members(inv, limit[0]).value);
      LimitBad(limit[1..], inv, next);
      if i :| 0 <= i < |limit| && Members(inv, limit[i]).None? { assert limit[1..][i - 1] == limit[i]; }
      if i :| 0 <= i < |limit[1..]| && Members(inv, limit[1..][i]).None? { assert limit[i + 1] == limit[1..][i]; }
    }
  }

  /** A target or a limit nobody declares refuses the whole run: no host is dialled, and every
      unknown target is named once. */
  lemma UnknownDialsNobody(r: Run, cross: map<string, string>)
    requires (exists t :: Targets(r.plan, t) && Members(r.inv, t).None?) || ResolveLimit(r).Bad?
    ensures forall k, h :: 0 <= k < |Reports(r, cross)| ==> !Reached(Reports(r, cross)[k], h)
    ensures forall t :: Targets(r.plan, t) && Members(r.inv, t).None? ==>
              exists k :: 0 <= k < |Reports(r, cross)| && Reports(r, cross)[k].error == Some(UnknownTarget(t))
  {
    var bad := Unknown(r.plan, r.inv, {});
    UnknownIs(r.plan, r.inv, {});
    RefusalsEmpty(bad);
    forall t | Targets(r.plan, t) && Members(r.inv, t).None?
      ensures exists k :: 0 <= k < |Reports(r, cross)| && Reports(r, cross)[k].error == Some(UnknownTarget(t))
    {
      assert t in bad;
      var k :| 0 <= k < |bad| && bad[k] == t;
      assert Reports(r, cross)[k].error == Some(UnknownTarget(t));
    }
  }

  /** A limit names hosts and groups; it allows exactly their members. */
  lemma {:induction false} LimitAllows(limit: seq<string>, inv: Inventory, sofar: set<string>, h: string)
    ensures match LimitFrom(limit, inv, sofar)
            case Only(allowed) =>
              h in allowed <==> h in sofar || exists i :: 0 <= i < |limit| && h in MembersOf(inv, limit[i])
            case Bad(name) => name in limit && Members(inv, name).None?
            case Everyone => false
    decreases |limit|
  {
    if limit != [] && Members(inv, limit[0]).Some? {
      var m := Members(inv, limit[0]).value;
      LimitAllows(limit[1..], inv, sofar + Elems(m), h);
      if i :| 0 <= i < |limit| && h in MembersOf(inv, limit[i]) {
        if i > 0 { assert h in MembersOf(inv, limit[1..][i - 1]); }
      }
      if i :| 0 <= i < |limit[1..]| && h in MembersOf(inv, limit[1..][i]) { assert h in MembersOf(inv, limit[i + 1]); }
    }
  }

  /** Two hosts dialled in one block run every plan shell under the same interpreter. */
  lemma DialledHostsAgree(r: Run, b: nat, l: Limit, dead: set<string>, cross: map<string, string>, o1: HostOutcome,
      o2: HostOutcome)
    requires b < |r.plan| && AllPlainConds(r.plan[b].steps)
    requires var hosts := OneBlock(r, b, l, dead, cross).hosts;
             o1 in hosts && o2 in hosts && Dialled(o1.out) && Dialled(o2.out)
    ensures var s1, s2 := Request(r, r.plan[b].steps, o1.host, cross), Request(r, r.plan[b].steps, o2.host, cross);
            s1.Some? && s2.Some? && ShellInterps(s1.value) == ShellInterps(s2.value)
  {
    var steps := r.plan[b].steps;
    var live := Live(MembersOf(r.inv, r.plan[b].target), l, dead);
    HostsAre(r, b, live, Agree(r, live, steps), cross);
    SameInterpreters(steps, HostEnv(r, o1.host, cross), HostInterp(r, o1.host), HostEnv(r, o2.host, cross),
        HostInterp(r, o2.host));
  }

  /** `addCrossHostFields`: every host's fields under its alias, in the order a walk over the
      map meets them. */
  ghost function CrossFields(inv: Inventory, aliases: seq<string>): map<string, string>
    requires forall a :: a in aliases ==> a in inv.hosts
  {
    if aliases == [] then map[]
    else
      var a := aliases[|aliases| - 1];
      assert a in aliases;
      CrossFields(inv, aliases[..|aliases| - 1]) + Fields(INV + a + ".", a, inv.hosts[a], {"key"})
  }

  predicate DotFree(s: string) {
    forall i :: 0 <= i < |s| ==> s[i] != '.'
  }

  /** `isIdentStart` and `isIdentPart`. */
  predicate IdentStart(c: char) {
    c == '_' || 'a' <= c <= 'z' || 'A' <= c <= 'Z'
  }

  predicate Identifier(s: string) {
    && s != "" && IdentStart(s[0])
    && forall i :: 0 <= i < |s| ==> IdentStart(s[i]) || '0' <= s[i] <= '9' || s[i] == '-'
  }

  /** What the inventory's grammar gives: a host's alias and its fields' names are identifiers. */
  predicate ParsedInventory(inv: Inventory) {
    forall a :: a in inv.hosts ==> Identifier(a) && forall k :: k in inv.hosts[a].vars ==> Identifier(k)
  }

  lemma IdentifierHoldsNoDot(s: string)
    requires Identifier(s)
    ensures DotFree(s)
  {
  }

  lemma SameField(a: string, b: string)
    ensures INV + a == INV + b ==> a == b
  {
    assert (INV + a)[|INV|..] == a && (INV + b)[|INV|..] == b;
  }

  /** A field of a host holds no dot: it is one of the four the grammar knows, or an identifier. */
  lemma FieldHoldsNoDot(alias: string, h: HostInfo, field: string)
    requires INV + field in Fields(INV, alias, h, {}) && forall k :: k in h.vars ==> Identifier(k)
    ensures DotFree(field)
  {
    SameField(field, "name");
    SameField(field, "address");
    SameField(field, "user");
    SameField(field, "port");
    assert (INV + field)[|INV|..] == field;
    if field in h.vars { IdentifierHoldsNoDot(field); }
  }

  ghost predicate Declared(inv: Inventory, aliases: seq<string>) {
    ParsedInventory(inv) && forall a :: a in aliases ==> a in inv.hosts
  }

  lemma AliasesHoldNoDot(inv: Inventory, aliases: seq<string>)
    requires Declared(inv, aliases)
    ensures forall a :: a in aliases ==> a in inv.hosts && DotFree(a)
  {
    forall a | a in aliases ensures DotFree(a) { IdentifierHoldsNoDot(a); }
  }

  lemma FieldPrefix(prefix: string, alias: string, h: HostInfo, but: set<string>, k: string)
    requires k in Fields(prefix, alias, h, but)
    ensures prefix <= k
  {
  }

  /** The alias can be read back from a cross-host name. */
  lemma AliasOf(a: string, b: string, k: string)
    requires DotFree(a) && DotFree(b) && INV + a + "." <= k && INV + b + "." <= k
    ensures a == b
  {
    var p, q := INV + a + ".", INV + b + ".";
    assert k[|INV|..|INV| + |a|] == a && k[|INV| + |a|] == '.';
    assert k[|INV|..|INV| + |b|] == b && k[|INV| + |b|] == '.';
  }

  lemma NotUnder(a: string, field: string)
    requires DotFree(field)
    ensures !(INV + a + "." <= INV + field)
  {
    var p, k := INV + a + ".", INV + field;
    if |a| < |field| { assert k[|p| - 1] == field[|a|] && p[|p| - 1] == '.'; }
  }

  /** Aliases without dots do not collide, whatever the order of the walk. */
  lemma {:induction false} CrossFrom(inv: Inventory, aliases: seq<string>, k: string)
    requires forall a :: a in aliases ==> a in inv.hosts && DotFree(a)
    ensures forall a :: a in aliases && INV + a + "." <= k ==>
              var own := Fields(INV + a + ".", a, inv.hosts[a], {"key"});
              (k in CrossFields(inv, aliases) <==> k in own) && (k in own ==> CrossFields(inv, aliases)[k] == own[k])
    ensures k in CrossFields(inv, aliases) ==> exists a :: a in aliases && INV + a + "." <= k
    decreases |aliases|
  {
    if aliases != [] {
      var n := |aliases| - 1;
      var last := aliases[n];
      assert forall a :: a in aliases <==> a in aliases[..n] || a == last;
      CrossFrom(inv, aliases[..n], k);
      var own := Fields(INV + last + ".", last, inv.hosts[last], {"key"});
      if k in own { FieldPrefix(INV + last + ".", last, inv.hosts[last], {"key"}, k); }
      forall a | a in aliases && INV + a + "." <= k
        ensures var mine := Fields(INV + a + ".", a, inv.hosts[a], {"key"});
                (k in CrossFields(inv, aliases) <==> k in mine) &&
                  (k in mine ==> CrossFields(inv, aliases)[k] == mine[k])
      {
        if k in own || a == last { if INV + last + "." <= k { AliasOf(a, last, k); } }
        if a != last {
          assert a in aliases[..n];
        } else if k in CrossFields(inv, aliases[..n]) {
          var b :| b in aliases[..n] && INV + b + "." <= k;
          AliasOf(a, b, k);
        }
      }
    }
  }

  /** Whatever the order of the walk, a host's own cross-host fields are under its alias: no two
      hosts collide, as an alias is an identifier and holds no dot. */
  lemma CrossIs(inv: Inventory, aliases: seq<string>, k: string)
    requires Declared(inv, aliases)
    ensures forall a :: a in aliases && INV + a + "." <= k ==>
              var own := Fields(INV + a + ".", a, inv.hosts[a], {"key"});
              (k in CrossFields(inv, aliases) <==> k in own) && (k in own ==> CrossFields(inv, aliases)[k] == own[k])
    ensures k in CrossFields(inv, aliases) ==> exists a :: a in aliases && INV + a + "." <= k
  {
    AliasesHoldNoDot(inv, aliases);
    CrossFrom(inv, aliases, k);
  }

  lemma NotCross(inv: Inventory, aliases: seq<string>, field: string)
    requires Declared(inv, aliases) && DotFree(field)
    ensures INV + field !in CrossFields(inv, aliases)
  {
    CrossIs(inv, aliases, INV + field);
    forall a | a in aliases ensures !(INV + a + "." <= INV + field) { NotUnder(a, field); }
  }

  /** What the inventory says of a host is what `${inventory.<field>}` reads on it: neither the
      plan's own table, nor `--set`, nor any other host's fields change it. */
  lemma InventoryWins(r: Run, alias: string, aliases: seq<string>, field: string)
    requires Declared(r.inv, aliases) && alias in r.inv.hosts
    requires INV + field in Fields(INV, alias, r.inv.hosts[alias], {})
    ensures var own, env := Fields(INV, alias, r.inv.hosts[alias], {}), HostEnv(r, alias, CrossFields(r.inv, aliases));
            INV + field in env && env[INV + field] == own[INV + field]
  {
    FieldHoldsNoDot(alias, r.inv.hosts[alias], field);
    NotCross(r.inv, aliases, field);
  }

  /** And `${inventory.<alias>.<field>}` reads that host's field, from any host. */
  lemma CrossHostReads(r: Run, alias: string, other: string, aliases: seq<string>, k: string)
    requires Declared(r.inv, aliases) && other in aliases
    requires k in Fields(INV + other + ".", other, r.inv.hosts[other], {"key"})
    ensures var env := HostEnv(r, alias, CrossFields(r.inv, aliases));
            k in env && env[k] == Fields(INV + other + ".", other, r.inv.hosts[other], {"key"})[k]
  {
    FieldPrefix(INV + other + ".", other, r.inv.hosts[other], {"key"}, k);
    CrossIs(r.inv, aliases, k);
  }

  /** The fan-out of a block, in any order its workers finish, fills the report, and dials
      exactly the hosts the report says it dialled. */
  lemma FanOutFills(r: Run, b: nat, live: seq<string>, parallel: int, cross: map<string, string>,
      labels: seq<Fleet.Label>)
    requires b < |r.plan|
    requires var job := BlockJob(r, b, live, parallel, cross);
             var s := Fleet.RunFrom(job, Fleet.Init(job), labels);
             s.Some? && forall w :: w in s.value.workers ==> w.Finished?
    ensures var job := BlockJob(r, b, live, parallel, cross);
            var s := Fleet.RunFrom(job, Fleet.Init(job), labels).value;
            var hosts := Hosts(r, b, live, true, cross);
            && |s.slots| == |hosts| && (forall i :: 0 <= i < |hosts| ==> s.slots[i] == Some(hosts[i]))
            && (forall h :: h in s.dialled <==> DialledIn(hosts, h))
  {
    var job := BlockJob(r, b, live, parallel, cross);
    Fleet.AnyOrderSameResults(job, labels);
    HostsAre(r, b, live, true, cross);
    forall h ensures (h in live && job.request(h)) <==> DialledIn(Hosts(r, b, live, true, cross), h) {
      DialledAre(r, b, live, cross, h);
    }
  }

  ghost predicate DialledIn(hosts: seq<HostOutcome>, h: string) {
    exists i :: 0 <= i < |hosts| && hosts[i].host == h && Dialled(hosts[i].out)
  }

  lemma DialledAre(r: Run, b: nat, live: seq<string>, cross: map<string, string>, h: string)
    requires b < |r.plan|
    ensures DialledIn(Hosts(r, b, live, true, cross), h) <==> h in live && Request(r, r.plan[b].steps, h, cross).Some?
  {
    HostsAre(r, b, live, true, cross);
    var hosts := Hosts(r, b, live, true, cross);
    if h in live && Request(r, r.plan[b].steps, h, cross).Some? {
      var i :| 0 <= i < |live| && live[i] == h;
      assert hosts[i].host == h && Dialled(hosts[i].out);
    }
  }

  ghost function BlockJob(r: Run, b: nat, live: seq<string>, parallel: int,
      cross: map<string, string>): Fleet.Job<HostOutcome>
    requires b < |r.plan|
  {
    Fleet.Job(live, h => Request(r, r.plan[b].steps, h, cross).Some?,
              h => HostOutcome(h, Outcome(r, b, h, cross)), Fleet.Width(parallel))
  }

  // --- a caught error still counts ---

  ghost predicate ErredAt(c: Runner.Agent, exec: Eval.Exec, steps: seq<Step>, s: Runner.Rs, i: nat) {
    i < |steps| && Runner.FreeResult(c, exec, steps, i, s).cat.SErr?
  }

  /** A sequence that did not halt still fails its host exactly when one of its steps erred. */
  lemma CaughtStillFails(c: Runner.Agent, exec: Eval.Exec, steps: seq<Step>, s: Runner.Rs)
    requires !Runner.RunSteps(c, exec, steps, "", s).1
    ensures Fatal(Replied(Response("", Runner.RunSteps(c, exec, steps, "", s).0))) <==>
            exists i :: ErredAt(c, exec, steps, s, i)
  {
    Runner.HaltingRule(c, exec, steps, s);
    var results := Runner.RunSteps(c, exec, steps, "", s).0;
    forall i | 0 <= i < |results| ensures results[i].cat.SErr? <==> ErredAt(c, exec, steps, s, i) { }
    if x :| x in results && x.cat.SErr? {
      var i :| 0 <= i < |results| && results[i] == x;
      assert ErredAt(c, exec, steps, s, i);
    }
    if i: nat :| ErredAt(c, exec, steps, s, i) { assert results[i] in results; }
  }

  /** Such a step was always one the plan caught, and the next one handled it. */
  lemma ErredWasHandled(c: Runner.Agent, exec: Eval.Exec, steps: seq<Step>, s: Runner.Rs, i: nat)
    requires !Runner.RunSteps(c, exec, steps, "", s).1 && ErredAt(c, exec, steps, s, i)
    ensures steps[i].caught && i + 1 < |steps|
    ensures Runner.Handles(steps[i + 1], steps[i].bind, Runner.Free(c, exec, steps, i + 1, s).scope)
  {
    Runner.HaltingRule(c, exec, steps, s);
    assert Runner.Passes(c, exec, steps, i, s);
  }
}
