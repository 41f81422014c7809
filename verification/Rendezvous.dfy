/** The job rendezvous: files in a target's work directory, any number of agents that race for
    requests and may die at any step, and a control host that deposits, polls and removes. */
module Rendezvous {
  import opened Basics

  datatype Response = Full(text: string) | Short

  /** A file being written is not whole yet. */
  datatype File = File(r: Response, whole: bool)

  /** What the control host is doing about a job. */
  datatype Host =
    | NotSent
    | Sending
    | Polling
    | Seen
    | Returned(r: Response)
    | Removing(r: Response)
    | Consumed(r: Response)
    | GaveUp

  /** The files of one job and its history: `req-<id>.json`, its claimed name, the result's
      temporary name and final name, the marker; how often it ran, what the run answered, what
      was put in place as its result, and whether a cleanup took one of its files. */
  datatype Job = Job(
    req: bool,
    claim: bool,
    tmp: Option<File>,
    out: Option<File>,
    done: bool,
    host: Host,
    ran: nat,
    resp: Option<string>,
    result: Option<Response>,
    swept: bool)

  /** Where an agent is in its loop. */
  datatype Agent =
    | Idle
    | Listing(names: seq<nat>)
    | Claimed(id: nat)
    | Ready(id: nat)
    | Write(id: nat, r: Response)
    | Rename(id: nat, r: Response)
    | Mark(id: nat)
    | Consume(id: nat)
    | Cleaning
    | Dead

  datatype St = St(jobs: map<nat, Job>, agents: map<nat, Agent>)

  function NewJob(): Job {
    Job(false, false, None, None, false, NotSent, 0, None, None, false)
  }

  function J(s: St, id: nat): Job {
    if id in s.jobs then s.jobs[id] else NewJob()
  }

  function A(s: St, a: nat): Agent {
    if a in s.agents then s.agents[a] else Idle
  }

  function Init(): St {
    St(map[], map[])
  }

  function SetJob(s: St, id: nat, j: Job): St {
    s.(jobs := s.jobs[id := j])
  }

  function SetAgent(s: St, a: nat, pc: Agent): St {
    s.(agents := s.agents[a := pc])
  }

  function Both(s: St, a: nat, pc: Agent, id: nat, j: Job): St {
    SetAgent(SetJob(s, id, j), a, pc)
  }

  datatype Which = ReqFile | ClaimFile | TmpFile | OutFile | DoneFile

  datatype Label =
    | Deposit(id: nat)
    | Deposited(id: nat, moved: bool, error: bool)
    | Look(a: nat, names: seq<nat>)
    | Claim(a: nat)
    | Read(a: nat, ok: bool)
    | Execute(a: nat, text: string)
    | Spill(a: nat)
    | WriteTmp(a: nat, ok: bool)
    | RenameTmp(a: nat, ok: bool)
    | WriteDone(a: nat, ok: bool)
    | Forget(a: nat)
    | Crash(a: nat)
    | Expire(a: nat)
    | Sweep(a: nat, id: nat, which: Which)
    | Check(id: nat)
    | Cat(id: nat, dropped: bool)
    | RemoveOut(id: nat, ok: bool)
    | RemoveDone(id: nat, ok: bool)
    | TimeOut(id: nat)

  // --- the agents ---

  /** `nextRequest`: a listing of the directory, then a rename of each name in turn until one
      succeeds. */
  function DoLook(s: St, a: nat, names: seq<nat>): Option<St> {
    if A(s, a) == Idle && forall n :: n in names ==> J(s, n).req then Some(SetAgent(s, a, Listing(names))) else None
  }

  function DoClaim(s: St, a: nat): Option<St> {
    var pc := A(s, a);
    if !pc.Listing? then None
    else if pc.names == [] then Some(SetAgent(s, a, Idle))
    else
      var id := pc.names[0];
      if J(s, id).req then Some(Both(s, a, Claimed(id), id, J(s, id).(req := false, claim := true)))
      else Some(SetAgent(s, a, Listing(pc.names[1..])))
  }

  function DoRead(s: St, a: nat, ok: bool): Option<St> {
    var pc := A(s, a);
    if !pc.Claimed? then None
    else if ok && J(s, pc.id).claim then Some(SetAgent(s, a, Ready(pc.id)))
    else Some(Both(s, a, Idle, pc.id, J(s, pc.id).(claim := false)))
  }

  function DoExecute(s: St, a: nat, text: string): Option<St> {
    var pc := A(s, a);
    if !pc.Ready? then None
    else
      var j := J(s, pc.id);
      Some(Both(s, a, Write(pc.id, Full(text)), pc.id, j.(ran := j.ran + 1, resp := Some(text))))
  }

  /** A result that could not be put in place: a short one is tried, and after that no marker
      is written. */
  function Failing(s: St, a: nat, id: nat, r: Response, j: Job): St {
    if r.Short? then Both(s, a, Idle, id, j.(claim := false)) else Both(s, a, Write(id, Short), id, j)
  }

  /** The temporary file exists before it is whole. */
  function DoSpill(s: St, a: nat): Option<St> {
    var pc := A(s, a);
    if !pc.Write? then None else Some(SetJob(s, pc.id, J(s, pc.id).(tmp := Some(File(pc.r, false)))))
  }

  function DoWriteTmp(s: St, a: nat, ok: bool): Option<St> {
    var pc := A(s, a);
    if !pc.Write? then None
    else
      var j := J(s, pc.id).(tmp := Some(File(pc.r, ok)));
      Some(if ok then Both(s, a, Rename(pc.id, pc.r), pc.id, j) else Failing(s, a, pc.id, pc.r, j))
  }

  function DoRenameTmp(s: St, a: nat, ok: bool): Option<St> {
    var pc := A(s, a);
    if !pc.Rename? then None
    else
      var j := J(s, pc.id);
      if ok && j.tmp.Some?
        then Some(Both(s, a, Mark(pc.id), pc.id, j.(out := j.tmp, tmp := None, result := Some(j.tmp.value.r))))
      else Some(Failing(s, a, pc.id, pc.r, j.(tmp := None)))
  }

  function DoWriteDone(s: St, a: nat, ok: bool): Option<St> {
    var pc := A(s, a);
    if !pc.Mark? then None
    else Some(Both(s, a, Consume(pc.id), pc.id, J(s, pc.id).(done := J(s, pc.id).done || ok)))
  }

  function DoForget(s: St, a: nat): Option<St> {
    var pc := A(s, a);
    if !pc.Consume? then None else Some(Both(s, a, Idle, pc.id, J(s, pc.id).(claim := false)))
  }

  /** A cleanup takes the directory's files one at a time, in any order. */
  function DoSweep(s: St, a: nat, id: nat, which: Which): Option<St> {
    if A(s, a) != Cleaning then None
    else
      var j := J(s, id).(swept := true);
      Some(SetJob(s, id, match which
                         case ReqFile => j.(req := false)
                         case ClaimFile => j.(claim := false)
                         case TmpFile => j.(tmp := None)
                         case OutFile => j.(out := None)
                         case DoneFile => j.(done := false)))
  }

  // --- the control host ---

  function DoDeposit(s: St, id: nat): Option<St> {
    if J(s, id).host == NotSent then Some(SetJob(s, id, J(s, id).(host := Sending))) else None
  }

  /** The request takes its name once it is written; the session may fail before or after. */
  function DoDeposited(s: St, id: nat, moved: bool, error: bool): Option<St> {
    if J(s, id).host != Sending || !(moved || error) then None
    else Some(SetJob(s, id, J(s, id).(req := moved, host := if error then GaveUp else Polling)))
  }

  /** `checkDone`: the marker, then the result; either way a session may drop. */
  function DoCheck(s: St, id: nat): Option<St> {
    if J(s, id).host == Polling && J(s, id).done then Some(SetJob(s, id, J(s, id).(host := Seen))) else None
  }

  function DoCat(s: St, id: nat, dropped: bool): Option<St> {
    var j := J(s, id);
    if j.host != Seen then None
    else if dropped || j.out.None? then Some(SetJob(s, id, j.(host := Polling)))
    else Some(SetJob(s, id, j.(host := Returned(j.out.value.r))))
  }

  function DoRemoveOut(s: St, id: nat, ok: bool): Option<St> {
    var j := J(s, id);
    if j.host.Returned? then Some(SetJob(s, id, j.(host := Removing(j.host.r), out := if ok then None else j.out)))
      else None
  }

  function DoRemoveDone(s: St, id: nat, ok: bool): Option<St> {
    var j := J(s, id);
    if j.host.Removing? then Some(SetJob(s, id, j.(host := Consumed(j.host.r), done := j.done && !ok))) else None
  }

  function DoTimeOut(s: St, id: nat): Option<St> {
    if J(s, id).host == Polling then Some(SetJob(s, id, J(s, id).(host := GaveUp))) else None
  }

  function Do(s: St, l: Label): Option<St> {
    match l
    case Deposit(id) => DoDeposit(s, id)
    case Deposited(id, moved, error) => DoDeposited(s, id, moved, error)
    case Look(a, names) => DoLook(s, a, names)
    case Claim(a) => DoClaim(s, a)
    case Read(a, ok) => DoRead(s, a, ok)
    case Execute(a, text) => DoExecute(s, a, text)
    case Spill(a) => DoSpill(s, a)
    case WriteTmp(a, ok) => DoWriteTmp(s, a, ok)
    case RenameTmp(a, ok) => DoRenameTmp(s, a, ok)
    case WriteDone(a, ok) => DoWriteDone(s, a, ok)
    case Forget(a) => DoForget(s, a)
    case Crash(a) => Some(SetAgent(s, a, Dead))
    case Expire(a) => if A(s, a) == Idle then Some(SetAgent(s, a, Cleaning)) else None
    case Sweep(a, id, which) => DoSweep(s, a, id, which)
    case Check(id) => DoCheck(s, id)
    case Cat(id, dropped) => DoCat(s, id, dropped)
    case RemoveOut(id, ok) => DoRemoveOut(s, id, ok)
    case RemoveDone(id, ok) => DoRemoveDone(s, id, ok)
    case TimeOut(id) => DoTimeOut(s, id)
  }

  function RunFrom(s: St, labels: seq<Label>): Option<St>
    decreases |labels|
  {
    if labels == [] then Some(s)
    else
      var next := Do(s, labels[0]);
      if next.None? then None else RunFrom(next.value, labels[1..])
  }

  // --- the invariant ---

  /** The agent has that job in hand. */
  predicate Has(pc: Agent, id: nat) {
    match pc
    case Claimed(i) => i == id
    case Ready(i) => i == id
    case Write(i, _) => i == id
    case Rename(i, _) => i == id
    case Mark(i) => i == id
    case Consume(i) => i == id
    case _ => false
  }

  /** Nothing of the job's result exists yet. */
  predicate Untouched(j: Job) {
    j.ran == 0 && j.resp.None? && j.result.None? && j.out.None? && j.tmp.None? && !j.done
  }

  predicate Waiting(h: Host) {
    h == Polling || h == GaveUp
  }

  /** The result the control host may not have taken away yet. */
  predicate Unconsumed(h: Host) {
    !h.Removing? && !h.Consumed?
  }

  ghost predicate JobOk(s: St, id: nat) {
    var j := J(s, id);
    && j.ran <= 1 && (j.resp.Some? <==> j.ran == 1)
    && (j.host == NotSent || j.host == Sending ==> !j.req && Untouched(j))
    && (j.req ==> Untouched(j))
    && (j.out.Some? ==> j.out.value.whole && j.result == Some(j.out.value.r))
    && (j.result.Some? ==> j.ran == 1 && (j.result.value == Short || j.result.value == Full(j.resp.value)))
    && (j.done ==> j.result.Some?)
    && (j.done && !j.swept && Unconsumed(j.host) ==> j.out.Some?)
    && (j.host == Seen ==> j.result.Some?)
    && (j.host.Returned? || j.host.Removing? || j.host.Consumed? ==> j.result == Some(j.host.r))
  }

  ghost predicate InHand(j: Job, pc: Agent) {
    match pc
    case Claimed(_) => !j.req && Untouched(j) && Waiting(j.host)
    case Ready(_) => !j.req && Untouched(j) && Waiting(j.host)
    case Write(_, r) => Answering(j, r)
    case Rename(_, r) => Answering(j, r) && (j.tmp.Some? ==> j.tmp.value == File(r, true))
    case Mark(_) =>
      j.ran == 1 && !j.req && !j.done && j.result.Some? && Waiting(j.host) && (!j.swept ==> j.out.Some?)
    case Consume(_) => j.ran == 1 && !j.req && !(j.host == NotSent || j.host == Sending)
    case _ => true
  }

  /** The job ran, and its answer or the short one is on its way to disk. */
  predicate Answering(j: Job, r: Response) {
    j.ran == 1 && !j.req && !j.done && j.result.None? && j.out.None? && Waiting(j.host)
    && (r == Short || j.resp == Some(r.text))
  }

  function IdOf(pc: Agent): nat {
    match pc
    case Claimed(i) => i
    case Ready(i) => i
    case Write(i, _) => i
    case Rename(i, _) => i
    case Mark(i) => i
    case Consume(i) => i
    case _ => 0
  }

  ghost predicate AgentOk(s: St, a: nat) {
    InHand(J(s, IdOf(A(s, a))), A(s, a))
  }

  /** A job is in one agent's hands at most. */
  ghost predicate Sole(s: St, a: nat, b: nat, id: nat) {
    Has(A(s, a), id) && Has(A(s, b), id) ==> a == b
  }

  ghost predicate Inv(s: St) {
    && (forall id {:trigger JobOk(s, id)} :: JobOk(s, id))
    && (forall a {:trigger AgentOk(s, a)} :: AgentOk(s, a))
    && (forall a, b, id {:trigger Sole(s, a, b, id)} :: Sole(s, a, b, id))
  }

  /** One job changed, and one agent's place, if any. */
  lemma Changed(s: St, s1: St, a: nat, id: nat)
    requires Inv(s) && s1.jobs == s.jobs[id := J(s1, id)]
    requires s1.agents == s.agents || s1.agents == s.agents[a := A(s1, a)]
    requires JobOk(s1, id)
    requires A(s1, a) == A(s, a) ||
            (AgentOk(s1, a) && forall i {:trigger Has(A(s1, a), i)} :: Has(A(s1, a), i) ==> Has(A(s, a), i))
    requires forall b {:trigger A(s, b)} :: (b != a || A(s1, a) == A(s, a)) && Has(A(s, b), id) ==>
            InHand(J(s1, id), A(s, b))
    ensures Inv(s1)
  {
    forall i ensures JobOk(s1, i) { assert JobOk(s, i); }
    forall b ensures AgentOk(s1, b) {
      assert AgentOk(s, b);
      if A(s1, b) == A(s, b) && IdOf(A(s, b)) == id && Has(A(s, b), id) { assert InHand(J(s1, id), A(s, b)); }
    }
    forall b, c, i ensures Sole(s1, b, c, i) {
      assert Sole(s, b, c, i);
      assert Has(A(s1, a), i) ==> Has(A(s, a), i);
    }
  }

  // --- the steps of an agent ---

  /** An agent that has no job in hand moves, and no file changes. */
  lemma Elsewhere(s: St, s1: St, a: nat)
    requires Inv(s) && s1 == SetAgent(s, a, A(s1, a))
    requires AgentOk(s1, a) && forall i {:trigger Has(A(s1, a), i)} :: Has(A(s1, a), i) ==> Has(A(s, a), i)
    ensures Inv(s1)
  {
    forall i ensures JobOk(s1, i) { assert JobOk(s, i); }
    forall b ensures AgentOk(s1, b) { assert AgentOk(s, b); }
    forall b, c, i ensures Sole(s1, b, c, i) {
      assert Sole(s, b, c, i);
      assert Has(A(s1, a), i) ==> Has(A(s, a), i);
    }
  }

  /** The job an agent has in hand is in nobody else's, so what it does to it is its own. */
  lemma Own(s: St, s1: St, a: nat, id: nat)
    requires Inv(s) && Has(A(s, a), id) && s1.jobs == s.jobs[id := J(s1, id)]
    requires s1.agents == s.agents || s1.agents == s.agents[a := A(s1, a)]
    requires JobOk(s1, id) && AgentOk(s1, a)
    requires A(s1, a) == Idle || Has(A(s1, a), id)
    ensures Inv(s1)
  {
    forall i {:trigger Has(A(s1, a), i)} | Has(A(s1, a), i) ensures Has(A(s, a), i) { }
    forall b {:trigger A(s, b)} | (b != a || A(s1, a) == A(s, a)) && Has(A(s, b), id)
      ensures InHand(J(s1, id), A(s, b))
    {
      assert Sole(s, a, b, id);
    }
    Changed(s, s1, a, id);
  }

  lemma ClaimKeeps(s: St, a: nat)
    requires Inv(s) && DoClaim(s, a).Some?
    ensures Inv(DoClaim(s, a).value)
  {
    var s1, pc := DoClaim(s, a).value, A(s, a);
    if pc.names == [] || !J(s, pc.names[0]).req {
      Elsewhere(s, s1, a);
    } else {
      Won(s, a, pc.names[0]);
    }
  }

  /** The rename that succeeds takes a request nobody has. */
  lemma Won(s: St, a: nat, id: nat)
    requires Inv(s) && J(s, id).req
    ensures Inv(Both(s, a, Claimed(id), id, J(s, id).(req := false, claim := true)))
  {
    var s1 := Both(s, a, Claimed(id), id, J(s, id).(req := false, claim := true));
    assert JobOk(s, id);
    forall b ensures !Has(A(s, b), id) { assert AgentOk(s, b); }
    forall i ensures JobOk(s1, i) { assert JobOk(s, i); }
    forall b ensures AgentOk(s1, b) {
      assert AgentOk(s, b);
      assert !Has(A(s, b), id);
    }
    forall b, c, i ensures Sole(s1, b, c, i) { assert Sole(s, b, c, i) && !Has(A(s, b), id) && !Has(A(s, c), id); }
  }

  lemma HandKeeps(s: St, l: Label)
    requires Inv(s) && (l.Read? || l.Execute? || l.Spill? || l.WriteTmp?) && Do(s, l).Some?
    ensures Inv(Do(s, l).value)
  {
    var s1, id := Do(s, l).value, IdOf(A(s, l.a));
    assert JobOk(s, id) && AgentOk(s, l.a);
    if s1.jobs == s.jobs {
      Elsewhere(s, s1, l.a);
    } else {
      Own(s, s1, l.a, id);
    }
  }

  lemma PlacedKeeps(s: St, l: Label)
    requires Inv(s) && (l.RenameTmp? || l.WriteDone? || l.Forget?) && Do(s, l).Some?
    ensures Inv(Do(s, l).value)
  {
    var s1, id := Do(s, l).value, IdOf(A(s, l.a));
    assert JobOk(s, id) && AgentOk(s, l.a);
    Own(s, s1, l.a, id);
  }

  lemma SweepKeeps(s: St, a: nat, id: nat, which: Which)
    requires Inv(s) && DoSweep(s, a, id, which).Some?
    ensures Inv(DoSweep(s, a, id, which).value)
  {
    var s1 := DoSweep(s, a, id, which).value;
    assert JobOk(s, id);
    forall b {:trigger A(s, b)} | Has(A(s, b), id) ensures InHand(J(s1, id), A(s, b)) { assert AgentOk(s, b); }
    Changed(s, s1, a, id);
  }

  // --- the steps of the control host ---

  lemma HostKeeps(s: St, l: Label)
    requires Inv(s) && Do(s, l).Some?
    requires l.Deposit? || l.Deposited? || l.Check? || l.Cat? || l.RemoveOut? || l.RemoveDone? || l.TimeOut?
    ensures Inv(Do(s, l).value)
  {
    var s1, id := Do(s, l).value, l.id;
    assert JobOk(s, id);
    forall b {:trigger A(s, b)} | Has(A(s, b), id) ensures InHand(J(s1, id), A(s, b)) { assert AgentOk(s, b); }
    Changed(s, s1, 0, id);
  }

  // --- every run ---

  lemma StepKeeps(s: St, l: Label)
    requires Inv(s) && Do(s, l).Some?
    ensures Inv(Do(s, l).value)
  {
    match l
    case Look(a, _) => Elsewhere(s, Do(s, l).value, a);
    case Claim(a) => ClaimKeeps(s, a);
    case Crash(a) => Elsewhere(s, Do(s, l).value, a);
    case Expire(a) => Elsewhere(s, Do(s, l).value, a);
    case Sweep(a, id, which) => SweepKeeps(s, a, id, which);
    case Read(_, _) => HandKeeps(s, l);
    case Execute(_, _) => HandKeeps(s, l);
    case Spill(_) => HandKeeps(s, l);
    case WriteTmp(_, _) => HandKeeps(s, l);
    case RenameTmp(_, _) => PlacedKeeps(s, l);
    case WriteDone(_, _) => PlacedKeeps(s, l);
    case Forget(_) => PlacedKeeps(s, l);
    case _ => HostKeeps(s, l);
  }

  lemma {:induction false} RunKeeps(s: St, labels: seq<Label>)
    requires Inv(s) && RunFrom(s, labels).Some?
    ensures Inv(RunFrom(s, labels).value)
    decreases |labels|
  {
    if labels != [] {
      StepKeeps(s, labels[0]);
      RunKeeps(Do(s, labels[0]).value, labels[1..]);
    }
  }

  lemma InitInv()
    ensures Inv(Init())
  {
  }

  /** Whatever agents race and wherever they die, a request runs at most once. */
  lemma RunsAtMostOnce(labels: seq<Label>, id: nat)
    requires RunFrom(Init(), labels).Some?
    ensures J(RunFrom(Init(), labels).value, id).ran <= 1
  {
    InitInv();
    RunKeeps(Init(), labels);
    assert JobOk(RunFrom(Init(), labels).value, id);
  }

  /** A job in two agents' hands is a job in one's. */
  lemma ClaimIsExclusive(labels: seq<Label>, a: nat, b: nat, id: nat)
    requires RunFrom(Init(), labels).Some?
    requires var s := RunFrom(Init(), labels).value; Has(A(s, a), id) && Has(A(s, b), id)
    ensures a == b
  {
    InitInv();
    RunKeeps(Init(), labels);
    assert Sole(RunFrom(Init(), labels).value, a, b, id);
  }

  /** While a job's files are left alone, its marker means its result is there, and whole. */
  lemma MarkerMeansResult(labels: seq<Label>, id: nat)
    requires RunFrom(Init(), labels).Some?
    requires var j := J(RunFrom(Init(), labels).value, id); j.done && !j.swept && Unconsumed(j.host)
    ensures var j := J(RunFrom(Init(), labels).value, id);
            j.out.Some? && j.out.value.whole && j.result == Some(j.out.value.r)
  {
    InitInv();
    RunKeeps(Init(), labels);
    assert JobOk(RunFrom(Init(), labels).value, id);
  }

  /** What a poll returns is the whole result of that job's one run, or the short one the
      agent wrote in its place; a cleanup in the middle can only make it try again. */
  lemma PollReturnsWhole(labels: seq<Label>, id: nat)
    requires RunFrom(Init(), labels).Some?
    requires J(RunFrom(Init(), labels).value, id).host.Returned?
    ensures var j := J(RunFrom(Init(), labels).value, id);
            j.ran == 1 && (j.host.r == Short || (j.resp.Some? && j.host.r == Full(j.resp.value)))
  {
    InitInv();
    RunKeeps(Init(), labels);
    assert JobOk(RunFrom(Init(), labels).value, id);
  }
}
