/** The agent's end of the control channel, as steps of any number of jobs, bridges that come
    and go, and the control host behind each: who holds the lock, which connection is
    installed, what travels on it. */
module Channel {
  import opened Basics

  /** One call of `AskWith`, or one transfer; `call` tells calls apart. */
  datatype Req = Req(call: nat, resource: string, vars: map<string, string>, transfer: bool)

  datatype Asked = Asked(id: nat, req: Req)

  datatype Msg =
    | Answer(id: nat, error: bool, data: string)
    | Part(id: nat)
    | Finish(id: nat)

  /** A bridge: what waits in each direction, which ends are open, whether it was ever
      installed, and the last ask the control host took from it. */
  datatype Link = Link(up: seq<Asked>, down: seq<Msg>, open: bool, host: bool, installed: bool, served: nat)

  datatype Result = Payload(data: string) | Completed | Error

  /** Where a job is in its call. `ids` are the asks this call has sent, `attempt` is 1 or 2. */
  datatype Pc =
    | Idle
    | Locking(req: Req, attempt: nat, ids: set<nat>)
    | Attach(req: Req, attempt: nat, ids: set<nat>)
    | Wait(req: Req, attempt: nat, ids: set<nat>, gen: nat)
    | Relock(req: Req, attempt: nat, ids: set<nat>)
    | Ready(req: Req, attempt: nat, ids: set<nat>)
    | Recv(req: Req, attempt: nat, ids: set<nat>, id: nat)
    | Ended(req: Req, ids: set<nat>, result: Result)

  /** Base64. */
  datatype Codec = Codec(enc: string -> string, dec: string -> Option<string>)

  /** `gen` counts the ready channels made, `armed` says the current one is closed. `sent`
      and `replied` are the history: every ask sent, every payload the control host read. */
  datatype St = St(
    w: Codec,
    pcs: map<nat, Pc>,
    mu: Option<nat>,
    conn: Option<nat>,
    next: nat,
    gen: nat,
    armed: bool,
    past: set<nat>,
    calls: nat,
    links: map<nat, Link>,
    sent: map<nat, Req>,
    replied: map<nat, (Req, string)>)

  ghost predicate CodecOk(w: Codec) {
    forall b :: w.dec(w.enc(b)) == Some(b)
  }

  function At(s: St, t: nat): Pc {
    if t in s.pcs then s.pcs[t] else Idle
  }

  /** A job that holds the lock. */
  predicate Holds(pc: Pc) {
    pc.Attach? || pc.Ready? || pc.Recv?
  }

  function Init(w: Codec): St {
    St(w, map[], None, None, 0, 0, false, {}, 0, map[], map[], map[])
  }

  // --- the agent's own moves ---

  function To(s: St, t: nat, pc: Pc): St {
    s.(pcs := s.pcs[t := pc])
  }

  /** The call returns and the lock with it. */
  function Leave(s: St, t: nat, result: Result): St
    requires !At(s, t).Idle?
  {
    To(s, t, Ended(At(s, t).req, At(s, t).ids, result)).(mu := None)
  }

  function ClosedLink(s: St): map<nat, Link> {
    if s.conn.Some? && s.conn.value in s.links
    then s.links[s.conn.value := s.links[s.conn.value].(open := false)] else s.links
  }

  /** `drop`: the connection is closed and forgotten, and the wait is armed again. */
  function Drop(s: St): St {
    s.(links := ClosedLink(s), conn := None, gen := if s.armed then s.gen + 1 else s.gen,
       past := if s.armed then s.past + {s.gen} else s.past, armed := false)
  }

  /** A stale attempt: an ask goes again under the same lock, a transfer lets go of it first,
      and there is no third. */
  function Stale(s: St, t: nat, ids: set<nat>): St
    requires At(s, t).Ready? || At(s, t).Recv?
  {
    var pc := At(s, t);
    var d := Drop(s);
    if pc.attempt >= 2 then To(d, t, Ended(pc.req, ids, Error)).(mu := None)
    else if pc.req.transfer then To(d, t, Locking(pc.req, 2, ids)).(mu := None)
    else To(d, t, Attach(pc.req, 2, ids))
  }

  datatype Label =
    | Call(t: nat, resource: string, vars: map<string, string>, transfer: bool)
    | Return(t: nat)
    | Lock(t: nat)
    | Attached(t: nat)
    | Wake(t: nat, timeout: bool)
    | LockAgain(t: nat)
    | Send(t: nat, fails: bool, arrives: bool)
    | Receive(t: nat, abandons: bool)
    | ReceiveFails(t: nat)
    | Dial(l: nat)
    | Accept(l: nat)
    | Serve(l: nat, payload: string, refuses: bool, parts: nat)
    | HostGone(l: nat)

  function DoCall(s: St, a: Label): Option<St>
    requires a.Call?
  {
    if !At(s, a.t).Idle? then None
    else Some(To(s, a.t, Locking(Req(s.calls, a.resource, a.vars, a.transfer), 1, {})).(calls := s.calls + 1))
  }

  function DoReturn(s: St, t: nat): Option<St> {
    if At(s, t).Ended? then Some(To(s, t, Idle)) else None
  }

  function DoLock(s: St, t: nat): Option<St> {
    var pc := At(s, t);
    if pc.Locking? && s.mu.None? then Some(To(s, t, Attach(pc.req, pc.attempt, pc.ids)).(mu := Some(t))) else None
  }

  /** `attached`: the live connection, or a wait without the lock. */
  function DoAttached(s: St, t: nat): Option<St> {
    var pc := At(s, t);
    if !pc.Attach? then None
    else if s.conn.Some? then Some(To(s, t, Ready(pc.req, pc.attempt, pc.ids)))
    else Some(To(s, t, Wait(pc.req, pc.attempt, pc.ids, s.gen)).(mu := None))
  }

  /** A generation of the ready channel that has been closed. */
  predicate Fired(s: St, gen: nat) {
    gen in s.past || (gen == s.gen && s.armed)
  }

  function DoWake(s: St, t: nat, timeout: bool): Option<St> {
    var pc := At(s, t);
    if pc.Wait? && (timeout || Fired(s, pc.gen)) then Some(To(s, t, Relock(pc.req, pc.attempt, pc.ids))) else None
  }

  function DoLockAgain(s: St, t: nat): Option<St> {
    var pc := At(s, t);
    if !pc.Relock? || s.mu.Some? then None
    else if s.conn.None? then Some(Leave(s, t, Error))
    else Some(To(s, t, Ready(pc.req, pc.attempt, pc.ids)).(mu := Some(t)))
  }

  /** The ask as the connection carries it. */
  function Queued(s: St, id: nat, req: Req): map<nat, Link> {
    if s.conn.Some? && s.conn.value in s.links
    then s.links[s.conn.value := s.links[s.conn.value].(up := s.links[s.conn.value].up + [Asked(id, req)])]
    else s.links
  }

  /** A send takes the next id; one that fails may have arrived all the same. */
  function DoSend(s: St, t: nat, fails: bool, arrives: bool): Option<St> {
    var pc := At(s, t);
    if !pc.Ready? then None
    else
      var id := s.next + 1;
      var s1 := s.(next := id, sent := s.sent[id := pc.req],
                   links := if fails && !arrives then s.links else Queued(s, id, pc.req));
      if fails then Some(Stale(s1, t, pc.ids + {id}))
      else Some(To(s1, t, Recv(pc.req, pc.attempt, pc.ids + {id}, id)))
  }

  function Popped(s: St): map<nat, Link>
    requires s.conn.Some? && s.conn.value in s.links && s.links[s.conn.value].down != []
  {
    s.links[s.conn.value := s.links[s.conn.value].(down := s.links[s.conn.value].down[1..])]
  }

  /** What a job makes of the next message: not its own, or not an answer, is passed over. A
      transfer may give up on any message of its own and leave the rest unread. */
  function DoReceive(s: St, t: nat, abandons: bool): Option<St> {
    var pc := At(s, t);
    if !pc.Recv? || s.conn.None? || s.conn.value !in s.links || s.links[s.conn.value].down == [] then None
    else
      var m := s.links[s.conn.value].down[0];
      var s1 := s.(links := Popped(s));
      if m.id != pc.id then Some(s1)
      else if m.Answer? then
        if m.error || pc.req.transfer then Some(Leave(s1, t, Error))
        else
          var b := s.w.dec(m.data);
          Some(Leave(s1, t, if b.None? then Error else Payload(b.value)))
      else if !pc.req.transfer then Some(s1)
      else if abandons then Some(Leave(s1, t, Error))
      else if m.Finish? then Some(Leave(s1, t, Completed))
      else Some(s1)
  }

  function DoReceiveFails(s: St, t: nat): Option<St> {
    if At(s, t).Recv? then Some(Stale(s, t, At(s, t).ids)) else None
  }

  // --- bridges and the control host ---

  function DoDial(s: St, l: nat): Option<St> {
    if l in s.links then None else Some(s.(links := s.links[l := Link([], [], true, true, false, 0)]))
  }

  /** `accept`, once the bridge is greeted: it replaces the connection, which is closed. */
  function DoAccept(s: St, l: nat): Option<St> {
    if l !in s.links || s.links[l].installed || s.mu.Some? then None
    else
      var links := ClosedLink(s);
      if l !in links then None
      else Some(s.(links := links[l := links[l].(installed := true)], conn := Some(l), armed := true))
  }

  /** What `Serve` sends for one ask: one answer, or a transfer's sequence; `refuses` is an
      error either way. */
  function Reply(w: Codec, a: Asked, payload: string, refuses: bool, parts: nat): seq<Msg> {
    if a.req.transfer then
      seq(parts, i => Part(a.id)) + [if refuses then Answer(a.id, true, "") else Finish(a.id)]
    else [Answer(a.id, refuses, if refuses then "" else w.enc(payload))]
  }

  function DoServe(s: St, l: nat, payload: string, refuses: bool, parts: nat): Option<St> {
    if l !in s.links || !s.links[l].host || s.links[l].up == [] then None
    else
      var k := s.links[l];
      var a := k.up[0];
      var k1 := k.(up := k.up[1..], down := k.down + Reply(s.w, a, payload, refuses, parts), served := a.id);
      Some(s.(links := s.links[l := k1],
              replied := if a.req.transfer || refuses then s.replied else s.replied[a.id := (a.req, payload)]))
  }

  function DoHostGone(s: St, l: nat): Option<St> {
    if l !in s.links then None else Some(s.(links := s.links[l := s.links[l].(host := false)]))
  }

  /** The step a label names, where it is enabled. */
  function Do(s: St, a: Label): Option<St> {
    match a
    case Call(_, _, _, _) => DoCall(s, a)
    case Return(t) => DoReturn(s, t)
    case Lock(t) => DoLock(s, t)
    case Attached(t) => DoAttached(s, t)
    case Wake(t, timeout) => DoWake(s, t, timeout)
    case LockAgain(t) => DoLockAgain(s, t)
    case Send(t, fails, arrives) => DoSend(s, t, fails, arrives)
    case Receive(t, abandons) => DoReceive(s, t, abandons)
    case ReceiveFails(t) => DoReceiveFails(s, t)
    case Dial(l) => DoDial(s, l)
    case Accept(l) => DoAccept(s, l)
    case Serve(l, payload, refuses, parts) => DoServe(s, l, payload, refuses, parts)
    case HostGone(l) => DoHostGone(s, l)
  }

  /** A run: the state after some labels, None when one was not enabled. */
  function RunFrom(s: St, labels: seq<Label>): Option<St>
    decreases |labels|
  {
    if labels == [] then Some(s)
    else
      var next := Do(s, labels[0]);
      if next.None? then None else RunFrom(next.value, labels[1..])
  }
}
