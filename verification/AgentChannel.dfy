/** The channel as an object: the connection it holds, the next id, whether a wait would
    block. What happens while a job waits without the lock is what arrives meanwhile. */
module AgentChannel {
  import opened Basics
  import opened Channel

  /** One bridge: what it will still deliver before it fails, what it was asked. */
  class Conn {
    var open: bool
    var inbox: seq<Msg>
    var outbox: seq<Asked>
    var deaf: bool

    constructor (inbox: seq<Msg>, deaf: bool)
      ensures open && this.inbox == inbox && outbox == [] && this.deaf == deaf
    {
      open, this.inbox, outbox, this.deaf := true, inbox, [], deaf;
    }

    method Send(a: Asked) returns (ok: bool)
      modifies this`outbox
      ensures ok == !deaf && outbox == old(outbox) + [a]
    {
      outbox := outbox + [a];
      return !deaf;
    }

    method Recv() returns (m: Option<Msg>)
      modifies this`inbox
      ensures if old(inbox) == [] then m.None? && inbox == [] else m == Some(old(inbox)[0]) && inbox == old(inbox)[1..]
    {
      if inbox == [] { return None; }
      m := Some(inbox[0]);
      inbox := inbox[1..];
    }

    method Close()
      modifies this`open
      ensures !open
    {
      open := false;
    }
  }

  /** The first answer to that ask, and what is left after it. */
  function Scan(inbox: seq<Msg>, id: nat): (r: Option<(Msg, seq<Msg>)>)
    ensures r.Some? ==> r.value.0.Answer? && r.value.0.id == id
  {
    if inbox == [] then None
    else if inbox[0].Answer? && inbox[0].id == id then Some((inbox[0], inbox[1..]))
    else Scan(inbox[1..], id)
  }

  /** It is an answer of the inbox, to that ask, and every message before it is another's or
      no answer. */
  lemma {:induction false} ScanFirst(inbox: seq<Msg>, id: nat)
    ensures match Scan(inbox, id)
            case None => forall k :: 0 <= k < |inbox| ==> !(inbox[k].Answer? && inbox[k].id == id)
            case Some((m, rest)) =>
              exists k :: 0 <= k < |inbox| && inbox[k] == m && m.Answer? && m.id == id && rest == inbox[k + 1..] &&
                forall j :: 0 <= j < k ==> !(inbox[j].Answer? && inbox[j].id == id)
    decreases |inbox|
  {
    if inbox != [] && !(inbox[0].Answer? && inbox[0].id == id) {
      ScanFirst(inbox[1..], id);
      if Scan(inbox, id).Some? {
        var (m, rest) := Scan(inbox, id).value;
        var k :| 0 <= k < |inbox[1..]| && inbox[1..][k] == m && rest == inbox[1..][k + 1..] &&
                 forall j :: 0 <= j < k ==> !(inbox[1..][j].Answer? && inbox[1..][j].id == id);
        assert inbox[k + 1] == m && rest == inbox[k + 2..];
        forall j | 0 <= j < k + 1 ensures !(inbox[j].Answer? && inbox[j].id == id) {
          if j > 0 { assert inbox[j] == inbox[1..][j - 1]; }
        }
      }
    }
  }

  /** One exchange: it ended with a result, or met a connection that was gone. */
  datatype Once = Finished(r: Result) | Stale

  /** What an exchange comes to on a connection that would deliver that inbox. */
  function Exchange(w: Codec, inbox: seq<Msg>, deaf: bool, id: nat): Once {
    if deaf then Stale
    else match Scan(inbox, id)
      case None => Stale
      case Some((m, _)) =>
        if m.error then Finished(Error)
        else if w.dec(m.data).None? then Finished(Error) else Finished(Payload(w.dec(m.data).value))
  }

  /** One of the messages is the answer to that ask, with that payload. */
  ghost predicate Answers(w: Codec, inbox: seq<Msg>, id: nat, data: string) {
    exists k :: 0 <= k < |inbox| && inbox[k].Answer? && inbox[k].id == id && !inbox[k].error &&
      w.dec(inbox[k].data) == Some(data)
  }

  lemma ExchangeAnswers(w: Codec, inbox: seq<Msg>, deaf: bool, id: nat, data: string)
    requires Exchange(w, inbox, deaf, id) == Finished(Payload(data))
    ensures Answers(w, inbox, id, data)
  {
    ScanFirst(inbox, id);
  }

  function Objects(c: Option<Conn>): set<Conn> {
    if c.Some? then {c.value} else {}
  }

  class AgentEnd {
    const w: Codec
    var conn: Option<Conn>
    var next: nat
    var armed: bool

    ghost predicate Valid()
      reads this, Objects(conn)
    {
      (armed <==> conn.Some?) && (conn.Some? ==> conn.value.open)
    }

    constructor (w: Codec)
      ensures Valid() && this.w == w && conn == None && next == 0
    {
      this.w, conn, next, armed := w, None, 0, false;
    }

    /** `accept`, under the lock: the bridge being replaced is closed. */
    method Accept(c: Conn)
      requires Valid() && c.open && c !in Objects(conn)
      modifies this`conn, this`armed, Objects(conn)`open
      ensures Valid() && conn == Some(c)
      ensures forall x :: x in old(Objects(conn)) ==> !x.open
    {
      if conn.Some? { conn.value.Close(); }
      conn, armed := Some(c), true;
    }

    method Drop()
      requires Valid()
      modifies this`conn, this`armed, Objects(conn)`open
      ensures Valid() && conn == None && !armed
      ensures forall x :: x in old(Objects(conn)) ==> !x.open
    {
      if conn.Some? { conn.value.Close(); }
      conn, armed := None, false;
    }

    /** `attached`: the live connection, or whatever attached during the wait. */
    method Attach(arriving: Option<Conn>) returns (ok: bool)
      requires Valid() && (arriving.Some? ==> arriving.value.open)
      modifies this`conn, this`armed
      ensures Valid() && ok == conn.Some?
      ensures conn == if old(conn).Some? then old(conn) else arriving
    {
      if conn.None? && arriving.Some? { Accept(arriving.value); }
      return conn.Some?;
    }

    /** `askOnce`: the next id, one ask, and messages until its answer or the end of the
        connection. */
    method AskOnce(req: Req, arriving: Option<Conn>) returns (out: Once)
      requires Valid() && (arriving.Some? ==> arriving.value.open)
      modifies this, Objects(conn), Objects(arriving)
      ensures Valid()
      ensures old(conn).None? && arriving.None? ==> out == Finished(Error) && next == old(next) && conn == None
      ensures old(conn).Some? || arriving.Some? ==>
                var c := if old(conn).Some? then old(conn).value else arriving.value;
                && next == old(next) + 1 && c.outbox == old(c.outbox) + [Asked(next, req)]
                && out == Exchange(w, old(c.inbox), old(c.deaf), next)
                && (out.Stale? ==> conn == None && !c.open)
                && (out.Finished? ==> conn == Some(c) && c.open && c.inbox == Scan(old(c.inbox), next).value.1)
      ensures old(conn).Some? ==> forall x :: x in Objects(arriving) - old(Objects(conn)) ==>
                x.outbox == old(x.outbox) && x.open == old(x.open) && x.inbox == old(x.inbox) && x.deaf == old(x.deaf)
    {
      var ok := Attach(arriving);
      if !ok { return Finished(Error); }
      var c: Conn := conn.value;
      next := next + 1;
      var id := next;
      ok := c.Send(Asked(id, req));
      if !ok {
        Drop();
        return Stale;
      }
      ghost var all := c.inbox;
      while true
        invariant conn == Some(c) && armed && c.open && next == id && Scan(c.inbox, id) == Scan(all, id)
        invariant c.outbox == old(c.outbox) + [Asked(id, req)] && !c.deaf
        modifies this`conn, this`armed, c`inbox, c`open
        decreases |c.inbox|
      {
        var m := c.Recv();
        if m.None? {
          Drop();
          return Stale;
        }
        if m.value.Answer? && m.value.id == id {
          if m.value.error { return Finished(Error); }
          var b := w.dec(m.value.data);
          return Finished(if b.None? then Error else Payload(b.value));
        }
      }
    }

    /** `AskWith`: a second exchange exactly when the first met a connection that was gone, on
        whatever attached since, and no third; what is returned is the answer to the last ask
        sent. */
    method AskWith(req: Req, first: Option<Conn>, second: Option<Conn>) returns (r: Result)
      requires Valid() && (first.Some? ==> first.value.open) && (second.Some? ==> second.value.open)
      requires Objects(second) !! Objects(conn) + Objects(first)
      modifies this, Objects(conn), Objects(first), Objects(second)
      ensures Valid() && old(next) <= next <= old(next) + 2
      ensures old(conn).None? && first.None? ==> r == Error && next == old(next)
      ensures old(conn).Some? || first.Some? ==>
                var c := if old(conn).Some? then old(conn).value else first.value;
                var once := Exchange(w, old(c.inbox), old(c.deaf), old(next) + 1);
                && (once.Finished? ==> r == once.r && next == old(next) + 1 && conn == Some(c))
                && (once.Stale? && second.None? ==> r == Error && next == old(next) + 1 && conn == None && !c.open)
                && (once.Stale? && second.Some? ==>
                      var again := Exchange(w, old(second.value.inbox), old(second.value.deaf), old(next) + 2);
                      next == old(next) + 2 && !c.open && r == if again.Finished? then again.r else Error)
      ensures r.Payload? ==>
                && conn.Some? && conn.value in old(Objects(conn)) + Objects(first) + Objects(second)
                && var c := conn.value; Answers(w, old(c.inbox), next, r.data)
    {
      var out := AskOnce(req, first);
      if out.Stale? {
        out := AskOnce(req, second);
        if out.Stale? { return Error; }
        if out.r.Payload? {
          ghost var c := second.value;
          ExchangeAnswers(w, old(c.inbox), old(c.deaf), next, out.r.data);
        }
        return out.r;
      }
      if out.r.Payload? {
        ghost var c := conn.value;
        ExchangeAnswers(w, old(c.inbox), old(c.deaf), next, out.r.data);
      }
      return out.r;
    }
  }
}
