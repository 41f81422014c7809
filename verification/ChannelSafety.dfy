/** What every interleaving of the channel keeps: an answer belongs to its ask, two sends at
    most, a wait armed exactly when nothing is installed, no connection left open. */
module ChannelSafety {
  import opened Basics
  import opened Channel

  // --- the invariant ---

  ghost predicate GlobalOk(s: St) {
    && CodecOk(s.w)
    && (s.armed <==> s.conn.Some?)
    && (s.conn.Some? ==> s.conn.value in s.links)
    && (s.mu.Some? ==> Holds(At(s, s.mu.value)))
  }

  ghost predicate SentOk(s: St, id: nat) {
    id in s.sent ==> id <= s.next && s.sent[id].call < s.calls
  }

  ghost predicate RepliedOk(s: St, id: nat) {
    id in s.replied ==> id in s.sent && s.replied[id].0 == s.sent[id] && !s.sent[id].transfer
  }

  /** An ask on its way is one that was sent, and was not answered yet. */
  ghost predicate AskedOk(s: St, a: Asked) {
    a.id in s.sent && s.sent[a.id] == a.req && a.id !in s.replied
  }

  /** A payload on its way is the one the control host read for that ask. */
  ghost predicate MsgOk(s: St, m: Msg) {
    && m.id <= s.next
    && (m.Answer? && !m.error ==> m.id in s.replied && m.data == s.w.enc(s.replied[m.id].1))
  }

  ghost predicate LinkOk(s: St, l: nat) {
    l in s.links ==>
      var k := s.links[l];
      && (s.conn == Some(l) ==> k.installed)
      && (k.open <==> s.conn == Some(l) || !k.installed)
      && (forall i :: 0 <= i < |k.up| ==> AskedOk(s, k.up[i]))
      && (forall i :: 0 <= i < |k.down| ==> MsgOk(s, k.down[i]))
  }

  /** No ask is on its way twice. */
  ghost predicate Once(s: St, l: nat, i: nat, j: nat, n: nat) {
    l in s.links && j in s.links && i < |s.links[l].up| && n < |s.links[j].up| && (l != j || i != n) ==>
      s.links[l].up[i].id != s.links[j].up[n].id
  }

  /** The asks of a call are those it remembers. */
  ghost predicate Mine(s: St, req: Req, ids: set<nat>) {
    && req.call < s.calls
    && (forall id :: id in ids ==> id in s.sent && s.sent[id] == req)
    && (forall id :: id in s.sent && s.sent[id].call == req.call ==> id in ids)
  }

  ghost predicate Answered(s: St, req: Req, ids: set<nat>, data: string) {
    exists id :: id in ids && id in s.replied && s.replied[id] == (req, data)
  }

  ghost predicate PcOk(s: St, t: nat) {
    var pc := At(s, t);
    && (Holds(pc) ==> s.mu == Some(t))
    && (pc.Ready? || pc.Recv? ==> s.conn.Some?)
    && (!pc.Idle? ==> Mine(s, pc.req, pc.ids))
    && (pc.Locking? || pc.Attach? || pc.Wait? || pc.Relock? || pc.Ready? ==>
        1 <= pc.attempt <= 2 && |pc.ids| < pc.attempt)
    && (pc.Recv? ==> 1 <= pc.attempt <= 2 && |pc.ids| <= pc.attempt && pc.id in pc.ids)
    && (pc.Ended? ==> |pc.ids| <= 2)
    && (pc.Wait? ==> pc.gen == s.gen || pc.gen in s.past)
    && (pc.Ended? && pc.result.Payload? ==> Answered(s, pc.req, pc.ids, pc.result.data))
  }

  ghost predicate Distinct2(s: St, t: nat, u: nat) {
    t != u && !At(s, t).Idle? && !At(s, u).Idle? ==> At(s, t).req.call != At(s, u).req.call
  }

  /** What is on record and what is on the wires. */
  ghost predicate Carried(s: St) {
    && (forall id {:trigger SentOk(s, id)} :: SentOk(s, id))
    && (forall id {:trigger RepliedOk(s, id)} :: RepliedOk(s, id))
    && (forall l {:trigger LinkOk(s, l)} :: LinkOk(s, l))
    && (forall l, i, j, n {:trigger Once(s, l, i, j, n)} :: Once(s, l, i, j, n))
  }

  ghost predicate Inv(s: St) {
    && GlobalOk(s)
    && Carried(s)
    && (forall t {:trigger PcOk(s, t)} :: PcOk(s, t))
    && (forall t, u {:trigger Distinct2(s, t, u)} :: Distinct2(s, t, u))
  }

  lemma InitInv(w: Codec)
    requires CodecOk(w)
    ensures Inv(Init(w))
  {
  }

  // --- what a step leaves alone ---

  /** The parts of the state a job's own position depends on grow only. */
  ghost predicate Grows(s: St, s1: St) {
    && s1.w == s.w && s.next <= s1.next && s.calls <= s1.calls
    && s.past <= s1.past && (s1.gen == s.gen || s.gen in s1.past)
    && (forall id :: id in s.sent ==> id in s1.sent && s1.sent[id] == s.sent[id])
    && (forall id :: id in s.replied ==> id in s1.replied && s1.replied[id] == s.replied[id])
  }

  /** Asks of other calls were added, if any. */
  ghost predicate NotMine(s: St, s1: St, call: nat) {
    forall id :: id in s1.sent && id !in s.sent ==> s1.sent[id].call != call
  }

  lemma MineKept(s: St, s1: St, req: Req, ids: set<nat>)
    requires Mine(s, req, ids) && Grows(s, s1) && NotMine(s, s1, req.call)
    ensures Mine(s1, req, ids)
  {
  }

  lemma AnsweredKept(s: St, s1: St, req: Req, ids: set<nat>, data: string)
    requires Answered(s, req, ids, data) && Grows(s, s1)
    ensures Answered(s1, req, ids, data)
  {
  }

  /** Another job's position stays good: the lock did not change hands behind its back. */
  lemma OtherKept(s: St, s1: St, u: nat)
    requires PcOk(s, u) && At(s1, u) == At(s, u) && Grows(s, s1)
    requires !At(s, u).Idle? ==> NotMine(s, s1, At(s, u).req.call)
    requires Holds(At(s, u)) ==> s1.mu == s.mu && (s.conn.Some? ==> s1.conn.Some?)
    ensures PcOk(s1, u)
  {
    var pc := At(s, u);
    if !pc.Idle? { MineKept(s, s1, pc.req, pc.ids); }
    if pc.Ended? && pc.result.Payload? { AnsweredKept(s, s1, pc.req, pc.ids, pc.result.data); }
  }

  // --- links ---

  /** Nothing that travels changed, and what is known only grew. */
  lemma LinkKept(s: St, s1: St, l: nat)
    requires LinkOk(s, l) && Grows(s, s1) && (l in s1.links ==> l in s.links)
    requires l in s1.links ==> s1.links[l].up == s.links[l].up && s1.links[l].down == s.links[l].down
    requires l in s1.links && s1.conn == Some(l) ==> s1.links[l].installed
    requires l in s1.links ==> (s1.links[l].open <==> s1.conn == Some(l) || !s1.links[l].installed)
    requires s1.replied == s.replied
    ensures LinkOk(s1, l)
  {
    if l in s1.links {
      var k := s1.links[l];
      forall i | 0 <= i < |k.up| ensures AskedOk(s1, k.up[i]) { assert AskedOk(s, s.links[l].up[i]); }
      forall i | 0 <= i < |k.down| ensures MsgOk(s1, k.down[i]) { assert MsgOk(s, s.links[l].down[i]); }
    }
  }

  lemma OnceKept(s: St, s1: St, l: nat, i: nat, j: nat, n: nat)
    requires Once(s, l, i, j, n)
    requires forall x :: x in s1.links && s1.links[x].up != [] ==> x in s.links && s1.links[x].up == s.links[x].up
    ensures Once(s1, l, i, j, n)
  {
  }

  // --- steps that only move a job ---

  /** Same connections, same history; one job moved. */
  lemma Moved(s: St, s1: St, t: nat)
    requires Inv(s) && s1 == s.(pcs := s.pcs[t := At(s1, t)], mu := s1.mu, calls := s1.calls) && s.calls <= s1.calls
    requires PcOk(s1, t) && GlobalOk(s1)
    requires s1.mu == s.mu || (s.mu.Some? ==> s.mu == Some(t))
    requires !At(s1, t).Idle? ==>
            (!At(s, t).Idle? && At(s1, t).req.call == At(s, t).req.call) || At(s1, t).req.call >= s.calls
    ensures Inv(s1)
  {
    forall id ensures SentOk(s1, id) { assert SentOk(s, id); }
    forall id ensures RepliedOk(s1, id) { assert RepliedOk(s, id); }
    forall l ensures LinkOk(s1, l) {
      assert LinkOk(s, l);
      LinkKept(s, s1, l);
    }
    forall l, i, j, n ensures Once(s1, l, i, j, n) {
      assert Once(s, l, i, j, n);
      OnceKept(s, s1, l, i, j, n);
    }
    forall u ensures PcOk(s1, u) {
      assert PcOk(s, u);
      if u != t { OtherKept(s, s1, u); }
    }
    forall u, v ensures Distinct2(s1, u, v) {
      assert Distinct2(s, u, v) && PcOk(s, u) && PcOk(s, v);
    }
  }

  lemma CallKeeps(s: St, a: Label)
    requires Inv(s) && a.Call? && DoCall(s, a).Some?
    ensures Inv(DoCall(s, a).value)
  {
    var s1 := DoCall(s, a).value;
    assert PcOk(s, a.t);
    forall id | id in s.sent ensures s.sent[id].call != s.calls { assert SentOk(s, id); }
    assert s.mu.Some? ==> s.mu.value != a.t;
    Moved(s, s1, a.t);
  }

  lemma QuietKeeps(s: St, a: Label)
    requires Inv(s) && (a.Return? || a.Lock? || a.Attached? || a.Wake? || a.LockAgain?) && Do(s, a).Some?
    ensures Inv(Do(s, a).value)
  {
    var s1, t := Do(s, a).value, a.t;
    assert PcOk(s, t);
    MineSame(s, s1, t);
    Moved(s, s1, t);
  }

  lemma MineSame(s: St, s1: St, t: nat)
    requires PcOk(s, t) && s1.sent == s.sent && s1.calls == s.calls
    ensures !At(s, t).Idle? ==> Mine(s1, At(s, t).req, At(s, t).ids)
  {
  }

  // --- steps of the job that holds the lock ---

  /** The holder moves on what is on record and on the wires. */
  lemma Shift(s: St, s1: St, t: nat)
    requires Inv(s) && Holds(At(s, t)) && s1.pcs == s.pcs[t := At(s1, t)] && s1.calls == s.calls && Grows(s, s1)
    requires forall id :: id in s1.sent && id !in s.sent ==> s1.sent[id].call == At(s, t).req.call
    requires !At(s1, t).Idle? && At(s1, t).req == At(s, t).req && PcOk(s1, t) && GlobalOk(s1) && Carried(s1)
    ensures Inv(s1)
  {
    assert PcOk(s, t);
    forall u ensures PcOk(s1, u) {
      assert PcOk(s, u) && Distinct2(s, t, u);
      if u != t { OtherKept(s, s1, u); }
    }
    forall u, v ensures Distinct2(s1, u, v) { assert Distinct2(s, u, v); }
  }

  /** An ask recorded, and perhaps on its way. */
  ghost function Asking(s: St, req: Req, arrives: bool): St {
    s.(next := s.next + 1, sent := s.sent[s.next + 1 := req],
       links := if arrives then Queued(s, s.next + 1, req) else s.links)
  }

  lemma NewId(s: St)
    requires Carried(s)
    ensures s.next + 1 !in s.sent && s.next + 1 !in s.replied
  {
    assert SentOk(s, s.next + 1) && RepliedOk(s, s.next + 1);
  }

  lemma AskingLink(s: St, req: Req, arrives: bool, l: nat)
    requires Carried(s) && GlobalOk(s)
    ensures LinkOk(Asking(s, req, arrives), l)
  {
    var s1 := Asking(s, req, arrives);
    NewId(s);
    assert LinkOk(s, l);
    if l in s1.links {
      var k := s1.links[l];
      forall i | 0 <= i < |k.up| ensures AskedOk(s1, k.up[i]) {
        if i < |s.links[l].up| { assert AskedOk(s, s.links[l].up[i]); }
      }
      forall i | 0 <= i < |k.down| ensures MsgOk(s1, k.down[i]) { assert MsgOk(s, s.links[l].down[i]); }
    }
  }

  lemma AskingOnce(s: St, req: Req, arrives: bool, l: nat, i: nat, j: nat, n: nat)
    requires Carried(s)
    ensures Once(Asking(s, req, arrives), l, i, j, n)
  {
    NewId(s);
    assert Once(s, l, i, j, n) && LinkOk(s, l) && LinkOk(s, j);
    if l in s.links && i < |s.links[l].up| { assert AskedOk(s, s.links[l].up[i]); }
    if j in s.links && n < |s.links[j].up| { assert AskedOk(s, s.links[j].up[n]); }
  }

  lemma AskingKeeps(s: St, req: Req, arrives: bool)
    requires Carried(s) && GlobalOk(s) && req.call < s.calls
    ensures Carried(Asking(s, req, arrives)) && Grows(s, Asking(s, req, arrives))
  {
    var s1 := Asking(s, req, arrives);
    NewId(s);
    forall id ensures SentOk(s1, id) { assert SentOk(s, id); }
    forall id ensures RepliedOk(s1, id) { assert RepliedOk(s, id); }
    forall l ensures LinkOk(s1, l) { AskingLink(s, req, arrives, l); }
    forall l, i, j, n ensures Once(s1, l, i, j, n) { AskingOnce(s, req, arrives, l, i, j, n); }
  }

  /** Dropping a connection closes it and arms the wait again; nothing that travels changes. */
  lemma DropKeeps(s: St)
    requires Carried(s) && (s.conn.Some? ==> s.conn.value in s.links)
    ensures Carried(Drop(s)) && Grows(s, Drop(s)) && Drop(s).conn.None? && !Drop(s).armed
  {
    var d := Drop(s);
    forall id ensures SentOk(d, id) { assert SentOk(s, id); }
    forall id ensures RepliedOk(d, id) { assert RepliedOk(s, id); }
    forall l ensures LinkOk(d, l) {
      assert LinkOk(s, l);
      LinkKept(s, d, l);
    }
    forall l, i, j, n ensures Once(d, l, i, j, n) {
      assert Once(s, l, i, j, n);
      OnceKept(s, d, l, i, j, n);
    }
  }

  /** The same things are on record and on the wires. */
  lemma CarriedSame(s: St, s1: St)
    requires Carried(s) && s1 == s.(pcs := s1.pcs, mu := s1.mu)
    ensures Carried(s1)
  {
    forall id ensures SentOk(s1, id) { assert SentOk(s, id); }
    forall id ensures RepliedOk(s1, id) { assert RepliedOk(s, id); }
    forall l ensures LinkOk(s1, l) {
      assert LinkOk(s, l);
      LinkKept(s, s1, l);
    }
    forall l, i, j, n ensures Once(s1, l, i, j, n) {
      assert Once(s, l, i, j, n);
      OnceKept(s, s1, l, i, j, n);
    }
  }

  /** A stale attempt of the holder, from a state that differs by what it just asked. */
  lemma StaleKeeps(s: St, s1: St, t: nat, ids: set<nat>)
    requires Inv(s) && Carried(s1) && Grows(s, s1) && s1.pcs == s.pcs && s1.mu == s.mu && s1.conn == s.conn
    requires s1.calls == s.calls && s1.armed == s.armed && (s1.conn.Some? ==> s1.conn.value in s1.links)
    requires At(s, t).Ready? || At(s, t).Recv?
    requires forall id :: id in s1.sent && id !in s.sent ==> s1.sent[id].call == At(s, t).req.call
    requires Mine(s1, At(s, t).req, ids) && |ids| <= At(s, t).attempt
    ensures Inv(Stale(s1, t, ids))
  {
    var s2 := Stale(s1, t, ids);
    assert PcOk(s, t);
    DropKeeps(s1);
    CarriedSame(Drop(s1), s2);
    Shift(s, s2, t);
  }

  /** The ask joins those of its call. */
  lemma AskingMine(s: St, t: nat, arrives: bool)
    requires Inv(s) && At(s, t).Ready?
    ensures var pc := At(s, t);
            var ids := pc.ids + {s.next + 1};
            Mine(Asking(s, pc.req, arrives), pc.req, ids) && |ids| <= pc.attempt
  {
    assert PcOk(s, t);
    NewId(s);
  }

  lemma SendKeeps(s: St, t: nat, fails: bool, arrives: bool)
    requires Inv(s) && DoSend(s, t, fails, arrives).Some?
    ensures Inv(DoSend(s, t, fails, arrives).value)
  {
    var pc := At(s, t);
    assert PcOk(s, t);
    AskingKeeps(s, pc.req, !fails || arrives);
    AskingMine(s, t, !fails || arrives);
    if fails {
      SendFailsKeeps(s, t, arrives);
    } else {
      SentKeeps(s, t);
    }
  }

  lemma SendFailsKeeps(s: St, t: nat, arrives: bool)
    requires Inv(s) && At(s, t).Ready? && Carried(Asking(s, At(s, t).req, arrives)) &&
            Grows(s, Asking(s, At(s, t).req, arrives))
    requires Mine(Asking(s, At(s, t).req, arrives), At(s, t).req, At(s, t).ids + {s.next + 1})
    requires |At(s, t).ids + {s.next + 1}| <= At(s, t).attempt
    ensures Inv(DoSend(s, t, true, arrives).value)
  {
    var pc := At(s, t);
    assert PcOk(s, t);
    StaleKeeps(s, Asking(s, pc.req, arrives), t, pc.ids + {s.next + 1});
  }

  lemma SentKeeps(s: St, t: nat)
    requires Inv(s) && At(s, t).Ready? && Carried(Asking(s, At(s, t).req, true)) &&
            Grows(s, Asking(s, At(s, t).req, true))
    requires Mine(Asking(s, At(s, t).req, true), At(s, t).req, At(s, t).ids + {s.next + 1})
    requires |At(s, t).ids + {s.next + 1}| <= At(s, t).attempt
    ensures Inv(DoSend(s, t, false, false).value)
  {
    var s2 := DoSend(s, t, false, false).value;
    assert PcOk(s, t);
    CarriedSame(Asking(s, At(s, t).req, true), s2);
    Shift(s, s2, t);
  }

  lemma ReceiveFailsKeeps(s: St, t: nat)
    requires Inv(s) && At(s, t).Recv?
    ensures Inv(DoReceiveFails(s, t).value)
  {
    assert PcOk(s, t);
    StaleKeeps(s, s, t, At(s, t).ids);
  }

  lemma PoppedKeeps(s: St)
    requires Carried(s) && s.conn.Some? && s.conn.value in s.links && s.links[s.conn.value].down != []
    ensures Carried(s.(links := Popped(s)))
  {
    var s1 := s.(links := Popped(s));
    forall id ensures SentOk(s1, id) { assert SentOk(s, id); }
    forall id ensures RepliedOk(s1, id) { assert RepliedOk(s, id); }
    forall l ensures LinkOk(s1, l) {
      assert LinkOk(s, l);
      if l in s.links {
        var k := s1.links[l];
        forall i | 0 <= i < |k.up| ensures AskedOk(s1, k.up[i]) { assert AskedOk(s, s.links[l].up[i]); }
        forall i | 0 <= i < |k.down| ensures MsgOk(s1, k.down[i]) {
          assert MsgOk(s, s.links[l].down[if l == s.conn.value then i + 1 else i]);
        }
      }
    }
    forall l, i, j, n ensures Once(s1, l, i, j, n) {
      assert Once(s, l, i, j, n);
      OnceKept(s, s1, l, i, j, n);
    }
  }

  /** The payload a job returns is what the control host read for the ask it waits on. */
  lemma AnswerIsOwn(s: St, t: nat)
    requires Inv(s) && At(s, t).Recv? && s.conn.Some? && s.links[s.conn.value].down != []
    requires var m := s.links[s.conn.value].down[0]; m.id == At(s, t).id && m.Answer? && !m.error
    ensures var m := s.links[s.conn.value].down[0];
            s.w.dec(m.data).Some? && Answered(s, At(s, t).req, At(s, t).ids, s.w.dec(m.data).value)
  {
    var m := s.links[s.conn.value].down[0];
    assert LinkOk(s, s.conn.value) && MsgOk(s, s.links[s.conn.value].down[0]);
    assert PcOk(s, t) && RepliedOk(s, m.id);
  }

  lemma ReceiveKeeps(s: St, t: nat, abandons: bool)
    requires Inv(s) && DoReceive(s, t, abandons).Some?
    ensures Inv(DoReceive(s, t, abandons).value)
  {
    var pc, s1 := At(s, t), s.(links := Popped(s));
    var s2 := DoReceive(s, t, abandons).value;
    assert PcOk(s, t);
    PoppedKeeps(s);
    CarriedSame(s1, s2);
    var m := s.links[s.conn.value].down[0];
    if m.id == pc.id && m.Answer? && !m.error && !pc.req.transfer { AnswerIsOwn(s, t); }
    if s2 == s1 {
      Passed(s, s1);
    } else {
      Shift(s, s2, t);
    }
  }

  /** A message passed over moves no job. */
  lemma Passed(s: St, s1: St)
    requires Inv(s) && Carried(s1) && GlobalOk(s1) && Grows(s, s1) && s1.pcs == s.pcs && s1.mu == s.mu &&
            s1.conn == s.conn
    requires s1.sent == s.sent && s1.calls == s.calls
    ensures Inv(s1)
  {
    forall u ensures PcOk(s1, u) {
      assert PcOk(s, u);
      OtherKept(s, s1, u);
    }
    forall u, v ensures Distinct2(s1, u, v) { assert Distinct2(s, u, v); }
  }

  // --- bridges and the control host ---

  lemma DialKeeps(s: St, l: nat)
    requires Inv(s) && DoDial(s, l).Some?
    ensures Inv(DoDial(s, l).value)
  {
    var s1 := DoDial(s, l).value;
    forall id ensures SentOk(s1, id) { assert SentOk(s, id); }
    forall id ensures RepliedOk(s1, id) { assert RepliedOk(s, id); }
    forall x ensures LinkOk(s1, x) {
      assert LinkOk(s, x);
      if x != l { LinkKept(s, s1, x); }
    }
    forall x, i, j, n ensures Once(s1, x, i, j, n) {
      assert Once(s, x, i, j, n);
      OnceKept(s, s1, x, i, j, n);
    }
    Passed(s, s1);
  }

  lemma AcceptKeeps(s: St, l: nat)
    requires Inv(s) && DoAccept(s, l).Some?
    ensures Inv(DoAccept(s, l).value)
  {
    var s1 := DoAccept(s, l).value;
    forall id ensures SentOk(s1, id) { assert SentOk(s, id); }
    forall id ensures RepliedOk(s1, id) { assert RepliedOk(s, id); }
    forall x ensures LinkOk(s1, x) {
      assert LinkOk(s, x) && LinkOk(s, l);
      LinkKept(s, s1, x);
    }
    forall x, i, j, n ensures Once(s1, x, i, j, n) {
      assert Once(s, x, i, j, n);
      OnceKept(s, s1, x, i, j, n);
    }
    forall u ensures PcOk(s1, u) {
      assert PcOk(s, u);
      OtherKept(s, s1, u);
    }
    forall u, v ensures Distinct2(s1, u, v) { assert Distinct2(s, u, v); }
  }

  lemma HostGoneKeeps(s: St, l: nat)
    requires Inv(s) && DoHostGone(s, l).Some?
    ensures Inv(DoHostGone(s, l).value)
  {
    var s1 := DoHostGone(s, l).value;
    forall id ensures SentOk(s1, id) { assert SentOk(s, id); }
    forall id ensures RepliedOk(s1, id) { assert RepliedOk(s, id); }
    forall x ensures LinkOk(s1, x) {
      assert LinkOk(s, x);
      LinkKept(s, s1, x);
    }
    forall x, i, j, n ensures Once(s1, x, i, j, n) {
      assert Once(s, x, i, j, n);
      OnceKept(s, s1, x, i, j, n);
    }
    Passed(s, s1);
  }

  /** Serving an ask: no other ask has its id, and its payload is recorded once. */
  lemma ServeKeeps(s: St, l: nat, payload: string, refuses: bool, parts: nat)
    requires Inv(s) && DoServe(s, l, payload, refuses, parts).Some?
    ensures Inv(DoServe(s, l, payload, refuses, parts).value)
  {
    var s1 := DoServe(s, l, payload, refuses, parts).value;
    var a := s.links[l].up[0];
    assert LinkOk(s, l) && AskedOk(s, s.links[l].up[0]);
    forall id ensures SentOk(s1, id) { assert SentOk(s, id); }
    forall id ensures RepliedOk(s1, id) { assert RepliedOk(s, id); }
    forall x ensures LinkOk(s1, x) { ServeLink(s, s1, l, a, payload, refuses, parts, x); }
    forall x, i: nat, j, n: nat ensures Once(s1, x, i, j, n) {
      assert Once(s, x, if x == l then i + 1 else i, j, if j == l then n + 1 else n);
    }
    Passed(s, s1);
  }

  lemma ServeLink(s: St, s1: St, l: nat, a: Asked, payload: string, refuses: bool, parts: nat, x: nat)
    requires Inv(s) && DoServe(s, l, payload, refuses, parts) == Some(s1) && a == s.links[l].up[0] && AskedOk(s, a)
    ensures LinkOk(s1, x)
  {
    assert LinkOk(s, x) && SentOk(s, a.id);
    if x in s1.links {
      var k, was := s1.links[x], s.links[x];
      forall i | 0 <= i < |k.up| ensures AskedOk(s1, k.up[i]) {
        var i0 := if x == l then i + 1 else i;
        assert AskedOk(s, was.up[i0]) && Once(s, l, 0, x, i0);
      }
      forall i | 0 <= i < |k.down| ensures MsgOk(s1, k.down[i]) {
        if i < |was.down| { assert MsgOk(s, was.down[i]); }
      }
    }
  }

  // --- every run ---

  lemma StepKeeps(s: St, a: Label)
    requires Inv(s) && Do(s, a).Some?
    ensures Inv(Do(s, a).value)
  {
    match a
    case Call(_, _, _, _) => CallKeeps(s, a);
    case Send(t, fails, arrives) => SendKeeps(s, t, fails, arrives);
    case Receive(t, abandons) => ReceiveKeeps(s, t, abandons);
    case ReceiveFails(t) => ReceiveFailsKeeps(s, t);
    case Dial(l) => DialKeeps(s, l);
    case Accept(l) => AcceptKeeps(s, l);
    case Serve(l, payload, refuses, parts) => ServeKeeps(s, l, payload, refuses, parts);
    case HostGone(l) => HostGoneKeeps(s, l);
    case _ => QuietKeeps(s, a);
  }

  lemma {:induction false} RunKeeps(s: St, labels: seq<Label>)
    requires Inv(s) && RunFrom(s, labels).Some?
    ensures Inv(RunFrom(s, labels).value)
    decreases |labels|
  {
    if labels != [] {
      StepKeeps(s, labels[0]);
      RunKeeps(Do(s, labels[0]).value, labels[1..]);
    }
  }

  /** Over every interleaving of calls, transfers, drops and reconnections: a payload a call
      returns is what the control host read for an ask that very call sent, never what an
      abandoned exchange left behind. */
  lemma PayloadIsOurs(w: Codec, labels: seq<Label>, t: nat)
    requires CodecOk(w) && RunFrom(Init(w), labels).Some?
    requires var pc := At(RunFrom(Init(w), labels).value, t); pc.Ended? && pc.result.Payload?
    ensures var s := RunFrom(Init(w), labels).value;
            var pc := At(s, t);
            exists id :: id in s.sent && s.sent[id] == pc.req && id in s.replied &&
              s.replied[id] == (pc.req, pc.result.data)
  {
    InitInv(w);
    RunKeeps(Init(w), labels);
    var s := RunFrom(Init(w), labels).value;
    assert PcOk(s, t);
  }

  /** No call sends more than two asks. */
  lemma TwoSendsAtMost(w: Codec, labels: seq<Label>, t: nat, ids: set<nat>)
    requires CodecOk(w) && RunFrom(Init(w), labels).Some?
    requires var s := RunFrom(Init(w), labels).value;
             !At(s, t).Idle? && forall id :: id in ids ==> id in s.sent && s.sent[id].call == At(s, t).req.call
    ensures |ids| <= 2
  {
    InitInv(w);
    RunKeeps(Init(w), labels);
    var s := RunFrom(Init(w), labels).value;
    assert PcOk(s, t);
    SubsetSize(ids, At(s, t).ids);
  }

  /** The wait is over exactly when a connection is installed; that connection is open, and
      every one that was replaced or dropped is closed. */
  lemma ArmedWhenInstalled(w: Codec, labels: seq<Label>, l: nat)
    requires CodecOk(w) && RunFrom(Init(w), labels).Some?
    ensures var s := RunFrom(Init(w), labels).value;
            && (s.armed <==> s.conn.Some?)
            && (s.conn == Some(l) ==> l in s.links && s.links[l].open)
            && (l in s.links && s.links[l].installed && s.conn != Some(l) ==> !s.links[l].open)
  {
    InitInv(w);
    RunKeeps(Init(w), labels);
    assert LinkOk(RunFrom(Init(w), labels).value, l);
  }

  /** At most one job holds the lock, and only under the lock is anything sent or read. */
  lemma OneHolder(w: Codec, labels: seq<Label>, t: nat, u: nat)
    requires CodecOk(w) && RunFrom(Init(w), labels).Some?
    ensures var s := RunFrom(Init(w), labels).value;
            Holds(At(s, t)) && Holds(At(s, u)) ==> t == u && s.mu == Some(t)
  {
    InitInv(w);
    RunKeeps(Init(w), labels);
    var s := RunFrom(Init(w), labels).value;
    assert PcOk(s, t) && PcOk(s, u);
  }

  /** No wake-up is lost: while a connection is installed, every job still waiting can go on. */
  lemma NoLostWake(w: Codec, labels: seq<Label>, t: nat)
    requires CodecOk(w) && RunFrom(Init(w), labels).Some?
    requires var s := RunFrom(Init(w), labels).value; At(s, t).Wait? && s.conn.Some?
    ensures Do(RunFrom(Init(w), labels).value, Wake(t, false)).Some?
  {
    InitInv(w);
    RunKeeps(Init(w), labels);
    assert PcOk(RunFrom(Init(w), labels).value, t);
  }
}
