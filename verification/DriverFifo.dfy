/** WRITEs keep the order of their headers until they are answered. */
module DriverFifo {
  import opened Common
  import opened Driver
  import opened DriverSafety
  import opened DriverDevice

  // -------------------------------------------------------------- subsequences

  lemma {:induction false} SubBoth(a: seq<Request>, b: seq<Request>, x: Request)
    requires SubSeq(a, b)
    ensures SubSeq(a + [x], b + [x])
    decreases |b|
  {
    if b == [] {
      assert a + [x] == [x] && b + [x] == [x] && [x][1..] == [] && SubSeq([], []);
    } else {
      assert (b + [x])[1..] == b[1..] + [x] && (b + [x])[0] == b[0];
      if SubSeq(a, b[1..]) {
        SubBoth(a, b[1..], x);
      } else {
        assert (a + [x])[1..] == a[1..] + [x] && (a + [x])[0] == a[0];
        SubBoth(a[1..], b[1..], x);
      }
    }
  }

  lemma {:induction false} SubDrop(p: seq<Request>, x: Request, q: seq<Request>, b: seq<Request>)
    requires SubSeq(p + [x] + q, b)
    ensures SubSeq(p + q, b)
    decreases |b|
  {
    var a := p + [x] + q;
    if SubSeq(a, b[1..]) {
      SubDrop(p, x, q, b[1..]);
    } else if p == [] {
      assert a[1..] == q && p + q == q;
    } else {
      assert a[1..] == p[1..] + [x] + q && (p + q)[1..] == p[1..] + q && (p + q)[0] == a[0];
      SubDrop(p[1..], x, q, b[1..]);
    }
  }

  lemma {:induction false} SelectConcat(a: seq<Request>, b: seq<Request>, c: Cmd, ro: bool)
    ensures Select(a + b, c, ro) == Select(a, c, ro) + Select(b, c, ro)
    decreases |a|
  {
    if a == [] {
      assert a + b == b;
    } else {
      assert (a + b)[1..] == a[1..] + b;
      SelectConcat(a[1..], b, c, ro);
    }
  }

  lemma {:induction false} SelectNone(a: seq<Request>, c: Cmd, ro: bool)
    requires forall r <- a :: CmdOf(r, ro) != c
    ensures Select(a, c, ro) == []
  {
    if a != [] { SelectNone(a[1..], c, ro); }
  }

  // ----------------------------------------------------------------- the order

  /** The WRITEs that were given a header and have no reply yet: those that wait for it, those whose data
      is to be sent, and those of the batch at hand. */
  function Unanswered(s: Dev): seq<Request> {
    Select(s.q.ctlRcv, Write, s.readOnly) + (s.q.datSnd + s.h.batch.writeQ)
  }

  ghost predicate InHeaderOrder(s: Dev) {
    s.l.sock != Down ==> SubSeq(Unanswered(s), s.l.epoch.writes)
  }

  lemma OrderFill(s: Dev)
    requires CanSend(s, FillOne) && InHeaderOrder(s)
    ensures InHeaderOrder(FillStep(s))
  {
    hide Select, SubSeq, CmdOf;
    var r := s.h.batch.todo[0];
    if CmdOf(r, s.readOnly) == Write && s.l.sock != Down {
      SubBoth(Unanswered(s), s.l.epoch.writes, r);
      Snoc(Select(s.q.ctlRcv, Write, s.readOnly), s.q.datSnd, s.h.batch.writeQ, r);
    }
  }

  lemma Snoc(a: seq<Request>, b: seq<Request>, c: seq<Request>, x: Request)
    ensures a + (b + (c + [x])) == a + (b + c) + [x]
  {
  }

  lemma OrderSplice(s: Dev)
    requires KindInv(s) && InHeaderOrder(s)
    ensures InHeaderOrder(SpliceStep(s))
  {
    hide Select, SubSeq, CmdOf;
    var b, ro := s.h.batch, s.readOnly;
    SelectConcat(s.q.ctlRcv + b.readQ, b.trimQ, Write, ro);
    SelectConcat(s.q.ctlRcv, b.readQ, Write, ro);
    SelectNone(b.readQ, Write, ro);
    SelectNone(b.trimQ, Write, ro);
    Empties(Select(s.q.ctlRcv, Write, ro), s.q.datSnd, b.writeQ);
  }

  lemma Empties(a: seq<Request>, b: seq<Request>, c: seq<Request>)
    ensures a + [] + [] + ((b + c) + []) == a + (b + c)
  {
  }

  lemma OrderPop(s: Dev)
    requires KindInv(s) && InHeaderOrder(s) && s.q.datSnd != []
    ensures InHeaderOrder(PopWriteStep(s))
  {
    hide Select, SubSeq, CmdOf;
    var x, ro := s.q.datSnd[0], s.readOnly;
    SelectSnoc(s.q.ctlRcv, x, Write, ro);
    Hand(Select(s.q.ctlRcv, Write, ro), x, s.q.datSnd[1..], s.h.batch.writeQ);
    assert s.q.datSnd == [x] + s.q.datSnd[1..];
  }

  lemma Hand(a: seq<Request>, x: Request, b: seq<Request>, c: seq<Request>)
    ensures (a + [x]) + (b + c) == a + (([x] + b) + c)
  {
  }

  lemma OrderReply(s: Dev, id: nat, err: bool)
    requires InHeaderOrder(s)
    ensures InHeaderOrder(ReplyStep(s, id, err))
  {
    hide Select, SubSeq, CmdOf, IndexOf;
    var i, q, ro := IndexOf(s.q.ctlRcv, id), s.q.ctlRcv, s.readOnly;
    if i < |q| && s.l.sock != Down {
      var p, x, t := q[..i], q[i], q[i + 1..];
      assert q == p + ([x] + t);
      SelectConcat(p, [x] + t, Write, ro);
      SelectConcat([x], t, Write, ro);
      SelectConcat(p, t, Write, ro);
      SelectOne(x, ro);
      var rest := Select(t, Write, ro) + (s.q.datSnd + s.h.batch.writeQ);
      Around(Select(p, Write, ro), x, Select(t, Write, ro), s.q.datSnd + s.h.batch.writeQ);
      if CmdOf(x, ro) == Write {
        SubDrop(Select(p, Write, ro), x, rest, s.l.epoch.writes);
      }
    }
  }

  lemma SelectOne(x: Request, ro: bool)
    ensures Select([x], Write, ro) == if CmdOf(x, ro) == Write then [x] else []
  {
    assert [x][1..] == [];
  }

  lemma Around(p: seq<Request>, x: Request, t: seq<Request>, d: seq<Request>)
    ensures (p + ([x] + t)) + d == p + [x] + (t + d) && (p + t) + d == p + (t + d) && p + ([] + t) == p + t
  {
  }

  lemma OrderRest(s: Dev, e: Event)
    requires Enabled(s, e) && QuietInv(s.l, s.q, s.h) && InHeaderOrder(s)
    requires e != Snd(FillOne) && e != Snd(SpliceBatch) && e != Snd(PopWrite) && !(e.Rcv? && e.rcv.Reply?)
    ensures InHeaderOrder(Apply(s, e))
  {
    hide SubSeq, Select, CmdOf, FillBatch, FillStep, RecoverQueues, RecoverLens, IndexOf, RemoveAt;
    if e == Ctl(Start) { Nothing(s.readOnly); }
  }

  lemma Nothing(ro: bool)
    ensures SubSeq(Select([], Write, ro) + ([] + []), [])
  {
    assert Select([], Write, ro) + ([] + []) == [];
  }

  lemma OrderStep(s: Dev, e: Event)
    requires Enabled(s, e) && KindInv(s) && QuietInv(s.l, s.q, s.h) && InHeaderOrder(s)
    ensures InHeaderOrder(Apply(s, e))
  {
    hide KindInv, QuietInv, InHeaderOrder, FillStep, SpliceStep, PopWriteStep, ReplyStep;
    match e
    case Snd(FillOne) => OrderFill(s);
    case Snd(SpliceBatch) => OrderSplice(s);
    case Snd(PopWrite) => OrderPop(s);
    case Rcv(Reply(id, err)) => OrderReply(s, id, err);
    case _ => OrderRest(s, e);
  }

  lemma {:induction false} OrderRun(s: Dev, es: seq<Event>, t: Dev)
    requires Run(s, es, t) && KindInv(s) && StreamInv(s) && InHeaderOrder(s)
    ensures InHeaderOrder(t)
    decreases |es|
  {
    hide Enabled, Apply, KindInv, LinkInv, QuietInv, InHeaderOrder;
    if es != [] {
      OrderStep(s, es[0]);
      KindStep(s, es[0]);
      StreamStep(s, es[0]);
      OrderRun(Apply(s, es[0]), es[1..], t);
    }
  }

  /** In every run, while connected, the WRITEs that wait for their reply, are to be sent, or are in the
      batch at hand are in the order in which their headers were built. */
  lemma WritesStayInOrder(t: Dev)
    requires Reachable(t) && t.l.sock != Down
    ensures SubSeq(Unanswered(t), t.l.epoch.writes)
  {
    hide Run, KindInv, LinkInv, QuietInv, Unanswered, SubSeq;
    var s, es :| Init(s) && Run(s, es, t);
    InitOrder(s);
    OrderRun(s, es, t);
  }

  lemma InitOrder(s: Dev)
    requires Init(s)
    ensures KindInv(s) && StreamInv(s) && InHeaderOrder(s)
  {
  }

  // ------------------------------------------------------------ the send queue

  /** The requests that the handlers put on ctl_snd, in order. */
  ghost function HandledIn(s: Dev, es: seq<Event>, t: Dev): seq<Request>
    requires Run(s, es, t)
    decreases |es|
  {
    if es == [] then []
    else
      var rest := HandledIn(Apply(s, es[0]), es[1..], t);
      if es[0].Ctl? && es[0].ctl.Handle? && !s.errorNow then [es[0].ctl.r] + rest else rest
  }

  predicate LeavesCtlSnd(e: Event) {
    e != Snd(TakeBatch) && e != Ctl(PurgePop(CtlSnd)) && e != Ctl(Recover)
  }

  lemma CtlSndStep(s: Dev, e: Event)
    requires Enabled(s, e) && LeavesCtlSnd(e)
    ensures Apply(s, e).q.ctlSnd ==
      if e.Ctl? && e.ctl.Handle? && !s.errorNow then s.q.ctlSnd + [e.ctl.r] else s.q.ctlSnd
  {
    hide CmdOf, FillBatch, HeaderStep, RecoverQueues, RecoverLens, IndexOf, RemoveAt;
  }

  /** Between two batches, purges and recoveries ctl_snd is a queue: what is handled comes behind what is
      there, in the order of handling. */
  lemma {:induction false} SendQueueIsFifo(s: Dev, es: seq<Event>, t: Dev)
    requires Run(s, es, t) && forall e <- es :: LeavesCtlSnd(e)
    ensures t.q.ctlSnd == s.q.ctlSnd + HandledIn(s, es, t)
    decreases |es|
  {
    hide Enabled, Apply, LeavesCtlSnd;
    if es == [] {
      assert s.q.ctlSnd + [] == s.q.ctlSnd;
    } else {
      var u := Apply(s, es[0]);
      CtlSndStep(s, es[0]);
      SendQueueIsFifo(u, es[1..], t);
      var rest := HandledIn(u, es[1..], t);
      if es[0].Ctl? && es[0].ctl.Handle? && !s.errorNow {
        assert s.q.ctlSnd + [es[0].ctl.r] + rest == s.q.ctlSnd + ([es[0].ctl.r] + rest);
      }
    }
  }
}
