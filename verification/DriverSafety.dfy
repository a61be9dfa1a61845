/** What every run of the request pipeline keeps. */
module DriverSafety {
  import opened Common
  import opened Driver

  // ------------------------------------------------- the data stream

  function Flat(rs: seq<Request>): seq<Byte> {
    if rs == [] then [] else rs[0].data + Flat(rs[1..])
  }

  lemma Assoc(x: seq<Byte>, y: seq<Byte>, z: seq<Byte>)
    ensures (x + y) + z == x + (y + z)
  {
  }

  lemma {:induction false} FlatConcat(a: seq<Request>, b: seq<Request>)
    ensures Flat(a + b) == Flat(a) + Flat(b)
  {
    if a == [] {
      assert a + b == b;
    } else {
      FlatConcat(a[1..], b);
      assert (a + b)[1..] == a[1..] + b;
      Assoc(a[0].data, Flat(a[1..]), Flat(b));
    }
  }

  lemma FlatSnoc(a: seq<Request>, r: Request)
    ensures Flat(a + [r]) == Flat(a) + r.data
  {
    FlatConcat(a, [r]);
  }

  /** Each header's dseq is the offset of its payload, as a 64-bit number. */
  ghost predicate DseqExact(ep: Epoch) {
    && |ep.dseqs| == |ep.writes|
    && forall i :: 0 <= i < |ep.dseqs| ==> ep.dseqs[i] == |Flat(ep.writes[..i])| % TWO64
  }

  ghost predicate GoodEpoch(ep: Epoch) {
    DseqExact(ep) && ep.wire <= Flat(ep.writes)
  }

  /** Payload bytes of the current request not yet on the wire. */
  function Rest(s: Sending): seq<Byte> {
    if s == Idle || s.sent > |s.req.data| then [] else s.req.data[s.sent..]
  }

  ghost predicate SendingOk(s: Sending) {
    s != Idle ==> s.sent <= |s.req.data|
  }

  /** While the socket is up, what is not on the wire yet is in hand, on dat_snd or in the
      batch, in that order. */
  ghost predicate LinkInv(l: Link, datSnd: seq<Request>, batch: seq<Request>) {
    && GoodEpoch(l.epoch)
    && l.sequence == |Flat(l.epoch.writes)| % TWO64
    && SendingOk(l.sending)
    && (l.sock == Up ==>
          Flat(l.epoch.writes) == l.epoch.wire + (Rest(l.sending) + (Flat(datSnd) + Flat(batch))))
    && forall ep <- l.past :: GoodEpoch(ep)
  }

  /** No thread runs without sockets; between connections only ctl_snd holds requests. */
  ghost predicate QuietInv(l: Link, q: Queues, h: Hands) {
    && (l.stopping ==> l.sock == Down)
    && (l.sock == Down ==> l.sending == Idle && h.batch == NO_BATCH && h.found == None && h.receiving == None)
    && (l.sock == Down && !l.stopping ==> q.datSnd == q.ctlRcv == q.datRcv == [])
  }

  ghost predicate StreamInv(s: Dev) {
    LinkInv(s.l, s.q.datSnd, s.h.batch.writeQ) && QuietInv(s.l, s.q, s.h)
  }

  lemma HeaderKeeps(l: Link, d: seq<Request>, b: seq<Request>, r: Request)
    requires LinkInv(l, d, b)
    ensures LinkInv(HeaderStep(l, r), d, b + [r])
  {
    var ep, ep' := l.epoch, HeaderStep(l, r).epoch;
    FlatSnoc(ep.writes, r);
    FlatSnoc(b, r);
    forall i | 0 <= i < |ep'.dseqs| ensures ep'.dseqs[i] == |Flat(ep'.writes[..i])| % TWO64 {
      assert ep'.writes[..i] == ep.writes[..i];
      if i == |ep.dseqs| { assert ep.writes[..i] == ep.writes; }
    }
    if l.sock == Up {
      Regroup(ep.wire, Rest(l.sending), Flat(d), Flat(b), r.data);
    }
  }

  lemma Regroup(w: seq<Byte>, x: seq<Byte>, y: seq<Byte>, z: seq<Byte>, e: seq<Byte>)
    ensures w + (x + (y + z)) + e == w + (x + (y + (z + e)))
  {
  }

  lemma SendKeeps(l: Link, d: seq<Request>, b: seq<Request>, n: nat)
    requires LinkInv(l, d, b) && l.sock == Up && l.sending != Idle && l.sending.sent + n <= |l.sending.req.data|
    ensures LinkInv(SendStep(l, n), d, b)
  {
    hide Flat;
    var Sending(r, k) := l.sending;
    Advance(l.epoch.wire, r.data, k, n, Flat(d) + Flat(b));
  }

  lemma Advance(w: seq<Byte>, x: seq<Byte>, k: nat, n: nat, y: seq<Byte>)
    requires k + n <= |x|
    ensures w + (x[k..] + y) == (w + x[k..k + n]) + (x[k + n..] + y)
  {
    assert x[k..] == x[k..k + n] + x[k + n..];
  }

  lemma PopKeeps(l: Link, d: seq<Request>, b: seq<Request>)
    requires LinkInv(l, d, b) && d != [] && l.sending == Idle
    ensures LinkInv(l.(sending := Sending(d[0], 0)), d[1..], b)
  {
    var l' := l.(sending := Sending(d[0], 0));
    Assoc(d[0].data, Flat(d[1..]), Flat(b));
    assert Rest(l'.sending) == d[0].data;
    assert Rest(l.sending) + (Flat(d) + Flat(b)) == Flat(d) + Flat(b);
  }

  lemma SpliceLink(l: Link, d: seq<Request>, b: seq<Request>)
    requires LinkInv(l, d, b)
    ensures LinkInv(l, d + b, [])
  {
    FlatConcat(d, b);
    assert Flat(d + b) + Flat([]) == Flat(d) + Flat(b);
  }

  lemma DoneKeeps(l: Link, d: seq<Request>, b: seq<Request>)
    requires LinkInv(l, d, b) && l.sending != Idle && l.sending.sent == |l.sending.req.data|
    ensures LinkInv(l.(sending := Idle), d, b)
  {
  }

  lemma StreamSend(s: Dev, e: SendEvent)
    requires StreamInv(s) && CanSend(s, e)
    ensures StreamInv(ApplySend(s, e))
  {
    var d, b := s.q.datSnd, s.h.batch.writeQ;
    match e
    case FillOne => HeaderKeeps(s.l, d, b, s.h.batch.todo[0]);
    case SendBytes(n) => SendKeeps(s.l, d, b, n);
    case SpliceBatch => SpliceLink(s.l, d, b);
    case PopWrite => PopKeeps(s.l, d, b);
    case SendDone => DoneKeeps(s.l, d, b);
    case _ =>
  }

  lemma StreamRecv(s: Dev, e: RecvEvent)
    requires StreamInv(s) && CanRecv(s, e)
    ensures StreamInv(ApplyRecv(s, e))
  {
  }

  lemma StreamCtl(s: Dev, e: CtlEvent)
    requires StreamInv(s) && CanCtl(s, e)
    ensures StreamInv(ApplyCtl(s, e))
  {
    hide RecoverLens, SpliceAfterFirst;
  }

  lemma StreamStep(s: Dev, e: Event)
    requires StreamInv(s) && Enabled(s, e)
    ensures StreamInv(Apply(s, e))
  {
    match e
    case Snd(x) => StreamSend(s, x);
    case Rcv(x) => StreamRecv(s, x);
    case Ctl(x) => StreamCtl(s, x);
  }

  lemma {:induction false} StreamRun(s: Dev, es: seq<Event>, t: Dev)
    requires StreamInv(s) && Run(s, es, t)
    ensures StreamInv(t)
    decreases |es|
  {
    if es != [] {
      StreamStep(s, es[0]);
      StreamRun(Apply(s, es[0]), es[1..], t);
    }
  }

  /** In every reachable state, in the current and in every past connection: the bytes on
      the data socket are a prefix of the WRITE payloads in header order, and each dseq is
      the offset of its payload there. */
  lemma DataStreamExact(t: Dev)
    requires Reachable(t)
    ensures forall ep <- t.l.past + [t.l.epoch] :: DseqExact(ep) && ep.wire <= Flat(ep.writes)
  {
    var s, es :| Init(s) && Run(s, es, t);
    StreamRun(s, es, t);
  }

  /** What a server gets that cuts the payload of header i out of the stream at its dseq. */
  lemma ServerReadsPayload(t: Dev, ep: Epoch, i: nat)
    requires Reachable(t) && ep in t.l.past + [t.l.epoch] && i < |ep.writes|
    requires |Flat(ep.writes)| < TWO64
    ensures |ep.dseqs| == |ep.writes|
    ensures var o, n := ep.dseqs[i], |ep.writes[i].data|;
            o + n <= |ep.wire| ==> ep.wire[o..o + n] == ep.writes[i].data
  {
    DataStreamExact(t);
    hide Reachable;
    var a, r, c := ep.writes[..i], ep.writes[i], ep.writes[i + 1..];
    assert ep.writes == a + ([r] + c);
    FlatConcat(a, [r] + c);
    assert ([r] + c)[1..] == c;
    CutOut(Flat(a), r.data, Flat(c), ep.wire);
  }

  lemma CutOut(a: seq<Byte>, d: seq<Byte>, c: seq<Byte>, w: seq<Byte>)
    requires w <= a + (d + c)
    ensures |a| + |d| <= |w| ==> w[|a|..|a| + |d|] == d
  {
  }

  // ------------------------------------------- every request, exactly once

  /** How often r occurs in rs. */
  function Occ(rs: seq<Request>, r: Request): nat {
    if rs == [] then 0 else (if rs[0] == r then 1 else 0) + Occ(rs[1..], r)
  }

  lemma {:induction false} OccConcat(a: seq<Request>, b: seq<Request>, r: Request)
    ensures Occ(a + b, r) == Occ(a, r) + Occ(b, r)
  {
    if a == [] {
      assert a + b == b;
    } else {
      OccConcat(a[1..], b, r);
      assert (a + b)[1..] == a[1..] + b;
    }
  }

  lemma OccTail(q: seq<Request>, r: Request)
    requires q != []
    ensures Occ(q, r) == (if q[0] == r then 1 else 0) + Occ(q[1..], r)
  {
  }

  lemma OccSnoc(a: seq<Request>, x: Request, r: Request)
    ensures Occ(a + [x], r) == Occ(a, r) + (if x == r then 1 else 0)
  {
    OccConcat(a, [x], r);
  }

  lemma OccRemove(q: seq<Request>, i: nat, r: Request)
    requires i < |q|
    ensures Occ(q, r) == Occ(RemoveAt(q, i), r) + (if q[i] == r then 1 else 0)
  {
    assert q == q[..i] + q[i..];
    OccConcat(q[..i], q[i..], r);
    OccConcat(q[..i], q[i + 1..], r);
  }

  lemma {:induction false} OccIn(rs: seq<Request>, r: Request)
    ensures Occ(rs, r) > 0 <==> r in rs
  {
    if rs != [] { OccIn(rs[1..], r); }
  }

  function Held(o: Option<Request>, r: Request): nat {
    if o == Some(r) then 1 else 0
  }

  function HeldFound(o: Option<Found>, r: Request): nat {
    if o != None && o.value.req == r then 1 else 0
  }

  /** How often r is on the queues. */
  function Queued(q: Queues, r: Request): nat {
    Occ(q.ctlSnd, r) + Occ(q.datSnd, r) + Occ(q.ctlRcv, r) + Occ(q.datRcv, r)
  }

  function InBatch(b: Batch, r: Request): nat {
    Occ(b.todo, r) + Occ(b.readQ, r) + Occ(b.writeQ, r) + Occ(b.trimQ, r)
  }

  /** How often r is held by a thread. */
  function InHand(h: Hands, r: Request): nat {
    h.handlers[r] + InBatch(h.batch, r) + HeldFound(h.found, r) + Held(h.receiving, r) + Held(h.purging, r)
  }

  /** All places a request can be: a queue, a thread's hands, or finished. */
  function Places(s: Dev, r: Request): nat {
    Queued(s.q, r) + InHand(s.h, r) + Occ(s.g.ended, r)
  }

  lemma SpliceKeeps(q: seq<Request>, l: seq<Request>, r: Request)
    ensures Occ(SpliceAfterFirst(q, l), r) == Occ(q, r) + Occ(l, r)
  {
    if l != [] && q != [] {
      OccConcat([q[0]] + l, q[1..], r);
      OccConcat([q[0]], l, r);
    }
  }

  lemma RecoverKeeps(q: Queues, r: Request)
    ensures Occ(RecoverQueues(q).ctlSnd, r) == Queued(RecoverQueues(q), r) == Queued(q, r)
  {
    var q1 := SpliceAfterFirst(q.ctlSnd, q.datRcv);
    var q2 := SpliceAfterFirst(q1, q.ctlRcv);
    SpliceKeeps(q.ctlSnd, q.datRcv, r);
    SpliceKeeps(q1, q.ctlRcv, r);
    SpliceKeeps(q2, q.datSnd, r);
  }

  lemma FillBatchKeeps(b: Batch, c: Cmd, r: Request)
    requires b.todo != []
    ensures InBatch(b, r) == InBatch(FillBatch(b, c), r) + (if c == Bad && b.todo[0] == r then 1 else 0)
  {
    OccSnoc(b.readQ, b.todo[0], r);
    OccSnoc(b.writeQ, b.todo[0], r);
    OccSnoc(b.trimQ, b.todo[0], r);
  }

  lemma SpliceStepKeeps(q: Queues, b: Batch, r: Request)
    ensures Queued(q, r) + InBatch(b.(todo := []), r) ==
      Queued(q.(ctlRcv := q.ctlRcv + b.readQ + b.trimQ, datSnd := q.datSnd + b.writeQ), r)
  {
    OccConcat(q.ctlRcv + b.readQ, b.trimQ, r);
    OccConcat(q.ctlRcv, b.readQ, r);
    OccConcat(q.datSnd, b.writeQ, r);
  }

  lemma PlacesSend(s: Dev, e: SendEvent, r: Request)
    requires CanSend(s, e)
    ensures Places(ApplySend(s, e), r) == Places(s, r)
  {
    match e
    case FillOne =>
      FillBatchKeeps(s.h.batch, CmdOf(s.h.batch.todo[0], s.readOnly), r);
      OccSnoc(s.g.ended, s.h.batch.todo[0], r);
    case SpliceBatch => SpliceStepKeeps(s.q, s.h.batch, r);
    case PopWrite => OccSnoc(s.q.ctlRcv, s.q.datSnd[0], r);
    case _ =>
  }

  lemma PlacesRecv(s: Dev, e: RecvEvent, r: Request)
    requires CanRecv(s, e)
    ensures Places(ApplyRecv(s, e), r) == Places(s, r)
  {
    hide InBatch, IndexOf, RemoveAt, Occ;
    match e
    case Reply(id, err) =>
      var i := IndexOf(s.q.ctlRcv, id);
      if i < |s.q.ctlRcv| { OccRemove(s.q.ctlRcv, i, r); }
    case Dispatch =>
      OccSnoc(s.q.datRcv, s.h.found.value.req, r);
      OccSnoc(s.g.ended, s.h.found.value.req, r);
    case PopRead => OccTail(s.q.datRcv, r);
    case ReadDone => OccSnoc(s.g.ended, s.h.receiving.value, r);
    case ReadFail =>
      OccTail([s.h.receiving.value] + s.q.datRcv, r);
      assert ([s.h.receiving.value] + s.q.datRcv)[1..] == s.q.datRcv;
  }

  lemma PurgeKeeps(s: Dev, q: QueueName, r: Request)
    requires CanCtl(s, PurgePop(q))
    ensures Places(PurgePopStep(s, q), r) == Places(s, r)
  {
    assert Queued(s.q, r) == Queued(PurgePopStep(s, q).q, r) + Held(Some(Queue(s.q, q)[0]), r);
  }

  lemma PlacesCtl(s: Dev, e: CtlEvent, r: Request)
    requires CanCtl(s, e)
    ensures Places(ApplyCtl(s, e), r) == Places(s, r) + (if e == Fetch(r) then 1 else 0)
  {
    hide Occ, InBatch, HeldFound, RecoverQueues, RecoverLens;
    match e
    case Handle(x) =>
      OccSnoc(s.q.ctlSnd, x, r);
      OccSnoc(s.g.ended, x, r);
    case PurgePop(q) => PurgeKeeps(s, q, r);
    case PurgeEnd => OccSnoc(s.g.ended, s.h.purging.value, r);
    case Recover => RecoverKeeps(s.q, r);
    case _ =>
  }

  /** No step loses or duplicates a request; only its fetch adds it. */
  lemma PlacesStep(s: Dev, e: Event, r: Request)
    requires Enabled(s, e)
    ensures Places(Apply(s, e), r) == Places(s, r) + (if e == Ctl(Fetch(r)) then 1 else 0)
  {
    match e
    case Snd(x) => PlacesSend(s, x, r);
    case Rcv(x) => PlacesRecv(s, x, r);
    case Ctl(x) => PlacesCtl(s, x, r);
  }

  ghost predicate Distinct(rs: seq<Request>) {
    forall i, j :: 0 <= i < j < |rs| ==> rs[i].id != rs[j].id
  }

  ghost predicate CountInv(s: Dev) {
    && Distinct(s.g.fetched)
    && s.g.nrReq == |s.g.fetched| - |s.g.ended|
    && forall r :: Places(s, r) == Occ(s.g.fetched, r)
  }

  lemma LogStep(s: Dev, e: Event)
    requires Enabled(s, e)
    ensures var g, g' := s.g, Apply(s, e).g;
      && g'.fetched == (if e.Ctl? && e.ctl.Fetch? then g.fetched + [e.ctl.r] else g.fetched)
      && g'.nrReq - g.nrReq == (|g'.fetched| - |g.fetched|) - (|g'.ended| - |g.ended|)
  {
    match e
    case _ =>
  }

  lemma CountStep(s: Dev, e: Event)
    requires CountInv(s) && Enabled(s, e)
    ensures CountInv(Apply(s, e))
  {
    LogStep(s, e);
    var s' := Apply(s, e);
    forall r ensures Places(s', r) == Occ(s'.g.fetched, r) {
      PlacesStep(s, e, r);
      if e.Ctl? && e.ctl.Fetch? { OccSnoc(s.g.fetched, e.ctl.r, r); }
    }
  }

  lemma {:induction false} CountRun(s: Dev, es: seq<Event>, t: Dev)
    requires CountInv(s) && Run(s, es, t)
    ensures CountInv(t)
    decreases |es|
  {
    if es != [] {
      CountStep(s, es[0]);
      CountRun(Apply(s, es[0]), es[1..], t);
    }
  }

  lemma {:induction false} OnceIfDistinct(rs: seq<Request>, r: Request)
    requires Distinct(rs)
    ensures Occ(rs, r) == if r in rs then 1 else 0
  {
    if rs != [] {
      OnceIfDistinct(rs[1..], r);
    }
  }

  /** Whatever replies arrive, each fetched request is in exactly one queue, in the hands of
      one thread, or ended; none is ended twice; nr_req counts those not yet ended. */
  lemma EachRequestOnce(t: Dev, r: Request)
    requires Reachable(t)
    ensures Queued(t.q, r) + InHand(t.h, r) + Occ(t.g.ended, r) == if r in t.g.fetched then 1 else 0
    ensures t.g.nrReq == |t.g.fetched| - |t.g.ended|
  {
    var s, es :| Init(s) && Run(s, es, t);
    CountRun(s, es, t);
    OnceIfDistinct(t.g.fetched, r);
    assert Places(t, r) == Occ(t.g.fetched, r);
  }

  // ------------------------------------------------------- life cycles

  ghost predicate AllAre(rs: seq<Request>, c: Cmd, ro: bool) {
    forall r <- rs :: CmdOf(r, ro) == c
  }

  ghost predicate NoneBad(rs: seq<Request>, ro: bool) {
    forall r <- rs :: CmdOf(r, ro) != Bad
  }

  ghost predicate QueueKinds(q: Queues, ro: bool) {
    AllAre(q.datSnd, Write, ro) && AllAre(q.datRcv, Read, ro) && NoneBad(q.ctlRcv, ro)
  }

  ghost predicate BatchKinds(b: Batch, ro: bool) {
    AllAre(b.readQ, Read, ro) && AllAre(b.writeQ, Write, ro) && AllAre(b.trimQ, Trim, ro)
  }

  /** Which command may be found where. */
  ghost predicate KindInv(s: Dev) {
    && QueueKinds(s.q, s.readOnly) && BatchKinds(s.h.batch, s.readOnly)
    && (s.h.found != None ==> CmdOf(s.h.found.value.req, s.readOnly) != Bad)
    && (s.h.receiving != None ==> CmdOf(s.h.receiving.value, s.readOnly) == Read)
    && (s.l.sending != Idle ==> CmdOf(s.l.sending.req, s.readOnly) == Write)
  }

  lemma KindFill(b: Batch, ro: bool)
    requires BatchKinds(b, ro) && b.todo != []
    ensures BatchKinds(FillBatch(b, CmdOf(b.todo[0], ro)), ro)
  {
  }

  lemma KindSend(s: Dev, e: SendEvent)
    requires KindInv(s) && CanSend(s, e)
    ensures KindInv(ApplySend(s, e))
  {
    if e == FillOne { KindFill(s.h.batch, s.readOnly); }
  }

  lemma KindRecv(s: Dev, e: RecvEvent)
    requires KindInv(s) && CanRecv(s, e)
    ensures KindInv(ApplyRecv(s, e))
  {
  }

  lemma KindCtl(s: Dev, e: CtlEvent)
    requires KindInv(s) && CanCtl(s, e)
    ensures KindInv(ApplyCtl(s, e))
  {
  }

  lemma KindStep(s: Dev, e: Event)
    requires KindInv(s) && Enabled(s, e)
    ensures KindInv(Apply(s, e))
  {
    match e
    case Snd(x) => KindSend(s, x);
    case Rcv(x) => KindRecv(s, x);
    case Ctl(x) => KindCtl(s, x);
  }

  lemma {:induction false} KindRun(s: Dev, es: seq<Event>, t: Dev)
    requires KindInv(s) && Run(s, es, t)
    ensures KindInv(t)
    decreases |es|
  {
    if es != [] {
      KindStep(s, es[0]);
      KindRun(Apply(s, es[0]), es[1..], t);
    }
  }

  /** The data sender only ever sends WRITEs and the data receiver only READs, so neither
      thread's sanity check fires. */
  lemma LifeCycles(t: Dev)
    requires Reachable(t)
    ensures KindInv(t)
  {
    var s, es :| Init(s) && Run(s, es, t);
    KindRun(s, es, t);
  }

  // ---------------------------------------------------------- recovery

  /** a is b with some entries left out. */
  ghost predicate SubSeq(a: seq<Request>, b: seq<Request>)
    decreases |b|
  {
    a == [] || (b != [] && (SubSeq(a, b[1..]) || (a[0] == b[0] && SubSeq(a[1..], b[1..]))))
  }

  lemma {:induction false} SubSeqRefl(a: seq<Request>)
    ensures SubSeq(a, a)
  {
    if a != [] { SubSeqRefl(a[1..]); }
  }

  lemma {:induction false} SubSeqPrepend(a: seq<Request>, x: seq<Request>, b: seq<Request>)
    requires SubSeq(a, b)
    ensures SubSeq(a, x + b)
  {
    if x == [] {
      assert x + b == b;
    } else {
      assert (x + b)[1..] == x[1..] + b;
      SubSeqPrepend(a, x[1..], b);
    }
  }

  lemma {:induction false} SubSeqConcat(a: seq<Request>, b: seq<Request>, c: seq<Request>, d: seq<Request>)
    requires SubSeq(a, b) && SubSeq(c, d)
    ensures SubSeq(a + c, b + d)
    decreases |b|
  {
    if a == [] {
      assert a + c == c;
      SubSeqPrepend(c, b, d);
    } else {
      assert (b + d)[1..] == b[1..] + d;
      if SubSeq(a, b[1..]) {
        SubSeqConcat(a, b[1..], c, d);
      } else {
        SubSeqConcat(a[1..], b[1..], c, d);
        assert (a + c)[1..] == a[1..] + c;
      }
    }
  }

  /** Splicing behind the first entry keeps every subsequence of both lists. */
  lemma SpliceKeepsOrder(a: seq<Request>, q: seq<Request>, l: seq<Request>)
    requires SubSeq(a, q) || SubSeq(a, l)
    ensures SubSeq(a, SpliceAfterFirst(q, l))
  {
    if l == [] {
    } else if q == [] {
    } else {
      var out := [q[0]] + l + q[1..];
      assert out[1..] == l + q[1..];
      if SubSeq(a, l) {
        SubSeqConcat(a, l, [], q[1..]);
        assert a + [] == a;
        assert SubSeq(a, out[1..]);
        assert SubSeq(a, out);
      } else if a != [] {
        if SubSeq(a, q[1..]) {
          SubSeqPrepend(a, l, q[1..]);
        } else {
          SubSeqPrepend(a[1..], l, q[1..]);
        }
      }
    }
  }

  /** Recovery leaves on ctl_snd exactly the queued requests, the other queues empty, and each
      old queue in its own order inside the new one. */
  lemma RecoveryLosesNothing(q: Queues)
    ensures var t := RecoverQueues(q);
      && t.datSnd == t.ctlRcv == t.datRcv == []
      && (forall r :: Occ(t.ctlSnd, r) == Queued(q, r))
      && SubSeq(q.ctlSnd, t.ctlSnd) && SubSeq(q.datSnd, t.ctlSnd)
      && SubSeq(q.ctlRcv, t.ctlSnd) && SubSeq(q.datRcv, t.ctlSnd)
  {
    forall r ensures Occ(RecoverQueues(q).ctlSnd, r) == Queued(q, r) {
      RecoverKeeps(q, r);
    }
    var q1 := SpliceAfterFirst(q.ctlSnd, q.datRcv);
    var q2 := SpliceAfterFirst(q1, q.ctlRcv);
    SubSeqRefl(q.ctlSnd); SubSeqRefl(q.datSnd); SubSeqRefl(q.ctlRcv); SubSeqRefl(q.datRcv);
    forall a | a == q.ctlSnd || a == q.datRcv ensures SubSeq(a, q2) {
      SpliceKeepsOrder(a, q.ctlSnd, q.datRcv);
      SpliceKeepsOrder(a, q1, q.ctlRcv);
    }
    SpliceKeepsOrder(q.ctlRcv, q1, q.ctlRcv);
    forall a | SubSeq(a, q2) || a == q.datSnd ensures SubSeq(a, RecoverQueues(q).ctlSnd) {
      SpliceKeepsOrder(a, q2, q.datSnd);
    }
  }

  /** After recovery in any run, ctl_snd holds every unfinished request exactly once, except
      those that a request handler or a purge still has in hand. */
  lemma RecoveredQueueComplete(t: Dev, r: Request)
    requires Reachable(t) && t.l.stopping
    ensures Occ(RecoverStep(t).q.ctlSnd, r) ==
      if r !in t.g.fetched || r in t.g.ended || r in t.h.handlers || t.h.purging == Some(r) then 0 else 1
    ensures CanCtl(RecoverStep(t), Start)
  {
    var s, es :| Init(s) && Run(s, es, t);
    StreamRun(s, es, t);
    EachRequestOnce(t, r);
    OccIn(t.g.ended, r);
    RecoverKeeps(t.q, r);
  }

  // ---------------------------------------------------- length counters

  ghost predicate LensExact(s: Dev) {
    && s.n.ctlSnd == |s.q.ctlSnd| && s.n.datSnd == |s.q.datSnd|
    && s.n.ctlRcv == |s.q.ctlRcv| && s.n.datRcv == |s.q.datRcv|
  }

  lemma LensCtl(s: Dev, e: CtlEvent)
    requires LensExact(s) && CanCtl(s, e)
    ensures LensExact(ApplyCtl(s, e))
  {
  }

  /** Any step but the batch splice keeps exact counters exact. */
  lemma LensStep(s: Dev, e: Event)
    requires LensExact(s) && Enabled(s, e) && e != Snd(SpliceBatch)
    ensures LensExact(Apply(s, e))
  {
    if e.Ctl? { LensCtl(s, e.ctl); }
  }

  /** The splice keeps them exact if and only if the batch has no TRIM, which it counts on
      the wrong queue. */
  lemma LensSplice(s: Dev)
    requires LensExact(s)
    ensures LensExact(SpliceStep(s)) <==> s.h.batch.trimQ == []
  {
  }

  ghost predicate NoTrim(s: Dev) {
    forall r <- s.g.fetched :: CmdOf(r, s.readOnly) != Trim
  }

  lemma NoTrimBatch(s: Dev, t: Dev)
    requires CountInv(s) && KindInv(s) && NoTrim(t)
    requires s.g.fetched <= t.g.fetched && t.readOnly == s.readOnly
    ensures s.h.batch.trimQ == []
  {
    if s.h.batch.trimQ != [] {
      var r := s.h.batch.trimQ[0];
      assert r in t.g.fetched by {
        assert Places(s, r) == Occ(s.g.fetched, r) > 0;
        OccIn(s.g.fetched, r);
      }
    }
  }

  lemma {:induction false} LensRun(s: Dev, es: seq<Event>, t: Dev)
    requires LensExact(s) && CountInv(s) && KindInv(s) && Run(s, es, t) && NoTrim(t)
    ensures LensExact(t)
    decreases |es|
  {
    if es != [] {
      FetchedGrows(s, es, t);
      NoTrimBatch(s, t);
      if es[0] == Snd(SpliceBatch) { LensSplice(s); } else { LensStep(s, es[0]); }
      CountStep(s, es[0]);
      KindStep(s, es[0]);
      LensRun(Apply(s, es[0]), es[1..], t);
    }
  }

  lemma {:induction false} FetchedGrows(s: Dev, es: seq<Event>, t: Dev)
    requires Run(s, es, t)
    ensures s.g.fetched <= t.g.fetched && t.readOnly == s.readOnly
    decreases |es|
  {
    if es != [] {
      FetchedGrows(Apply(s, es[0]), es[1..], t);
    }
  }

  /** In every run without TRIM requests the four counters are the true queue lengths. */
  lemma CountersExact(t: Dev)
    requires Reachable(t) && NoTrim(t)
    ensures LensExact(t)
  {
    var s, es :| Init(s) && Run(s, es, t);
    LensRun(s, es, t);
  }

  /** Started, one request fetched and queued. */
  lemma OneQueued(s: Dev, r: Request) returns (t: Dev, es: seq<Event>)
    requires Init(s) && !s.errorNow
    ensures Run(s, es, t) && t.readOnly == s.readOnly && !t.errorNow && t.g.fetched == [r]
    ensures t.l.sock == Up && t.l.sending == Idle
    ensures t.q == Queues([r], [], [], []) && t.n == Lens(1, 0, 0, 0) && t.h == s.h
  {
    var s1 := Apply(s, Ctl(Start));
    var s2 := Apply(s1, Ctl(Fetch(r)));
    t := Apply(s2, Ctl(Handle(r)));
    RunSnoc(s, [], s, Ctl(Start));
    RunSnoc(s, [Ctl(Start)], s1, Ctl(Fetch(r)));
    RunSnoc(s, [Ctl(Start)] + [Ctl(Fetch(r))], s2, Ctl(Handle(r)));
    es := [Ctl(Start)] + [Ctl(Fetch(r))] + [Ctl(Handle(r))];
  }

  /** One TRIM is enough: start, fetch it, queue it, send its batch. */
  lemma TrimBreaksCounters(s: Dev, r: Request)
    requires Init(s) && CmdOf(r, s.readOnly) == Trim && !s.errorNow
    ensures exists t :: Reachable(t) && !LensExact(t)
  {
    var s3, es3 := OneQueued(s, r);
    var s4 := Apply(s3, Snd(TakeBatch));
    RunSnoc(s, es3, s3, Snd(TakeBatch));
    var es4 := es3 + [Snd(TakeBatch)];
    var s5 := Apply(s4, Snd(FillOne));
    RunSnoc(s, es4, s4, Snd(FillOne));
    var es5 := es4 + [Snd(FillOne)];
    var t := Apply(s5, Snd(SpliceBatch));
    RunSnoc(s, es5, s5, Snd(SpliceBatch));
    assert Reachable(t);
  }

  lemma {:induction false} RunSnoc(s: Dev, es: seq<Event>, t: Dev, e: Event)
    requires Run(s, es, t) && Enabled(t, e)
    ensures Run(s, es + [e], Apply(t, e))
    decreases |es|
  {
    if es != [] {
      RunSnoc(Apply(s, es[0]), es[1..], t, e);
      assert (es + [e])[1..] == es[1..] + [e];
    }
  }
}
