/** The receive side of the data socket: what a READ is filled with. The pipeline's steps, with the
    stream that the server puts on the data socket, and with receiver threads that end for good: the
    control receiver at a reply that names no waiting request, the data receiver at a failed
    receive. */
module DriverReads {
  import opened Common
  import opened Driver
  import opened DriverSafety

  /** A stretch of the server's stream, and the request it is meant for. */
  datatype Block = Block(id: nat, data: seq<Byte>)

  datatype Delivery = Delivery(req: Request, got: seq<Byte>)

  /** plan: the blocks that the server has decided to send and that are not received in full.
      incoming: the part of their bytes that has arrived and is not received yet. sentFor: what the
      server last sent for a request that it answered. delivered: the READs that ended without an
      error. */
  datatype Rx = Rx(
    ctlDead: bool, datDead: bool, plan: seq<Block>, incoming: seq<Byte>, sentFor: map<nat, seq<Byte>>,
    delivered: seq<Delivery>)

  datatype Full = Full(d: Dev, x: Rx)

  /** A step of the pipeline, a decision of the server what to send next, or the arrival of some more
      bytes, which may come before or after the reply and in any pieces. */
  datatype Move = Do(e: Event) | Plan(b: Block) | Arrive(n: nat)

  function Bytes(bs: seq<Block>): seq<Byte> {
    if bs == [] then [] else bs[0].data + Bytes(bs[1..])
  }

  function HeldSeq(o: Option<Request>): seq<Request> { if o == None then [] else [o.value] }

  function FoundSeq(o: Option<Found>, ro: bool): seq<Request> {
    if o == None || o.value.err || CmdOf(o.value.req, ro) != Read then [] else [o.value.req]
  }

  /** The READs that were answered with success and wait for their data, in the order in which they
      will receive it. */
  function Awaiting(d: Dev): seq<Request> {
    HeldSeq(d.h.receiving) + (d.q.datRcv + FoundSeq(d.h.found, d.readOnly))
  }

  /** The reply tells a waiting READ that its data is on the way. */
  predicate Delivers(d: Dev, id: nat, err: bool) {
    var i := IndexOf(d.q.ctlRcv, id);
    i < |d.q.ctlRcv| && !err && CmdOf(d.q.ctlRcv[i], d.readOnly) == Read
  }

  /** What a server keeps to: the successful READ replies come in the order of their blocks, and a
      block is as long as its request asks. */
  predicate Honours(f: Full, id: nat) {
    var i, k := IndexOf(f.d.q.ctlRcv, id), |Awaiting(f.d)|;
    && i < |f.d.q.ctlRcv| && k < |f.x.plan|
    && f.x.plan[k].id == id && |f.x.plan[k].data| == |f.d.q.ctlRcv[i].data|
  }

  predicate AllowedRecv(f: Full, e: RecvEvent) {
    match e
    case Reply(id, err) => !f.x.ctlDead && (Delivers(f.d, id, err) ==> Honours(f, id))
    case PopRead => !f.x.datDead
    case ReadDone => f.d.h.receiving != None && |f.d.h.receiving.value.data| <= |f.x.incoming|
    case _ => true
  }

  predicate Allowed(f: Full, m: Move) {
    match m
    case Do(e) => Enabled(f.d, e) && (e.Rcv? ==> AllowedRecv(f, e.rcv))
    case Plan(_) => f.d.l.sock != Down
    case Arrive(n) => f.d.l.sock != Down && |f.x.incoming| + n <= |Bytes(f.x.plan)|
  }

  function ReplyRx(f: Full, id: nat, err: bool): Rx
    requires Delivers(f.d, id, err) ==> Honours(f, id)
  {
    if IndexOf(f.d.q.ctlRcv, id) >= |f.d.q.ctlRcv| then f.x.(ctlDead := true)
    else if Delivers(f.d, id, err) then f.x.(sentFor := f.x.sentFor[id := f.x.plan[|Awaiting(f.d)|].data])
    else f.x
  }

  /** The receive of r's data; the block it was in is over. */
  function DoneRx(x: Rx, r: Request): Rx
    requires |r.data| <= |x.incoming|
  {
    x.(plan := if x.plan == [] then [] else x.plan[1..], incoming := x.incoming[|r.data|..],
       delivered := x.delivered + [Delivery(r, x.incoming[..|r.data|])])
  }

  function RecvRx(f: Full, e: RecvEvent): Rx
    requires AllowedRecv(f, e)
  {
    match e
    case Reply(id, err) => ReplyRx(f, id, err)
    case ReadDone => DoneRx(f.x, f.d.h.receiving.value)
    case ReadFail => f.x.(datDead := true)
    case _ => f.x
  }

  function CtlNext(x: Rx, e: CtlEvent): Rx {
    if e == Start then x.(ctlDead := false, datDead := false, plan := [], incoming := []) else x
  }

  function NextRx(f: Full, m: Move): Rx
    requires Allowed(f, m)
  {
    match m
    case Do(Snd(_)) => f.x
    case Do(Rcv(e)) => RecvRx(f, e)
    case Do(Ctl(e)) => CtlNext(f.x, e)
    case Plan(b) => f.x.(plan := f.x.plan + [b])
    case Arrive(n) => f.x.(incoming := Bytes(f.x.plan)[..|f.x.incoming| + n])
  }

  function Next(f: Full, m: Move): Full
    requires Allowed(f, m)
  {
    Full(if m.Do? then Apply(f.d, m.e) else f.d, NextRx(f, m))
  }

  ghost predicate Goes(f: Full, ms: seq<Move>, g: Full)
    decreases |ms|
  {
    if ms == [] then f == g else Allowed(f, ms[0]) && Goes(Next(f, ms[0]), ms[1..], g)
  }

  ghost predicate Begin(f: Full) { Init(f.d) && f.x == Rx(false, false, [], [], map[], []) }

  ghost predicate Reached(g: Full) { exists f, ms :: Begin(f) && Goes(f, ms, g) }

  // --------------------------------------------------------------- invariant

  predicate Owed(m: map<nat, seq<Byte>>, b: Block, r: Request) {
    b.id == r.id && |b.data| == |r.data| && r.id in m && m[r.id] == b.data
  }

  /** The answered READs and the server's blocks go together, one by one. */
  predicate Matches(m: map<nat, seq<Byte>>, bs: seq<Block>, rs: seq<Request>) {
    |rs| <= |bs| && forall i :: 0 <= i < |rs| ==> Owed(m, bs[i], rs[i])
  }

  /** While the data receiver lives, what has arrived is the beginning of the planned blocks. */
  ghost predicate RxInv(f: Full) {
    f.d.l.sock != Down ==>
      && Matches(f.x.sentFor, f.x.plan, Awaiting(f.d))
      && (!f.x.datDead ==> f.x.incoming <= Bytes(f.x.plan))
      && (f.d.h.receiving != None ==> !f.x.datDead)
  }

  ghost predicate DeliveredInv(f: Full) {
    forall v <- f.x.delivered :: v.req in f.d.g.ended && v.req.id in f.x.sentFor && f.x.sentFor[v.req.id] == v.got
  }

  ghost predicate BaseInv(d: Dev) { CountInv(d) && KindInv(d) && StreamInv(d) }

  ghost predicate Inv(f: Full) { BaseInv(f.d) && RxInv(f) && DeliveredInv(f) }

  // ------------------------------------------------------------------- lemmas

  lemma {:induction false} BytesSnoc(bs: seq<Block>, b: Block)
    ensures Bytes(bs + [b]) == Bytes(bs) + b.data
    decreases |bs|
  {
    if bs == [] {
      assert bs + [b] == [b] && [b][1..] == [];
    } else {
      assert (bs + [b])[1..] == bs[1..] + [b];
      BytesSnoc(bs[1..], b);
      Assoc(bs[0].data, Bytes(bs[1..]), b.data);
    }
  }

  /** A request waiting on ctl_rcv shares its id with no request elsewhere. */
  lemma OnlyThere(d: Dev, r: Request, y: Request)
    requires CountInv(d) && r in d.q.ctlRcv && Places(d, y) >= Occ(d.q.ctlRcv, y) + 1
    ensures y.id != r.id
  {
    hide Occ;
    OccIn(d.q.ctlRcv, r);
    OnceIfDistinct(d.g.fetched, r);
    OnceIfDistinct(d.g.fetched, y);
    assert Places(d, r) == Occ(d.g.fetched, r) && Places(d, y) == Occ(d.g.fetched, y);
    OccIn(d.g.fetched, r);
    OccIn(d.g.fetched, y);
    SameIdSame(d.g.fetched, r, y);
  }

  lemma SameIdSame(rs: seq<Request>, a: Request, b: Request)
    requires Distinct(rs) && a in rs && b in rs
    ensures a.id == b.id ==> a == b
  {
  }

  /** No request in the receiver's hands or on dat_rcv, and none ended, has the id of one on ctl_rcv. */
  lemma OthersDiffer(d: Dev, r: Request)
    requires CountInv(d) && r in d.q.ctlRcv
    ensures forall y <- d.q.datRcv :: y.id != r.id
    ensures d.h.receiving != None ==> d.h.receiving.value.id != r.id
    ensures forall y <- d.g.ended :: y.id != r.id
  {
    hide CountInv, Occ, InBatch;
    forall y | y in d.q.datRcv || y in d.g.ended ensures y.id != r.id {
      OccIn(d.q.datRcv, y);
      OccIn(d.g.ended, y);
      OnlyThere(d, r, y);
    }
    if d.h.receiving != None { OnlyThere(d, r, d.h.receiving.value); }
  }

  // -------------------------------------------------------------------- steps

  lemma ReplyFinds(d: Dev, id: nat)
    requires IndexOf(d.q.ctlRcv, id) < |d.q.ctlRcv|
    ensures d.q.ctlRcv[IndexOf(d.q.ctlRcv, id)] in d.q.ctlRcv && d.q.ctlRcv[IndexOf(d.q.ctlRcv, id)].id == id
  {
    IndexOfIs(d.q.ctlRcv, id);
  }

  /** A reply adds its READ at the end of the awaiting ones, or nothing. */
  lemma ReplyAwaits(d: Dev, id: nat, err: bool)
    requires d.h.found == None
    ensures Awaiting(ReplyStep(d, id, err)) ==
      if Delivers(d, id, err) then Awaiting(d) + [d.q.ctlRcv[IndexOf(d.q.ctlRcv, id)]] else Awaiting(d)
  {
    hide CmdOf, RemoveAt, IndexOf;
    assert d.q.datRcv + [] == d.q.datRcv;
  }

  lemma AwaitingDiffer(d: Dev, r: Request)
    requires CountInv(d) && r in d.q.ctlRcv && d.h.found == None
    ensures forall y <- Awaiting(d) :: y.id != r.id
  {
    hide CountInv;
    OthersDiffer(d, r);
  }

  lemma MatchesMore(m: map<nat, seq<Byte>>, bs: seq<Block>, rs: seq<Request>, r: Request)
    requires Matches(m, bs, rs) && |rs| < |bs| && (forall y <- rs :: y.id != r.id)
    requires bs[|rs|].id == r.id && |bs[|rs|].data| == |r.data|
    ensures Matches(m[r.id := bs[|rs|].data], bs, rs + [r])
  {
  }

  lemma ReplyMatches(f: Full, id: nat, err: bool)
    requires Matches(f.x.sentFor, f.x.plan, Awaiting(f.d)) && CountInv(f.d) && f.d.h.found == None
    requires Delivers(f.d, id, err) ==> Honours(f, id)
    ensures Matches(ReplyRx(f, id, err).sentFor, f.x.plan, Awaiting(ReplyStep(f.d, id, err)))
  {
    hide CountInv, CmdOf, ReplyStep, Awaiting;
    ReplyAwaits(f.d, id, err);
    if Delivers(f.d, id, err) {
      var r := f.d.q.ctlRcv[IndexOf(f.d.q.ctlRcv, id)];
      ReplyFinds(f.d, id);
      AwaitingDiffer(f.d, r);
      MatchesMore(f.x.sentFor, f.x.plan, Awaiting(f.d), r);
    }
  }

  /** Dispatch, pop and put-back only move an awaiting READ on. */
  lemma RecvAwaits(d: Dev, e: RecvEvent)
    requires CanRecv(d, e) && !e.Reply?
    ensures var rs := Awaiting(ApplyRecv(d, e));
      Awaiting(d) == if e == ReadDone then [d.h.receiving.value] + rs else rs
  {
    hide CmdOf;
    var h, q, w := HeldSeq(d.h.receiving), d.q.datRcv, FoundSeq(d.h.found, d.readOnly);
    match e
    case Dispatch => assert q + w + [] == q + w && q + [] == q;
    case PopRead => assert [] + (q + w) == [q[0]] + (q[1..] + w);
    case ReadDone => assert [] + (q + w) == q + w;
    case ReadFail => assert [] + ((h + q) + w) == h + (q + w);
  }

  lemma DoneMatches(x: Rx, r: Request, rs: seq<Request>)
    requires Matches(x.sentFor, x.plan, [r] + rs) && x.incoming <= Bytes(x.plan) && |r.data| <= |x.incoming|
    ensures var y := DoneRx(x, r); Matches(y.sentFor, y.plan, rs) && y.incoming <= Bytes(y.plan)
    ensures r.id in x.sentFor && x.incoming[..|r.data|] == x.sentFor[r.id]
  {
    var y, b := DoneRx(x, r), x.plan[0];
    assert ([r] + rs)[0] == r && Owed(x.sentFor, b, r);
    TakeBlock(b.data, Bytes(x.plan[1..]), x.incoming);
    forall i | 0 <= i < |rs| ensures Owed(y.sentFor, y.plan[i], rs[i]) {
      assert ([r] + rs)[i + 1] == rs[i] && x.plan[i + 1] == y.plan[i];
    }
  }

  lemma TakeBlock(a: seq<Byte>, rest: seq<Byte>, w: seq<Byte>)
    requires w <= a + rest && |a| <= |w|
    ensures w[..|a|] == a && w[|a|..] <= rest
  {
    assert w[..|a|] == (a + rest)[..|a|] && (a + rest)[|a|..] == rest;
  }

  lemma RecvRxInv(f: Full, e: RecvEvent)
    requires BaseInv(f.d) && RxInv(f) && CanRecv(f.d, e) && AllowedRecv(f, e)
    ensures RxInv(Full(ApplyRecv(f.d, e), RecvRx(f, e)))
  {
    hide CountInv, KindInv, LinkInv, CmdOf, Bytes, Matches, Awaiting, Honours;
    if e.Reply? {
      if f.d.l.sock != Down { ReplyMatches(f, e.id, e.err); }
    } else {
      RecvAwaits(f.d, e);
      if e == ReadDone && f.d.l.sock != Down {
        DoneMatches(f.x, f.d.h.receiving.value, Awaiting(ApplyRecv(f.d, e)));
      }
    }
  }

  lemma SendRx(f: Full, e: SendEvent)
    requires RxInv(f) && CanSend(f.d, e)
    ensures RxInv(Full(ApplySend(f.d, e), f.x))
  {
    hide CmdOf, Bytes, ApplySend, CanSend, Matches;
    SendLeaves(f.d, e);
  }

  lemma SendLeaves(d: Dev, e: SendEvent)
    requires CanSend(d, e)
    ensures var t := ApplySend(d, e);
      && t.q.datRcv == d.q.datRcv && t.h.receiving == d.h.receiving && t.h.found == d.h.found
      && t.readOnly == d.readOnly && (t.l.sock == Down <==> d.l.sock == Down)
  {
    hide CmdOf, FillBatch;
  }

  lemma CtlRx(f: Full, e: CtlEvent)
    requires RxInv(f) && QuietInv(f.d.l, f.d.q, f.d.h) && CanCtl(f.d, e)
    ensures RxInv(Full(ApplyCtl(f.d, e), CtlNext(f.x, e)))
  {
    hide CmdOf, ApplyCtl, CanCtl;
    CtlLeaves(f.d, e);
  }

  lemma ServerRx(f: Full, m: Move)
    requires RxInv(f) && !m.Do? && Allowed(f, m)
    ensures RxInv(Next(f, m))
  {
    hide Awaiting, Bytes;
    if m.Plan? { BytesSnoc(f.x.plan, m.b); }
  }

  lemma CtlLeaves(d: Dev, e: CtlEvent)
    requires CanCtl(d, e) && QuietInv(d.l, d.q, d.h)
    ensures var t := ApplyCtl(d, e);
      && (t.l.sock != Down && e != Start ==>
            t.q.datRcv == d.q.datRcv && t.h.receiving == d.h.receiving && t.h.found == d.h.found && d.l.sock != Down)
      && t.readOnly == d.readOnly
      && (e == Start ==> t.q.datRcv == [] && t.h.receiving == None && t.h.found == None)
  {
    hide RecoverQueues, RecoverLens;
  }

  lemma EndedGrows(d: Dev, e: Event)
    requires Enabled(d, e)
    ensures d.g.ended <= Apply(d, e).g.ended
  {
    hide CmdOf, FillBatch, HeaderStep, RecoverQueues, RecoverLens;
  }

  lemma DeliveredReply(f: Full, id: nat, err: bool, g: Full)
    requires CountInv(f.d) && DeliveredInv(f) && (Delivers(f.d, id, err) ==> Honours(f, id))
    requires g.x == ReplyRx(f, id, err) && f.d.g.ended <= g.d.g.ended
    ensures DeliveredInv(g)
  {
    hide CountInv, CmdOf, Honours, Awaiting;
    if Delivers(f.d, id, err) {
      ReplyFinds(f.d, id);
      OthersDiffer(f.d, f.d.q.ctlRcv[IndexOf(f.d.q.ctlRcv, id)]);
    }
  }

  lemma DeliveredDone(f: Full)
    requires Inv(f) && CanRecv(f.d, ReadDone) && AllowedRecv(f, ReadDone)
    ensures DeliveredInv(Full(ApplyRecv(f.d, ReadDone), DoneRx(f.x, f.d.h.receiving.value)))
  {
    hide CountInv, KindInv, LinkInv, CmdOf, Bytes, Matches, Awaiting;
    RecvAwaits(f.d, ReadDone);
    DoneMatches(f.x, f.d.h.receiving.value, Awaiting(ApplyRecv(f.d, ReadDone)));
  }

  lemma DeliveredStep(f: Full, e: Event)
    requires Inv(f) && Allowed(f, Do(e))
    ensures DeliveredInv(Next(f, Do(e)))
  {
    hide CountInv, KindInv, StreamInv, RxInv, CmdOf, ApplySend, ApplyCtl, DoneRx, ReplyRx, Honours, Awaiting;
    EndedGrows(f.d, e);
    if e.Rcv? && e.rcv.Reply? {
      DeliveredReply(f, e.rcv.id, e.rcv.err, Next(f, Do(e)));
    } else if e == Rcv(ReadDone) {
      DeliveredDone(f);
    }
  }

  lemma StepInv(f: Full, m: Move)
    requires Inv(f) && Allowed(f, m)
    ensures Inv(Next(f, m))
  {
    hide CountInv, KindInv, LinkInv, RxInv, DeliveredInv, ApplySend, ApplyRecv, ApplyCtl, CanSend, CanRecv, CanCtl;
    hide RecvRx, AllowedRecv, CtlNext;
    if m.Do? {
      CountStep(f.d, m.e);
      KindStep(f.d, m.e);
      StreamStep(f.d, m.e);
      DeliveredStep(f, m.e);
      match m.e
      case Snd(e) => SendRx(f, e);
      case Rcv(e) => RecvRxInv(f, e);
      case Ctl(e) => CtlRx(f, e);
    } else {
      ServerRx(f, m);
      SameDelivered(f, m);
    }
  }

  lemma SameDelivered(f: Full, m: Move)
    requires DeliveredInv(f) && !m.Do? && Allowed(f, m)
    ensures DeliveredInv(Next(f, m))
  {
    hide Bytes;
  }

  lemma {:induction false} GoesInv(f: Full, ms: seq<Move>, g: Full)
    requires Goes(f, ms, g) && Inv(f)
    ensures Inv(g)
    decreases |ms|
  {
    hide Inv, Allowed, Next;
    if ms != [] {
      StepInv(f, ms[0]);
      GoesInv(Next(f, ms[0]), ms[1..], g);
    }
  }

  lemma BeginInv(f: Full)
    requires Begin(f)
    ensures Inv(f)
  {
  }

  lemma ReachedInv(g: Full)
    requires Reached(g)
    ensures Inv(g)
  {
    hide Inv, Allowed, Next, Begin;
    var f, ms :| Begin(f) && Goes(f, ms, g);
    BeginInv(f);
    GoesInv(f, ms, g);
  }

  // ------------------------------------------------------------ main theorems

  /** In every run, however the server's bytes arrive, and across put-back, failures and recovery,
      each READ that ended without an error got exactly the bytes that the server sent for it. */
  lemma ReadsGetServerBytes(g: Full, i: nat)
    requires Reached(g) && i < |g.x.delivered|
    ensures var v := g.x.delivered[i];
      v.req in g.d.g.ended && v.req.id in g.x.sentFor && g.x.sentFor[v.req.id] == v.got
  {
    hide Reached, BaseInv, RxInv;
    ReachedInv(g);
    assert g.x.delivered[i] in g.x.delivered;
  }

  /** As much as has arrived for the READ in the receiver's hands is the beginning of what the server
      sent for it, and what is still to come begins with the rest. */
  lemma DataIsNext(g: Full)
    requires Reached(g) && g.d.h.receiving != None
    ensures var r, w := g.d.h.receiving.value, g.x.incoming;
      && r.id in g.x.sentFor && |g.x.sentFor[r.id]| == |r.data|
      && (if |w| < |r.data| then w <= g.x.sentFor[r.id] else g.x.sentFor[r.id] <= w)
      && w <= Bytes(g.x.plan) && g.x.sentFor[r.id] <= Bytes(g.x.plan)
  {
    hide Reached, CountInv, KindInv, LinkInv, CmdOf, DeliveredInv;
    ReachedInv(g);
    var r := g.d.h.receiving.value;
    assert Awaiting(g.d)[0] == r;
    assert Owed(g.x.sentFor, g.x.plan[0], r);
    Beginnings(g.x.plan[0].data, Bytes(g.x.plan[1..]), g.x.incoming);
  }

  lemma Beginnings(a: seq<Byte>, rest: seq<Byte>, w: seq<Byte>)
    requires w <= a + rest
    ensures if |w| < |a| then w <= a else a <= w
  {
    forall i | 0 <= i < |w| && i < |a| ensures w[i] == a[i] { assert w[i] == (a + rest)[i]; }
  }

  /** These runs are runs of the pipeline, so all that holds there holds here. */
  lemma {:induction false} GoesRuns(f: Full, ms: seq<Move>, g: Full) returns (es: seq<Event>)
    requires Goes(f, ms, g)
    ensures Run(f.d, es, g.d)
    decreases |ms|
  {
    hide Apply, NextRx, Enabled;
    if ms == [] {
      es := [];
    } else {
      var rest := GoesRuns(Next(f, ms[0]), ms[1..], g);
      es := if ms[0].Do? then [ms[0].e] + rest else rest;
      assert ms[0].Do? ==> es[1..] == rest;
    }
  }

  lemma ReachedIsReachable(g: Full)
    requires Reached(g)
    ensures Reachable(g.d)
  {
    hide Goes, Run;
    var f, ms :| Begin(f) && Goes(f, ms, g);
    var es := GoesRuns(f, ms, g);
  }

  // ----------------------------------------------------------------- a witness

  lemma {:induction false} GoesSnoc(f: Full, ms: seq<Move>, g: Full, m: Move)
    requires Goes(f, ms, g) && Allowed(g, m)
    ensures Goes(f, ms + [m], Next(g, m))
    decreases |ms|
  {
    hide Allowed, Next;
    if ms == [] {
      assert ms + [m] == [m] && [m][1..] == [];
    } else {
      GoesSnoc(Next(f, ms[0]), ms[1..], g, m);
      assert (ms + [m])[1..] == ms[1..] + [m];
    }
  }

  lemma Go(g: Full, m: Move) returns (h: Full)
    requires Reached(g) && Allowed(g, m)
    ensures h == Next(g, m) && Reached(h)
  {
    hide Allowed, Next, Begin;
    var f, ms :| Begin(f) && Goes(f, ms, g);
    GoesSnoc(f, ms, g, m);
    h := Next(g, m);
  }

  lemma Started(f: Full) returns (g: Full)
    requires Begin(f)
    ensures Reached(g) && g.d == f.d.(l := g.d.l) && g.d.l.sock == Up && g.x == f.x
  {
    assert Goes(f, [], f) && Reached(f);
    hide Reached;
    g := Go(f, Do(Ctl(Start)));
  }

  /** A READ is on ctl_rcv. */
  lemma Sent(f: Full, a: Request) returns (g: Full)
    requires Begin(f) && !f.d.errorNow && CmdOf(a, f.d.readOnly) == Read
    ensures Reached(g) && g.d.q == Queues([], [], [a], []) && g.d.l.sock == Up && g.d.h == f.d.h && g.x == f.x
    ensures g.d.readOnly == f.d.readOnly
  {
    hide Reached, CmdOf;
    g := Started(f);
    g := Go(g, Do(Ctl(Fetch(a))));
    g := Go(g, Do(Ctl(Handle(a))));
    assert multiset{} + multiset{a} - multiset{a} == multiset{};
    g := Go(g, Do(Snd(TakeBatch)));
    g := Go(g, Do(Snd(FillOne)));
    g := Go(g, Do(Snd(SpliceBatch)));
    assert [] + [a] + [] == [a];
  }

  /** It is answered after the first k bytes of its data arrived. */
  lemma Answered(g0: Full, a: Request, data: seq<Byte>, k: nat) returns (g: Full)
    requires Reached(g0) && g0.d.q == Queues([], [], [a], []) && g0.d.l.sock == Up && CmdOf(a, g0.d.readOnly) == Read
    requires g0.d.h.found == None && g0.d.h.receiving == None && g0.x == Rx(false, false, [], [], map[], [])
    requires |data| == |a.data| && k <= |data|
    ensures Reached(g) && g.d.q == Queues([], [], [], []) && g.d.h == g0.d.h.(found := Some(Found(a, false)))
    ensures g.x == Rx(false, false, [Block(a.id, data)], data[..k], map[a.id := data], [])
    ensures g.d.l.sock == Up && g.d.readOnly == g0.d.readOnly
  {
    hide Reached, CmdOf;
    OneBlock(Block(a.id, data));
    assert [] + [Block(a.id, data)] == [Block(a.id, data)];
    g := Go(g0, Plan(Block(a.id, data)));
    g := Go(g, Arrive(k));
    FirstIndex(a);
    g := Go(g, Do(Rcv(Reply(a.id, false))));
  }

  lemma OneBlock(b: Block)
    ensures Bytes([b]) == b.data
  {
    assert [b][1..] == [];
  }

  lemma FirstIndex(a: Request)
    ensures IndexOf([a], a.id) == 0 && RemoveAt([a], 0) == []
  {
  }

  /** For every READ, every data of its length and every way to cut it in two, a run in which the
      first part arrives before the reply, the rest when the READ is already being received, and
      the READ is delivered with that data. */
  lemma ReadIsDelivered(f: Full, a: Request, data: seq<Byte>, k: nat)
    requires Begin(f) && !f.d.errorNow && CmdOf(a, f.d.readOnly) == Read && |data| == |a.data| && k <= |data|
    ensures exists g :: Reached(g) && g.x.delivered == [Delivery(a, data)]
  {
    hide Reached, CmdOf;
    var g := Sent(f, a);
    g := Answered(g, a, data, k);
    OneBlock(Block(a.id, data));
    g := Go(g, Do(Rcv(Dispatch)));
    g := Go(g, Do(Rcv(PopRead)));
    g := Go(g, Arrive(|data| - k));
    assert data[..|data|] == data;
    g := Go(g, Do(Rcv(ReadDone)));
    assert g.x.delivered == [Delivery(a, data)];
  }
}
