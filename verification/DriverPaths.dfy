/** The documented life cycles: the places each request goes through, over whole runs. */
module DriverPaths {
  import opened Driver
  import opened DriverSafety

  datatype Place =
    | Unfetched | InHandler | OnCtlSnd | InSender | OnDatSnd | OnCtlRcv | InReply | OnDatRcv | InReceiver | InPurge
    | Ended

  /** How often a request is at each place. */
  datatype Counts = Counts(
    handler: nat, ctlSnd: nat, sender: nat, datSnd: nat, ctlRcv: nat, reply: nat, datRcv: nat, receiver: nat,
    purge: nat, ended: nat)

  function CountsOf(s: Dev, r: Request): Counts {
    Counts(s.h.handlers[r], Occ(s.q.ctlSnd, r), InBatch(s.h.batch, r), Occ(s.q.datSnd, r), Occ(s.q.ctlRcv, r),
           HeldFound(s.h.found, r), Occ(s.q.datRcv, r), Held(s.h.receiving, r), Held(s.h.purging, r), Occ(s.g.ended, r))
  }

  function Total(c: Counts): nat {
    c.handler + c.ctlSnd + c.sender + c.datSnd + c.ctlRcv + c.reply + c.datRcv + c.receiver + c.purge + c.ended
  }

  function PlaceIn(c: Counts): Place {
    if c.handler > 0 then InHandler
    else if c.ctlSnd > 0 then OnCtlSnd
    else if c.sender > 0 then InSender
    else if c.datSnd > 0 then OnDatSnd
    else if c.ctlRcv > 0 then OnCtlRcv
    else if c.reply > 0 then InReply
    else if c.datRcv > 0 then OnDatRcv
    else if c.receiver > 0 then InReceiver
    else if c.purge > 0 then InPurge
    else if c.ended > 0 then Ended
    else Unfetched
  }

  function PlaceOf(s: Dev, r: Request): Place { PlaceIn(CountsOf(s, r)) }

  lemma TotalIsPlaces(s: Dev, r: Request)
    ensures Total(CountsOf(s, r)) == Places(s, r)
  {
  }

  /** The life cycle of a command. Besides it, a queued request may be purged, an error ends a
      request early, a failed receive puts a READ back, and recovery sends it round again. */
  predicate Edge(c: Cmd, p: Place, q: Place) {
    match p
    case Unfetched => q == InHandler
    case InHandler => q == OnCtlSnd || q == Ended
    case OnCtlSnd => q == InSender || q == InPurge
    case InSender => q == (match c case Read => OnCtlRcv case Trim => OnCtlRcv case Write => OnDatSnd case Bad => Ended)
    case OnDatSnd => c == Write && q in {OnCtlRcv, OnCtlSnd, InPurge}
    case OnCtlRcv => c != Bad && q in {InReply, OnCtlSnd, InPurge}
    case InReply => q == Ended || (c == Read && q == OnDatRcv)
    case OnDatRcv => c == Read && q in {InReceiver, OnCtlSnd, InPurge}
    case InReceiver => c == Read && q in {Ended, OnDatRcv}
    case InPurge => q == Ended
    case Ended => false
  }

  predicate Follows(c: Cmd, p: Place, q: Place) { p == q || Edge(c, p, q) }

  /** Which command a place admits. */
  lemma PlaceKind(s: Dev, r: Request)
    requires KindInv(s)
    ensures var c, k := CountsOf(s, r), CmdOf(r, s.readOnly);
      && (c.datSnd > 0 ==> k == Write) && (c.ctlRcv > 0 ==> k != Bad) && (c.reply > 0 ==> k != Bad)
      && (c.datRcv > 0 ==> k == Read) && (c.receiver > 0 ==> k == Read)
  {
    hide Occ, InBatch;
    OccIn(s.q.datSnd, r);
    OccIn(s.q.ctlRcv, r);
    OccIn(s.q.datRcv, r);
  }

  lemma BatchKind(s: Dev, r: Request)
    requires KindInv(s)
    ensures var b, k := s.h.batch, CmdOf(r, s.readOnly);
      && (Occ(b.writeQ, r) > 0 ==> k == Write) && (Occ(b.readQ, r) > 0 ==> k == Read)
      && (Occ(b.trimQ, r) > 0 ==> k == Trim)
  {
    hide Occ;
    OccIn(s.h.batch.writeQ, r);
    OccIn(s.h.batch.readQ, r);
    OccIn(s.h.batch.trimQ, r);
  }

  lemma OccNone(r: Request)
    ensures Occ([], r) == 0
  {
  }

  // ------------------------------------------------------------------- steps

  lemma PathTake(s: Dev, r: Request)
    requires CanSend(s, TakeBatch) && Places(s, r) <= 1
    ensures Follows(CmdOf(r, s.readOnly), PlaceOf(s, r), PlaceOf(TakeStep(s), r))
  {
    hide Occ, CmdOf;
    PlacesSend(s, TakeBatch, r);
    TotalIsPlaces(s, r);
    TotalIsPlaces(TakeStep(s), r);
    OccNone(r);
  }

  lemma PathFill(s: Dev, r: Request)
    requires CanSend(s, FillOne) && Places(s, r) <= 1
    ensures Follows(CmdOf(r, s.readOnly), PlaceOf(s, r), PlaceOf(FillStep(s), r))
  {
    hide Occ, FillBatch, InBatch;
    PlacesSend(s, FillOne, r);
    TotalIsPlaces(s, r);
    TotalIsPlaces(FillStep(s), r);
    FillBatchKeeps(s.h.batch, CmdOf(s.h.batch.todo[0], s.readOnly), r);
    OccSnoc(s.g.ended, s.h.batch.todo[0], r);
  }

  lemma PathSplice(s: Dev, r: Request)
    requires CanSend(s, SpliceBatch) && KindInv(s) && Places(s, r) <= 1
    ensures Follows(CmdOf(r, s.readOnly), PlaceOf(s, r), PlaceOf(SpliceStep(s), r))
  {
    hide Occ, CmdOf, KindInv;
    var b := s.h.batch;
    PlacesSend(s, SpliceBatch, r);
    TotalIsPlaces(s, r);
    TotalIsPlaces(SpliceStep(s), r);
    OccNone(r);
    OccConcat(s.q.datSnd, b.writeQ, r);
    OccConcat(s.q.ctlRcv + b.readQ, b.trimQ, r);
    OccConcat(s.q.ctlRcv, b.readQ, r);
    BatchKind(s, r);
  }

  lemma PathPopWrite(s: Dev, r: Request)
    requires CanSend(s, PopWrite) && KindInv(s) && Places(s, r) <= 1
    ensures Follows(CmdOf(r, s.readOnly), PlaceOf(s, r), PlaceOf(PopWriteStep(s), r))
  {
    hide Occ, CmdOf, KindInv, InBatch;
    PlacesSend(s, PopWrite, r);
    TotalIsPlaces(s, r);
    TotalIsPlaces(PopWriteStep(s), r);
    OccTail(s.q.datSnd, r);
    PlaceKind(s, r);
  }

  lemma PathSend(s: Dev, e: SendEvent, r: Request)
    requires CanSend(s, e) && KindInv(s) && Places(s, r) <= 1
    ensures Follows(CmdOf(r, s.readOnly), PlaceOf(s, r), PlaceOf(ApplySend(s, e), r))
  {
    hide Occ, CmdOf, KindInv, InBatch, TakeStep, FillStep, SpliceStep, PopWriteStep, PlaceIn;
    match e
    case TakeBatch => PathTake(s, r);
    case FillOne => PathFill(s, r);
    case SpliceBatch => PathSplice(s, r);
    case PopWrite => PathPopWrite(s, r);
    case _ =>
  }

  lemma PathReply(s: Dev, id: nat, err: bool, r: Request)
    requires CanRecv(s, Reply(id, err)) && KindInv(s) && Places(s, r) <= 1
    ensures Follows(CmdOf(r, s.readOnly), PlaceOf(s, r), PlaceOf(ReplyStep(s, id, err), r))
  {
    hide Occ, CmdOf, KindInv, InBatch, RemoveAt;
    PlacesRecv(s, Reply(id, err), r);
    TotalIsPlaces(s, r);
    TotalIsPlaces(ReplyStep(s, id, err), r);
    PlaceKind(s, r);
    var i := IndexOf(s.q.ctlRcv, id);
    if i < |s.q.ctlRcv| { OccRemove(s.q.ctlRcv, i, r); }
  }

  lemma PathDispatch(s: Dev, r: Request)
    requires CanRecv(s, Dispatch) && Places(s, r) <= 1
    ensures Follows(CmdOf(r, s.readOnly), PlaceOf(s, r), PlaceOf(DispatchStep(s), r))
  {
    hide Occ, CmdOf, InBatch;
    PlacesRecv(s, Dispatch, r);
    TotalIsPlaces(s, r);
    TotalIsPlaces(DispatchStep(s), r);
  }

  lemma PathRead(s: Dev, e: RecvEvent, r: Request)
    requires CanRecv(s, e) && KindInv(s) && Places(s, r) <= 1 && (e == PopRead || e == ReadDone || e == ReadFail)
    ensures Follows(CmdOf(r, s.readOnly), PlaceOf(s, r), PlaceOf(ApplyRecv(s, e), r))
  {
    hide Occ, CmdOf, KindInv, InBatch;
    PlacesRecv(s, e, r);
    TotalIsPlaces(s, r);
    TotalIsPlaces(ApplyRecv(s, e), r);
    PlaceKind(s, r);
    if e == PopRead { OccTail(s.q.datRcv, r); }
  }

  lemma PathRecv(s: Dev, e: RecvEvent, r: Request)
    requires CanRecv(s, e) && KindInv(s) && Places(s, r) <= 1
    ensures Follows(CmdOf(r, s.readOnly), PlaceOf(s, r), PlaceOf(ApplyRecv(s, e), r))
  {
    hide Occ, CmdOf, KindInv, InBatch, ReplyStep, DispatchStep, PopReadStep, PutBackStep, PlaceIn;
    match e
    case Reply(id, err) => PathReply(s, id, err, r);
    case Dispatch => PathDispatch(s, r);
    case _ => PathRead(s, e, r);
  }

  lemma PathHandle(s: Dev, x: Request, r: Request)
    requires CanCtl(s, Handle(x)) && Places(s, r) <= 1
    ensures Follows(CmdOf(r, s.readOnly), PlaceOf(s, r), PlaceOf(HandleStep(s, x), r))
  {
    hide Occ, CmdOf, InBatch;
    PlacesCtl(s, Handle(x), r);
    TotalIsPlaces(s, r);
    TotalIsPlaces(HandleStep(s, x), r);
  }

  lemma PathPurge(s: Dev, q: QueueName, r: Request)
    requires CanCtl(s, PurgePop(q)) && KindInv(s) && Places(s, r) <= 1
    ensures Follows(CmdOf(r, s.readOnly), PlaceOf(s, r), PlaceOf(PurgePopStep(s, q), r))
  {
    hide Occ, CmdOf, InBatch, KindInv;
    PurgeKeeps(s, q, r);
    TotalIsPlaces(s, r);
    TotalIsPlaces(PurgePopStep(s, q), r);
    PlaceKind(s, r);
    OccTail(Queue(s.q, q), r);
  }

  lemma PathRecover(s: Dev, r: Request)
    requires KindInv(s) && Places(s, r) <= 1
    ensures Follows(CmdOf(r, s.readOnly), PlaceOf(s, r), PlaceOf(RecoverStep(s), r))
  {
    hide Occ, CmdOf, InBatch, KindInv, RecoverLens, SpliceAfterFirst;
    RecoverKeeps(s.q, r);
    OccNone(r);
    PlaceKind(s, r);
  }

  lemma PathCtl(s: Dev, e: CtlEvent, r: Request)
    requires CanCtl(s, e) && KindInv(s) && Places(s, r) <= 1
    requires e.Fetch? && e.r == r ==> Places(s, r) == 0
    ensures Follows(CmdOf(r, s.readOnly), PlaceOf(s, r), PlaceOf(ApplyCtl(s, e), r))
  {
    hide Occ, CmdOf, InBatch, KindInv, HandleStep, PurgePopStep, RecoverStep;
    match e
    case Handle(x) => PathHandle(s, x, r);
    case PurgePop(q) => PathPurge(s, q, r);
    case Recover => PathRecover(s, r);
    case PurgeEnd =>
      OccSnoc(s.g.ended, s.h.purging.value, r);
      TotalIsPlaces(s, r);
    case _ => TotalIsPlaces(s, r);
  }

  // -------------------------------------------------------------- whole runs

  lemma PathStep(s: Dev, e: Event, r: Request)
    requires Enabled(s, e) && KindInv(s) && CountInv(s)
    ensures Follows(CmdOf(r, s.readOnly), PlaceOf(s, r), PlaceOf(Apply(s, e), r))
  {
    hide Occ, CmdOf, KindInv, PlaceIn;
    OnceIfDistinct(s.g.fetched, r);
    assert Places(s, r) == Occ(s.g.fetched, r);
    match e
    case Snd(x) => PathSend(s, x, r);
    case Rcv(x) => PathRecv(s, x, r);
    case Ctl(x) => PathCtl(s, x, r);
  }

  /** The places of r before, between and after the events. */
  ghost function Trace(s: Dev, es: seq<Event>, t: Dev, r: Request): (p: seq<Place>)
    requires Run(s, es, t)
    ensures |p| == |es| + 1 && p[0] == PlaceOf(s, r) && p[|es|] == PlaceOf(t, r)
    decreases |es|
  {
    if es == [] then [PlaceOf(s, r)]
    else [PlaceOf(s, r)] + Trace(Apply(s, es[0]), es[1..], t, r)
  }

  /** A walk along the life cycle. */
  ghost predicate Walk(c: Cmd, p: seq<Place>) {
    forall i :: 0 <= i < |p| - 1 ==> Follows(c, p[i], p[i + 1])
  }

  lemma {:induction false} TraceWalks(s: Dev, es: seq<Event>, t: Dev, r: Request)
    requires Run(s, es, t) && KindInv(s) && CountInv(s)
    ensures Walk(CmdOf(r, s.readOnly), Trace(s, es, t, r))
    decreases |es|
  {
    hide KindInv, CountInv, Apply, Enabled, CmdOf, PlaceOf;
    if es != [] {
      var u := Apply(s, es[0]);
      PathStep(s, es[0], r);
      KindStep(s, es[0]);
      CountStep(s, es[0]);
      SameMode(s, es[0]);
      TraceWalks(u, es[1..], t, r);
      var p := Trace(u, es[1..], t, r);
      assert Trace(s, es, t, r) == [PlaceOf(s, r)] + p;
    }
  }

  lemma SameMode(s: Dev, e: Event)
    requires Enabled(s, e)
    ensures Apply(s, e).readOnly == s.readOnly
  {
  }

  /** In every run, from the first step on, each request's places are a walk along the documented
      life cycle of its command that starts before its fetch; once it is ended it stays so. */
  lemma LifeCycleWords(s: Dev, es: seq<Event>, t: Dev, r: Request)
    requires Init(s) && Run(s, es, t)
    ensures var p := Trace(s, es, t, r); p[0] == Unfetched && Walk(CmdOf(r, s.readOnly), p)
  {
    hide CmdOf, Enabled, Apply;
    TraceWalks(s, es, t, r);
  }

  /** The life cycles without errors, purge or recovery, as the driver documents them. */
  function Documented(c: Cmd): seq<Place> {
    match c
    case Read => [Unfetched, InHandler, OnCtlSnd, InSender, OnCtlRcv, InReply, OnDatRcv, InReceiver, Ended]
    case Write => [Unfetched, InHandler, OnCtlSnd, InSender, OnDatSnd, OnCtlRcv, InReply, Ended]
    case Trim => [Unfetched, InHandler, OnCtlSnd, InSender, OnCtlRcv, InReply, Ended]
    case Bad => [Unfetched, InHandler, OnCtlSnd, InSender, Ended]
  }

  /** A walk that never purges, never ends early, never puts back and never goes back to ctl_snd. */
  predicate Plain(c: Cmd, p: Place, q: Place) {
    && Edge(c, p, q) && q != InPurge && !(p != InHandler && q == OnCtlSnd) && !(p == InReceiver && q == OnDatRcv)
    && (q == Ended ==>
         p == (match c case Read => InReceiver case Write => InReply case Trim => InReply case Bad => InSender))
  }

  /** Without those detours every place has exactly one successor, the documented one. */
  lemma PlainIsDocumented(c: Cmd, p: Place, q: Place)
    requires Plain(c, p, q) && p in Documented(c)
    ensures exists i :: 0 <= i < |Documented(c)| - 1 && Documented(c)[i] == p && Documented(c)[i + 1] == q
  {
    var d := Documented(c);
    var i :| 0 <= i < |d| && d[i] == p;
    assert d[|d| - 1] == Ended;
    assert i < |d| - 1;
    assert d[i + 1] == q;
  }
}
