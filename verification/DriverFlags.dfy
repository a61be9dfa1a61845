/** Where a request may be, by its own flags, and what a failing device takes in. */
module DriverFlags {
  import opened Common
  import opened Driver
  import opened DriverSafety

  /** Every header built on this connection and on the earlier ones was a WRITE's. */
  ghost predicate WritesOnly(l: Link, ro: bool) {
    AllAre(l.epoch.writes, Write, ro) && forall ep <- l.past :: AllAre(ep.writes, Write, ro)
  }

  lemma WritesSend(s: Dev, e: SendEvent)
    requires CanSend(s, e) && WritesOnly(s.l, s.readOnly)
    ensures WritesOnly(ApplySend(s, e).l, s.readOnly)
  {
    hide FillBatch;
  }

  lemma WritesRecv(s: Dev, e: RecvEvent)
    requires CanRecv(s, e) && WritesOnly(s.l, s.readOnly)
    ensures WritesOnly(ApplyRecv(s, e).l, s.readOnly)
  {
    hide CmdOf, RemoveAt, IndexOf;
  }

  lemma WritesCtl(s: Dev, e: CtlEvent)
    requires CanCtl(s, e) && WritesOnly(s.l, s.readOnly)
    ensures WritesOnly(ApplyCtl(s, e).l, s.readOnly)
  {
    hide CmdOf, RecoverQueues, RecoverLens;
  }

  lemma ModeStays(s: Dev, e: Event)
    requires Enabled(s, e)
    ensures Apply(s, e).readOnly == s.readOnly
  {
  }

  lemma {:induction false} WritesRun(s: Dev, es: seq<Event>, t: Dev)
    requires Run(s, es, t) && WritesOnly(s.l, s.readOnly)
    ensures WritesOnly(t.l, t.readOnly)
    decreases |es|
  {
    hide WritesOnly, CanSend, CanRecv, CanCtl, ApplySend, ApplyRecv, ApplyCtl;
    if es != [] {
      ModeStays(s, es[0]);
      match es[0] {
        case Snd(x) => WritesSend(s, x);
        case Rcv(x) => WritesRecv(s, x);
        case Ctl(x) => WritesCtl(s, x);
      }
      WritesRun(Apply(s, es[0]), es[1..], t);
    }
  }

  /** A file system write that is no discard, on a writable device. */
  ghost predicate PlainWrites(rs: seq<Request>, ro: bool) {
    forall r <- rs :: r.fs && r.write && !r.discard && !ro
  }

  /** In every run the data sender's queue, what it sends, the batch's write list and the headers of
      every connection hold plain writes only, the data receiver's queue and hand reads only, the
      batch's TRIM list discards only, and nothing that waits for a reply is bad. */
  lemma FlagsDecide(t: Dev)
    requires Reachable(t)
    ensures PlainWrites(t.q.datSnd, t.readOnly) && PlainWrites(t.h.batch.writeQ, t.readOnly)
    ensures PlainWrites(t.l.epoch.writes, t.readOnly) && forall ep <- t.l.past :: PlainWrites(ep.writes, t.readOnly)
    ensures t.l.sending != Idle ==> PlainWrites([t.l.sending.req], t.readOnly)
    ensures forall r <- t.q.datRcv :: r.fs && !r.write
    ensures t.h.receiving != None ==> t.h.receiving.value.fs && !t.h.receiving.value.write
    ensures forall r <- t.h.batch.readQ :: r.fs && !r.write
    ensures forall r <- t.h.batch.trimQ :: r.fs && r.write && r.discard && !t.readOnly
    ensures forall r <- t.q.ctlRcv :: r.fs && (!r.write || !t.readOnly)
  {
    var s, es :| Init(s) && Run(s, es, t);
    hide Run;
    WritesRun(s, es, t);
    LifeCycles(t);
  }

  // ------------------------------------------------------------ past connections

  lemma PastStep(s: Dev, e: Event)
    requires Enabled(s, e)
    ensures s.l.past <= Apply(s, e).l.past
  {
    hide CmdOf, FillBatch, RecoverQueues, RecoverLens, IndexOf, RemoveAt;
  }

  lemma {:induction false} PastRun(s: Dev, es: seq<Event>, t: Dev)
    requires Run(s, es, t)
    ensures s.l.past <= t.l.past
    decreases |es|
  {
    hide Enabled, Apply;
    if es != [] {
      PastStep(s, es[0]);
      PastRun(Apply(s, es[0]), es[1..], t);
    }
  }

  /** What a connection carried until it was stopped stays on record in every run from there. */
  lemma ConnectionsKept(s: Dev, es: seq<Event>, t: Dev)
    requires CanCtl(s, Stop) && Run(Apply(s, Ctl(Stop)), es, t)
    ensures s.l.epoch in t.l.past
  {
    var u := Apply(s, Ctl(Stop));
    assert u.l.past[|s.l.past|] == s.l.epoch;
    hide Run;
    PastRun(u, es, t);
  }

  // ------------------------------------------------------------ a failing device

  /** Past its handler: in a queue, or in a thread's hand. */
  ghost predicate Inside(s: Dev, r: Request) {
    Queued(s.q, r) + InHand(s.h, r) > s.h.handlers[r]
  }

  /** error_now is set before every step of the run. */
  ghost predicate Failing(s: Dev, es: seq<Event>, t: Dev)
    requires Run(s, es, t)
    decreases |es|
  {
    es == [] || (s.errorNow && Failing(Apply(s, es[0]), es[1..], t))
  }

  lemma EndsSend(s: Dev, e: SendEvent, r: Request)
    requires CanSend(s, e)
    ensures var t := ApplySend(s, e); Occ(t.g.ended, r) >= Occ(s.g.ended, r) && t.h.handlers == s.h.handlers
  {
    hide Occ, CmdOf, FillBatch, HeaderStep;
    if e == FillOne { OccSnoc(s.g.ended, s.h.batch.todo[0], r); }
  }

  lemma EndsRecv(s: Dev, e: RecvEvent, r: Request)
    requires CanRecv(s, e)
    ensures var t := ApplyRecv(s, e); Occ(t.g.ended, r) >= Occ(s.g.ended, r) && t.h.handlers == s.h.handlers
  {
    hide Occ, CmdOf, IndexOf, RemoveAt;
    match e
    case Dispatch => OccSnoc(s.g.ended, s.h.found.value.req, r);
    case ReadDone => OccSnoc(s.g.ended, s.h.receiving.value, r);
    case _ =>
  }

  lemma EndsHandle(s: Dev, x: Request, r: Request)
    requires CanCtl(s, Handle(x)) && s.errorNow
    ensures var t := HandleStep(s, x);
      Occ(t.g.ended, r) + t.h.handlers[r] >= Occ(s.g.ended, r) + s.h.handlers[r]
  {
    hide Occ;
    OccSnoc(s.g.ended, x, r);
  }

  lemma EndsCtl(s: Dev, e: CtlEvent, r: Request)
    requires CanCtl(s, e) && s.errorNow
    ensures var t := ApplyCtl(s, e);
      Occ(t.g.ended, r) + t.h.handlers[r] >= Occ(s.g.ended, r) + s.h.handlers[r] + (if e == Fetch(r) then 1 else 0)
  {
    hide Occ, RecoverQueues, RecoverLens, HandleStep;
    match e
    case Handle(x) => EndsHandle(s, x, r);
    case PurgeEnd => OccSnoc(s.g.ended, s.h.purging.value, r);
    case _ =>
  }

  /** A request that a step takes from its handler, or from anywhere else, is ended. */
  lemma EndsMore(s: Dev, e: Event, r: Request)
    requires Enabled(s, e) && s.errorNow
    ensures var t := Apply(s, e);
      Occ(t.g.ended, r) + t.h.handlers[r] >=
        Occ(s.g.ended, r) + s.h.handlers[r] + (if e == Ctl(Fetch(r)) then 1 else 0)
  {
    hide Occ, CanSend, CanRecv, CanCtl, ApplySend, ApplyRecv, ApplyCtl;
    match e
    case Snd(x) => EndsSend(s, x, r);
    case Rcv(x) => EndsRecv(s, x, r);
    case Ctl(x) => EndsCtl(s, x, r);
  }

  lemma InsideStep(s: Dev, e: Event, r: Request)
    requires Enabled(s, e) && s.errorNow && Inside(Apply(s, e), r)
    ensures Inside(s, r)
  {
    hide Occ, Enabled, Apply, Queued, InHand;
    PlacesStep(s, e, r);
    EndsMore(s, e, r);
  }

  /** While error_now is set no request gets into the pipeline: whatever is inside at the end was inside
      at the beginning. */
  lemma {:induction false} NothingEnters(s: Dev, es: seq<Event>, t: Dev, r: Request)
    requires Run(s, es, t) && Failing(s, es, t) && Inside(t, r)
    ensures Inside(s, r)
    decreases |es|
  {
    hide Enabled, Apply, Inside;
    if es != [] {
      NothingEnters(Apply(s, es[0]), es[1..], t, r);
      InsideStep(s, es[0], r);
    }
  }
}
