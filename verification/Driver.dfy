/** The block driver's request pipeline: four queues, four threads and one request
    handler, as a transition system with one step per critical section.

    Life cycles (src/kernel/dev.c:96-105):
      READ   fetch -> ctl_snd -> ctl_rcv -> dat_rcv -> end
      WRITE  fetch -> ctl_snd -> dat_snd -> ctl_rcv -> end
      TRIM   fetch -> ctl_snd -> ctl_rcv -> end
 */
module Driver {
  import opened Common

  const TWO64: int := 0x1_0000_0000_0000_0000

  /** A block-layer request. `id` tells one fetch from every other, although the kernel may use an
      address again later; a reply may name any of them. `data` is its payload, for a READ the
      buffer it fills. */
  datatype Request = Request(id: nat, fs: bool, write: bool, discard: bool, data: seq<Byte>)

  datatype Cmd = Read | Write | Trim | Bad

  /** The command a request is sent as, or Bad when the header cannot be filled. */
  function CmdOf(r: Request, readOnly: bool): Cmd {
    if !r.fs then Bad
    else if !r.write then Read
    else if readOnly then Bad
    else if r.discard then Trim
    else Write
  }

  /** What one connection carried: the WRITE headers built, in order, with their
      `dseq` fields, and the bytes put on the data socket. */
  datatype Epoch = Epoch(writes: seq<Request>, dseqs: seq<nat>, wire: seq<Byte>)

  datatype Sock = Down | Up | Shut

  /** The control sender's private lists while it works through a batch. */
  datatype Batch = Batch(todo: seq<Request>, readQ: seq<Request>, writeQ: seq<Request>, trimQ: seq<Request>)

  const NO_BATCH := Batch([], [], [], [])

  datatype Sending = Idle | Sending(req: Request, sent: nat)

  datatype Found = Found(req: Request, err: bool)

  datatype Queues = Queues(ctlSnd: seq<Request>, datSnd: seq<Request>, ctlRcv: seq<Request>, datRcv: seq<Request>)

  /** The counters kept beside the queues. */
  datatype Lens = Lens(ctlSnd: int, datSnd: int, ctlRcv: int, datRcv: int)

  /** Requests held by a thread, in no queue: request handlers, the control sender, the control
      receiver, the data receiver and a purge. */
  datatype Hands = Hands(handlers: multiset<Request>, batch: Batch, found: Option<Found>,
                         receiving: Option<Request>, purging: Option<Request>)

  /** The connection. The request being sent is already on ctl_rcv. */
  datatype Link = Link(sock: Sock, stopping: bool, sequence: nat, sending: Sending, epoch: Epoch, past: seq<Epoch>)

  /** Every request ever fetched, every request ended, and the nr_req counter. */
  datatype Log = Log(fetched: seq<Request>, ended: seq<Request>, nrReq: int)

  datatype Dev = Dev(readOnly: bool, errorNow: bool, q: Queues, n: Lens, h: Hands, l: Link, g: Log)

  datatype QueueName = CtlSnd | DatSnd | CtlRcv | DatRcv

  /** Steps of the control sender and of the data sender. */
  datatype SendEvent = TakeBatch | FillOne | SpliceBatch | PopWrite | SendBytes(n: nat) | SendDone | SendFail

  /** Steps of the control receiver and of the data receiver. */
  datatype RecvEvent = Reply(id: nat, err: bool) | Dispatch | PopRead | ReadDone | ReadFail

  /** Steps of the request handlers, of a purge, and of connection control. */
  datatype CtlEvent =
    | Fetch(r: Request) | Handle(r: Request) | PurgePop(q: QueueName) | PurgeEnd
    | SetError(on: bool) | Shutdown | Stop | Recover | Start

  datatype Event = Snd(snd: SendEvent) | Rcv(rcv: RecvEvent) | Ctl(ctl: CtlEvent)

  // ---------------------------------------------------------------- queues

  /** First position of the request with this id, or |q|. */
  function IndexOf(q: seq<Request>, id: nat): nat {
    if q == [] then 0 else if q[0].id == id then 0 else 1 + IndexOf(q[1..], id)
  }

  lemma {:induction false} IndexOfIs(q: seq<Request>, id: nat)
    ensures var i := IndexOf(q, id);
      && i <= |q| && (i < |q| ==> q[i].id == id)
      && forall j :: 0 <= j < i ==> q[j].id != id
  {
    if q != [] && q[0].id != id { IndexOfIs(q[1..], id); }
  }

  function RemoveAt(q: seq<Request>, i: nat): seq<Request>
    requires i < |q|
  {
    q[..i] + q[i + 1..]
  }

  /** Recovery splices behind the first entry of ctl_snd, not at its head. */
  function SpliceAfterFirst(q: seq<Request>, l: seq<Request>): seq<Request> {
    if l == [] then q else if q == [] then l else [q[0]] + l + q[1..]
  }

  function Queue(q: Queues, name: QueueName): seq<Request> {
    match name
    case CtlSnd => q.ctlSnd
    case DatSnd => q.datSnd
    case CtlRcv => q.ctlRcv
    case DatRcv => q.datRcv
  }

  // ----------------------------------------------------------------- steps

  predicate CanSend(s: Dev, e: SendEvent) {
    match e
    case TakeBatch => s.l.sock != Down && s.h.batch == NO_BATCH && s.q.ctlSnd != []
    case FillOne => s.h.batch.todo != []
    case SpliceBatch => s.h.batch.todo == [] && s.h.batch != NO_BATCH
    case PopWrite => s.l.sock != Down && s.l.sending == Idle && s.q.datSnd != []
    case SendBytes(n) => s.l.sock == Up && s.l.sending != Idle && s.l.sending.sent + n <= |s.l.sending.req.data|
    case SendDone => s.l.sending != Idle && s.l.sending.sent == |s.l.sending.req.data|
    case SendFail => s.l.sending != Idle
  }

  predicate CanRecv(s: Dev, e: RecvEvent) {
    match e
    case Reply(id, err) => s.l.sock != Down && s.h.found == None
    case Dispatch => s.h.found != None
    case PopRead => s.l.sock != Down && s.h.receiving == None && s.q.datRcv != []
    case ReadDone => s.h.receiving != None
    case ReadFail => s.h.receiving != None
  }

  predicate CanCtl(s: Dev, e: CtlEvent) {
    match e
    case Fetch(r) => forall x <- s.g.fetched :: x.id != r.id
    case Handle(r) => r in s.h.handlers
    case PurgePop(q) => s.l.sock == Down && s.h.purging == None && Queue(s.q, q) != []
    case PurgeEnd => s.h.purging != None
    case SetError(on) => true
    case Shutdown => s.l.sock == Up
    case Stop =>
      s.l.sock != Down && s.l.sending == Idle
      && s.h.batch == NO_BATCH && s.h.found == None && s.h.receiving == None
    case Recover => s.l.stopping
    case Start => s.l.sock == Down && !s.l.stopping
  }

  predicate Enabled(s: Dev, e: Event) {
    match e
    case Snd(x) => CanSend(s, x)
    case Rcv(x) => CanRecv(s, x)
    case Ctl(x) => CanCtl(s, x)
  }

  function End(g: Log, r: Request): Log {
    g.(ended := g.ended + [r], nrReq := g.nrReq - 1)
  }

  function HandleStep(s: Dev, r: Request): Dev
    requires r in s.h.handlers
  {
    var h := s.h.(handlers := s.h.handlers - multiset{r});
    if s.errorNow then s.(h := h, g := End(s.g, r))
    else s.(h := h, q := s.q.(ctlSnd := s.q.ctlSnd + [r]), n := s.n.(ctlSnd := s.n.ctlSnd + 1))
  }

  function TakeStep(s: Dev): Dev {
    s.(h := s.h.(batch := NO_BATCH.(todo := s.q.ctlSnd)), q := s.q.(ctlSnd := []), n := s.n.(ctlSnd := 0))
  }

  /** The first request leaves `todo` for the list of its command; a bad one is dropped. */
  function FillBatch(b: Batch, c: Cmd): Batch
    requires b.todo != []
  {
    var r, b' := b.todo[0], b.(todo := b.todo[1..]);
    match c
    case Bad => b'
    case Read => b'.(readQ := b.readQ + [r])
    case Trim => b'.(trimQ := b.trimQ + [r])
    case Write => b'.(writeQ := b.writeQ + [r])
  }

  /** A WRITE header gets the current sequence number, which then moves past the payload. */
  function HeaderStep(l: Link, r: Request): Link {
    l.(epoch := l.epoch.(writes := l.epoch.writes + [r], dseqs := l.epoch.dseqs + [l.sequence]),
       sequence := (l.sequence + |r.data|) % TWO64)
  }

  function FillStep(s: Dev): Dev
    requires s.h.batch.todo != []
  {
    var r := s.h.batch.todo[0];
    var c := CmdOf(r, s.readOnly);
    var s' := s.(h := s.h.(batch := FillBatch(s.h.batch, c)));
    match c
    case Bad => s'.(g := End(s.g, r))
    case Write => s'.(l := HeaderStep(s.l, r))
    case _ => s'
  }

  function SpliceStep(s: Dev): Dev {
    var b := s.h.batch;
    s.(q := s.q.(ctlRcv := s.q.ctlRcv + b.readQ + b.trimQ, datSnd := s.q.datSnd + b.writeQ),
       n := s.n.(ctlRcv := s.n.ctlRcv + |b.readQ|, datSnd := s.n.datSnd + |b.writeQ|, ctlSnd := s.n.ctlSnd + |b.trimQ|),
       h := s.h.(batch := NO_BATCH))
  }

  function PopWriteStep(s: Dev): Dev
    requires s.q.datSnd != []
  {
    s.(q := s.q.(datSnd := s.q.datSnd[1..], ctlRcv := s.q.ctlRcv + [s.q.datSnd[0]]),
       n := s.n.(datSnd := s.n.datSnd - 1, ctlRcv := s.n.ctlRcv + 1),
       l := s.l.(sending := Sending(s.q.datSnd[0], 0)))
  }

  function ReplyStep(s: Dev, id: nat, err: bool): Dev {
    var i := IndexOf(s.q.ctlRcv, id);
    if i >= |s.q.ctlRcv| then s
    else s.(q := s.q.(ctlRcv := RemoveAt(s.q.ctlRcv, i)), n := s.n.(ctlRcv := s.n.ctlRcv - 1),
            h := s.h.(found := Some(Found(s.q.ctlRcv[i], err))))
  }

  function DispatchStep(s: Dev): Dev
    requires s.h.found != None
  {
    var r, h := s.h.found.value.req, s.h.(found := None);
    if s.h.found.value.err || CmdOf(r, s.readOnly) != Read then s.(h := h, g := End(s.g, r))
    else s.(h := h, q := s.q.(datRcv := s.q.datRcv + [r]), n := s.n.(datRcv := s.n.datRcv + 1))
  }

  function PopReadStep(s: Dev): Dev
    requires s.q.datRcv != []
  {
    s.(q := s.q.(datRcv := s.q.datRcv[1..]), n := s.n.(datRcv := s.n.datRcv - 1),
       h := s.h.(receiving := Some(s.q.datRcv[0])))
  }

  function PutBackStep(s: Dev): Dev
    requires s.h.receiving != None
  {
    s.(q := s.q.(datRcv := [s.h.receiving.value] + s.q.datRcv), n := s.n.(datRcv := s.n.datRcv + 1),
       h := s.h.(receiving := None), l := ShutDown(s.l))
  }

  function ShutDown(l: Link): Link {
    if l.sock == Up then l.(sock := Shut) else l
  }

  function PurgePopStep(s: Dev, name: QueueName): Dev
    requires Queue(s.q, name) != []
  {
    var s' := s.(h := s.h.(purging := Some(Queue(s.q, name)[0])));
    match name
    case CtlSnd => s'.(q := s.q.(ctlSnd := s.q.ctlSnd[1..]), n := s.n.(ctlSnd := s.n.ctlSnd - 1))
    case DatSnd => s'.(q := s.q.(datSnd := s.q.datSnd[1..]), n := s.n.(datSnd := s.n.datSnd - 1))
    case CtlRcv => s'.(q := s.q.(ctlRcv := s.q.ctlRcv[1..]), n := s.n.(ctlRcv := s.n.ctlRcv - 1))
    case DatRcv => s'.(q := s.q.(datRcv := s.q.datRcv[1..]), n := s.n.(datRcv := s.n.datRcv - 1))
  }

  function RecoverQueues(q: Queues): Queues {
    Queues(SpliceAfterFirst(SpliceAfterFirst(SpliceAfterFirst(q.ctlSnd, q.datRcv), q.ctlRcv), q.datSnd), [], [], [])
  }

  /** A counter moves to ctl_snd only when its queue is not empty. */
  function RecoverLens(q: Queues, n: Lens): Lens {
    var d := if q.datRcv != [] then n.datRcv else 0;
    var c := if q.ctlRcv != [] then n.ctlRcv else 0;
    var w := if q.datSnd != [] then n.datSnd else 0;
    Lens(n.ctlSnd + d + c + w, n.datSnd - w, n.ctlRcv - c, n.datRcv - d)
  }

  function RecoverStep(s: Dev): Dev {
    s.(q := RecoverQueues(s.q), n := RecoverLens(s.q, s.n), l := s.l.(stopping := false))
  }

  function SendStep(l: Link, n: nat): Link
    requires l.sending != Idle && l.sending.sent + n <= |l.sending.req.data|
  {
    var Sending(r, k) := l.sending;
    l.(sending := Sending(r, k + n), epoch := l.epoch.(wire := l.epoch.wire + r.data[k..k + n]))
  }

  function ApplySend(s: Dev, e: SendEvent): Dev
    requires CanSend(s, e)
  {
    match e
    case TakeBatch => TakeStep(s)
    case FillOne => FillStep(s)
    case SpliceBatch => SpliceStep(s)
    case PopWrite => PopWriteStep(s)
    case SendBytes(n) => s.(l := SendStep(s.l, n))
    case SendDone => s.(l := s.l.(sending := Idle))
    case SendFail => s.(l := ShutDown(s.l.(sending := Idle)))
  }

  function ApplyRecv(s: Dev, e: RecvEvent): Dev
    requires CanRecv(s, e)
  {
    match e
    case Reply(id, err) => ReplyStep(s, id, err)
    case Dispatch => DispatchStep(s)
    case PopRead => PopReadStep(s)
    case ReadDone => s.(h := s.h.(receiving := None), g := End(s.g, s.h.receiving.value))
    case ReadFail => PutBackStep(s)
  }

  function ApplyCtl(s: Dev, e: CtlEvent): Dev
    requires CanCtl(s, e)
  {
    match e
    case Fetch(r) =>
      s.(g := s.g.(fetched := s.g.fetched + [r], nrReq := s.g.nrReq + 1),
         h := s.h.(handlers := s.h.handlers + multiset{r}))
    case Handle(r) => HandleStep(s, r)
    case PurgePop(q) => PurgePopStep(s, q)
    case PurgeEnd => s.(h := s.h.(purging := None), g := End(s.g, s.h.purging.value))
    case SetError(on) => s.(errorNow := on)
    case Shutdown => s.(l := ShutDown(s.l))
    case Stop => s.(l := s.l.(sock := Down, stopping := true, past := s.l.past + [s.l.epoch]))
    case Recover => RecoverStep(s)
    case Start => s.(l := s.l.(sock := Up, sequence := 0, epoch := Epoch([], [], [])))
  }

  function Apply(s: Dev, e: Event): Dev
    requires Enabled(s, e)
  {
    match e
    case Snd(x) => ApplySend(s, x)
    case Rcv(x) => ApplyRecv(s, x)
    case Ctl(x) => ApplyCtl(s, x)
  }

  ghost predicate Init(s: Dev) {
    && s.q == Queues([], [], [], []) && s.n == Lens(0, 0, 0, 0) && s.g == Log([], [], 0)
    && s.h == Hands(multiset{}, NO_BATCH, None, None, None)
    && s.l == Link(Down, false, 0, Idle, Epoch([], [], []), [])
  }

  /** t is reached from s by these events, each enabled in its turn. */
  ghost predicate Run(s: Dev, es: seq<Event>, t: Dev)
    decreases |es|
  {
    if es == [] then s == t
    else Enabled(s, es[0]) && Run(Apply(s, es[0]), es[1..], t)
  }

  ghost predicate Reachable(t: Dev) {
    exists s, es :: Init(s) && Run(s, es, t)
  }
}
