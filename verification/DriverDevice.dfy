/** The device object whose methods update the queues in place, each proved against the
    steps of the transition system. */
module DriverDevice {
  import opened Common
  import opened Driver
  import opened DriverSafety

  // ------------------------------------------------- one batch as a whole

  /** The requests sent as command c, in order. */
  function Select(rs: seq<Request>, c: Cmd, ro: bool): seq<Request> {
    if rs == [] then [] else (if CmdOf(rs[0], ro) == c then [rs[0]] else []) + Select(rs[1..], c, ro)
  }

  lemma {:induction false} SelectSnoc(rs: seq<Request>, x: Request, c: Cmd, ro: bool)
    ensures Select(rs + [x], c, ro) == Select(rs, c, ro) + (if CmdOf(x, ro) == c then [x] else [])
  {
    if rs != [] {
      SelectSnoc(rs[1..], x, c, ro);
      assert (rs + [x])[1..] == rs[1..] + [x];
    }
  }

  lemma {:induction false} SelectIn(rs: seq<Request>, c: Cmd, ro: bool, r: Request)
    ensures r in Select(rs, c, ro) <==> r in rs && CmdOf(r, ro) == c
  {
    if rs != [] { SelectIn(rs[1..], c, ro, r); }
  }

  lemma {:induction false} SelectSub(rs: seq<Request>, c: Cmd, ro: bool)
    ensures SubSeq(Select(rs, c, ro), rs)
  {
    if rs != [] {
      SelectSub(rs[1..], c, ro);
      var s, t := Select(rs, c, ro), Select(rs[1..], c, ro);
      assert if CmdOf(rs[0], ro) == c then s[0] == rs[0] && s[1..] == t else s == t;
    }
  }

  /** Who sorts where, by the request's own flags, each list in the order of the batch: plain writes on
      a writable device, reads, discards on a writable device; whatever is not a file system
      request, and every write to a read-only device, is bad. */
  ghost predicate SortedByFlags(
      w: seq<Request>, ro: bool, rd: seq<Request>, wr: seq<Request>, trim: seq<Request>, bad: seq<Request>)
  {
    && (forall r :: r in wr <==> r in w && r.fs && r.write && !r.discard && !ro)
    && (forall r :: r in rd <==> r in w && r.fs && !r.write)
    && (forall r :: r in trim <==> r in w && r.fs && r.write && r.discard && !ro)
    && (forall r :: r in bad <==> r in w && (!r.fs || (r.write && ro)))
    && SubSeq(rd, w) && SubSeq(wr, w) && SubSeq(trim, w) && SubSeq(bad, w)
  }

  lemma SelectByFlags(w: seq<Request>, ro: bool)
    ensures SortedByFlags(
      w, ro, Select(w, Read, ro), Select(w, Write, ro), Select(w, Trim, ro), Select(w, Bad, ro))
  {
    hide Select, SubSeq;
    SelectSub(w, Read, ro);
    SelectSub(w, Write, ro);
    SelectSub(w, Trim, ro);
    SelectSub(w, Bad, ro);
    forall r
      ensures r in Select(w, Read, ro) <==> r in w && r.fs && !r.write
      ensures r in Select(w, Write, ro) <==> r in w && r.fs && r.write && !r.discard && !ro
      ensures r in Select(w, Trim, ro) <==> r in w && r.fs && r.write && r.discard && !ro
      ensures r in Select(w, Bad, ro) <==> r in w && (!r.fs || (r.write && ro))
    {
      SelectIn(w, Read, ro, r);
      SelectIn(w, Write, ro, r);
      SelectIn(w, Trim, ro, r);
      SelectIn(w, Bad, ro, r);
    }
  }

  /** What became of each request of a batch, by its flags: on dat_snd, on ctl_rcv, or ended. */
  ghost predicate HandedOn(w: seq<Request>, ro: bool, dat: seq<Request>, ctl: seq<Request>, bad: seq<Request>) {
    forall r <- w ::
      && (r in dat <==> r.fs && r.write && !r.discard && !ro)
      && (r in ctl <==> r.fs && (!r.write || (r.discard && !ro)))
      && (r in bad <==> !r.fs || (r.write && ro))
  }

  lemma SortedHandsOn(
      w: seq<Request>, ro: bool, rd: seq<Request>, wr: seq<Request>, trim: seq<Request>, bad: seq<Request>)
    requires SortedByFlags(w, ro, rd, wr, trim, bad)
    ensures HandedOn(w, ro, wr, rd + trim, bad)
  {
  }

  /** The dseq fields of consecutive WRITE headers, the first one being q. */
  function Dseqs(ws: seq<Request>, q: nat): seq<nat> {
    if ws == [] then [] else [q] + Dseqs(ws[1..], (q + |ws[0].data|) % TWO64)
  }

  function After(ws: seq<Request>, q: nat): nat {
    if ws == [] then q else After(ws[1..], (q + |ws[0].data|) % TWO64)
  }

  lemma {:induction false} DseqsSnoc(ws: seq<Request>, x: Request, q: nat)
    ensures Dseqs(ws + [x], q) == Dseqs(ws, q) + [After(ws, q)]
    ensures After(ws + [x], q) == (After(ws, q) + |x.data|) % TWO64
  {
    if ws != [] {
      DseqsSnoc(ws[1..], x, (q + |ws[0].data|) % TWO64);
      assert (ws + [x])[1..] == ws[1..] + [x];
    }
  }

  lemma NothingFilled(q: nat, ro: bool)
    ensures Dseqs([], q) == [] && After([], q) == q
    ensures Select([], Read, ro) == Select([], Write, ro) == Select([], Trim, ro) == []
  {
  }

  /** The queues after a batch w was taken off ctl_snd and sorted by command. */
  function BatchQueues(q: Queues, w: seq<Request>, ro: bool): Queues {
    Queues([], q.datSnd + Select(w, Write, ro), q.ctlRcv + Select(w, Read, ro) + Select(w, Trim, ro), q.datRcv)
  }

  function BatchLens(n: Lens, w: seq<Request>, ro: bool): Lens {
    Lens(|Select(w, Trim, ro)|, n.datSnd + |Select(w, Write, ro)|, n.ctlRcv + |Select(w, Read, ro)|, n.datRcv)
  }

  function BatchLink(l: Link, w: seq<Request>, ro: bool): Link {
    var ws := Select(w, Write, ro);
    l.(epoch := l.epoch.(writes := l.epoch.writes + ws, dseqs := l.epoch.dseqs + Dseqs(ws, l.sequence)),
       sequence := After(ws, l.sequence))
  }

  function BatchLog(g: Log, w: seq<Request>, ro: bool): Log {
    var bad := Select(w, Bad, ro);
    g.(ended := g.ended + bad, nrReq := g.nrReq - |bad|)
  }

  /** The state after the control sender worked through everything on ctl_snd undisturbed. */
  function BatchResult(s: Dev): Dev {
    var w, ro := s.q.ctlSnd, s.readOnly;
    s.(q := BatchQueues(s.q, w, ro), n := BatchLens(s.n, w, ro), l := BatchLink(s.l, w, ro), g := BatchLog(s.g, w, ro))
  }

  /** The sender's lists after the first i requests of the batch. */
  function PartialBatch(w: seq<Request>, i: nat, ro: bool): Batch
    requires i <= |w|
  {
    Batch(w[i..], Select(w[..i], Read, ro), Select(w[..i], Write, ro), Select(w[..i], Trim, ro))
  }

  /** The state after the first i requests of the batch. */
  function Partial(s: Dev, i: nat): Dev
    requires i <= |s.q.ctlSnd|
  {
    var w, ro := s.q.ctlSnd, s.readOnly;
    s.(q := s.q.(ctlSnd := []), n := s.n.(ctlSnd := 0), h := s.h.(batch := PartialBatch(w, i, ro)),
       l := BatchLink(s.l, w[..i], ro), g := BatchLog(s.g, w[..i], ro))
  }

  lemma PartialBatchStep(w: seq<Request>, i: nat, ro: bool)
    requires i < |w|
    ensures FillBatch(PartialBatch(w, i, ro), CmdOf(w[i], ro)) == PartialBatch(w, i + 1, ro)
  {
    assert w[..i + 1] == w[..i] + [w[i]];
    assert w[i..][1..] == w[i + 1..];
    SelectSnoc(w[..i], w[i], Read, ro);
    SelectSnoc(w[..i], w[i], Write, ro);
    SelectSnoc(w[..i], w[i], Trim, ro);
  }

  lemma BatchLinkStep(l: Link, d: seq<Request>, x: Request, ro: bool)
    ensures BatchLink(l, d + [x], ro) ==
      if CmdOf(x, ro) == Write then HeaderStep(BatchLink(l, d, ro), x) else BatchLink(l, d, ro)
  {
    var ws := Select(d, Write, ro);
    SelectSnoc(d, x, Write, ro);
    if CmdOf(x, ro) == Write {
      DseqsSnoc(ws, x, l.sequence);
      assert l.epoch.writes + (ws + [x]) == l.epoch.writes + ws + [x];
      assert l.epoch.dseqs + (Dseqs(ws, l.sequence) + [After(ws, l.sequence)])
          == l.epoch.dseqs + Dseqs(ws, l.sequence) + [After(ws, l.sequence)];
    } else {
      assert ws + [] == ws;
    }
  }

  lemma BatchLogStep(g: Log, d: seq<Request>, x: Request, ro: bool)
    ensures BatchLog(g, d + [x], ro) ==
      if CmdOf(x, ro) == Bad then End(BatchLog(g, d, ro), x) else BatchLog(g, d, ro)
  {
    SelectSnoc(d, x, Bad, ro);
    assert g.ended + (Select(d, Bad, ro) + [x]) == g.ended + Select(d, Bad, ro) + [x];
  }

  lemma FillNext(w: seq<Request>, i: nat, g: Log, ro: bool)
    requires i < |w|
    ensures forall c ::
      Select(w[..i + 1], c, ro) == Select(w[..i], c, ro) + (if CmdOf(w[i], ro) == c then [w[i]] else [])
    ensures BatchLog(g, w[..i + 1], ro) ==
      if CmdOf(w[i], ro) == Bad then End(BatchLog(g, w[..i], ro), w[i]) else BatchLog(g, w[..i], ro)
  {
    hide Select;
    assert w[..i + 1] == w[..i] + [w[i]];
    BatchLogStep(g, w[..i], w[i], ro);
    forall c
      ensures Select(w[..i + 1], c, ro) == Select(w[..i], c, ro) + (if CmdOf(w[i], ro) == c then [w[i]] else [])
    {
      SelectSnoc(w[..i], w[i], c, ro);
    }
  }

  lemma PartialStep(s: Dev, i: nat)
    requires i < |s.q.ctlSnd|
    ensures FillStep(Partial(s, i)) == Partial(s, i + 1)
  {
    var w, ro := s.q.ctlSnd, s.readOnly;
    assert w[..i + 1] == w[..i] + [w[i]];
    PartialBatchStep(w, i, ro);
    BatchLinkStep(s.l, w[..i], w[i], ro);
    BatchLogStep(s.g, w[..i], w[i], ro);
  }

  lemma {:induction false} PartialRun(s: Dev, i: nat)
    requires CanSend(s, TakeBatch) && i <= |s.q.ctlSnd|
    ensures exists es :: Run(s, es, Partial(s, i))
  {
    if i == 0 {
      RunSnoc(s, [], s, Snd(TakeBatch));
      assert s.q.ctlSnd[..0] == [] && s.q.ctlSnd[0..] == s.q.ctlSnd;
      assert s.l.epoch.writes + [] == s.l.epoch.writes && s.l.epoch.dseqs + [] == s.l.epoch.dseqs;
      assert BatchLink(s.l, [], s.readOnly) == s.l;
      assert BatchLog(s.g, [], s.readOnly) == s.g by { assert s.g.ended + [] == s.g.ended; }
      assert Partial(s, 0) == TakeStep(s);
    } else {
      PartialRun(s, i - 1);
      var es :| Run(s, es, Partial(s, i - 1));
      PartialStep(s, i - 1);
      RunSnoc(s, es, Partial(s, i - 1), Snd(FillOne));
    }
  }

  /** Sorting ctl_snd by command in one go is a run of single steps: taking a batch, filling one header
      at a time and splicing. */
  lemma BatchIsRun(s: Dev)
    requires CanSend(s, TakeBatch)
    ensures exists es :: Run(s, es, BatchResult(s))
  {
    var k := |s.q.ctlSnd|;
    PartialRun(s, k);
    var es :| Run(s, es, Partial(s, k));
    var p := Partial(s, k);
    assert s.q.ctlSnd[..k] == s.q.ctlSnd;
    if p.h.batch == NO_BATCH {
      EmptyBatch(s);
    } else {
      RunSnoc(s, es, p, Snd(SpliceBatch));
      assert SpliceStep(p) == BatchResult(s);
    }
  }

  lemma EmptyBatch(s: Dev)
    requires s.h.batch == NO_BATCH && Partial(s, |s.q.ctlSnd|).h.batch == NO_BATCH
    ensures Partial(s, |s.q.ctlSnd|) == BatchResult(s)
  {
    var w := s.q.ctlSnd;
    assert w[..|w|] == w;
    assert s.q.datSnd + [] == s.q.datSnd && s.q.ctlRcv + [] + [] == s.q.ctlRcv;
  }

  // ------------------------------------------------------------ the object

  class NidDevice {
    var readOnly: bool
    var errorNow: bool
    var ctlSnd: seq<Request>
    var datSnd: seq<Request>
    var ctlRcv: seq<Request>
    var datRcv: seq<Request>
    var ctlSndLen: int
    var datSndLen: int
    var ctlRcvLen: int
    var datRcvLen: int
    var sequence: nat
    var nrReq: int
    var hasDataSock: bool
    var currReq: bool
    ghost var hands: Hands
    ghost var link: Link
    ghost var fetched: seq<Request>
    ghost var ended: seq<Request>

    ghost function Q(): Queues
      reads `ctlSnd, `datSnd, `ctlRcv, `datRcv
    {
      Queues(ctlSnd, datSnd, ctlRcv, datRcv)
    }

    ghost function N(): Lens
      reads `ctlSndLen, `datSndLen, `ctlRcvLen, `datRcvLen
    {
      Lens(ctlSndLen, datSndLen, ctlRcvLen, datRcvLen)
    }

    ghost function L(): Link
      reads `link, `sequence
    {
      link.(sequence := sequence)
    }

    ghost function G(): Log
      reads `fetched, `ended, `nrReq
    {
      Log(fetched, ended, nrReq)
    }

    /** The transition system's view of this object. */
    ghost function View(): Dev
      reads this
    {
      Dev(readOnly, errorNow, Q(), N(), hands, L(), G())
    }

    method EndIo(req: Request)
      modifies `nrReq, `ended
      ensures G() == End(old(G()), req)
    {
      nrReq := nrReq - 1;
      ended := ended + [req];
    }

    /** The handler's critical section for one fetched request. */
    method QueueRequest(req: Request)
      requires req in hands.handlers
      modifies this
      ensures View() == old(ApplyCtl(View(), Handle(req)))
    {
      hands := hands.(handlers := hands.handlers - multiset{req});
      if errorNow {
        EndIo(req);
        return;
      }
      ctlSnd := ctlSnd + [req];
      ctlSndLen := ctlSndLen + 1;
    }

    /** Fill one header after the other and sort the requests by command; end the bad ones. */
    method FillHeaders(working: seq<Request>)
      returns (rd: seq<Request>, wr: seq<Request>, trim: seq<Request>, headers: seq<nat>)
      modifies `sequence, `nrReq, `ended, `link
      ensures rd == Select(working, Read, readOnly) && wr == Select(working, Write, readOnly)
      ensures trim == Select(working, Trim, readOnly)
      ensures headers == Dseqs(wr, old(sequence)) && L() == BatchLink(old(L()), working, readOnly)
      ensures G() == BatchLog(old(G()), working, readOnly)
      ensures |old(ended)| <= |ended| && SortedByFlags(working, readOnly, rd, wr, trim, ended[|old(ended)|..])
    {
      hide Select, Dseqs, BatchLink, SortedByFlags;
      rd, wr, trim, headers := FillLoop(working);
      SelectByFlags(working, readOnly);
      assert ended[|old(ended)|..] == Select(working, Bad, readOnly);
    }

    method FillLoop(working: seq<Request>)
      returns (rd: seq<Request>, wr: seq<Request>, trim: seq<Request>, headers: seq<nat>)
      modifies `sequence, `nrReq, `ended, `link
      ensures rd == Select(working, Read, readOnly) && wr == Select(working, Write, readOnly)
      ensures trim == Select(working, Trim, readOnly)
      ensures headers == Dseqs(wr, old(sequence)) && L() == BatchLink(old(L()), working, readOnly)
      ensures G() == BatchLog(old(G()), working, readOnly)
    {
      ghost var g0, q0 := G(), sequence;
      rd, wr, trim, headers := [], [], [], [];
      assert working[..0] == [];
      NothingFilled(q0, readOnly);
      hide Select, Dseqs, After;
      assert BatchLog(g0, [], readOnly) == g0 by { assert g0.ended + [] == g0.ended; }
      for i := 0 to |working|
        invariant rd == Select(working[..i], Read, readOnly)
        invariant wr == Select(working[..i], Write, readOnly)
        invariant trim == Select(working[..i], Trim, readOnly)
        invariant headers == Dseqs(wr, q0) && sequence == After(wr, q0)
        invariant G() == BatchLog(g0, working[..i], readOnly) && link == old(link)
      {
        var req := working[i];
        FillNext(working, i, g0, readOnly);
        hide BatchLog;
        match CmdOf(req, readOnly)
        case Bad => EndIo(req);
        case Write =>
          DseqsSnoc(wr, req, q0);
          headers := headers + [sequence];
          sequence := (sequence + |req.data|) % TWO64;
          wr := wr + [req];
        case Read => rd := rd + [req];
        case Trim => trim := trim + [req];
      }
      assert working[..|working|] == working;
      link := link.(epoch := link.epoch.(writes := link.epoch.writes + wr, dseqs := link.epoch.dseqs + headers));
    }

    /** The critical section that moves a sorted batch to the queues it waits on next. */
    method SpliceLists(rd: seq<Request>, wr: seq<Request>, trim: seq<Request>)
      modifies `ctlSndLen, `datSnd, `datSndLen, `ctlRcv, `ctlRcvLen
      ensures ctlRcv == old(ctlRcv) + rd + trim && ctlRcvLen == old(ctlRcvLen) + |rd|
      ensures datSnd == old(datSnd) + wr && datSndLen == old(datSndLen) + |wr|
      ensures ctlSndLen == old(ctlSndLen) + |trim|
    {
      ctlRcv := ctlRcv + rd;
      ctlRcvLen := ctlRcvLen + |rd|;
      datSnd := datSnd + wr;
      datSndLen := datSndLen + |wr|;
      ctlRcv := ctlRcv + trim;
      ctlSndLen := ctlSndLen + |trim|;
    }

    /** Take everything on ctl_snd, fill the headers and hand the requests on. */
    method HandleReqList()
      modifies `ctlSnd, `ctlSndLen, `datSnd, `datSndLen, `ctlRcv, `ctlRcvLen, `sequence, `nrReq, `ended, `link
      ensures Q() == BatchQueues(old(Q()), old(ctlSnd), readOnly)
      ensures N() == BatchLens(old(N()), old(ctlSnd), readOnly)
      ensures L() == BatchLink(old(L()), old(ctlSnd), readOnly)
      ensures G() == BatchLog(old(G()), old(ctlSnd), readOnly)
      ensures |old(datSnd)| <= |datSnd| && |old(ctlRcv)| <= |ctlRcv| && |old(ended)| <= |ended|
      ensures HandedOn(
        old(ctlSnd), readOnly, datSnd[|old(datSnd)|..], ctlRcv[|old(ctlRcv)|..], ended[|old(ended)|..])
    {
      hide Select, Dseqs, After, SortedByFlags, HandedOn, BatchLink, BatchLog;
      var working := ctlSnd;
      ctlSnd, ctlSndLen := [], 0;
      var rd, wr, trim, headers := FillHeaders(working);
      SpliceLists(rd, wr, trim);
      SortedHandsOn(working, readOnly, rd, wr, trim, ended[|old(ended)|..]);
      assert datSnd[|old(datSnd)|..] == wr && ctlRcv[|old(ctlRcv)|..] == rd + trim;
    }

    /** Search ctl_rcv for the request a reply names and take it off. */
    method FindRequest(id: nat, ghost err: bool) returns (r: Option<Request>)
      modifies this
      ensures View() == old(ReplyStep(View(), id, err))
      ensures r == None <==> forall x <- old(ctlRcv) :: x.id != id
      ensures r != None ==> r.value in old(ctlRcv) && r.value.id == id
    {
      IndexOfIs(ctlRcv, id);
      var i := 0;
      while i < |ctlRcv|
        invariant 0 <= i <= |ctlRcv|
        invariant forall j :: 0 <= j < i ==> ctlRcv[j].id != id
        invariant View() == old(View())
      {
        if ctlRcv[i].id == id {
          r := Some(ctlRcv[i]);
          hands := hands.(found := Some(Found(ctlRcv[i], err)));
          ctlRcv := ctlRcv[..i] + ctlRcv[i + 1..];
          ctlRcvLen := ctlRcvLen - 1;
          return;
        }
        i := i + 1;
      }
      r := None;
    }

    /** End every queued request with an error, unless the channel is in use. */
    method PurgeQue() returns (busy: bool)
      modifies this
      ensures busy <==> old(hasDataSock || currReq)
      ensures busy ==> View() == old(View())
      ensures !busy ==>
        && Q() == Queues([], [], [], [])
        && ended == old(ended + datRcv + ctlRcv + datSnd + ctlSnd)
        && nrReq == old(nrReq - |datRcv| - |ctlRcv| - |datSnd| - |ctlSnd|)
        && ctlSndLen == old(ctlSndLen - |ctlSnd|) && datSndLen == old(datSndLen - |datSnd|)
        && ctlRcvLen == old(ctlRcvLen - |ctlRcv|) && datRcvLen == old(datRcvLen - |datRcv|)
      ensures fetched == old(fetched) && hands == old(hands) && link == old(link) && sequence == old(sequence)
      ensures readOnly == old(readOnly) && errorNow == old(errorNow)
    {
      if hasDataSock || currReq {
        return true;
      }
      PurgeDatRcv();
      PurgeCtlRcv();
      PurgeDatSnd();
      PurgeCtlSnd();
      return false;
    }

    method PurgeDatRcv()
      modifies `datRcv, `datRcvLen, `nrReq, `ended
      ensures datRcv == [] && datRcvLen == old(datRcvLen - |datRcv|)
      ensures ended == old(ended + datRcv) && nrReq == old(nrReq - |datRcv|)
    {
      while datRcv != []
        invariant ended + datRcv == old(ended + datRcv)
        invariant datRcvLen - |datRcv| == old(datRcvLen - |datRcv|) && nrReq - |datRcv| == old(nrReq - |datRcv|)
        decreases |datRcv|
      {
        var req := datRcv[0];
        assert datRcv == [req] + datRcv[1..];
        datRcv, datRcvLen := datRcv[1..], datRcvLen - 1;
        EndIo(req);
      }
    }

    method PurgeCtlRcv()
      modifies `ctlRcv, `ctlRcvLen, `nrReq, `ended
      ensures ctlRcv == [] && ctlRcvLen == old(ctlRcvLen - |ctlRcv|)
      ensures ended == old(ended + ctlRcv) && nrReq == old(nrReq - |ctlRcv|)
    {
      while ctlRcv != []
        invariant ended + ctlRcv == old(ended + ctlRcv)
        invariant ctlRcvLen - |ctlRcv| == old(ctlRcvLen - |ctlRcv|) && nrReq - |ctlRcv| == old(nrReq - |ctlRcv|)
        decreases |ctlRcv|
      {
        var req := ctlRcv[0];
        assert ctlRcv == [req] + ctlRcv[1..];
        ctlRcv, ctlRcvLen := ctlRcv[1..], ctlRcvLen - 1;
        EndIo(req);
      }
    }

    method PurgeDatSnd()
      modifies `datSnd, `datSndLen, `nrReq, `ended
      ensures datSnd == [] && datSndLen == old(datSndLen - |datSnd|)
      ensures ended == old(ended + datSnd) && nrReq == old(nrReq - |datSnd|)
    {
      while datSnd != []
        invariant ended + datSnd == old(ended + datSnd)
        invariant datSndLen - |datSnd| == old(datSndLen - |datSnd|) && nrReq - |datSnd| == old(nrReq - |datSnd|)
        decreases |datSnd|
      {
        var req := datSnd[0];
        assert datSnd == [req] + datSnd[1..];
        datSnd, datSndLen := datSnd[1..], datSndLen - 1;
        EndIo(req);
      }
    }

    method PurgeCtlSnd()
      modifies `ctlSnd, `ctlSndLen, `nrReq, `ended
      ensures ctlSnd == [] && ctlSndLen == old(ctlSndLen - |ctlSnd|)
      ensures ended == old(ended + ctlSnd) && nrReq == old(nrReq - |ctlSnd|)
    {
      while ctlSnd != []
        invariant ended + ctlSnd == old(ended + ctlSnd)
        invariant ctlSndLen - |ctlSnd| == old(ctlSndLen - |ctlSnd|) && nrReq - |ctlSnd| == old(nrReq - |ctlSnd|)
        decreases |ctlSnd|
      {
        var req := ctlSnd[0];
        assert ctlSnd == [req] + ctlSnd[1..];
        ctlSnd, ctlSndLen := ctlSnd[1..], ctlSndLen - 1;
        EndIo(req);
      }
    }

    /** Put everything back on ctl_snd to be sent again on the next connection. */
    method RecoverPending()
      modifies `ctlSnd, `ctlSndLen, `datSnd, `datSndLen, `ctlRcv, `ctlRcvLen, `datRcv, `datRcvLen
      ensures Q() == RecoverQueues(old(Q())) && N() == RecoverLens(old(Q()), old(N()))
    {
      var pending, n := ctlSnd, ctlSndLen;
      if datRcv != [] {
        pending, n := SpliceAfterFirst(pending, datRcv), n + datRcvLen;
        datRcv, datRcvLen := [], 0;
      }
      if ctlRcv != [] {
        pending, n := SpliceAfterFirst(pending, ctlRcv), n + ctlRcvLen;
        ctlRcv, ctlRcvLen := [], 0;
      }
      if datSnd != [] {
        pending, n := SpliceAfterFirst(pending, datSnd), n + datSndLen;
        datSnd, datSndLen := [], 0;
      }
      ctlSnd, ctlSndLen := pending, n;
    }
  }
}
