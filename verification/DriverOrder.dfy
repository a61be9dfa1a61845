/** In which order recovery sends the pending requests again. */
module DriverOrder {
  import opened Common
  import opened Driver
  import opened DriverSafety

  /** Oldest first, by any numbering of the requests, such as their place in fetch order. */
  ghost predicate InOrder(f: Request -> int, s: seq<Request>) {
    forall i, j :: 0 <= i < j < |s| ==> f(s[i]) < f(s[j])
  }

  ghost predicate Before(f: Request -> int, s: seq<Request>, t: seq<Request>) {
    forall x, y :: x in s && y in t ==> f(x) < f(y)
  }

  /** The recovered queue in five stretches: the entry that stays in front, then what was on dat_snd,
      ctl_rcv, dat_rcv and ctl_snd without that entry. In front stays the first entry of ctl_snd,
      and if that is empty the first of dat_rcv, else of ctl_rcv. */
  datatype Stretches = Stretches(
    front: seq<Request>, datSnd: seq<Request>, ctlRcv: seq<Request>, datRcv: seq<Request>, ctlSnd: seq<Request>)

  function Cut(q: Queues): Stretches {
    if q.ctlSnd != [] then Stretches(q.ctlSnd[..1], q.datSnd, q.ctlRcv, q.datRcv, q.ctlSnd[1..])
    else if q.datRcv != [] then Stretches(q.datRcv[..1], q.datSnd, q.ctlRcv, q.datRcv[1..], [])
    else if q.ctlRcv != [] then Stretches(q.ctlRcv[..1], q.datSnd, q.ctlRcv[1..], [], [])
    else Stretches([], q.datSnd, [], [], [])
  }

  function Joined(s: Stretches): seq<Request> {
    s.front + (s.datSnd + (s.ctlRcv + (s.datRcv + s.ctlSnd)))
  }

  lemma SpliceIs(h: seq<Request>, l: seq<Request>, t: seq<Request>)
    requires |h| == 1
    ensures SpliceAfterFirst(h + t, l) == h + l + t
  {
    assert (h + t)[1..] == t && h == [h[0]];
  }

  /** Recovery puts the stretches one behind the other. */
  lemma RecoveredOrder(q: Queues)
    ensures RecoverQueues(q).ctlSnd == Joined(Cut(q))
  {
    hide SpliceAfterFirst;
    if q.ctlSnd != [] {
      var h, t := q.ctlSnd[..1], q.ctlSnd[1..];
      assert q.ctlSnd == h + t;
      SpliceIs(h, q.datRcv, t);
      ThreeSplices(h, q.datRcv, q.ctlRcv, q.datSnd, t);
    } else {
      OnEmpty(q.datRcv);
      if q.datRcv != [] {
        var h, t := q.datRcv[..1], q.datRcv[1..];
        assert q.datRcv == h + [] + t && [] + t == t && t + [] == t;
        ThreeSplices(h, [], q.ctlRcv, q.datSnd, t);
      } else {
        OnEmpty(q.ctlRcv);
        OnlyTwo(q);
      }
    }
  }

  lemma OnlyTwo(q: Queues)
    requires q.ctlSnd == q.datRcv == []
    ensures SpliceAfterFirst(q.ctlRcv, q.datSnd) == Joined(Cut(q))
  {
    var t := Tail(q.ctlRcv);
    assert t + ([] + []) == t && [] + (q.datSnd + ([] + ([] + []))) == q.datSnd;
    if q.ctlRcv != [] {
      assert q.ctlRcv == q.ctlRcv[..1] + t;
      SpliceIs(q.ctlRcv[..1], q.datSnd, t);
      assert q.ctlRcv[..1] + q.datSnd + t == q.ctlRcv[..1] + (q.datSnd + t);
    }
  }

  function Tail(s: seq<Request>): seq<Request> { if s == [] then [] else s[1..] }

  lemma OnEmpty(l: seq<Request>)
    ensures SpliceAfterFirst([], l) == l && SpliceAfterFirst(l, []) == l
  {
  }

  lemma ThreeSplices(h: seq<Request>, a: seq<Request>, b: seq<Request>, c: seq<Request>, t: seq<Request>)
    requires |h| == 1
    ensures SpliceAfterFirst(SpliceAfterFirst(h + a + t, b), c) == h + (c + (b + (a + t)))
  {
    SpliceIs(h, b, a + t);
    assert h + a + t == h + (a + t);
    SpliceIs(h, c, b + (a + t));
    assert h + b + (a + t) == h + (b + (a + t));
    assert h + c + (b + (a + t)) == h + (c + (b + (a + t)));
  }

  // ------------------------------------------------------------------- order

  lemma InOrderConcat(f: Request -> int, a: seq<Request>, b: seq<Request>)
    ensures InOrder(f, a + b) <==> InOrder(f, a) && InOrder(f, b) && Before(f, a, b)
  {
    var s := a + b;
    if InOrder(f, s) {
      forall i, j | 0 <= i < j < |a| ensures f(a[i]) < f(a[j]) { assert s[i] == a[i] && s[j] == a[j]; }
      forall i, j | 0 <= i < j < |b| ensures f(b[i]) < f(b[j]) {
        assert s[|a| + i] == b[i] && s[|a| + j] == b[j];
      }
      forall x, y | x in a && y in b ensures f(x) < f(y) {
        var i, j :| 0 <= i < |a| && 0 <= j < |b| && a[i] == x && b[j] == y;
        assert s[i] == x && s[|a| + j] == y;
      }
    }
  }

  lemma BeforeConcat(f: Request -> int, a: seq<Request>, b: seq<Request>, c: seq<Request>)
    ensures Before(f, a, b + c) <==> Before(f, a, b) && Before(f, a, c)
  {
    assert forall y :: y in b + c <==> y in b || y in c;
  }

  /** Every stretch in order, and each before the next ones. */
  ghost predicate Aligned(f: Request -> int, s: Stretches) {
    && InOrder(f, s.front) && InOrder(f, s.datSnd) && InOrder(f, s.ctlRcv) && InOrder(f, s.datRcv)
    && InOrder(f, s.ctlSnd)
    && Before(f, s.front, s.datSnd) && Before(f, s.front, s.ctlRcv) && Before(f, s.front, s.datRcv)
    && Before(f, s.front, s.ctlSnd) && Before(f, s.datSnd, s.ctlRcv) && Before(f, s.datSnd, s.datRcv)
    && Before(f, s.datSnd, s.ctlSnd) && Before(f, s.ctlRcv, s.datRcv) && Before(f, s.ctlRcv, s.ctlSnd)
    && Before(f, s.datRcv, s.ctlSnd)
  }

  lemma AlignedIff(f: Request -> int, s: Stretches)
    ensures InOrder(f, Joined(s)) <==> Aligned(f, s)
  {
    hide InOrder, Before;
    var de := s.datRcv + s.ctlSnd;
    var cde := s.ctlRcv + de;
    InOrderConcat(f, s.datRcv, s.ctlSnd);
    InOrderConcat(f, s.ctlRcv, de);
    InOrderConcat(f, s.datSnd, cde);
    InOrderConcat(f, s.front, s.datSnd + cde);
    forall x | x == s.front || x == s.datSnd || x == s.ctlRcv
      ensures Before(f, x, cde) <==> Before(f, x, s.ctlRcv) && Before(f, x, s.datRcv) && Before(f, x, s.ctlSnd)
      ensures Before(f, x, de) <==> Before(f, x, s.datRcv) && Before(f, x, s.ctlSnd)
    {
      BeforeConcat(f, x, s.ctlRcv, de);
      BeforeConcat(f, x, s.datRcv, s.ctlSnd);
    }
    BeforeConcat(f, s.front, s.datSnd, cde);
  }

  /** Recovery sends the pending requests again oldest first if and only if the entry in front is the
      oldest and then dat_snd, ctl_rcv, dat_rcv and the rest of ctl_snd follow each other in age. */
  lemma OldestFirstIff(f: Request -> int, q: Queues)
    ensures InOrder(f, RecoverQueues(q).ctlSnd) <==> Aligned(f, Cut(q))
  {
    hide Aligned, Cut, RecoverQueues, InOrder;
    RecoveredOrder(q);
    AlignedIff(f, Cut(q));
  }

  /** In particular one older request in flight is overtaken by the first that still waits. */
  lemma WaitingOvertakes(f: Request -> int, q: Queues, r: Request)
    requires q.ctlSnd != [] && (r in q.datSnd || r in q.ctlRcv || r in q.datRcv) && f(r) <= f(q.ctlSnd[0])
    ensures !InOrder(f, RecoverQueues(q).ctlSnd)
  {
    hide InOrder, RecoverQueues;
    OldestFirstIff(f, q);
    assert q.ctlSnd[0] in q.ctlSnd[..1];
  }

  // ----------------------------------------------------------------- a witness

  lemma Step(s: Dev, e: Event) returns (t: Dev)
    requires Reachable(s) && Enabled(s, e)
    ensures t == Apply(s, e) && Reachable(t)
  {
    hide Apply, Enabled, Init;
    var s0, es :| Init(s0) && Run(s0, es, s);
    RunSnoc(s0, es, s, e);
    t := Apply(s, e);
  }

  /** A READ was sent and waits for its reply. */
  lemma OneInFlight(s: Dev, a: Request) returns (t: Dev)
    requires Init(s) && !s.errorNow && CmdOf(a, s.readOnly) == Read
    ensures Reachable(t) && t.q == Queues([], [], [a], []) && t.g.fetched == [a] && !t.errorNow
    ensures t.l.sock == Up && t.l.sending == Idle && t.h == s.h
  {
    var s1, es := OneQueued(s, a);
    assert Reachable(s1);
    hide Reachable;
    t := SendRead(s1, a);
  }

  lemma SendRead(s: Dev, a: Request) returns (t: Dev)
    requires Reachable(s) && s.q == Queues([a], [], [], []) && CmdOf(a, s.readOnly) == Read
    requires s.l.sock == Up && s.h.batch == NO_BATCH
    ensures Reachable(t) && t.q == Queues([], [], [a], []) && t.g == s.g && t.errorNow == s.errorNow
    ensures t.l == s.l && t.h == s.h
  {
    hide Reachable, CmdOf;
    t := Step(s, Snd(TakeBatch));
    t := Step(t, Snd(FillOne));
    t := Step(t, Snd(SpliceBatch));
    assert [] + [a] + [] == [a];
  }

  lemma QueueMore(s: Dev, b: Request) returns (t: Dev)
    requires Reachable(s) && !s.errorNow && forall x <- s.g.fetched :: x.id != b.id
    ensures Reachable(t) && t.q == s.q.(ctlSnd := s.q.ctlSnd + [b]) && t.g.fetched == s.g.fetched + [b]
    ensures t.l == s.l && t.h == s.h
  {
    hide Reachable;
    t := Step(s, Ctl(Fetch(b)));
    t := Step(t, Ctl(Handle(b)));
    assert s.h.handlers + multiset{b} - multiset{b} == s.h.handlers;
  }

  /** A reachable recovery that sends the newer of two requests first. */
  lemma RecoveryOvertakes(s: Dev, a: Request, b: Request)
    requires Init(s) && !s.errorNow && CmdOf(a, s.readOnly) == Read && a.id != b.id
    ensures exists t :: Reachable(t) && t.g.fetched == [a, b] && t.q.ctlSnd == [b, a]
  {
    hide Reachable, CmdOf;
    var t := OneInFlight(s, a);
    t := QueueMore(t, b);
    assert t.q == Queues([b], [], [a], []) by { assert [] + [b] == [b]; }
    assert t.g.fetched == [a, b];
    t := StopAndRecover(t);
    assert t.q.ctlSnd == [b, a];
  }

  lemma StopAndRecover(s: Dev) returns (t: Dev)
    requires Reachable(s) && s.l.sock != Down && s.l.sending == Idle
    requires s.h.batch == NO_BATCH && s.h.found == None && s.h.receiving == None
    ensures Reachable(t) && t.q == RecoverQueues(s.q) && t.g == s.g
  {
    hide Reachable, RecoverQueues, RecoverLens;
    t := Step(s, Ctl(Stop));
    t := Step(t, Ctl(Recover));
  }
}
