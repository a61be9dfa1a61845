/** How far the length counters drift from the queues, over whole runs: the batch splice counts the
    TRIMs it puts on ctl_rcv on ctl_snd. */
module DriverDrift {
  import opened Driver
  import opened DriverSafety

  /** By how much ctl_rcv is longer than its counter says. */
  function Gap(s: Dev): int { |s.q.ctlRcv| - s.n.ctlRcv }

  /** By how much the counter of ctl_snd is too large. */
  function Excess(s: Dev): int { s.n.ctlSnd - |s.q.ctlSnd| }

  predicate DataExact(s: Dev) { s.n.datSnd == |s.q.datSnd| && s.n.datRcv == |s.q.datRcv| }

  /** A recovery that finds ctl_rcv with entries, and so moves its counter. */
  predicate Clears(s: Dev, e: Event) { e == Ctl(Recover) && s.q.ctlRcv != [] }

  function TrimsOf(s: Dev, e: Event): nat { if e == Snd(SpliceBatch) then |s.h.batch.trimQ| else 0 }

  /** The TRIMs that the splices of a run put on ctl_rcv. */
  ghost function Trims(s: Dev, es: seq<Event>, t: Dev): nat
    requires Run(s, es, t)
    decreases |es|
  {
    if es == [] then 0 else TrimsOf(s, es[0]) + Trims(Apply(s, es[0]), es[1..], t)
  }

  /** No recovery of the run found ctl_rcv with entries. */
  ghost predicate NoClear(s: Dev, es: seq<Event>, t: Dev)
    requires Run(s, es, t)
    decreases |es|
  {
    es == [] || (!Clears(s, es[0]) && NoClear(Apply(s, es[0]), es[1..], t))
  }

  /** The control sender took no batch in the run. */
  predicate NoTake(es: seq<Event>) { Snd(TakeBatch) !in es }

  // -------------------------------------------------------------------- steps

  lemma GapSend(s: Dev, e: SendEvent)
    requires CanSend(s, e) && DataExact(s)
    ensures var t := ApplySend(s, e);
      && DataExact(t) && Gap(t) == Gap(s) + TrimsOf(s, Snd(e))
      && Excess(t) == if e == TakeBatch then 0 else Excess(s) + TrimsOf(s, Snd(e))
  {
    hide CmdOf, HeaderStep;
  }

  lemma GapRecv(s: Dev, e: RecvEvent)
    requires CanRecv(s, e) && DataExact(s)
    ensures var t := ApplyRecv(s, e); DataExact(t) && Gap(t) == Gap(s) && Excess(t) == Excess(s)
  {
    hide CmdOf;
  }

  lemma SpliceLength(q: seq<Request>, l: seq<Request>)
    ensures |SpliceAfterFirst(q, l)| == |q| + |l|
  {
  }

  lemma GapRecover(s: Dev)
    requires DataExact(s)
    ensures var t := RecoverStep(s);
      && DataExact(t)
      && Gap(t) == (if s.q.ctlRcv != [] then 0 else Gap(s))
      && Excess(t) - Gap(t) == Excess(s) - Gap(s)
  {
    hide SpliceAfterFirst;
    var q1 := SpliceAfterFirst(s.q.ctlSnd, s.q.datRcv);
    SpliceLength(s.q.ctlSnd, s.q.datRcv);
    SpliceLength(q1, s.q.ctlRcv);
    SpliceLength(SpliceAfterFirst(q1, s.q.ctlRcv), s.q.datSnd);
  }

  lemma GapCtl(s: Dev, e: CtlEvent)
    requires CanCtl(s, e) && DataExact(s)
    ensures var t := ApplyCtl(s, e);
      && DataExact(t)
      && Gap(t) == (if Clears(s, Ctl(e)) then 0 else Gap(s))
      && Excess(t) - Gap(t) == Excess(s) - Gap(s)
  {
    hide RecoverStep;
    if e == Recover { GapRecover(s); }
  }

  /** One step: a clearing recovery closes the gap, a splice widens it by the batch's TRIMs, and no
      step but the taking of a batch changes the difference between the two errors. */
  lemma GapStep(s: Dev, e: Event)
    requires Enabled(s, e) && DataExact(s)
    ensures var t := Apply(s, e);
      && DataExact(t)
      && Gap(t) == (if Clears(s, e) then 0 else Gap(s) + TrimsOf(s, e))
      && (if e == Snd(TakeBatch) then Excess(t) == 0 else Excess(t) - Gap(t) == Excess(s) - Gap(s))
  {
    hide CanSend, CanRecv, CanCtl, ApplySend, ApplyRecv, ApplyCtl, Gap, Excess, DataExact;
    match e
    case Snd(x) => GapSend(s, x);
    case Rcv(x) => GapRecv(s, x);
    case Ctl(x) => GapCtl(s, x);
  }

  // --------------------------------------------------------------- whole runs

  lemma {:induction false} DataRun(s: Dev, es: seq<Event>, t: Dev)
    requires Run(s, es, t) && DataExact(s)
    ensures DataExact(t)
    decreases |es|
  {
    hide Enabled, Apply, DataExact;
    if es != [] {
      GapStep(s, es[0]);
      DataRun(Apply(s, es[0]), es[1..], t);
    }
  }

  lemma {:induction false} GapRun(s: Dev, es: seq<Event>, t: Dev)
    requires Run(s, es, t) && DataExact(s) && NoClear(s, es, t)
    ensures Gap(t) == Gap(s) + Trims(s, es, t)
    decreases |es|
  {
    hide Enabled, Apply, DataExact, Gap, Clears, TrimsOf;
    if es != [] {
      GapStep(s, es[0]);
      GapRun(Apply(s, es[0]), es[1..], t);
    }
  }

  lemma {:induction false} ExcessRun(s: Dev, es: seq<Event>, t: Dev)
    requires Run(s, es, t) && DataExact(s) && NoTake(es)
    ensures Excess(t) - Gap(t) == Excess(s) - Gap(s)
    decreases |es|
  {
    hide Enabled, Apply, DataExact, Gap, Excess;
    if es != [] {
      assert es[0] in es;
      GapStep(s, es[0]);
      assert NoTake(es[1..]);
      ExcessRun(Apply(s, es[0]), es[1..], t);
    }
  }

  /** u is where the gap of a run to t began: the start, or right behind the last recovery that found
      ctl_rcv with entries. */
  ghost predicate GapBegins(u: Dev, es: seq<Event>, t: Dev) {
    && Run(u, es, t) && NoClear(u, es, t)
    && (Init(u) || exists v :: Reachable(v) && v.l.stopping && v.q.ctlRcv != [] && u == RecoverStep(v))
  }

  /** u is where the control sender's last batch before t was taken, or the start. */
  ghost predicate BatchBegins(u: Dev, es: seq<Event>, t: Dev) {
    && Run(u, es, t) && NoTake(es)
    && (Init(u) || exists v :: Reachable(v) && CanSend(v, TakeBatch) && u == TakeStep(v))
  }

  lemma InitExact(s: Dev)
    requires Init(s)
    ensures DataExact(s) && Gap(s) == 0 && Excess(s) == 0
  {
  }

  lemma ReachableExact(t: Dev)
    requires Reachable(t)
    ensures DataExact(t)
  {
    hide Run, DataExact, Init;
    var s, es :| Init(s) && Run(s, es, t);
    InitExact(s);
    DataRun(s, es, t);
  }

  lemma ReachableNext(s: Dev, e: Event)
    requires Reachable(s) && Enabled(s, e)
    ensures Reachable(Apply(s, e))
  {
    hide Enabled, Apply, Init;
    var s0, es :| Init(s0) && Run(s0, es, s);
    RunSnoc(s0, es, s, e);
  }

  /** In every state where a gap begins it is zero. */
  lemma GapStart(u: Dev, es: seq<Event>, t: Dev)
    requires GapBegins(u, es, t)
    ensures DataExact(u) && Gap(u) == 0
  {
    hide Run, NoClear, RecoverStep, Gap, DataExact, Init;
    if Init(u) {
      InitExact(u);
    } else {
      var v :| Reachable(v) && v.l.stopping && v.q.ctlRcv != [] && u == RecoverStep(v);
      ReachableExact(v);
      GapRecover(v);
    }
  }

  lemma BatchStart(u: Dev, es: seq<Event>, t: Dev)
    requires BatchBegins(u, es, t)
    ensures DataExact(u) && Excess(u) == 0 && (Init(u) ==> Gap(u) == 0)
  {
    hide Run, NoTake, Gap, Reachable, Init;
    if Init(u) {
      InitExact(u);
    } else {
      var v :| Reachable(v) && CanSend(v, TakeBatch) && u == TakeStep(v);
      ReachableExact(v);
    }
  }

  /** In every run ctl_rcv is longer than its counter says by exactly the number of TRIMs spliced
      since the last recovery that found ctl_rcv with entries; a recovery that finds it empty
      leaves the counter as it is. */
  lemma GapIsTrims(u: Dev, es: seq<Event>, t: Dev)
    requires GapBegins(u, es, t)
    ensures |t.q.ctlRcv| - t.n.ctlRcv == Trims(u, es, t)
  {
    hide Run, NoClear, DataExact;
    GapStart(u, es, t);
    GapRun(u, es, t);
  }

  /** The counter of ctl_snd is too large by what the gap grew since the last batch was taken. */
  lemma ExcessIsGrowth(u: Dev, es: seq<Event>, t: Dev)
    requires BatchBegins(u, es, t)
    ensures t.n.ctlSnd - |t.q.ctlSnd| == Gap(t) - Gap(u)
  {
    hide Run, NoTake, DataExact, Gap;
    BatchStart(u, es, t);
    ExcessRun(u, es, t);
  }

  lemma GapBeginsStep(u: Dev, es: seq<Event>, t: Dev, e: Event) returns (u': Dev, es': seq<Event>)
    requires GapBegins(u, es, t) && Reachable(t) && Enabled(t, e)
    ensures GapBegins(u', es', Apply(t, e))
  {
    hide Reachable, Init;
    if Clears(t, e) {
      u', es' := Apply(t, e), [];
    } else {
      u', es' := u, es + [e];
      RunSnoc(u, es, t, e);
      NoClearSnoc(u, es, t, e);
    }
  }

  lemma {:induction false} NoClearSnoc(s: Dev, es: seq<Event>, t: Dev, e: Event)
    requires Run(s, es, t) && NoClear(s, es, t) && Enabled(t, e) && !Clears(t, e)
    requires Run(s, es + [e], Apply(t, e))
    ensures NoClear(s, es + [e], Apply(t, e))
    decreases |es|
  {
    hide Enabled, Apply, Clears;
    if es == [] {
      assert es + [e] == [e] && [e][1..] == [];
    } else {
      assert (es + [e])[1..] == es[1..] + [e] && (es + [e])[0] == es[0];
      NoClearSnoc(Apply(s, es[0]), es[1..], t, e);
    }
  }

  lemma BatchBeginsStep(u: Dev, es: seq<Event>, t: Dev, e: Event) returns (u': Dev, es': seq<Event>)
    requires BatchBegins(u, es, t) && Reachable(t) && Enabled(t, e)
    ensures BatchBegins(u', es', Apply(t, e))
  {
    hide Reachable, Init;
    if e == Snd(TakeBatch) {
      u', es' := Apply(t, e), [];
    } else {
      u', es' := u, es + [e];
      RunSnoc(u, es, t, e);
    }
  }

  /** Both starting points exist for every reachable state. */
  lemma {:induction false} BeginningsRun(s: Dev, es: seq<Event>, t: Dev, u: Dev, a: seq<Event>, v: Dev, b: seq<Event>)
    requires Run(s, es, t) && Reachable(s) && GapBegins(u, a, s) && BatchBegins(v, b, s)
    ensures exists u, a :: GapBegins(u, a, t)
    ensures exists v, b :: BatchBegins(v, b, t)
    decreases |es|
  {
    hide Reachable, Enabled, Apply, GapBegins, BatchBegins;
    if es != [] {
      ReachableNext(s, es[0]);
      var u', a' := GapBeginsStep(u, a, s, es[0]);
      var v', b' := BatchBeginsStep(v, b, s, es[0]);
      BeginningsRun(Apply(s, es[0]), es[1..], t, u', a', v', b');
    }
  }

  lemma Beginnings(t: Dev)
    requires Reachable(t)
    ensures exists u, es :: GapBegins(u, es, t)
    ensures exists u, es :: BatchBegins(u, es, t)
  {
    hide Enabled, Apply, Init;
    var s, es :| Init(s) && Run(s, es, t);
    assert Run(s, [], s) && Reachable(s) && NoClear(s, [], s) && NoTake([]);
    BeginningsRun(s, es, t, s, [], s, []);
  }

  lemma BatchReachable(u: Dev, es: seq<Event>, t: Dev)
    requires BatchBegins(u, es, t)
    ensures Reachable(u)
  {
    hide Enabled, Apply, Init;
    if Init(u) {
      assert Run(u, [], u);
    } else {
      var v :| Reachable(v) && CanSend(v, TakeBatch) && u == TakeStep(v);
      TakeIsStep(v);
      ReachableNext(v, Snd(TakeBatch));
    }
  }

  lemma TakeIsStep(v: Dev)
    requires CanSend(v, TakeBatch)
    ensures Enabled(v, Snd(TakeBatch)) && Apply(v, Snd(TakeBatch)) == TakeStep(v)
  {
  }

  /** The counters are exact if and only if no TRIM was spliced since the gap of now began, and none
      since the gap of the time when the last batch was taken began. */
  lemma ExactIffNoTrims(u: Dev, a: seq<Event>, t: Dev, v: Dev, b: seq<Event>, w: Dev, c: seq<Event>)
    requires GapBegins(u, a, t) && BatchBegins(v, b, t) && GapBegins(w, c, v)
    ensures LensExact(t) <==> Trims(u, a, t) == 0 && Trims(w, c, v) == 0
  {
    hide Run, NoClear, NoTake, Init;
    GapIsTrims(u, a, t);
    GapIsTrims(w, c, v);
    ExcessIsGrowth(v, b, t);
    GapStart(u, a, t);
    DataRun(u, a, t);
  }

  /** Every reachable state has such beginnings, so the theorems above speak about all of them. */
  lemma DriftEverywhere(t: Dev)
    requires Reachable(t)
    ensures exists u, a, v, b, w, c :: GapBegins(u, a, t) && BatchBegins(v, b, t) && GapBegins(w, c, v)
  {
    hide Reachable, GapBegins, BatchBegins;
    Beginnings(t);
    var u, a :| GapBegins(u, a, t);
    var v, b :| BatchBegins(v, b, t);
    BatchReachable(v, b, t);
    Beginnings(v);
    var w, c :| GapBegins(w, c, v);
  }

  // ----------------------------------------------------------------- a witness

  /** A TRIM was sent and answered. */
  lemma OneAnswered(s: Dev, r: Request) returns (t: Dev)
    requires Init(s) && !s.errorNow && CmdOf(r, s.readOnly) == Trim
    ensures Reachable(t) && t.q == Queues([], [], [], []) && t.n.ctlRcv == -1 && t.l.sock == Up
    ensures t.l.sending == Idle && t.h == s.h
  {
    var es;
    t, es := OneQueued(s, r);
    assert Reachable(t);
    hide Reachable, CmdOf;
    ReachableNext(t, Snd(TakeBatch));
    t := Apply(t, Snd(TakeBatch));
    ReachableNext(t, Snd(FillOne));
    t := Apply(t, Snd(FillOne));
    ReachableNext(t, Snd(SpliceBatch));
    t := Apply(t, Snd(SpliceBatch));
    assert [] + [] + [r] == [r];
    ReachableNext(t, Rcv(Reply(r.id, false)));
    t := Apply(t, Rcv(Reply(r.id, false)));
    ReachableNext(t, Rcv(Dispatch));
    t := Apply(t, Rcv(Dispatch));
  }

  /** The counter of ctl_rcv can be negative, and a recovery that finds the queue empty leaves it so. */
  lemma NegativeSurvivesRecovery(s: Dev, r: Request)
    requires Init(s) && !s.errorNow && CmdOf(r, s.readOnly) == Trim
    ensures exists t :: Reachable(t) && t.l.stopping && RecoverStep(t).n.ctlRcv == -1
  {
    hide Reachable, CmdOf;
    var t := OneAnswered(s, r);
    ReachableNext(t, Ctl(Stop));
    t := Apply(t, Ctl(Stop));
    assert t.l.stopping && RecoverStep(t).n.ctlRcv == -1;
  }
}
