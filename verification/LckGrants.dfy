/** What each lock call gets, by what the other threads are doing. */
module LckGrants {
  import opened Lck

  ghost predicate Nobody(s: State, f: Pc -> bool) { forall t :: t in s.pc ==> !f(s.pc[t]) }

  /** Nobody but t. */
  ghost predicate OnlyOne(s: State, f: Pc -> bool, t: nat) { forall u :: u in s.pc && f(s.pc[u]) ==> u == t }

  lemma CountNone(s: State, f: Pc -> bool)
    ensures Count(s.pc, f) == 0 <==> Nobody(s, f)
  {
    if Nobody(s, f) { assert Those(s.pc, f) == {}; }
    if Count(s.pc, f) == 0 {
      forall t | t in s.pc ensures !f(s.pc[t]) { assert t !in Those(s.pc, f); }
    }
  }

  lemma CountOne(s: State, f: Pc -> bool, t: nat)
    requires t in s.pc && f(s.pc[t])
    ensures Count(s.pc, f) <= 1 <==> OnlyOne(s, f, t)
  {
    SomeOne(s.pc, f, t);
    if OnlyOne(s, f, t) { assert Those(s.pc, f) == {t}; }
    if Count(s.pc, f) <= 1 {
      forall u | u in s.pc && f(s.pc[u]) ensures u == t { assert u in Those(s.pc, f); }
    }
  }

  /** The busy flags and the counter, as the threads see them. */
  lemma WordMeans(threads: set<nat>, s: State)
    requires Reachable(threads, s)
    ensures s.word.wbusy <==> !Nobody(s, WriteOwner)
    ensures s.word.ubusy <==> !Nobody(s, UpOwner)
    ensures |threads| < WRAP ==> (s.word.rcounter == 0 <==> Nobody(s, Holder))
  {
    hide Count, Reachable, Nobody;
    ReachableInv(threads, s);
    ReaderCount(threads, s);
    CountNone(s, WriteOwner);
    CountNone(s, UpOwner);
    CountNone(s, Holder);
  }

  /** With fewer than 65536 threads, in every run: a reader gets in if and only if nobody owns the write
      or the upgrade side; a writer that asks becomes its owner if and only if nobody is, and gets
      in if nobody reads either; one that drained gets in if and only if nobody reads any more; an
      upgrader gets through if and only if it is the only reader. */
  lemma GrantsIff(threads: set<nat>, s: State, e: Event)
    requires Reachable(threads, s) && |threads| < WRAP && Enabled(s, e)
    ensures var p := Apply(s, e).pc[e.t];
      match e
      case Rlock(_) => p == if Nobody(s, WriteOwner) && Nobody(s, UpOwner) then Reading else Sleep(AtRead, false)
      case Wlock(_) =>
        p == if !Nobody(s, WriteOwner) then Sleep(AtWrite, false)
             else if Nobody(s, Holder) then Writing else Sleep(AtDrain, false)
      case Drain(_) => p == if Nobody(s, Holder) then Writing else Sleep(AtDrain, false)
      case Uplock(t) => p == if OnlyOne(s, Holder, t) then Upgraded else Sleep(AtUp, false)
      case Raise(t) => p == if OnlyOne(s, Holder, t) then Upgraded else Sleep(AtUp, false)
      case Downlock(_) => p == Reading
      case Spurious(t) => p == s.pc[t].(woken := true)
      case _ => p == Idle
  {
    hide Count, Reachable, Nobody, OnlyOne, WriteOwner;
    WordMeans(threads, s);
    ReaderCount(threads, s);
    if e.Uplock? || e.Raise? { CountOne(s, Holder, e.t); }
  }

  /** Who leaves wakes the sleepers when it was the last reader before a writer, or left the upgrader as
      the only one; a writer or an upgrader that leaves always wakes them; nobody else does. */
  ghost predicate Wakes(s: State, e: Event)
    requires Enabled(s, e)
  {
    match e
    case Runlock(t) =>
      var u := Apply(s, e);
      || (Nobody(u, Holder) && !Nobody(u, WriteOwner))
      || (!Nobody(u, UpOwner) && Count(u.pc, Holder) == 1)
    case Wunlock(_) => true
    case Downlock(_) => true
    case _ => false
  }

  lemma WakesExactly(threads: set<nat>, s: State, e: Event, t: nat)
    requires Reachable(threads, s) && |threads| < WRAP && Enabled(s, e)
    requires t in s.pc && t != e.t && s.pc[t].Sleep? && !s.pc[t].woken
    ensures t in Apply(s, e).pc && Apply(s, e).pc[t].Sleep? && (Apply(s, e).pc[t].woken <==> Wakes(s, e))
  {
    hide Count, Reachable, Nobody, WriteOwner, UpOwner, Holder;
    if e.Runlock? {
      ReachableStep(threads, s, e);
      WordMeans(threads, Apply(s, e));
      ReaderCount(threads, Apply(s, e));
    }
  }
}
