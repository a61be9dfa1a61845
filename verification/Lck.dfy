/** The upgradable reader/writer lock of lck.c: one step per critical section of its mutex, for
    any finite set of threads. */
module Lck {

  /** ln_rcounter is an unsigned 16-bit counter. */
  const WRAP: nat := 65536

  /** struct lck_node. */
  datatype Word = Word(rcounter: nat, wbusy: bool, ubusy: bool)

  /** The four wait loops. */
  datatype Place = AtRead | AtWrite | AtDrain | AtUp

  /** Where a thread is between critical sections. A broadcast marks sleepers as woken; a woken
      thread tests its loop's condition again once it has the mutex. */
  datatype Pc = Idle | Reading | Writing | Upgraded | Sleep(place: Place, woken: bool)

  datatype State = State(word: Word, pc: map<nat, Pc>)

  /** The condition a wait loop sleeps on. */
  predicate MustWait(w: Word, p: Place) {
    match p
    case AtRead => w.wbusy || w.ubusy
    case AtWrite => w.wbusy
    case AtDrain => w.rcounter != 0
    case AtUp => w.rcounter > 1
  }

  // --------------------------------------------- the critical sections on the word

  function CountReader(w: Word): Word { w.(rcounter := (w.rcounter + 1) % WRAP) }

  function DropReader(w: Word): Word { w.(rcounter := (w.rcounter + WRAP - 1) % WRAP) }

  predicate DropWakes(w: Word) {
    (w.rcounter == 0 && w.wbusy) || (w.rcounter == 1 && w.ubusy)
  }

  // ----------------------------------------------------------------- events

  datatype Event =
    | Rlock(t: nat) | Runlock(t: nat)
    | Wlock(t: nat) | Drain(t: nat) | Wunlock(t: nat)
    | Uplock(t: nat) | Raise(t: nat) | Downlock(t: nat)
    | Spurious(t: nat)

  function Broadcast(pc: map<nat, Pc>): map<nat, Pc> {
    map t | t in pc :: if pc[t].Sleep? then pc[t].(woken := true) else pc[t]
  }

  predicate WriteOwner(p: Pc) { p.Writing? || (p.Sleep? && p.place.AtDrain?) }

  predicate UpOwner(p: Pc) { p.Upgraded? || (p.Sleep? && p.place.AtUp?) }

  predicate Holder(p: Pc) { p.Reading? || UpOwner(p) }

  function Those(pc: map<nat, Pc>, f: Pc -> bool): set<nat> {
    set t | t in pc && f(pc[t])
  }

  function Count(pc: map<nat, Pc>, f: Pc -> bool): nat {
    |Those(pc, f)|
  }

  /** What the clients promise: at most one mode per thread, uplock only by a reader and by one
      thread at a time, downlock before runlock. */
  predicate Enabled(s: State, e: Event) {
    e.t in s.pc &&
    var p := s.pc[e.t];
    match e
    case Rlock(_) => p == Idle || p == Sleep(AtRead, true)
    case Runlock(_) => p == Reading
    case Wlock(_) => p == Idle || p == Sleep(AtWrite, true)
    case Drain(_) => p == Sleep(AtDrain, true)
    case Wunlock(_) => p == Writing
    case Uplock(_) => p == Reading && Count(s.pc, UpOwner) == 0
    case Raise(_) => p == Sleep(AtUp, true)
    case Downlock(_) => p == Upgraded
    case Spurious(_) => p.Sleep?
  }

  function Go(s: State, w: Word, t: nat, p: Pc): State {
    State(w, s.pc[t := p])
  }

  function GoAndWake(s: State, w: Word, t: nat, p: Pc): State {
    State(w, Broadcast(s.pc[t := p]))
  }

  function Test(s: State, w: Word, t: nat, place: Place, through: Pc): State {
    Go(s, w, t, if MustWait(w, place) then Sleep(place, false) else through)
  }

  function Apply(s: State, e: Event): State
    requires Enabled(s, e)
  {
    var w := s.word;
    match e
    case Rlock(t) =>
      if MustWait(w, AtRead) then Go(s, w, t, Sleep(AtRead, false)) else Go(s, CountReader(w), t, Reading)
    case Runlock(t) =>
      var w' := DropReader(w);
      if DropWakes(w') then GoAndWake(s, w', t, Idle) else Go(s, w', t, Idle)
    case Wlock(t) =>
      if MustWait(w, AtWrite) then Go(s, w, t, Sleep(AtWrite, false))
      else Test(s, w.(wbusy := true), t, AtDrain, Writing)
    case Drain(t) => Test(s, w, t, AtDrain, Writing)
    case Wunlock(t) => GoAndWake(s, w.(wbusy := false), t, Idle)
    case Uplock(t) => Test(s, w.(ubusy := true), t, AtUp, Upgraded)
    case Raise(t) => Test(s, w, t, AtUp, Upgraded)
    case Downlock(t) => GoAndWake(s, w.(ubusy := false), t, Reading)
    case Spurious(t) => Go(s, w, t, s.pc[t].(woken := true))
  }

  function Init(threads: set<nat>): State {
    State(Word(0, false, false), map t | t in threads :: Idle)
  }

  ghost predicate Run(s: State, es: seq<Event>, t: State)
    decreases |es|
  {
    if es == [] then s == t else Enabled(s, es[0]) && Run(Apply(s, es[0]), es[1..], t)
  }

  ghost predicate Reachable(threads: set<nat>, s: State) {
    exists es :: Run(Init(threads), es, s)
  }

  // --------------------------------------------------------------- counting

  function Bit(b: bool): nat { if b then 1 else 0 }

  lemma CountMove(pc: map<nat, Pc>, t: nat, p: Pc, f: Pc -> bool)
    requires t in pc
    ensures Count(pc[t := p], f) + Bit(f(pc[t])) == Count(pc, f) + Bit(f(p))
  {
    var others := Those(pc, f) - {t};
    assert Those(pc, f) == others + if f(pc[t]) then {t} else {};
    assert Those(pc[t := p], f) == others + if f(p) then {t} else {};
  }

  lemma CountWoken(pc: map<nat, Pc>, f: Pc -> bool)
    requires forall p: Pc :: p.Sleep? ==> f(p) == f(p.(woken := true))
    ensures Count(Broadcast(pc), f) == Count(pc, f)
  {
    assert Those(Broadcast(pc), f) == Those(pc, f);
  }

  lemma SomeOne(pc: map<nat, Pc>, f: Pc -> bool, t: nat)
    requires t in pc && f(pc[t])
    ensures Count(pc, f) >= 1
    ensures Count(pc, f) == 1 ==> Those(pc, f) == {t}
  {
    assert t in Those(pc, f);
    assert Those(pc, f) == (Those(pc, f) - {t}) + {t};
  }

  lemma Subset(a: set<nat>, b: set<nat>)
    requires a <= b
    ensures |a| <= |b|
  {
    assert b == a + (b - a);
  }

  // -------------------------------------------------------------- invariant

  predicate Owners(s: State) {
    && Count(s.pc, WriteOwner) == Bit(s.word.wbusy)
    && Count(s.pc, UpOwner) == Bit(s.word.ubusy)
    && Count(s.pc, Holder) % WRAP == s.word.rcounter
  }

  /** No lost wake-up: who sleeps and was not woken still has to wait. */
  predicate Sleepers(s: State) {
    forall t :: t in s.pc && s.pc[t].Sleep? && !s.pc[t].woken ==> MustWait(s.word, s.pc[t].place)
  }

  /** Through the drain means no readers, through the upgrade means one. */
  predicate Through(s: State) {
    forall t :: t in s.pc ==>
      && (s.pc[t].Writing? ==> Count(s.pc, Holder) == 0)
      && (s.pc[t].Upgraded? ==> Count(s.pc, Holder) == 1)
  }

  lemma WakeCounts(pc: map<nat, Pc>)
    ensures Count(Broadcast(pc), WriteOwner) == Count(pc, WriteOwner)
    ensures Count(Broadcast(pc), UpOwner) == Count(pc, UpOwner)
    ensures Count(Broadcast(pc), Holder) == Count(pc, Holder)
  {
    CountWoken(pc, WriteOwner);
    CountWoken(pc, UpOwner);
    CountWoken(pc, Holder);
  }

  lemma MoveCounts(pc: map<nat, Pc>, t: nat, p: Pc)
    requires t in pc
    ensures Count(pc[t := p], WriteOwner) + Bit(WriteOwner(pc[t])) == Count(pc, WriteOwner) + Bit(WriteOwner(p))
    ensures Count(pc[t := p], UpOwner) + Bit(UpOwner(pc[t])) == Count(pc, UpOwner) + Bit(UpOwner(p))
    ensures Count(pc[t := p], Holder) + Bit(Holder(pc[t])) == Count(pc, Holder) + Bit(Holder(p))
  {
    CountMove(pc, t, p, WriteOwner);
    CountMove(pc, t, p, UpOwner);
    CountMove(pc, t, p, Holder);
  }

  /** Where the moving thread ends up, and whether everybody is woken. */
  function Next(s: State, e: Event): Pc
    requires Enabled(s, e)
  {
    var w := s.word;
    match e
    case Rlock(_) => if MustWait(w, AtRead) then Sleep(AtRead, false) else Reading
    case Wlock(_) =>
      if MustWait(w, AtWrite) then Sleep(AtWrite, false)
      else if MustWait(w, AtDrain) then Sleep(AtDrain, false) else Writing
    case Drain(_) => if MustWait(w, AtDrain) then Sleep(AtDrain, false) else Writing
    case Uplock(_) => if MustWait(w, AtUp) then Sleep(AtUp, false) else Upgraded
    case Raise(_) => if MustWait(w, AtUp) then Sleep(AtUp, false) else Upgraded
    case Downlock(_) => Reading
    case Spurious(t) => s.pc[t].(woken := true)
    case _ => Idle
  }

  lemma ApplyShape(s: State, e: Event)
    requires Enabled(s, e)
    ensures var pc := s.pc[e.t := Next(s, e)]; Apply(s, e).pc == pc || Apply(s, e).pc == Broadcast(pc)
  {
  }

  lemma ApplyCounts(s: State, e: Event)
    requires Enabled(s, e)
    ensures var pc := Apply(s, e).pc;
      && Count(pc, WriteOwner) + Bit(WriteOwner(s.pc[e.t])) == Count(s.pc, WriteOwner) + Bit(WriteOwner(Next(s, e)))
      && Count(pc, UpOwner) + Bit(UpOwner(s.pc[e.t])) == Count(s.pc, UpOwner) + Bit(UpOwner(Next(s, e)))
      && Count(pc, Holder) + Bit(Holder(s.pc[e.t])) == Count(s.pc, Holder) + Bit(Holder(Next(s, e)))
  {
    hide Count, Broadcast, Next, Apply, WriteOwner, UpOwner, Holder;
    ApplyShape(s, e);
    MoveCounts(s.pc, e.t, Next(s, e));
    WakeCounts(s.pc[e.t := Next(s, e)]);
  }

  lemma OwnersStep(s: State, e: Event)
    requires Enabled(s, e) && Owners(s)
    ensures Owners(Apply(s, e))
  {
    hide Count, Broadcast;
    ApplyCounts(s, e);
    if WriteOwner(s.pc[e.t]) { SomeOne(s.pc, WriteOwner, e.t); }
    if UpOwner(s.pc[e.t]) { SomeOne(s.pc, UpOwner, e.t); }
    if Holder(s.pc[e.t]) { SomeOne(s.pc, Holder, e.t); }
  }

  lemma SleepersStep(s: State, e: Event)
    requires Enabled(s, e) && Owners(s) && Sleepers(s)
    ensures Sleepers(Apply(s, e))
  {
    hide Count;
    var t := Apply(s, e);
    forall u | u in t.pc && t.pc[u].Sleep? && !t.pc[u].woken ensures MustWait(t.word, t.pc[u].place) {
      SleeperStep(s, e, u);
    }
  }

  lemma SleeperStep(s: State, e: Event, u: nat)
    requires Enabled(s, e) && Owners(s) && Sleepers(s)
    requires u in Apply(s, e).pc && Apply(s, e).pc[u].Sleep? && !Apply(s, e).pc[u].woken
    ensures MustWait(Apply(s, e).word, Apply(s, e).pc[u].place)
  {
    hide Count;
    if u != e.t {
      if WriteOwner(s.pc[u]) { SomeOne(s.pc, WriteOwner, u); }
      if UpOwner(s.pc[u]) { SomeOne(s.pc, UpOwner, u); }
    }
  }

  lemma ThroughStep(s: State, e: Event)
    requires Enabled(s, e) && Owners(s) && Through(s) && Count(s.pc, Holder) < WRAP
    ensures Through(Apply(s, e))
  {
    hide Count;
    forall u | u in Apply(s, e).pc
      ensures Apply(s, e).pc[u].Writing? ==> Count(Apply(s, e).pc, Holder) == 0
      ensures Apply(s, e).pc[u].Upgraded? ==> Count(Apply(s, e).pc, Holder) == 1
    {
      ThroughOne(s, e, u);
    }
  }

  lemma ThroughOne(s: State, e: Event, u: nat)
    requires Enabled(s, e) && Owners(s) && Through(s) && Count(s.pc, Holder) < WRAP && u in Apply(s, e).pc
    ensures Apply(s, e).pc[u].Writing? ==> Count(Apply(s, e).pc, Holder) == 0
    ensures Apply(s, e).pc[u].Upgraded? ==> Count(Apply(s, e).pc, Holder) == 1
  {
    hide Count;
    ApplyCounts(s, e);
    if u != e.t {
      if WriteOwner(s.pc[u]) { SomeOne(s.pc, WriteOwner, u); }
      if UpOwner(s.pc[u]) { SomeOne(s.pc, UpOwner, u); SomeOne(s.pc, Holder, u); }
    }
    if Holder(s.pc[e.t]) { SomeOne(s.pc, Holder, e.t); }
  }

  // -------------------------------------------------------------- whole runs

  lemma InitOk(threads: set<nat>)
    ensures Owners(Init(threads)) && Sleepers(Init(threads)) && Through(Init(threads))
    ensures Init(threads).pc.Keys == threads
  {
    var pc := Init(threads).pc;
    assert Those(pc, WriteOwner) == {} && Those(pc, UpOwner) == {} && Those(pc, Holder) == {};
  }

  lemma KeysStep(s: State, e: Event)
    requires Enabled(s, e)
    ensures Apply(s, e).pc.Keys == s.pc.Keys
  {
    hide Apply, Next, Count;
    ApplyShape(s, e);
  }

  lemma HoldersBounded(s: State)
    ensures Count(s.pc, Holder) <= |s.pc.Keys|
  {
    Subset(Those(s.pc, Holder), s.pc.Keys);
  }

  ghost predicate Inv(s: State) {
    Owners(s) && Sleepers(s) && (|s.pc.Keys| < WRAP ==> Through(s))
  }

  lemma {:induction false} RunInv(s: State, es: seq<Event>, t: State)
    requires Run(s, es, t) && Inv(s)
    ensures Inv(t) && t.pc.Keys == s.pc.Keys
    decreases |es|
  {
    hide Apply, Enabled, Owners, Sleepers, Through;
    if es != [] {
      var u := Apply(s, es[0]);
      KeysStep(s, es[0]);
      OwnersStep(s, es[0]);
      SleepersStep(s, es[0]);
      HoldersBounded(s);
      if |s.pc.Keys| < WRAP { ThroughStep(s, es[0]); }
      RunInv(u, es[1..], t);
    }
  }

  lemma ReachableInv(threads: set<nat>, s: State)
    requires Reachable(threads, s)
    ensures Inv(s) && s.pc.Keys == threads
  {
    hide Owners, Sleepers, Through, Init;
    var es :| Run(Init(threads), es, s);
    InitOk(threads);
    RunInv(Init(threads), es, s);
  }

  /** A writer past its second wait excludes all holders and writers, an upgraded reader too. */
  predicate Exclusive(s: State) {
    forall t, u :: t in s.pc && u in s.pc && t != u && (s.pc[t].Writing? || s.pc[t].Upgraded?) ==>
      !Holder(s.pc[u]) && !s.pc[u].Writing?
  }

  lemma InvExclusive(s: State)
    requires Owners(s) && Through(s)
    ensures Exclusive(s)
  {
    forall t, u | t in s.pc && u in s.pc && t != u && (s.pc[t].Writing? || s.pc[t].Upgraded?)
      ensures !Holder(s.pc[u]) && !s.pc[u].Writing?
    {
      ExclusivePair(s, t, u);
    }
  }

  lemma ExclusivePair(s: State, t: nat, u: nat)
    requires Owners(s) && Through(s) && t in s.pc && u in s.pc && t != u && (s.pc[t].Writing? || s.pc[t].Upgraded?)
    ensures !Holder(s.pc[u]) && !s.pc[u].Writing?
  {
    hide Count;
    if Holder(s.pc[t]) { SomeOne(s.pc, Holder, t); }
    if s.pc[t].Writing? { SomeOne(s.pc, WriteOwner, t); }
    if Holder(s.pc[u]) { SomeOne(s.pc, Holder, u); }
    if s.pc[u].Writing? { SomeOne(s.pc, WriteOwner, u); }
  }

  /** The reader counter is the number of read holders, as far as 16 bits can tell. */
  lemma ReaderCount(threads: set<nat>, s: State)
    requires Reachable(threads, s)
    ensures s.word.rcounter == Count(s.pc, Holder) % WRAP
    ensures |threads| < WRAP ==> s.word.rcounter == Count(s.pc, Holder)
  {
    hide Count, Reachable;
    ReachableInv(threads, s);
    HoldersBounded(s);
  }

  /** No lost wake-up, for any number of threads. */
  lemma NoLostWakeup(threads: set<nat>, s: State, t: nat)
    requires Reachable(threads, s) && t in s.pc && s.pc[t].Sleep? && !s.pc[t].woken
    ensures MustWait(s.word, s.pc[t].place)
  {
    hide Reachable, MustWait;
    ReachableInv(threads, s);
  }

  /** Holds the lock without waiting, or was woken. */
  predicate Awake(p: Pc) {
    p.Reading? || p.Writing? || p.Upgraded? || (p.Sleep? && p.woken)
  }

  lemma Owned(pc: map<nat, Pc>, f: Pc -> bool) returns (t: nat)
    requires Count(pc, f) > 0
    ensures t in pc && f(pc[t])
  {
    assert Those(pc, f) != {};
    t :| t in Those(pc, f);
  }

  lemma AnotherHolder(pc: map<nat, Pc>, t: nat) returns (u: nat)
    requires Count(pc, Holder) >= 2
    ensures u in pc && u != t && Holder(pc[u])
  {
    assert Those(pc, Holder) - {t} != {} by {
      if Those(pc, Holder) <= {t} { Subset(Those(pc, Holder), {t}); }
    }
    u :| u in Those(pc, Holder) - {t};
  }

  /** Behind an upgrader that has to wait there is a plain reader. */
  lemma UpgraderWaitsForReader(s: State, t: nat) returns (u: nat)
    requires Owners(s) && t in s.pc && UpOwner(s.pc[t]) && s.word.rcounter > 1
    ensures u in s.pc && s.pc[u] == Reading
  {
    hide Count;
    assert Count(s.pc, Holder) >= 2;
    u := AnotherHolder(s.pc, t);
    SomeOne(s.pc, UpOwner, t);
    if UpOwner(s.pc[u]) { SomeOne(s.pc, UpOwner, u); }
  }

  /** Behind an undrained counter there is somebody awake. */
  lemma DrainWaitsForHolder(s: State) returns (u: nat)
    requires Owners(s) && Sleepers(s) && s.word.rcounter > 0
    ensures u in s.pc && Awake(s.pc[u])
  {
    hide Count;
    u := Owned(s.pc, Holder);
    if !Awake(s.pc[u]) { u := UpgraderWaitsForReader(s, u); }
  }

  /** No global stall, for any number of threads: while somebody sleeps, somebody else holds the
      lock without waiting or was already woken. */
  lemma NoGlobalStall(threads: set<nat>, s: State, t: nat)
    requires Reachable(threads, s) && t in s.pc && s.pc[t].Sleep?
    ensures exists u :: u in s.pc && Awake(s.pc[u])
  {
    hide Count, Reachable;
    ReachableInv(threads, s);
    var u := t;
    if !Awake(s.pc[t]) {
      if s.pc[t].place.AtDrain? || s.pc[t].place.AtUp? {
        u := DrainWaitsForHolder(s);
      } else {
        if s.word.wbusy { u := Owned(s.pc, WriteOwner); } else { u := Owned(s.pc, UpOwner); }
        if !Awake(s.pc[u]) { u := DrainWaitsForHolder(s); }
      }
    }
    assert u in s.pc && Awake(s.pc[u]);
  }

  // ------------------------------------------------- exactly how many threads

  /** The state in which the threads in readers hold read locks and the others are idle. */
  function AllReading(threads: set<nat>, readers: set<nat>): State {
    State(Word(|readers| % WRAP, false, false), map t | t in threads :: if t in readers then Reading else Idle)
  }

  lemma {:induction false} RunExtend(s: State, es: seq<Event>, t: State, e: Event)
    requires Run(s, es, t) && Enabled(t, e)
    ensures Run(s, es + [e], Apply(t, e))
    decreases |es|
  {
    hide Apply, Enabled;
    if es == [] {
      assert [e][1..] == [];
      assert es + [e] == [e];
    } else {
      RunExtend(Apply(s, es[0]), es[1..], t, e);
      assert (es + [e])[1..] == es[1..] + [e];
    }
  }

  lemma ReachableStep(threads: set<nat>, s: State, e: Event)
    requires Reachable(threads, s) && Enabled(s, e)
    ensures Reachable(threads, Apply(s, e))
  {
    hide Apply, Enabled, Init;
    var es :| Run(Init(threads), es, s);
    RunExtend(Init(threads), es, s, e);
  }

  lemma {:induction false} ReadersCanEnter(threads: set<nat>, readers: set<nat>)
    requires readers <= threads
    ensures Reachable(threads, AllReading(threads, readers))
    decreases |readers|
  {
    hide Reachable;
    if readers == {} {
      NothingYet(threads);
    } else {
      var t :| t in readers;
      ReadersCanEnter(threads, readers - {t});
      EnterOne(threads, readers, t);
      ReachableStep(threads, AllReading(threads, readers - {t}), Rlock(t));
    }
  }

  lemma NothingYet(threads: set<nat>)
    ensures Reachable(threads, AllReading(threads, {}))
  {
    assert AllReading(threads, {}).pc == Init(threads).pc;
    assert Run(Init(threads), [], AllReading(threads, {}));
  }

  lemma EnterOne(threads: set<nat>, readers: set<nat>, t: nat)
    requires t in readers && readers <= threads
    ensures Enabled(AllReading(threads, readers - {t}), Rlock(t))
    ensures Apply(AllReading(threads, readers - {t}), Rlock(t)) == AllReading(threads, readers)
  {
    var s, u := AllReading(threads, readers - {t}), AllReading(threads, readers);
    assert s.pc[t := Reading] == u.pc;
    assert |readers| == |readers - {t}| + 1;
  }

  lemma {:induction false} SubsetOfSize(threads: set<nat>, n: nat) returns (r: set<nat>)
    requires n <= |threads|
    ensures r <= threads && |r| == n
  {
    if n == 0 {
      r := {};
    } else {
      r := SubsetOfSize(threads, n - 1);
      assert threads == r + (threads - r);
      var t :| t in threads - r;
      r := r + {t};
    }
  }

  /** 65536 readers make the counter zero, and an upgrade then goes through at once. */
  lemma UpgradeAmongReaders(threads: set<nat>, readers: set<nat>, t: nat)
    requires readers <= threads && |readers| == WRAP && t in readers
    ensures var s := AllReading(threads, readers);
      Enabled(s, Uplock(t)) && Apply(s, Uplock(t)).pc == s.pc[t := Upgraded]
  {
    var s := AllReading(threads, readers);
    assert Those(s.pc, UpOwner) == {};
  }

  lemma Violation(threads: set<nat>) returns (s: State)
    requires |threads| >= WRAP
    ensures Reachable(threads, s) && !Exclusive(s)
  {
    hide Reachable, Apply;
    var readers := SubsetOfSize(threads, WRAP);
    var t :| t in readers;
    assert readers - {t} != {} by { if readers <= {t} { Subset(readers, {t}); } }
    var u :| u in readers - {t};
    ReadersCanEnter(threads, readers);
    UpgradeAmongReaders(threads, readers, t);
    ReachableStep(threads, AllReading(threads, readers), Uplock(t));
    s := Apply(AllReading(threads, readers), Uplock(t));
    assert s.pc[t] == Upgraded && s.pc[u] == Reading;
  }

  /** The lock excludes in every run of a set of threads if and only if there are fewer than
      65536 of them. */
  lemma ExclusionIff(threads: set<nat>)
    ensures (forall s :: Reachable(threads, s) ==> Exclusive(s)) <==> |threads| < WRAP
  {
    hide Reachable, Exclusive;
    if |threads| < WRAP {
      forall s | Reachable(threads, s) ensures Exclusive(s) {
        ReachableInv(threads, s);
        InvExclusive(s);
      }
    } else {
      var s := Violation(threads);
    }
  }
}
