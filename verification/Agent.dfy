/** One agent channel: its operation counter, its jobs, the driver's replies and the delete
    protocol, one step per critical section or unlocked access. */
module Agent {
  import opened Dsm

  datatype Listed = OnList | OnDelete | Gone

  /** The start job that took the busy flag: it connects, may wait for the driver's init, and is
      about to finish after it asked the driver to start. */
  datatype Doer = Nobody | Connecting | AwaitInit | Finishing

  /** The delete call: it reads the counter and then the state, in two separate accesses. */
  datatype Deleter = NoDelete | Checking | SawZero | SawBoth

  /** Probes are gets of housekeeping that are not yet a job. */
  datatype Jobs = Jobs(probes: nat, starts: nat, hooks: nat)

  datatype IoErrors = IoErrors(wait: nat, sent: nat)

  /** Driver replies to a recover request: taken, and acted on. */
  datatype Recovers = Recovers(got: nat, done: nat)

  /** Driver replies to a start request: taken; kept, because no hook job was accepted, or handed,
      when the count went over to a hook job; a kept one is done when its transition is made, a
      handed one is then over. */
  datatype Answers = Answers(got: nat, kept: nat, handed: nat, done: nat)

  /** Work in progress, by kind. */
  datatype Work = Work(jobs: Jobs, io: IoErrors, rec: Recovers, ans: Answers)

  /** ups: queued or running up hooks, which hold no count. asked: a start request waits for the
      driver's answer. locked: the deleter's caller holds the list lock. calm: the state was already
      deletable when the deleter read a zero counter. */
  datatype Chan = Chan(
    st: St, listed: Listed, count: int, work: Work, ups: nat, doer: Doer, established: bool, ex: bool, asked: bool,
    deleter: Deleter, locked: bool, calm: bool)

  function Holding(w: Work): nat {
    (w.jobs.probes + w.jobs.starts + w.jobs.hooks) + (w.io.wait + w.io.sent) + (w.rec.got + w.rec.done)
    + (w.ans.got + w.ans.kept + w.ans.done)
  }

  /** Everything queued or in progress: what holds a count, the up hooks, and the start replies that
      handed theirs to a hook job and have yet to make their transition. */
  function AtWork(c: Chan): nat { Holding(c.work) + c.ups + c.work.ans.handed }

  predicate Deletable(s: St) { Has(s, XDelete) }

  /** Whoever takes the list lock may do so now: the delete's caller does not hold it, and
      housekeeping, which holds it while it offers jobs, is not at this channel. */
  predicate LockFree(c: Chan) { !c.locked && c.work.jobs.probes == 0 }

  datatype JobKind = StartJob | HookJob

  datatype Event =
    // housekeeping
    | HkGet | HkAccept(kind: JobKind) | HkReject
    // jobs
    | JobBegin | JobUpgradeRefused(accepted: bool) | JobInit | DriverInited | JobStart | JobEnd | JobSkip | HookEnd
    | UpHookEnd
    // ioerror
    | IoGet | IoTry | IoReply
    // driver replies
    | RecGet | RecAct | RecPut
    | StartGet | StartInsert(accepted: bool) | StartMoveHanded | StartMoveKept | StartPut
    // delete
    | DelBegin(locked: bool) | DelReadCount | DelReadState | DelCommit | DelReply

  /** Housekeeping, ioerrors and the jobs that do not touch the channel state. */
  predicate TallyEnabled(c: Chan, e: Event) {
    var w := c.work;
    match e
    case HkGet => c.listed == OnList && !c.locked
    case HkAccept(_) => w.jobs.probes > 0
    case HkReject => w.jobs.probes > 0
    case JobSkip => w.jobs.starts > (if c.doer == Nobody then 0 else 1)
    case HookEnd => w.jobs.hooks > 0
    case IoGet => c.listed == OnList && LockFree(c)
    case IoTry => w.io.wait > 0 && !c.ex
    case IoReply => w.io.sent > 0
    case _ => false
  }

  /** The start job that took the busy flag. */
  predicate JobEnabled(c: Chan, e: Event) {
    match e
    case JobBegin => c.work.jobs.starts > 0 && c.doer == Nobody
    case JobUpgradeRefused(_) => c.doer == Connecting
    case JobInit => c.doer == Connecting && !c.established && Has(c.st, XInit)
    case DriverInited => c.doer == AwaitInit && !c.established
    case JobStart => c.doer in {Connecting, AwaitInit} && c.established
    case JobEnd => c.doer in {Connecting, Finishing} && c.work.jobs.starts > 0
    case _ => false
  }

  predicate UpEnabled(c: Chan, e: Event) { e == UpHookEnd && c.ups > 0 }

  predicate ReplyEnabled(c: Chan, e: Event) {
    var w := c.work;
    match e
    case RecGet => c.listed == OnList && LockFree(c)
    case RecAct => w.rec.got > 0
    case RecPut => w.rec.done > 0
    case StartGet => c.listed != Gone && LockFree(c) && c.asked
    case StartInsert(_) => w.ans.got > 0
    case StartMoveHanded => w.ans.handed > 0
    case StartMoveKept => w.ans.kept > 0
    case StartPut => w.ans.done > 0
    case _ => false
  }

  /** The driver's answer frees the channel, which waits until none of its jobs is in use. */
  predicate DelEnabled(c: Chan, e: Event) {
    match e
    case DelBegin(_) => c.listed != Gone && LockFree(c) && c.deleter == NoDelete
    case DelReadCount => c.deleter == Checking
    case DelReadState => c.deleter == SawZero
    case DelCommit => c.deleter == SawBoth
    case DelReply =>
      && c.listed == OnDelete && LockFree(c) && c.deleter == NoDelete && Has(c.st, RDelete)
      && c.work.jobs.starts == 0 && c.work.jobs.hooks == 0 && c.ups == 0
    case _ => false
  }

  /** After the channel was freed nothing is modelled. */
  predicate Enabled(c: Chan, e: Event) {
    && c.listed != Gone
    && (TallyEnabled(c, e) || JobEnabled(c, e) || UpEnabled(c, e) || ReplyEnabled(c, e) || DelEnabled(c, e))
  }

  function Get(c: Chan, w: Work): Chan { c.(count := c.count + 1, work := w) }

  function Put(c: Chan, w: Work): Chan { c.(count := c.count - 1, work := w) }

  function Tally(c: Chan, e: Event): Chan
    requires TallyEnabled(c, e)
  {
    var w := c.work;
    match e
    case HkGet => Get(c, w.(jobs := w.jobs.(probes := w.jobs.probes + 1)))
    case HkAccept(k) =>
      c.(work := if k == StartJob then w.(jobs := w.jobs.(probes := w.jobs.probes - 1, starts := w.jobs.starts + 1))
                 else w.(jobs := w.jobs.(probes := w.jobs.probes - 1, hooks := w.jobs.hooks + 1)))
    case HkReject => Put(c, w.(jobs := w.jobs.(probes := w.jobs.probes - 1)))
    case JobSkip => Put(c, w.(jobs := w.jobs.(starts := w.jobs.starts - 1)))
    case HookEnd => Put(c, w.(jobs := w.jobs.(hooks := w.jobs.hooks - 1)))
    case IoGet => Get(c, w.(io := w.io.(wait := w.io.wait + 1)))
    case IoTry =>
      if Has(c.st, XIoError) then c.(ex := true, work := w.(io := w.io.(wait := w.io.wait - 1, sent := w.io.sent + 1)))
      else Put(c, w.(io := w.io.(wait := w.io.wait - 1)))
    case IoReply => Put(c.(ex := false), w.(io := w.io.(sent := w.io.sent - 1)))
  }

  /** A refused upgrade queues the up hook, without a count, and the start job fails. */
  function JobStep(c: Chan, e: Event): Chan
    requires JobEnabled(c, e)
  {
    match e
    case JobBegin => c.(doer := Connecting)
    case JobUpgradeRefused(accepted) => c.(doer := Finishing, ups := if accepted then c.ups + 1 else c.ups)
    case JobInit => c.(doer := AwaitInit, st := Transition(c.st, Success))
    case DriverInited => c.(established := true)
    case JobStart =>
      if Has(c.st, XStart) then c.(doer := Finishing, st := Transition(c.st, Success), asked := true)
      else c.(doer := Finishing)
    case JobEnd => Put(c.(doer := Nobody), c.work.(jobs := c.work.jobs.(starts := c.work.jobs.starts - 1)))
  }

  function ReplyStep(c: Chan, e: Event): Chan
    requires ReplyEnabled(c, e)
  {
    var w := c.work;
    match e
    case RecGet => Get(c, w.(rec := w.rec.(got := w.rec.got + 1)))
    case RecAct =>
      c.(st := Transition(c.st, Failure), work := w.(rec := w.rec.(got := w.rec.got - 1, done := w.rec.done + 1)))
    case RecPut => Put(c, w.(rec := w.rec.(done := w.rec.done - 1)))
    case StartGet => Get(c.(asked := false), w.(ans := w.ans.(got := w.ans.got + 1)))
    case StartInsert(accepted) =>
      c.(work := if accepted then
                   w.(ans := w.ans.(got := w.ans.got - 1, handed := w.ans.handed + 1),
                      jobs := w.jobs.(hooks := w.jobs.hooks + 1))
                 else w.(ans := w.ans.(got := w.ans.got - 1, kept := w.ans.kept + 1)))
    case StartMoveHanded => c.(st := Transition(c.st, Success), work := w.(ans := w.ans.(handed := w.ans.handed - 1)))
    case StartMoveKept =>
      c.(st := Transition(c.st, Success), work := w.(ans := w.ans.(kept := w.ans.kept - 1, done := w.ans.done + 1)))
    case StartPut => Put(c, w.(ans := w.ans.(done := w.ans.done - 1)))
  }

  function DelStep(c: Chan, e: Event): Chan
    requires DelEnabled(c, e)
  {
    match e
    case DelBegin(l) => c.(listed := OnDelete, deleter := Checking, locked := l, calm := false)
    case DelReadCount => if c.count == 0 then c.(deleter := SawZero, calm := Deletable(c.st)) else Retry(c)
    case DelReadState => if Deletable(c.st) then c.(deleter := SawBoth) else Retry(c)
    case DelCommit =>
      c.(deleter := NoDelete, locked := false, st := if Deletable(c.st) then Transition(c.st, Remove) else c.st)
    case DelReply => c.(listed := Gone, st := Transition(c.st, Success))
  }

  /** A caller that holds the list lock gives up and asks again; another one sleeps and retries. */
  function Retry(c: Chan): Chan {
    if c.locked then c.(deleter := NoDelete, locked := false) else c.(deleter := Checking)
  }

  function Apply(c: Chan, e: Event): Chan
    requires Enabled(c, e)
  {
    if TallyEnabled(c, e) then Tally(c, e)
    else if JobEnabled(c, e) then JobStep(c, e)
    else if UpEnabled(c, e) then c.(ups := c.ups - 1)
    else if ReplyEnabled(c, e) then ReplyStep(c, e)
    else DelStep(c, e)
  }

  const IDLE := Work(Jobs(0, 0, 0), IoErrors(0, 0), Recovers(0, 0), Answers(0, 0, 0, 0))

  function Init(): Chan {
    Chan(INIT, OnList, 0, IDLE, 0, Nobody, false, false, false, NoDelete, false, false)
  }

  ghost predicate Run(c: Chan, es: seq<Event>, d: Chan)
    decreases |es|
  {
    if es == [] then c == d else Enabled(c, es[0]) && Run(Apply(c, es[0]), es[1..], d)
  }

  ghost predicate Reachable(c: Chan) {
    exists es :: Run(Init(), es, c)
  }

  // --------------------------------------------------------------- invariant

  /** The counter is the work in progress that holds it. */
  predicate CountExact(c: Chan) {
    c.count == Holding(c.work) && (c.doer != Nobody ==> c.work.jobs.starts > 0)
  }

  predicate Waiting(s: St) { s == IWS || s == RW }

  /** A start request and its answer go with the states IWS and RW; the states before them need a
      job at work. */
  predicate StartExact(c: Chan) {
    && (if c.asked then 1 else 0) + c.work.ans.got + c.work.ans.handed + c.work.ans.kept
         == (if Waiting(c.st) then 1 else 0)
    && (c.doer == AwaitInit ==> c.st == IWI)
    && (c.st == IWI ==> c.doer == AwaitInit)
  }

  predicate ListedExact(c: Chan) {
    && (c.locked ==> c.deleter != NoDelete && c.work.jobs.probes == 0)
    && (c.deleter != NoDelete ==> c.listed == OnDelete)
    && (c.listed != OnList ==> c.work.jobs.probes == 0)
    && (c.listed == Gone ==> c.st == NO)
    && (c.listed != Gone ==> c.st != NO && c.st != SLEEP)
    && (c.st == DELETE ==> c.listed == OnDelete)
  }

  ghost predicate Inv(c: Chan) { CountExact(c) && StartExact(c) && ListedExact(c) && SeenExact(c) }

  /** What a deleter may rely on: with a zero counter read in a deletable state, or with the list
      lock held, nothing is at work any more and nothing can begin. */
  predicate SeenExact(c: Chan) {
    (c.deleter == SawZero || c.deleter == SawBoth) && (c.locked || c.calm) ==>
      && c.count == 0
      && (c.calm ==> Deletable(c.st))
      && (c.deleter == SawBoth ==> Deletable(c.st))
  }

  // What the table says about the states that matter here.

  lemma InitStates(s: St)
    ensures Has(s, XInit) ==> s == INIT && Transition(s, Success) == IWI
  {
  }

  lemma StartStates(s: St)
    ensures Has(s, XStart) ==> (s == IWI || s == RECOVER) && Waiting(Transition(s, Success))
    ensures s == IWI ==> Has(s, XStart)
    ensures Waiting(s) ==> Transition(s, Success) == WORK
  {
  }

  lemma FailStates(s: St)
    requires s != NO && s != SLEEP
    ensures Waiting(Transition(s, Failure)) <==> Waiting(s)
    ensures Transition(s, Failure) == IWI <==> s == IWI
    ensures Transition(s, Failure) == DELETE <==> s == DELETE
    ensures Transition(s, Failure) != NO && Transition(s, Failure) != SLEEP
  {
  }

  lemma DeleteStates(s: St)
    ensures Deletable(s) ==> !Waiting(s) && s != IWI && s != DELETE && Transition(s, Remove) == DELETE
    ensures Has(s, RDelete) ==> s == DELETE && Transition(s, Success) == NO
  {
  }

  lemma TallyFrame(c: Chan, e: Event)
    requires TallyEnabled(c, e)
    ensures var d := Tally(c, e);
      d == c.(count := d.count, work := d.work, ex := d.ex)
      && d.work.ans.got == c.work.ans.got && d.work.ans.handed == c.work.ans.handed
      && d.work.ans.kept == c.work.ans.kept
      && (c.locked || c.listed != OnList ==> d.work.jobs.probes <= c.work.jobs.probes)
  {
    hide Has, LockFree;
  }

  lemma TryCount(c: Chan)
    requires TallyEnabled(c, IoTry) && CountExact(c)
    ensures CountExact(Tally(c, IoTry))
  {
    hide Has, LockFree;
  }

  lemma TallyCount(c: Chan, e: Event)
    requires TallyEnabled(c, e) && CountExact(c)
    ensures CountExact(Tally(c, e))
  {
    if e == IoTry {
      hide TallyEnabled, Tally, CountExact;
      TryCount(c);
    } else {
      hide Has, LockFree;
    }
  }

  lemma JobCount(c: Chan, e: Event)
    requires JobEnabled(c, e) && CountExact(c)
    ensures CountExact(JobStep(c, e))
  {
    hide Has, Transition;
  }

  lemma ReplyCount(c: Chan, e: Event)
    requires ReplyEnabled(c, e) && CountExact(c)
    ensures CountExact(ReplyStep(c, e))
  {
    hide Has, Transition, LockFree;
  }

  lemma DelCount(c: Chan, e: Event)
    requires DelEnabled(c, e) && CountExact(c)
    ensures CountExact(DelStep(c, e))
  {
    hide Has, Transition, LockFree, Holding;
  }

  lemma JobStartExact(c: Chan, e: Event)
    requires JobEnabled(c, e) && CountExact(c) && StartExact(c)
    ensures StartExact(JobStep(c, e))
  {
    hide Holding, Has, Transition;
    InitStates(c.st);
    StartStates(c.st);
  }

  lemma ReplyStartExact(c: Chan, e: Event)
    requires ReplyEnabled(c, e) && StartExact(c) && ListedExact(c) && c.listed != Gone
    ensures StartExact(ReplyStep(c, e))
  {
    hide LockFree, Has, Transition;
    StartStates(c.st);
    FailStates(c.st);
  }

  lemma DelStartExact(c: Chan, e: Event)
    requires DelEnabled(c, e) && StartExact(c) && ListedExact(c)
    ensures StartExact(DelStep(c, e))
  {
    hide LockFree, Has, Transition, Deletable;
    DeleteStates(c.st);
  }

  lemma JobListed(c: Chan, e: Event)
    requires JobEnabled(c, e) && StartExact(c) && ListedExact(c) && c.listed != Gone
    ensures ListedExact(JobStep(c, e))
  {
    hide Has, Transition;
    InitStates(c.st);
    StartStates(c.st);
  }

  lemma ReplyListed(c: Chan, e: Event)
    requires ReplyEnabled(c, e) && StartExact(c) && ListedExact(c) && c.listed != Gone
    ensures ListedExact(ReplyStep(c, e))
  {
    hide Has, Transition;
    StartStates(c.st);
    FailStates(c.st);
  }

  lemma DelListed(c: Chan, e: Event)
    requires DelEnabled(c, e) && StartExact(c) && ListedExact(c) && c.listed != Gone
    ensures ListedExact(DelStep(c, e))
  {
    hide Has, Transition, Deletable;
    DeleteStates(c.st);
  }

  /** With a zero counter no job or housekeeping step touches a channel on the delete list. */
  lemma JobStill(c: Chan, e: Event)
    requires CountExact(c) && ListedExact(c) && c.listed == OnDelete && c.count == 0
    ensures !TallyEnabled(c, e) && !JobEnabled(c, e)
  {
    hide Has;
  }

  /** A driver reply can then only be one whose count a finished hook job gave back. */
  lemma ReplyStill(c: Chan, e: Event)
    requires ReplyEnabled(c, e) && CountExact(c) && ListedExact(c) && c.listed == OnDelete && c.count == 0
    requires c.locked || !c.asked
    ensures e == StartMoveHanded
  {
  }

  /** What a deleter has seen, and what it may rely on then. */
  predicate Relies(c: Chan) {
    (c.deleter == SawZero || c.deleter == SawBoth) && (c.locked || c.calm)
  }

  lemma JobKeeps(c: Chan, e: Event)
    requires JobEnabled(c, e)
    ensures var d := JobStep(c, e); d.deleter == c.deleter && d.locked == c.locked && d.calm == c.calm
  {
    hide Has, Transition;
  }

  lemma ReplyKeeps(c: Chan, e: Event)
    requires ReplyEnabled(c, e)
    ensures var d := ReplyStep(c, e); d.deleter == c.deleter && d.locked == c.locked && d.calm == c.calm
  {
    hide Transition, LockFree;
  }

  lemma TallySeen(c: Chan, e: Event)
    requires TallyEnabled(c, e) && Inv(c)
    ensures SeenExact(Tally(c, e))
  {
    hide TallyEnabled, Tally, StartExact, Holding, Deletable;
    if Relies(c) { JobStill(c, e); } else { TallyFrame(c, e); }
  }

  lemma JobSeen(c: Chan, e: Event)
    requires JobEnabled(c, e) && Inv(c)
    ensures SeenExact(JobStep(c, e))
  {
    hide JobEnabled, JobStep, StartExact, Holding, Deletable;
    if Relies(c) { JobStill(c, e); } else { JobKeeps(c, e); }
  }

  lemma ReplySeen(c: Chan, e: Event)
    requires ReplyEnabled(c, e) && Inv(c)
    ensures SeenExact(ReplyStep(c, e))
  {
    hide ReplyEnabled, ReplyStep, Holding, Deletable;
    ReplyKeeps(c, e);
    if Relies(c) {
      DeleteStates(c.st);
      ReplyStill(c, e);
      HandedMoves(c);
    }
  }

  lemma HandedMoves(c: Chan)
    requires ReplyEnabled(c, StartMoveHanded) && StartExact(c)
    ensures Waiting(c.st) && ReplyStep(c, StartMoveHanded).count == c.count
  {
  }

  lemma DelSeen(c: Chan, e: Event)
    requires DelEnabled(c, e) && Inv(c)
    ensures SeenExact(DelStep(c, e))
  {
    hide Holding, Deletable, Transition, Has, StartExact, CountExact;
  }

  lemma TallyKeeps(c: Chan, e: Event)
    requires TallyEnabled(c, e) && StartExact(c) && ListedExact(c)
    ensures StartExact(Tally(c, e)) && ListedExact(Tally(c, e))
  {
    hide TallyEnabled, Tally;
    TallyFrame(c, e);
  }

  lemma UpKeeps(c: Chan)
    requires Inv(c) && c.ups > 0
    ensures Inv(c.(ups := c.ups - 1))
  {
    hide Holding, Deletable, Waiting;
  }

  lemma StepInv(c: Chan, e: Event)
    requires Enabled(c, e) && Inv(c)
    ensures Inv(Apply(c, e))
  {
    hide TallyEnabled, JobEnabled, ReplyEnabled, DelEnabled, Tally, JobStep, ReplyStep, DelStep;
    hide CountExact, StartExact, ListedExact, SeenExact;
    if TallyEnabled(c, e) {
      TallyCount(c, e);
      TallySeen(c, e);
      TallyKeeps(c, e);
    } else if UpEnabled(c, e) && !JobEnabled(c, e) {
      UpKeeps(c);
    } else if JobEnabled(c, e) {
      JobCount(c, e);
      JobStartExact(c, e);
      JobListed(c, e);
      JobSeen(c, e);
    } else if ReplyEnabled(c, e) {
      ReplyCount(c, e);
      ReplyStartExact(c, e);
      ReplyListed(c, e);
      ReplySeen(c, e);
    } else {
      DelCount(c, e);
      DelStartExact(c, e);
      DelListed(c, e);
      DelSeen(c, e);
    }
  }

  lemma {:induction false} RunInv(c: Chan, es: seq<Event>, d: Chan)
    requires Run(c, es, d) && Inv(c)
    ensures Inv(d)
    decreases |es|
  {
    hide Inv, Apply, Enabled;
    if es != [] {
      StepInv(c, es[0]);
      RunInv(Apply(c, es[0]), es[1..], d);
    }
  }

  lemma ReachableInv(c: Chan)
    requires Reachable(c)
    ensures Inv(c)
  {
    hide Apply, Enabled, Inv, Init;
    var es :| Run(Init(), es, c);
    InitInv();
    RunInv(Init(), es, c);
  }

  lemma InitInv()
    ensures Inv(Init())
  {
    hide Inv;
    FreshInv(Init());
  }

  lemma FreshInv(c: Chan)
    requires c.st == INIT && c.listed == OnList && c.count == 0 && c.doer == Nobody && !c.asked
    requires c.deleter == NoDelete && !c.locked && Holding(c.work) == 0 && c.work.ans.handed == 0
    ensures Inv(c)
  {
    hide Has, Transition;
  }

  // ------------------------------------------------------------ main theorems

  /** In every reachable state the operation counter is all that is at work but the up hooks and the
      start replies that handed their count to a hook job: accepted unfinished start and hook jobs,
      unanswered ioerrors, the other driver replies in progress, and gets that housekeeping has not
      yet turned into a job or given back. A handed reply is in progress only while the state waits
      for it, so never in a deletable state. */
  lemma CounterIsWork(c: Chan)
    requires Reachable(c)
    ensures c.count == AtWork(c) - c.ups - c.work.ans.handed
    ensures c.count == 0 ==> (AtWork(c) == 0 <==> c.ups == 0 && c.work.ans.handed == 0)
    ensures c.work.ans.handed > 0 ==> Waiting(c.st) && !Deletable(c.st) && c.work.ans.handed == 1
  {
    hide Reachable, Holding, Deletable;
    ReachableInv(c);
    DeleteStates(c.st);
  }

  /** A delete that read a zero counter when the state was already deletable, or whose caller holds
      the list lock, reaches its DELETE transition with both still true, in every reachable state
      after its second read; nothing is at work then if and only if no up hook is pending. */
  lemma DeleteFindsNothingAtWork(c: Chan)
    requires Reachable(c) && c.deleter == SawBoth && (c.locked || c.calm)
    ensures c.count == 0 && Deletable(c.st) && (AtWork(c) == 0 <==> c.ups == 0)
    ensures DelEnabled(c, DelCommit) && DelStep(c, DelCommit).st == DELETE
  {
    hide Reachable, Holding, Deletable;
    ReachableInv(c);
    DeleteStates(c.st);
  }

  lemma IdleStep(c: Chan, e: Event)
    requires Inv(c) && Enabled(c, e) && c.listed == OnDelete && c.st == DELETE && c.count == 0
    ensures var d := Apply(c, e);
      && d.count == 0 && d.ups <= c.ups
      && ((d.listed == OnDelete && d.st == DELETE) || (d.listed == Gone && d.st == NO && d.ups == 0))
  {
    hide Holding, TallyEnabled, JobEnabled, ReplyEnabled, Tally, JobStep, ReplyStep;
    JobStill(c, e);
    if ReplyEnabled(c, e) {
      ReplyStill(c, e);
      HandedMoves(c);
    }
  }

  lemma {:induction false} IdleRun(c: Chan, es: seq<Event>, d: Chan)
    requires Run(c, es, d) && Inv(c) && c.listed == OnDelete && c.st == DELETE && c.count == 0
    ensures d.count == 0 && AtWork(d) == d.ups <= c.ups && (d.st == DELETE || (d.listed == Gone && AtWork(d) == 0))
    decreases |es|
  {
    hide Inv, Enabled, Apply, Holding;
    if es == [] {
      InvCounts(c);
    } else {
      IdleStep(c, es[0]);
      StepInv(c, es[0]);
      var u := Apply(c, es[0]);
      if u.listed == Gone {
        InvCounts(u);
        FreedStops(u, es[1..], d);
      } else {
        IdleRun(u, es[1..], d);
      }
    }
  }

  lemma InvCounts(c: Chan)
    requires Inv(c) && !Waiting(c.st)
    ensures c.count == AtWork(c) - c.ups
  {
    hide Holding;
  }

  lemma FreedStops(c: Chan, es: seq<Event>, d: Chan)
    requires Run(c, es, d) && c.listed == Gone
    ensures d == c
  {
  }

  /** From such a delete's DELETE transition on, in every run, the counter stays zero, no up hook is
      added, and when the channel is freed nothing at all is at work. */
  lemma DeletedStaysIdle(c: Chan, es: seq<Event>, d: Chan)
    requires Reachable(c) && c.deleter == SawBoth && (c.locked || c.calm) && Run(c, [DelCommit] + es, d)
    ensures d.count == 0 && AtWork(d) == d.ups <= c.ups && (d.st == DELETE || (d.listed == Gone && AtWork(d) == 0))
  {
    hide Reachable, Holding, Inv;
    ReachableInv(c);
    DeleteFindsNothingAtWork(c);
    var u := Apply(c, DelCommit);
    assert ([DelCommit] + es)[1..] == es;
    StepInv(c, DelCommit);
    CommitMoves(c);
    IdleRun(u, es, d);
  }

  lemma CommitMoves(c: Chan)
    requires Inv(c) && c.deleter == SawBoth && Deletable(c.st)
    ensures Enabled(c, DelCommit)
    ensures var u := Apply(c, DelCommit); u.listed == OnDelete && u.st == DELETE && u.count == c.count && u.ups == c.ups
  {
    hide Holding;
  }

  // --------------------------------------------------- the two separate reads

  /** Steps of everybody but the deleter and the driver's delete answer. */
  predicate Others(es: seq<Event>) {
    forall i :: 0 <= i < |es| ==>
      !(es[i].DelBegin? || es[i].DelReadCount? || es[i].DelReadState? || es[i].DelCommit? || es[i].DelReply?)
  }

  lemma {:induction false} QuietRun(c: Chan, es: seq<Event>, d: Chan)
    requires Run(c, es, d) && Others(es) && Inv(c) && c.listed == OnDelete && c.count == 0 && !c.asked
    ensures d.count == 0
    decreases |es|
  {
    hide Inv, Enabled, Apply;
    if es != [] {
      QuietStep(c, es[0]);
      StepInv(c, es[0]);
      QuietRun(Apply(c, es[0]), es[1..], d);
    }
  }

  lemma QuietStep(c: Chan, e: Event)
    requires Inv(c) && Enabled(c, e) && Others([e]) && c.listed == OnDelete && c.count == 0 && !c.asked
    ensures var d := Apply(c, e); d.listed == OnDelete && d.count == 0 && !d.asked
  {
    hide Holding, TallyEnabled, JobEnabled, ReplyEnabled, Tally, JobStep;
    assert [e][0] == e;
    JobStill(c, e);
    if ReplyEnabled(c, e) { ReplyStill(c, e); }
  }

  /** The driver's late answer: taken, its hook job rejected, the state moved on. */
  lemma LateAnswer(c: Chan) returns (es: seq<Event>, d: Chan)
    requires Inv(c) && c.listed == OnDelete && c.count == 0 && c.asked && !c.locked
    ensures Run(c, es, d) && Others(es) && Deletable(d.st) && d.count == 1
  {
    var c1 := TakeAnswer(c);
    var c2 := Apply(c1, StartInsert(false));
    d := Apply(c2, StartMoveKept);
    es := [StartGet, StartInsert(false), StartMoveKept];
    assert es[1..] == [StartInsert(false), StartMoveKept] && es[1..][1..] == [StartMoveKept];
    assert es[1..][1..][1..] == [];
    assert Run(d, [], d);
    assert Run(c2, [StartMoveKept], d) by { assert [StartMoveKept][1..] == []; }
    assert Run(c1, es[1..], d);
    assert Run(c, es, d);
  }

  lemma TakeAnswer(c: Chan) returns (d: Chan)
    requires Inv(c) && c.listed == OnDelete && c.count == 0 && c.asked && !c.locked
    ensures Enabled(c, StartGet) && d == Apply(c, StartGet)
    ensures d.count == 1 && d.work.ans.got == 1 && Waiting(d.st) && d.listed == OnDelete
  {
    d := Apply(c, StartGet);
  }

  /** Between reading a zero counter and reading the state without the list lock, the others can
      make the state deletable and the counter non-zero if and only if a start request was still
      waiting for the driver's answer when the counter was read. */
  lemma ZeroReadLastsIff(c: Chan)
    requires Reachable(c) && c.listed == OnDelete && c.count == 0 && !c.locked
    ensures (forall es, d :: Run(c, es, d) && Others(es) && Deletable(d.st) ==> d.count == 0) <==> !c.asked
  {
    hide Reachable, Deletable, Others, Holding;
    ReachableInv(c);
    if !c.asked {
      forall es, d | Run(c, es, d) && Others(es) && Deletable(d.st) ensures d.count == 0 {
        QuietRun(c, es, d);
      }
    } else {
      var es, d := LateAnswer(c);
    }
  }

  lemma {:induction false} RunExtend(c: Chan, es: seq<Event>, d: Chan, e: Event)
    requires Run(c, es, d) && Enabled(d, e)
    ensures Run(c, es + [e], Apply(d, e))
    decreases |es|
  {
    hide Apply, Enabled;
    if es == [] {
      assert es + [e] == [e] && [e][1..] == [];
    } else {
      RunExtend(Apply(c, es[0]), es[1..], d, e);
      assert (es + [e])[1..] == es[1..] + [e];
    }
  }

  lemma Step(c: Chan, e: Event) returns (d: Chan)
    requires Reachable(c) && Enabled(c, e)
    ensures d == Apply(c, e) && Reachable(d)
  {
    hide Apply, Enabled, Init;
    var es :| Run(Init(), es, c);
    RunExtend(Init(), es, c, e);
    d := Apply(c, e);
  }

  lemma InitReachable()
    ensures Reachable(Init())
  {
    hide Init;
    assert Run(Init(), [], Init());
  }

  /** A start job has asked the driver to start and is done; the driver has not answered yet. */
  lemma Asked() returns (c: Chan)
    ensures Reachable(c) && c.st == IWS && c.listed == OnList && c.count == 0 && c.asked && c.ups == 0
    ensures c.deleter == NoDelete && !c.locked
  {
    hide Reachable, Holding;
    InitReachable();
    c := Step(Init(), HkGet);
    c := Step(c, HkAccept(StartJob));
    c := Step(c, JobBegin);
    c := Step(c, JobInit);
    c := Step(c, DriverInited);
    c := Step(c, JobStart);
    c := Step(c, JobEnd);
  }

  /** The delete reads its counter in that state. */
  lemma ZeroRead() returns (c: Chan)
    ensures Reachable(c) && c.st == IWS && c.listed == OnDelete && c.count == 0 && c.asked
    ensures c.deleter == SawZero && !c.locked
  {
    hide Reachable;
    c := Asked();
    ReachableInv(c);
    c := Step(c, DelBegin(false));
    c := Step(c, DelReadCount);
  }

  /** So a delete without the list lock can go ahead with an operation in progress. */
  lemma DeleteRace()
    ensures exists c :: Reachable(c) && c.deleter == SawBoth && Deletable(c.st) && c.count > 0
  {
    hide Reachable;
    var c := ZeroRead();
    ReachableInv(c);
    c := Step(c, StartGet);
    c := Step(c, StartInsert(true));
    c := Step(c, StartMoveHanded);
    c := Step(c, DelReadState);
    assert c.deleter == SawBoth && c.count > 0;
  }

  /** The driver's answer was handed to a hook job, and the hook ended before the channel moved: the
      counter is zero and no up hook is pending, yet the reply is about to move the channel. */
  lemma HandedReplyHoldsNoCount()
    ensures exists c :: Reachable(c) && c.count == 0 && c.ups == 0 && AtWork(c) == 1 && c.st == IWS
                     && Enabled(c, StartMoveHanded) && Apply(c, StartMoveHanded).st == WORK
  {
    hide Reachable;
    var c := Asked();
    NoProbes(c);
    CounterIsWork(c);
    c := Step(c, StartGet);
    c := Step(c, StartInsert(true));
    c := Step(c, HookEnd);
    assert c.count == 0 && Enabled(c, StartMoveHanded);
  }

  /** The service refused the upgrade: the start job is over and its up hook is queued. */
  lemma Refused() returns (c: Chan)
    ensures Reachable(c) && c.st == INIT && c.listed == OnList && c.count == 0 && c.ups > 0
    ensures c.deleter == NoDelete && !c.locked
  {
    hide Reachable, Holding;
    InitReachable();
    c := Step(Init(), HkGet);
    c := Step(c, HkAccept(StartJob));
    c := Step(c, JobBegin);
    c := Step(c, JobUpgradeRefused(true));
    c := Step(c, JobEnd);
  }

  /** So the counter is zero and the state deletable, and a delete goes through, even under the list
      lock, while the up hook is at work. */
  lemma UpHookOutlivesDelete(locked: bool)
    ensures exists c ::
      Reachable(c) && c.deleter == SawBoth && c.locked == locked && c.calm && c.count == 0 && c.ups > 0
  {
    hide Reachable, Holding;
    var c := Refused();
    NoProbes(c);
    c := Step(c, DelBegin(locked));
    c := Step(c, DelReadCount);
    c := Step(c, DelReadState);
    assert c.deleter == SawBoth && c.ups > 0;
  }

  lemma NoProbes(c: Chan)
    requires Reachable(c) && c.count == 0
    ensures c.work.jobs.probes == 0
  {
    hide Reachable;
    ReachableInv(c);
  }
}
