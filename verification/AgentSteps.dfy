/** What the steps of a channel do, in terms of its states by name. */
module AgentSteps {
  import opened Dsm
  import opened Agent

  /** The only ways of a channel through its states: initialised, asked to start, started, recovered,
      started again, and deleted and freed. */
  function MovesTo(s: St, e: Event): St {
    match e
    case JobInit => IWI
    case JobStart => if s == IWI then IWS else if s == RECOVER then RW else s
    case StartMoveHanded => WORK
    case StartMoveKept => WORK
    case RecAct => if s == WORK then RECOVER else s
    case DelCommit => if s == INIT || s == WORK || s == RECOVER then DELETE else s
    case DelReply => NO
    case _ => s
  }

  /** The entries of the state table that the steps use. */
  lemma Entries(s: St)
    ensures Has(s, XInit) <==> s == INIT
    ensures Has(s, XStart) <==> s == IWI || s == RECOVER
    ensures Has(s, RDelete) <==> s == DELETE
    ensures Deletable(s) <==> s == INIT || s == WORK || s == RECOVER
    ensures Transition(INIT, Success) == IWI && Transition(IWI, Success) == IWS && Transition(RECOVER, Success) == RW
    ensures Waiting(s) ==> Transition(s, Success) == WORK
    ensures s != NO && s != SLEEP ==> Transition(s, Failure) == if s == WORK then RECOVER else s
    ensures Deletable(s) ==> Transition(s, Remove) == DELETE
    ensures Transition(DELETE, Success) == NO
  {
  }

  lemma TallyMoves(c: Chan, e: Event)
    requires TallyEnabled(c, e)
    ensures MovesTo(c.st, e) == c.st && e != JobInit && !e.StartMoveHanded? && !e.StartMoveKept? && e != DelReply
  {
    hide LockFree;
  }

  lemma JobState(c: Chan, e: Event)
    requires JobEnabled(c, e)
    ensures JobStep(c, e).st ==
      if e == JobInit || (e == JobStart && Has(c.st, XStart)) then Transition(c.st, Success) else c.st
    ensures JobStep(c, e).ex == c.ex && JobStep(c, e).work.io == c.work.io
  {
    hide Has, Transition;
  }

  lemma JobEvents(c: Chan, e: Event)
    requires JobEnabled(c, e)
    ensures e == JobInit ==> Has(c.st, XInit)
    ensures e.JobBegin? || e.JobUpgradeRefused? || e.JobInit? || e.DriverInited? || e.JobStart? || e.JobEnd?
  {
    hide Has;
  }

  lemma JobMoves(c: Chan, e: Event)
    requires JobEnabled(c, e)
    ensures JobStep(c, e).st == MovesTo(c.st, e) && (e == JobInit ==> c.st == INIT)
    ensures !e.StartMoveHanded? && !e.StartMoveKept? && e != DelReply
  {
    hide JobEnabled, JobStep, Has, Transition;
    JobState(c, e);
    JobEvents(c, e);
    Entries(c.st);
  }

  lemma ReplyState(c: Chan, e: Event)
    requires ReplyEnabled(c, e)
    ensures ReplyStep(c, e).st ==
      if e == RecAct then Transition(c.st, Failure)
      else if e == StartMoveHanded || e == StartMoveKept then Transition(c.st, Success)
      else c.st
    ensures ReplyStep(c, e).ex == c.ex && ReplyStep(c, e).work.io == c.work.io
  {
    hide LockFree, Transition;
  }

  lemma ReplyWaits(c: Chan, e: Event)
    requires ReplyEnabled(c, e) && StartExact(c)
    ensures e == StartMoveHanded || e == StartMoveKept ==> Waiting(c.st)
    ensures e.RecGet? || e.RecAct? || e.RecPut? || e.StartGet? || e.StartInsert? || e.StartMoveHanded?
         || e.StartMoveKept? || e.StartPut?
  {
    hide LockFree;
  }

  lemma ReplyMoves(c: Chan, e: Event)
    requires ReplyEnabled(c, e) && StartExact(c) && ListedExact(c) && c.listed != Gone
    ensures ReplyStep(c, e).st == MovesTo(c.st, e) && e != JobInit && e != DelReply
    ensures e == StartMoveHanded || e == StartMoveKept ==> c.st == IWS || c.st == RW
  {
    hide ReplyEnabled, ReplyStep, StartExact, Has, Transition;
    ReplyState(c, e);
    ReplyWaits(c, e);
    Entries(c.st);
  }

  lemma DelState(c: Chan, e: Event)
    requires DelEnabled(c, e)
    ensures DelStep(c, e).st ==
      if e == DelCommit && Deletable(c.st) then Transition(c.st, Remove)
      else if e == DelReply then Transition(c.st, Success)
      else c.st
    ensures DelStep(c, e).ex == c.ex && DelStep(c, e).work == c.work
  {
    hide LockFree, Has, Transition, Deletable;
  }

  lemma DelEvents(c: Chan, e: Event)
    requires DelEnabled(c, e)
    ensures e == DelReply ==> Has(c.st, RDelete)
    ensures e.DelBegin? || e.DelReadCount? || e.DelReadState? || e.DelCommit? || e.DelReply?
  {
    hide LockFree, Has;
  }

  lemma DelMoves(c: Chan, e: Event)
    requires DelEnabled(c, e)
    ensures DelStep(c, e).st == MovesTo(c.st, e) && (e == DelReply ==> c.st == DELETE)
    ensures e != JobInit && !e.StartMoveHanded? && !e.StartMoveKept?
  {
    hide DelEnabled, DelStep, Has, Transition, Deletable;
    DelState(c, e);
    DelEvents(c, e);
    Entries(c.st);
  }

  /** Every step of every run moves the state this way, and only where it may. */
  lemma StateMoves(c: Chan, e: Event)
    requires Reachable(c) && Enabled(c, e)
    ensures Apply(c, e).st == MovesTo(c.st, e)
    ensures e == JobInit ==> c.st == INIT
    ensures e == StartMoveHanded || e == StartMoveKept ==> c.st == IWS || c.st == RW
    ensures e == DelReply ==> c.st == DELETE
  {
    hide Reachable, TallyEnabled, JobEnabled, ReplyEnabled, DelEnabled, Tally, JobStep, ReplyStep, DelStep, MovesTo;
    hide CountExact, StartExact, ListedExact, SeenExact;
    ReachableInv(c);
    if TallyEnabled(c, e) {
      TallyMoves(c, e);
      TallyFrame(c, e);
    } else if JobEnabled(c, e) {
      JobMoves(c, e);
    } else if UpEnabled(c, e) {
      UpMoves(c);
    } else if ReplyEnabled(c, e) {
      ReplyMoves(c, e);
    } else {
      DelMoves(c, e);
    }
  }

  lemma UpMoves(c: Chan)
    ensures MovesTo(c.st, UpHookEnd) == c.st
  {
  }

  // ----------------------------------------------------------------- the delete

  lemma DelGivesUp(c: Chan, e: Event)
    requires DelEnabled(c, e) && c.deleter != NoDelete && e != DelCommit
    ensures var d := DelStep(c, e);
      && (!c.locked ==> d.deleter != NoDelete && !d.locked)
      && (c.locked ==> (d.locked <==> d.deleter != NoDelete))
      && (c.locked ==> (d.deleter == NoDelete <==>
            (e == DelReadCount && c.count != 0) || (e == DelReadState && c.st !in {INIT, WORK, RECOVER})))
  {
    hide LockFree, Transition;
  }

  lemma OthersLeave(c: Chan, e: Event)
    requires TallyEnabled(c, e) || JobEnabled(c, e) || UpEnabled(c, e) || ReplyEnabled(c, e)
    ensures e != DelReadCount && e != DelReadState
  {
    hide LockFree, Has;
  }

  /** An unlocked delete call tries until it makes its transition. One under the list lock gives up, and
      gives back the lock, exactly when it finds the counter not zero or the state not deletable. */
  lemma DeleterSteps(c: Chan, e: Event)
    requires Enabled(c, e) && c.deleter != NoDelete && e != DelCommit
    ensures var d := Apply(c, e);
      && (!c.locked ==> d.deleter != NoDelete && !d.locked)
      && (c.locked ==> (d.locked <==> d.deleter != NoDelete))
      && (c.locked ==> (d.deleter == NoDelete <==>
            (e == DelReadCount && c.count != 0) || (e == DelReadState && c.st !in {INIT, WORK, RECOVER})))
  {
    hide TallyEnabled, JobEnabled, ReplyEnabled, DelEnabled, Tally, JobStep, ReplyStep, DelStep;
    if TallyEnabled(c, e) {
      OthersLeave(c, e);
      TallyFrame(c, e);
    } else if JobEnabled(c, e) {
      OthersLeave(c, e);
      JobKeeps(c, e);
    } else if UpEnabled(c, e) {
      OthersLeave(c, e);
    } else if ReplyEnabled(c, e) {
      OthersLeave(c, e);
      ReplyKeeps(c, e);
    } else {
      DelGivesUp(c, e);
    }
  }

  predicate NoJobs(c: Chan) { c.work.jobs.starts == 0 && c.work.jobs.hooks == 0 && c.ups == 0 }

  lemma FreeStep(c: Chan, e: Event)
    requires Enabled(c, e) && Apply(c, e).listed == Gone
    ensures e == DelReply && NoJobs(Apply(c, e))
  {
    hide TallyEnabled, JobEnabled, ReplyEnabled, DelEnabled, Tally, JobStep, ReplyStep, DelStep;
    if TallyEnabled(c, e) {
      TallyFrame(c, e);
    } else if JobEnabled(c, e) {
      JobListedSame(c, e);
    } else if ReplyEnabled(c, e) && !UpEnabled(c, e) {
      ReplyListedSame(c, e);
    } else if !UpEnabled(c, e) {
      DelFrees(c, e);
    }
  }

  lemma JobListedSame(c: Chan, e: Event)
    requires JobEnabled(c, e)
    ensures JobStep(c, e).listed == c.listed
  {
    hide Has, Transition;
  }

  lemma ReplyListedSame(c: Chan, e: Event)
    requires ReplyEnabled(c, e)
    ensures ReplyStep(c, e).listed == c.listed
  {
    hide LockFree, Transition;
  }

  lemma DelFrees(c: Chan, e: Event)
    requires DelEnabled(c, e) && c.listed != Gone && DelStep(c, e).listed == Gone
    ensures e == DelReply && NoJobs(DelStep(c, e))
  {
    hide LockFree, Has, Transition, Deletable;
  }

  lemma {:induction false} FreeRun(c: Chan, es: seq<Event>, d: Chan)
    requires Run(c, es, d) && (c.listed == Gone ==> NoJobs(c)) && d.listed == Gone
    ensures NoJobs(d)
    decreases |es|
  {
    hide Apply, Enabled, NoJobs;
    if es != [] {
      var u := Apply(c, es[0]);
      if u.listed == Gone { FreeStep(c, es[0]); }
      FreeRun(u, es[1..], d);
    }
  }

  /** In every run, also after a delete that lost the race, a channel is freed only when no job of it
      is queued or running. */
  lemma FreedHasNoJobs(c: Chan)
    requires Reachable(c) && c.listed == Gone
    ensures NoJobs(c)
  {
    hide Apply, Enabled;
    var es :| Run(Init(), es, c);
    FreeRun(Init(), es, c);
  }

  // ------------------------------------------------------------------- ioerrors

  /** At most one ioerror is with the driver, and the flag says so. */
  predicate OneIoError(c: Chan) { c.work.io.sent == if c.ex then 1 else 0 }

  lemma IoTally(c: Chan, e: Event)
    requires TallyEnabled(c, e) && OneIoError(c)
    ensures OneIoError(Tally(c, e))
    ensures e == IoTry ==> Tally(c, e).work.io.sent == if c.st == RECOVER then 1 else 0
  {
    hide LockFree;
  }

  lemma ReplyIsNoTry(c: Chan)
    ensures !ReplyEnabled(c, IoTry)
  {
  }

  lemma IoStep(c: Chan, e: Event)
    requires Enabled(c, e) && OneIoError(c)
    ensures OneIoError(Apply(c, e))
    ensures e == IoTry ==> Apply(c, e).work.io.sent == if c.st == RECOVER then 1 else 0
  {
    hide TallyEnabled, JobEnabled, ReplyEnabled, DelEnabled, Tally, JobStep, ReplyStep, DelStep;
    if TallyEnabled(c, e) {
      IoTally(c, e);
    } else if JobEnabled(c, e) {
      JobState(c, e);
      JobEvents(c, e);
    } else if ReplyEnabled(c, e) && !UpEnabled(c, e) {
      ReplyState(c, e);
      ReplyIsNoTry(c);
    } else if !UpEnabled(c, e) {
      DelState(c, e);
      DelEvents(c, e);
    }
  }

  lemma {:induction false} IoRun(c: Chan, es: seq<Event>, d: Chan)
    requires Run(c, es, d) && OneIoError(c)
    ensures OneIoError(d)
    decreases |es|
  {
    hide Apply, Enabled, OneIoError;
    if es != [] {
      IoStep(c, es[0]);
      IoRun(Apply(c, es[0]), es[1..], d);
    }
  }

  /** In every run at most one ioerror request is with the driver, and one goes there only in RECOVER. */
  lemma IoErrorsOneByOne(c: Chan)
    requires Reachable(c)
    ensures OneIoError(c)
    ensures Enabled(c, IoTry) ==> Apply(c, IoTry).work.io.sent == if c.st == RECOVER then 1 else 0
  {
    hide Apply, Enabled;
    var es :| Run(Init(), es, c);
    IoRun(Init(), es, c);
    if Enabled(c, IoTry) { IoStep(c, IoTry); }
  }
}
