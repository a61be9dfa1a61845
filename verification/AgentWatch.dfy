/** The keepalive watchdog of a channel, over whole runs. */
module AgentWatch {

  const TIMEOUT: int := 10
  const PERIOD: int := 2
  const BUSY: nat := 1
  const LIMIT: int := 10

  /** What a keepalive answer reports of the server. */
  datatype Report = Report(recv: nat, wait: nat, status: nat)

  /** The fields of asc_private that the watchdog uses; working means state WORK. */
  datatype Watch = Watch(
    working: bool, rtimer: int, xtimer: int, saveRecv: nat, saveWait: nat, saveCount: int, toRecover: bool)

  /** asc_sm_rdev_keepalive. */
  function Keepalive(w: Watch, r: Report): Watch {
    var v :=
      if r.recv != w.saveRecv then w.(saveRecv := r.recv, saveWait := r.wait, saveCount := 0)
      else if r.recv < r.wait then
        if r.status == BUSY then w.(saveCount := 0) else w.(saveCount := w.saveCount + 1)
      else w;
    v.(rtimer := if v.saveCount < LIMIT then TIMEOUT else 0)
  }

  /** asc_sm_w_housekeeping without its hook jobs: what happened is a recover request, a keepalive
      message, or nothing. */
  datatype Sent = Nothing | RecoverRequest | KeepaliveMessage

  function Housekeeping(w: Watch): (Watch, Sent) {
    if w.toRecover then (w, Nothing)
    else
      var left := if w.rtimer != 0 then w.rtimer - 1 else 0;
      if left == 0 then (w.(rtimer := 0, toRecover := true), RecoverRequest)
      else if w.xtimer - 1 == 0 then (w.(rtimer := left, xtimer := PERIOD), KeepaliveMessage)
      else (w.(rtimer := left, xtimer := w.xtimer - 1), Nothing)
  }

  /** asc_sm_rdev_recover_channel and the move to RECOVER. */
  function RecoverReply(w: Watch): Watch {
    w.(toRecover := false, working := false)
  }

  /** The start request to the driver sets the send timer, its answer the receive timer and WORK. */
  function StartReply(w: Watch): Watch {
    w.(rtimer := TIMEOUT, xtimer := PERIOD, working := true)
  }

  // -------------------------------------------------------------------- runs

  datatype Event = Ka(r: Report) | Hk | Recovered | Started

  /** Driver messages and housekeeping reach the watchdog only in WORK; starts come outside it. */
  predicate Enabled(w: Watch, e: Event) {
    w.working == !e.Started?
  }

  function Next(w: Watch, e: Event): Watch {
    match e
    case Ka(r) => Keepalive(w, r)
    case Hk => Housekeeping(w).0
    case Recovered => RecoverReply(w)
    case Started => StartReply(w)
  }

  function Init(): Watch { Watch(false, 0, 0, 0, 0, 0, false) }

  /** The state after a history. */
  function After(h: seq<Event>): Watch {
    if h == [] then Init() else Next(After(h[..|h| - 1]), h[|h| - 1])
  }

  predicate Possible(h: seq<Event>) {
    h == [] || (Possible(h[..|h| - 1]) && Enabled(After(h[..|h| - 1]), h[|h| - 1]))
  }

  // ------------------------------------------- what the history itself says

  /** The sequence number of the last report, zero before the first. */
  function LastRecv(h: seq<Event>): nat {
    if h == [] then 0
    else
      var e := h[|h| - 1];
      if e.Ka? then e.r.recv else LastRecv(h[..|h| - 1])
  }

  /** What the last report that brought a new sequence number said the server waits for. */
  function LastWait(h: seq<Event>): nat {
    if h == [] then 0
    else
      var before, e := h[..|h| - 1], h[|h| - 1];
      if e.Ka? && e.r.recv != LastRecv(before) then e.r.wait else LastWait(before)
  }

  /** The last report brought no new sequence number although the server waits for data. */
  predicate StuckReport(before: seq<Event>, r: Report) {
    r.recv == LastRecv(before) && r.recv < r.wait && r.status != BUSY
  }

  predicate ClearingReport(before: seq<Event>, r: Report) {
    r.recv != LastRecv(before) || (r.recv < r.wait && r.status == BUSY)
  }

  /** How many stuck reports came since the last one with progress or a busy server. */
  function StuckSince(h: seq<Event>): nat {
    if h == [] then 0
    else
      var before, e := h[..|h| - 1], h[|h| - 1];
      if e.Ka? && ClearingReport(before, e.r) then 0
      else StuckSince(before) + if e.Ka? && StuckReport(before, e.r) then 1 else 0
  }

  /** Housekeeping turns since the last report or start. */
  function SilentTurns(h: seq<Event>): nat {
    if h == [] then 0
    else
      match h[|h| - 1]
      case Hk => SilentTurns(h[..|h| - 1]) + 1
      case Recovered => SilentTurns(h[..|h| - 1])
      case _ => 0
  }

  /** The last report, with no start since, was the tenth stuck one or a later one. */
  predicate Forced(h: seq<Event>) {
    h != [] &&
    match h[|h| - 1]
    case Ka(_) => StuckSince(h) >= 10
    case Started => false
    case _ => Forced(h[..|h| - 1])
  }

  /** A recover request is due at the next turn: none is waiting for its answer, and the server is
      stuck or nine turns have passed without a report. */
  predicate Due(h: seq<Event>)
    decreases |h|, 1
  {
    !Pending(h) && (Forced(h) || SilentTurns(h) >= 9)
  }

  /** A recover request was due at a turn since the last recover reply. */
  predicate Pending(h: seq<Event>)
    decreases |h|, 0
  {
    h != [] &&
    match h[|h| - 1]
    case Hk => Pending(h[..|h| - 1]) || Due(h[..|h| - 1])
    case Recovered => false
    case _ => Pending(h[..|h| - 1])
  }

  /** The turns since the last start at which no recover request was due or waiting. */
  function QuietTurns(h: seq<Event>): nat {
    if h == [] then 0
    else
      var before := h[..|h| - 1];
      match h[|h| - 1]
      case Hk => QuietTurns(before) + if Pending(before) || Due(before) then 0 else 1
      case Started => 0
      case _ => QuietTurns(before)
  }

  /** The channel was started, and has not been recovered since. */
  predicate Up(h: seq<Event>) {
    h != [] &&
    match h[|h| - 1]
    case Started => true
    case Recovered => false
    case _ => Up(h[..|h| - 1])
  }

  /** The last step asked the driver to recover. */
  predicate Requests(h: seq<Event>) {
    h != [] && h[|h| - 1].Hk? && Housekeeping(After(h[..|h| - 1])).1 == RecoverRequest
  }

  // ------------------------------------------------------------ main theorems

  /** The saved count is exactly the number of stuck reports since the last progress or busy
      report, and the saved number is the last one reported. */
  lemma {:induction false} SavedCountExact(h: seq<Event>)
    requires Possible(h)
    ensures After(h).saveCount == StuckSince(h) && After(h).saveRecv == LastRecv(h) && After(h).saveWait == LastWait(h)
  {
    if h != [] { SavedCountExact(h[..|h| - 1]); }
  }

  /** Ten or more stuck reports force the timer to zero, fewer give it its full length. */
  lemma KeepaliveTimer(h: seq<Event>)
    requires Possible(h) && h != [] && h[|h| - 1].Ka?
    ensures After(h).rtimer == if StuckSince(h) >= 10 then 0 else 10
  {
    SavedCountExact(h);
  }

  /** With an expired timer the next housekeeping asks for recovery, unless it already has. */
  lemma ForcedRecovery(h: seq<Event>)
    requires Possible(h) && h != [] && h[|h| - 1].Ka? && StuckSince(h) >= 10
    ensures Possible(h + [Hk])
    ensures Requests(h + [Hk]) <==> !After(h).toRecover
  {
    KeepaliveTimer(h);
    assert (h + [Hk])[..|h|] == h;
  }

  /** Both timers stay in range; in WORK the send timer is running. */
  lemma {:induction false} TimersInRange(h: seq<Event>)
    requires Possible(h)
    ensures 0 <= After(h).rtimer <= TIMEOUT
    ensures After(h).working ==> 1 <= After(h).xtimer <= PERIOD
  {
    if h != [] { TimersInRange(h[..|h| - 1]); }
  }

  lemma PendingStep(w: Watch, e: Event)
    requires w.toRecover && !e.Recovered?
    ensures Next(w, e).toRecover
  {
  }

  /** A request stays pending until the driver answers it. */
  lemma {:induction false} StaysPending(h: seq<Event>, i: nat, j: nat)
    requires i <= j <= |h| && After(h[..i]).toRecover && forall k :: i <= k < j ==> !h[k].Recovered?
    ensures After(h[..j]).toRecover
    decreases j - i
  {
    hide Next;
    if i < j {
      StaysPending(h, i, j - 1);
      assert h[..j][..j - 1] == h[..j - 1];
      PendingStep(After(h[..j - 1]), h[j - 1]);
    }
  }

  /** In every possible history, between two recover requests the driver answered one. */
  lemma RequestsSeparated(h: seq<Event>, i: nat, j: nat)
    requires 0 < i < j <= |h| && Requests(h[..i]) && Requests(h[..j])
    ensures exists k :: i <= k < j - 1 && h[k].Recovered?
  {
    assert h[..j][..j - 1] == h[..j - 1];
    if forall k :: i <= k < j - 1 ==> !h[k].Recovered? {
      StaysPending(h, i, j - 1);
    }
  }

  /** A silent connection is given up: ten housekeeping turns without a keepalive answer after the
      timer was set end in a recover request, and none of the earlier ones does. */
  lemma {:induction false} SilenceEndsInRecovery(h: seq<Event>, n: nat)
    requires Possible(h) && After(h).working && !After(h).toRecover && After(h).rtimer == TIMEOUT && n <= 10
    ensures Possible(h + Turns(n)) && After(h + Turns(n)).rtimer == TIMEOUT - n
    ensures After(h + Turns(n)).working && After(h + Turns(n)).toRecover == (n == 10)
    ensures n > 0 ==> (Requests(h + Turns(n)) <==> n == 10)
  {
    if n == 0 {
      assert h + Turns(0) == h;
    } else {
      SilenceEndsInRecovery(h, n - 1);
      assert (h + Turns(n))[..|h| + n - 1] == h + Turns(n - 1);
    }
  }

  function Turns(n: nat): (s: seq<Event>)
    ensures |s| == n && forall i :: 0 <= i < n ==> s[i] == Hk
  {
    seq(n, i => Hk)
  }

  /** What the fields mean, by the history alone. */
  predicate Explains(h: seq<Event>, w: Watch) {
    && w.working == Up(h) && w.toRecover == Pending(h)
    && (Up(h) ==> w.xtimer == 2 - QuietTurns(h) % 2)
    && (Up(h) && !Pending(h) ==>
          if Forced(h) then w.rtimer == 0 else SilentTurns(h) <= 9 && w.rtimer == 10 - SilentTurns(h))
  }

  lemma {:induction false} HistoryExplains(h: seq<Event>)
    requires Possible(h)
    ensures Explains(h, After(h))
  {
    if h != [] {
      HistoryExplains(h[..|h| - 1]);
      SavedCountExact(h);
    }
  }

  /** What a turn sends, after every possible history in WORK: nothing while a recover request waits
      for its answer; a recover request when one is due; of the other turns since the start every
      second one sends a keepalive message, the rest nothing. */
  lemma TurnSends(h: seq<Event>)
    requires Possible(h) && Up(h)
    ensures Possible(h + [Hk])
    ensures Housekeeping(After(h)).1 ==
      if Pending(h) then Nothing
      else if Due(h) then RecoverRequest
      else if QuietTurns(h) % 2 == 1 then KeepaliveMessage
      else Nothing
  {
    HistoryExplains(h);
    assert (h + [Hk])[..|h|] == h;
  }

  /** So of two turns with only reports between them, neither with a request due or waiting, exactly
      one sends the keepalive message. */
  lemma OneOfTwoTurns(h: seq<Event>, rs: seq<Event>)
    requires Possible(h) && Up(h) && !Pending(h) && !Due(h) && forall e <- rs :: e.Ka?
    requires var g := h + [Hk] + rs; Possible(g) && !Pending(g) && !Due(g)
    ensures Housekeeping(After(h)).1 == KeepaliveMessage <==> Housekeeping(After(h + [Hk] + rs)).1 != KeepaliveMessage
  {
    assert (h + [Hk])[..|h|] == h;
    ReportsKeep(h + [Hk], rs);
    TurnSends(h);
    TurnSends(h + [Hk] + rs);
  }

  lemma {:induction false} ReportsKeep(h: seq<Event>, rs: seq<Event>)
    requires forall e <- rs :: e.Ka?
    ensures QuietTurns(h + rs) == QuietTurns(h) && Up(h + rs) == Up(h)
    decreases |rs|
  {
    if rs == [] {
      assert h + rs == h;
    } else {
      var n := |rs| - 1;
      assert (h + rs)[..|h| + n] == h + rs[..n] && (h + rs)[|h| + n] == rs[n];
      ReportsKeep(h, rs[..n]);
    }
  }

  // -------------------------------------------------------- the fields in place

  class Asc {
    var working: bool
    var rtimer: int
    var xtimer: int
    var saveRecv: nat
    var saveWait: nat
    var saveCount: int
    var toRecover: bool

    ghost function View(): Watch
      reads this
    {
      Watch(working, rtimer, xtimer, saveRecv, saveWait, saveCount, toRecover)
    }

    constructor ()
      ensures View() == Init()
    {
      working, rtimer, xtimer, saveRecv, saveWait, saveCount, toRecover := false, 0, 0, 0, 0, 0, false;
    }

    method RdevKeepalive(r: Report)
      modifies this
      ensures View() == Keepalive(old(View()), r)
    {
      if r.recv != saveRecv {
        saveRecv, saveWait, saveCount := r.recv, r.wait, 0;
      } else if r.recv < r.wait {
        if r.status == BUSY { saveCount := 0; } else { saveCount := saveCount + 1; }
      }
      if saveCount < LIMIT { rtimer := TIMEOUT; } else { rtimer := 0; }
    }

    method WHousekeeping() returns (sent: Sent)
      modifies this
      ensures (View(), sent) == Housekeeping(old(View()))
    {
      sent := Nothing;
      if toRecover { return; }
      if rtimer != 0 { rtimer := rtimer - 1; }
      if rtimer == 0 {
        toRecover := true;
        return RecoverRequest;
      }
      xtimer := xtimer - 1;
      if xtimer == 0 {
        xtimer := PERIOD;
        sent := KeepaliveMessage;
      }
    }

    method RdevRecoverChannel()
      modifies this
      ensures View() == RecoverReply(old(View()))
    {
      toRecover, working := false, false;
    }

    method RdevStartChannel()
      modifies this
      ensures View() == StartReply(old(View()))
    {
      rtimer, xtimer, working := TIMEOUT, PERIOD, true;
    }
  }
}
