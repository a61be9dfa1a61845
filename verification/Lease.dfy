/** The named leases of doa.c and doacg.c: owner, renewal and expiry under a clock that does not
    go back. Times are whole seconds, as the comparison in doa_compare uses them. */
module Lease {
  import opened Common

  type Name = seq<nat>

  /** What the message carries: the requester (vid) and the lock (lid) as counted bytes. */
  datatype Message = Message(vid: Name, lid: Name, timeout: nat)

  /** A copied name is used as a C string: it ends at its first zero byte. */
  function CString(s: Name): (r: Name)
    ensures 0 !in r && |r| <= |s|
    ensures r == s[..|r|] && (|r| < |s| ==> s[|r|] == 0)
  {
    if s == [] || s[0] == 0 then [] else [s[0]] + CString(s[1..])
  }

  /** struct doa_private. */
  datatype Doa = Doa(id: Name, owner: Name, init: int, renew: int, lastRenew: int, timeout: nat, res: nat)

  /** doa_init_info at time t0, before the list is locked. */
  function InitInfo(m: Message, t0: int): Doa {
    Doa(CString(m.lid), CString(m.vid), t0, t0, t0, m.timeout, 1)
  }

  /** doa_compare at time t1: the same owner renews; another one takes over only when more than
      the timeout has passed since the recorded renewal. */
  function Compare(o: Doa, n: Doa, t1: int): Option<Doa> {
    if o.owner == n.owner then Some(n.(renew := t1, lastRenew := o.renew, init := o.init, res := 1))
    else if t1 - o.renew > o.timeout then Some(n.(res := 1))
    else None
  }

  /** __doacg_check_doa: the first record of that id. */
  function Find(records: seq<Doa>, id: Name): (k: Option<nat>)
    ensures k.Some? ==> k.value < |records| && records[k.value].id == id
    ensures k.Some? ==> forall i :: 0 <= i < k.value ==> records[i].id != id
    ensures k.None? ==> forall i :: 0 <= i < |records| ==> records[i].id != id
  {
    if records == [] then None
    else
      var n := |records| - 1;
      match Find(records[..n], id)
      case Some(k) => Some(k)
      case None => if records[n].id == id then Some(n) else None
  }

  // -------------------------------------------------------------- operations

  datatype Answer = Answer(lock: nat, owner: Name, timeout: nat)

  /** doacg_request. */
  function Request(records: seq<Doa>, m: Message, t0: int, t1: int): (seq<Doa>, Answer) {
    var n := InitInfo(m, t0);
    match Find(records, n.id)
    case None => (records + [n], Answer(n.res, n.owner, n.timeout))
    case Some(k) =>
      match Compare(records[k], n, t1)
      case Some(d) => (records[k := d], Answer(d.res, d.owner, d.timeout))
      case None =>
        var o := records[k].(res := 0);
        (records[k := o], Answer(o.res, o.owner, o.timeout))
  }

  /** doacg_release. */
  function Release(records: seq<Doa>, m: Message): (seq<Doa>, nat) {
    match Find(records, CString(m.lid))
    case None => (records, 0)
    case Some(k) =>
      if records[k].owner == CString(m.vid) then (records[..k] + records[k + 1..], 1) else (records, 0)
  }

  /** doacg_check. */
  function Check(records: seq<Doa>, m: Message): Answer {
    match Find(records, CString(m.lid))
    case None => Answer(0, CString(m.vid), m.timeout)
    case Some(k) => Answer(1, records[k].owner, records[k].timeout)
  }

  // -------------------------------------------------------------------- runs

  /** What happened to the leases, for the statements only. */
  datatype Entry =
    | Grant(id: Name, owner: Name, renew: int, timeout: nat, at: int)
    | Freed(id: Name, at: int)

  datatype State = State(records: seq<Doa>, log: seq<Entry>, now: int)

  /** Requests read the clock twice: at t0 before they get the list lock and at t1 under it. */
  datatype Event = Ask(m: Message, t0: int, t1: int) | Free(m: Message, t1: int)

  predicate Enabled(s: State, e: Event) {
    s.now <= e.t1 && (e.Ask? ==> e.t0 <= e.t1)
  }

  /** The requester holds the lock with these records. */
  predicate Owns(records: seq<Doa>, m: Message) {
    var k := Find(records, CString(m.lid));
    k.Some? && records[k.value].owner == CString(m.vid)
  }

  function Logged(records: seq<Doa>, m: Message, t1: int): seq<Entry> {
    var k := Find(records, CString(m.lid));
    if Owns(records, m) then
      var r := records[k.value];
      [Grant(r.id, r.owner, r.renew, r.timeout, t1)]
    else []
  }

  function Apply(s: State, e: Event): State {
    match e
    case Ask(m, t0, t1) =>
      var r := Request(s.records, m, t0, t1).0;
      State(r, s.log + Logged(r, m, t1), t1)
    case Free(m, t1) =>
      var (r, done) := Release(s.records, m);
      State(r, s.log + if done == 1 then [Freed(CString(m.lid), t1)] else [], t1)
  }

  function Init(now: int): State { State([], [], now) }

  ghost predicate Run(s: State, es: seq<Event>, t: State)
    decreases |es|
  {
    if es == [] then s == t else Enabled(s, es[0]) && Run(Apply(s, es[0]), es[1..], t)
  }

  ghost predicate Reachable(s: State) {
    exists es, now :: Run(Init(now), es, s)
  }

  // --------------------------------------------------------------- one record

  /** At most one record per id. */
  predicate Unique(records: seq<Doa>) {
    forall i, j :: 0 <= i < j < |records| ==> records[i].id != records[j].id
  }

  lemma CompareId(o: Doa, n: Doa, t1: int)
    ensures Compare(o, n, t1).Some? ==> Compare(o, n, t1).value.id == n.id
    ensures Compare(o, n, t1).Some? ==> Compare(o, n, t1).value.owner == n.owner
    ensures Compare(o, n, t1).Some? ==> Compare(o, n, t1).value.timeout == n.timeout
  {
  }

  lemma RequestUnique(records: seq<Doa>, m: Message, t0: int, t1: int)
    requires Unique(records)
    ensures Unique(Request(records, m, t0, t1).0)
  {
    var n := InitInfo(m, t0);
    var k := Find(records, n.id);
    if k.Some? { CompareId(records[k.value], n, t1); }
  }

  lemma ReleaseUnique(records: seq<Doa>, m: Message)
    requires Unique(records)
    ensures Unique(Release(records, m).0)
  {
  }

  // ---------------------------------------------------- records and the log

  /** The last entry of an id, or None. */
  function Last(log: seq<Entry>, id: Name): (k: Option<nat>)
    ensures k.Some? ==> k.value < |log| && log[k.value].id == id
    ensures k.Some? ==> forall i :: k.value < i < |log| ==> log[i].id != id
    ensures k.None? ==> forall i :: 0 <= i < |log| ==> log[i].id != id
  {
    if log == [] then None
    else if log[|log| - 1].id == id then Some(|log| - 1)
    else Last(log[..|log| - 1], id)
  }

  /** The record of an id is the last grant of it, and there is none after a release. */
  ghost predicate Agrees(records: seq<Doa>, log: seq<Entry>, id: Name) {
    match Last(log, id)
    case None => Find(records, id).None?
    case Some(k) =>
      if log[k].Freed? then Find(records, id).None?
      else
        var f := Find(records, id);
        && f.Some? && records[f.value].owner == log[k].owner
        && records[f.value].renew == log[k].renew && records[f.value].timeout == log[k].timeout
  }

  ghost predicate Inv(s: State) {
    && Unique(s.records)
    && (forall id :: Agrees(s.records, s.log, id))
    && (forall i :: 0 <= i < |s.log| ==> s.log[i].at <= s.now)
    && (forall i, j :: 0 <= i <= j < |s.log| ==> s.log[i].at <= s.log[j].at)
    && Handover(s.log)
  }

  /** i and j are entries of one id with no entry of it between. */
  ghost predicate Adjacent(log: seq<Entry>, i: nat, j: nat) {
    && i < j < |log| && log[i].id == log[j].id
    && forall k :: i < k < j ==> log[k].id != log[i].id
  }

  /** A grant that follows another owner's grant comes more than its timeout after its renewal. */
  ghost predicate Handover(log: seq<Entry>) {
    forall i: nat, j: nat :: Adjacent(log, i, j) && log[i].Grant? && log[j].Grant? && log[i].owner != log[j].owner ==>
      log[j].at - log[i].renew > log[i].timeout
  }

  lemma LastSnoc(log: seq<Entry>, e: Entry, id: Name)
    ensures Last(log + [e], id) == if e.id == id then Some(|log|) else Last(log, id)
  {
    assert (log + [e])[..|log|] == log;
  }

  lemma AdjacentIsLast(log: seq<Entry>, e: Entry, i: nat)
    requires Adjacent(log + [e], i, |log|)
    ensures Last(log, e.id) == Some(i)
  {
    var t := log + [e];
    assert forall k :: i < k < |log| ==> t[k].id == log[k].id;
    assert t[i] == log[i] && t[|log|] == e;
  }

  lemma HandoverSnoc(log: seq<Entry>, e: Entry)
    requires Handover(log)
    requires var k := Last(log, e.id);
      k.Some? && log[k.value].Grant? && e.Grant? && log[k.value].owner != e.owner ==>
        e.at - log[k.value].renew > log[k.value].timeout
    ensures Handover(log + [e])
  {
    var t := log + [e];
    forall i: nat, j: nat | Adjacent(t, i, j) && t[i].Grant? && t[j].Grant? && t[i].owner != t[j].owner
      ensures t[j].at - t[i].renew > t[i].timeout
    {
      if j == |log| {
        AdjacentIsLast(log, e, i);
      } else {
        assert t[i] == log[i] && t[j] == log[j];
        assert forall k :: i < k < j ==> t[k] == log[k];
        assert Adjacent(log, i, j);
      }
    }
  }

  // ------------------------------------------------------------------- steps

  /** The record of an id, if any. */
  function Record(records: seq<Doa>, id: Name): Option<Doa> {
    var k := Find(records, id);
    if k.Some? then Some(records[k.value]) else None
  }

  lemma RecordIs(records: seq<Doa>, id: Name, k: nat)
    requires Unique(records) && k < |records| && records[k].id == id
    ensures Record(records, id) == Some(records[k])
  {
  }

  /** What a request leaves behind. A request answers 1 exactly when the requester is the
      recorded owner afterwards; the other records stay as they are. */
  lemma RequestEffect(records: seq<Doa>, m: Message, t0: int, t1: int)
    requires Unique(records)
    ensures var (r, a) := Request(records, m, t0, t1);
      && (a.lock == 1 <==> Owns(r, m)) && (a.lock == 0 || a.lock == 1)
      && Record(r, CString(m.lid)).Some?
      && (a.lock == 1 ==> Record(r, CString(m.lid)).value.timeout == m.timeout)
      && a.owner == Record(r, CString(m.lid)).value.owner && a.timeout == Record(r, CString(m.lid)).value.timeout
  {
    var n := InitInfo(m, t0);
    var r := Request(records, m, t0, t1).0;
    RequestUnique(records, m, t0, t1);
    var f := Find(records, n.id);
    RecordIs(r, n.id, if f.Some? then f.value else |records|);
  }

  /** When a request is granted, and what renewal time it records. */
  lemma RequestGrants(records: seq<Doa>, m: Message, t0: int, t1: int)
    requires Unique(records)
    ensures var (r, a) := Request(records, m, t0, t1);
      match Record(records, CString(m.lid))
      case None => a.lock == 1 && Record(r, CString(m.lid)).Some? && Record(r, CString(m.lid)).value.renew == t0
      case Some(o) =>
        && (a.lock == 1 <==> o.owner == CString(m.vid) || t1 - o.renew > o.timeout)
        && Record(r, CString(m.lid)).Some?
        && (a.lock == 1 ==> Record(r, CString(m.lid)).value.renew == if o.owner == CString(m.vid) then t1 else t0)
        && (a.lock == 0 ==> Record(r, CString(m.lid)).value == o.(res := 0))
  {
    var n := InitInfo(m, t0);
    var r := Request(records, m, t0, t1).0;
    RequestUnique(records, m, t0, t1);
    var f := Find(records, n.id);
    RecordIs(r, n.id, if f.Some? then f.value else |records|);
  }

  lemma RequestPlaces(records: seq<Doa>, m: Message, t0: int, t1: int)
    ensures var r := Request(records, m, t0, t1).0;
      && |r| >= |records|
      && (forall i :: 0 <= i < |records| && records[i].id != CString(m.lid) ==> r[i] == records[i])
      && (forall i :: 0 <= i < |r| && r[i].id != CString(m.lid) ==> i < |records|)
      && (forall i :: 0 <= i < |records| ==> r[i].id == records[i].id)
  {
    var n := InitInfo(m, t0);
    var k := Find(records, n.id);
    if k.Some? { CompareId(records[k.value], n, t1); }
  }

  lemma RequestOthers(records: seq<Doa>, m: Message, t0: int, t1: int, id: Name)
    requires Unique(records) && id != CString(m.lid)
    ensures Record(Request(records, m, t0, t1).0, id) == Record(records, id)
  {
    hide Request, CString;
    RequestPlaces(records, m, t0, t1);
    var r := Request(records, m, t0, t1).0;
    RequestUnique(records, m, t0, t1);
    var f := Find(records, id);
    if f.Some? {
      RecordIs(r, id, f.value);
    }
  }

  /** A release succeeds exactly for the owner, and then the record is gone. */
  lemma ReleaseEffect(records: seq<Doa>, m: Message, id: Name)
    requires Unique(records)
    ensures var (r, done) := Release(records, m);
      && (done == 1 <==> Owns(records, m)) && (done == 0 || done == 1)
      && (done == 0 ==> r == records)
      && (done == 1 ==> Record(r, CString(m.lid)).None?)
      && (id != CString(m.lid) ==> Record(r, id) == Record(records, id))
  {
    var r := Release(records, m).0;
    ReleaseUnique(records, m);
    if Owns(records, m) {
      var k := Find(records, CString(m.lid)).value;
      forall i | 0 <= i < |r| ensures r[i].id != CString(m.lid) {
        assert r[i] == if i < k then records[i] else records[i + 1];
        assert if i < k then records[i].id != records[k].id else records[k].id != records[i + 1].id;
      }
      var f := Find(records, id);
      if id != CString(m.lid) && f.Some? {
        RecordIs(r, id, if f.value < k then f.value else f.value - 1);
      }
    }
  }

  /** Agreement says only that record and last entry match. */
  lemma AgreesByRecord(records: seq<Doa>, log: seq<Entry>, id: Name)
    ensures Agrees(records, log, id) <==>
      match Last(log, id)
      case None => Record(records, id).None?
      case Some(k) =>
        if log[k].Freed? then Record(records, id).None?
        else
          var r := Record(records, id);
          r.Some? && r.value.owner == log[k].owner && r.value.renew == log[k].renew && r.value.timeout == log[k].timeout
  {
  }

  lemma AskAgrees(s: State, e: Event, id: Name)
    requires Unique(s.records) && Agrees(s.records, s.log, id) && Enabled(s, e) && e.Ask?
    ensures Agrees(Apply(s, e).records, Apply(s, e).log, id)
  {
    hide Request, Unique, Handover, Find;
    assert s.log + [] == s.log;
    var r := Request(s.records, e.m, e.t0, e.t1).0;
    var x := CString(e.m.lid);
    AgreesByRecord(s.records, s.log, id);
    AgreesByRecord(r, Apply(s, e).log, id);
    RequestEffect(s.records, e.m, e.t0, e.t1);
    if Logged(r, e.m, e.t1) != [] {
      LastSnoc(s.log, Logged(r, e.m, e.t1)[0], id);
    }
    if id != x {
      RequestOthers(s.records, e.m, e.t0, e.t1, id);
    } else {
      RequestGrants(s.records, e.m, e.t0, e.t1);
    }
  }

  lemma AskHandover(s: State, e: Event)
    requires Inv(s) && Enabled(s, e) && e.Ask?
    ensures Handover(Apply(s, e).log)
  {
    hide Request, Unique, Handover, Find;
    assert s.log + [] == s.log;
    var r := Request(s.records, e.m, e.t0, e.t1).0;
    var x := CString(e.m.lid);
    RequestEffect(s.records, e.m, e.t0, e.t1);
    if Logged(r, e.m, e.t1) != [] {
      AgreesByRecord(s.records, s.log, x);
      assert Agrees(s.records, s.log, x);
      RequestGrants(s.records, e.m, e.t0, e.t1);
      HandoverSnoc(s.log, Logged(r, e.m, e.t1)[0]);
    }
  }

  lemma FreeAgrees(s: State, e: Event, id: Name)
    requires Inv(s) && Enabled(s, e) && e.Free?
    ensures Agrees(Apply(s, e).records, Apply(s, e).log, id)
  {
    hide Release, Unique, Handover, Find;
    assert s.log + [] == s.log;
    AgreesByRecord(s.records, s.log, id);
    AgreesByRecord(Apply(s, e).records, Apply(s, e).log, id);
    ReleaseEffect(s.records, e.m, id);
    LastSnoc(s.log, Freed(CString(e.m.lid), e.t1), id);
  }

  lemma FreeHandover(s: State, e: Event)
    requires Inv(s) && Enabled(s, e) && e.Free?
    ensures Handover(Apply(s, e).log)
  {
    hide Release, Unique, Handover, Find;
    assert s.log + [] == s.log;
    ReleaseEffect(s.records, e.m, []);
    HandoverSnoc(s.log, Freed(CString(e.m.lid), e.t1));
  }

  lemma StepInv(s: State, e: Event)
    requires Inv(s) && Enabled(s, e)
    ensures Inv(Apply(s, e))
  {
    hide Request, Release, Unique, Handover, Agrees, Find;
    forall id ensures Agrees(Apply(s, e).records, Apply(s, e).log, id) {
      if e.Ask? { AskAgrees(s, e, id); } else { FreeAgrees(s, e, id); }
    }
    if e.Ask? {
      RequestUnique(s.records, e.m, e.t0, e.t1);
      RequestEffect(s.records, e.m, e.t0, e.t1);
      AskHandover(s, e);
    } else {
      ReleaseUnique(s.records, e.m);
      FreeHandover(s, e);
    }
  }

  lemma {:induction false} RunInv(s: State, es: seq<Event>, t: State)
    requires Run(s, es, t) && Inv(s)
    ensures Inv(t)
    decreases |es|
  {
    hide Inv, Apply, Enabled;
    if es != [] {
      StepInv(s, es[0]);
      RunInv(Apply(s, es[0]), es[1..], t);
    }
  }

  lemma InitInv(now: int)
    ensures Inv(Init(now))
  {
    forall id ensures Agrees([], [], id) { AgreesByRecord([], [], id); }
  }

  lemma ReachableInv(s: State)
    requires Reachable(s)
    ensures Inv(s)
  {
    hide Apply, Enabled;
    var es, now :| Run(Init(now), es, s);
    InitInv(now);
    RunInv(Init(now), es, s);
  }

  // ------------------------------------------------------------ main theorems

  lemma OneRecordPerId(s: State, i: nat, j: nat)
    requires Reachable(s) && i < |s.records| && j < |s.records| && s.records[i].id == s.records[j].id
    ensures i == j
  {
    hide Reachable;
    ReachableInv(s);
  }

  lemma NextEntry(log: seq<Entry>, i: nat, j: nat) returns (k: nat)
    requires i < j < |log| && log[i].id == log[j].id
    ensures i < k <= j && Adjacent(log, i, k)
    decreases j - i
  {
    k := i + 1;
    while log[k].id != log[i].id
      invariant i < k <= j && forall l :: i < l < k ==> log[l].id != log[i].id
      decreases j - k
    {
      k := k + 1;
    }
  }

  /** The last grant in i's unbroken row of grants to one owner, before the owner changes. */
  lemma {:induction false} LastOfOwner(log: seq<Entry>, i: nat, j: nat) returns (k: nat, l: nat)
    requires i < j < |log| && log[i].id == log[j].id && log[i].Grant? && log[j].Grant? && log[i].owner != log[j].owner
    requires forall n :: i < n < j && log[n].id == log[i].id ==> log[n].Grant?
    ensures i <= k < l <= j && Adjacent(log, k, l) && log[k].id == log[i].id && log[k].Grant? && log[l].Grant?
    ensures log[k].owner == log[i].owner && log[l].owner != log[i].owner
    decreases j - i
  {
    l := NextEntry(log, i, j);
    k := i;
    if log[l].owner == log[i].owner { k, l := LastOfOwner(log, l, j); }
  }

  /** Lease exclusion, in every run: when two grants of one lock to different owners have no
      release between them, the first owner's last grant before it lost the lock recorded a
      renewal, and the clock at the second grant is more than that grant's timeout beyond it. */
  lemma LeaseExclusion(s: State, i: nat, j: nat)
    requires Reachable(s) && i < j < |s.log| && s.log[i].id == s.log[j].id
    requires s.log[i].Grant? && s.log[j].Grant? && s.log[i].owner != s.log[j].owner
    requires forall n :: i < n < j && s.log[n].id == s.log[i].id ==> s.log[n].Grant?
    ensures exists k :: (&& i <= k < j && s.log[k].Grant? && s.log[k].id == s.log[i].id
                         && s.log[k].owner == s.log[i].owner && s.log[j].at - s.log[k].renew > s.log[k].timeout)
  {
    hide Reachable, Unique, Agrees;
    ReachableInv(s);
    var k, l := LastOfOwner(s.log, i, j);
    assert s.log[l].at <= s.log[j].at;
  }

  /** Another owner's request at t2 after any kind of grant: fresh, takeover or renewal. */
  lemma SecondRequest(records: seq<Doa>, a: Message, b: Message, t0: int, t1: int, u0: int, t2: int)
    requires Unique(records) && Request(records, a, t0, t1).1.lock == 1
    requires CString(a.lid) == CString(b.lid) && CString(a.vid) != CString(b.vid)
    ensures Request(Request(records, a, t0, t1).0, b, u0, t2).1.lock == 1 <==>
      t2 - (if Owns(records, a) then t1 else t0) > a.timeout
  {
    hide Request, Find;
    var r := Request(records, a, t0, t1).0;
    RequestUnique(records, a, t0, t1);
    RequestGrants(records, a, t0, t1);
    RequestEffect(records, a, t0, t1);
    RequestGrants(r, b, u0, t2);
    RequestEffect(r, b, u0, t2);
  }

  /** A renewal records the time t1 of the grant; a lock that is taken fresh or taken over records
      the time t0 before its request got the list lock. So, for every grant: the lock is kept from
      every other owner for its whole timeout after the grant if and only if it was a renewal or
      the request did not have to wait into a later second. */
  lemma FullLeaseIff(records: seq<Doa>, a: Message, b: Message, t0: int, t1: int)
    requires Unique(records) && Request(records, a, t0, t1).1.lock == 1 && t0 <= t1
    requires CString(a.lid) == CString(b.lid) && CString(a.vid) != CString(b.vid)
    ensures var r := Request(records, a, t0, t1).0;
      (forall u0, t2 :: t1 <= t2 <= t1 + a.timeout ==> Request(r, b, u0, t2).1.lock != 1) <==>
        Owns(records, a) || t0 == t1
  {
    hide Request, Unique, Owns;
    var r := Request(records, a, t0, t1).0;
    forall u0, t2
      ensures Request(r, b, u0, t2).1.lock == 1 <==> t2 - (if Owns(records, a) then t1 else t0) > a.timeout
    {
      SecondRequest(records, a, b, t0, t1, u0, t2);
    }
    if t0 < t1 && !Owns(records, a) {
      assert Request(r, b, t1, t1 + a.timeout).1.lock == 1;
    }
  }

  /** In every run a check answers from the last thing that happened to the lock: 1 with the owner and
      the timeout of that grant, or 0 with the requester's own name and timeout if the lock was
      released or never granted. */
  lemma CheckAnswers(s: State, m: Message)
    requires Reachable(s)
    ensures var k := Last(s.log, CString(m.lid));
      Check(s.records, m) ==
        if k.Some? && s.log[k.value].Grant? then Answer(1, s.log[k.value].owner, s.log[k.value].timeout)
        else Answer(0, CString(m.vid), m.timeout)
    ensures var k, d := Last(s.log, CString(m.lid)), Record(s.records, CString(m.lid));
      d.Some? ==> k.Some? && s.log[k.value].Grant? && d.value.renew == s.log[k.value].renew
  {
    hide Reachable, Unique, Handover;
    ReachableInv(s);
    assert Agrees(s.records, s.log, CString(m.lid));
  }

  // ------------------------------------------------------ first and last renewal

  /** The first grant of the unbroken row of grants to one owner that ends at k. */
  function FirstOf(log: seq<Entry>, k: nat): (j: nat)
    requires k < |log| && log[k].Grant?
    ensures j <= k && log[j].Grant? && log[j].id == log[k].id && log[j].owner == log[k].owner
  {
    var p := Last(log[..k], log[k].id);
    if p.Some? && log[p.value].Grant? && log[p.value].owner == log[k].owner then FirstOf(log, p.value) else k
  }

  /** The entry before k in that row, or k itself. */
  function Before(log: seq<Entry>, k: nat): (j: nat)
    requires k < |log| && log[k].Grant?
    ensures j <= k && log[j].Grant?
  {
    var p := Last(log[..k], log[k].id);
    if p.Some? && log[p.value].Grant? && log[p.value].owner == log[k].owner then p.value else k
  }

  lemma {:induction false} FirstOfPrefix(log: seq<Entry>, rest: seq<Entry>, k: nat)
    requires k < |log| && log[k].Grant?
    ensures FirstOf(log + rest, k) == FirstOf(log, k) && Before(log + rest, k) == Before(log, k)
    decreases k
  {
    assert (log + rest)[..k] == log[..k];
    var p := Last(log[..k], log[k].id);
    if p.Some? && log[p.value].Grant? && log[p.value].owner == log[k].owner { FirstOfPrefix(log, rest, p.value); }
  }

  /** A record's initial time is the renewal recorded when its owner got the lock, its last renewal
      the one before the present one. */
  ghost predicate Dated(records: seq<Doa>, log: seq<Entry>, id: Name) {
    var k, d := Last(log, id), Record(records, id);
    k.Some? && log[k.value].Grant? && d.Some? ==>
      d.value.init == log[FirstOf(log, k.value)].renew && d.value.lastRenew == log[Before(log, k.value)].renew
  }

  lemma RequestTimes(records: seq<Doa>, m: Message, t0: int, t1: int)
    requires Unique(records)
    ensures var (r, a) := Request(records, m, t0, t1);
      var d, o := Record(r, CString(m.lid)), Record(records, CString(m.lid));
      d.Some? && (
        if Owns(records, m) then d.value.init == o.value.init && d.value.lastRenew == o.value.renew
        else if a.lock == 1 then d.value.init == d.value.lastRenew == d.value.renew
        else d.value.init == o.value.init && d.value.lastRenew == o.value.lastRenew)
  {
    var n := InitInfo(m, t0);
    var r := Request(records, m, t0, t1).0;
    RequestUnique(records, m, t0, t1);
    var f := Find(records, n.id);
    RecordIs(r, n.id, if f.Some? then f.value else |records|);
  }

  /** Entries of other locks, and requests that were refused, leave the dates alone. */
  lemma DatedSame(records: seq<Doa>, r: seq<Doa>, log: seq<Entry>, rest: seq<Entry>, id: Name)
    requires Dated(records, log, id) && Last(log + rest, id) == Last(log, id)
    requires var d, o := Record(r, id), Record(records, id);
      d.Some? ==> o.Some? && d.value.init == o.value.init && d.value.lastRenew == o.value.lastRenew
    ensures Dated(r, log + rest, id)
  {
    var k := Last(log, id);
    if k.Some? && log[k.value].Grant? { FirstOfPrefix(log, rest, k.value); }
  }

  /** A grant extends the owner's row or begins a new one. */
  lemma GrantDated(s: State, m: Message, t0: int, t1: int)
    requires Unique(s.records) && Agrees(s.records, s.log, CString(m.lid)) && Dated(s.records, s.log, CString(m.lid))
    requires Request(s.records, m, t0, t1).1.lock == 1
    ensures var r := Request(s.records, m, t0, t1).0; Dated(r, s.log + Logged(r, m, t1), CString(m.lid))
  {
    hide Request, Unique, Find;
    var id, r := CString(m.lid), Request(s.records, m, t0, t1).0;
    RequestEffect(s.records, m, t0, t1);
    var e := Logged(r, m, t1)[0];
    RequestTimes(s.records, m, t0, t1);
    RequestGrants(s.records, m, t0, t1);
    AgreesByRecord(s.records, s.log, id);
    LastSnoc(s.log, e, id);
    assert (s.log + [e])[..|s.log|] == s.log;
    var k := Last(s.log, id);
    if k.Some? && s.log[k.value].Grant? { FirstOfPrefix(s.log, [e], k.value); }
  }

  lemma AskDated(s: State, e: Event, id: Name)
    requires Inv(s) && Dated(s.records, s.log, id) && Enabled(s, e) && e.Ask?
    ensures Dated(Apply(s, e).records, Apply(s, e).log, id)
  {
    hide Request, Unique, Find, Handover, Dated;
    var r := Request(s.records, e.m, e.t0, e.t1).0;
    var rest := Logged(r, e.m, e.t1);
    RequestEffect(s.records, e.m, e.t0, e.t1);
    assert Agrees(s.records, s.log, CString(e.m.lid));
    assert s.log + [] == s.log;
    if id != CString(e.m.lid) {
      RequestOthers(s.records, e.m, e.t0, e.t1, id);
      if rest != [] { LastSnoc(s.log, rest[0], id); }
      DatedSame(s.records, r, s.log, rest, id);
    } else if Request(s.records, e.m, e.t0, e.t1).1.lock == 1 {
      GrantDated(s, e.m, e.t0, e.t1);
    } else {
      RequestTimes(s.records, e.m, e.t0, e.t1);
      RequestGrants(s.records, e.m, e.t0, e.t1);
      DatedSame(s.records, r, s.log, rest, id);
    }
  }

  lemma FreeDated(s: State, e: Event, id: Name)
    requires Inv(s) && Dated(s.records, s.log, id) && Enabled(s, e) && e.Free?
    ensures Dated(Apply(s, e).records, Apply(s, e).log, id)
  {
    hide Release, Unique, Find, Handover, Agrees;
    var (r, done) := Release(s.records, e.m);
    var f := Freed(CString(e.m.lid), e.t1);
    ReleaseEffect(s.records, e.m, id);
    LastSnoc(s.log, f, id);
    assert s.log + [] == s.log;
    if done == 1 && id != f.id { DatedSame(s.records, r, s.log, [f], id); }
  }

  lemma {:induction false} DatedRun(s: State, es: seq<Event>, t: State, id: Name)
    requires Run(s, es, t) && Inv(s) && Dated(s.records, s.log, id)
    ensures Dated(t.records, t.log, id)
    decreases |es|
  {
    hide Inv, Apply, Enabled, Dated;
    if es != [] {
      StepInv(s, es[0]);
      if es[0].Ask? { AskDated(s, es[0], id); } else { FreeDated(s, es[0], id); }
      DatedRun(Apply(s, es[0]), es[1..], t, id);
    }
  }

  /** In every run. */
  lemma DatesExact(s: State, id: Name)
    requires Reachable(s)
    ensures Dated(s.records, s.log, id)
  {
    hide Apply, Enabled;
    var es, now :| Run(Init(now), es, s);
    InitInv(now);
    DatedRun(Init(now), es, s, id);
  }
}
