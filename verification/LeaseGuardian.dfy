/** The guardian's list of lock records, searched and replaced in place. */
module LeaseGuardian {
  import opened Common
  import opened Lease

  class Guardian {
    var records: seq<Doa>

    constructor ()
      ensures records == []
    {
      records := [];
    }

    /** Walks the list; |records| when there is no such id. */
    method CheckDoa(lid: Name) returns (k: nat)
      ensures Find(records, CString(lid)) == if k < |records| then Some(k) else None
      ensures k <= |records|
    {
      k := 0;
      while k < |records| && records[k].id != CString(lid)
        invariant k <= |records| && Find(records[..k], CString(lid)).None?
      {
        assert records[..k + 1][..k] == records[..k];
        k := k + 1;
      }
      if k == |records| {
        assert records[..k] == records;
      }
    }

    /** The answer's hold time is the time since the recorded renewal, by a third clock reading. */
    method Request(m: Message, t0: int, t1: int, t2: int) returns (a: Answer, hold: int)
      modifies this
      ensures (records, a) == Lease.Request(old(records), m, t0, t1)
      ensures Record(records, CString(m.lid)).Some? && hold == t2 - Record(records, CString(m.lid)).value.renew
    {
      var n := InitInfo(m, t0);
      var k := CheckDoa(m.lid);
      var ret := n;
      if k == |records| {
        records := records + [n];
      } else {
        match Compare(records[k], n, t1)
        case Some(d) =>
          records := records[k := d];
          ret := d;
        case None =>
          ret := records[k].(res := 0);
          records := records[k := ret];
      }
      a := Answer(ret.res, ret.owner, ret.timeout);
      hold := t2 - ret.renew;
      FirstIs(records, n.id, k);
    }

    method Release(m: Message) returns (lock: nat)
      modifies this
      ensures (records, lock) == Lease.Release(old(records), m)
    {
      lock := 0;
      var k := CheckDoa(m.lid);
      if k < |records| && records[k].owner == CString(m.vid) {
        records := records[..k] + records[k + 1..];
        lock := 1;
      }
    }

    /** Without a record the message keeps the hold time it came with. */
    method Check(m: Message, hold0: int, t: int) returns (a: Answer, hold: int)
      ensures a == Lease.Check(records, m)
      ensures hold == match Record(records, CString(m.lid)) case Some(d) => t - d.renew case None => hold0
    {
      var k := CheckDoa(m.lid);
      if k < |records| {
        a, hold := Answer(1, records[k].owner, records[k].timeout), t - records[k].renew;
      } else {
        a, hold := Answer(0, CString(m.vid), m.timeout), hold0;
      }
    }
  }

  lemma FirstIs(records: seq<Doa>, id: Name, k: nat)
    requires k < |records| && records[k].id == id && forall i :: 0 <= i < k ==> records[i].id != id
    ensures Record(records, id) == Some(records[k])
  {
    assert Find(records, id).Some?;
  }
}
