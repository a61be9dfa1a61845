/** The channel as the program keeps it: page arrays and cursors updated in place. */
module CdsDevice {
  import opened Common
  import opened Cds

  class CdsChannel {
    const config: Config
    const buf: array<Byte>
    const inUse: array<bool>
    const occupied: array<nat>
    var page: nat
    var pos: nat
    var sequence: nat
    var stop: bool
    var waiting: bool
    ghost var gen: nat
    ghost var lent: nat
    ghost var stream: seq<Byte>
    ghost var returned: set<nat>

    ghost function View(): Channel
      reads this, buf, inUse, occupied
    {
      Channel(buf[..], inUse[..], occupied[..], page, pos, sequence, stop, waiting, gen, lent, stream, returned)
    }

    ghost predicate Valid()
      reads this, buf, inUse, occupied
    {
      Shape(config, View())
    }

    constructor (c: Config)
      requires Ok(c)
      ensures Valid() && config == c && View() == CreateWorker(c)
      ensures fresh(buf) && fresh(inUse) && fresh(occupied)
    {
      Arith.InsidePages(0, c.pagenr, c.pagesz, 0);
      var size: nat := c.pagenr * c.pagesz;
      config := c;
      buf := new Byte[size](i => 0);
      inUse := new bool[c.pagenr](i => i == 0);
      occupied := new nat[c.pagenr](i => 0);
      page, pos, sequence, stop, waiting := 0, 0, 0, false, false;
      gen, lent, stream, returned := 0, 0, [], {};
      new;
      assert buf[..] == CreateWorker(c).buf;
      assert inUse[..] == CreateWorker(c).inUse;
      assert occupied[..] == CreateWorker(c).occupied;
    }

    method NextPage()
      requires Valid()
      modifies this
      ensures Valid() && View() == Advance(config, old(View()))
    {
      if !waiting && pos == config.pagesz {
        page := page + 1;
        if page == config.pagenr { page := 0; }
        pos, waiting, gen, lent := 0, true, gen + 1, 0;
      }
    }

    /** One pass of the writer: Wait stands for the sleep, after which it calls again. */
    method GetBuffer() returns (r: Buffer)
      requires Valid()
      modifies this, inUse
      ensures Valid() && (View(), r) == Cds.GetBuffer(config, old(View()))
    {
      hide Ok, Advance;
      NextPage();
      if waiting {
        if stop {
          waiting := false;
          return Null;
        }
        if inUse[page] { return Wait; }
        inUse[page] := true;
        waiting := false;
      }
      lent := config.pagesz - pos;
      r := Lent(page * config.pagesz + pos, config.pagesz - pos);
    }

    method Confirm(len: nat)
      requires Valid() && len <= lent
      modifies this
      ensures Valid() && View() == Cds.Confirm(config, old(View()), len)
    {
      hide Ok, Place;
      stream := stream + buf[Place(config, View())..Place(config, View()) + len];
      sequence, pos, lent := sequence + len, pos + len, lent - len;
    }

    method TryToFreePage(i: nat) returns (rc: int)
      requires Valid() && i < config.pagenr
      modifies inUse, occupied
      ensures Valid() && View() == FreePage(config, old(View()), i)
      ensures rc == if old(occupied[i]) > config.pagesz then -1 else 0
    {
      hide Ok;
      if occupied[i] > config.pagesz { return -1; }
      if occupied[i] == config.pagesz {
        occupied[i] := 0;
        inUse[i] := false;
      }
      return 0;
    }

    method PutBuffer(start: nat, len: nat)
      requires Valid() && 1 <= len
      modifies this`returned, inUse, occupied
      ensures Valid() && View() == Cds.PutBuffer(config, old(View()), start, len)
    {
      hide Ok, PageIdx, FirstPart, SecondPart, AddU32, Interval, FreePage;
      FirstPartIs(config, start);
      var end := start + len - 1;
      var i, j := PageIdx(config, start), PageIdx(config, end);
      if i == j {
        occupied[i] := AddU32(occupied[i], len);
      } else {
        occupied[i] := AddU32(occupied[i], FirstPart(config, start));
        occupied[j] := AddU32(occupied[j], SecondPart(config, end));
      }
      returned := returned + Interval(start, len);
      var rc := TryToFreePage(i);
      if j != i { rc := TryToFreePage(j); }
    }

    method PutBuffer2(addr: nat, len: nat)
      requires Valid() && addr < config.pagenr * config.pagesz
      modifies inUse, occupied
      ensures Valid() && View() == Cds.PutBuffer2(config, old(View()), addr, len)
    {
      hide Ok, FreePage, AddU32;
      AddressPage(config, addr);
      var i := addr / config.pagesz;
      occupied[i] := AddU32(occupied[i], len);
      var rc := TryToFreePage(i);
    }
  }
}
