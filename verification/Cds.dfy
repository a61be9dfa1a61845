/** The cyclic data stream: a ring of pages addressed by an ever growing sequence number.
    Shifts and masks by powers of two are written as division and remainder. */
module Cds {
  import opened Arith
  import opened Common

  const TWO32: int := 0x1_0000_0000

  datatype Config = Config(pagenr: nat, pagesz: nat)

  predicate Ok(c: Config) {
    2 <= c.pagenr <= 16 && 2 <= c.pagesz <= 0x200_0000
  }

  /** The page size is a power of two, so that a mask can round to it. */
  predicate Maskable(c: Config) {
    exists k: nat :: k <= 25 && c.pagesz == Pow2(k)
  }

  lemma Pow2Values()
    ensures Pow2(1) == 2 && Pow2(4) == 16 && Pow2(25) == 0x200_0000 && Pow2(29) == 0x2000_0000
    ensures Pow2(32) == TWO32
  {
    assert Pow2(4) == 16;
    Pow2Adds(4, 4);
    Pow2Adds(8, 8);
    Pow2Adds(16, 8);
    Pow2Adds(24, 4);
    Pow2Adds(16, 16);
  }

  /** Shifts that are zero or too large are replaced by the defaults. */
  function Initialization(nrShift: nat, szShift: nat): Config {
    Config(Pow2(if 0 < nrShift <= 4 then nrShift else 4), Pow2(if 0 < szShift <= 25 then szShift else 23))
  }

  /** Whatever the setup asks for, the geometry is usable and the buffer size fits 32 bits. */
  lemma InitializationOk(nrShift: nat, szShift: nat)
    ensures var c := Initialization(nrShift, szShift); Ok(c) && Maskable(c) && c.pagenr * c.pagesz < TWO32
  {
    var a, k := if 0 < nrShift <= 4 then nrShift else 4, if 0 < szShift <= 25 then szShift else 23;
    Pow2Values();
    Pow2Grows(1, a); Pow2Grows(a, 4);
    Pow2Grows(1, k); Pow2Grows(k, 25);
    Pow2Adds(a, k); Pow2Grows(a + k, 29);
  }

  /** A shift in range gives its power of two; otherwise there are 16 pages, of 8 MiB. */
  lemma InitializationIs(nrShift: nat, szShift: nat)
    ensures var c := Initialization(nrShift, szShift);
      && c.pagenr == (if 1 <= nrShift <= 4 then Pow2(nrShift) else 16)
      && c.pagesz == (if 1 <= szShift <= 25 then Pow2(szShift) else 0x80_0000)
  {
    Pow2Values();
    assert Pow2(24) == 2 * Pow2(23) && Pow2(25) == 2 * Pow2(24);
  }

  /** A channel. `stream` is every byte ever confirmed, `returned` the sequence numbers given
      back, `gen` the number of the page being filled, `lent` how much of it the writer may
      still fill, `waiting` that the writer moved to a page that it has not got yet. */
  datatype Channel = Channel(
    buf: seq<Byte>, inUse: seq<bool>, occupied: seq<nat>, page: nat, pos: nat, sequence: nat, stop: bool,
    waiting: bool, gen: nat, lent: nat, stream: seq<Byte>, returned: set<nat>)

  function CreateWorker(c: Config): Channel
    requires Ok(c)
  {
    Channel(seq(c.pagenr * c.pagesz, i => 0), seq(c.pagenr, i => i == 0), seq(c.pagenr, i => 0), 0, 0, 0, false,
            false, 0, 0, [], {})
  }

  datatype Buffer = Lent(start: nat, len: nat) | Wait | Null

  function Advance(c: Config, s: Channel): Channel {
    if !s.waiting && s.pos == c.pagesz then
      s.(page := if s.page + 1 == c.pagenr then 0 else s.page + 1, pos := 0,
         waiting := true, gen := s.gen + 1, lent := 0)
    else s
  }

  /** Wait is a sleep on the condition variable; the writer then tries again. After a stop the
      writer leaves with Null and the page it moved to is not marked. */
  function Take(c: Config, s: Channel): (Channel, Buffer)
    requires s.page < |s.inUse| && s.pos <= c.pagesz
  {
    if s.waiting && s.stop then (s.(waiting := false), Null)
    else if s.waiting && s.inUse[s.page] then (s, Wait)
    else
      var len := c.pagesz - s.pos;
      (s.(inUse := if s.waiting then s.inUse[s.page := true] else s.inUse, waiting := false, lent := len),
       Lent(s.page * c.pagesz + s.pos, len))
  }

  function GetBuffer(c: Config, s: Channel): (Channel, Buffer)
    requires Shape(c, s)
  {
    Take(c, Advance(c, s))
  }

  /** Where the next byte goes. */
  function Place(c: Config, s: Channel): (a: nat)
    requires Shape(c, s)
    ensures a + s.lent <= |s.buf|
  {
    PageFits(c, s);
    s.page * c.pagesz + s.pos
  }

  /** The writer stores a byte in the part of the page lent to it. */
  function Fill(c: Config, s: Channel, i: nat, b: Byte): (t: Channel)
    requires Shape(c, s) && i < s.lent
    ensures Shape(c, t)
  {
    s.(buf := s.buf[Place(c, s) + i := b])
  }

  function Confirm(c: Config, s: Channel, len: nat): (t: Channel)
    requires Shape(c, s) && len <= s.lent
    ensures Shape(c, t)
  {
    s.(sequence := s.sequence + len, pos := s.pos + len, lent := s.lent - len,
       stream := s.stream + s.buf[Place(c, s)..Place(c, s) + len])
  }

  function AddU32(x: nat, y: nat): nat {
    (x + y) % TWO32
  }

  function PageIdx(c: Config, q: nat): (i: nat)
    requires Ok(c)
    ensures i < c.pagenr
  {
    q / c.pagesz % c.pagenr
  }

  /** The page that holds an address of the buffer. */
  function PageAt(c: Config, addr: nat): (i: nat)
    requires Ok(c) && addr < c.pagenr * c.pagesz
    ensures i < c.pagenr
  {
    AddressPage(c, addr);
    addr / c.pagesz
  }

  function FreePage(c: Config, s: Channel, i: nat): (t: Channel)
    requires i < |s.occupied| && i < |s.inUse|
    ensures |t.occupied| == |s.occupied| && |t.inUse| == |s.inUse|
  {
    if s.occupied[i] == c.pagesz then s.(occupied := s.occupied[i := 0], inUse := s.inUse[i := false]) else s
  }

  /** (start | (pagesz - 1)) - start + 1 */
  function FirstPart(c: Config, start: nat): int
    requires Ok(c)
  {
    (start / c.pagesz * c.pagesz + (c.pagesz - 1)) - start + 1
  }

  /** end - (end & pageszmask) + 1; the mask is 32 bits wide, so it also clears the high half. */
  function SecondPart(c: Config, end: nat): (n: int)
    requires Ok(c)
    ensures n >= 0
  {
    MaskBelow(c, end);
    end - end % TWO32 / c.pagesz * c.pagesz + 1
  }

  /** The sequence numbers start .. start + len - 1. */
  function Interval(start: nat, len: nat): (r: set<nat>)
    ensures |r| == len
    ensures forall q :: q in r <==> start <= q < start + len
  {
    if len == 0 then {} else Interval(start, len - 1) + {start + len - 1}
  }

  function PutBuffer(c: Config, s: Channel, start: nat, len: nat): (t: Channel)
    requires Shape(c, s) && 1 <= len
    ensures |t.occupied| == |s.occupied| && |t.inUse| == |s.inUse|
  {
    var end := start + len - 1;
    var i, j := PageIdx(c, start), PageIdx(c, end);
    FirstPartIs(c, start);
    var occ :=
      if i == j then s.occupied[i := AddU32(s.occupied[i], len)]
      else var o := s.occupied[i := AddU32(s.occupied[i], FirstPart(c, start))];
           o[j := AddU32(o[j], SecondPart(c, end))];
    var t := FreePage(c, s.(occupied := occ, returned := s.returned + Interval(start, len)), i);
    if i == j then t else FreePage(c, t, j)
  }

  /** The same, given an address in the buffer. */
  function PutBuffer2(c: Config, s: Channel, addr: nat, len: nat): (t: Channel)
    requires Shape(c, s) && addr < c.pagenr * c.pagesz
    ensures |t.occupied| == |s.occupied| && |t.inUse| == |s.inUse|
  {
    var i := PageAt(c, addr);
    FreePage(c, s.(occupied := s.occupied[i := AddU32(s.occupied[i], len)]), i)
  }

  predicate Ready(s: Channel, q: nat) {
    s.sequence >= q
  }

  function Position(c: Config, q: nat): (a: nat)
    requires Ok(c)
    ensures a < c.pagenr * c.pagesz
  {
    WrapAddress(q, c.pagenr, c.pagesz);
    q % (c.pagenr * c.pagesz)
  }

  function PositionLength(c: Config, start: nat, len: nat): (int, int)
    requires Ok(c)
  {
    var n := FirstPart(c, start);
    (Position(c, start), if PageIdx(c, start) == c.pagenr - 1 && n < len then n else len)
  }

  // ------------------------------------------------------------ arithmetic

  predicate Shape(c: Config, s: Channel) {
    && Ok(c)
    && |s.buf| == c.pagenr * c.pagesz && |s.inUse| == |s.occupied| == c.pagenr
    && s.page < c.pagenr && s.pos + s.lent <= c.pagesz
  }

  lemma PageFits(c: Config, s: Channel)
    requires Shape(c, s)
    ensures 0 <= s.page * c.pagesz && s.page * c.pagesz + c.pagesz <= |s.buf|
  {
    PageRoom(s.page, c.pagenr, c.pagesz);
  }

  lemma FloorTo(x: nat, z: nat)
    requires z > 0
    ensures 0 <= x / z * z <= x
  {
  }

  lemma MaskBelow(c: Config, end: nat)
    requires Ok(c)
    ensures 0 <= end % TWO32 / c.pagesz * c.pagesz <= end
  {
    FloorTo(end % TWO32, c.pagesz);
  }

  lemma AddressPage(c: Config, addr: nat)
    requires Ok(c) && addr < c.pagenr * c.pagesz
    ensures 0 <= addr / c.pagesz < c.pagenr
  {
    PageBelow(addr, c.pagesz, c.pagenr);
  }

  lemma FirstPartIs(c: Config, start: nat)
    requires Ok(c)
    ensures FirstPart(c, start) == c.pagesz - start % c.pagesz > 0
  {
  }

  lemma MaskDivides(c: Config)
    requires Maskable(c)
    ensures c.pagesz > 0 && TWO32 % c.pagesz == 0
  {
    var k: nat :| k <= 25 && c.pagesz == Pow2(k);
    Pow2Values();
    Pow2Adds(32 - k, k);
    DivModIs(TWO32, Pow2(k), Pow2(32 - k), 0);
  }

  /** The high half of a number does not change its place in its page. */
  lemma LowPage(h: nat, x: nat, z: int, w: int)
    requires z > 0 && w > 0 && w % z == 0
    ensures (h * w + x) % z == x % z
  {
    var m, k := w / z, x / z;
    assert w == m * z;
    assert (h * m + k) * z == h * w + k * z by {
      assert (h * m + k) * z == (h * m) * z + k * z;
      assert (h * m) * z == h * (m * z);
    }
    DivModIs(h * w + x, z, h * m + k, x % z);
  }

  /** Modulo 2^32 the narrow mask makes no difference. */
  lemma SecondPartIs(c: Config, end: nat)
    requires Ok(c) && Maskable(c)
    ensures SecondPart(c, end) % TWO32 == end % c.pagesz + 1
  {
    var z, h, x := c.pagesz, end / TWO32, end % TWO32;
    assert z > 0 && TWO32 % z == 0 by { MaskDivides(c); }
    hide Maskable;
    LowPage(h, x, z, TWO32);
    assert SecondPart(c, end) == h * TWO32 + (x % z + 1);
    DivModIs(SecondPart(c, end), TWO32, h, x % z + 1);
  }
}
