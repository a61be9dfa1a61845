/** The tagged-item messages of mpk.c and mpk_subr.c: what the encoder writes and the decoder
    reads. A message's optional fields are a map from item tags to values; a tag that is not in
    the map is a field that is not present. */
module Codec {
  import opened Common

  // ---------------------------------------------------------------- numbers

  function Pow256(w: nat): (p: nat)
    ensures p > 0
  {
    if w == 0 then 1 else 256 * Pow256(w - 1)
  }

  /** w bytes, most significant first. */
  function BigEndian(n: nat, w: nat): (s: seq<Byte>)
    ensures |s| == w
  {
    if w == 0 then [] else BigEndian(n / 256, w - 1) + [n % 256]
  }

  function FromBigEndian(s: seq<Byte>): nat {
    if s == [] then 0 else FromBigEndian(s[..|s| - 1]) * 256 + s[|s| - 1]
  }

  lemma {:induction false} BigEndianInverse(n: nat, w: nat)
    requires n < Pow256(w)
    ensures FromBigEndian(BigEndian(n, w)) == n
  {
    if w > 0 {
      BigEndianInverse(n / 256, w - 1);
      var s := BigEndian(n, w);
      assert s[..w - 1] == BigEndian(n / 256, w - 1);
    }
  }

  /** w bytes, least significant first: a value stored as the little-endian host keeps it. */
  function LittleEndian(n: nat, w: nat): (s: seq<Byte>)
    ensures |s| == w
  {
    if w == 0 then [] else [n % 256] + LittleEndian(n / 256, w - 1)
  }

  function FromLittleEndian(s: seq<Byte>): nat {
    if s == [] then 0 else s[0] + 256 * FromLittleEndian(s[1..])
  }

  lemma {:induction false} LittleEndianInverse(n: nat, w: nat)
    requires n < Pow256(w)
    ensures FromLittleEndian(LittleEndian(n, w)) == n
  {
    if w > 0 {
      LittleEndianInverse(n / 256, w - 1);
      assert LittleEndian(n, w)[1..] == LittleEndian(n / 256, w - 1);
    }
  }

  // ----------------------------------------------------------------- values

  /** How an item's value is laid out: a number of some width, big endian or as the host stores
      it, or counted bytes with a count of one or two bytes. */
  datatype Kind = Be(width: nat) | Host(width: nat) | Counted(prefix: nat)

  datatype Value = Num(n: nat) | Bytes(s: seq<Byte>)

  predicate Fits(k: Kind, v: Value) {
    match k
    case Be(w) => v.Num? && v.n < Pow256(w)
    case Host(w) => v.Num? && v.n < Pow256(w)
    case Counted(w) => v.Bytes? && |v.s| < Pow256(w)
  }

  function EncodeValue(k: Kind, v: Value): (r: seq<Byte>)
    requires Fits(k, v)
    ensures |r| == if k.Counted? then k.prefix + |v.s| else k.width
  {
    match k
    case Be(w) => BigEndian(v.n, w)
    case Host(w) => LittleEndian(v.n, w)
    case Counted(w) => BigEndian(|v.s|, w) + v.s
  }

  /** The value at the head of b, and how many bytes it takes; None when b ends too early. */
  function DecodeValue(k: Kind, b: seq<Byte>): (r: Option<(Value, nat)>)
    ensures r.Some? ==> r.value.1 <= |b|
  {
    match k
    case Be(w) => if |b| < w then None else Some((Num(FromBigEndian(b[..w])), w))
    case Host(w) => if |b| < w then None else Some((Num(FromLittleEndian(b[..w])), w))
    case Counted(w) =>
      if |b| < w then None
      else
        var n := FromBigEndian(b[..w]);
        if |b| < w + n then None else Some((Bytes(b[w..w + n]), w + n))
  }

  lemma ValueRoundTrip(k: Kind, v: Value, rest: seq<Byte>)
    requires Fits(k, v)
    ensures DecodeValue(k, EncodeValue(k, v) + rest) == Some((v, |EncodeValue(k, v)|))
  {
    var b := EncodeValue(k, v) + rest;
    match k
    case Be(w) =>
      BigEndianInverse(v.n, w);
      assert b[..w] == BigEndian(v.n, w);
    case Host(w) =>
      LittleEndianInverse(v.n, w);
      assert b[..w] == LittleEndian(v.n, w);
    case Counted(w) =>
      BigEndianInverse(|v.s|, w);
      assert b[..w] == BigEndian(|v.s|, w);
      assert b[w..w + |v.s|] == v.s;
  }

  // ----------------------------------------------------------------- tables

  /** The body layouts: the general one, and the fixed ones of bio and doa requests. */
  datatype Table = General | BioVec | BioRelease | Doa

  datatype Item = Item(tag: Byte, kind: Kind)

  const U8 := Be(1)
  const U16 := Be(2)
  const U32 := Be(4)
  const U64 := Be(8)
  const SIZE_BLOCK: Byte := 31

  /** The order in which the encoder writes the general items. */
  const COUNTERS: seq<Item> := [
    Item(19, U32), Item(3, U8), Item(4, U64), Item(8, U64), Item(6, U64), Item(17, U64), Item(9, U64),
    Item(7, U64), Item(10, U64), Item(15, U64), Item(16, U64), Item(20, U32), Item(11, U8)]

  const DEVICE: seq<Item> := [
    Item(27, U32), Item(2, Counted(2)), Item(29, U32), Item(28, U32), Item(SIZE_BLOCK, U32), Item(30, U64),
    Item(1, Counted(2)), Item(14, Counted(1)), Item(22, U16), Item(23, U16), Item(26, U16), Item(24, U16),
    Item(25, U16), Item(12, U32), Item(13, U8), Item(18, U8)]

  const TREES: seq<Item> := [
    Item(32, U32), Item(33, U32), Item(34, U32), Item(35, U32), Item(36, U32), Item(37, U32), Item(38, U32),
    Item(39, U32)]

  const IO: seq<Item> := [
    Item(40, U8), Item(41, U16), Item(48, U16), Item(42, U16), Item(43, U16), Item(44, U64), Item(49, U64),
    Item(45, U64), Item(46, U32), Item(47, U8), Item(5, U64), Item(51, Host(4)), Item(50, Counted(1))]

  function Order(t: Table): seq<Item> {
    match t
    case General => COUNTERS + DEVICE + TREES + IO
    case BioVec => [Item(0, U32), Item(1, U64), Item(2, U64)]
    case BioRelease => [Item(1, Counted(2))]
    case Doa => [Item(0, Counted(2)), Item(1, Counted(2)), Item(2, U32), Item(3, U32), Item(4, U32)]
  }

  /** What the decoder's switch does with a tag. */
  function KindOf(t: Table, tag: Byte): Option<Kind> {
    match t
    case General =>
      if tag in {3, 11, 13, 18, 40, 47} then Some(U8)
      else if tag in {22, 23, 24, 25, 26, 41, 42, 43, 48} then Some(U16)
      else if tag in {12, 19, 20, 27, 28, 29, SIZE_BLOCK, 46} || 32 <= tag <= 39 then Some(U32)
      else if tag in {4, 5, 6, 7, 8, 9, 10, 15, 16, 17, 30, 44, 45, 49} then Some(U64)
      else if tag == 51 then Some(Host(4))
      else if tag == 1 || tag == 2 then Some(Counted(2))
      else if tag == 14 || tag == 50 then Some(Counted(1))
      else None
    case BioVec => if tag == 0 then Some(U32) else if tag == 1 || tag == 2 then Some(U64) else None
    case BioRelease => if tag == 1 then Some(Counted(2)) else None
    case Doa => if tag == 0 || tag == 1 then Some(Counted(2)) else if 2 <= tag <= 4 then Some(U32) else None
  }

  datatype Error = UnknownRequest | UnknownCode | UnknownItem | Truncated

  datatype Result<T> = Ok(value: T) | Err(error: Error)

  /** The two switches on the request and its code, the same in encoder and decoder. */
  function TableOf(req: Byte, code: Byte): Result<Table> {
    if req in {3, 6, 7, 10, 12, 13, 16, 17, 18, 19, 21, 27, 30, 31, 34, 36, 37, 38, 43} then Ok(General)
    else if req == 39 then
      if code == 2 || code == 3 then Ok(BioVec)
      else if code == 4 || code == 5 then Ok(BioRelease)
      else Err(UnknownCode)
    else if req == 40 then
      if 1 <= code <= 3 then Ok(Doa) else Err(UnknownCode)
    else Err(UnknownRequest)
  }

  lemma CountersAgree(i: nat)
    requires i < |COUNTERS|
    ensures KindOf(General, COUNTERS[i].tag) == Some(COUNTERS[i].kind)
  {
  }

  lemma DeviceAgree(i: nat)
    requires i < |DEVICE|
    ensures KindOf(General, DEVICE[i].tag) == Some(DEVICE[i].kind)
  {
  }

  lemma TreesAgree(i: nat)
    requires i < |TREES|
    ensures KindOf(General, TREES[i].tag) == Some(TREES[i].kind)
  {
  }

  lemma IoAgree(i: nat)
    requires i < |IO|
    ensures KindOf(General, IO[i].tag) == Some(IO[i].kind)
  {
  }

  /** Encoder and decoder agree on the layout of every item. */
  lemma TablesAgree(t: Table, it: Item)
    requires it in Order(t)
    ensures KindOf(t, it.tag) == Some(it.kind)
  {
    if t == General {
      hide KindOf;
      if it in COUNTERS { var i :| 0 <= i < |COUNTERS| && COUNTERS[i] == it; CountersAgree(i); }
      else if it in DEVICE { var i :| 0 <= i < |DEVICE| && DEVICE[i] == it; DeviceAgree(i); }
      else if it in TREES { var i :| 0 <= i < |TREES| && TREES[i] == it; TreesAgree(i); }
      else { var i :| 0 <= i < |IO| && IO[i] == it; IoAgree(i); }
    }
  }

  /** Which of the four stretches of the general order a tag belongs to. */
  function Group(tag: Byte): nat {
    if tag in {3, 4, 6, 7, 8, 9, 10, 11, 15, 16, 17, 19, 20} then 1
    else if 32 <= tag <= 39 then 3
    else if tag == 5 || tag >= 40 then 4
    else 2
  }

  predicate HasTag(s: seq<Item>, g: Byte) {
    exists i :: 0 <= i < |s| && s[i].tag == g
  }

  lemma CountersKnown(g: Byte)
    requires KindOf(General, g).Some? && Group(g) == 1
    ensures HasTag(COUNTERS, g)
  {
    assert
      COUNTERS[0].tag == 19 && COUNTERS[1].tag == 3 && COUNTERS[2].tag == 4 && COUNTERS[3].tag == 8 &&
      COUNTERS[4].tag == 6 && COUNTERS[5].tag == 17 && COUNTERS[6].tag == 9 && COUNTERS[7].tag == 7 &&
      COUNTERS[8].tag == 10 && COUNTERS[9].tag == 15 && COUNTERS[10].tag == 16 && COUNTERS[11].tag == 20 &&
      COUNTERS[12].tag == 11;
  }

  lemma DeviceKnown(g: Byte)
    requires KindOf(General, g).Some? && Group(g) == 2
    ensures HasTag(DEVICE, g)
  {
    assert
      DEVICE[0].tag == 27 && DEVICE[1].tag == 2 && DEVICE[2].tag == 29 && DEVICE[3].tag == 28 &&
      DEVICE[4].tag == 31 && DEVICE[5].tag == 30 && DEVICE[6].tag == 1 && DEVICE[7].tag == 14 &&
      DEVICE[8].tag == 22 && DEVICE[9].tag == 23 && DEVICE[10].tag == 26 && DEVICE[11].tag == 24 &&
      DEVICE[12].tag == 25 && DEVICE[13].tag == 12 && DEVICE[14].tag == 13 && DEVICE[15].tag == 18;
  }

  lemma TreesKnown(g: Byte)
    requires Group(g) == 3
    ensures HasTag(TREES, g)
  {
    assert TREES[g - 32].tag == g;
  }

  lemma IoKnown(g: Byte)
    requires KindOf(General, g).Some? && Group(g) == 4
    ensures HasTag(IO, g)
  {
    assert
      IO[0].tag == 40 && IO[1].tag == 41 && IO[2].tag == 48 && IO[3].tag == 42 &&
      IO[4].tag == 43 && IO[5].tag == 44 && IO[6].tag == 49 && IO[7].tag == 45 &&
      IO[8].tag == 46 && IO[9].tag == 47 && IO[10].tag == 5 && IO[11].tag == 51 &&
      IO[12].tag == 50;
  }

  lemma TagIn(a: seq<Item>, s: seq<Item>, b: seq<Item>, g: Byte)
    requires HasTag(s, g)
    ensures HasTag(a + s + b, g)
  {
    var i :| 0 <= i < |s| && s[i].tag == g;
    assert (a + s + b)[|a| + i].tag == g;
  }

  lemma FixedKnown(t: Table, g: Byte)
    requires t != General && KindOf(t, g).Some?
    ensures HasTag(Order(t), g)
  {
    var s := Order(t);
    match t
    case BioVec => assert s[0].tag == 0 && s[1].tag == 1 && s[2].tag == 2;
    case BioRelease => assert s[0].tag == 1;
    case Doa => assert s[g].tag == g;
  }

  /** The encoder knows every item that the decoder accepts. */
  lemma TablesComplete(t: Table, g: Byte)
    requires KindOf(t, g).Some?
    ensures HasTag(Order(t), g)
  {
    if t == General {
      hide KindOf, HasTag;
      var a, b, c, d := COUNTERS, DEVICE, TREES, IO;
      assert [] + a + (b + c + d) == Order(t) && a + b + (c + d) == Order(t);
      assert a + b + c + d == Order(t) && a + b + c + d + [] == Order(t);
      if Group(g) == 1 { CountersKnown(g); TagIn([], a, b + c + d, g); }
      else if Group(g) == 2 { DeviceKnown(g); TagIn(a, b, c + d, g); }
      else if Group(g) == 3 { TreesKnown(g); TagIn(a + b, c, d, g); }
      else { IoKnown(g); TagIn(a + b + c, d, [], g); }
    } else {
      FixedKnown(t, g);
    }
  }

  predicate DistinctTags(s: seq<Item>) {
    forall i, j :: 0 <= i < j < |s| ==> s[i].tag != s[j].tag
  }

  predicate Groups(s: seq<Item>, lo: nat, hi: nat) {
    forall i :: 0 <= i < |s| ==> lo <= Group(s[i].tag) <= hi
  }

  lemma JoinTags(a: seq<Item>, b: seq<Item>, n: nat)
    requires DistinctTags(a) && DistinctTags(b) && Groups(a, 1, n) && Groups(b, n + 1, n + 1)
    ensures DistinctTags(a + b) && Groups(a + b, 1, n + 1)
  {
    hide Group;
    forall i, j | 0 <= i < j < |a + b| ensures (a + b)[i].tag != (a + b)[j].tag {
      if i < |a| <= j { assert Group(a[i].tag) <= n < Group(b[j - |a|].tag); }
    }
  }

  lemma CounterTags()
    ensures DistinctTags(COUNTERS) && Groups(COUNTERS, 1, 1)
  {
  }

  lemma DeviceTags()
    ensures DistinctTags(DEVICE) && Groups(DEVICE, 2, 2)
  {
  }

  lemma TreeTags()
    ensures DistinctTags(TREES) && Groups(TREES, 3, 3)
  {
  }

  lemma IoTags()
    ensures DistinctTags(IO) && Groups(IO, 4, 4)
  {
  }

  /** No two fields of a body share a tag, so a map by tag loses nothing. */
  lemma TagsDistinct(t: Table)
    ensures DistinctTags(Order(t))
  {
    if t == General {
      hide DistinctTags, Groups;
      CounterTags();
      DeviceTags();
      TreeTags();
      IoTags();
      JoinTags(COUNTERS, DEVICE, 1);
      JoinTags(COUNTERS + DEVICE, TREES, 2);
      JoinTags(COUNTERS + DEVICE + TREES, IO, 3);
    }
  }

  // ------------------------------------------------------------------ items

  type Items = map<Byte, Value>

  /** The size of the field that a release message's uuid is copied to, with a zero behind it. */
  const MAX_UUID := 1024

  /** Every item present is one of the table's and fits; the fixed bodies have all of theirs, and the
      uuid of a release fits its field. */
  predicate ItemsOk(t: Table, items: Items) {
    && (forall g :: g in items ==> KindOf(t, g).Some? && Fits(KindOf(t, g).value, items[g]))
    && (t == BioRelease && 1 in items ==> |items[1].s| < MAX_UUID)
    && (t != General ==> forall g :: KindOf(t, g).Some? ==> g in items)
  }

  predicate FitsAll(order: seq<Item>, items: Items) {
    forall it :: it in order && it.tag in items ==> Fits(it.kind, items[it.tag])
  }

  /** The present items in the given order, each its tag and its value. */
  function EncodeItems(order: seq<Item>, items: Items): seq<Byte>
    requires FitsAll(order, items)
  {
    if order == [] then []
    else
      var it, rest := order[0], EncodeItems(order[1..], items);
      if it.tag in items then [it.tag] + EncodeValue(it.kind, items[it.tag]) + rest else rest
  }

  /** The decoder's loop: it goes on until the body is used up. */
  function DecodeItems(t: Table, b: seq<Byte>, acc: Items): Result<Items>
    decreases |b|
  {
    if b == [] then Ok(acc)
    else
      match KindOf(t, b[0])
      case None => Err(UnknownItem)
      case Some(k) =>
        match DecodeValue(k, b[1..])
        case None => Err(Truncated)
        case Some((v, n)) => DecodeItems(t, b[1 + n..], acc[b[0] := v])
  }

  /** acc with the present items of order filled in. */
  function Filled(order: seq<Item>, items: Items, acc: Items): Items {
    if order == [] then acc
    else
      var it := order[0];
      Filled(order[1..], items, if it.tag in items then acc[it.tag := items[it.tag]] else acc)
  }

  lemma OneItem(t: Table, it: Item, v: Value, rest: seq<Byte>, acc: Items)
    requires it in Order(t) && Fits(it.kind, v)
    ensures DecodeItems(t, [it.tag] + EncodeValue(it.kind, v) + rest, acc) == DecodeItems(t, rest, acc[it.tag := v])
  {
    hide Order, KindOf, EncodeValue, DecodeValue, Fits;
    var e := EncodeValue(it.kind, v);
    var b := [it.tag] + e + rest;
    TablesAgree(t, it);
    ValueRoundTrip(it.kind, v, rest);
    assert b[1..] == e + rest && b[1 + |e|..] == rest;
  }

  lemma {:induction false} ItemsRoundTrip(t: Table, order: seq<Item>, items: Items, acc: Items)
    requires FitsAll(order, items) && forall it :: it in order ==> it in Order(t)
    ensures DecodeItems(t, EncodeItems(order, items), acc) == Ok(Filled(order, items, acc))
    decreases |order|
  {
    hide Order, KindOf, EncodeValue, DecodeValue, Fits;
    if order != [] {
      var it, rest := order[0], EncodeItems(order[1..], items);
      var acc' := if it.tag in items then acc[it.tag := items[it.tag]] else acc;
      ItemsRoundTrip(t, order[1..], items, acc');
      if it.tag in items { OneItem(t, it, items[it.tag], rest, acc); }
    }
  }

  datatype Tagged = Tagged(tag: Byte, v: Value)

  predicate Known(t: Table, x: Tagged) {
    KindOf(t, x.tag).Some? && Fits(KindOf(t, x.tag).value, x.v)
  }

  /** Items as any sender may put them on the wire: in any order, and again and again. */
  function Wire(t: Table, xs: seq<Tagged>): seq<Byte>
    requires forall x <- xs :: Known(t, x)
  {
    if xs == [] then []
    else
      assert Known(t, xs[0]);
      [xs[0].tag] + EncodeValue(KindOf(t, xs[0].tag).value, xs[0].v) + Wire(t, xs[1..])
  }

  function Gather(xs: seq<Tagged>, acc: Items): Items {
    if xs == [] then acc else Gather(xs[1..], acc[xs[0].tag := xs[0].v])
  }

  /** The value that counts is the last one sent. */
  lemma {:induction false} LastCounts(xs: seq<Tagged>, acc: Items, i: nat)
    requires i < |xs| && forall j :: i < j < |xs| ==> xs[j].tag != xs[i].tag
    ensures xs[i].tag in Gather(xs, acc) && Gather(xs, acc)[xs[i].tag] == xs[i].v
    decreases |xs|
  {
    var acc' := acc[xs[0].tag := xs[0].v];
    if i == 0 { GatherKeeps(xs[1..], acc', xs[0].tag); } else { LastCounts(xs[1..], acc', i - 1); }
  }

  lemma {:induction false} GatherKeeps(xs: seq<Tagged>, acc: Items, g: Byte)
    requires forall j :: 0 <= j < |xs| ==> xs[j].tag != g
    ensures g in Gather(xs, acc) <==> g in acc
    ensures g in acc ==> Gather(xs, acc)[g] == acc[g]
    decreases |xs|
  {
    if xs != [] { GatherKeeps(xs[1..], acc[xs[0].tag := xs[0].v], g); }
  }

  /** The decoder takes them all, whatever their order. */
  lemma {:induction false} AnyOrder(t: Table, xs: seq<Tagged>, acc: Items)
    requires forall x <- xs :: Known(t, x)
    ensures DecodeItems(t, Wire(t, xs), acc) == Ok(Gather(xs, acc))
    decreases |xs|
  {
    hide KindOf, EncodeValue, DecodeValue, Fits;
    if xs != [] {
      var x, rest := xs[0], Wire(t, xs[1..]);
      assert Known(t, x);
      var k := KindOf(t, x.tag).value;
      var e := EncodeValue(k, x.v);
      var b := [x.tag] + e + rest;
      ValueRoundTrip(k, x.v, rest);
      assert b[1..] == e + rest && b[1 + |e|..] == rest;
      AnyOrder(t, xs[1..], acc[x.tag := x.v]);
    }
  }

  lemma {:induction false} FilledHas(order: seq<Item>, items: Items, acc: Items, g: Byte)
    ensures g in Filled(order, items, acc) <==> g in acc || (g in items && exists it :: it in order && it.tag == g)
    ensures g in items && (exists it :: it in order && it.tag == g) ==> Filled(order, items, acc)[g] == items[g]
    ensures g in acc && !(g in items && exists it :: it in order && it.tag == g) ==>
      Filled(order, items, acc)[g] == acc[g]
    decreases |order|
  {
    if order != [] {
      var it := order[0];
      var acc' := if it.tag in items then acc[it.tag := items[it.tag]] else acc;
      FilledHas(order[1..], items, acc', g);
      assert forall x :: x in order <==> x == it || x in order[1..];
    }
  }

  lemma FilledAll(t: Table, items: Items)
    requires ItemsOk(t, items)
    ensures Filled(Order(t), items, map[]) == items
  {
    hide Order, Fits, KindOf;
    var f := Filled(Order(t), items, map[]);
    forall g: Byte ensures (g in f <==> g in items) && (g in f ==> f[g] == items[g]) {
      if g in items { TablesComplete(t, g); }
      FilledHas(Order(t), items, map[], g);
    }
  }

  lemma {:induction false} ItemsLength(order: seq<Item>, items: Items)
    requires FitsAll(order, items) && forall it :: it in order ==> it.kind.Counted? ==> it.kind.prefix <= 2
    requires forall it :: it in order ==> !it.kind.Counted? ==> it.kind.width <= 8
    ensures |EncodeItems(order, items)| <= 65538 * |order|
    decreases |order|
  {
    if order != [] {
      ItemsLength(order[1..], items);
      var k := order[0].kind;
      if order[0].tag in items && k.Counted? {
        assert Fits(k, items[order[0].tag]);
        assert Pow256(2) == 65536 && Pow256(1) == 256 && Pow256(0) == 1;
        assert k.prefix == 0 || k.prefix == 1 || k.prefix == 2;
      }
    }
  }

  // --------------------------------------------------------------- messages

  datatype Msg = Msg(req: Byte, code: Byte, items: Items)

  predicate Valid(m: Msg) {
    TableOf(m.req, m.code).Ok? && ItemsOk(TableOf(m.req, m.code).value, m.items)
  }

  function Body(m: Msg): seq<Byte>
    requires Valid(m)
  {
    ItemsOkFits(TableOf(m.req, m.code).value, m.items);
    EncodeItems(Order(TableOf(m.req, m.code).value), m.items)
  }

  /** Request, code, total length, items. */
  function Encode(m: Msg): (r: Result<seq<Byte>>)
    requires TableOf(m.req, m.code).Ok? ==> Valid(m)
    ensures r.Ok? <==> Valid(m)
  {
    match TableOf(m.req, m.code)
    case Err(e) => Err(e)
    case Ok(t) => Ok([m.req, m.code] + BigEndian(6 + |Body(m)|, 4) + Body(m))
  }

  /** One message from the head of b, and how many bytes it took. */
  function Decode(b: seq<Byte>): (r: Result<(Msg, nat)>)
    ensures r.Ok? ==> 6 <= r.value.1 <= |b|
  {
    if |b| < 6 then Err(Truncated)
    else
      match TableOf(b[0], b[1])
      case Err(e) => Err(e)
      case Ok(t) =>
        var total := FromBigEndian(b[2..6]);
        if total < 6 || |b| < total then Err(Truncated)
        else
          match DecodeItems(t, b[6..total], map[])
          case Err(e) => Err(e)
          case Ok(items) => Ok((Msg(b[0], b[1], items), total))
  }

  lemma Widths(t: Table, it: Item)
    requires it in Order(t)
    ensures if it.kind.Counted? then it.kind.prefix <= 2 else it.kind.width <= 8
  {
    hide Order;
    TablesAgree(t, it);
  }

  lemma OrderShort(t: Table)
    ensures |Order(t)| <= 50
  {
  }

  lemma BodyShort(m: Msg)
    requires Valid(m)
    ensures |Body(m)| <= 65538 * 50
  {
    hide EncodeItems, Fits, Order, TableOf;
    var t := TableOf(m.req, m.code).value;
    ItemsOkFits(t, m.items);
    forall it | it in Order(t) ensures if it.kind.Counted? then it.kind.prefix <= 2 else it.kind.width <= 8 {
      Widths(t, it);
    }
    ItemsLength(Order(t), m.items);
    OrderShort(t);
  }

  lemma HeaderReads(m: Msg, body: seq<Byte>, rest: seq<Byte>)
    requires 6 + |body| < Pow256(4)
    ensures var b := [m.req, m.code] + BigEndian(6 + |body|, 4) + body + rest;
      && |b| >= 6 && b[0] == m.req && b[1] == m.code
      && FromBigEndian(b[2..6]) == 6 + |body| && |b| >= 6 + |body| && b[6..6 + |body|] == body
  {
    hide BigEndian, FromBigEndian;
    var h := BigEndian(6 + |body|, 4);
    var b := [m.req, m.code] + h + body + rest;
    BigEndianInverse(6 + |body|, 4);
    assert b[2..6] == h;
  }

  /** Decoding an encoded message, whatever follows it, gives back that message with exactly its
      fields, and takes exactly its bytes. */
  lemma RoundTrip(m: Msg, rest: seq<Byte>)
    requires Valid(m)
    ensures Encode(m).Ok? && Decode(Encode(m).value + rest) == Ok((m, |Encode(m).value|))
  {
    hide BigEndian, FromBigEndian, EncodeItems, DecodeItems, ItemsOk, Order, Fits;
    var t := TableOf(m.req, m.code).value;
    BodyShort(m);
    assert Pow256(4) == 0x1_0000_0000 by { assert Pow256(2) == 65536; }
    HeaderReads(m, Body(m), rest);
    assert FitsAll(Order(t), m.items) by { ItemsOkFits(t, m.items); }
    ItemsRoundTrip(t, Order(t), m.items, map[]);
    FilledAll(t, m.items);
  }

  lemma ItemsOkFits(t: Table, items: Items)
    requires ItemsOk(t, items)
    ensures FitsAll(Order(t), items)
  {
    hide Order, Fits, KindOf;
    forall it | it in Order(t) ensures KindOf(t, it.tag) == Some(it.kind) { TablesAgree(t, it); }
  }

  // ----------------------------------------------------------------- streams

  function EncodeAll(ms: seq<Msg>): seq<Byte>
    requires forall m :: m in ms ==> Valid(m)
  {
    if ms == [] then [] else Encode(ms[0]).value + EncodeAll(ms[1..])
  }

  /** The receive loop: decode from the head until nothing is left, stop on an error. */
  function DecodeAll(b: seq<Byte>): Result<seq<Msg>>
    decreases |b|
  {
    if b == [] then Ok([])
    else
      match Decode(b)
      case Err(e) => Err(e)
      case Ok((m, n)) =>
        match DecodeAll(b[n..])
        case Err(e) => Err(e)
        case Ok(ms) => Ok([m] + ms)
  }

  /** Any concatenation of encoded messages decodes to the messages in order. */
  lemma {:induction false} StreamRoundTrip(ms: seq<Msg>)
    requires forall m :: m in ms ==> Valid(m)
    ensures DecodeAll(EncodeAll(ms)) == Ok(ms)
    decreases |ms|
  {
    hide Valid, Encode, Decode;
    if ms != [] {
      var e, rest := Encode(ms[0]).value, EncodeAll(ms[1..]);
      RoundTrip(ms[0], rest);
      StreamRoundTrip(ms[1..]);
      assert (e + rest)[|e|..] == rest;
      assert ms == [ms[0]] + ms[1..];
    }
  }

  // ------------------------------------------------------------ the receive loop

  /** The requests that the driver's receive loop has a case for. */
  predicate Dispatched(req: Byte) { req in {3, 10, 12, 19, 35, 36, 43} }

  datatype Ending = Finished | Refused(m: Msg) | Broken(error: Error)

  /** The messages dispatched, and how the loop ended: it leaves at the first message that does not
      decode and at the first request it has no case for. */
  function Process(b: seq<Byte>): (seq<Msg>, Ending)
    decreases |b|
  {
    if b == [] then ([], Finished)
    else
      match Decode(b)
      case Err(e) => ([], Broken(e))
      case Ok((m, n)) =>
        if !Dispatched(m.req) then ([], Refused(m))
        else
          var (ms, end) := Process(b[n..]);
          ([m] + ms, end)
  }

  /** The messages up to the first that is not dispatched. */
  function Served(ms: seq<Msg>): (k: nat)
    ensures k <= |ms| && (forall i :: 0 <= i < k ==> Dispatched(ms[i].req))
    ensures k < |ms| ==> !Dispatched(ms[k].req)
  {
    if ms == [] || !Dispatched(ms[0].req) then 0 else 1 + Served(ms[1..])
  }

  /** Request 35 has a case, but no message carries it. */
  lemma ServedByNumber(m: Msg)
    requires Valid(m)
    ensures Dispatched(m.req) <==> m.req in {3, 10, 12, 19, 36, 43}
  {
    hide ItemsOk;
  }

  lemma {:induction false} StreamProcessed(ms: seq<Msg>)
    requires forall m :: m in ms ==> Valid(m)
    ensures var k := Served(ms);
      Process(EncodeAll(ms)) == (ms[..k], if k < |ms| then Refused(ms[k]) else Finished)
    decreases |ms|
  {
    hide Valid, Encode, Decode, Dispatched;
    if ms != [] {
      var e, rest := Encode(ms[0]).value, EncodeAll(ms[1..]);
      RoundTrip(ms[0], rest);
      StreamProcessed(ms[1..]);
      assert (e + rest)[|e|..] == rest;
      if Dispatched(ms[0].req) {
        var k := Served(ms[1..]);
        assert ms[..k + 1] == [ms[0]] + ms[1..][..k];
      }
    }
  }

  /** Of any concatenation of encoded messages the loop dispatches, in order, exactly those before
      the first whose request is not 3, 10, 12, 19, 36 or 43. */
  lemma StreamServed(ms: seq<Msg>)
    requires forall m :: m in ms ==> Valid(m)
    ensures var k := Served(ms);
      && Process(EncodeAll(ms)) == (ms[..k], if k < |ms| then Refused(ms[k]) else Finished)
      && (forall i :: 0 <= i < k ==> ms[i].req in {3, 10, 12, 19, 36, 43})
      && (k < |ms| ==> ms[k].req !in {3, 10, 12, 19, 36, 43})
  {
    hide Valid, Dispatched, Process;
    StreamProcessed(ms);
    forall i | 0 <= i < |ms| ensures Dispatched(ms[i].req) <==> ms[i].req in {3, 10, 12, 19, 36, 43} {
      ServedByNumber(ms[i]);
    }
  }
}
