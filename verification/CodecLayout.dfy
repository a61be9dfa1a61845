/** The bytes on the wire, said without the encoder's own number functions. */
module CodecLayout {
  import opened Arith
  import opened Common
  import opened Codec
  import opened CodecBuffer

  /** w bytes at this place hold n, most significant byte first. */
  ghost predicate Number(b: seq<Byte>, at: nat, w: nat, n: nat) {
    at + w <= |b| && forall p :: at <= p < at + w ==> b[p] == n / Pow256(at + w - 1 - p) % 256
  }

  /** The same, least significant byte first. */
  ghost predicate HostNumber(b: seq<Byte>, at: nat, w: nat, n: nat) {
    at + w <= |b| && forall p :: at <= p < at + w ==> b[p] == n / Pow256(p - at) % 256
  }

  ghost predicate Text(b: seq<Byte>, at: nat, s: seq<Byte>) {
    at + |s| <= |b| && b[at..at + |s|] == s
  }

  /** A value of kind k lies at this place: a number, or a count and that many bytes. */
  ghost predicate Holds(b: seq<Byte>, at: nat, k: Kind, v: Value)
    requires Fits(k, v)
  {
    match k
    case Be(w) => Number(b, at, w, v.n)
    case Host(w) => HostNumber(b, at, w, v.n)
    case Counted(w) => Number(b, at, w, |v.s|) && Text(b, at + w, v.s)
  }

  lemma DivTwice(n: nat, d: nat)
    requires d > 0
    ensures n / 256 / d == n / (256 * d)
  {
    var q, r := n / 256, n % 256;
    var a, b := q / d, q % d;
    assert q == a * d + b && n == 256 * q + r;
    assert n == a * (256 * d) + (256 * b + r) by { assert 256 * (a * d) == a * (256 * d); }
    DivModIs(n, 256 * d, a, 256 * b + r);
  }

  lemma {:induction false} BigEndianIs(n: nat, w: nat)
    ensures Number(BigEndian(n, w), 0, w, n)
  {
    if w > 0 {
      var s, t := BigEndian(n, w), BigEndian(n / 256, w - 1);
      BigEndianIs(n / 256, w - 1);
      forall i | 0 <= i < w ensures s[i] == n / Pow256(w - 1 - i) % 256 {
        if i < w - 1 {
          assert s[i] == t[i] == n / 256 / Pow256(w - 2 - i) % 256;
          DivTwice(n, Pow256(w - 2 - i));
        }
      }
    }
  }

  lemma {:induction false} LittleEndianIs(n: nat, w: nat)
    ensures HostNumber(LittleEndian(n, w), 0, w, n)
  {
    if w > 0 {
      var s, t := LittleEndian(n, w), LittleEndian(n / 256, w - 1);
      LittleEndianIs(n / 256, w - 1);
      forall i | 0 <= i < w ensures s[i] == n / Pow256(i) % 256 {
        if i > 0 {
          assert s[i] == t[i - 1] == n / 256 / Pow256(i - 1) % 256;
          DivTwice(n, Pow256(i - 1));
        }
      }
    }
  }

  lemma NumberInside(a: seq<Byte>, b: seq<Byte>, c: seq<Byte>, at: nat, w: nat, n: nat)
    requires Number(b, at, w, n)
    ensures Number(a + b + c, |a| + at, w, n)
  {
    var t := |a| + at;
    forall p | t <= p < t + w ensures (a + b + c)[p] == n / Pow256(t + w - 1 - p) % 256 {
      assert (a + b + c)[p] == b[p - |a|];
    }
  }

  lemma HostInside(a: seq<Byte>, b: seq<Byte>, c: seq<Byte>, at: nat, w: nat, n: nat)
    requires HostNumber(b, at, w, n)
    ensures HostNumber(a + b + c, |a| + at, w, n)
  {
    var t := |a| + at;
    forall p | t <= p < t + w ensures (a + b + c)[p] == n / Pow256(p - t) % 256 {
      assert (a + b + c)[p] == b[p - |a|];
    }
  }

  lemma HoldsInside(a: seq<Byte>, b: seq<Byte>, c: seq<Byte>, at: nat, k: Kind, v: Value)
    requires Fits(k, v) && Holds(b, at, k, v)
    ensures Holds(a + b + c, |a| + at, k, v)
  {
    hide Number, HostNumber;
    match k
    case Be(w) => NumberInside(a, b, c, at, w, v.n);
    case Host(w) => HostInside(a, b, c, at, w, v.n);
    case Counted(w) =>
      NumberInside(a, b, c, at, w, |v.s|);
      assert (a + b + c)[|a| + at + w..|a| + at + w + |v.s|] == b[at + w..at + w + |v.s|];
  }

  lemma ValueLayout(k: Kind, v: Value)
    requires Fits(k, v)
    ensures Holds(EncodeValue(k, v), 0, k, v)
  {
    hide Number, HostNumber, BigEndian, LittleEndian, Pow256;
    match k
    case Be(w) => BigEndianIs(v.n, w);
    case Host(w) => LittleEndianIs(v.n, w);
    case Counted(w) =>
      BigEndianIs(|v.s|, w);
      NumberInside([], BigEndian(|v.s|, w), v.s, 0, w, |v.s|);
      assert [] + BigEndian(|v.s|, w) + v.s == BigEndian(|v.s|, w) + v.s;
  }

  // ------------------------------------------------------------------ messages

  /** How many bytes an item takes, with its tag. */
  function SizeOf(it: Item, items: Items): nat {
    if it.tag !in items then 0
    else
      match it.kind
      case Be(w) => 1 + w
      case Host(w) => 1 + w
      case Counted(w) => 1 + w + if items[it.tag].Bytes? then |items[it.tag].s| else 0
  }

  function Sizes(order: seq<Item>, items: Items): nat {
    if order == [] then 0 else SizeOf(order[0], items) + Sizes(order[1..], items)
  }

  lemma {:induction false} SizesAre(order: seq<Item>, items: Items)
    requires FitsAll(order, items)
    ensures |EncodeItems(order, items)| == Sizes(order, items)
    decreases |order|
  {
    if order != [] {
      SizesAre(order[1..], items);
      if order[0].tag in items { assert Fits(order[0].kind, items[order[0].tag]); }
    }
  }

  /** The item lies at this place: its tag, and its value behind it. */
  ghost predicate ItemAt(b: seq<Byte>, at: nat, it: Item, items: Items)
    requires it.tag in items ==> Fits(it.kind, items[it.tag])
  {
    it.tag in items ==> at < |b| && b[at] == it.tag && Holds(b, at + 1, it.kind, items[it.tag])
  }

  lemma ItemInside(a: seq<Byte>, b: seq<Byte>, at: nat, it: Item, items: Items)
    requires it.tag in items ==> Fits(it.kind, items[it.tag])
    requires ItemAt(b, at, it, items)
    ensures ItemAt(a + b, |a| + at, it, items)
  {
    hide Fits, Holds;
    if it.tag in items {
      HoldsInside(a, b, [], at + 1, it.kind, items[it.tag]);
      assert a + b + [] == a + b;
    }
  }

  lemma FirstItem(it: Item, items: Items, rest: seq<Byte>)
    requires it.tag in items && Fits(it.kind, items[it.tag])
    ensures ItemAt([it.tag] + EncodeValue(it.kind, items[it.tag]) + rest, 0, it, items)
  {
    hide Fits, Holds, EncodeValue;
    ValueLayout(it.kind, items[it.tag]);
    HoldsInside([it.tag], EncodeValue(it.kind, items[it.tag]), rest, 0, it.kind, items[it.tag]);
  }

  /** Every present item lies behind the ones before it in the order. */
  lemma {:induction false} ItemsLayout(order: seq<Item>, items: Items, j: nat)
    requires FitsAll(order, items) && j < |order|
    requires order[j].tag in items ==> Fits(order[j].kind, items[order[j].tag])
    ensures ItemAt(EncodeItems(order, items), Sizes(order[..j], items), order[j], items)
    decreases |order|
  {
    hide Fits, ItemAt, EncodeValue;
    var it, rest := order[0], EncodeItems(order[1..], items);
    var head := if it.tag in items then [it.tag] + EncodeValue(it.kind, items[it.tag]) else [];
    assert EncodeItems(order, items) == head + rest;
    if j == 0 {
      if it.tag in items { FirstItem(it, items, rest); } else { Absent(head + rest, 0, it, items); }
    } else {
      assert order[..j][1..] == order[1..][..j - 1];
      ItemsLayout(order[1..], items, j - 1);
      HeadSize(it, items, head);
      ItemInside(head, rest, Sizes(order[1..][..j - 1], items), order[j], items);
    }
  }

  lemma Absent(b: seq<Byte>, at: nat, it: Item, items: Items)
    requires it.tag !in items
    ensures ItemAt(b, at, it, items)
  {
  }

  lemma HeadSize(it: Item, items: Items, head: seq<Byte>)
    requires it.tag in items ==> Fits(it.kind, items[it.tag])
    requires head == if it.tag in items then [it.tag] + EncodeValue(it.kind, items[it.tag]) else []
    ensures |head| == SizeOf(it, items)
  {
  }

  lemma HeaderLayout(m: Msg, body: seq<Byte>)
    ensures var e := [m.req, m.code] + BigEndian(6 + |body|, 4) + body;
      |e| == 6 + |body| && e[0] == m.req && e[1] == m.code && Number(e, 2, 4, |e|)
  {
    hide Number, BigEndian;
    BigEndianIs(6 + |body|, 4);
    NumberInside([m.req, m.code], BigEndian(6 + |body|, 4), body, 0, 4, 6 + |body|);
  }

  /** The requests that have a body, and so a message. */
  lemma KnownRequests(m: Msg)
    requires TableOf(m.req, m.code).Ok? ==> Valid(m)
    ensures Encode(m).Ok? <==>
      || m.req in {3, 6, 7, 10, 12, 13, 16, 17, 18, 19, 21, 27, 30, 31, 34, 36, 37, 38, 43}
      || (m.req == 39 && 2 <= m.code <= 5) || (m.req == 40 && 1 <= m.code <= 3)
  {
    hide ItemsOk;
  }

  function Tags(s: seq<Item>): seq<Byte> { seq(|s|, i requires 0 <= i < |s| => s[i].tag) }

  /** In which order a general message carries its items. */
  lemma WireOrder()
    ensures Order(General) == COUNTERS + DEVICE + TREES + IO
    ensures Tags(COUNTERS) == [19, 3, 4, 8, 6, 17, 9, 7, 10, 15, 16, 20, 11]
    ensures Tags(DEVICE) == [27, 2, 29, 28, 31, 30, 1, 14, 22, 23, 26, 24, 25, 12, 13, 18]
    ensures Tags(TREES) == [32, 33, 34, 35, 36, 37, 38, 39]
    ensures Tags(IO) == [40, 41, 48, 42, 43, 44, 49, 45, 46, 47, 5, 51, 50]
  {
  }

  /** The whole message, byte by byte: request, code, the total length in four bytes, and each present
      item of its table, in table order, as its tag and its value. */
  lemma MessageLayout(m: Msg, j: nat)
    requires Valid(m) && j < |Order(TableOf(m.req, m.code).value)|
    ensures var e, order := Encode(m).value, Order(TableOf(m.req, m.code).value);
      && |e| == 6 + Sizes(order, m.items) && e[0] == m.req && e[1] == m.code && Number(e, 2, 4, |e|)
      && (order[j].tag in m.items ==> Fits(order[j].kind, m.items[order[j].tag]))
      && ItemAt(e, 6 + Sizes(order[..j], m.items), order[j], m.items)
  {
    hide Fits, ItemAt, Number, ItemsOk, EncodeItems, Sizes, Order, BigEndian, TableOf;
    var t := TableOf(m.req, m.code).value;
    var order, body := Order(t), Body(m);
    ItemsOkFits(t, m.items);
    assert order[j] in order;
    SizesAre(order, m.items);
    HeaderLayout(m, body);
    ItemsLayout(order, m.items, j);
    ItemInside([m.req, m.code] + BigEndian(6 + |body|, 4), body, Sizes(order[..j], m.items), order[j], m.items);
  }

  // ------------------------------------------------- the bodies that are always whole

  lemma {:induction false} SizesNext(order: seq<Item>, items: Items, j: nat)
    requires j < |order|
    ensures Sizes(order[..j + 1], items) == Sizes(order[..j], items) + SizeOf(order[j], items)
    ensures Sizes(order[..0], items) == 0
    decreases |order|
  {
    hide SizeOf;
    assert order[..j + 1][1..] == order[1..][..j];
    if j > 0 {
      assert order[..j][1..] == order[1..][..j - 1];
      SizesNext(order[1..], items, j - 1);
    }
  }

  lemma SizesUpTo(order: seq<Item>, items: Items)
    ensures forall j :: 0 <= j < |order| ==>
      Sizes(order[..j + 1], items) == Sizes(order[..j], items) + SizeOf(order[j], items)
    ensures Sizes(order[..0], items) == 0
  {
    forall j | 0 <= j < |order|
      ensures Sizes(order[..j + 1], items) == Sizes(order[..j], items) + SizeOf(order[j], items)
    {
      SizesNext(order, items, j);
    }
  }

  lemma {:induction false} SizesNone(order: seq<Item>, items: Items)
    requires forall i :: 0 <= i < |order| ==> order[i].tag !in items
    ensures Sizes(order, items) == 0
    decreases |order|
  {
    if order != [] { SizesNone(order[1..], items); }
  }

  /** A vec request has 29 bytes: three numbers of 4, 8 and 8 bytes under the tags 0, 1 and 2. */
  lemma VecLayout(m: Msg, a: nat, b: nat, c: nat)
    requires m.req == 39 && (m.code == 2 || m.code == 3) && m.items == map[0 := Num(a), 1 := Num(b), 2 := Num(c)]
    requires a < Pow256(4) && b < Pow256(8) && c < Pow256(8)
    ensures Valid(m) && var e := Encode(m).value;
      && |e| == 29 && e[6] == 0 && Number(e, 7, 4, a)
      && e[11] == 1 && Number(e, 12, 8, b) && e[20] == 2 && Number(e, 21, 8, c)
  {
    hide Pow256, Number, EncodeItems, Sizes;
    var o := Order(BioVec);
    assert Valid(m);
    hide ItemsOk, KindOf;
    SizesUpTo(o, m.items);
    assert o[..3] == o;
    MessageLayout(m, 0);
    MessageLayout(m, 1);
    MessageLayout(m, 2);
  }

  /** A release carries its uuid under the tag 1, with a count of two bytes. */
  lemma ReleaseLayout(m: Msg, uuid: seq<Byte>)
    requires m.req == 39 && (m.code == 4 || m.code == 5) && m.items == map[1 := Bytes(uuid)] && |uuid| < 1024
    ensures Valid(m) && var e := Encode(m).value;
      |e| == 9 + |uuid| && e[6] == 1 && Number(e, 7, 2, |uuid|) && Text(e, 9, uuid)
  {
    hide Number, EncodeItems, Sizes;
    var o := Order(BioRelease);
    assert Pow256(2) == 65536;
    SizesNext(o, m.items, 0);
    assert o[..1] == o;
    MessageLayout(m, 0);
  }

  lemma DoaValid(m: Msg, v: seq<Byte>, l: seq<Byte>, a: nat, b: nat, c: nat)
    requires m.req == 40 && 1 <= m.code <= 3
    requires m.items == map[0 := Bytes(v), 1 := Bytes(l), 2 := Num(a), 3 := Num(b), 4 := Num(c)]
    requires |v| < Pow256(2) && |l| < Pow256(2) && a < Pow256(4) && b < Pow256(4) && c < Pow256(4)
    ensures Valid(m) && TableOf(m.req, m.code).value == Doa
  {
    hide Pow256;
  }

  /** A lease request: two names with counts of two bytes under the tags 0 and 1, then three numbers of
      four bytes under the tags 2, 3 and 4. */
  lemma DoaLayout(m: Msg, v: seq<Byte>, l: seq<Byte>, a: nat, b: nat, c: nat)
    requires m.req == 40 && 1 <= m.code <= 3
    requires m.items == map[0 := Bytes(v), 1 := Bytes(l), 2 := Num(a), 3 := Num(b), 4 := Num(c)]
    requires |v| < Pow256(2) && |l| < Pow256(2) && a < Pow256(4) && b < Pow256(4) && c < Pow256(4)
    ensures Valid(m) && var e, n := Encode(m).value, 12 + |v| + |l|;
      && |e| == n + 15 && e[6] == 0 && Number(e, 7, 2, |v|) && Text(e, 9, v)
      && e[9 + |v|] == 1 && Number(e, 10 + |v|, 2, |l|) && Text(e, 12 + |v|, l)
      && e[n] == 2 && Number(e, n + 1, 4, a) && e[n + 5] == 3 && Number(e, n + 6, 4, b)
      && e[n + 10] == 4 && Number(e, n + 11, 4, c)
  {
    hide Pow256, Number, EncodeItems, Sizes, Valid, TableOf, Encode;
    var o := Order(Doa);
    DoaValid(m, v, l, a, b, c);
    SizesUpTo(o, m.items);
    assert o[..5] == o;
    MessageLayout(m, 0);
    MessageLayout(m, 1);
    MessageLayout(m, 2);
    MessageLayout(m, 3);
    MessageLayout(m, 4);
  }

  /** The block size alone makes eleven bytes. */
  lemma BlockSizeLayout(n: nat)
    requires n < Pow256(4)
    ensures var m := Msg(10, 0, map[31 := Num(n)]);
      Valid(m) && var e := Encode(m).value;
      |e| == 11 && e[0] == 10 && e[1] == 0 && Number(e, 2, 4, 11) && e[6] == 31 && Number(e, 7, 4, n)
  {
    hide Pow256, Number, EncodeItems, Sizes, Order;
    var m, o := Msg(10, 0, map[31 := Num(n)]), Order(General);
    BlockInOrder();
    SizesNone(o[..17], m.items);
    SizesNext(o, m.items, 17);
    SizesTail(o, 18, m.items);
    SizesNone(AfterBlock(), m.items);
    MessageLayout(m, 17);
  }

  lemma {:induction false} SizesTail(order: seq<Item>, j: nat, items: Items)
    requires j <= |order|
    ensures Sizes(order, items) == Sizes(order[..j], items) + Sizes(order[j..], items)
    decreases |order|
  {
    if j > 0 {
      assert order[..j][1..] == order[1..][..j - 1];
      SizesTail(order[1..], j - 1, items);
    } else {
      assert order[0..] == order;
    }
  }
}
