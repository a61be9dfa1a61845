/** The encoder and decoder as they work: a cursor through a byte buffer. */
module CodecBuffer {
  import opened Common
  import opened Codec

  /** Stores s at p, as the word stores and memcpy of the source do. */
  method Store(buf: array<Byte>, p: nat, s: seq<Byte>)
    requires p + |s| <= buf.Length
    modifies buf
    ensures buf[..p] == old(buf[..p]) && buf[p..p + |s|] == s && buf[p + |s|..] == old(buf[p + |s|..])
  {
    var i := 0;
    while i < |s|
      invariant i <= |s| && buf[..p] == old(buf[..p]) && buf[p..p + i] == s[..i]
      invariant buf[p + |s|..] == old(buf[p + |s|..])
    {
      buf[p + i] := s[i];
      i := i + 1;
    }
  }

  function OneItem(it: Item, items: Items): seq<Byte>
    requires it.tag in items ==> Fits(it.kind, items[it.tag])
  {
    if it.tag in items then [it.tag] + EncodeValue(it.kind, items[it.tag]) else []
  }

  lemma {:induction false} EncodeSnoc(order: seq<Item>, it: Item, items: Items)
    requires FitsAll(order + [it], items) && FitsAll(order, items)
    ensures EncodeItems(order + [it], items) == EncodeItems(order, items) + OneItem(it, items)
    decreases |order|
  {
    hide EncodeValue, Fits;
    if order == [] {
      assert ([it] + [])[1..] == [];
      assert order + [it] == [it];
    } else {
      assert (order + [it])[1..] == order[1..] + [it];
      EncodeSnoc(order[1..], it, items);
    }
  }

  // ------------------------------------------ the block size's eight-byte store

  /** The bytes that the store of one item's value puts down. The block size is a 32-bit value
      stored with a 64-bit store, which also clears the four bytes behind it. */
  function Stored(it: Item, items: Items): (s: seq<Byte>)
    requires it.tag in items && Fits(it.kind, items[it.tag])
  {
    var v := EncodeValue(it.kind, items[it.tag]);
    if it.tag == SIZE_BLOCK then v + [0, 0, 0, 0] else v
  }

  /** How many cleared bytes lie behind the cursor after one more item, when k lay there before. */
  function Spill(it: Item, items: Items, k: nat): nat
    requires it.tag in items ==> Fits(it.kind, items[it.tag])
  {
    if it.tag !in items then k
    else if it.tag == SIZE_BLOCK then 4
    else if |OneItem(it, items)| >= k then 0
    else k - |OneItem(it, items)|
  }

  /** How many bytes behind the last item are cleared: as far as a block size reaches beyond the
      items that follow it. */
  function Behind(order: seq<Item>, items: Items): (k: nat)
    requires FitsAll(order, items)
    ensures k <= 4
  {
    if order == [] then 0
    else
      var rest, k := EncodeItems(order[1..], items), Behind(order[1..], items);
      if order[0].tag == SIZE_BLOCK && SIZE_BLOCK in items && |rest| + k < 4 then 4 - |rest| else k
  }

  lemma {:induction false} BehindSnoc(order: seq<Item>, it: Item, items: Items)
    requires FitsAll(order + [it], items) && FitsAll(order, items)
    ensures Behind(order + [it], items) == Spill(it, items, Behind(order, items))
    decreases |order|
  {
    hide EncodeValue, Fits, EncodeItems;
    if order == [] {
      assert order + [it] == [it] && [it][1..] == [];
      NoItems(items);
    } else {
      assert (order + [it])[1..] == order[1..] + [it] && (order + [it])[0] == order[0];
      BehindSnoc(order[1..], it, items);
      EncodeSnoc(order[1..], it, items);
    }
  }

  /** Zeros from p on, for k bytes. */
  predicate Cleared(s: seq<Byte>, p: nat, k: nat) {
    p + k <= |s| && forall i :: p <= i < p + k ==> s[i] == 0
  }

  /** Writes one item at p if it is present. */
  method PutItem(buf: array<Byte>, p: nat, it: Item, items: Items, ghost k: nat) returns (q: nat)
    requires it.tag in items ==> Fits(it.kind, items[it.tag])
    requires p + |OneItem(it, items)| + Spill(it, items, k) <= buf.Length && k <= 4 && Cleared(buf[..], p, k)
    modifies buf
    ensures q == p + |OneItem(it, items)| && q + Spill(it, items, k) <= buf.Length
    ensures buf[..q] == old(buf[..p]) + OneItem(it, items) && Cleared(buf[..], q, Spill(it, items, k))
    ensures buf[q + Spill(it, items, k)..] == old(buf[q + Spill(it, items, k)..])
  {
    hide Fits, EncodeValue, OneItem, Stored, Spill, Cleared;
    q := p;
    ghost var before := buf[..];
    if it.tag in items {
      var n, s := |EncodeValue(it.kind, items[it.tag])|, Stored(it, items);
      StoredFits(it, items, k);
      StoreTagged(buf, p, it.tag, s);
      q := p + 1 + n;
      ItemPlaced(before, buf[..], p, it, items, k);
    } else {
      NothingPlaced(before, p, it, items, k);
    }
  }

  /** A tag and the bytes behind it. */
  method StoreTagged(buf: array<Byte>, p: nat, tag: Byte, s: seq<Byte>)
    requires p + 1 + |s| <= buf.Length
    modifies buf
    ensures buf[..p] == old(buf[..p]) && buf[p..p + 1 + |s|] == [tag] + s
    ensures buf[p + 1 + |s|..] == old(buf[p + 1 + |s|..])
  {
    ghost var before := buf[..];
    buf[p] := tag;
    ghost var mid := buf[..];
    Store(buf, p + 1, s);
    assert buf[..p + 1] == mid[..p + 1] == before[..p] + [tag];
    assert buf[..p] == buf[..p + 1][..p];
    assert buf[p..p + 1 + |s|] == [buf[p]] + buf[p + 1..p + 1 + |s|] && buf[p] == buf[..p + 1][p];
    assert mid[p + 1 + |s|..] == before[p + 1 + |s|..];
  }

  lemma StoredFits(it: Item, items: Items, k: nat)
    requires it.tag in items && Fits(it.kind, items[it.tag])
    ensures 1 + |Stored(it, items)| <= |OneItem(it, items)| + Spill(it, items, k)
    ensures |OneItem(it, items)| == 1 + |EncodeValue(it.kind, items[it.tag])|
    ensures OneItem(it, items) <= [it.tag] + Stored(it, items)
  {
    hide Fits, EncodeValue;
  }

  lemma ItemPlaced(before: seq<Byte>, after: seq<Byte>, p: nat, it: Item, items: Items, k: nat)
    requires it.tag in items && Fits(it.kind, items[it.tag]) && |after| == |before| && k <= 4 && Cleared(before, p, k)
    requires p + |OneItem(it, items)| + Spill(it, items, k) <= |before|
    requires var s := [it.tag] + Stored(it, items);
      && p + |s| <= |before| && after[..p] == before[..p] && after[p..p + |s|] == s
      && after[p + |s|..] == before[p + |s|..]
    ensures var q := p + |OneItem(it, items)|;
      && after[..q] == before[..p] + OneItem(it, items) && Cleared(after, q, Spill(it, items, k))
      && after[q + Spill(it, items, k)..] == before[q + Spill(it, items, k)..]
  {
    hide Fits, EncodeValue;
    StoredFits(it, items, k);
    Placed(before, after, p, [it.tag] + Stored(it, items), OneItem(it, items));
  }

  lemma NothingPlaced(before: seq<Byte>, p: nat, it: Item, items: Items, k: nat)
    requires it.tag !in items && p <= |before|
    ensures OneItem(it, items) == [] && before[..p] + [] == before[..p] && Spill(it, items, k) == k
  {
  }

  lemma Placed(before: seq<Byte>, after: seq<Byte>, p: nat, s: seq<Byte>, item: seq<Byte>)
    requires p + |s| <= |before| == |after| && item <= s
    requires after[..p] == before[..p] && after[p..p + |s|] == s && after[p + |s|..] == before[p + |s|..]
    ensures after[..p + |item|] == before[..p] + item
    ensures forall i :: p + |item| <= i < p + |s| ==> after[i] == s[i - p]
    ensures forall i :: p + |s| <= i < |after| ==> after[i] == before[i]
  {
    assert after[p..p + |s|][..|item|] == item;
    forall i | p <= i < p + |s| ensures after[i] == s[i - p] {
      assert after[p..p + |s|][i - p] == after[i];
    }
    forall i | p + |s| <= i < |after| ensures after[i] == before[i] {
      assert after[p + |s|..][i - p - |s|] == before[p + |s|..][i - p - |s|];
    }
  }

  lemma NoItems(items: Items)
    ensures EncodeItems([], items) == []
  {
  }

  /** How far the encoder writes. */
  function Reach(order: seq<Item>, items: Items): nat
    requires FitsAll(order, items)
  {
    |EncodeItems(order, items)| + Behind(order, items)
  }

  lemma {:induction false} PrefixReach(order: seq<Item>, items: Items, k: nat)
    requires FitsAll(order, items) && k <= |order| && FitsAll(order[..k], items)
    ensures Reach(order[..k], items) <= Reach(order, items)
    decreases |order| - k
  {
    hide Fits, EncodeItems, Behind, OneItem;
    if k == |order| {
      assert order[..k] == order;
    } else {
      assert order[..k + 1] == order[..k] + [order[k]];
      EncodeSnoc(order[..k], order[k], items);
      BehindSnoc(order[..k], order[k], items);
      PrefixReach(order, items, k + 1);
    }
  }

  /** After the items of order: they are in place up to p, behind them exactly the bytes that the
      block size reaches are cleared, and the rest is as it was. */
  ghost predicate Written(was: seq<Byte>, now: seq<Byte>, p0: nat, order: seq<Item>, items: Items, p: nat) {
    && FitsAll(order, items) && |now| == |was|
    && p == p0 + |EncodeItems(order, items)| && p + Behind(order, items) <= |was|
    && now[..p] == was[..p0] + EncodeItems(order, items) && Cleared(now, p, Behind(order, items))
    && now[p + Behind(order, items)..] == was[p + Behind(order, items)..]
  }

  lemma WrittenStart(was: seq<Byte>, p0: nat, items: Items)
    requires p0 <= |was|
    ensures Written(was, was, p0, [], items, p0)
  {
    assert was[..p0] + [] == was[..p0];
  }

  /** One more item. */
  lemma WrittenStep(
      was: seq<Byte>, now: seq<Byte>, after: seq<Byte>, p0: nat, order: seq<Item>, it: Item, items: Items,
      p: nat, q: nat)
    requires Written(was, now, p0, order, items, p) && FitsAll(order + [it], items) && |after| == |now|
    requires q == p + |OneItem(it, items)| && Cleared(after, q, Spill(it, items, Behind(order, items)))
    requires after[..q] == now[..p] + OneItem(it, items)
    requires var k := Spill(it, items, Behind(order, items)); after[q + k..] == now[q + k..]
    ensures Written(was, after, p0, order + [it], items, q)
  {
    hide EncodeItems, Fits, EncodeValue, OneItem, Behind;
    EncodeSnoc(order, it, items);
    BehindSnoc(order, it, items);
    StepReach(order, it, items);
    SameTail(was, now, after, p + Behind(order, items), q + Spill(it, items, Behind(order, items)));
  }

  /** The item part of the encoder: every present item of the table, in its order. */
  method PutItems(buf: array<Byte>, p0: nat, order: seq<Item>, items: Items) returns (p: nat)
    requires FitsAll(order, items) && p0 + Reach(order, items) <= buf.Length
    modifies buf
    ensures p == p0 + |EncodeItems(order, items)| && p + Behind(order, items) <= buf.Length
    ensures buf[..p] == old(buf[..p0]) + EncodeItems(order, items) && Cleared(buf[..], p, Behind(order, items))
    ensures buf[p + Behind(order, items)..] == old(buf[p + Behind(order, items)..])
  {
    hide EncodeItems, Fits, EncodeValue, OneItem, Behind, Spill, Cleared;
    p := p0;
    var i := 0;
    ghost var was := buf[..];
    assert order[..0] == [];
    WrittenStart(was, p0, items);
    while i < |order|
      invariant i <= |order| && Written(was, buf[..], p0, order[..i], items, p)
    {
      assert order[..i + 1] == order[..i] + [order[i]];
      ItemRoom(order, items, i);
      ghost var now, at := buf[..], p;
      p := PutItem(buf, p, order[i], items, Behind(order[..i], items));
      WrittenStep(was, now, buf[..], p0, order[..i], order[i], items, at, p);
      i := i + 1;
    }
    assert order[..i] == order;
  }

  /** The next item and what it clears stay within the encoder's reach. */
  lemma ItemRoom(order: seq<Item>, items: Items, i: nat)
    requires FitsAll(order, items) && i < |order| && FitsAll(order[..i], items)
    ensures var k := Spill(order[i], items, Behind(order[..i], items));
      |EncodeItems(order[..i], items)| + |OneItem(order[i], items)| + k <= Reach(order, items)
  {
    hide Fits, EncodeItems, Behind, OneItem, Spill;
    assert order[..i + 1] == order[..i] + [order[i]];
    EncodeSnoc(order[..i], order[i], items);
    BehindSnoc(order[..i], order[i], items);
    PrefixReach(order, items, i + 1);
  }

  lemma SameTail(was: seq<Byte>, before: seq<Byte>, after: seq<Byte>, far: nat, farther: nat)
    requires far <= farther <= |was| == |before| == |after|
    requires before[far..] == was[far..] && after[farther..] == before[farther..]
    ensures after[farther..] == was[farther..]
  {
    assert before[farther..] == before[far..][farther - far..] && was[farther..] == was[far..][farther - far..];
  }

  lemma StepReach(order: seq<Item>, it: Item, items: Items)
    requires FitsAll(order + [it], items) && FitsAll(order, items)
    ensures Reach(order, items) <= Reach(order + [it], items)
  {
    hide Fits, EncodeItems, Behind, OneItem;
    EncodeSnoc(order, it, items);
    BehindSnoc(order, it, items);
  }

  /** How many bytes behind the message the encoder clears. */
  function Cleans(m: Msg): (k: nat)
    requires Valid(m)
  {
    ItemsOkFits(TableOf(m.req, m.code).value, m.items);
    Behind(Order(TableOf(m.req, m.code).value), m.items)
  }

  /** _mpk_encode_type_0: the buffer must reach as far as the message and the bytes it clears. */
  method EncodeInto(buf: array<Byte>, m: Msg) returns (rc: int, size: nat)
    requires TableOf(m.req, m.code).Ok? ==> Valid(m)
    requires 6 <= buf.Length && (Valid(m) ==> |Encode(m).value| + Cleans(m) <= buf.Length)
    modifies buf
    ensures rc == 0 <==> Valid(m)
    ensures rc == 0 ==> size == |Encode(m).value| && size + Cleans(m) <= buf.Length
    ensures rc == 0 ==> buf[..size] == Encode(m).value && Cleared(buf[..], size, Cleans(m))
    ensures rc == 0 ==> buf[size + Cleans(m)..] == old(buf[size + Cleans(m)..])
  {
    hide EncodeItems, Fits, Order, BigEndian, ItemsOk, Behind;
    ghost var b0 := buf[..];
    buf[0], buf[1] := m.req, m.code;
    match TableOf(m.req, m.code)
    case Err(_) => rc, size := -1, 0;
    case Ok(t) =>
      ItemsOkFits(t, m.items);
      ghost var body := EncodeItems(Order(t), m.items);
      assert buf[..6] == [m.req, m.code] + b0[2..6];
      assert forall i :: 2 <= i < buf.Length ==> buf[i] == b0[i];
      size := PutItems(buf, 6, Order(t), m.items);
      ghost var mid := buf[..];
      assert mid[size + Cleans(m)..] == b0[size + Cleans(m)..];
      Store(buf, 2, BigEndian(size, 4));
      Assembled(b0, mid, buf[..], m, BigEndian(size, 4), body, Cleans(m));
      rc := 0;
  }

  /** Header and items in place, the rest as it was but for the cleared bytes. */
  lemma Assembled(b0: seq<Byte>, mid: seq<Byte>, after: seq<Byte>, m: Msg, h: seq<Byte>, body: seq<Byte>, k: nat)
    requires |b0| == |mid| == |after| && 6 + |body| + k <= |b0| && |h| == 4
    requires mid[..6 + |body|] == [m.req, m.code] + b0[2..6] + body
    requires Cleared(mid, 6 + |body|, k) && mid[6 + |body| + k..] == b0[6 + |body| + k..]
    requires after[..2] == mid[..2] && after[2..6] == h && after[6..] == mid[6..]
    ensures after[..6 + |body|] == [m.req, m.code] + h + body
    ensures Cleared(after, 6 + |body|, k) && after[6 + |body| + k..] == b0[6 + |body| + k..]
  {
    var n := 6 + |body|;
    assert forall i :: 6 <= i < |b0| ==> after[i] == after[6..][i - 6] == mid[6..][i - 6] == mid[i];
    assert mid[..2] == mid[..n][..2] && mid[6..n] == mid[..n][6..];
    assert after[..n] == after[..2] + after[2..6] + after[6..n];
    assert after[n + k..] == mid[n + k..];
  }

  // ------------------------------------------------- when bytes behind are cleared

  predicate NoBlock(order: seq<Item>) {
    forall i :: 0 <= i < |order| ==> order[i].tag != SIZE_BLOCK
  }

  lemma {:induction false} BehindSkips(a: seq<Item>, b: seq<Item>, items: Items)
    requires FitsAll(a + b, items) && FitsAll(b, items) && NoBlock(a)
    ensures Behind(a + b, items) == Behind(b, items)
    decreases |a|
  {
    hide Fits, EncodeItems;
    if a == [] {
      assert a + b == b;
    } else {
      assert (a + b)[1..] == a[1..] + b;
      BehindSkips(a[1..], b, items);
    }
  }

  /** The general items that the encoder writes after the block size. */
  function AfterBlock(): seq<Item> { Order(General)[18..] }

  lemma BlockInOrder()
    ensures |Order(General)| == 50 && Order(General)[17] == Item(SIZE_BLOCK, U32)
    ensures NoBlock(Order(General)[..17]) && NoBlock(AfterBlock())
  {
    TagsDistinct(General);
    var o := Order(General);
    assert o[17] == DEVICE[4];
    forall i | 0 <= i < |o| && i != 17 ensures o[i].tag != SIZE_BLOCK { assert o[i].tag != o[17].tag; }
  }

  lemma BehindGeneral(items: Items)
    requires ItemsOk(General, items)
    ensures FitsAll(Order(General), items) && FitsAll(AfterBlock(), items)
    ensures var n := |EncodeItems(AfterBlock(), items)|;
      Behind(Order(General), items) == if SIZE_BLOCK in items && n < 4 then 4 - n else 0
  {
    hide Fits, EncodeItems, Order, ItemsOk;
    AfterFits(items);
    BlockInOrder();
    var o := Order(General);
    var a, b := o[..17], o[17..];
    assert o == a + b && b[1..] == AfterBlock() && b[0].tag == SIZE_BLOCK;
    BehindSkips(a, b, items);
    assert AfterBlock() + [] == AfterBlock();
    BehindSkips(AfterBlock(), [], items);
  }

  lemma FixedNoBlock(t: Table)
    requires t != General
    ensures NoBlock(Order(t))
  {
  }

  lemma BehindFixed(t: Table, items: Items)
    requires t != General && FitsAll(Order(t), items)
    ensures Behind(Order(t), items) == 0
  {
    hide Fits, EncodeItems, Order;
    FixedNoBlock(t);
    assert Order(t) + [] == Order(t);
    BehindSkips(Order(t), [], items);
  }

  /** How many bytes of items follow the block size in a message. */
  function Following(m: Msg): nat
    requires Valid(m) && TableOf(m.req, m.code) == Ok(General)
  {
    AfterFits(m.items);
    |EncodeItems(AfterBlock(), m.items)|
  }

  /** Bytes behind a message are cleared if and only if it carries the block size and fewer than
      four bytes of items after it, and then exactly as many as are missing to four. */
  lemma CleansIff(m: Msg)
    requires Valid(m)
    ensures Cleans(m) > 0 <==>
      TableOf(m.req, m.code) == Ok(General) && SIZE_BLOCK in m.items && Following(m) < 4
    ensures Cleans(m) > 0 ==> Cleans(m) == 4 - Following(m)
  {
    hide Fits, EncodeItems, ItemsOk, Order, TableOf, Behind;
    var t := TableOf(m.req, m.code).value;
    ItemsOkFits(t, m.items);
    if t == General {
      BehindGeneral(m.items);
    } else {
      BehindFixed(t, m.items);
    }
  }

  /** With the device size behind it, as the agent sends it, nothing is cleared. */
  lemma SizeFollows(m: Msg)
    requires Valid(m) && TableOf(m.req, m.code) == Ok(General) && 30 in m.items
    ensures Cleans(m) == 0
  {
    hide ItemsOk, Order;
    BehindGeneral(m.items);
    FirstAfter();
    assert AfterBlock()[0] in AfterBlock();
  }

  lemma AfterFits(items: Items)
    requires ItemsOk(General, items)
    ensures FitsAll(Order(General), items) && FitsAll(AfterBlock(), items)
  {
    hide Order, Fits, ItemsOk;
    ItemsOkFits(General, items);
  }

  lemma FirstAfter()
    ensures |AfterBlock()| == 32 && AfterBlock()[0] == Item(30, U64)
  {
    assert AfterBlock()[0] == DEVICE[5];
  }

  /** Alone it clears four. */
  lemma BlockSizeAlone(n: nat)
    requires n < Pow256(4)
    ensures var m := Msg(10, 0, map[SIZE_BLOCK := Num(n)]); Valid(m) && Cleans(m) == 4
  {
    hide Order, EncodeItems, Behind, Pow256;
    CleansAlone(map[SIZE_BLOCK := Num(n)]);
  }

  lemma CleansAlone(items: Items)
    requires ItemsOk(General, items) && items.Keys == {SIZE_BLOCK}
    ensures FitsAll(Order(General), items) && Behind(Order(General), items) == 4
  {
    hide Order, Fits, EncodeItems, Behind, ItemsOk;
    BlockInOrder();
    BehindGeneral(items);
    NothingWritten(AfterBlock(), items);
  }

  lemma {:induction false} NothingWritten(order: seq<Item>, items: Items)
    requires FitsAll(order, items) && forall i :: 0 <= i < |order| ==> order[i].tag !in items
    ensures EncodeItems(order, items) == []
    decreases |order|
  {
    hide Fits;
    if order != [] { NothingWritten(order[1..], items); }
  }

  // ------------------------------------------------------------------ decoding

  /** The decoder's item loop from p0 over left0 bytes. */
  method TakeItems(buf: array<Byte>, p0: nat, left0: nat, t: Table) returns (r: Result<Items>)
    requires p0 + left0 <= buf.Length
    ensures r == DecodeItems(t, buf[p0..p0 + left0], map[])
  {
    hide KindOf, DecodeValue;
    var p: nat, left: nat := p0, left0;
    var acc: Items := map[];
    while left != 0
      invariant p + left == p0 + left0
      invariant DecodeItems(t, buf[p..p + left], acc) == DecodeItems(t, buf[p0..p0 + left0], map[])
      decreases left
    {
      var tag := buf[p];
      ghost var b := buf[p..p + left];
      p, left := p + 1, left - 1;
      assert b[1..] == buf[p..p + left];
      match KindOf(t, tag)
      case None => return Err(UnknownItem);
      case Some(k) =>
        match DecodeValue(k, buf[p..p + left])
        case None => return Err(Truncated);
        case Some((v, n)) =>
          assert b[1 + n..] == buf[p + n..p + left];
          acc := acc[tag := v];
          p, left := p + n, left - n;
    }
    r := Ok(acc);
  }

  /** _mpk_decode_type_0 on the message at p. */
  method DecodeFrom(buf: array<Byte>, p: nat) returns (r: Result<(Msg, nat)>)
    requires p <= buf.Length
    ensures r == Decode(buf[p..])
  {
    hide DecodeItems, FromBigEndian;
    ghost var b := buf[p..];
    if buf.Length - p < 6 { return Err(Truncated); }
    match TableOf(buf[p], buf[p + 1])
    case Err(e) => r := Err(e);
    case Ok(t) =>
      assert b[2..6] == buf[p + 2..p + 6];
      var total := FromBigEndian(buf[p + 2..p + 6]);
      if total < 6 || buf.Length - p < total { return Err(Truncated); }
      assert b[6..total] == buf[p + 6..p + total];
      var items := TakeItems(buf, p + 6, total - 6, t);
      match items
      case Err(e) => r := Err(e);
      case Ok(i) => r := Ok((Msg(buf[p], buf[p + 1], i), total));
  }

  /** The receive loop of drv.c over a buffer of messages. */
  method ProcessAll(buf: array<Byte>) returns (ms: seq<Msg>, end: Ending)
    ensures (ms, end) == Process(buf[..])
  {
    hide Decode;
    var p := 0;
    ms := [];
    assert buf[0..] == buf[..] && [] + Process(buf[..]).0 == Process(buf[..]).0;
    while p < buf.Length
      invariant p <= buf.Length && Process(buf[..]) == (ms + Process(buf[p..]).0, Process(buf[p..]).1)
    {
      assert ms + [] == ms;
      var one := DecodeFrom(buf, p);
      match one
      case Err(e) => return ms, Broken(e);
      case Ok((m, n)) =>
        if !Dispatched(m.req) { return ms, Refused(m); }
        assert buf[p..][n..] == buf[p + n..];
        assert ms + ([m] + Process(buf[p + n..]).0) == (ms + [m]) + Process(buf[p + n..]).0;
        ms, p := ms + [m], p + n;
    }
    end := Finished;
    assert ms + [] == ms;
  }
}
