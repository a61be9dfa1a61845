/** The ring refines an append-only stream: outstanding bytes are never overwritten. */
module CdsSafety {
  import opened Arith
  import opened Common
  import opened Cds

  // ------------------------------------------------------------------ runs

  datatype Event = Get | Store(i: nat, b: Byte) | Publish(len: nat) | Return(start: nat, len: nat) | Halt

  /** What the clients promise: stay inside the part lent, and return each confirmed byte once,
      in pieces of 1 to pagesz bytes. */
  predicate Enabled(c: Config, s: Channel, e: Event) {
    match e
    case Get => true
    case Store(i, b) => i < s.lent
    case Publish(len) => len <= s.lent
    case Return(start, len) =>
      1 <= len <= c.pagesz && start + len <= s.sequence && forall q :: start <= q < start + len ==> q !in s.returned
    case Halt => true
  }

  function Apply(c: Config, s: Channel, e: Event): Channel
    requires Shape(c, s) && Enabled(c, s, e)
  {
    match e
    case Get => GetBuffer(c, s).0
    case Store(i, b) => Fill(c, s, i, b)
    case Publish(len) => Confirm(c, s, len)
    case Return(start, len) => PutBuffer(c, s, start, len)
    case Halt => s.(stop := true)
  }

  ghost predicate Run(c: Config, s: Channel, es: seq<Event>, t: Channel)
    decreases |es|
  {
    if es == [] then s == t
    else Shape(c, s) && Enabled(c, s, es[0]) && Run(c, Apply(c, s, es[0]), es[1..], t)
  }

  ghost predicate Reachable(c: Config, t: Channel) {
    Ok(c) && Maskable(c) && exists es :: Run(c, CreateWorker(c), es, t)
  }

  // ------------------------------------------------------- pages and counts

  function PageBytes(c: Config, r: set<nat>, g: int): set<nat>
    requires Ok(c)
  {
    set q | q in r && q / c.pagesz == g
  }

  /** How many bytes of page generation g were returned. */
  function Count(c: Config, r: set<nat>, g: int): nat
    requires Ok(c)
  {
    |PageBytes(c, r, g)|
  }

  /** All bytes of generation g were returned; the ring starts as if earlier ones had been. */
  predicate Full(c: Config, r: set<nat>, g: int)
    requires Ok(c)
  {
    g < 0 || Count(c, r, g) == c.pagesz
  }

  lemma SubsetSize(a: set<nat>, b: set<nat>)
    requires a <= b
    ensures |a| <= |b|
    ensures |a| == |b| ==> a == b
  {
    assert a + (b - a) == b;
  }

  lemma PageInInterval(c: Config, r: set<nat>, g: nat)
    requires Ok(c)
    ensures g * c.pagesz >= 0
    ensures PageBytes(c, r, g) <= Interval(g * c.pagesz, c.pagesz)
  {
    forall q | q in PageBytes(c, r, g) ensures q in Interval(g * c.pagesz, c.pagesz) {
      InPage(q, c.pagesz);
    }
  }

  lemma CountAtMost(c: Config, r: set<nat>, g: nat)
    requires Ok(c)
    ensures Count(c, r, g) <= c.pagesz
  {
    PageInInterval(c, r, g);
    SubsetSize(PageBytes(c, r, g), Interval(g * c.pagesz, c.pagesz));
  }

  lemma FullMeansReturned(c: Config, r: set<nat>, q: nat)
    requires Ok(c) && Full(c, r, q / c.pagesz)
    ensures q in r
  {
    var g := q / c.pagesz;
    PageInInterval(c, r, g);
    SubsetSize(PageBytes(c, r, g), Interval(g * c.pagesz, c.pagesz));
    InPage(q, c.pagesz);
    assert q in Interval(g * c.pagesz, c.pagesz);
  }

  lemma CountAdds(c: Config, r: set<nat>, d: set<nat>, g: int)
    requires Ok(c) && r !! d
    ensures Count(c, r + d, g) == Count(c, r, g) + Count(c, d, g)
  {
    assert PageBytes(c, r + d, g) == PageBytes(c, r, g) + PageBytes(c, d, g);
  }

  /** A piece inside one page counts there in full and nowhere else. */
  lemma OnePage(c: Config, start: nat, len: nat, g: int)
    requires Ok(c) && 1 <= len && start / c.pagesz == (start + len - 1) / c.pagesz
    ensures Count(c, Interval(start, len), g) == if g == start / c.pagesz then len else 0
  {
    forall q | start <= q < start + len ensures q / c.pagesz == start / c.pagesz {
      DivMonotone(start, q, c.pagesz);
      DivMonotone(q, start + len - 1, c.pagesz);
    }
    var d := Interval(start, len);
    assert PageBytes(c, d, g) == if g == start / c.pagesz then d else {};
  }

  lemma SplitInterval(start: nat, n: nat, m: nat)
    ensures Interval(start, n + m) == Interval(start, n) + Interval(start + n, m)
    ensures Interval(start, n) !! Interval(start + n, m)
  {
  }

  lemma CutCount(c: Config, start: nat, n: nat, m: nat, k: nat, g: int)
    requires Ok(c) && n >= 1 && m >= 1
    requires start / c.pagesz == k == (start + n - 1) / c.pagesz
    requires (start + n) / c.pagesz == k + 1 == (start + n + m - 1) / c.pagesz
    ensures Count(c, Interval(start, n + m), g) == if g == k then n else if g == k + 1 then m else 0
  {
    hide *;
    SplitInterval(start, n, m);
    CountAdds(c, Interval(start, n), Interval(start + n, m), g);
    OnePage(c, start, n, g);
    OnePage(c, start + n, m, g);
  }

  /** A piece of at most a page that crosses a page border is cut in two at the border. */
  lemma TwoPages(c: Config, start: nat, len: nat, g: int)
    requires Ok(c) && 1 <= len <= c.pagesz && start % c.pagesz + len > c.pagesz
    ensures Count(c, Interval(start, len), g) ==
      if g == start / c.pagesz then c.pagesz - start % c.pagesz
      else if g == start / c.pagesz + 1 then (start + len - 1) % c.pagesz + 1 else 0
  {
    var n := c.pagesz - start % c.pagesz;
    var m := len - n;
    Crossing(start, len, c.pagesz);
    assert start + n + m - 1 == start + len - 1;
    CutCount(c, start, n, m, start / c.pagesz, g);
  }

  // ------------------------------------------------------------- invariant

  /** The newest generation the writer owns. */
  function Top(s: Channel): int {
    if s.waiting then s.gen - 1 else s.gen
  }

  predicate Live(c: Config, s: Channel, g: int) {
    Top(s) - c.pagenr < g <= Top(s)
  }

  predicate PageOk(c: Config, s: Channel, g: int)
    requires Shape(c, s)
  {
    var i := g % c.pagenr;
    && s.inUse[i] == !Full(c, s.returned, g)
    && s.occupied[i] == if Full(c, s.returned, g) then 0 else Count(c, s.returned, g)
  }

  predicate CursorInv(c: Config, s: Channel) {
    && s.sequence == s.gen * c.pagesz + s.pos && |s.stream| == s.sequence
    && c.pagenr > 0 && s.page == s.gen % c.pagenr
    && (s.waiting ==> s.pos == 0 && s.lent == 0 && s.gen >= 1)
    && forall q :: q in s.returned ==> q < s.sequence
  }

  ghost predicate PagesInv(c: Config, s: Channel)
    requires Shape(c, s)
  {
    && (forall g :: Live(c, s, g) ==> PageOk(c, s, g))
    && (forall g :: g <= Top(s) - c.pagenr ==> Full(c, s.returned, g))
  }

  /** Where the byte with sequence number q lies. */
  function At(c: Config, q: nat): (a: nat)
    requires Ok(c)
    ensures a < c.pagenr * c.pagesz
  {
    InsidePages(PageIdx(c, q), c.pagenr, c.pagesz, q % c.pagesz);
    PageIdx(c, q) * c.pagesz + q % c.pagesz
  }

  ghost predicate ContentInv(c: Config, s: Channel)
    requires Shape(c, s) && |s.stream| == s.sequence
  {
    forall q :: 0 <= q < s.sequence && Live(c, s, q / c.pagesz) ==> s.buf[At(c, q)] == s.stream[q]
  }

  ghost predicate Inv(c: Config, s: Channel) {
    Shape(c, s) && CursorInv(c, s) && PagesInv(c, s) && ContentInv(c, s)
  }

  lemma PageAtMostTop(c: Config, s: Channel, q: nat)
    requires Shape(c, s) && CursorInv(c, s) && q < s.sequence
    ensures q / c.pagesz <= Top(s)
  {
    assert (Top(s) + 1) * c.pagesz == Top(s) * c.pagesz + c.pagesz;
    assert (s.gen - 1) * c.pagesz == s.gen * c.pagesz - c.pagesz;
    PageBelow(q, c.pagesz, Top(s) + 1);
  }

  /** A confirmed byte not yet returned is on a live page. */
  lemma Outstanding(c: Config, s: Channel, q: nat)
    requires Inv(c, s) && q < s.sequence && q !in s.returned
    ensures Live(c, s, q / c.pagesz) && !Full(c, s.returned, q / c.pagesz)
  {
    PageAtMostTop(c, s, q);
    if Full(c, s.returned, q / c.pagesz) {
      FullMeansReturned(c, s.returned, q);
    }
  }

  // ----------------------------------------------------------------- steps

  lemma CreateInv(c: Config)
    requires Ok(c)
    ensures Inv(c, CreateWorker(c))
  {
    var s := CreateWorker(c);
    InsidePages(0, c.pagenr, c.pagesz, 0);
    forall g | Live(c, s, g) ensures PageOk(c, s, g) {
      assert PageBytes(c, {}, g) == {};
      if g != 0 {
        DivModIs(g, c.pagenr, -1, g + c.pagenr);
      } else {
        DivModIs(0, c.pagenr, 0, 0);
      }
    }
    DivModIs(0, c.pagenr, 0, 0);
  }

  lemma AdvanceInv(c: Config, s: Channel)
    requires Inv(c, s)
    ensures Inv(c, Advance(c, s))
  {
    var t := Advance(c, s);
    if t != s {
      RingNext(s.gen, c.pagenr);
      assert (s.gen + 1) * c.pagesz == s.gen * c.pagesz + c.pagesz;
      assert Top(t) == Top(s);
      assert forall g :: Live(c, t, g) <==> Live(c, s, g);
      forall g | Live(c, t, g) ensures PageOk(c, t, g) {
        assert PageOk(c, s, g);
      }
    }
  }

  lemma NothingReturnedYet(c: Config, s: Channel)
    requires Shape(c, s) && CursorInv(c, s) && s.waiting
    ensures Count(c, s.returned, s.gen) == 0
  {
    forall q | q in s.returned ensures q / c.pagesz != s.gen {
      PageAtMostTop(c, s, q);
    }
    assert PageBytes(c, s.returned, s.gen) == {};
  }

  lemma TakePages(c: Config, s: Channel, g: int)
    requires Inv(c, s) && !s.stop && s.waiting && !s.inUse[s.page] && Live(c, Take(c, s).0, g)
    ensures PageOk(c, Take(c, s).0, g)
  {
    var p := c.pagenr;
    if g == s.gen {
      RingPeriod(s.gen, p);
      assert PageOk(c, s, s.gen - p);
      NothingReturnedYet(c, s);
    } else {
      if g % p == s.gen % p { RingInjective(g, s.gen, p); }
      assert PageOk(c, s, g);
    }
  }

  lemma TakeInv(c: Config, s: Channel)
    requires Inv(c, s) && !s.stop
    ensures Inv(c, Take(c, s).0)
  {
    var t, p := Take(c, s).0, c.pagenr;
    if s.waiting && !s.inUse[s.page] {
      forall g | Live(c, t, g) ensures PageOk(c, t, g) { TakePages(c, s, g); }
      RingPeriod(s.gen, p);
      assert PageOk(c, s, s.gen - p);
      forall q | 0 <= q < t.sequence && Live(c, t, q / c.pagesz) ensures t.buf[At(c, q)] == t.stream[q] {
        PageAtMostTop(c, s, q);
      }
    } else {
      forall g | Live(c, t, g) ensures PageOk(c, t, g) {
        assert PageOk(c, s, g);
      }
    }
  }

  lemma SamePlace(c: Config, q: nat, i: nat, o: nat)
    requires Ok(c) && i < c.pagenr && o < c.pagesz && At(c, q) == i * c.pagesz + o
    ensures PageIdx(c, q) == i && q % c.pagesz == o
  {
    DivModIs(At(c, q), c.pagesz, i, o);
    DivModIs(At(c, q), c.pagesz, PageIdx(c, q), q % c.pagesz);
  }

  /** What the writer may still fill lies nowhere on the stream's live part. */
  lemma FillMisses(c: Config, s: Channel, i: nat, q: nat)
    requires Shape(c, s) && CursorInv(c, s) && i < s.lent && q < s.sequence && Live(c, s, q / c.pagesz)
    ensures At(c, q) != Place(c, s) + i
  {
    if At(c, q) == Place(c, s) + i {
      SamePlace(c, q, s.page, s.pos + i);
      RingInjective(q / c.pagesz, s.gen, c.pagenr);
      InPage(q, c.pagesz);
    }
  }

  lemma PagesCarry(c: Config, s: Channel, t: Channel)
    requires Shape(c, s) && Shape(c, t) && PagesInv(c, s) && Top(s) == Top(t)
    requires s.inUse == t.inUse && s.occupied == t.occupied && s.returned == t.returned
    ensures PagesInv(c, t)
  {
    hide Shape, Full, Top;
    forall g | Live(c, t, g) ensures PageOk(c, t, g) {
      assert Live(c, s, g) && PageOk(c, s, g);
    }
  }

  lemma FillContent(c: Config, s: Channel, i: nat, b: Byte)
    requires Shape(c, s) && CursorInv(c, s) && ContentInv(c, s) && i < s.lent
    ensures CursorInv(c, Fill(c, s, i, b)) && ContentInv(c, Fill(c, s, i, b))
  {
    hide At, Place;
    var t := Fill(c, s, i, b);
    forall q | 0 <= q < t.sequence && Live(c, t, q / c.pagesz) ensures t.buf[At(c, q)] == t.stream[q] {
      FillMisses(c, s, i, q);
    }
  }

  lemma FillInv(c: Config, s: Channel, i: nat, b: Byte)
    requires Inv(c, s) && i < s.lent
    ensures Inv(c, Fill(c, s, i, b))
  {
    hide PagesInv, ContentInv, Shape, Place, CursorInv;
    FillContent(c, s, i, b);
    PagesCarry(c, s, Fill(c, s, i, b));
  }

  lemma NewByteAt(c: Config, s: Channel, k: nat)
    requires Shape(c, s) && CursorInv(c, s) && k < s.lent
    ensures At(c, s.sequence + k) == Place(c, s) + k
  {
    DivModIs(s.sequence + k, c.pagesz, s.gen, s.pos + k);
  }

  lemma ConfirmCursor(c: Config, s: Channel, len: nat)
    requires Shape(c, s) && CursorInv(c, s) && len <= s.lent
    ensures CursorInv(c, Confirm(c, s, len))
  {
    hide Ok, Place, Shape;
  }

  lemma ConfirmByte(c: Config, s: Channel, len: nat, q: nat)
    requires Shape(c, s) && CursorInv(c, s) && ContentInv(c, s) && len <= s.lent
    requires q < s.sequence + len && Live(c, s, q / c.pagesz)
    ensures s.buf[At(c, q)] == (s.stream + s.buf[Place(c, s)..Place(c, s) + len])[q]
  {
    hide At, Place, Live;
    if q >= s.sequence {
      NewByteAt(c, s, q - s.sequence);
    }
  }

  lemma ConfirmContent(c: Config, s: Channel, len: nat)
    requires Shape(c, s) && CursorInv(c, s) && ContentInv(c, s) && len <= s.lent
    requires CursorInv(c, Confirm(c, s, len))
    ensures ContentInv(c, Confirm(c, s, len))
  {
    hide Ok, At, Place;
    var t := Confirm(c, s, len);
    forall q | 0 <= q < t.sequence && Live(c, t, q / c.pagesz) ensures t.buf[At(c, q)] == t.stream[q] {
      ConfirmByte(c, s, len, q);
    }
  }

  lemma ConfirmInv(c: Config, s: Channel, len: nat)
    requires Inv(c, s) && len <= s.lent
    ensures Inv(c, Confirm(c, s, len))
  {
    hide Shape, CursorInv, PagesInv, ContentInv, Place;
    ConfirmCursor(c, s, len);
    ConfirmContent(c, s, len);
    PagesCarry(c, s, Confirm(c, s, len));
  }

  // --------------------------------------------------------------- returns

  /** FreePage's effect on one slot. */
  predicate SlotOk(c: Config, t: Channel, i: nat, n: nat)
    requires i < |t.occupied| && i < |t.inUse|
  {
    t.inUse[i] == (n != c.pagesz) && t.occupied[i] == if n == c.pagesz then 0 else n
  }

  /** What is left in slot k when i has m bytes, j has n bytes and both are freed if full. */
  predicate SlotsOk(c: Config, s: Channel, t: Channel, i: nat, j: nat, m: nat, n: nat) {
    && |t.occupied| == |t.inUse| == |s.occupied| == |s.inUse| && i < |s.occupied| && j < |s.occupied|
    && SlotOk(c, t, i, m) && SlotOk(c, t, j, n)
    && forall k :: 0 <= k < |s.occupied| && k != i && k != j ==>
         t.inUse[k] == s.inUse[k] && t.occupied[k] == s.occupied[k]
  }

  lemma FreeBoth(c: Config, s: Channel, u: Channel, i: nat, j: nat, m: nat, n: nat)
    requires |s.inUse| == |s.occupied| && i < |s.inUse| && j < |s.inUse| && i != j && s.inUse[i] && s.inUse[j]
    requires u.inUse == s.inUse && u.occupied == s.occupied[i := m][j := n]
    ensures SlotsOk(c, s, FreePage(c, FreePage(c, u, i), j), i, j, m, n)
  {
  }

  lemma AddExact(x: nat, y: int, n: nat)
    requires y >= 0 && y % TWO32 == n && x + n < TWO32
    ensures AddU32(x, y) == x + n
  {
    DivModIs(x + y, TWO32, y / TWO32, x + n);
  }

  lemma AddFirst(c: Config, x: nat, start: nat, m: nat)
    requires Ok(c) && m == x + (c.pagesz - start % c.pagesz) <= c.pagesz && FirstPart(c, start) >= 0
    ensures AddU32(x, FirstPart(c, start)) == m
  {
    FirstPartIs(c, start);
    AddExact(x, FirstPart(c, start), c.pagesz - start % c.pagesz);
  }

  lemma AddSecond(c: Config, x: nat, end: nat)
    requires Ok(c) && Maskable(c)
    ensures var n := x + (end % c.pagesz + 1); n <= c.pagesz ==> AddU32(x, SecondPart(c, end)) == n
  {
    SecondPartIs(c, end);
    var n := end % c.pagesz + 1;
    if x + n <= c.pagesz { AddExact(x, SecondPart(c, end), n); }
  }

  /** Inside one page: the slot gets all len bytes. */
  lemma PutOneSlot(c: Config, s: Channel, start: nat, len: nat)
    requires Shape(c, s) && 1 <= len <= c.pagesz
    requires var i := PageIdx(c, start);
      i == PageIdx(c, start + len - 1) && s.inUse[i] && s.occupied[i] + len <= c.pagesz
    ensures var i, t := PageIdx(c, start), PutBuffer(c, s, start, len);
      SlotsOk(c, s, t, i, i, s.occupied[i] + len, s.occupied[i] + len)
  {
    hide PageIdx, FirstPart, SecondPart, Interval;
    var i := PageIdx(c, start);
    AddExact(s.occupied[i], len, len);
  }

  /** Across a border: the first slot gets what is left of its page, the second the rest, whatever
      the high half of the sequence number is. */
  lemma PutTwoSlots(c: Config, s: Channel, start: nat, len: nat, m: nat, n: nat)
    requires Maskable(c) && Shape(c, s) && 1 <= len
    ensures var i, j := PageIdx(c, start), PageIdx(c, start + len - 1);
      && i != j && s.inUse[i] && s.inUse[j]
      && m == s.occupied[i] + (c.pagesz - start % c.pagesz) <= c.pagesz
      && n == s.occupied[j] + ((start + len - 1) % c.pagesz + 1) <= c.pagesz
      ==> SlotsOk(c, s, PutBuffer(c, s, start, len), i, j, m, n)
  {
    hide PageIdx, FirstPart, SecondPart, Interval, FreePage, SlotsOk, AddU32;
    var end := start + len - 1;
    var i, j := PageIdx(c, start), PageIdx(c, end);
    if && i != j && s.inUse[i] && s.inUse[j]
       && m == s.occupied[i] + (c.pagesz - start % c.pagesz) <= c.pagesz
       && n == s.occupied[j] + (end % c.pagesz + 1) <= c.pagesz {
      FirstPartIs(c, start);
      AddFirst(c, s.occupied[i], start, m);
      AddSecond(c, s.occupied[j], end);
      var u := s.(occupied := s.occupied[i := m][j := n], returned := s.returned + Interval(start, len));
      FreeBoth(c, s, u, i, j, m, n);
    }
  }

  lemma PieceLive(c: Config, s: Channel, start: nat, len: nat)
    requires Inv(c, s) && Enabled(c, s, Return(start, len))
    ensures var g, h := start / c.pagesz, (start + len - 1) / c.pagesz;
      Live(c, s, g) && Live(c, s, h) && !Full(c, s.returned, g) && !Full(c, s.returned, h)
  {
    Outstanding(c, s, start);
    Outstanding(c, s, start + len - 1);
  }

  /** How much of a piece belongs to generation g. */
  function Share(c: Config, start: nat, len: nat, g: int): (n: nat)
    requires Ok(c) && len >= 1
  {
    var z, end := c.pagesz, start + len - 1;
    if start / z == end / z then (if g == start / z then len else 0)
    else if g == start / z then z - start % z else if g == end / z then end % z + 1 else 0
  }

  lemma ShareOf(c: Config, start: nat, len: nat)
    requires Ok(c) && len >= 1
    ensures var z, end := c.pagesz, start + len - 1;
      && Share(c, start, len, start / z) == (if start / z == end / z then len else z - start % z)
      && Share(c, start, len, end / z) == (if start / z == end / z then len else end % z + 1)
  {
  }

  lemma ShareIsCount(c: Config, start: nat, len: nat, g: int)
    requires Ok(c) && 1 <= len <= c.pagesz
    ensures Count(c, Interval(start, len), g) == Share(c, start, len, g)
  {
    hide Count, Interval, Ok;
    if start / c.pagesz == (start + len - 1) / c.pagesz {
      OnePage(c, start, len, g);
    } else {
      Crossing(start, len, c.pagesz);
      TwoPages(c, start, len, g);
    }
  }

  /** How many bytes of generation g are returned once the piece is. */
  function After(c: Config, s: Channel, start: nat, len: nat, g: int): nat
    requires Ok(c)
  {
    Count(c, s.returned + Interval(start, len), g)
  }

  lemma AfterIs(c: Config, s: Channel, start: nat, len: nat, g: int)
    requires Ok(c) && Enabled(c, s, Return(start, len))
    ensures After(c, s, start, len, g) == Count(c, s.returned, g) + Share(c, start, len, g)
    ensures g >= 0 ==> After(c, s, start, len, g) <= c.pagesz
  {
    hide Count, Interval, Share, Ok;
    CountAdds(c, s.returned, Interval(start, len), g);
    ShareIsCount(c, start, len, g);
    if g >= 0 { CountAtMost(c, s.returned + Interval(start, len), g); }
  }

  lemma LivePage(c: Config, s: Channel, g: int)
    requires Inv(c, s) && Live(c, s, g)
    ensures PageOk(c, s, g)
  {
    hide PageOk, CursorInv, ContentInv;
  }

  /** A page with bytes to come back is marked and counted. */
  lemma OpenByte(c: Config, s: Channel, q: nat)
    requires Shape(c, s) && PageOk(c, s, q / c.pagesz) && !Full(c, s.returned, q / c.pagesz)
    ensures s.inUse[PageIdx(c, q)] && s.occupied[PageIdx(c, q)] == Count(c, s.returned, q / c.pagesz)
  {
    hide Count, Full;
  }

  lemma ByteAfter(c: Config, s: Channel, start: nat, len: nat, q: nat)
    requires Ok(c) && Enabled(c, s, Return(start, len))
    ensures var g := q / c.pagesz;
      After(c, s, start, len, g) == Count(c, s.returned, g) + Share(c, start, len, g) <= c.pagesz
  {
    hide Share, Interval, Count, After, Enabled;
    AfterIs(c, s, start, len, q / c.pagesz);
  }

  /** Two live generations share a slot only if they are the same. */
  lemma SlotsDistinct(c: Config, s: Channel, g: int, h: int)
    requires Ok(c) && Live(c, s, g) && Live(c, s, h) && g % c.pagenr == h % c.pagenr
    ensures g == h
  {
    RingInjective(g, h, c.pagenr);
  }

  /** The slot of an outstanding byte is marked, and has room for the piece's share. */
  lemma SlotOpen(c: Config, s: Channel, start: nat, len: nat, q: nat)
    requires Inv(c, s) && Enabled(c, s, Return(start, len)) && start <= q < start + len
    ensures var i, n := PageIdx(c, q), After(c, s, start, len, q / c.pagesz);
      s.inUse[i] && n == s.occupied[i] + Share(c, start, len, q / c.pagesz) <= c.pagesz
  {
    hide Full, Share, PagesInv, ContentInv, CursorInv, Interval, After, Live, Count;
    Outstanding(c, s, q);
    LivePage(c, s, q / c.pagesz);
    OpenByte(c, s, q);
    ByteAfter(c, s, start, len, q);
  }

  lemma EndsDistinct(c: Config, s: Channel, start: nat, len: nat)
    requires Inv(c, s) && Enabled(c, s, Return(start, len))
    ensures PageIdx(c, start) == PageIdx(c, start + len - 1)
      <==> start / c.pagesz == (start + len - 1) / c.pagesz
  {
    hide Full, PagesInv, ContentInv, CursorInv, Interval;
    PieceLive(c, s, start, len);
    if PageIdx(c, start) == PageIdx(c, start + len - 1) {
      SlotsDistinct(c, s, start / c.pagesz, (start + len - 1) / c.pagesz);
    }
  }

  lemma PutSlots(c: Config, s: Channel, start: nat, len: nat)
    requires Maskable(c)
    requires Inv(c, s) && Enabled(c, s, Return(start, len))
    ensures var end := start + len - 1;
      SlotsOk(c, s, PutBuffer(c, s, start, len), PageIdx(c, start), PageIdx(c, end),
              After(c, s, start, len, start / c.pagesz), After(c, s, start, len, end / c.pagesz))
  {
    hide Interval, PutBuffer, SlotsOk, After, PagesInv, ContentInv, CursorInv, Share, PageIdx;
    var end := start + len - 1;
    SlotOpen(c, s, start, len, start);
    SlotOpen(c, s, start, len, end);
    EndsDistinct(c, s, start, len);
    ShareOf(c, start, len);
    if PageIdx(c, start) == PageIdx(c, end) {
      PutOneSlot(c, s, start, len);
    } else {
      PutTwoSlots(c, s, start, len, After(c, s, start, len, start / c.pagesz), After(c, s, start, len, end / c.pagesz));
    }
  }

  lemma PutFrame(c: Config, s: Channel, start: nat, len: nat)
    requires Shape(c, s) && 1 <= len
    ensures var t := PutBuffer(c, s, start, len);
      t == s.(occupied := t.occupied, inUse := t.inUse, returned := s.returned + Interval(start, len))
      && |t.occupied| == |s.occupied| && |t.inUse| == |s.inUse|
  {
    hide Ok, FirstPart, SecondPart, AddU32, Interval;
    FirstPartIs(c, start);
  }

  lemma PutCursor(c: Config, s: Channel, start: nat, len: nat)
    requires Shape(c, s) && Enabled(c, s, Return(start, len)) && CursorInv(c, s)
    ensures Shape(c, PutBuffer(c, s, start, len)) && CursorInv(c, PutBuffer(c, s, start, len))
  {
    hide Ok, PutBuffer;
    PutFrame(c, s, start, len);
  }

  lemma PutPage(c: Config, s: Channel, start: nat, len: nat, x: int)
    requires Live(c, s, x) && Inv(c, s) && Enabled(c, s, Return(start, len)) && Maskable(c)
    ensures Shape(c, PutBuffer(c, s, start, len)) && PageOk(c, PutBuffer(c, s, start, len), x)
  {
    hide Count, Interval, PutBuffer, Live, ContentInv, CursorInv, Share;
    PutFrame(c, s, start, len);
    PutCursor(c, s, start, len);
    var g, h := start / c.pagesz, (start + len - 1) / c.pagesz;
    PieceLive(c, s, start, len);
    PutSlots(c, s, start, len);
    if x != g && x != h {
      if x % c.pagenr == g % c.pagenr { SlotsDistinct(c, s, x, g); }
      if x % c.pagenr == h % c.pagenr { SlotsDistinct(c, s, x, h); }
      AfterIs(c, s, start, len, x);
      ShareElsewhere(c, start, len, x);
      assert PageOk(c, s, x);
    }
  }

  lemma ShareElsewhere(c: Config, start: nat, len: nat, x: int)
    requires Ok(c) && len >= 1 && x != start / c.pagesz && x != (start + len - 1) / c.pagesz
    ensures Share(c, start, len, x) == 0
  {
  }

  lemma StaysFull(c: Config, s: Channel, start: nat, len: nat, x: int)
    requires Ok(c) && Enabled(c, s, Return(start, len)) && Full(c, s.returned, x)
    ensures Full(c, s.returned + Interval(start, len), x)
  {
    hide Count, Interval, Ok, Share;
    AfterIs(c, s, start, len, x);
  }

  lemma PutInv(c: Config, s: Channel, start: nat, len: nat)
    requires Maskable(c)
    requires Inv(c, s) && Enabled(c, s, Return(start, len))
    ensures Inv(c, PutBuffer(c, s, start, len))
  {
    hide PutBuffer, Full, Interval, Count, Ok, CursorInv, PageOk, At;
    PutFrame(c, s, start, len);
    PutCursor(c, s, start, len);
    var t := PutBuffer(c, s, start, len);
    forall x | Live(c, t, x) ensures PageOk(c, t, x) { PutPage(c, s, start, len, x); }
    forall x | x <= Top(t) - c.pagenr ensures Full(c, t.returned, x) { StaysFull(c, s, start, len, x); }
  }

  // ------------------------------------------------------------- whole runs

  lemma ApplyInv(c: Config, s: Channel, e: Event)
    requires Maskable(c)
    requires Inv(c, s) && Enabled(c, s, e) && !s.stop && e != Halt
    ensures Inv(c, Apply(c, s, e))
  {
    hide Inv, Advance, Take, Fill, Confirm, PutBuffer;
    match e
    case Get =>
      AdvanceInv(c, s);
      assert !Advance(c, s).stop by { AdvanceStop(c, s); }
      TakeInv(c, Advance(c, s));
    case Store(i, b) => FillInv(c, s, i, b);
    case Publish(len) => ConfirmInv(c, s, len);
    case Return(start, len) => PutInv(c, s, start, len);
  }

  lemma AdvanceStop(c: Config, s: Channel)
    ensures Advance(c, s).stop == s.stop
  {
  }

  /** A stop is for good. */
  lemma StopStays(c: Config, s: Channel, e: Event)
    requires Shape(c, s) && Enabled(c, s, e) && (s.stop || e == Halt)
    ensures Apply(c, s, e).stop
  {
    hide Ok, Place, Interval, PageIdx, FirstPart, SecondPart;
  }

  lemma {:induction false} StopForGood(c: Config, s: Channel, es: seq<Event>, t: Channel)
    requires Run(c, s, es, t) && s.stop
    ensures t.stop
    decreases |es|
  {
    hide Apply, Enabled, Shape;
    if es != [] {
      StopStays(c, s, es[0]);
      StopForGood(c, Apply(c, s, es[0]), es[1..], t);
    }
  }

  lemma {:induction false} RunInv(c: Config, s: Channel, es: seq<Event>, t: Channel)
    requires Inv(c, s) && Maskable(c) && Run(c, s, es, t) && !t.stop
    ensures Inv(c, t)
    decreases |es|
  {
    hide Apply, Enabled, Shape, Inv;
    if es != [] {
      var u := Apply(c, s, es[0]);
      if u.stop {
        StopForGood(c, u, es[1..], t);
      } else {
        if s.stop || es[0] == Halt { StopStays(c, s, es[0]); }
        ApplyInv(c, s, es[0]);
        RunInv(c, u, es[1..], t);
      }
    }
  }

  lemma ReachableInv(c: Config, t: Channel)
    requires Reachable(c, t) && !t.stop
    ensures Inv(c, t)
  {
    hide Inv, CreateWorker;
    var es :| Run(c, CreateWorker(c), es, t);
    CreateInv(c);
    RunInv(c, CreateWorker(c), es, t);
  }

  // --------------------------------------------------------- main theorems

  lemma PositionIsAt(c: Config, q: nat)
    requires Ok(c)
    ensures Position(c, q) == At(c, q)
  {
    WrapAddress(q, c.pagenr, c.pagesz);
  }

  /** In every reachable state that was not stopped, a byte that is ready and not yet returned is
      read back unchanged through its position: the ring behaves like the append-only stream. */
  lemma OutstandingReadsStream(c: Config, t: Channel, q: nat)
    requires Reachable(c, t) && !t.stop && Ready(t, q + 1) && q !in t.returned
    ensures Shape(c, t) && |t.stream| == t.sequence
    ensures t.buf[Position(c, q)] == t.stream[q]
  {
    hide Position, At, Full, PagesInv;
    ReachableInv(c, t);
    Outstanding(c, t, q);
    PositionIsAt(c, q);
  }

  /** Ready means that every byte below q was confirmed. */
  lemma ReadyMeans(c: Config, t: Channel, q: nat)
    requires Reachable(c, t) && !t.stop
    ensures Ready(t, q) <==> q <= |t.stream|
  {
    hide Full, PagesInv, At;
    ReachableInv(c, t);
  }

  // ------------------------------------------------------- what the writer gets

  /** The page being filled is full, or the writer already left it and has no new one yet. */
  predicate NeedsPage(c: Config, s: Channel) { s.waiting || s.pos == c.pagesz }

  lemma AdvanceKeeps(c: Config, s: Channel)
    ensures var u := Advance(c, s);
      && u.sequence == s.sequence && u.returned == s.returned && u.stop == s.stop && u.stream == s.stream
      && (u.waiting <==> NeedsPage(c, s)) && (c.pagesz > 0 && !u.waiting ==> u.pos != c.pagesz)
  {
  }

  lemma TakeKeeps(c: Config, u: Channel)
    requires u.page < |u.inUse| && u.pos <= c.pagesz
    ensures var (t, r) := Take(c, u);
      && t.sequence == u.sequence && t.returned == u.returned
      && (r.Null? <==> u.waiting && u.stop) && (r.Wait? <==> u.waiting && !u.stop && u.inUse[u.page])
      && (r.Lent? ==> t.lent == r.len == c.pagesz - u.pos && t.page == u.page && t.pos == u.pos && !t.waiting)
  {
  }

  /** The slot of the page that the writer moved to is in use exactly while some byte of the generation
      that last used it is not returned. */
  lemma SlotBusy(c: Config, u: Channel)
    requires Inv(c, u) && u.waiting
    ensures u.inUse[u.page] <==> !Full(c, u.returned, u.gen - c.pagenr)
  {
    hide Full, Count;
    RingPeriod(u.gen, c.pagenr);
    assert PageOk(c, u, u.gen - c.pagenr);
  }

  /** The generation that the writer needs, by its sequence number. */
  lemma NeededPage(c: Config, u: Channel)
    requires Shape(c, u) && CursorInv(c, u) && u.pos < c.pagesz
    ensures u.sequence / c.pagesz == u.gen && u.sequence % c.pagesz == u.pos
  {
    DivModIs(u.sequence, c.pagesz, u.gen, u.pos);
  }

  /** Some byte of generation g was not returned. */
  predicate SomeOutstanding(c: Config, r: set<nat>, g: int) {
    g >= 0 && exists q :: g * c.pagesz <= q < g * c.pagesz + c.pagesz && q !in r
  }

  lemma OutstandingIff(c: Config, r: set<nat>, g: int)
    requires Ok(c)
    ensures SomeOutstanding(c, r, g) <==> !Full(c, r, g)
  {
    if g >= 0 { FullIff(c, r, g); }
  }

  /** When the writer has to wait, in every reachable state that was not stopped: if and only if it
      needs a new page and some byte of the page that was there a whole buffer earlier is not
      returned. It is sent away only after a stop. */
  lemma WaitsIff(c: Config, s: Channel)
    requires Reachable(c, s) && !s.stop
    ensures Shape(c, s) && !GetBuffer(c, s).1.Null?
    ensures GetBuffer(c, s).1.Wait? <==>
      NeedsPage(c, s) && SomeOutstanding(c, s.returned, s.sequence / c.pagesz - c.pagenr)
  {
    hide PagesInv, ContentInv, Full, Advance, Take, SomeOutstanding;
    ReachableInv(c, s);
    var u := Advance(c, s);
    AdvanceInv(c, s);
    AdvanceKeeps(c, s);
    TakeKeeps(c, u);
    if u.waiting {
      SlotBusy(c, u);
      NeededPage(c, u);
      OutstandingIff(c, s.returned, u.gen - c.pagenr);
    }
  }

  /** Whatever the state, a writer is sent away exactly when it needs a page after a stop. */
  lemma NullIff(c: Config, s: Channel)
    requires Shape(c, s)
    ensures GetBuffer(c, s).1.Null? <==> NeedsPage(c, s) && s.stop
  {
    AdvanceKeeps(c, s);
  }

  lemma LentPlace(c: Config, t: Channel)
    requires Inv(c, t) && t.lent > 0
    ensures Position(c, t.sequence) == Place(c, t)
  {
    hide PagesInv, ContentInv, At, Position, Place;
    NewByteAt(c, t, 0);
    PositionIsAt(c, t.sequence);
  }

  lemma LentMisses(c: Config, t: Channel, q: nat)
    requires Inv(c, t) && q < t.sequence && q !in t.returned
    ensures !(Place(c, t) <= Position(c, q) < Place(c, t) + t.lent)
  {
    hide PagesInv, ContentInv, At, Position, Place, Full, CursorInv;
    Outstanding(c, t, q);
    PositionIsAt(c, q);
    if Place(c, t) <= Position(c, q) < Place(c, t) + t.lent {
      FillMisses(c, t, Position(c, q) - Place(c, t), q);
    }
  }

  /** What the writer is given, in every reachable state that was not stopped: from the position of the
      next sequence number to the end of its page, and no byte there is confirmed and outstanding. */
  lemma LentIsFree(c: Config, s: Channel, a: nat, n: nat)
    requires Reachable(c, s) && !s.stop
    requires Shape(c, s) && GetBuffer(c, s).1 == Lent(a, n)
    ensures a == Position(c, s.sequence) && n == c.pagesz - s.sequence % c.pagesz > 0
    ensures forall q: nat :: q < s.sequence && q !in s.returned ==> !(a <= Position(c, q) < a + n)
  {
    hide PagesInv, ContentInv, Full, Advance, Position, At;
    ReachableInv(c, s);
    var u := Advance(c, s);
    AdvanceInv(c, s);
    AdvanceKeeps(c, s);
    TakeInv(c, u);
    var t := Take(c, u).0;
    TakeKeeps(c, u);
    NeededPage(c, u);
    LentPlace(c, t);
    forall q: nat | q < s.sequence && q !in s.returned ensures !(a <= Position(c, q) < a + n) {
      LentMisses(c, t, q);
    }
  }

  /** Page accounting in every reachable state that was not stopped. For each page slot there is
      the generation g that it holds; the counter is the number of returned bytes of g and below
      a page, and the page is free exactly when all bytes of g were confirmed and returned. */
  lemma PageAccounting(c: Config, t: Channel, g: int)
    requires Reachable(c, t) && !t.stop && Live(c, t, g)
    ensures Shape(c, t)
    ensures var i := g % c.pagenr;
      && t.occupied[i] < c.pagesz
      && (t.inUse[i] ==> t.occupied[i] == Count(c, t.returned, g))
      && (!t.inUse[i] <==> g < 0 || forall q :: g * c.pagesz <= q < g * c.pagesz + c.pagesz ==> q in t.returned)
      && (g >= 0 && !t.inUse[i] ==> g * c.pagesz + c.pagesz <= t.sequence)
  {
    hide ContentInv;
    ReachableInv(c, t);
    assert PageOk(c, t, g);
    if g >= 0 {
      CountAtMost(c, t.returned, g);
      FullIff(c, t.returned, g);
      if Full(c, t.returned, g) {
        InsidePages(0, 1, c.pagesz, c.pagesz - 1);
        MulMonotone(0, g, c.pagesz);
        assert g * c.pagesz + (c.pagesz - 1) in t.returned;
      }
    }
  }

  /** The bytes of generation g, by their borders. */
  lemma PageBytesAll(c: Config, r: set<nat>, g: nat, a: nat)
    requires Ok(c) && a == g * c.pagesz && forall q :: a <= q < a + c.pagesz ==> q in r
    ensures PageBytes(c, r, g) >= Interval(a, c.pagesz)
  {
    forall q | q in Interval(a, c.pagesz) ensures q in PageBytes(c, r, g) {
      DivModIs(q, c.pagesz, g, q - a);
    }
  }

  lemma FullIff(c: Config, r: set<nat>, g: nat)
    requires Ok(c)
    ensures g * c.pagesz >= 0
    ensures Full(c, r, g) <==> forall q :: g * c.pagesz <= q < g * c.pagesz + c.pagesz ==> q in r
  {
    hide Ok, PageBytes, Interval;
    PageInInterval(c, r, g);
    var a: nat, z := g * c.pagesz, c.pagesz;
    var d, b := Interval(a, z), PageBytes(c, r, g);
    SubsetSize(b, d);
    if Full(c, r, g) {
      forall q | a <= q < a + z ensures q in r { assert q in b; ReturnedBytes(c, r, g, q); }
    }
    if forall q :: a <= q < a + z ==> q in r {
      PageBytesAll(c, r, g, a);
      assert b == d;
    }
  }

  lemma ReturnedBytes(c: Config, r: set<nat>, g: nat, q: nat)
    requires Ok(c) && q in PageBytes(c, r, g)
    ensures q in r
  {
  }

  // ------------------------------------------------- addresses and lengths

  lemma RoomAt(r: int, p: int, z: int, o: int, n: int)
    requires 0 <= r < p && 0 <= o < z && n <= z && (r == p - 1 ==> o + n <= z)
    ensures r * z + o + n <= p * z
  {
    if r == p - 1 {
      assert (r + 1) * z == r * z + z;
    } else {
      assert (r + 2) * z == r * z + 2 * z;
      MulMonotone(r + 2, p, z);
    }
  }

  lemma NextAddress(q: nat, i: nat, b: int)
    requires b > 0 && q % b + i < b
    ensures (q + i) % b == q % b + i
  {
    DivModIs(q + i, b, q / b, q % b + i);
  }

  lemma PositionRoom(c: Config, start: nat, n: nat)
    requires Ok(c) && n <= c.pagesz && (PageIdx(c, start) == c.pagenr - 1 ==> n <= c.pagesz - start % c.pagesz)
    ensures Position(c, start) + n <= c.pagenr * c.pagesz
  {
    WrapAddress(start, c.pagenr, c.pagesz);
    RoomAt(PageIdx(c, start), c.pagenr, c.pagesz, start % c.pagesz, n);
  }

  lemma PositionNext(c: Config, start: nat, i: nat)
    requires Ok(c) && Position(c, start) + i < c.pagenr * c.pagesz
    ensures Position(c, start + i) == Position(c, start) + i
  {
    NextAddress(start, i, c.pagenr * c.pagesz);
  }

  /** The length answered for an interval of at most a page keeps the range inside the buffer,
      with every byte at its own position, and is cut only at the end of the buffer. */
  lemma PositionLengthFits(c: Config, start: nat, len: nat)
    requires Ok(c) && 1 <= len <= c.pagesz
    ensures var (a, n) := PositionLength(c, start, len);
      && 1 <= n <= len && a + n <= c.pagenr * c.pagesz
      && (n == len || a + n == c.pagenr * c.pagesz)
      && forall q: nat :: start <= q < start + n ==> Position(c, q) == a + (q - start)
  {
    hide Ok, PageIdx, FirstPart, Position;
    var (a, n) := PositionLength(c, start, len);
    FirstPartIs(c, start);
    PositionRoom(c, start, n);
    forall q: nat | start <= q < start + n ensures Position(c, q) == a + (q - start) {
      PositionNext(c, start, q - start);
    }
    if n != len { LastPage(c, start); }
  }

  lemma LastPage(c: Config, start: nat)
    requires Ok(c) && PageIdx(c, start) == c.pagenr - 1
    ensures Position(c, start) + (c.pagesz - start % c.pagesz) == c.pagenr * c.pagesz
  {
    WrapAddress(start, c.pagenr, c.pagesz);
    assert (c.pagenr - 1) * c.pagesz == c.pagenr * c.pagesz - c.pagesz;
  }

  lemma AddressOfPage(c: Config, q: nat)
    requires Ok(c)
    ensures Position(c, q) / c.pagesz == PageIdx(c, q)
  {
    WrapAddress(q, c.pagenr, c.pagesz);
    DivModIs(Position(c, q), c.pagesz, PageIdx(c, q), q % c.pagesz);
  }

  lemma CrossingSlots(c: Config, start: nat, len: nat)
    requires Ok(c) && 1 <= len <= c.pagesz
    ensures PageIdx(c, start) == PageIdx(c, start + len - 1) <==> start / c.pagesz == (start + len - 1) / c.pagesz
    ensures start / c.pagesz != (start + len - 1) / c.pagesz ==> (start + len - 1) % c.pagesz + 1 < c.pagesz
  {
    if start / c.pagesz != (start + len - 1) / c.pagesz {
      Crossing(start, len, c.pagesz);
      RingNext(start / c.pagesz, c.pagenr);
    }
  }

  /** Returning by address changes the page state exactly as returning by sequence number does,
      if and only if the piece does not cross a page border. */
  lemma ReturnByAddress(c: Config, s: Channel, start: nat, len: nat)
    requires Maskable(c)
    requires Shape(c, s) && 1 <= len <= c.pagesz
    ensures PutBuffer2(c, s, Position(c, start), len).(returned := s.returned + Interval(start, len))
         == PutBuffer(c, s, start, len)
      <==> start / c.pagesz == (start + len - 1) / c.pagesz
  {
    hide Interval, PageIdx, Position, AddU32, FirstPart, SecondPart, Ok;
    AddressOfPage(c, start);
    CrossingSlots(c, start, len);
    if start / c.pagesz != (start + len - 1) / c.pagesz {
      SecondSlotChanges(c, s, start, len);
    }
  }

  /** Across a border the second page's counter or mark changes, which an address cannot tell. */
  lemma SecondSlotChanges(c: Config, s: Channel, start: nat, len: nat)
    requires Maskable(c)
    requires Shape(c, s) && 1 <= len <= c.pagesz && start / c.pagesz != (start + len - 1) / c.pagesz
    requires PageIdx(c, start) != PageIdx(c, start + len - 1)
    ensures var j := PageIdx(c, start + len - 1);
      PutBuffer(c, s, start, len).occupied[j] != PutBuffer2(c, s, Position(c, start), len).occupied[j]
  {
    hide Interval, PageIdx, Position, AddU32, FirstPart, SecondPart;
    var end := start + len - 1;
    var j := PageIdx(c, end);
    AddressOfPage(c, start);
    CrossingSlots(c, start, len);
    AddChanges(c, s.occupied[j], end);
  }

  lemma AddChanges(c: Config, x: nat, end: nat)
    requires Ok(c) && Maskable(c)
    ensures AddU32(x, SecondPart(c, end)) != x
    ensures end % c.pagesz + 1 < c.pagesz && AddU32(x, SecondPart(c, end)) == c.pagesz ==> x != 0
  {
    SecondPartIs(c, end);
    var n := end % c.pagesz + 1;
    var y := SecondPart(c, end);
    if x + n < TWO32 {
      AddExact(x, y, n);
    } else if x < TWO32 {
      DivModIs(x + y, TWO32, y / TWO32 + 1, x + n - TWO32);
    }
  }

  /** The two counters that a crossing piece bumps grow, modulo 2^32, by exactly len together,
      although the mask drops the high half of the last sequence number. */
  lemma SplitSums(c: Config, start: nat, len: nat)
    requires Maskable(c)
    requires Ok(c) && 1 <= len <= c.pagesz && start / c.pagesz != (start + len - 1) / c.pagesz
    ensures FirstPart(c, start) + SecondPart(c, start + len - 1) % TWO32 == len
  {
    FirstPartIs(c, start);
    SecondPartIs(c, start + len - 1);
    Crossing(start, len, c.pagesz);
  }
}
