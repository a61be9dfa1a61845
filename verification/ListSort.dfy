/** The bottom-up merge sort of list_sort.c on linked nodes. */
module ListSort {
  import opened Nodes
  import opened MergeSpec
  import opened ListSortCounter

  /** The merged part so far (h), and what is left of the two inputs. */
  ghost predicate Merging(h: seq<Node>, a: seq<Node>, b: seq<Node>)
    reads h`next
  {
    h != [] && NoDup(h) && Linked(h) && Apart(h, a) && Apart(h, b) && Apart(a, b)
  }

  lemma ApartAppend(h: seq<Node>, a: seq<Node>, b: seq<Node>)
    requires a != [] && NoDup(a) && NoDup(h) && Apart(h, a) && Apart(h, b) && Apart(a, b)
    ensures NoDup(h + [a[0]]) && Apart(h + [a[0]], a[1..]) && Apart(h + [a[0]], b) && Apart(a[1..], b)
  {
    assert a[0] in a;
  }

  lemma ChainTail(s: seq<Node>)
    requires s != [] && Chain(s[0], s)
    ensures Chain(s[0].next, s[1..])
  {
    if |s| > 1 { assert s[0].next == s[1]; }
  }

  /** Moves the head of the chain s behind the merged part. */
  method TakeHead(tail: Node, x: Node, ghost h: seq<Node>, ghost s: seq<Node>, ghost other: seq<Node>)
    returns (rest: Node?)
    requires Merging(h, s, other) && h[|h| - 1] == tail && Chain(x, s) && s != []
    modifies tail`next
    ensures tail.next == x && Merging(h + [x], s[1..], other) && Chain(rest, s[1..])
  {
    ApartAppend(h, s, other);
    assert tail !in s by { assert tail in h; }
    tail.next := x;
    assert Linked(h) by {
      forall i | 0 <= i < |h| - 1 ensures h[i].next == h[i + 1] { assert h[i] != tail; }
    }
    ChainTail(s);
    rest := x.next;
  }

  ghost predicate Within(s: seq<Node>, t: seq<Node>) {
    forall x :: x in s ==> x in t
  }

  lemma WithinTail(s: seq<Node>, t: seq<Node>)
    requires Within(s, t) && s != []
    ensures Within(s[1..], t) && s[0] in t
  {
  }

  lemma ChainHead(p: Node?, s: seq<Node>)
    requires Chain(p, s)
    ensures p == null <==> s == []
    ensures s != [] ==> p == s[0]
  {
  }

  /** h followed by the merge of what is left stays the same whichever head is taken. */
  lemma MergeStep(cmp: (Node, Node) -> int, h: seq<Node>, a: seq<Node>, b: seq<Node>)
    requires h != [] && a != [] && b != []
    ensures cmp(a[0], b[0]) <= 0 ==> h[1..] + Merge(cmp, a, b) == (h + [a[0]])[1..] + Merge(cmp, a[1..], b)
    ensures cmp(a[0], b[0]) > 0 ==> h[1..] + Merge(cmp, a, b) == (h + [b[0]])[1..] + Merge(cmp, a, b[1..])
  {
  }

  lemma MergeEnd(cmp: (Node, Node) -> int, a: seq<Node>, b: seq<Node>)
    requires a == [] || b == []
    ensures Merge(cmp, a, b) == if a != [] then a else b
  {
  }

  /** Hangs the rest behind the merged part; the dummy in front is dropped by the caller. */
  method Finish(tail: Node, rest: Node?, ghost h: seq<Node>, ghost s: seq<Node>)
    requires h != [] && NoDup(h) && Linked(h) && Apart(h, s) && h[|h| - 1] == tail && Chain(rest, s)
    modifies tail`next
    ensures Chain(h[0].next, h[1..] + s)
  {
    assert tail !in s by { assert tail in h; }
    tail.next := rest;
    JoinNoDup(h, s);
    assert Chain(h[0], h + s) by {
      assert Chain(rest, s);
      forall i | 0 <= i < |h + s| - 1 ensures (h + s)[i].next == (h + s)[i + 1] {
        if i < |h| - 1 { assert h[i] != tail; }
      }
    }
    ChainTail(h + s);
    assert (h + s)[1..] == h[1..] + s;
  }

  method MergeChains(cmp: (Node, Node) -> int, a0: Node?, b0: Node?, ghost sa: seq<Node>, ghost sb: seq<Node>)
    returns (r: Node?)
    requires Chain(a0, sa) && Chain(b0, sb) && Apart(sa, sb)
    modifies Elems(sa), Elems(sb)
    ensures Chain(r, Merge(cmp, sa, sb))
  {
    hide Chain, Merge, Within;
    var head := new Node();
    var a, b, tail: Node := a0, b0, head;
    ghost var h: seq<Node>, ta, tb := [head], sa, sb;
    assert Within(sa, sa) && Within(sb, sb) by { AllWithin(sa); AllWithin(sb); }
    while a != null && b != null
      invariant Chain(a, ta) && Chain(b, tb) && Merging(h, ta, tb)
      invariant h[0] == head && h[|h| - 1] == tail
      invariant tail == head || tail in sa || tail in sb
      invariant Within(ta, sa) && Within(tb, sb)
      invariant h[1..] + Merge(cmp, ta, tb) == Merge(cmp, sa, sb)
      decreases |ta| + |tb|
    {
      assert tail in h;
      ChainHead(a, ta);
      ChainHead(b, tb);
      MergeStep(cmp, h, ta, tb);
      if cmp(a, b) <= 0 {
        WithinTail(ta, sa);
        var x := a;
        a := TakeHead(tail, x, h, ta, tb);
        h, ta, tail := h + [x], ta[1..], x;
      } else {
        WithinTail(tb, sb);
        var x := b;
        b := TakeHead(tail, x, h, tb, ta);
        h, tb, tail := h + [x], tb[1..], x;
      }
    }
    ChainHead(a, ta);
    ChainHead(b, tb);
    MergeEnd(cmp, ta, tb);
    if a != null { Finish(tail, a, h, ta); } else { Finish(tail, b, h, tb); }
    r := head.next;
  }

  lemma AllWithin(s: seq<Node>)
    ensures Within(s, s)
  {
  }

  // ------------------------------------------------ the last merge, with prev

  /** TakeHead that also sets the prev link. */
  method TakeHeadBack(tail: Node, x: Node, ghost h: seq<Node>, ghost s: seq<Node>, ghost other: seq<Node>)
    returns (rest: Node?)
    requires Merging(h, s, other) && BackLinked(h) && h[|h| - 1] == tail && Chain(x, s) && s != []
    modifies tail`next, x`prev
    ensures tail.next == x && Merging(h + [x], s[1..], other) && BackLinked(h + [x]) && Chain(rest, s[1..])
  {
    hide Chain;
    ChainHead(x, s);
    assert x !in h by { assert x in s; }
    rest := TakeHead(tail, x, h, s, other);
    x.prev := tail;
  }

  /** The last merge: leaves head and the merged nodes as a well-formed circular list. */
  method MergeAndRestoreBackLinks(cmp: (Node, Node) -> int, head: Node, a0: Node?, b0: Node?,
                                  ghost sa: seq<Node>, ghost sb: seq<Node>)
    requires Chain(a0, sa) && Chain(b0, sb) && Apart(sa, sb) && head !in sa && head !in sb
    requires a0 != null || b0 != null
    modifies head, Elems(sa), Elems(sb)
    ensures Ring(head, Merge(cmp, sa, sb))
  {
    hide Chain, Merge, Within;
    var a, b, tail: Node := a0, b0, head;
    ghost var h: seq<Node>, ta, tb := [head], sa, sb;
    assert Within(sa, sa) && Within(sb, sb) by { AllWithin(sa); AllWithin(sb); }
    HeadWithin(head, sa, sb);
    while a != null && b != null
      invariant Chain(a, ta) && Chain(b, tb) && Merging(h, ta, tb) && BackLinked(h)
      invariant h[0] == head && h[|h| - 1] == tail
      invariant tail == head || tail in sa || tail in sb
      invariant Within(h, [head] + sa + sb)
      invariant Within(ta, sa) && Within(tb, sb)
      invariant h[1..] + Merge(cmp, ta, tb) == Merge(cmp, sa, sb)
      invariant a != null || b != null
      decreases |ta| + |tb|
    {
      assert tail in h;
      ChainHead(a, ta);
      ChainHead(b, tb);
      MergeStep(cmp, h, ta, tb);
      if cmp(a, b) <= 0 {
        WithinTail(ta, sa);
        WithinAppend(h, a, head, sa, sb);
        var x := a;
        a := TakeHeadBack(tail, x, h, ta, tb);
        h, ta, tail := h + [x], ta[1..], x;
      } else {
        WithinTail(tb, sb);
        WithinAppend(h, b, head, sa, sb);
        var x := b;
        b := TakeHeadBack(tail, x, h, tb, ta);
        h, tb, tail := h + [x], tb[1..], x;
      }
    }
    ChainHead(a, ta);
    ChainHead(b, tb);
    MergeEnd(cmp, ta, tb);
    ghost var s := if a != null then ta else tb;
    OneOfThree(h, s, head, sa, sb);
    FinishRing(head, tail, if a != null then a else b, h, s);
  }

  lemma HeadWithin(head: Node, sa: seq<Node>, sb: seq<Node>)
    ensures Within([head], [head] + sa + sb)
  {
  }

  lemma OneOfThree(h: seq<Node>, s: seq<Node>, head: Node, sa: seq<Node>, sb: seq<Node>)
    requires Within(h, [head] + sa + sb) && (Within(s, sa) || Within(s, sb))
    ensures forall x :: x in h ==> x == head || x in sa || x in sb
    ensures forall x :: x in s ==> x in sa || x in sb
  {
  }

  lemma WithinAppend(h: seq<Node>, x: Node, head: Node, sa: seq<Node>, sb: seq<Node>)
    requires Within(h, [head] + sa + sb) && (x in sa || x in sb)
    ensures Within(h + [x], [head] + sa + sb)
  {
  }

  /** Hangs the rest behind the merged part, then gives it its prev links and closes the circle. */
  method FinishRing(head: Node, tail: Node, rest: Node?, ghost h: seq<Node>, ghost s: seq<Node>)
    requires h != [] && NoDup(h) && Linked(h) && BackLinked(h) && Apart(h, s)
    requires head == h[0] && tail == h[|h| - 1] && Chain(rest, s) && s != []
    modifies Elems(h), Elems(s)
    ensures Ring(head, h[1..] + s)
  {
    hide Ring;
    assert tail !in s by { assert tail in h; }
    SplitJoin(h, s);
    tail.next := rest;
    ChainConcat(h, s, rest);
    hide Chain, Linked, NoDup, Apart, BackLinked;
    RestoreBack(head, tail, h + s, |h| - 1);
  }

  lemma SplitJoin(h: seq<Node>, s: seq<Node>)
    requires h != []
    ensures (h + s)[|h| - 1] == h[|h| - 1] && (h + s)[..|h|] == h && (h + s)[1..] == h[1..] + s
    ensures (h + s)[0] == h[0] && forall x :: x in h + s <==> x in h || x in s
  {
  }

  lemma ChainConcat(h: seq<Node>, s: seq<Node>, rest: Node?)
    requires h != [] && s != [] && NoDup(h) && Linked(h) && Apart(h, s)
    requires Chain(rest, s) && h[|h| - 1].next == rest
    ensures Chain(h[0], h + s)
  {
    JoinNoDup(h, s);
  }

  lemma ChainAt(head: Node, w: seq<Node>, k: nat)
    requires Chain(head, w) && k < |w|
    ensures w[k].next == if k == |w| - 1 then null else w[k + 1]
  {
  }

  /** One step of the walk. */
  method SetPrev(tail: Node, ghost head: Node, ghost w: seq<Node>, ghost k: nat) returns (r: Node)
    requires k < |w| - 1 && Chain(head, w) && tail == w[k] && tail.next == w[k + 1] && BackLinked(w[..k + 1])
    modifies tail.next`prev
    ensures r == w[k + 1] && BackLinked(w[..k + 2])
  {
    assert w[k + 1] !in w[..k + 1];
    tail.next.prev := tail;
    r := tail.next;
  }

  /** Walks the chain w from its node k0 to the end, setting prev links, and closes the circle. */
  method RestoreBack(head: Node, tail0: Node, ghost w: seq<Node>, ghost k0: nat)
    requires k0 < |w| - 1 && Chain(head, w) && tail0 == w[k0] && BackLinked(w[..k0 + 1])
    modifies Elems(w)
    ensures Ring(head, w[1..])
  {
    hide Chain, BackLinked, Ring;
    var tail := tail0;
    ghost var k := k0;
    ChainAt(head, w, k);
    while tail.next != null
      invariant k0 <= k < |w| && tail == w[k] && Chain(head, w) && BackLinked(w[..k + 1])
      invariant tail.next == if k == |w| - 1 then null else w[k + 1]
      decreases |w| - k
    {
      tail := SetPrev(tail, head, w, k);
      k := k + 1;
      ChainAt(head, w, k);
    }
    assert w[..k + 1] == w;
    ChainHead(head, w);
    CloseRing(head, tail, w);
  }

  method CloseRing(head: Node, tail: Node, ghost w: seq<Node>)
    requires |w| > 1 && Chain(head, w) && BackLinked(w) && tail == w[|w| - 1]
    modifies tail`next, head`prev
    ensures Ring(head, w[1..])
  {
    tail.next := head;
    head.prev := tail;
    assert [head] + w[1..] == w;
  }

  // --------------------------------------------------------------- list_sort

  /** Slots lo and up of the array hold the chains parts. */
  ghost predicate Held(part: array<Node?>, parts: seq<seq<Node>>, dom: set<Node>, lo: nat)
    reads part, dom`next
  {
    && part.Length == |parts|
    && forall l :: lo <= l < |parts| ==> Over(parts[l], dom) && Chain(part[l], parts[l])
  }

  /** The sorted stretches share no node with each other or with the carried one. */
  lemma PartsApart(cmp: (Node, Node) -> int, parts: seq<seq<Node>>, segs: seq<seq<Node>>, c: seq<Node>, l: nat, m: nat)
    requires Parts(cmp, parts, segs) && Separate(segs, c) && l < |segs| && m < |segs|
    ensures l != m ==> Apart(parts[l], parts[m])
    ensures Apart(parts[l], Sort(cmp, c))
  {
    hide Sort;
    SortApart(cmp, segs[l], c);
    if l < m { SortApart(cmp, segs[l], segs[m]); }
    if m < l { SortApart(cmp, segs[m], segs[l]); }
  }

  /** One turn of the carry: slot lev is merged with the carried chain and emptied. */
  method CarryOne(cmp: (Node, Node) -> int, part: array<Node?>, lev: nat, cur: Node,
                  ghost parts: seq<seq<Node>>, ghost segs: seq<seq<Node>>, ghost c: seq<Node>, ghost dom: set<Node>)
    returns (r: Node)
    requires Held(part, parts, dom, 0) && Parts(cmp, parts, segs) && Carrying(segs, c, lev, dom) && Preorder(cmp, dom)
    requires Chain(cur, Sort(cmp, c)) && segs[lev] != []
    modifies part, dom
    ensures Held(part, parts[lev := []], dom, 0) && Chain(r, Sort(cmp, segs[lev] + c))
  {
    hide Chain, Sort, Merge, Sizes, Preorder;
    ghost var sc := Sort(cmp, c);
    SortOver(cmp, c, dom);
    PartsApart(cmp, parts, segs, c, lev, lev);
    var merged := MergeChains(cmp, part[lev], cur, parts[lev], sc);
    SortConcat(cmp, segs[lev], c, dom);
    SortEmpty(cmp, segs[lev] + c);
    ChainHead(merged, Sort(cmp, segs[lev] + c));
    forall l | 0 <= l < |parts| && l != lev ensures Chain(part[l], parts[l]) {
      PartsApart(cmp, parts, segs, c, l, lev);
    }
    part[lev] := null;
    EmptyChain();
    r := merged;
  }

  lemma EmptyChain()
    ensures Chain(null, [])
  {
  }

  /** The inner loop: carries the one-node chain x up to the first empty slot. */
  method CarryUp(cmp: (Node, Node) -> int, part: array<Node?>, x: Node,
                 ghost parts0: seq<seq<Node>>, ghost segs0: seq<seq<Node>>, ghost dom: set<Node>)
    returns (lev: nat, cur: Node, ghost parts: seq<seq<Node>>, ghost segs: seq<seq<Node>>, ghost c: seq<Node>)
    requires Held(part, parts0, dom, 0) && Parts(cmp, parts0, segs0) && Carrying(segs0, [x], 0, dom)
    requires Preorder(cmp, dom) && x.next == null
    modifies part, dom
    ensures Held(part, parts, dom, 0) && Parts(cmp, parts, segs) && Carrying(segs, c, lev, dom)
    ensures Chain(cur, Sort(cmp, c)) && segs[lev] == []
    ensures Joined(segs, 0) + c == Joined(segs0, 0) + [x]
    ensures forall l :: lev <= l < SLOTS ==> segs[l] == segs0[l]
  {
    hide Chain, Sort, Preorder, Parts, Sizes, Separate, AllOver, Over, Joined;
    lev, cur, parts, segs, c := 0, x, parts0, segs0, [x];
    assert Chain(x, Sort(cmp, [x])) by { OneSorted(cmp, x); OneChain(x); }
    SlotChain(cmp, part, parts, segs, lev, dom);
    while part[lev] != null
      invariant Held(part, parts, dom, 0) && Parts(cmp, parts, segs) && Carrying(segs, c, lev, dom)
      invariant Chain(cur, Sort(cmp, c)) && lev < part.Length
      invariant part[lev] == null <==> segs[lev] == []
      invariant Joined(segs, 0) + c == Joined(segs0, 0) + [x]
      invariant forall l :: lev <= l < SLOTS ==> segs[l] == segs0[l]
      decreases SLOTS - lev
    {
      cur := CarryOne(cmp, part, lev, cur, parts, segs, c, dom);
      CarryStep(segs, c, lev, dom);
      CarryJoins(segs, c, lev);
      assert Sort(cmp, []) == [] by { SortEmpty(cmp, []); }
      PartsUpdate(cmp, parts, segs, lev, []);
      parts, segs, c, lev := parts[lev := []], segs[lev := []], segs[lev] + c, lev + 1;
      SlotChain(cmp, part, parts, segs, lev, dom);
    }
  }

  lemma OneChain(x: Node)
    requires x.next == null
    ensures Chain(x, [x])
  {
  }

  lemma SlotChain(
      cmp: (Node, Node) -> int, part: array<Node?>, parts: seq<seq<Node>>, segs: seq<seq<Node>>, l: nat, dom: set<Node>)
    requires Held(part, parts, dom, 0) && Parts(cmp, parts, segs) && l < |segs|
    ensures part.Length == |segs| && (part[l] == null <==> segs[l] == [])
  {
    hide Chain, Sort;
    ChainHead(part[l], parts[l]);
    SortEmpty(cmp, segs[l]);
  }

  /** Counts one more node in: the new one is carried up, then stored, at most in the cap slot. */
  method Insert(cmp: (Node, Node) -> int, part: array<Node?>, x: Node, max0: nat,
                ghost parts0: seq<seq<Node>>, ghost segs0: seq<seq<Node>>, ghost dom: set<Node>)
    returns (max: nat, ghost parts: seq<seq<Node>>, ghost segs: seq<seq<Node>>)
    requires Held(part, parts0, dom, 0) && Parts(cmp, parts0, segs0) && Counted(segs0, max0, dom)
    requires Preorder(cmp, dom + {x}) && x !in dom && x.next == null
    modifies part, dom, x
    ensures Held(part, parts, dom + {x}, 0) && Parts(cmp, parts, segs) && Counted(segs, max, dom + {x})
    ensures Joined(segs, 0) == Joined(segs0, 0) + [x] && segs[max] != []
  {
    hide Chain, Sort, Preorder, Parts, Sizes, Separate, AllOver, Joined;
    StartCarry(segs0, max0, x, dom);
    var lev, cur;
    ghost var c;
    lev, cur, parts, segs, c := CarryUp(cmp, part, x, parts0, segs0, dom + {x});
    max := max0;
    ghost var to := Slot(lev);
    assert Counted(segs[to := c], if lev > max then to else max, dom + {x}) by {
      StoreMore(segs0, max0, segs, c, lev, dom, x);
    }
    StoreJoins(segs, c, to);
    SortOver(cmp, c, dom + {x});
    PartsUpdate(cmp, parts, segs, to, c);
    SlotChain(cmp, part, parts, segs, to, dom + {x});
    if lev > max {
      if lev >= 20 { lev := lev - 1; }
      max := lev;
    }
    part[lev] := cur;
    parts, segs := parts[to := Sort(cmp, c)], segs[to := c];
  }

  lemma StoreMore(
      before: seq<seq<Node>>, max: nat, segs: seq<seq<Node>>, c: seq<Node>, lev: nat, dom: set<Node>, x: Node)
    requires Counted(before, max, dom) && Carrying(segs, c, lev, dom + {x}) && segs[lev] == []
    requires forall l :: lev <= l < SLOTS ==> segs[l] == before[l]
    ensures Counted(segs[Slot(lev) := c], if lev > max then Slot(lev) else max, dom + {x})
  {
    forall l | 0 <= l < |before| ensures Over(before[l], dom + {x}) { assert Over(before[l], dom); }
    StoreStep(before, max, segs, c, lev, dom + {x});
  }

  /** The second loop: merges the chains below the top slot. */
  method Collapse(cmp: (Node, Node) -> int, part: array<Node?>, max: nat,
                  ghost parts: seq<seq<Node>>, ghost segs: seq<seq<Node>>, ghost dom: set<Node>)
    returns (list: Node?)
    requires Held(part, parts, dom, 0) && Parts(cmp, parts, segs) && Counted(segs, max, dom) && Preorder(cmp, dom)
    modifies dom
    ensures Chain(list, Sort(cmp, Low(segs, max))) && Chain(part[max], Sort(cmp, segs[max]))
  {
    hide Chain, Sort, Preorder, Sizes, Low;
    list := null;
    assert Chain(null, Sort(cmp, Low(segs, 0))) by { EmptyLow(cmp, segs); }
    var lev := 0;
    while lev < max
      invariant lev <= max && Held(part, parts, dom, lev) && Chain(list, Sort(cmp, Low(segs, lev)))
    {
      list := CollapseOne(cmp, part, list, lev, parts, segs, dom);
      lev := lev + 1;
    }
  }

  lemma EmptyLow(cmp: (Node, Node) -> int, segs: seq<seq<Node>>)
    ensures Chain(null, Sort(cmp, Low(segs, 0)))
  {
  }

  method CollapseOne(cmp: (Node, Node) -> int, part: array<Node?>, list: Node?, lev: nat,
                     ghost parts: seq<seq<Node>>, ghost segs: seq<seq<Node>>, ghost dom: set<Node>)
    returns (r: Node?)
    requires lev < |segs| && Held(part, parts, dom, lev) && Parts(cmp, parts, segs)
    requires Separate(segs, []) && AllOver(segs, dom) && Preorder(cmp, dom)
    requires Chain(list, Sort(cmp, Low(segs, lev)))
    modifies dom
    ensures Held(part, parts, dom, lev + 1) && Chain(r, Sort(cmp, Low(segs, lev + 1)))
  {
    hide Chain, Sort, Preorder, Separate, Merge, Low;
    ghost var low := Low(segs, lev);
    LowApart(segs, lev, lev, dom);
    SortApart(cmp, segs[lev], low);
    SortOver(cmp, low, dom);
    SortConcat(cmp, segs[lev], low, dom);
    LowNext(segs, lev);
    r := list;
    ChainHead(part[lev], parts[lev]);
    if part[lev] != null {
      r := MergeChains(cmp, part[lev], list, parts[lev], Sort(cmp, low));
    } else {
      SortEmpty(cmp, segs[lev]);
      assert segs[lev] + low == low;
    }
    forall l | lev < l < |parts| ensures Chain(part[l], parts[l]) {
      PartsApart(cmp, parts, segs, [], l, lev);
      LowApart(segs, lev, l, dom);
      SortApart(cmp, segs[l], low);
    }
  }

  lemma LowNext(segs: seq<seq<Node>>, lev: nat)
    requires lev < |segs|
    ensures Low(segs, lev + 1) == segs[lev] + Low(segs, lev)
  {
  }

  /** The first loop: cuts the ring open and counts every node in. */
  method CountAll(cmp: (Node, Node) -> int, part: array<Node?>, list0: Node?, ghost input: seq<Node>)
    returns (max: nat, ghost parts: seq<seq<Node>>, ghost segs: seq<seq<Node>>)
    requires Chain(list0, input) && Preorder(cmp, Elems(input)) && input != []
    requires part.Length == SLOTS && forall l :: 0 <= l < SLOTS ==> part[l] == null
    modifies part, Elems(input)
    ensures Held(part, parts, Elems(input), 0) && Parts(cmp, parts, segs) && Counted(segs, max, Elems(input))
    ensures Joined(segs, 0) == input && segs[max] != []
  {
    hide Chain, Preorder, Sort, Counted, Joined;
    max := 0;
    parts, segs := seq(SLOTS, i => []), seq(SLOTS, i => []);
    EmptyCounter(segs);
    EmptyChain();
    SortEmpty(cmp, []);
    var list := list0;
    ghost var n := 0;
    assert input[0..] == input && Elems(input[..0]) == {} && Joined(segs, 0) == input[..0];
    ChainNoDup(list, input);
    while list != null
      invariant n <= |input| && Chain(list, input[n..])
      invariant Held(part, parts, Elems(input[..n]), 0) && Parts(cmp, parts, segs)
      invariant Counted(segs, max, Elems(input[..n]))
      invariant Joined(segs, 0) == input[..n] && (n > 0 ==> max < |segs| && segs[max] != [])
      decreases |input| - n
    {
      ChainHead(list, input[n..]);
      var cur := list;
      list, max, parts, segs := CountNext(cmp, part, cur, max, parts, segs, input, n);
      n := n + 1;
    }
    ChainHead(list, input[n..]);
    assert input[..n] == input;
  }

  lemma ChainNoDup(p: Node?, s: seq<Node>)
    requires Chain(p, s)
    ensures NoDup(s)
  {
  }

  lemma NextElems(input: seq<Node>, n: nat)
    requires n < |input| && NoDup(input)
    ensures input[n] !in Elems(input[..n]) && Elems(input[..n]) + {input[n]} == Elems(input[..n + 1])
    ensures input[..n] + [input[n]] == input[..n + 1] && input[n..][1..] == input[n + 1..]
    ensures Apart(input[n + 1..], input[..n + 1]) && Elems(input[..n + 1]) <= Elems(input)
  {
  }

  /** One turn of the first loop: the next node is unhooked and counted in. */
  method CountNext(cmp: (Node, Node) -> int, part: array<Node?>, cur: Node, max0: nat,
                   ghost parts0: seq<seq<Node>>, ghost segs0: seq<seq<Node>>, ghost input: seq<Node>, ghost n: nat)
    returns (list: Node?, max: nat, ghost parts: seq<seq<Node>>, ghost segs: seq<seq<Node>>)
    requires n < |input| && NoDup(input) && cur == input[n] && Chain(cur, input[n..]) && Preorder(cmp, Elems(input))
    requires Held(part, parts0, Elems(input[..n]), 0) && Parts(cmp, parts0, segs0)
    requires Counted(segs0, max0, Elems(input[..n])) && Joined(segs0, 0) == input[..n]
    modifies part, Elems(input)
    ensures Chain(list, input[n + 1..])
    ensures Held(part, parts, Elems(input[..n + 1]), 0) && Parts(cmp, parts, segs)
    ensures Counted(segs, max, Elems(input[..n + 1])) && Joined(segs, 0) == input[..n + 1]
    ensures max < |segs| && segs[max] != []
  {
    hide Preorder, Sort, Chain, Joined, Parts, Sizes, Separate, AllOver, NoDup, Apart, Elems;
    NextElems(input, n);
    ghost var dom := Elems(input[..n]);
    assert Chain(cur.next, input[n + 1..]) by { assert input[n..][0] == cur; ChainTail(input[n..]); }
    PreorderSub(cmp, dom + {cur}, Elems(input));
    assert forall x :: x in input[n + 1..] ==> x !in dom + {cur} by { NotCounted(input, n); }
    list := cur.next;
    cur.next := null;
    assert Held(part, parts0, dom, 0);
    max, parts, segs := Insert(cmp, part, cur, max0, parts0, segs0, dom);
  }

  lemma NotCounted(input: seq<Node>, n: nat)
    requires n < |input| && NoDup(input)
    ensures forall x :: x in input[n + 1..] ==> x !in Elems(input[..n]) + {input[n]}
  {
  }

  /** Opening the ring after its last node leaves a chain. */
  lemma RingOpens(head: Node, input: seq<Node>)
    requires Ring(head, input) && input != []
    ensures head.next == input[0] && head.prev == input[|input| - 1] && NoDup(input) && Linked(input) && head !in input
  {
    var c := [head] + input;
    assert c[0].next == c[1];
    forall i | 0 <= i < |input| - 1 ensures input[i].next == input[i + 1] { assert c[i + 1].next == c[i + 2]; }
    forall i, j | 0 <= i < j < |input| ensures input[i] != input[j] { assert c[i + 1] != c[j + 1]; }
    forall i | 0 <= i < |input| ensures input[i] != head { assert c[0] != c[i + 1]; }
  }

  lemma RingEmpty(head: Node, input: seq<Node>)
    requires Ring(head, input)
    ensures head.next == head <==> input == []
  {
    if input != [] { RingOpens(head, input); }
  }

  /** list_sort: the ring holds the same nodes, sorted and stable. */
  method ListSort(cmp: (Node, Node) -> int, head: Node, ghost input: seq<Node>)
    requires Ring(head, input) && Preorder(cmp, Elems(input))
    modifies head, Elems(input)
    ensures Ring(head, Sort(cmp, input)) && StableSort(cmp, input, Sort(cmp, input), Elems(input))
  {
    hide Ring, Chain, Preorder, StableSort, Sort, Merge, Sizes, Separate;
    RingEmpty(head, input);
    SortIsStableSort(cmp, input, Elems(input));
    if head.next == head {
      SortEmpty(cmp, []);
      return;
    }
    var part := new Node?[21](i => null);
    var list := Open(head, input);
    var max;
    ghost var parts, segs;
    max, parts, segs := CountAll(cmp, part, list, input);
    list := Collapse(cmp, part, max, parts, segs, Elems(input));
    Collapsed(cmp, segs, max, Elems(input));
    LowApart(segs, max, max, Elems(input));
    SortApart(cmp, segs[max], Low(segs, max));
    SortOver(cmp, segs[max], Elems(input));
    SortOver(cmp, Low(segs, max), Elems(input));
    SortEmpty(cmp, segs[max]);
    ChainHead(part[max], Sort(cmp, segs[max]));
    MergeAndRestoreBackLinks(cmp, head, part[max], list, Sort(cmp, segs[max]), Sort(cmp, Low(segs, max)));
  }

  method Open(head: Node, ghost input: seq<Node>) returns (list: Node?)
    requires Ring(head, input) && input != []
    modifies Elems(input)
    ensures Chain(list, input) && head !in input
  {
    RingOpens(head, input);
    head.prev.next := null;
    list := head.next;
  }
}
