/** The list operations of list.h on linked nodes refine operations on sequences. Every method
    changes only the nodes its modifies clause names, so other lists stay as they are. */
module ListOps {
  import opened Nodes

  // ------------------------------------------------------------ walking round

  /** A ring seen from its entry k: the same circle, started there. */
  lemma Rotate(head: Node, s: seq<Node>, k: nat)
    requires Ring(head, s) && k <= |s|
    ensures var c := [head] + s; Ring(c[k], c[k + 1..] + c[..k])
  {
    var c := [head] + s;
    var d := c[k..] + c[..k];
    var n := |c|;
    assert [c[k]] + (c[k + 1..] + c[..k]) == d;
    forall i | 0 <= i < n - 1 ensures d[i].next == d[i + 1] && d[i + 1].prev == d[i] {
      var j := if i < n - k then k + i else i - (n - k);
      assert d[i] == c[j];
      if j < n - 1 { assert c[j].next == c[j + 1] && c[j + 1].prev == c[j]; }
    }
    if k > 0 { assert c[k - 1].next == c[k] && c[k].prev == c[k - 1]; }
  }

  /** What a ring looks like from its head. */
  lemma Inside(head: Node, s: seq<Node>)
    requires Ring(head, s)
    ensures head.next == (if s == [] then head else s[0])
    ensures head.prev == (if s == [] then head else s[|s| - 1])
    ensures NoDup(s) && head !in s && Linked(s) && BackLinked(s)
    ensures s != [] ==> s[0].prev == head && s[|s| - 1].next == head
  {
    var c := [head] + s;
    if s != [] { assert c[0].next == c[1] && c[1].prev == c[0]; }
    forall i, j | 0 <= i < j < |s| ensures s[i] != s[j] { assert c[i + 1] != c[j + 1]; }
    forall i | 0 <= i < |s| ensures s[i] != head { assert c[0] != c[i + 1]; }
    forall i | 0 <= i < |s| - 1 ensures s[i].next == s[i + 1] && s[i + 1].prev == s[i] {
      assert c[i + 1].next == c[i + 2] && c[i + 2].prev == c[i + 1];
    }
  }

  /** ... and how to show that something is one. */
  lemma MakeRing(head: Node, s: seq<Node>)
    requires head.next == (if s == [] then head else s[0])
    requires head.prev == (if s == [] then head else s[|s| - 1])
    requires NoDup(s) && head !in s && Linked(s) && BackLinked(s)
    requires s != [] ==> s[0].prev == head && s[|s| - 1].next == head
    ensures Ring(head, s)
  {
  }

  lemma JoinLinks(s: seq<Node>, t: seq<Node>)
    requires s != [] && t != [] && Linked(s) && BackLinked(s) && Linked(t) && BackLinked(t)
    requires s[|s| - 1].next == t[0] && t[0].prev == s[|s| - 1]
    ensures Linked(s + t) && BackLinked(s + t)
  {
  }

  /** A stretch of nodes keeps its inner links when only its end links were written. */
  twostate lemma InnerLinks(s: seq<Node>)
    requires forall i :: 0 <= i < |s| - 1 ==> s[i].next == old(s[i].next)
    requires forall i :: 0 < i < |s| ==> s[i].prev == old(s[i].prev)
    requires old(Linked(s)) && old(BackLinked(s))
    ensures Linked(s) && BackLinked(s)
  {
  }

  // ------------------------------------------------------------------ adding

  method InitListHead(list: Node)
    modifies list
    ensures Ring(list, [])
  {
    list.next := list;
    list.prev := list;
  }

  predicate ListEmpty(head: Node)
    reads head
  {
    head.next == head
  }

  lemma EmptyMeans(head: Node, s: seq<Node>)
    requires Ring(head, s)
    ensures ListEmpty(head) <==> s == []
    ensures !ListEmpty(head) && head.next == head.prev <==> |s| == 1
  {
    Inside(head, s);
  }

  /** Insert between two consecutive nodes, seen from the first. */
  method Add(x: Node, prev: Node, next: Node, ghost s: seq<Node>)
    requires Ring(prev, s) && next == prev.next && x != prev && x !in s
    modifies x, next`prev, prev`next
    ensures Ring(prev, [x] + s)
  {
    hide Ring, Linked, BackLinked;
    Inside(prev, s);
    next.prev := x;
    x.next := next;
    x.prev := prev;
    prev.next := x;
    InnerLinks(s);
    assert Linked([x]) && BackLinked([x]) by { Single(x); }
    assert Linked([x] + s) && BackLinked([x] + s) by {
      if s == [] { assert [x] + s == [x]; } else { JoinLinks([x], s); }
    }
    JoinNoDup([x], s);
    MakeRing(prev, [x] + s);
  }

  lemma Single(x: Node)
    ensures Linked([x]) && BackLinked([x])
  {
  }

  method ListAdd(x: Node, head: Node, ghost s: seq<Node>)
    requires Ring(head, s) && x != head && x !in s
    modifies x, head, Elems(s)
    ensures Ring(head, [x] + s)
  {
    hide Ring;
    Inside(head, s);
    Add(x, head, head.next, s);
  }

  /** The entries of a ring seen from its last one. */
  ghost function FromLast(head: Node, s: seq<Node>): seq<Node> {
    if s == [] then [] else [head] + s[..|s| - 1]
  }

  lemma SeenFromLast(head: Node, s: seq<Node>)
    requires Ring(head, s)
    ensures head.prev != null && Ring(head.prev, FromLast(head, s))
  {
    hide Ring;
    Inside(head, s);
    if s != [] {
      Rotate(head, s, |s|);
      var c := [head] + s;
      assert c[|s| + 1..] + c[..|s|] == FromLast(head, s);
    }
  }

  /** A stretch t put behind the last entry is at the end, seen from the head. */
  lemma PutBehindLast(head: Node, s: seq<Node>, last: Node, t: seq<Node>)
    requires last == (if s == [] then head else s[|s| - 1]) && Ring(last, t + FromLast(head, s))
    ensures Ring(head, s + t)
  {
    hide Ring;
    if s == [] {
      assert t + FromLast(head, s) == s + t;
    } else {
      Rotate(last, t + FromLast(head, s), |t| + 1);
      TurnedLast(head, s, last, t);
    }
  }

  lemma Cut(b: seq<Node>, h: Node, a: seq<Node>)
    ensures var d := b + ([h] + a); d[..|b|] == b && d[|b|] == h && d[|b| + 1..] == a
  {
  }

  lemma TurnedLast(head: Node, s: seq<Node>, last: Node, t: seq<Node>)
    requires s != [] && last == s[|s| - 1]
    ensures var d := [last] + (t + FromLast(head, s));
      |t| + 1 < |d| && d[|t| + 1] == head && d[|t| + 2..] + d[..|t| + 1] == s + t
  {
    var a := s[..|s| - 1];
    Cut([last] + t, head, a);
    assert [last] + (t + ([head] + a)) == ([last] + t) + ([head] + a);
    assert a + ([last] + t) == (a + [last]) + t;
    assert a + [last] == s;
  }

  method ListAddTail(x: Node, head: Node, ghost s: seq<Node>)
    requires Ring(head, s) && x != head && x !in s
    modifies x, head, Elems(s)
    ensures Ring(head, s + [x])
  {
    hide Ring;
    Inside(head, s);
    SeenFromLast(head, s);
    ghost var last := head.prev;
    Inside(last, FromLast(head, s));
    Add(x, head.prev, head, FromLast(head, s));
    PutBehindLast(head, s, last, [x]);
  }

  // ---------------------------------------------------------------- deleting

  /** Take out what lies between prev and next, seen from prev. */
  method Del(prev: Node, next: Node, ghost x: Node, ghost s: seq<Node>)
    requires Ring(prev, [x] + s) && next == x.next
    modifies next`prev, prev`next
    ensures Ring(prev, s)
  {
    hide Ring, Linked, BackLinked;
    Inside(prev, [x] + s);
    TailLinks(x, s);
    next.prev := prev;
    prev.next := next;
    InnerLinks(s);
    MakeRing(prev, s);
  }

  lemma TailLinks(x: Node, s: seq<Node>)
    requires Linked([x] + s) && BackLinked([x] + s) && NoDup([x] + s)
    ensures Linked(s) && BackLinked(s) && NoDup(s) && x !in s
    ensures s != [] ==> x.next == s[0] && s[0].prev == x
  {
    var c := [x] + s;
    forall i | 0 <= i < |s| - 1 ensures s[i].next == s[i + 1] && s[i + 1].prev == s[i] {
      assert c[i + 1].next == c[i + 2] && c[i + 2].prev == c[i + 1];
    }
    if s != [] { assert c[0].next == c[1] && c[1].prev == c[0]; }
    forall i, j | 0 <= i < j < |s| ensures s[i] != s[j] { assert c[i + 1] != c[j + 1]; }
    forall i | 0 <= i < |s| ensures s[i] != x { assert c[0] != c[i + 1]; }
  }

  /** The entries after and before entry k, seen from the one before it. */
  ghost function Around(head: Node, s: seq<Node>, k: nat): seq<Node>
    requires k < |s|
  {
    if k == 0 then s[1..] else s[k + 1..] + [head] + s[..k - 1]
  }

  lemma EntryLinks(head: Node, s: seq<Node>, k: nat)
    requires Ring(head, s) && k < |s|
    ensures s[k].prev == (if k == 0 then head else s[k - 1])
    ensures s[k].next == if k == |s| - 1 then head else s[k + 1]
  {
    var c := [head] + s;
    assert c[k].next == c[k + 1] && c[k + 1].prev == c[k];
    if k < |s| - 1 { assert c[k + 1].next == c[k + 2]; }
  }

  lemma AroundIs(head: Node, s: seq<Node>, k: nat)
    requires k < |s|
    ensures var c := [head] + s; c[k + 1..] + c[..k] == [s[k]] + Around(head, s, k)
  {
    if k > 0 { assert ([head] + s)[..k] == [head] + s[..k - 1]; }
  }

  lemma SeenFromBefore(head: Node, s: seq<Node>, k: nat)
    requires Ring(head, s) && k < |s|
    ensures s[k].prev == (if k == 0 then head else s[k - 1])
    ensures Ring(if k == 0 then head else s[k - 1], [s[k]] + Around(head, s, k))
    ensures s[k].next == if k == |s| - 1 then head else s[k + 1]
  {
    EntryLinks(head, s, k);
    hide Ring;
    Rotate(head, s, k);
    AroundIs(head, s, k);
  }

  lemma WithoutK(head: Node, s: seq<Node>, k: nat)
    requires k < |s| && Ring(if k == 0 then head else s[k - 1], Around(head, s, k))
    ensures Ring(head, s[..k] + s[k + 1..])
  {
    hide Ring;
    if k == 0 {
      assert s[..0] + s[1..] == s[1..];
    } else {
      var m := |s| - k - 1;
      Rotate(s[k - 1], Around(head, s, k), m + 1);
      var d := [s[k - 1]] + Around(head, s, k);
      assert d[m + 1] == head && d[m + 2..] + d[..m + 1] == s[..k] + s[k + 1..];
    }
  }

  /** Takes entry k out of the ring and leaves its own links alone. */
  method Unlink(x: Node, ghost head: Node, ghost s: seq<Node>, ghost k: nat)
    requires Ring(head, s) && k < |s| && x == s[k]
    modifies head, Elems(s)
    ensures Ring(head, s[..k] + s[k + 1..])
    ensures x.next == old(x.next) && x.prev == old(x.prev)
  {
    hide Ring;
    SeenFromBefore(head, s, k);
    ghost var before := x.prev;
    Inside(before, [x] + Around(head, s, k));
    TailLinks(x, Around(head, s, k));
    Del(x.prev, x.next, x, Around(head, s, k));
    WithoutK(head, s, k);
  }

  method ListDel(x: Node, ghost head: Node, ghost s: seq<Node>, ghost k: nat)
    requires Ring(head, s) && k < |s| && x == s[k]
    modifies head, Elems(s)
    ensures Ring(head, s[..k] + s[k + 1..]) && x.next == null && x.prev == null
  {
    hide Ring;
    Inside(head, s);
    Unlink(x, head, s, k);
    x.next := null;
    x.prev := null;
  }

  method ListDelInit(x: Node, ghost head: Node, ghost s: seq<Node>, ghost k: nat)
    requires Ring(head, s) && k < |s| && x == s[k]
    modifies head, Elems(s)
    ensures Ring(head, s[..k] + s[k + 1..]) && Ring(x, [])
  {
    hide Ring;
    Inside(head, s);
    Unlink(x, head, s, k);
    InitListHead(x);
  }

  // ------------------------------------------------------------------ moving

  /** To the tail of another list. */
  method ListMoveTail(x: Node, head: Node, ghost from: Node, ghost s: seq<Node>, ghost k: nat, ghost t: seq<Node>)
    requires Ring(from, s) && k < |s| && x == s[k] && Ring(head, t) && Apart([from] + s, [head] + t)
    modifies from, Elems(s), head, Elems(t)
    ensures Ring(from, s[..k] + s[k + 1..]) && Ring(head, t + [x])
  {
    hide Ring;
    Inside(from, s);
    Inside(head, t);
    SeenFromBefore(from, s, k);
    NotInOther(from, s, head, t, k);
    Unlink(x, from, s, k);
    ListAddTail(x, head, t);
  }

  lemma NotInOther(from: Node, s: seq<Node>, head: Node, t: seq<Node>, k: nat)
    requires Apart([from] + s, [head] + t) && k < |s|
    ensures forall y :: y in s || y == from ==> y !in t && y != head
    ensures forall y :: y in s[..k] + s[k + 1..] ==> y in s
  {
    forall y | y in s || y == from ensures y !in t && y != head {
      assert y in [from] + s;
      assert y in t || y == head ==> y in [head] + t;
    }
  }

  /** To the tail of its own list. */
  method ListMoveTailSame(x: Node, head: Node, ghost s: seq<Node>, ghost k: nat)
    requires Ring(head, s) && k < |s| && x == s[k]
    modifies head, Elems(s)
    ensures Ring(head, s[..k] + s[k + 1..] + [x])
  {
    hide Ring;
    Inside(head, s);
    SeenFromBefore(head, s, k);
    Unlink(x, head, s, k);
    ghost var t := s[..k] + s[k + 1..];
    Inside(head, t);
    assert forall y :: y in t ==> y in s;
    ListAddTail(x, head, t);
  }

  // ---------------------------------------------------------------- splicing

  /** Hang the entries of list between prev and next, seen from prev. */
  method Splice(list: Node, prev: Node, next: Node, ghost s: seq<Node>, ghost t: seq<Node>)
    requires Ring(list, s) && s != [] && Ring(prev, t) && next == prev.next && Apart([list] + s, [prev] + t)
    modifies Elems(s), prev`next, next`prev
    ensures Ring(prev, s + t)
  {
    hide Ring, Linked, BackLinked;
    Inside(list, s);
    Inside(prev, t);
    NotInOther(list, s, prev, t, 0);
    assert next == prev || next in t;
    forall i | 0 <= i < |s| ensures s[i] != next && s[i] != prev { assert s[i] in s; }
    var first, last := list.next, list.prev;
    first.prev := prev;
    prev.next := first;
    last.next := next;
    next.prev := last;
    InnerLinks(s);
    InnerLinks(t);
    JoinNoDup(s, t);
    assert Linked(s + t) && BackLinked(s + t) by {
      if t == [] { assert s + t == s; } else { JoinLinks(s, t); }
    }
    MakeRing(prev, s + t);
  }

  method ListSplice(list: Node, head: Node, ghost s: seq<Node>, ghost t: seq<Node>)
    requires Ring(list, s) && Ring(head, t) && Apart([list] + s, [head] + t)
    modifies Elems(s), head, Elems(t)
    ensures Ring(head, s + t)
  {
    hide Ring;
    EmptyMeans(list, s);
    Inside(head, t);
    if !ListEmpty(list) {
      Splice(list, head, head.next, s, t);
    } else {
      assert s + t == t;
    }
  }

  method ListSpliceTail(list: Node, head: Node, ghost s: seq<Node>, ghost t: seq<Node>)
    requires Ring(list, s) && Ring(head, t) && Apart([list] + s, [head] + t)
    modifies Elems(s), head, Elems(t)
    ensures Ring(head, t + s)
  {
    hide Ring;
    EmptyMeans(list, s);
    Inside(head, t);
    if !ListEmpty(list) {
      SeenFromLast(head, t);
      ghost var last := head.prev;
      Inside(last, FromLast(head, t));
      Splice(list, head.prev, head, s, FromLast(head, t));
      PutBehindLast(head, t, last, s);
    } else {
      assert t + s == t;
    }
  }

  method ListSpliceInit(list: Node, head: Node, ghost s: seq<Node>, ghost t: seq<Node>)
    requires Ring(list, s) && Ring(head, t) && Apart([list] + s, [head] + t)
    modifies list, Elems(s), head, Elems(t)
    ensures Ring(head, s + t) && Ring(list, [])
  {
    hide Ring;
    EmptyMeans(list, s);
    Inside(head, t);
    Inside(list, s);
    NotInOther2(list, s, head, t);
    if !ListEmpty(list) {
      Splice(list, head, head.next, s, t);
      InitListHead(list);
    } else {
      assert s + t == t;
    }
  }

  lemma NotInOther2(list: Node, s: seq<Node>, head: Node, t: seq<Node>)
    requires Apart([list] + s, [head] + t) && list !in s
    ensures list !in s + t && list !in t + s && list != head
  {
    assert list in [list] + s;
    assert list in t || list == head ==> list in [head] + t;
  }

  method ListSpliceTailInit(list: Node, head: Node, ghost s: seq<Node>, ghost t: seq<Node>)
    requires Ring(list, s) && Ring(head, t) && Apart([list] + s, [head] + t)
    modifies list, Elems(s), head, Elems(t)
    ensures Ring(head, t + s) && Ring(list, [])
  {
    hide Ring;
    EmptyMeans(list, s);
    Inside(head, t);
    Inside(list, s);
    NotInOther2(list, s, head, t);
    if !ListEmpty(list) {
      ListSpliceTail(list, head, s, t);
      InitListHead(list);
    } else {
      assert t + s == t;
    }
  }

  /** Spliced at the first entry instead of the head, the new entries come behind that entry:
      the way the driver's recovery joins its queues. */
  method SpliceAtFirst(list: Node, first: Node, ghost head: Node, ghost s: seq<Node>, ghost t: seq<Node>)
    requires Ring(list, s) && Ring(head, t) && t != [] && first == t[0] && Apart([list] + s, [head] + t)
    modifies list, Elems(s), head, Elems(t)
    ensures Ring(head, t[..1] + s + t[1..]) && Ring(list, [])
  {
    hide Ring;
    ghost var c, u := [head] + t, t[1..] + [head];
    Rotate(head, t, 1);
    assert c[1] == first && c[2..] + c[..1] == u;
    assert Apart([list] + s, [first] + u);
    Inside(first, u);
    ListSpliceInit(list, first, s, u);
    ghost var d := [first] + (s + u);
    Inside(first, s + u);
    Rotate(first, s + u, |d| - 1);
    assert d[|d| - 1] == head && d[|d|..] + d[..|d| - 1] == t[..1] + s + t[1..];
  }

  // ----------------------------------------------------------------- cutting

  /** Moves the entries up to and including entry, which is s[k], to list. */
  method CutAt(list: Node, head: Node, entry: Node, ghost s: seq<Node>, ghost k: nat)
    requires Ring(head, s) && k < |s| && entry == s[k] && list != head && list !in s
    modifies list, head, Elems(s)
    ensures Ring(list, s[..k + 1]) && Ring(head, s[k + 1..])
  {
    hide Ring, Linked, BackLinked;
    Inside(head, s);
    EntryLinks(head, s, k);
    ghost var a, b := s[..k + 1], s[k + 1..];
    hide NoDup, Apart;
    var newFirst := entry.next;
    list.next := head.next;
    list.next.prev := list;
    list.prev := entry;
    entry.next := list;
    head.next := newFirst;
    newFirst.prev := head;
    InnerLinks(a);
    InnerLinks(b);
    MakeRing(list, a);
    MakeRing(head, b);
  }

  /** list_cut_position, with its early returns. */
  method ListCutPosition(list: Node, head: Node, entry: Node, ghost s: seq<Node>)
    requires Ring(head, s) && list != head && list !in s
    requires |s| > 1 ==> entry == head || entry in s
    modifies list, head, Elems(s)
    ensures s == [] || (entry != head && entry !in s) ==>
      Ring(head, s) && list.next == old(list.next) && list.prev == old(list.prev)
    ensures s != [] && entry == head ==> Ring(list, []) && Ring(head, s)
    ensures forall k :: 0 <= k < |s| && entry == s[k] ==> Ring(list, s[..k + 1]) && Ring(head, s[k + 1..])
  {
    hide Ring;
    EmptyMeans(head, s);
    Inside(head, s);
    if ListEmpty(head) { return; }
    if head.next == head.prev && head.next != entry && head != entry { return; }
    if entry == head {
      InitListHead(list);
    } else {
      ghost var k :| 0 <= k < |s| && entry == s[k];
      CutAt(list, head, entry, s, k);
    }
  }
}
