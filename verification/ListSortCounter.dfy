/** The binary counter of list_sort.c on sequences: which stretch of the input each slot holds. */
module ListSortCounter {
  import opened Nodes
  import opened MergeSpec
  import opened Arith

  const SLOTS: nat := 21
  const CAP: nat := 19

  /** The stretches from slot lo up, in input order: higher slots hold earlier input. */
  ghost function Joined(segs: seq<seq<Node>>, lo: nat): seq<Node>
    decreases |segs| - lo
  {
    if lo >= |segs| then [] else Joined(segs, lo + 1) + segs[lo]
  }

  ghost predicate Separate(segs: seq<seq<Node>>, c: seq<Node>) {
    && (forall l, m :: 0 <= l < m < |segs| ==> Apart(segs[l], segs[m]))
    && (forall l :: 0 <= l < |segs| ==> Apart(segs[l], c))
  }

  ghost predicate AllOver(segs: seq<seq<Node>>, dom: set<Node>) {
    forall l :: 0 <= l < |segs| ==> Over(segs[l], dom)
  }

  /** Slots below the cap are empty or hold exactly 2^l nodes; the sentinel is empty. */
  ghost predicate Sizes(segs: seq<seq<Node>>) {
    && |segs| == SLOTS && segs[SLOTS - 1] == []
    && forall l :: 0 <= l < CAP ==> segs[l] == [] || |segs[l]| == Pow2(l)
  }

  /** Each slot holds its stretch, sorted. */
  ghost predicate Parts(cmp: (Node, Node) -> int, parts: seq<seq<Node>>, segs: seq<seq<Node>>) {
    |parts| == |segs| && forall l :: 0 <= l < |segs| ==> parts[l] == Sort(cmp, segs[l])
  }

  /** While c is carried to slot lev. */
  ghost predicate Carrying(segs: seq<seq<Node>>, c: seq<Node>, lev: nat, dom: set<Node>) {
    && |segs| == SLOTS && Sizes(segs) && Separate(segs, c) && AllOver(segs, dom) && Over(c, dom) && c != []
    && lev < SLOTS && (forall l :: 0 <= l < lev ==> segs[l] == [])
    && (lev <= CAP ==> |c| == Pow2(lev))
  }

  /** Between two inputs. */
  ghost predicate Counted(segs: seq<seq<Node>>, max: nat, dom: set<Node>) {
    && |segs| == SLOTS && Sizes(segs) && Separate(segs, []) && AllOver(segs, dom) && max <= CAP
    && (forall l :: max < l < SLOTS ==> segs[l] == [])
    && (segs[max] == [] ==> max == 0)
  }

  // ------------------------------------------------------------------ carry

  lemma {:induction false} JoinedSame(s: seq<seq<Node>>, t: seq<seq<Node>>, lo: nat)
    requires |s| == |t| && forall l :: lo <= l < |s| ==> s[l] == t[l]
    ensures Joined(s, lo) == Joined(t, lo)
    decreases |s| - lo
  {
    if lo < |s| { JoinedSame(s, t, lo + 1); }
  }

  lemma {:induction false} JoinedEmptyLow(segs: seq<seq<Node>>, lo: nat, hi: nat)
    requires lo <= hi <= |segs| && forall l :: lo <= l < hi ==> segs[l] == []
    ensures Joined(segs, lo) == Joined(segs, hi)
    decreases hi - lo
  {
    if lo < hi { JoinedEmptyLow(segs, lo + 1, hi); }
  }

  /** Emptying slot lev into the carried stretch keeps the input order. */
  lemma CarryJoins(segs: seq<seq<Node>>, c: seq<Node>, lev: nat)
    requires lev < |segs| && forall l :: 0 <= l < lev ==> segs[l] == []
    ensures Joined(segs, 0) + c == Joined(segs[lev := []], 0) + (segs[lev] + c)
  {
    var t := segs[lev := []];
    JoinedEmptyLow(segs, 0, lev);
    JoinedEmptyLow(t, 0, lev + 1);
    JoinedSame(segs, t, lev + 1);
  }

  /** Storing the carried stretch in the empty slot lev appends it. */
  lemma StoreJoins(segs: seq<seq<Node>>, c: seq<Node>, lev: nat)
    requires lev < |segs| && forall l :: 0 <= l <= lev ==> segs[l] == []
    ensures Joined(segs[lev := c], 0) == Joined(segs, 0) + c
  {
    var t := segs[lev := c];
    JoinedEmptyLow(segs, 0, lev + 1);
    JoinedEmptyLow(t, 0, lev);
    JoinedSame(segs, t, lev + 1);
  }

  lemma CarryStep(segs: seq<seq<Node>>, c: seq<Node>, lev: nat, dom: set<Node>)
    requires Carrying(segs, c, lev, dom) && segs[lev] != []
    ensures lev + 1 < SLOTS && Carrying(segs[lev := []], segs[lev] + c, lev + 1, dom)
  {
  }

  /** Where the carried stretch goes: one down from the sentinel. */
  ghost function Slot(lev: nat): nat {
    if lev > CAP then lev - 1 else lev
  }

  lemma StoreStep(before: seq<seq<Node>>, max: nat, segs: seq<seq<Node>>, c: seq<Node>, lev: nat, dom: set<Node>)
    requires Counted(before, max, dom) && Carrying(segs, c, lev, dom) && segs[lev] == []
    requires forall l :: lev <= l < SLOTS ==> segs[l] == before[l]
    ensures Counted(segs[Slot(lev) := c], if lev > max then Slot(lev) else max, dom)
  {
  }

  lemma StartCarry(segs: seq<seq<Node>>, max: nat, x: Node, dom: set<Node>)
    requires Counted(segs, max, dom) && x !in dom
    ensures Carrying(segs, [x], 0, dom + {x})
  {
    forall l | 0 <= l < |segs| ensures Apart(segs[l], [x]) && Over(segs[l], dom + {x}) {
      assert Over(segs[l], dom);
    }
  }

  lemma EmptyCounter(segs: seq<seq<Node>>)
    requires |segs| == SLOTS && forall l :: 0 <= l < SLOTS ==> segs[l] == []
    ensures Counted(segs, 0, {}) && Joined(segs, 0) == []
  {
    JoinedEmptyLow(segs, 0, SLOTS);
  }

  // --------------------------------------------------------- sorted stretches

  lemma SortElem(cmp: (Node, Node) -> int, a: seq<Node>, x: Node)
    ensures x in Sort(cmp, a) <==> x in a
  {
    SortContents(cmp, a);
    assert x in multiset(Sort(cmp, a)) <==> x in multiset(a);
  }

  lemma SortApart(cmp: (Node, Node) -> int, a: seq<Node>, b: seq<Node>)
    requires Apart(a, b)
    ensures Apart(Sort(cmp, a), Sort(cmp, b))
  {
    forall x | x in Sort(cmp, a) ensures x !in Sort(cmp, b) {
      SortElem(cmp, a, x);
      SortElem(cmp, b, x);
    }
  }

  lemma SortEmpty(cmp: (Node, Node) -> int, a: seq<Node>)
    ensures Sort(cmp, a) == [] <==> a == []
  {
    SortContents(cmp, a);
  }

  lemma PartsUpdate(cmp: (Node, Node) -> int, parts: seq<seq<Node>>, segs: seq<seq<Node>>, l: nat, c: seq<Node>)
    requires Parts(cmp, parts, segs) && l < |segs|
    ensures Parts(cmp, parts[l := Sort(cmp, c)], segs[l := c])
  {
  }

  lemma {:induction false} OneSorted(cmp: (Node, Node) -> int, x: Node)
    ensures Sort(cmp, [x]) == [x]
  {
    assert [x][..1] == [x];
  }

  lemma PreorderSub(cmp: (Node, Node) -> int, small: set<Node>, big: set<Node>)
    requires Preorder(cmp, big) && small <= big
    ensures Preorder(cmp, small)
  {
  }

  // ----------------------------------------------------------------- collapse

  /** All stretches below lev, in input order. */
  ghost function Low(segs: seq<seq<Node>>, lev: nat): seq<Node>
    requires lev <= |segs|
  {
    if lev == 0 then [] else segs[lev - 1] + Low(segs, lev - 1)
  }

  lemma {:induction false} LowJoins(segs: seq<seq<Node>>, lev: nat)
    requires lev <= |segs|
    ensures Joined(segs, 0) == Joined(segs, lev) + Low(segs, lev)
  {
    if lev > 0 {
      LowJoins(segs, lev - 1);
      assert Joined(segs, lev - 1) == Joined(segs, lev) + segs[lev - 1];
    }
  }

  lemma {:induction false} LowApart(segs: seq<seq<Node>>, lev: nat, m: nat, dom: set<Node>)
    requires Separate(segs, []) && AllOver(segs, dom) && lev <= m < |segs|
    ensures Apart(segs[m], Low(segs, lev)) && Over(Low(segs, lev), dom)
  {
    if lev > 0 {
      LowApart(segs, lev - 1, m, dom);
      assert Apart(segs[lev - 1], segs[m]);
    }
  }

  /** The top slot and the stretches below it are the whole input. */
  lemma TopAndLow(segs: seq<seq<Node>>, max: nat, dom: set<Node>)
    requires Counted(segs, max, dom)
    ensures Joined(segs, 0) == segs[max] + Low(segs, max)
    ensures Over(segs[max], dom) && Over(Low(segs, max), dom)
  {
    hide Low, Sizes;
    LowJoins(segs, max);
    JoinedEmptyLow(segs, max + 1, SLOTS);
    assert Joined(segs, max) == segs[max];
    LowApart(segs, max, max, dom);
  }

  /** What the last merge produces is the sorted whole. */
  lemma Collapsed(cmp: (Node, Node) -> int, segs: seq<seq<Node>>, max: nat, dom: set<Node>)
    requires Counted(segs, max, dom) && Preorder(cmp, dom)
    ensures Merge(cmp, Sort(cmp, segs[max]), Sort(cmp, Low(segs, max))) == Sort(cmp, Joined(segs, 0))
  {
    hide Low, Joined, Sort, Merge, Preorder, Over, Sizes, Separate, AllOver;
    TopAndLow(segs, max, dom);
    SortConcat(cmp, segs[max], Low(segs, max), dom);
  }
}
