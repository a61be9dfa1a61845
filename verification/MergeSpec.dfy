/** Merging and stable sorting of sequences under a comparison that is a total preorder. */
module MergeSpec {

  /** cmp orders the elements of dom: signs are mirrored and "at most" is transitive. */
  ghost predicate Preorder<T>(cmp: (T, T) -> int, dom: set<T>) {
    && (forall x, y | x in dom && y in dom :: cmp(x, y) < 0 <==> cmp(y, x) > 0)
    && (forall x, y, z | x in dom && y in dom && z in dom ::
          cmp(x, y) <= 0 && cmp(y, z) <= 0 ==> cmp(x, z) <= 0)
  }

  ghost predicate Over<T>(s: seq<T>, dom: set<T>) {
    forall x :: x in s ==> x in dom
  }

  /** On a tie the element of a goes first. */
  function Merge<T>(cmp: (T, T) -> int, a: seq<T>, b: seq<T>): seq<T>
    decreases |a| + |b|
  {
    if a == [] then b
    else if b == [] then a
    else if cmp(a[0], b[0]) <= 0 then [a[0]] + Merge(cmp, a[1..], b)
    else [b[0]] + Merge(cmp, a, b[1..])
  }

  /** Insertion sort, last element first: the plain definition that list_sort refines. */
  function Sort<T>(cmp: (T, T) -> int, s: seq<T>): seq<T>
    decreases |s|
  {
    if s == [] then [] else Merge(cmp, s[..1], Sort(cmp, s[1..]))
  }

  ghost predicate Sorted<T>(cmp: (T, T) -> int, s: seq<T>) {
    forall i, j :: 0 <= i < j < |s| ==> cmp(s[i], s[j]) <= 0
  }

  /** The elements of s that compare equal to x, in order. */
  function Equals<T>(cmp: (T, T) -> int, s: seq<T>, x: T): seq<T> {
    if s == [] then []
    else (if cmp(s[0], x) == 0 then [s[0]] else []) + Equals(cmp, s[1..], x)
  }

  /** A sorted permutation that keeps the order of elements that compare equal. */
  ghost predicate StableSort<T>(cmp: (T, T) -> int, input: seq<T>, output: seq<T>, dom: set<T>) {
    && Sorted(cmp, output)
    && multiset(output) == multiset(input)
    && forall x | x in dom :: Equals(cmp, output, x) == Equals(cmp, input, x)
  }

  // ---------------------------------------------------------------- merging

  lemma {:induction false} MergeContents<T>(cmp: (T, T) -> int, a: seq<T>, b: seq<T>)
    ensures multiset(Merge(cmp, a, b)) == multiset(a) + multiset(b)
    ensures |Merge(cmp, a, b)| == |a| + |b|
    decreases |a| + |b|
  {
    if a != [] && b != [] {
      if cmp(a[0], b[0]) <= 0 {
        assert a == [a[0]] + a[1..];
        MergeContents(cmp, a[1..], b);
      } else {
        assert b == [b[0]] + b[1..];
        MergeContents(cmp, a, b[1..]);
      }
    }
  }

  lemma MergeElements<T>(cmp: (T, T) -> int, a: seq<T>, b: seq<T>, x: T)
    ensures x in Merge(cmp, a, b) <==> x in a || x in b
  {
    MergeContents(cmp, a, b);
    assert x in multiset(Merge(cmp, a, b)) <==> x in multiset(a) || x in multiset(b);
  }

  lemma {:induction false} MergeAssoc<T>(cmp: (T, T) -> int, a: seq<T>, b: seq<T>, c: seq<T>, dom: set<T>)
    requires Preorder(cmp, dom) && Over(a, dom) && Over(b, dom) && Over(c, dom)
    ensures Merge(cmp, Merge(cmp, a, b), c) == Merge(cmp, a, Merge(cmp, b, c))
    decreases |a| + |b| + |c|
  {
    if a != [] && b != [] && c != [] {
      assert a[0] in dom && b[0] in dom && c[0] in dom;
      if cmp(a[0], b[0]) <= 0 && cmp(a[0], c[0]) <= 0 {
        MergeAssoc(cmp, a[1..], b, c, dom);
      } else if cmp(a[0], b[0]) > 0 && cmp(b[0], c[0]) <= 0 {
        MergeAssoc(cmp, a, b[1..], c, dom);
      } else {
        MergeAssoc(cmp, a, b, c[1..], dom);
      }
    }
  }

  lemma LeftOfBoth<T>(cmp: (T, T) -> int, a: seq<T>, b: seq<T>, c: seq<T>)
    requires a != [] && b != [] && c != [] && cmp(a[0], b[0]) <= 0 && cmp(a[0], c[0]) <= 0
    ensures Merge(cmp, a, Merge(cmp, b, c)) == [a[0]] + Merge(cmp, a[1..], Merge(cmp, b, c))
  {
    var bc := Merge(cmp, b, c);
    assert bc != [] && (bc[0] == b[0] || bc[0] == c[0]);
  }

  lemma RightOfBoth<T>(cmp: (T, T) -> int, a: seq<T>, b: seq<T>, c: seq<T>)
    requires a != [] && b != [] && c != [] && cmp(b[0], c[0]) > 0 && cmp(a[0], c[0]) > 0
    ensures Merge(cmp, Merge(cmp, a, b), c) == [c[0]] + Merge(cmp, Merge(cmp, a, b), c[1..])
  {
    var ab := Merge(cmp, a, b);
    assert ab != [] && (ab[0] == a[0] || ab[0] == b[0]);
  }

  lemma {:induction false} SortContents<T>(cmp: (T, T) -> int, s: seq<T>)
    ensures multiset(Sort(cmp, s)) == multiset(s) && |Sort(cmp, s)| == |s|
    decreases |s|
  {
    if s != [] {
      SortContents(cmp, s[1..]);
      MergeContents(cmp, s[..1], Sort(cmp, s[1..]));
      assert s == s[..1] + s[1..];
    }
  }

  lemma SortOver<T>(cmp: (T, T) -> int, s: seq<T>, dom: set<T>)
    requires Over(s, dom)
    ensures Over(Sort(cmp, s), dom)
  {
    SortContents(cmp, s);
    forall x | x in Sort(cmp, s) ensures x in dom {
      assert x in multiset(Sort(cmp, s));
    }
  }

  /** Sorting two halves and merging them, first half on the left, sorts the whole. */
  lemma {:induction false} SortConcat<T>(cmp: (T, T) -> int, a: seq<T>, b: seq<T>, dom: set<T>)
    requires Preorder(cmp, dom) && Over(a, dom) && Over(b, dom)
    ensures Sort(cmp, a + b) == Merge(cmp, Sort(cmp, a), Sort(cmp, b))
    decreases |a|
  {
    if a == [] {
      assert a + b == b;
    } else {
      assert (a + b)[..1] == a[..1] && (a + b)[1..] == a[1..] + b;
      SortConcat(cmp, a[1..], b, dom);
      SortOver(cmp, a[1..], dom);
      SortOver(cmp, b, dom);
      MergeAssoc(cmp, a[..1], Sort(cmp, a[1..]), Sort(cmp, b), dom);
    }
  }

  // ------------------------------------------------------ Sort is a stable sort

  lemma {:induction false} MergeSorted<T>(cmp: (T, T) -> int, a: seq<T>, b: seq<T>, dom: set<T>)
    requires Preorder(cmp, dom) && Over(a, dom) && Over(b, dom) && Sorted(cmp, a) && Sorted(cmp, b)
    ensures Sorted(cmp, Merge(cmp, a, b))
    decreases |a| + |b|
  {
    if a != [] && b != [] {
      if cmp(a[0], b[0]) <= 0 {
        MergeSorted(cmp, a[1..], b, dom);
        forall y | y in Merge(cmp, a[1..], b) ensures cmp(a[0], y) <= 0 {
          MergeElements(cmp, a[1..], b, y);
        }
      } else {
        MergeSorted(cmp, a, b[1..], dom);
        forall y | y in Merge(cmp, a, b[1..]) ensures cmp(b[0], y) <= 0 {
          MergeElements(cmp, a, b[1..], y);
        }
      }
    }
  }

  lemma EqualsCons<T>(cmp: (T, T) -> int, y: T, s: seq<T>, x: T)
    ensures Equals(cmp, [y] + s, x) == (if cmp(y, x) == 0 then [y] else []) + Equals(cmp, s, x)
  {
    assert ([y] + s)[1..] == s;
  }

  lemma Regroup<T>(a: seq<T>, b: seq<T>, c: seq<T>)
    ensures a + (b + c) == (a + b) + c
  {
  }

  lemma Swap<T>(a: seq<T>, b: seq<T>, c: seq<T>)
    requires a == [] || b == []
    ensures a + (b + c) == b + (a + c)
  {
  }

  lemma {:induction false} EqualsConcat<T>(cmp: (T, T) -> int, a: seq<T>, b: seq<T>, x: T)
    ensures Equals(cmp, a + b, x) == Equals(cmp, a, x) + Equals(cmp, b, x)
    decreases |a|
  {
    if a == [] {
      assert a + b == b;
    } else {
      var h := if cmp(a[0], x) == 0 then [a[0]] else [];
      assert (a + b)[0] == a[0] && (a + b)[1..] == a[1..] + b;
      EqualsConcat(cmp, a[1..], b, x);
      Regroup(h, Equals(cmp, a[1..], x), Equals(cmp, b, x));
    }
  }

  lemma {:induction false} NoEquals<T>(cmp: (T, T) -> int, a: seq<T>, x: T)
    requires forall y :: y in a ==> cmp(y, x) != 0
    ensures Equals(cmp, a, x) == []
    decreases |a|
  {
    if a != [] { NoEquals(cmp, a[1..], x); }
  }

  /** All of a sorted a is above b's head if its own head is. */
  lemma AllAbove<T>(cmp: (T, T) -> int, a: seq<T>, h: T, x: T, dom: set<T>)
    requires Preorder(cmp, dom) && Over(a, dom) && Sorted(cmp, a) && h in dom && x in dom
    requires a != [] && cmp(a[0], h) > 0 && cmp(h, x) == 0
    ensures Equals(cmp, a, x) == []
  {
    forall y | y in a ensures cmp(y, x) != 0 {
      assert a[0] in dom && y in dom;
    }
    NoEquals(cmp, a, x);
  }

  lemma SortedTail<T>(cmp: (T, T) -> int, s: seq<T>)
    requires Sorted(cmp, s) && s != []
    ensures Sorted(cmp, s[1..])
  {
  }

  lemma {:induction false} MergeStable<T>(cmp: (T, T) -> int, a: seq<T>, b: seq<T>, x: T, dom: set<T>)
    requires Preorder(cmp, dom) && Over(a, dom) && Over(b, dom) && Sorted(cmp, a) && x in dom
    ensures Equals(cmp, Merge(cmp, a, b), x) == Equals(cmp, a, x) + Equals(cmp, b, x)
    decreases |a| + |b|
  {
    hide Preorder, Sorted;
    if a != [] && b != [] {
      assert Sorted(cmp, a[1..]) by { SortedTail(cmp, a); }
      if cmp(a[0], b[0]) <= 0 {
        var h := if cmp(a[0], x) == 0 then [a[0]] else [];
        MergeStable(cmp, a[1..], b, x, dom);
        EqualsCons(cmp, a[0], Merge(cmp, a[1..], b), x);
        Regroup(h, Equals(cmp, a[1..], x), Equals(cmp, b, x));
      } else {
        var h := if cmp(b[0], x) == 0 then [b[0]] else [];
        MergeStable(cmp, a, b[1..], x, dom);
        EqualsCons(cmp, b[0], Merge(cmp, a, b[1..]), x);
        if h != [] { AllAbove(cmp, a, b[0], x, dom); }
        Swap(h, Equals(cmp, a, x), Equals(cmp, b[1..], x));
      }
    }
  }

  lemma {:induction false} SortSorted<T>(cmp: (T, T) -> int, s: seq<T>, dom: set<T>)
    requires Preorder(cmp, dom) && Over(s, dom)
    ensures Sorted(cmp, Sort(cmp, s))
    decreases |s|
  {
    if s != [] {
      SortSorted(cmp, s[1..], dom);
      SortOver(cmp, s[1..], dom);
      MergeSorted(cmp, s[..1], Sort(cmp, s[1..]), dom);
    }
  }

  lemma {:induction false} SortStable<T>(cmp: (T, T) -> int, s: seq<T>, x: T, dom: set<T>)
    requires Preorder(cmp, dom) && Over(s, dom) && x in dom
    ensures Equals(cmp, Sort(cmp, s), x) == Equals(cmp, s, x)
    decreases |s|
  {
    if s != [] {
      SortStable(cmp, s[1..], x, dom);
      SortOver(cmp, s[1..], dom);
      MergeStable(cmp, s[..1], Sort(cmp, s[1..]), x, dom);
      assert s == s[..1] + s[1..];
      EqualsConcat(cmp, s[..1], s[1..], x);
    }
  }

  lemma SortIsStableSort<T>(cmp: (T, T) -> int, s: seq<T>, dom: set<T>)
    requires Preorder(cmp, dom) && Over(s, dom)
    ensures StableSort(cmp, s, Sort(cmp, s), dom)
  {
    SortSorted(cmp, s, dom);
    SortContents(cmp, s);
    forall x | x in dom ensures Equals(cmp, Sort(cmp, s), x) == Equals(cmp, s, x) {
      SortStable(cmp, s, x, dom);
    }
  }
}
