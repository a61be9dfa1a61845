/** The overlap sweep of olap.c: which points do at least two intervals cover? */
module Olap {
  import opened Arith

  /** A node with its offset and length; order is the size class it was allocated with. */
  datatype Dcn = Dcn(offset: nat, len: nat, order: nat)

  predicate Covers(d: Dcn, x: int) {
    d.offset <= x < d.offset + d.len
  }

  /** How many of the intervals cover point x. */
  function Depth(s: seq<Dcn>, x: int): nat {
    if s == [] then 0
    else Depth(s[..|s| - 1], x) + if Covers(s[|s| - 1], x) then 1 else 0
  }

  predicate SortedByOffset(s: seq<Dcn>) {
    forall i, j :: 0 <= i < j < |s| ==> s[i].offset <= s[j].offset
  }

  predicate InUnion(s: seq<Dcn>, x: int) {
    exists i :: 0 <= i < |s| && Covers(s[i], x)
  }

  /** Each ends before the next begins. */
  predicate Disjoint(s: seq<Dcn>) {
    forall i, j :: 0 <= i < j < |s| ==> s[i].offset + s[i].len <= s[j].offset
  }

  /** 2^order is the least power of two not below len. */
  predicate Fits(d: Dcn) {
    d.len <= Pow2(d.order) && forall k: nat :: d.len <= Pow2(k) ==> d.order <= k
  }

  /** The position of the highest set bit, 31 - clz. */
  function HighBit(n: nat): (p: nat)
    requires n > 0
    ensures Pow2(p) <= n < 2 * Pow2(p)
  {
    if n == 1 then 0 else HighBit(n / 2) + 1
  }

  function SizeClass(len: nat): nat
    requires len > 0
  {
    var p := HighBit(len);
    if len > Pow2(p) then p + 1 else p
  }

  lemma SizeClassLeast(len: nat)
    requires len > 0
    ensures len <= Pow2(SizeClass(len)) && forall k: nat :: len <= Pow2(k) ==> SizeClass(len) <= k
  {
    var p := HighBit(len);
    forall k: nat | len <= Pow2(k) ensures SizeClass(len) <= k {
      if k < SizeClass(len) {
        if k < p { Pow2Grows(k + 1, p); }
      }
    }
  }

  function End(d: Dcn): nat {
    d.offset + d.len
  }

  /** Where the output ends so far. */
  function LastEnd(out: seq<Dcn>): nat {
    if out == [] then 0 else End(out[|out| - 1])
  }

  /** The sweep after the intervals s: the current interval reaches furthest; beyond the last
      offset everything below the end of the output is already in the output. */
  ghost predicate Sweep(s: seq<Dcn>, off: nat, len: nat, out: seq<Dcn>) {
    && off <= Reach(s)
    && (forall x :: x >= Reach(s) ==> (Depth(s, x) >= 1 <==> x < off + len))
    && (forall x :: InUnion(out, x) <==> Depth(s, x) >= 2)
    && (forall x :: Reach(s) <= x < LastEnd(out) ==> InUnion(out, x))
  }

  /** The offset of the last interval seen. */
  function Reach(s: seq<Dcn>): nat {
    if s == [] then 0 else s[|s| - 1].offset
  }

  ghost predicate OutOk(out: seq<Dcn>) {
    && Disjoint(out)
    && forall i :: 0 <= i < |out| ==> out[i].len > 0 && Fits(out[i])
  }

  lemma DepthSnoc(s: seq<Dcn>, d: Dcn, x: int)
    ensures Depth(s + [d], x) == Depth(s, x) + if Covers(d, x) then 1 else 0
  {
    assert (s + [d])[..|s|] == s;
  }

  lemma UnionSnoc(out: seq<Dcn>, d: Dcn, x: int)
    ensures InUnion(out + [d], x) <==> InUnion(out, x) || Covers(d, x)
  {
    var t := out + [d];
    assert t[|out|] == d;
    if InUnion(out, x) {
      var i :| 0 <= i < |out| && Covers(out[i], x);
      assert t[i] == out[i];
    }
    if InUnion(t, x) {
      var i :| 0 <= i < |t| && Covers(t[i], x);
      if i < |out| { assert out[i] == t[i]; }
    }
  }

  lemma AppendOk(out: seq<Dcn>, d: Dcn)
    requires OutOk(out) && d.len > 0 && Fits(d) && LastEnd(out) <= d.offset
    ensures OutOk(out + [d])
  {
    forall i, j | 0 <= i < j < |out + [d]| ensures End((out + [d])[i]) <= (out + [d])[j].offset {
      if j == |out| && i < |out| - 1 {
        assert End(out[i]) <= out[|out| - 1].offset;
      }
    }
  }

  /** New double cover comes only from where the new interval lies under the current one. */
  lemma DepthStep(s: seq<Dcn>, off: nat, len: nat, out: seq<Dcn>, d: Dcn, x: int)
    requires Sweep(s, off, len, out) && d.offset >= Reach(s)
    ensures x >= d.offset ==> (Depth(s + [d], x) >= 1 <==> x < off + len || x < End(d))
    ensures Depth(s + [d], x) >= 2 <==> Depth(s, x) >= 2 || (d.offset <= x < off + len && x < End(d))
  {
    DepthSnoc(s, d, x);
  }

  function Max(a: int, b: int): int { if a >= b then a else b }

  function Min(a: int, b: int): int { if a <= b then a else b }

  /** What one turn appends: the part of the overlap behind the end of the output. */
  ghost predicate Appended(out: seq<Dcn>, out': seq<Dcn>, lo: nat, hi: int) {
    if Max(lo, LastEnd(out)) < hi then
      && |out'| == |out| + 1 && out' == out + [out'[|out|]]
      && out'[|out|].offset == Max(lo, LastEnd(out)) && End(out'[|out|]) == hi
    else out' == out
  }

  lemma StepUnion(out: seq<Dcn>, out': seq<Dcn>, lo: nat, hi: int, x: int)
    requires OutOk(out) && Appended(out, out', lo, hi) && forall y :: lo <= y < LastEnd(out) ==> InUnion(out, y)
    ensures InUnion(out', x) <==> InUnion(out, x) || lo <= x < hi
    ensures lo <= x < LastEnd(out') ==> InUnion(out', x)
  {
    if out' != out { UnionSnoc(out, out'[|out|], x); }
  }

  lemma StepSweep(s: seq<Dcn>, off: nat, len: nat, out: seq<Dcn>, d: Dcn, off': nat, len': nat, out': seq<Dcn>)
    requires Sweep(s, off, len, out) && OutOk(out) && d.offset >= Reach(s) && off' <= d.offset
    requires off' + len' == if d.offset < off + len then Max(off + len, End(d)) else End(d)
    requires Appended(out, out', d.offset, Min(off + len, End(d)))
    ensures Sweep(s + [d], off', len', out')
  {
    hide OutOk, Appended, Depth, InUnion, LastEnd;
    var t, hi := s + [d], Min(off + len, End(d));
    forall x ensures InUnion(out', x) <==> Depth(t, x) >= 2 {
      DepthStep(s, off, len, out, d, x);
      StepUnion(out, out', d.offset, hi, x);
    }
    forall x | x >= Reach(t) ensures Depth(t, x) >= 1 <==> x < off' + len' {
      DepthStep(s, off, len, out, d, x);
    }
    forall x | Reach(t) <= x < LastEnd(out') ensures InUnion(out', x) {
      StepUnion(out, out', d.offset, hi, x);
    }
  }

  /** The part of the overlap lo .. lo + n - 1 that is not yet in the output. */
  method AddOverlap(out: seq<Dcn>, lo: nat, n: nat) returns (r: seq<Dcn>)
    requires OutOk(out)
    ensures OutOk(r) && Appended(out, r, lo, lo + n)
  {
    var olapOff, olapLen := lo, n;
    r := out;
    if |out| > 0 {
      var np2 := out[|out| - 1];
      if np2.offset + np2.len - 1 >= olapOff {
        if np2.offset + np2.len >= olapOff + olapLen {
          olapLen := 0;
        } else {
          olapLen := olapLen - ((np2.offset + np2.len - 1) - olapOff + 1);
          olapOff := np2.offset + np2.len;
        }
      }
    }
    if olapLen != 0 {
      SizeClassLeast(olapLen);
      var d := Dcn(olapOff, olapLen, SizeClass(olapLen));
      AppendOk(out, d);
      r := out + [d];
    }
  }

  /** The output is sorted and disjoint, its entries are not empty and of the least size class,
      and together they are exactly the points that at least two input intervals cover. */
  method GetOverlap(sorted: seq<Dcn>) returns (out: seq<Dcn>)
    requires SortedByOffset(sorted)
    ensures SortedByOffset(out) && Disjoint(out)
    ensures forall i :: 0 <= i < |out| ==> out[i].len > 0 && Fits(out[i])
    ensures forall x :: InUnion(out, x) <==> Depth(sorted, x) >= 2
  {
    hide Depth, InUnion, Fits, Appended;
    var curOff: nat, curLen: nat, n: nat := 0, 0, 0;
    out := [];
    assert Sweep([], 0, 0, []) by { EmptySweep(); }
    assert sorted[..0] == [];
    while n < |sorted|
      invariant n <= |sorted| && OutOk(out) && Sweep(sorted[..n], curOff, curLen, out)
    {
      var np := sorted[n];
      assert np.offset >= Reach(sorted[..n]);
      assert np.offset >= curOff;
      assert sorted[..n] + [np] == sorted[..n + 1];
      ghost var off0, len0, out0 := curOff, curLen, out;
      if np.offset > curOff + curLen - 1 {
        curOff, curLen := np.offset, np.len;
        NothingAppended(out, np.offset, Min(off0 + len0, End(np)));
      } else if np.offset + np.len > curOff + curLen {
        out := AddOverlap(out, np.offset, (curOff + curLen - 1) - np.offset + 1);
        curOff, curLen := np.offset, np.len;
      } else {
        out := AddOverlap(out, np.offset, np.len);
      }
      StepSweep(sorted[..n], off0, len0, out0, np, curOff, curLen, out);
      n := n + 1;
    }
    assert sorted[..n] == sorted;
  }

  lemma EmptySweep()
    ensures Sweep([], 0, 0, [])
  {
  }

  lemma NothingAppended(out: seq<Dcn>, lo: nat, hi: int)
    requires hi <= lo
    ensures Appended(out, out, lo, hi)
  {
  }
}
