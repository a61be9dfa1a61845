/** Division facts with a variable divisor. */
module Arith {

  /** Quotient and remainder are determined by q == k * d + r. */
  lemma DivModIs(q: int, d: int, k: int, r: int)
    requires 0 <= r < d && q == k * d + r
    ensures q / d == k && q % d == r
  {
    var k', r' := q / d, q % d;
    assert (k' - k) * d == r - r' by {
      assert q == k' * d + r';
      assert (k' - k) * d == k' * d - k * d;
    }
    MultipleInRange(k' - k, d);
  }

  lemma MultipleInRange(x: int, d: int)
    requires d > 0 && -d < x * d < d
    ensures x == 0
  {
  }

  /** Two places on a ring of p slots fewer than p steps apart are equal only if they are the
      same step. */
  lemma RingInjective(a: int, b: int, p: int)
    requires p > 0 && -p < a - b < p && a % p == b % p
    ensures a == b
  {
    assert (a / p - b / p) * p == a - b by {
      assert a == (a / p) * p + a % p && b == (b / p) * p + b % p;
      assert (a / p - b / p) * p == (a / p) * p - (b / p) * p;
    }
    MultipleInRange(a / p - b / p, p);
  }

  lemma RingNext(a: int, p: int)
    requires p > 0
    ensures (a + 1) % p == if a % p + 1 == p then 0 else a % p + 1
  {
    var k, r := a / p, a % p;
    if r + 1 == p {
      assert (k + 1) * p == k * p + p;
      DivModIs(a + 1, p, k + 1, 0);
    } else {
      DivModIs(a + 1, p, k, r + 1);
    }
  }

  lemma RingPeriod(a: int, p: int)
    requires p > 0
    ensures (a - p) % p == a % p
  {
    assert (a / p - 1) * p == (a / p) * p - p;
    DivModIs(a - p, p, a / p - 1, a % p);
  }

  lemma InsidePages(r: int, p: int, z: int, o: int)
    requires 0 <= r < p && 0 <= o < z
    ensures 0 <= r * z + o < p * z
  {
    MulMonotone(r + 1, p, z);
    assert (r + 1) * z == r * z + z;
    MulMonotone(0, r, z);
  }

  lemma PageRoom(r: int, p: int, z: int)
    requires 0 <= r < p && z > 0
    ensures 0 <= r * z && r * z + z <= p * z
  {
    InsidePages(r, p, z, z - 1);
    InsidePages(r, r + 1, z, 0);
  }

  lemma Distribute(k: int, p: int, r: int, z: int)
    ensures (k * p + r) * z == k * (p * z) + r * z
  {
    assert (k * p + r) * z == (k * p) * z + r * z;
    assert (k * p) * z == k * (p * z);
  }

  /** Splitting an address into page and offset and wrapping the page is wrapping the address. */
  lemma WrapAddress(q: int, p: int, z: int)
    requires p > 0 && z > 0
    ensures p * z > 0
    ensures q % (p * z) == ((q / z) % p) * z + q % z
  {
    var g, o := q / z, q % z;
    var k, r := g / p, g % p;
    InsidePages(r, p, z, o);
    Distribute(k, p, r, z);
    DivModIs(q, p * z, k, r * z + o);
  }

  lemma MulMonotone(a: int, b: int, z: int)
    requires a <= b && z >= 0
    ensures a * z <= b * z
  {
  }

  lemma InPage(q: nat, z: int)
    requires z > 0
    ensures 0 <= q / z * z <= q < q / z * z + z
  {
    MulMonotone(0, q / z, z);
  }

  lemma PageNat(q: nat, z: int)
    requires z > 0
    ensures q / z >= 0
  {
    if q / z < 0 { MulMonotone(q / z, -1, z); }
  }

  lemma PageBelow(q: nat, z: int, g: int)
    requires z > 0 && q < g * z
    ensures 0 <= q / z < g
  {
    PageNat(q, z);
    InPage(q, z);
    if q / z >= g {
      MulMonotone(g, q / z, z);
    }
  }

  lemma DivMonotone(a: nat, b: nat, z: int)
    requires z > 0 && a <= b
    ensures a / z <= b / z
  {
    InPage(b, z);
    assert (b / z + 1) * z == b / z * z + z;
    PageBelow(a, z, b / z + 1);
  }

  /** An interval of at most z numbers that ends on another page than it starts ends on the next
      one, and is cut at the border. */
  lemma Crossing(start: nat, len: nat, z: int)
    requires 1 <= len <= z
    ensures start / z != (start + len - 1) / z <==> start % z + len > z
    ensures start % z + len > z ==>
      var end, n := start + len - 1, z - start % z;
      && 0 < n < len && end / z == start / z + 1 && n + (end % z + 1) == len
      && (start + n - 1) / z == start / z && (start + n) / z == start / z + 1
  {
    var end, k, o := start + len - 1, start / z, start % z;
    assert start == k * z + o;
    assert (k + 1) * z == k * z + z;
    if o + len - 1 < z {
      DivModIs(end, z, k, o + len - 1);
    } else {
      DivModIs(end, z, k + 1, o + len - 1 - z);
      DivModIs(start + (z - o) - 1, z, k, z - 1);
      DivModIs(start + (z - o), z, k + 1, 0);
    }
  }

  function Pow2(k: nat): (p: nat)
    ensures p > 0
  {
    if k == 0 then 1 else 2 * Pow2(k - 1)
  }

  lemma {:induction false} Pow2Adds(a: nat, b: nat)
    ensures Pow2(a + b) == Pow2(a) * Pow2(b)
  {
    if a > 0 { Pow2Adds(a - 1, b); }
  }

  lemma {:induction false} Pow2Grows(a: nat, b: nat)
    requires a <= b
    ensures Pow2(a) <= Pow2(b)
    decreases b
  {
    if a < b { Pow2Grows(a, b - 1); }
  }
}
