/** Integer helpers shared by the host-side layout code and the cost model:
    the round-up-to-a-boundary formula `((x + b - 1) / b) * b` that the host
    writes out inline for every padded size, `ceil_eightx`, and C's
    truncating integer division. */
module Alignment {

  /** A 32-bit `unsigned int` word. */
  type U32 = x: int | 0 <= x < 0x1_0000_0000

  /** A C `int` division by a positive constant: rounds toward zero, unlike
      Dafny's `/`, which rounds toward negative infinity for a negative
      dividend. */
  function TruncDiv(a: int, b: int): (q: int)
    requires b > 0
    ensures a >= 0 ==> q == a / b
    ensures a >= 0 ==> q * b <= a < q * b + b
    ensures a < 0 ==> q * b >= a > q * b - b
    ensures a < 0 ==> q <= 0
  {
    if a >= 0 then a / b else -((-a) / b)
  }

  lemma {:induction false} TruncDivMonotone(a: int, a': int, b: int)
    requires b > 0 && a <= a'
    ensures TruncDiv(a, b) <= TruncDiv(a', b)
  {
    var q, q' := TruncDiv(a, b), TruncDiv(a', b);
    if q > q' {
      // a lies in a bucket of width b wholly above the one holding a'
      MulMonotone(b, q' + 1, q);
      assert false;
    }
  }

  lemma MulMonotone(d: int, a: int, b: int)
    requires d >= 0 && a <= b
    ensures a * d <= b * d
  {
  }

  /** `((x + b - 1) / b) * b`: the host's padding of a non-negative size `x`
      up to the next multiple of `b`. */
  function RoundUp(x: nat, b: nat): (r: nat)
    requires b > 0
    ensures r % b == 0
    ensures x <= r < x + b
    ensures x == 0 <==> r == 0
  {
    var q := (x + b - 1) / b;
    assert q * b <= x + b - 1 < q * b + b;
    MultipleMod(q, b);
    q * b
  }

  lemma MultipleMod(q: nat, b: nat)
    requires b > 0
    ensures (q * b) % b == 0
  {
    var m := q * b;
    var q', r' := m / b, m % b;
    assert m == q' * b + r' && 0 <= r' < b;
    if q' < q {
      MulMonotone(b, q' + 1, q);
    } else if q' > q {
      MulMonotone(b, q + 1, q');
    }
  }

  /** No multiple of `b` lies in `[x, RoundUp(x, b))`: the padding is the
      least one possible. */
  lemma {:induction false} RoundUpIsLeast(x: nat, b: nat, m: nat)
    requires b > 0 && m % b == 0 && x <= m
    ensures RoundUp(x, b) <= m
  {
    var r := RoundUp(x, b);
    var k, j := m / b, r / b;
    assert m == k * b && r == j * b;
    if k < j {
      MulMonotone(b, k + 1, j);
      assert false;
    }
    MulMonotone(b, j, k);
  }

  lemma {:induction false} RoundUpMonotone(x: nat, x': nat, b: nat)
    requires b > 0 && x <= x'
    ensures RoundUp(x, b) <= RoundUp(x', b)
  {
    RoundUpIsLeast(x, b, RoundUp(x', b));
  }

  /** `ceil_eightx`: 1 for a non-positive argument, otherwise the least
      multiple of 8 that is at least `x`. */
  function CeilEightX(x: int): (r: int)
    ensures x <= 0 ==> r == 1
    ensures x > 0 ==> r % 8 == 0 && x <= r < x + 8
  {
    if x <= 0 then 1 else ((x + 7) / 8) * 8
  }

  lemma CeilEightXIsLeast(x: int, m: int)
    requires x > 0 && m % 8 == 0 && x <= m
    ensures CeilEightX(x) <= m
  {
  }
}
