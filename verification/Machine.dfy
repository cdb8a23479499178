/** Fixed-width unsigned integers as the limiter and the metrics use them, and a few shared definitions. */
module Machine {
  const U32_SIZE: int := 0x1_0000_0000
  const U64_SIZE: int := 0x1_0000_0000_0000_0000
  const U64_MAX: int := U64_SIZE - 1

  type u32 = x: int | 0 <= x < U32_SIZE
  type u64 = x: int | 0 <= x < U64_SIZE

  datatype Option<+T> = None | Some(value: T)

  function Min(a: int, b: int): int { if a <= b then a else b }

  function Bit(b: bool): nat { if b then 1 else 0 }

  function Wrap32(x: int): u32 { x % U32_SIZE }

  function Wrap64(x: int): u64 { x % U64_SIZE }

  function Times(a: nat, b: nat): nat { a * b }

  /** `u64::saturating_add(1)`. */
  function SaturatingInc(x: u64): u64 { if x == U64_MAX then x else x + 1 }

  /** `u64::saturating_sub`. */
  function SaturatingSub(a: u64, b: u64): u64 { if a >= b then a - b else 0 }

  lemma MulMonotone(a: int, b: int, m: nat)
    requires a <= b
    ensures m * a <= m * b
  {
  }

  /**
   Unsigned integer division, by repeated subtraction.  Equal to `/` (`QuotientIsDivision`), and
   kept apart from it because the solver handles a variable divisor badly.
   */
  function Quotient(n: nat, d: nat): nat
    requires 0 < d
    decreases n
  {
    if n < d then 0 else 1 + Quotient(n - d, d)
  }

  lemma {:induction false} QuotientBounds(n: nat, d: nat)
    requires 0 < d
    ensures d * Quotient(n, d) <= n < d * Quotient(n, d) + d
    decreases n
  {
    if n >= d {
      QuotientBounds(n - d, d);
    }
  }

  lemma {:induction false} QuotientIsDivision(n: nat, d: nat)
    requires 0 < d
    ensures Quotient(n, d) == n / d
  {
    QuotientBounds(n, d);
    DivisionUnique(n, d, Quotient(n, d));
  }

  lemma DivisionUnique(n: nat, d: nat, q: nat)
    requires 0 < d && d * q <= n < d * q + d
    ensures n / d == q
  {
    var p := n / d;
    assert d * p <= n < d * p + d;
    if p < q {
      MulMonotone(p + 1, q, d);
    } else if q < p {
      MulMonotone(q + 1, p, d);
    }
  }

  /** Whatever fits into `n` in multiples of `d` is at most the quotient. */
  lemma {:induction false} AtMostQuotient(n: nat, d: nat, k: int)
    requires 0 < d && d * k <= n
    ensures k <= Quotient(n, d)
  {
    QuotientBounds(n, d);
    var q := Quotient(n, d);
    if k > q {
      MulMonotone(q + 1, k, d);
    }
  }

  lemma {:induction false} QuotientMonotone(a: nat, b: nat, d: nat)
    requires a <= b && 0 < d
    ensures Quotient(a, d) <= Quotient(b, d)
  {
    QuotientBounds(a, d);
    AtMostQuotient(b, d, Quotient(a, d));
  }

  /** The positions, of threads in a list of program counters say, that satisfy `p`. */
  ghost function Where<T>(xs: seq<T>, p: T -> bool): set<nat> {
    set t: nat | t < |xs| && p(xs[t])
  }

  lemma WhereUpdate<T>(xs: seq<T>, p: T -> bool, t: nat, x: T)
    requires t < |xs|
    ensures |Where(xs[t := x], p)| == |Where(xs, p)| + Bit(p(x)) - Bit(p(xs[t]))
  {
    var before, after := Where(xs, p), Where(xs[t := x], p);
    assert before - {t} == after - {t};
    assert p(xs[t]) ==> before == (before - {t}) + {t};
    assert !p(xs[t]) ==> before == before - {t};
    assert p(x) ==> after == (after - {t}) + {t};
    assert !p(x) ==> after == after - {t};
  }
}
