/**
 What polling does to the bucket of src/cache/rate_limiting.rs: whether refilling often can leave more
 tokens than refilling once, and how much it can lose.  Both depend on whether the arithmetic wraps, and
 both have an exact condition on the configuration.
 */
module Polling {
  import opened Machine
  import opened TokenBucket

  function RefillAll(cfg: Config, b: Bucket, times: seq<u64>): Bucket
    decreases |times|
  {
    if times == [] then b else RefillAll(cfg, Refill(cfg, b, times[0]), times[1..])
  }

  // ---------------------------------------------------------------------------------------------
  // Shares
  // ---------------------------------------------------------------------------------------------

  /** `max * elapsed / window` over unbounded integers. */
  ghost function Exact(cfg: Config, elapsed: nat): nat
    requires 0 < cfg.windowMs
  {
    Quotient(Times(cfg.maxRequests, elapsed), cfg.windowMs)
  }

  /** The cast to `u32` never matters; only the product can wrap. */
  lemma ShareIs(cfg: Config, e: u64)
    requires e < cfg.windowMs
    ensures TokensToAdd(cfg, e) == Quotient(Wrap64(Times(cfg.maxRequests, e)), cfg.windowMs) <= cfg.maxRequests
    ensures Times(cfg.maxRequests, e) < U64_SIZE ==> TokensToAdd(cfg, e) == Exact(cfg, e)
  {
    var product := Times(cfg.maxRequests, e);
    ShareBounds(cfg.maxRequests, e, cfg.windowMs);
    WrapAtMost(product);
    QuotientMonotone(Wrap64(product), product, cfg.windowMs);
  }

  lemma WrapAtMost(n: nat)
    ensures Wrap64(n) <= n && (n < U64_SIZE ==> Wrap64(n) == n) && (n >= U64_SIZE ==> Wrap64(n) + U64_SIZE <= n)
  {
  }

  lemma QuotientUnique(n: nat, d: nat, q: nat)
    requires 0 < d && d * q <= n < d * q + d
    ensures Quotient(n, d) == q
  {
    QuotientIsDivision(n, d);
    DivisionUnique(n, d, q);
  }

  lemma Superadditive(cfg: Config, x: nat, z: nat)
    requires 0 < cfg.windowMs
    ensures Exact(cfg, x) + Exact(cfg, z) <= Exact(cfg, x + z)
  {
    var m, w := cfg.maxRequests, cfg.windowMs;
    QuotientBounds(Times(m, x), w);
    QuotientBounds(Times(m, z), w);
    assert Times(m, x + z) == Times(m, x) + Times(m, z);
    assert w * (Exact(cfg, x) + Exact(cfg, z)) == w * Exact(cfg, x) + w * Exact(cfg, z);
    AtMostQuotient(Times(m, x + z), w, Exact(cfg, x) + Exact(cfg, z));
  }

  /** A partial refill, whether or not it adds anything. */
  lemma RefillPartial(cfg: Config, b: Bucket, now: u64)
    requires b.tokens <= cfg.maxRequests
    requires SaturatingSub(now, b.lastRefillMs) < cfg.windowMs
    ensures var add := TokensToAdd(cfg, SaturatingSub(now, b.lastRefillMs));
            && Refill(cfg, b, now).tokens == TopUp(cfg, b.tokens, add) <= cfg.maxRequests
            && Refill(cfg, b, now).lastRefillMs == if add > 0 then now else b.lastRefillMs
  {
  }

  // ---------------------------------------------------------------------------------------------
  // Polling never helps
  // ---------------------------------------------------------------------------------------------

  ghost predicate ProductFits(cfg: Config) {
    0 < cfg.windowMs ==> Times(cfg.maxRequests, cfg.windowMs - 1) < U64_SIZE
  }

  /**
   Nothing wraps; or the sum of a full bucket and the smallest share already does and shares are exact
   multiples of it; or the product wraps but no partial refill ever adds anything.
   */
  ghost predicate Steady(cfg: Config) {
    var m, w := cfg.maxRequests, cfg.windowMs;
    || w == 0
    || Fits(cfg)
    || (ProductFits(cfg) && m + Quotient(m, w) >= U32_SIZE && m - w * Quotient(m, w) <= 1)
    || (!ProductFits(cfg) && forall e: nat | e < w :: Wrap64(Times(m, e)) < w)
  }

  /** Two top-ups against one: the sum never wraps, or the second always does. */
  lemma TwoTopUps(cfg: Config, t: u32, a1: u32, a2: u32, a: u32)
    requires t <= cfg.maxRequests && a1 + a2 <= a
    requires cfg.maxRequests + a < U32_SIZE || (a == a1 + a2 && cfg.maxRequests + a2 >= U32_SIZE)
    ensures TopUp(cfg, TopUp(cfg, t, a1), a2) <= TopUp(cfg, t, a)
  {
    WrapSum(t, a1);
    WrapSum(TopUp(cfg, t, a1), a2);
    WrapSum(t, a);
  }

  lemma WrapSum(a: u32, b: u32)
    ensures Wrap32(a + b) == if a + b < U32_SIZE then a + b else a + b - U32_SIZE
  {
  }

  /** If the maximum is a multiple of the window, or one more, every share is a multiple of the smallest. */
  lemma Multiples(cfg: Config, e: nat)
    requires e < cfg.windowMs && cfg.maxRequests - cfg.windowMs * Quotient(cfg.maxRequests, cfg.windowMs) <= 1
    ensures Exact(cfg, e) == Times(e, Quotient(cfg.maxRequests, cfg.windowMs))
  {
    var m, w := cfg.maxRequests, cfg.windowMs;
    var q := Quotient(m, w);
    QuotientBounds(m, w);
    var r := m - w * q;
    Distribute(w, q, r, e);
    assert 0 <= e * r <= e;
    QuotientUnique(Times(m, e), w, Times(e, q));
  }

  lemma FittingShares(cfg: Config, x: u64, z: u64)
    requires ProductFits(cfg) && x + z < cfg.windowMs
    ensures TokensToAdd(cfg, x) == Exact(cfg, x) && TokensToAdd(cfg, z) == Exact(cfg, z)
    ensures TokensToAdd(cfg, x + z) == Exact(cfg, x + z) <= Exact(cfg, cfg.windowMs - 1)
  {
    ShareIs(cfg, x);
    ShareIs(cfg, z);
    ShareIs(cfg, x + z);
    ShareBounds(cfg.maxRequests, x, cfg.windowMs);
    ShareBounds(cfg.maxRequests, z, cfg.windowMs);
    ShareBounds(cfg.maxRequests, x + z, cfg.windowMs);
  }

  lemma MultipleShares(cfg: Config, x: u64, z: u64)
    requires 0 < z && x + z < cfg.windowMs
    requires cfg.maxRequests - cfg.windowMs * Quotient(cfg.maxRequests, cfg.windowMs) <= 1
    ensures Exact(cfg, x + z) == Exact(cfg, x) + Exact(cfg, z) && Exact(cfg, z) >= Quotient(cfg.maxRequests, cfg.windowMs)
  {
    var q := Quotient(cfg.maxRequests, cfg.windowMs);
    Multiples(cfg, x);
    Multiples(cfg, z);
    Multiples(cfg, x + z);
    MulMonotone(1, z, q);
    assert Times(x + z, q) == Times(x, q) + Times(z, q);
  }

  lemma SteadyShares(cfg: Config, x: u64, z: u64)
    requires Steady(cfg) && 0 < z && x + z < cfg.windowMs && TokensToAdd(cfg, x) > 0
    ensures var a1, a2, a := TokensToAdd(cfg, x), TokensToAdd(cfg, z), TokensToAdd(cfg, x + z);
            a1 + a2 <= a &&
            (cfg.maxRequests + a < U32_SIZE || (a == a1 + a2 && cfg.maxRequests + a2 >= U32_SIZE))
  {
    ShareIs(cfg, x);
    if ProductFits(cfg) {
      FittingShares(cfg, x, z);
      Superadditive(cfg, x, z);
      if !Fits(cfg) {
        MultipleShares(cfg, x, z);
      }
    }
  }

  lemma Capped(cfg: Config, b: Bucket, now: u64)
    requires b.tokens <= cfg.maxRequests
    ensures Refill(cfg, b, now).tokens <= cfg.maxRequests
  {
  }

  lemma TwoPolls(cfg: Config, b: Bucket, x: u64, y: u64)
    requires Steady(cfg) && b.tokens <= cfg.maxRequests && x <= y
    ensures Refill(cfg, Refill(cfg, b, x), y).tokens <= Refill(cfg, b, y).tokens
  {
    var first := Refill(cfg, b, x);
    var elapsed, whole := SaturatingSub(x, b.lastRefillMs), SaturatingSub(y, b.lastRefillMs);
    Capped(cfg, b, x);
    Capped(cfg, first, y);
    if cfg.windowMs > 0 && whole < cfg.windowMs && first != b {
      RefillPartial(cfg, b, x);
      RefillPartial(cfg, b, y);
      NoTimeNoTokens(cfg);
      RefillPartial(cfg, first, y);
      if x < y {
        SteadyShares(cfg, elapsed, y - x);
        TwoTopUps(cfg, b.tokens, TokensToAdd(cfg, elapsed), TokensToAdd(cfg, y - x), TokensToAdd(cfg, whole));
      }
    }
  }

  /**
   Polling never helps: refilling at any non-decreasing times leaves no more tokens than a single
   refill at the last of them.
   */
  lemma {:induction false} PollingNeverHelps(cfg: Config, b: Bucket, times: seq<u64>)
    requires Steady(cfg) && b.tokens <= cfg.maxRequests
    requires times != [] && NonDecreasing(times)
    ensures RefillAll(cfg, b, times).tokens <= Refill(cfg, b, times[|times| - 1]).tokens
    decreases |times|
  {
    if |times| > 1 {
      var first := Refill(cfg, b, times[0]);
      assert times[1..] != [] && times[1..][|times| - 2] == times[|times| - 1];
      Capped(cfg, b, times[0]);
      PollingNeverHelps(cfg, first, times[1..]);
      TwoPolls(cfg, b, times[0], times[|times| - 1]);
    } else {
      assert times[1..] == [];
    }
  }

  ghost predicate NonDecreasing(times: seq<u64>) {
    forall i, j | 0 <= i < j < |times| :: times[i] <= times[j]
  }

  /** A bucket of `t` tokens refilled at time 0. */
  function With(t: u32): Bucket { Bucket(t, 0, 0, 0, 0) }

  /** Polling at `x` and again one millisecond later beats polling once, later. */
  ghost predicate Helps(cfg: Config, t: u32, x: u64) {
    && x + 1 < cfg.windowMs && t <= cfg.maxRequests
    && Refill(cfg, Refill(cfg, With(t), x), x + 1).tokens > Refill(cfg, With(t), x + 1).tokens
  }

  lemma HelpsIf(cfg: Config, t: u32, x: u64)
    requires x + 1 < cfg.windowMs && t <= cfg.maxRequests && TokensToAdd(cfg, x) > 0
    requires TopUp(cfg, TopUp(cfg, t, TokensToAdd(cfg, x)), TokensToAdd(cfg, 1)) > TopUp(cfg, t, TokensToAdd(cfg, x + 1))
    ensures Helps(cfg, t, x)
  {
    RefillPartial(cfg, With(t), x);
    RefillPartial(cfg, With(t), x + 1);
    RefillPartial(cfg, Refill(cfg, With(t), x), x + 1);
  }

  /** The first elapsed time whose share reaches `k`. */
  lemma FirstReaching(cfg: Config, k: nat) returns (y: nat)
    requires 0 < k && 0 < cfg.windowMs && k <= Exact(cfg, cfg.windowMs - 1)
    ensures 0 < y < cfg.windowMs && Exact(cfg, y - 1) < k <= Exact(cfg, y)
  {
    NoTime(cfg);
    y := cfg.windowMs - 1;
    while Exact(cfg, y - 1) >= k
      invariant 0 < y < cfg.windowMs && k <= Exact(cfg, y)
      decreases y
    {
      y := y - 1;
    }
  }

  lemma NoTime(cfg: Config)
    requires 0 < cfg.windowMs
    ensures Exact(cfg, 0) == 0 && Exact(cfg, 1) == Quotient(cfg.maxRequests, cfg.windowMs)
  {
    assert Times(cfg.maxRequests, 1) == cfg.maxRequests;
  }

  /** The smallest share keeps a full bucket below the width, some later one does not. */
  lemma HelpsLate(cfg: Config) returns (t: u32, x: u64)
    requires 0 < cfg.windowMs && ProductFits(cfg) && !Fits(cfg)
    requires cfg.maxRequests + Quotient(cfg.maxRequests, cfg.windowMs) < U32_SIZE
    ensures Helps(cfg, t, x)
  {
    NoTime(cfg);
    var y := FirstReaching(cfg, U32_SIZE - cfg.maxRequests);
    assert y != 1;
    if Exact(cfg, y - 1) == 0 {
      Superadditive(cfg, 1, y - 2);
      BelowWindow(cfg.maxRequests, cfg.windowMs);
      SlowGrowth(cfg, y);
      t, x := HelpsSlow(cfg);
    } else {
      t, x := cfg.maxRequests, y - 1;
      HelpsFull(cfg, x);
    }
  }

  lemma BelowWindow(m: nat, w: nat)
    requires 0 < w && Quotient(m, w) == 0
    ensures m < w
  {
  }

  /** A full bucket that stays full at `x` and for one more millisecond would have wrapped in one go. */
  lemma HelpsFull(cfg: Config, x: u64)
    requires ProductFits(cfg) && x + 1 < cfg.windowMs && 0 < Exact(cfg, x)
    requires cfg.maxRequests + Exact(cfg, x) < U32_SIZE && cfg.maxRequests + Exact(cfg, 1) < U32_SIZE
    requires cfg.maxRequests + Exact(cfg, x + 1) >= U32_SIZE
    ensures Helps(cfg, cfg.maxRequests, x)
  {
    FittingShares(cfg, x, 1);
    FullTopUps(cfg, TokensToAdd(cfg, x), TokensToAdd(cfg, 1), TokensToAdd(cfg, x + 1));
    HelpsIf(cfg, cfg.maxRequests, x);
  }

  lemma FullTopUps(cfg: Config, a1: u32, a2: u32, a: u32)
    requires cfg.maxRequests + a1 < U32_SIZE && cfg.maxRequests + a2 < U32_SIZE <= cfg.maxRequests + a
    ensures TopUp(cfg, TopUp(cfg, cfg.maxRequests, a1), a2) > TopUp(cfg, cfg.maxRequests, a)
  {
    WrapSum(cfg.maxRequests, a1);
    WrapSum(cfg.maxRequests, a2);
    WrapSum(cfg.maxRequests, a);
  }

  /** With a window longer than the maximum, shares grow by at most one. */
  lemma SlowGrowth(cfg: Config, y: nat)
    requires 0 < y && cfg.maxRequests < cfg.windowMs
    ensures Exact(cfg, y) <= Exact(cfg, y - 1) + 1
  {
    var m, w := cfg.maxRequests, cfg.windowMs;
    var n := Times(m, y - 1);
    assert Times(m, y) == n + m;
    QuotientMonotone(n + m, n + w, w);
  }

  /** The largest maximum and a window longer than it: a bucket one short of full is filled by one token. */
  lemma HelpsSlow(cfg: Config) returns (t: u32, x: u64)
    requires ProductFits(cfg) && cfg.maxRequests == U32_SIZE - 1 < cfg.windowMs
    ensures Helps(cfg, t, x)
  {
    var m, w := cfg.maxRequests, cfg.windowMs;
    NoTime(cfg);
    AtMostQuotient(Times(m, w - 1), w, m - 1) by {
      assert Times(m, w - 1) == w * (m - 1) + (w - m);
    }
    var y := FirstReaching(cfg, 2);
    SlowGrowth(cfg, y);
    t, x := m - 1, y - 1;
    FittingShares(cfg, x, 1);
    ShareIs(cfg, y);
    assert TokensToAdd(cfg, 1) == 0 && TokensToAdd(cfg, x) == 1 && TokensToAdd(cfg, y) == 2;
    WrapSum(m - 1, 1);
    WrapSum(m, 0);
    WrapSum(m - 1, 2);
    HelpsIf(cfg, t, x);
  }

  /** Even the smallest share wraps a full bucket, but shares are not exact multiples of it. */
  lemma HelpsRounding(cfg: Config) returns (t: u32, x: u64)
    requires 0 < cfg.windowMs && ProductFits(cfg) && !Fits(cfg)
    requires cfg.maxRequests + Quotient(cfg.maxRequests, cfg.windowMs) >= U32_SIZE
    requires cfg.maxRequests - cfg.windowMs * Quotient(cfg.maxRequests, cfg.windowMs) >= 2
    ensures Helps(cfg, t, x)
  {
    var m, w := cfg.maxRequests, cfg.windowMs;
    var q := Quotient(m, w);
    NoTime(cfg);
    var y := FirstExtra(cfg);
    x := y - 1;
    FittingShares(cfg, x, 1);
    ShareIs(cfg, y);
    MulMonotone(1, x, q);
    t := U32_SIZE - Exact(cfg, y);
    RoundingTopUps(cfg, t, Exact(cfg, x), q, Exact(cfg, y));
    HelpsIf(cfg, t, x);
  }

  lemma RoundingTopUps(cfg: Config, t: u32, a1: u32, a2: u32, a: u32)
    requires 0 < cfg.maxRequests && 0 < a2 && a1 + a2 < a && t + a == U32_SIZE
    ensures TopUp(cfg, TopUp(cfg, t, a1), a2) > TopUp(cfg, t, a)
  {
    WrapSum(t, a1);
    WrapSum(TopUp(cfg, t, a1), a2);
    WrapSum(t, a);
  }

  /** The first elapsed time whose share is more than a multiple of the smallest. */
  lemma FirstExtra(cfg: Config) returns (y: nat)
    requires 0 < cfg.windowMs
    requires cfg.maxRequests - cfg.windowMs * Quotient(cfg.maxRequests, cfg.windowMs) >= 2
    ensures 1 < y < cfg.windowMs
    ensures Exact(cfg, y - 1) == Times(y - 1, Quotient(cfg.maxRequests, cfg.windowMs))
    ensures Exact(cfg, y) > Exact(cfg, y - 1) + Quotient(cfg.maxRequests, cfg.windowMs)
  {
    var m, w := cfg.maxRequests, cfg.windowMs;
    var q := Quotient(m, w);
    NoTime(cfg);
    ExtraAtEnd(cfg);
    y := 2;
    while Exact(cfg, y) <= Times(y, q)
      invariant 1 < y < w
      invariant Exact(cfg, y - 1) == Times(y - 1, q)
      decreases w - y
    {
      Superadditive(cfg, y - 1, 1);
      assert Times(y, q) == Times(y - 1, q) + q;
      y := y + 1;
    }
    assert Times(y, q) == Times(y - 1, q) + q;
  }

  lemma ExtraAtEnd(cfg: Config)
    requires 0 < cfg.windowMs
    requires cfg.maxRequests - cfg.windowMs * Quotient(cfg.maxRequests, cfg.windowMs) >= 2
    ensures cfg.windowMs > 2
    ensures Exact(cfg, cfg.windowMs - 1) > Times(cfg.windowMs - 1, Quotient(cfg.maxRequests, cfg.windowMs))
  {
    var m, w := cfg.maxRequests, cfg.windowMs;
    var q := Quotient(m, w);
    QuotientBounds(m, w);
    var r := m - w * q;
    Distribute(w, q, r, w - 1);
    MulMonotone(2, r, w - 1);
    AtMostQuotient(Times(m, w - 1), w, Times(w - 1, q) + 1);
  }

  lemma Distribute(w: nat, q: nat, r: nat, k: nat)
    ensures Times(w * q + r, k) == w * Times(k, q) + k * r
    ensures w * (Times(k, q) + 1) == w * Times(k, q) + w
  {
    assert (w * q) * k == w * (k * q);
  }

  /** The product passes its width between `x` and `x + 1`, so that the later share is nothing. */
  lemma HelpsProduct(cfg: Config, x: u64)
    requires x + 1 < cfg.windowMs && cfg.maxRequests < cfg.windowMs
    requires var wrapped := Wrap64(Times(cfg.maxRequests, x));
             wrapped >= cfg.windowMs && wrapped + cfg.maxRequests >= U64_SIZE
    ensures Helps(cfg, 0, x)
  {
    var m, w := cfg.maxRequests, cfg.windowMs;
    var wrapped := Wrap64(Times(m, x));
    ShareIs(cfg, x);
    AtMostQuotient(wrapped, w, 1);
    ShareIs(cfg, 1);
    assert Times(m, 1) == m;
    ShareIs(cfg, x + 1);
    WrapsPast(m, x);
    HelpsIf(cfg, 0, x);
  }

  lemma WrapsPast(m: u32, x: nat)
    requires Wrap64(Times(m, x)) + m >= U64_SIZE
    ensures Wrap64(Times(m, x + 1)) == Wrap64(Times(m, x)) + m - U64_SIZE
  {
    var n := Times(m, x);
    assert Times(m, x + 1) == n + m;
    WrapUnique(n + m, n / U64_SIZE + 1, Wrap64(n) + m - U64_SIZE);
  }

  lemma FindProduct(cfg: Config) returns (x: u64)
    requires !Steady(cfg) && !ProductFits(cfg)
    ensures Helps(cfg, 0, x)
  {
    var m, w := cfg.maxRequests, cfg.windowMs;
    MaxBelowWindow(cfg);
    if w + m <= U64_SIZE {
      x := LastBefore(cfg);
    } else {
      var e: nat :| e < w && Wrap64(Times(m, e)) >= w;
      if e == w - 1 {
        EndWraps(m, w);
      }
      x := e;
    }
    HelpsProduct(cfg, x);
  }

  lemma MaxBelowWindow(cfg: Config)
    requires !ProductFits(cfg)
    ensures 0 < cfg.maxRequests < cfg.windowMs
  {
    var m, w := cfg.maxRequests, cfg.windowMs;
    if w <= m {
      SmallProduct(m, w);
    }
  }

  lemma SmallProduct(m: u32, w: nat)
    requires 0 < w <= m
    ensures Times(m, w - 1) < U64_SIZE
  {
    MulMonotone(w - 1, m, m);
    MulMonotone(m, U32_SIZE - 1, m);
    MulMonotone(m, U32_SIZE - 1, U32_SIZE - 1);
  }

  /** The last elapsed time whose product does not wrap. */
  lemma LastBefore(cfg: Config) returns (x: u64)
    requires !ProductFits(cfg) && 0 < cfg.maxRequests < cfg.windowMs && cfg.windowMs + cfg.maxRequests <= U64_SIZE
    ensures x + 1 < cfg.windowMs
    ensures var wrapped := Wrap64(Times(cfg.maxRequests, x));
            wrapped >= cfg.windowMs && wrapped + cfg.maxRequests >= U64_SIZE
  {
    var m, w := cfg.maxRequests, cfg.windowMs;
    var q := Quotient(U64_SIZE - 1, m);
    QuotientBounds(U64_SIZE - 1, m);
    if q >= w - 1 {
      MulMonotone(w - 1, q, m);
    }
    x := q;
  }

  /** With a window that close to the width, the product just before its end wraps to less than the window. */
  lemma EndWraps(m: u32, w: u64)
    requires 0 < m < w && w + m > U64_SIZE
    ensures Wrap64(Times(m, w - 1)) < w
  {
    var c := U64_SIZE - w;
    var less := m * (c + 1);
    assert m * (w - 1) == U64_SIZE * m - less;
    MulMonotone(c + 1, m, m);
    MulMonotone(m, U32_SIZE - 1, m);
    MulMonotone(m, U32_SIZE - 1, U32_SIZE - 1);
    MulMonotone(1, m, c + 1);
    assert c < less < U64_SIZE;
    WrapUnique(m * (w - 1), m - 1, U64_SIZE - less);
  }

  lemma WrapUnique(n: nat, k: nat, r: nat)
    requires n == U64_SIZE * k + r && r < U64_SIZE
    ensures Wrap64(n) == r
  {
  }

  /** A state on which polling helps, for every configuration that is not steady. */
  lemma PollingHelps(cfg: Config) returns (b: Bucket, times: seq<u64>)
    requires !Steady(cfg)
    ensures b.tokens <= cfg.maxRequests && times != [] && NonDecreasing(times)
    ensures RefillAll(cfg, b, times).tokens > Refill(cfg, b, times[|times| - 1]).tokens
  {
    var t, x := 0, 0;
    if !ProductFits(cfg) {
      x := FindProduct(cfg);
    } else if cfg.maxRequests + Quotient(cfg.maxRequests, cfg.windowMs) < U32_SIZE {
      t, x := HelpsLate(cfg);
    } else {
      t, x := HelpsRounding(cfg);
    }
    b, times := With(t), [x, x + 1];
    assert times[1..] == [x + 1] && times[1..][1..] == [];
    assert RefillAll(cfg, b, times) == RefillAll(cfg, Refill(cfg, b, x), [x + 1]) == Refill(cfg, Refill(cfg, b, x), x + 1);
  }

  /** The exact condition, over all buckets and all sequences of polls. */
  lemma PollingNeverHelpsIff(cfg: Config)
    ensures Steady(cfg) <==>
            forall b: Bucket, times: seq<u64> | b.tokens <= cfg.maxRequests && times != [] && NonDecreasing(times) ::
              RefillAll(cfg, b, times).tokens <= Refill(cfg, b, times[|times| - 1]).tokens
  {
    if Steady(cfg) {
      forall b: Bucket, times: seq<u64> | b.tokens <= cfg.maxRequests && times != [] && NonDecreasing(times)
        ensures RefillAll(cfg, b, times).tokens <= Refill(cfg, b, times[|times| - 1]).tokens
      {
        PollingNeverHelps(cfg, b, times);
      }
    } else {
      var b, times := PollingHelps(cfg);
    }
  }

  /** For instance, three quarters of the `u32` range every four milliseconds. */
  lemma PollingHelpsWhenWrapping() returns (cfg: Config, b: Bucket, times: seq<u64>)
    ensures b.tokens <= cfg.maxRequests && times != [] && NonDecreasing(times)
    ensures RefillAll(cfg, b, times).tokens > Refill(cfg, b, times[|times| - 1]).tokens
  {
    cfg := Config(0xC000_0000, 4);
    QuotientIsDivision(0xC000_0000, 4);
    QuotientIsDivision(0x2_4000_0000, 4);
    assert !Steady(cfg);
    b, times := PollingHelps(cfg);
  }

  // ---------------------------------------------------------------------------------------------
  // Polling costs at most half
  // ---------------------------------------------------------------------------------------------

  /** A refill short of a full window that stays below the cap. */
  ghost predicate PartialUncapped(cfg: Config, b: Bucket, now: u64)
    requires 0 < cfg.windowMs
  {
    var elapsed := SaturatingSub(now, b.lastRefillMs);
    elapsed < cfg.windowMs && b.tokens + TokensToAdd(cfg, elapsed) <= cfg.maxRequests
  }

  ghost predicate OnlyPartialUncapped(cfg: Config, b: Bucket, times: seq<u64>)
    requires 0 < cfg.windowMs
    decreases |times|
  {
    times == [] || (PartialUncapped(cfg, b, times[0]) && OnlyPartialUncapped(cfg, Refill(cfg, b, times[0]), times[1..]))
  }

  /** From `b` to `r` the bucket gains at least half of the proportional share of the time `lastRefillMs` moves. */
  ghost predicate AtLeastHalf(cfg: Config, b: Bucket, r: Bucket) {
    2 * cfg.windowMs * (r.tokens - b.tokens) >= cfg.maxRequests * (r.lastRefillMs - b.lastRefillMs)
  }

  /** A product that wraps always wraps to less than one token. */
  ghost predicate WrapsToNothing(cfg: Config) {
    forall e: nat | e < cfg.windowMs && Times(cfg.maxRequests, e) >= U64_SIZE ::
      Wrap64(Times(cfg.maxRequests, e)) < cfg.windowMs
  }

  lemma HalfStep(cfg: Config, b: Bucket, now: u64)
    requires WrapsToNothing(cfg) && 0 < cfg.windowMs && PartialUncapped(cfg, b, now)
    ensures AtLeastHalf(cfg, b, Refill(cfg, b, now))
  {
    var elapsed := SaturatingSub(now, b.lastRefillMs);
    var product := Times(cfg.maxRequests, elapsed);
    ShareIs(cfg, elapsed);
    RefillPartial(cfg, b, now);
    NoTimeNoTokens(cfg);
    var add := TokensToAdd(cfg, elapsed);
    assert TopUp(cfg, b.tokens, add) == b.tokens + add;
    if add > 0 {
      assert product < U64_SIZE;
      HalfOfQuotient(product, cfg.windowMs);
    }
  }

  /** Rounding down loses less than one token, and a refill that adds anything adds at least one. */
  lemma {:induction false} HalfOfQuotient(n: nat, d: nat)
    requires 0 < d && 0 < Quotient(n, d)
    ensures 2 * d * Quotient(n, d) >= n
  {
    QuotientBounds(n, d);
    MulMonotone(1, Quotient(n, d), d);
  }

  lemma AddBounds(w: int, t: int, t': int, t'': int, m: int, s: int, s': int, s'': int)
    requires w * (t' - t) >= m * (s' - s) && w * (t'' - t') >= m * (s'' - s')
    ensures w * (t'' - t) >= m * (s'' - s)
  {
  }

  /**
   Polling costs at most half: over any partial, uncapped refills the bucket gains at least half of the
   proportional share of the time `lastRefillMs` moved, however often it is polled.
   */
  lemma {:induction false} PollingCostsAtMostHalf(cfg: Config, b: Bucket, times: seq<u64>)
    requires WrapsToNothing(cfg) && 0 < cfg.windowMs && OnlyPartialUncapped(cfg, b, times)
    ensures AtLeastHalf(cfg, b, RefillAll(cfg, b, times))
    decreases |times|
  {
    if times != [] {
      var mid, r := Refill(cfg, b, times[0]), RefillAll(cfg, b, times);
      HalfStep(cfg, b, times[0]);
      PollingCostsAtMostHalf(cfg, mid, times[1..]);
      AddBounds(2 * cfg.windowMs, b.tokens, mid.tokens, r.tokens,
                cfg.maxRequests, b.lastRefillMs, mid.lastRefillMs, r.lastRefillMs);
    }
  }

  /** A product that wraps to a token or more breaks the bound on an empty bucket. */
  lemma HalfBreaks(cfg: Config, e: nat)
    requires e < cfg.windowMs && Times(cfg.maxRequests, e) >= U64_SIZE
    requires Wrap64(Times(cfg.maxRequests, e)) >= cfg.windowMs
    ensures PartialUncapped(cfg, With(0), e) && !AtLeastHalf(cfg, With(0), Refill(cfg, With(0), e))
  {
    var wrapped := Wrap64(Times(cfg.maxRequests, e));
    ShareIs(cfg, e);
    AtMostQuotient(wrapped, cfg.windowMs, 1);
    RefillPartial(cfg, With(0), e);
    assert TopUp(cfg, 0, TokensToAdd(cfg, e)) == TokensToAdd(cfg, e);
    LessThanHalf(Times(cfg.maxRequests, e), cfg.windowMs);
  }

  /** What a wrapped product buys is worth less than half of the product. */
  lemma LessThanHalf(product: nat, w: nat)
    requires 0 < w && product >= U64_SIZE
    ensures 2 * w * Quotient(Wrap64(product), w) < product
  {
    QuotientBounds(Wrap64(product), w);
    WrapAtMost(product);
  }

  /** The exact condition, over all buckets and all sequences of partial, uncapped refills. */
  lemma PollingCostsAtMostHalfIff(cfg: Config)
    requires 0 < cfg.windowMs
    ensures WrapsToNothing(cfg) <==>
            forall b: Bucket, times: seq<u64> | OnlyPartialUncapped(cfg, b, times) ::
              AtLeastHalf(cfg, b, RefillAll(cfg, b, times))
  {
    if WrapsToNothing(cfg) {
      forall b: Bucket, times: seq<u64> | OnlyPartialUncapped(cfg, b, times)
        ensures AtLeastHalf(cfg, b, RefillAll(cfg, b, times))
      {
        PollingCostsAtMostHalf(cfg, b, times);
      }
    } else {
      var e: nat :| e < cfg.windowMs && Times(cfg.maxRequests, e) >= U64_SIZE && Wrap64(Times(cfg.maxRequests, e)) >= cfg.windowMs;
      HalfBreaks(cfg, e);
      OnePoll(cfg, With(0), e);
    }
  }

  lemma OnePoll(cfg: Config, b: Bucket, now: u64)
    requires 0 < cfg.windowMs && PartialUncapped(cfg, b, now)
    ensures OnlyPartialUncapped(cfg, b, [now]) && RefillAll(cfg, b, [now]) == Refill(cfg, b, now)
  {
    assert [now][1..] == [];
  }

  /**
   The condition in closed form: the largest product exceeds its width by less than one token's worth.
   That is always enough, and unless the window is within the maximum of 2^64 it is also necessary.
   */
  lemma WrapsToNothingClosed(cfg: Config)
    requires 0 < cfg.windowMs
    ensures Times(cfg.maxRequests, cfg.windowMs - 1) < U64_SIZE + cfg.windowMs ==> WrapsToNothing(cfg)
    ensures cfg.windowMs + cfg.maxRequests <= U64_SIZE && WrapsToNothing(cfg) ==>
              Times(cfg.maxRequests, cfg.windowMs - 1) < U64_SIZE + cfg.windowMs
  {
    var m, w := cfg.maxRequests, cfg.windowMs;
    if Times(m, w - 1) < U64_SIZE + w {
      forall e: nat | e < w && Times(m, e) >= U64_SIZE
        ensures Wrap64(Times(m, e)) < w
      {
        MulMonotone(e, w - 1, m);
        WrapUnique(Times(m, e), 1, Times(m, e) - U64_SIZE);
      }
    } else if w + m <= U64_SIZE {
      var e := FirstWholeToken(cfg);
      WrapUnique(Times(m, e), 1, Times(m, e) - U64_SIZE);
    }
  }

  /** The first elapsed time whose product exceeds its width by a whole token's worth. */
  lemma FirstWholeToken(cfg: Config) returns (e: nat)
    requires 0 < cfg.windowMs && Times(cfg.maxRequests, cfg.windowMs - 1) >= U64_SIZE + cfg.windowMs
    ensures e < cfg.windowMs
    ensures U64_SIZE + cfg.windowMs <= Times(cfg.maxRequests, e) < U64_SIZE + cfg.windowMs + cfg.maxRequests
  {
    var m, w := cfg.maxRequests, cfg.windowMs;
    var n := U64_SIZE + w - 1;
    QuotientBounds(n, m);
    e := Quotient(n, m) + 1;
    if e > w - 1 {
      MulMonotone(w - 1, e - 1, m);
    }
    assert Times(m, e) == m * (e - 1) + m;
  }

  /** For instance, the whole `u32` range over some hundred days. */
  lemma PollingCostsMoreWhenWrapping() returns (cfg: Config, b: Bucket, now: u64)
    ensures 0 < cfg.windowMs && PartialUncapped(cfg, b, now) && !AtLeastHalf(cfg, b, Refill(cfg, b, now))
  {
    cfg, b, now := Config(0xFFFF_FFFF, 0x2_0000_0000), With(0), 0x1_0000_0008;
    HalfBreaks(cfg, now);
  }
}
