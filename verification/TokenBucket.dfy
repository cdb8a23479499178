/**
 The token bucket of src/cache/rate_limiting.rs.

 Arithmetic follows the release build: `u32` and `u64` operations wrap.  `Fits` is the exact
 condition under which nothing ever wraps.
 */
module TokenBucket {
  import opened Machine

  datatype Config = Config(maxRequests: u32, windowMs: u64)

  datatype Bucket = Bucket(tokens: u32, lastRefillMs: u64, acquired: u64, rejected: u64, refills: u64)

  function NewBucket(cfg: Config, now: u64): Bucket {
    Bucket(cfg.maxRequests, now, 0, 0, 0)
  }

  /** `max * elapsed / window` with the multiplication in `u64` and the quotient cast to `u32`. */
  function TokensToAdd(cfg: Config, elapsed: u64): u32
    requires 0 < cfg.windowMs
  {
    Share(Times(cfg.maxRequests, elapsed), cfg.windowMs)
  }

  /** A product wrapped to `u64`, divided, and the quotient cast to `u32`. */
  function Share(product: nat, window: nat): u32
    requires 0 < window
  {
    Wrap32(Quotient(Wrap64(product), window))
  }

  function TopUp(cfg: Config, tokens: u32, add: u32): u32 {
    Min(Wrap32(tokens + add), cfg.maxRequests)
  }

  function Refill(cfg: Config, b: Bucket, now: u64): Bucket {
    var elapsed := SaturatingSub(now, b.lastRefillMs);
    if cfg.windowMs == 0 then
      b
    else if elapsed >= cfg.windowMs then
      b.(tokens := cfg.maxRequests, lastRefillMs := now, refills := Wrap64(b.refills + 1))
    else
      var add := TokensToAdd(cfg, elapsed);
      if add == 0 then b
      else b.(tokens := TopUp(cfg, b.tokens, add), lastRefillMs := now, refills := Wrap64(b.refills + 1))
  }

  /** The acquire step after the refill: all of `count` or nothing. */
  function Take(b: Bucket, count: u32): (Bucket, bool) {
    if b.tokens < count then (b.(rejected := Wrap64(b.rejected + 1)), false)
    else (b.(tokens := b.tokens - count, acquired := Wrap64(b.acquired + 1)), true)
  }

  function Acquire(cfg: Config, b: Bucket, count: u32, now: u64): (Bucket, bool) {
    Take(Refill(cfg, b, now), count)
  }

  function Reset(cfg: Config, b: Bucket, now: u64): Bucket {
    b.(tokens := cfg.maxRequests, lastRefillMs := now)
  }

  // ---------------------------------------------------------------------------------------------
  // Exact arithmetic
  // ---------------------------------------------------------------------------------------------

  /** The largest partial top-up is asked for one millisecond before the window ends. */
  ghost predicate Fits(cfg: Config) {
    0 < cfg.windowMs ==>
      && Times(cfg.maxRequests, cfg.windowMs - 1) < U64_SIZE
      && cfg.maxRequests + Quotient(Times(cfg.maxRequests, cfg.windowMs - 1), cfg.windowMs) < U32_SIZE
  }

  /** The refill over unbounded integers: what the source's comments describe. */
  ghost function IdealTokens(cfg: Config, b: Bucket, now: u64): nat {
    var elapsed := SaturatingSub(now, b.lastRefillMs);
    if cfg.windowMs == 0 then b.tokens
    else if elapsed >= cfg.windowMs then cfg.maxRequests
    else Min(b.tokens + Quotient(Times(cfg.maxRequests, elapsed), cfg.windowMs), cfg.maxRequests)
  }

  lemma {:induction false} QuotientBelow(n: nat, d: nat, k: nat)
    requires 0 < d && n <= k * d
    ensures Quotient(n, d) <= k
  {
    QuotientBounds(n, d);
    var q := Quotient(n, d);
    if q > k {
      MulMonotone(k + 1, q, d);
    }
  }

  /** `m * e / w` for `e < w`: at most `m`, and largest at `e == w - 1`. */
  lemma ShareBounds(m: nat, e: nat, w: nat)
    requires e < w
    ensures Times(m, e) <= Times(m, w - 1)
    ensures Quotient(Times(m, e), w) <= Quotient(Times(m, w - 1), w) <= m
  {
    MulMonotone(e, w - 1, m);
    QuotientMonotone(Times(m, e), Times(m, w - 1), w);
    QuotientBelow(Times(m, w - 1), w, m);
  }

  lemma ShareExact(product: nat, w: nat)
    requires 0 < w && product < U64_SIZE && Quotient(product, w) < U32_SIZE
    ensures Share(product, w) == Quotient(product, w)
  {
    assert Wrap64(product) == product;
  }

  /** Wrapped or not, a share is worth no more than the product it divides. */
  lemma SharePaid(product: nat, w: nat)
    requires 0 < w
    ensures w * Share(product, w) <= product
  {
    var q := Quotient(Wrap64(product), w);
    QuotientBounds(Wrap64(product), w);
    MulMonotone(Wrap32(q), q, w);
  }

  /** With `Fits`, a partial top-up is the mathematical one. */
  lemma FitsExact(cfg: Config, elapsed: u64, tokens: u32)
    requires Fits(cfg) && elapsed < cfg.windowMs && tokens <= cfg.maxRequests
    ensures var share := Quotient(Times(cfg.maxRequests, elapsed), cfg.windowMs);
            && TokensToAdd(cfg, elapsed) == share
            && TopUp(cfg, tokens, share) == Min(tokens + share, cfg.maxRequests)
  {
    ShareBounds(cfg.maxRequests, elapsed, cfg.windowMs);
    ShareExact(Times(cfg.maxRequests, elapsed), cfg.windowMs);
  }

  /** Refill is exact on every state the limiter can be in, if and only if the configuration fits. */
  lemma RefillExactIffFits(cfg: Config)
    ensures Fits(cfg) <==>
            forall b: Bucket, now: u64 | b.tokens <= cfg.maxRequests ::
              Refill(cfg, b, now).tokens == IdealTokens(cfg, b, now)
  {
    if Fits(cfg) {
      forall b: Bucket, now: u64 | b.tokens <= cfg.maxRequests
        ensures Refill(cfg, b, now).tokens == IdealTokens(cfg, b, now)
      {
        var elapsed := SaturatingSub(now, b.lastRefillMs);
        if elapsed < cfg.windowMs {
          FitsExact(cfg, elapsed, b.tokens);
        }
      }
    } else {
      var b := WrappingWitness(cfg);
      assert b.tokens <= cfg.maxRequests
          && Refill(cfg, b, cfg.windowMs - 1).tokens != IdealTokens(cfg, b, cfg.windowMs - 1);
    }
  }

  /** A state on which a configuration that does not fit refills wrongly. */
  lemma WrappingWitness(cfg: Config) returns (b: Bucket)
    requires !Fits(cfg)
    ensures b.tokens <= cfg.maxRequests
    ensures Refill(cfg, b, cfg.windowMs - 1).tokens != IdealTokens(cfg, b, cfg.windowMs - 1)
  {
    var w := cfg.windowMs;
    var product := Times(cfg.maxRequests, w - 1);
    var q := Quotient(product, w);
    ShareBounds(cfg.maxRequests, w - 1, w);
    if product >= U64_SIZE {
      b := Bucket(0, 0, 0, 0, 0);
      assert Share(product, w) <= Quotient(Wrap64(product), w);
      WrappedQuotientSmaller(product, w);
    } else {
      b := Bucket(cfg.maxRequests, 0, 0, 0, 0);
      ShareExact(product, w);
      WrappedSum(cfg.maxRequests, q);
    }
  }

  lemma WrappedSum(a: u32, b: u32)
    requires a + b >= U32_SIZE
    ensures Wrap32(a + b) == a + b - U32_SIZE < a
  {
  }

  lemma WrappedQuotientSmaller(n: nat, d: nat)
    requires U64_SIZE <= n && 0 < d < U64_SIZE
    ensures Quotient(Wrap64(n), d) < Quotient(n, d)
  {
    var w := Wrap64(n);
    QuotientBounds(w, d);
    AtMostQuotient(n, d, Quotient(w, d) + 1);
  }

  /** Wrapped or not, a partial top-up is worth no more than the elapsed time. */
  lemma TopUpPaid(cfg: Config, elapsed: u64)
    requires 0 < cfg.windowMs
    ensures cfg.windowMs * TokensToAdd(cfg, elapsed) <= cfg.maxRequests * elapsed
  {
    SharePaid(Times(cfg.maxRequests, elapsed), cfg.windowMs);
  }

  // ---------------------------------------------------------------------------------------------
  // Runs of non-overlapping calls
  // ---------------------------------------------------------------------------------------------

  /** One call and the clock reading its refill makes. */
  datatype Call = AcquireN(count: u32, now: u64) | Poll(now: u64)

  /** The bucket together with how many tokens have been handed out. */
  datatype Ledger = Ledger(bucket: Bucket, granted: nat)

  function Serve(cfg: Config, l: Ledger, c: Call): Ledger {
    match c
    case Poll(now) => l.(bucket := Refill(cfg, l.bucket, now))
    case AcquireN(count, now) =>
      var (b, ok) := Acquire(cfg, l.bucket, count, now);
      Ledger(b, if ok then l.granted + count else l.granted)
  }

  function ServeAll(cfg: Config, l: Ledger, calls: seq<Call>): Ledger {
    if calls == [] then l
    else Serve(cfg, ServeAll(cfg, l, calls[..|calls| - 1]), calls[|calls| - 1])
  }

  /** What one refill adds is paid for by the time it moves `lastRefillMs` forward, wrapping or not. */
  lemma RefillPaid(cfg: Config, b: Bucket, now: u64)
    requires 0 < cfg.windowMs && b.tokens <= cfg.maxRequests
    ensures var r := Refill(cfg, b, now);
            && r.tokens <= cfg.maxRequests
            && b.lastRefillMs <= r.lastRefillMs
            && cfg.windowMs * (r.tokens - b.tokens) <= cfg.maxRequests * (r.lastRefillMs - b.lastRefillMs)
  {
    var r := Refill(cfg, b, now);
    var elapsed := SaturatingSub(now, b.lastRefillMs);
    if r.lastRefillMs == b.lastRefillMs {
      NoTimeNoTokens(cfg);
      assert r == b;
    } else {
      NoTimeNoTokens(cfg);
      assert r.lastRefillMs - b.lastRefillMs == elapsed;
      if elapsed >= cfg.windowMs {
        FullPaid(cfg, b.tokens, elapsed);
      } else {
        PartialPaid(cfg, b.tokens, elapsed);
      }
    }
  }

  lemma FullPaid(cfg: Config, tokens: u32, elapsed: nat)
    requires cfg.windowMs <= elapsed
    ensures cfg.windowMs * (cfg.maxRequests - tokens) <= cfg.maxRequests * elapsed
  {
    MulMonotone(cfg.maxRequests - tokens, cfg.maxRequests, cfg.windowMs);
    MulMonotone(cfg.windowMs, elapsed, cfg.maxRequests);
  }

  lemma PartialPaid(cfg: Config, tokens: u32, elapsed: u64)
    requires 0 < cfg.windowMs
    ensures cfg.windowMs * (TopUp(cfg, tokens, TokensToAdd(cfg, elapsed)) - tokens) <= cfg.maxRequests * elapsed
  {
    TopUpPaid(cfg, elapsed);
    MulMonotone(TopUp(cfg, tokens, TokensToAdd(cfg, elapsed)) - tokens, TokensToAdd(cfg, elapsed), cfg.windowMs);
  }

  lemma NoTimeNoTokens(cfg: Config)
    requires 0 < cfg.windowMs
    ensures TokensToAdd(cfg, 0) == 0
  {
    assert cfg.maxRequests * 0 == 0;
  }

  /** What a ledger gains from `l` to `l'`, handed out or left, is paid for by the time `lastRefillMs` moves. */
  ghost predicate Paid(cfg: Config, l: Ledger, l': Ledger) {
    && l'.bucket.tokens <= cfg.maxRequests && l.bucket.lastRefillMs <= l'.bucket.lastRefillMs
    && cfg.windowMs * ((l'.granted + l'.bucket.tokens) - (l.granted + l.bucket.tokens))
       <= cfg.maxRequests * (l'.bucket.lastRefillMs - l.bucket.lastRefillMs)
  }

  lemma ServePaid(cfg: Config, l: Ledger, c: Call)
    requires 0 < cfg.windowMs && l.bucket.tokens <= cfg.maxRequests
    ensures Paid(cfg, l, Serve(cfg, l, c))
  {
    var r := Refill(cfg, l.bucket, c.now);
    RefillPaid(cfg, l.bucket, c.now);
    var l' := Serve(cfg, l, c);
    assert l'.granted + l'.bucket.tokens == l.granted + r.tokens && l'.bucket.lastRefillMs == r.lastRefillMs;
  }

  lemma Telescope(w: int, m: int, g: int, g': int, g'': int, t: int, t': int, t'': int)
    requires w * (g' - g) <= m * (t' - t) && w * (g'' - g') <= m * (t'' - t')
    ensures w * (g'' - g) <= m * (t'' - t)
  {
  }

  lemma {:induction false} RunPaid(cfg: Config, l: Ledger, calls: seq<Call>)
    requires 0 < cfg.windowMs && l.bucket.tokens <= cfg.maxRequests
    ensures Paid(cfg, l, ServeAll(cfg, l, calls))
  {
    if calls != [] {
      var n := |calls| - 1;
      var mid, end := ServeAll(cfg, l, calls[..n]), ServeAll(cfg, l, calls);
      RunPaid(cfg, l, calls[..n]);
      ServePaid(cfg, mid, calls[n]);
      Telescope(cfg.windowMs, cfg.maxRequests,
                l.granted + l.bucket.tokens, mid.granted + mid.bucket.tokens, end.granted + end.bucket.tokens,
                l.bucket.lastRefillMs, mid.bucket.lastRefillMs, end.bucket.lastRefillMs);
    }
  }

  /**
   The rate bound: whatever the clock reads, and whether or not arithmetic wraps, a run of
   non-overlapping calls never hands out more than one full bucket plus the proportional share of
   the time that `lastRefillMs` has moved.
   */
  lemma RateBound(cfg: Config, t0: u64, calls: seq<Call>)
    requires 0 < cfg.windowMs
    ensures var l := ServeAll(cfg, Ledger(NewBucket(cfg, t0), 0), calls);
            && l.bucket.tokens <= cfg.maxRequests
            && t0 <= l.bucket.lastRefillMs
            && cfg.windowMs * (l.granted + l.bucket.tokens)
               <= cfg.maxRequests * (cfg.windowMs + l.bucket.lastRefillMs - t0)
  {
    var l := ServeAll(cfg, Ledger(NewBucket(cfg, t0), 0), calls);
    RunPaid(cfg, Ledger(NewBucket(cfg, t0), 0), calls);
    FromFull(cfg.windowMs, cfg.maxRequests, l.granted + l.bucket.tokens, l.bucket.lastRefillMs - t0);
  }

  lemma FromFull(w: int, m: int, held: int, moved: int)
    requires w * (held - m) <= m * moved
    ensures w * held <= m * (w + moved)
  {
  }

  // ---------------------------------------------------------------------------------------------
  // The bound by the clock
  // ---------------------------------------------------------------------------------------------

  /**
   A refill whose elapsed time is worth a token counts itself and is stamped with the clock reading, even if
   the bucket was full; any other leaves the bucket alone.  After it less than a window is open.
   */
  lemma RefillRecent(cfg: Config, b: Bucket, now: u64)
    ensures var r := Refill(cfg, b, now);
            var elapsed := SaturatingSub(now, b.lastRefillMs);
            && (if 0 < cfg.windowMs && (elapsed >= cfg.windowMs || TokensToAdd(cfg, elapsed) >= 1)
                then r.lastRefillMs == now && r.refills == Wrap64(b.refills + 1)
                else r == b)
            && (0 < cfg.windowMs && b.lastRefillMs <= now ==> r.lastRefillMs <= now < r.lastRefillMs + cfg.windowMs)
  {
  }

  function LastReading(calls: seq<Call>, start: u64): u64 {
    if calls == [] then start else calls[|calls| - 1].now
  }

  /** The clock never runs backward. */
  predicate Ordered(calls: seq<Call>, start: u64) {
    calls == [] ||
    var init := calls[..|calls| - 1];
    Ordered(init, start) && LastReading(init, start) <= calls[|calls| - 1].now
  }

  lemma {:induction false} RunRecent(cfg: Config, t0: u64, calls: seq<Call>)
    requires 0 < cfg.windowMs && Ordered(calls, t0)
    ensures var last := ServeAll(cfg, Ledger(NewBucket(cfg, t0), 0), calls).bucket.lastRefillMs;
            last <= LastReading(calls, t0) < last + cfg.windowMs
  {
    if calls != [] {
      var n := |calls| - 1;
      RunRecent(cfg, t0, calls[..n]);
      RefillRecent(cfg, ServeAll(cfg, Ledger(NewBucket(cfg, t0), 0), calls[..n]).bucket, calls[n].now);
    }
  }

  lemma {:induction false} ServeAllConcat(cfg: Config, l: Ledger, a: seq<Call>, b: seq<Call>)
    ensures ServeAll(cfg, l, a + b) == ServeAll(cfg, ServeAll(cfg, l, a), b)
  {
    if b == [] {
      assert a + b == a;
    } else {
      var n := |b| - 1;
      ServeAllConcat(cfg, l, a, b[..n]);
      assert (a + b)[..|a + b| - 1] == a + b[..n];
    }
  }

  lemma {:induction false} OrderedPrefix(a: seq<Call>, b: seq<Call>, start: u64)
    requires Ordered(a + b, start)
    ensures Ordered(a, start) && LastReading(a, start) <= LastReading(a + b, start)
  {
    if b == [] {
      assert a + b == a;
    } else {
      var n := |b| - 1;
      assert (a + b)[..|a + b| - 1] == a + b[..n];
      OrderedPrefix(a, b[..n], start);
    }
  }

  /**
   The same by clock readings alone, for any stretch of a run: what is granted after the reading `t` up to
   the reading `T` is at most two full buckets and the proportional share of `T - t`.
   */
  lemma StretchBound(cfg: Config, t0: u64, before: seq<Call>, after: seq<Call>)
    requires 0 < cfg.windowMs && Ordered(before + after, t0)
    ensures var a, z := ServeAll(cfg, Ledger(NewBucket(cfg, t0), 0), before),
                        ServeAll(cfg, Ledger(NewBucket(cfg, t0), 0), before + after);
            cfg.windowMs * (z.granted - a.granted)
            <= cfg.maxRequests * (2 * cfg.windowMs + LastReading(before + after, t0) - LastReading(before, t0))
  {
    var l := Ledger(NewBucket(cfg, t0), 0);
    StretchMoved(cfg, t0, before, after);
    StretchPaid(cfg, ServeAll(cfg, l, before), ServeAll(cfg, l, before + after),
                LastReading(before + after, t0) - LastReading(before, t0));
  }

  lemma StretchMoved(cfg: Config, t0: u64, before: seq<Call>, after: seq<Call>)
    requires 0 < cfg.windowMs && Ordered(before + after, t0)
    ensures var a, z := ServeAll(cfg, Ledger(NewBucket(cfg, t0), 0), before),
                        ServeAll(cfg, Ledger(NewBucket(cfg, t0), 0), before + after);
            && Paid(cfg, a, z) && a.bucket.tokens <= cfg.maxRequests
            && z.bucket.lastRefillMs - a.bucket.lastRefillMs
               <= LastReading(before + after, t0) - LastReading(before, t0) + cfg.windowMs
  {
    var l := Ledger(NewBucket(cfg, t0), 0);
    OrderedPrefix(before, after, t0);
    RunRecent(cfg, t0, before);
    RunRecent(cfg, t0, before + after);
    RunPaid(cfg, l, before);
    ServeAllConcat(cfg, l, before, after);
    RunPaid(cfg, ServeAll(cfg, l, before), after);
  }

  lemma StretchPaid(cfg: Config, a: Ledger, z: Ledger, time: int)
    requires Paid(cfg, a, z) && a.bucket.tokens <= cfg.maxRequests
    requires z.bucket.lastRefillMs - a.bucket.lastRefillMs <= time + cfg.windowMs
    ensures cfg.windowMs * (z.granted - a.granted) <= cfg.maxRequests * (2 * cfg.windowMs + time)
  {
    StretchArithmetic(cfg.windowMs, cfg.maxRequests, z.granted - a.granted, a.bucket.tokens, z.bucket.tokens,
                      z.bucket.lastRefillMs - a.bucket.lastRefillMs, time);
  }

  lemma StretchArithmetic(w: nat, m: nat, granted: int, t: nat, t': nat, moved: int, time: int)
    requires w * (granted + t' - t) <= m * moved && t <= m && moved <= time + w
    ensures w * granted <= m * (2 * w + time)
  {
    MulMonotone(moved, time + w, m);
    MulMonotone(t - t', m, w);
    assert w * granted == w * (granted + t' - t) + w * (t - t');
  }

  /** A new limiter admits exactly what its maximum allows, at once. */
  lemma FreshAdmits(cfg: Config, now: u64, count: u32)
    ensures Acquire(cfg, NewBucket(cfg, now), count, now).1 <==> count <= cfg.maxRequests
  {
    if 0 < cfg.windowMs {
      NoTimeNoTokens(cfg);
    }
  }

  /** A reset limiter is a new one to every later call; only the counts go on. */
  lemma {:induction false} ResetIsNew(cfg: Config, b: Bucket, now: u64, calls: seq<Call>)
    ensures var r, n := ServeAll(cfg, Ledger(Reset(cfg, b, now), 0), calls),
                        ServeAll(cfg, Ledger(NewBucket(cfg, now), 0), calls);
            && r.granted == n.granted
            && r.bucket.tokens == n.bucket.tokens && r.bucket.lastRefillMs == n.bucket.lastRefillMs
    ensures Reset(cfg, b, now).acquired == b.acquired && Reset(cfg, b, now).rejected == b.rejected
  {
    if calls != [] {
      ResetIsNew(cfg, b, now, calls[..|calls| - 1]);
    }
  }

  lemma RefillMovesForward(cfg: Config, b: Bucket, now: u64)
    ensures b.lastRefillMs <= Refill(cfg, b, now).lastRefillMs
  {
    if 0 < cfg.windowMs && now < b.lastRefillMs {
      NoTimeNoTokens(cfg);
    }
  }

  /** `lastRefillMs` never moves back, whatever the clock reads. */
  lemma {:induction false} LastRefillMonotone(cfg: Config, l: Ledger, calls: seq<Call>, k: nat)
    requires k <= |calls|
    ensures ServeAll(cfg, l, calls[..k]).bucket.lastRefillMs <= ServeAll(cfg, l, calls).bucket.lastRefillMs
  {
    if k == |calls| {
      assert calls[..k] == calls;
    } else {
      var init := calls[..|calls| - 1];
      assert calls[..k] == init[..k];
      LastRefillMonotone(cfg, l, init, k);
      RefillMovesForward(cfg, ServeAll(cfg, l, init).bucket, calls[|calls| - 1].now);
    }
  }

  /** With a zero window nothing is ever refilled, so what was granted and what is left add up to the maximum. */
  lemma {:induction false} ZeroWindowConserves(cfg: Config, t0: u64, calls: seq<Call>)
    requires cfg.windowMs == 0
    ensures var l := ServeAll(cfg, Ledger(NewBucket(cfg, t0), 0), calls);
            l.granted + l.bucket.tokens == cfg.maxRequests && l.bucket.lastRefillMs == t0
  {
    if calls != [] {
      ZeroWindowConserves(cfg, t0, calls[..|calls| - 1]);
    }
  }

  // ---------------------------------------------------------------------------------------------
  // The limiter object
  // ---------------------------------------------------------------------------------------------

  /** `RateLimiter`, with each clock reading an argument. */
  class RateLimiter {
    const cfg: Config
    var tokens: u32
    var lastRefillMs: u64
    var acquired: u64
    var rejected: u64
    var refills: u64

    ghost function State(): Bucket
      reads this
    {
      Bucket(tokens, lastRefillMs, acquired, rejected, refills)
    }

    constructor (cfg: Config, now: u64)
      ensures this.cfg == cfg && State() == NewBucket(cfg, now)
    {
      this.cfg := cfg;
      tokens, lastRefillMs := cfg.maxRequests, now;
      acquired, rejected, refills := 0, 0, 0;
    }

    method RefillTokens(now: u64)
      modifies this
      ensures State() == Refill(cfg, old(State()), now)
    {
      if cfg.windowMs == 0 {
        return;
      }
      var elapsed: u64 := if now >= lastRefillMs then now - lastRefillMs else 0;
      if elapsed >= cfg.windowMs {
        tokens := cfg.maxRequests;
        lastRefillMs := now;
        refills := Wrap64(refills + 1);
      } else {
        var add := TokensToAdd(cfg, elapsed);
        if add > 0 {
          var current := tokens;
          tokens := TopUp(cfg, current, add);
          lastRefillMs := now;
          refills := Wrap64(refills + 1);
        }
      }
    }

    method CompareExchange(expected: u32, desired: u32) returns (ok: bool)
      modifies this`tokens
      ensures ok <==> old(tokens) == expected
      ensures tokens == if ok then desired else old(tokens)
    {
      ok := tokens == expected;
      if ok {
        tokens := desired;
      }
    }

    /**
     The compare-and-swap loop.  `rivals` are the values other threads leave in `tokens` between
     this thread's load and its exchange, one per iteration until they run out; with none of them
     the call is the sequential one.
     */
    method TryAcquireN(count: u32, now: u64, rivals: seq<u32>) returns (ok: bool)
      requires forall v | v in rivals :: v <= cfg.maxRequests
      requires tokens <= cfg.maxRequests
      modifies this
      ensures tokens <= cfg.maxRequests
      ensures rivals == [] ==> (State(), ok) == Acquire(cfg, old(State()), count, now)
      ensures ok <==> acquired == Wrap64(old(acquired) + 1) && rejected == old(rejected)
      ensures !ok <==> acquired == old(acquired) && rejected == Wrap64(old(rejected) + 1)
      ensures var seen := {Refill(cfg, old(State()), now).tokens} + set v | v in rivals;
              if ok then tokens + count in seen else tokens in seen && tokens < count
    {
      RefillTokens(now);
      ghost var seen := {Refill(cfg, old(State()), now).tokens} + set v | v in rivals;
      var i := 0;
      while true
        invariant 0 <= i <= |rivals|
        invariant tokens in seen && tokens <= cfg.maxRequests
        invariant State() == Refill(cfg, old(State()), now).(tokens := tokens)
        invariant i == 0 ==> State() == Refill(cfg, old(State()), now)
        decreases |rivals| - i
      {
        var current := tokens;
        if current < count {
          rejected := Wrap64(rejected + 1);
          return false;
        }
        if i < |rivals| {
          tokens := rivals[i];
          i := i + 1;
        }
        var swapped := CompareExchange(current, current - count);
        if swapped {
          acquired := Wrap64(acquired + 1);
          return true;
        }
      }
    }

    method AvailableTokens(now: u64) returns (n: u32)
      modifies this
      ensures State() == Refill(cfg, old(State()), now) && n == State().tokens
    {
      RefillTokens(now);
      n := tokens;
    }

    /** Two clock readings: one inside the poll, one for the wait that is reported. */
    method TimeUntilAvailable(now: u64, later: u64) returns (waitMs: u64)
      modifies this
      ensures State() == Refill(cfg, old(State()), now)
      ensures waitMs == WaitMs(cfg, State(), later)
    {
      var n := AvailableTokens(now);
      if n > 0 {
        return 0;
      }
      var elapsed := SaturatingSub(later, lastRefillMs);
      waitMs := SaturatingSub(cfg.windowMs, elapsed);
    }

    method Clear(now: u64)
      modifies this
      ensures State() == Reset(cfg, old(State()), now)
    {
      tokens := cfg.maxRequests;
      lastRefillMs := now;
    }
  }

  function WaitMs(cfg: Config, b: Bucket, now: u64): u64 {
    if b.tokens > 0 then 0 else SaturatingSub(cfg.windowMs, SaturatingSub(now, b.lastRefillMs))
  }

  /**
   The wait is zero while tokens remain, and never longer than the window.  For an empty bucket, by a clock
   not behind `lastRefillMs`, it ends exactly when the window since then does.
   */
  lemma WaitEndsWithWindow(cfg: Config, b: Bucket, now: u64, later: nat)
    ensures WaitMs(cfg, b, now) <= cfg.windowMs && (b.tokens > 0 ==> WaitMs(cfg, b, now) == 0)
    ensures b.tokens == 0 && b.lastRefillMs <= now <= later ==>
              (now + WaitMs(cfg, b, now) <= later <==> later - b.lastRefillMs >= cfg.windowMs)
  {
  }

  /** From the end of the wait reported at `now` on, a refill always leaves at least one token. */
  ghost predicate TokenAfterWait(cfg: Config, b: Bucket, now: u64) {
    forall later: u64 | now + WaitMs(cfg, b, now) <= later :: Refill(cfg, b, later).tokens >= 1
  }

  /** The time since the last refill when a whole window has passed since `now`. */
  function SinceRefill(cfg: Config, b: Bucket, now: u64): nat {
    if now + cfg.windowMs >= b.lastRefillMs then now + cfg.windowMs - b.lastRefillMs else 0
  }

  /**
   The wait reported for an empty bucket is the time until a token is available if and only if the clock
   runs out before it ends; or there are a window and a maximum at all, and the clock was not read behind
   `lastRefillMs` or the window passed since the reading is worth a token, and so is any time after it.
   */
  lemma WaitIsEnoughIff(cfg: Config, b: Bucket, now: u64)
    requires b.tokens == 0
    ensures TokenAfterWait(cfg, b, now) <==>
            || now + WaitMs(cfg, b, now) >= U64_SIZE
            || (0 < cfg.windowMs && 0 < cfg.maxRequests &&
                (b.lastRefillMs <= now ||
                 forall e: nat | SinceRefill(cfg, b, now) <= e < cfg.windowMs && b.lastRefillMs + e < U64_SIZE ::
                   TokensToAdd(cfg, e) >= 1))
  {
    var end := now + WaitMs(cfg, b, now);
    if end < U64_SIZE {
      if cfg.windowMs == 0 || cfg.maxRequests == 0 {
        assert Refill(cfg, b, end).tokens == 0;
      } else if now < b.lastRefillMs {
        WaitBehind(cfg, b, now);
      }
    }
  }

  /** When the clock was read behind the last refill, a refill after the wait may still be partial. */
  lemma WaitBehind(cfg: Config, b: Bucket, now: u64)
    requires b.tokens == 0 && 0 < cfg.windowMs && 0 < cfg.maxRequests
    requires now < b.lastRefillMs && now + cfg.windowMs < U64_SIZE
    ensures TokenAfterWait(cfg, b, now) <==>
            forall e: nat | SinceRefill(cfg, b, now) <= e < cfg.windowMs && b.lastRefillMs + e < U64_SIZE ::
              TokensToAdd(cfg, e) >= 1
  {
    NoTimeNoTokens(cfg);
    if TokenAfterWait(cfg, b, now) {
      forall e: nat | SinceRefill(cfg, b, now) <= e < cfg.windowMs && b.lastRefillMs + e < U64_SIZE
        ensures TokensToAdd(cfg, e) >= 1
      {
        assert Refill(cfg, b, b.lastRefillMs + e).tokens >= 1;
      }
    } else {
      var later: u64 :| now + WaitMs(cfg, b, now) <= later && Refill(cfg, b, later).tokens == 0;
      var e := SaturatingSub(later, b.lastRefillMs);
      assert SinceRefill(cfg, b, now) <= e < cfg.windowMs && b.lastRefillMs + e < U64_SIZE && TokensToAdd(cfg, e) == 0;
    }
  }

  /** Where no product wraps, that comes down to the window since the reading being worth a token. */
  lemma WaitIsEnoughClosed(cfg: Config, b: Bucket, now: u64)
    requires b.tokens == 0 && 0 < cfg.windowMs && 0 < cfg.maxRequests
    requires now < b.lastRefillMs && now + cfg.windowMs < U64_SIZE
    requires Times(cfg.maxRequests, cfg.windowMs - 1) < U64_SIZE
    ensures TokenAfterWait(cfg, b, now) <==> Times(cfg.maxRequests, SinceRefill(cfg, b, now)) >= cfg.windowMs
  {
    var from := SinceRefill(cfg, b, now);
    WaitBehind(cfg, b, now);
    forall e: nat | from <= e < cfg.windowMs
      ensures TokensToAdd(cfg, e) >= 1 <==> Times(cfg.maxRequests, e) >= cfg.windowMs
      ensures Times(cfg.maxRequests, from) <= Times(cfg.maxRequests, e)
    {
      MulMonotone(from, e, cfg.maxRequests);
      ShareBounds(cfg.maxRequests, e, cfg.windowMs);
      ShareExact(Times(cfg.maxRequests, e), cfg.windowMs);
    }
    assert from < cfg.windowMs && b.lastRefillMs + from < U64_SIZE;
  }

  /** One request a second, and a clock read half a second behind the last refill: after the wait there is still no token. */
  lemma WaitFallsShort() returns (cfg: Config, b: Bucket, now: u64)
    ensures b.tokens == 0 && !TokenAfterWait(cfg, b, now)
  {
    cfg, b, now := Config(1, 1000), Bucket(0, 1000, 0, 0, 0), 500;
    assert TokensToAdd(cfg, 500) == 0;
    assert Refill(cfg, b, 1500).tokens == 0;
  }
}
