/**
 The per-identity limiter of src/auth/rate_limiting.rs: one bucket per identity, created on first use,
 and one shared set of counters.
 */
module AuthRateLimiter {
  import opened Machine
  import B = TokenBucket
  import M = AuthMetrics

  const MIN_IDENTITY_KEY_LEN := 1
  const MAX_IDENTITY_KEY_LEN := 256

  predicate AllowedChar(c: char) {
    || 'a' <= c <= 'z' || 'A' <= c <= 'Z' || '0' <= c <= '9'
    || c == '-' || c == '_' || c == '.' || c == ':'
  }

  predicate ValidIdentity(key: string) {
    && MIN_IDENTITY_KEY_LEN <= |key| <= MAX_IDENTITY_KEY_LEN
    && forall i | 0 <= i < |key| :: AllowedChar(key[i])
  }

  /** The clock readings one check can make: bucket creation, refill, and after a rejection poll and wait. */
  datatype Clock = Clock(create: u64, refill: u64, poll: u64, wait: u64)

  datatype Verdict = Invalid | Admitted | RateLimited(retryAfterSecs: nat)

  datatype Store = Store(buckets: map<string, B.Bucket>, metrics: M.Counters)

  const EMPTY: Store := Store(map[], M.ZERO)

  /** A check against one bucket; a rejected call polls the bucket once more to report the wait. */
  function CheckBucket(cfg: B.Config, b: B.Bucket, clock: Clock): (B.Bucket, Verdict) {
    var (taken, ok) := B.Acquire(cfg, b, 1, clock.refill);
    if ok then (taken, Admitted)
    else
      var polled := B.Refill(cfg, taken, clock.poll);
      (polled, RateLimited(B.WaitMs(cfg, polled, clock.wait) / 1000))
  }

  function BucketOf(cfg: B.Config, s: Store, id: string, now: u64): B.Bucket {
    if id in s.buckets then s.buckets[id] else B.NewBucket(cfg, now)
  }

  function Check(cfg: B.Config, s: Store, id: string, clock: Clock): (Store, Verdict) {
    if !ValidIdentity(id) then (s, Invalid)
    else
      var (b, v) := CheckBucket(cfg, BucketOf(cfg, s, id, clock.create), clock);
      var outcome := if v.Admitted? then M.Success else M.Failure;
      (Store(s.buckets[id := b], M.RecordOutcome(M.RecordAttempt(s.metrics), outcome)), v)
  }

  /** `remaining_auth_tokens`: refills an existing bucket and creates none. */
  function Remaining(cfg: B.Config, s: Store, id: string, now: u64): (Store, Option<u32>) {
    if !ValidIdentity(id) || id !in s.buckets then (s, None)
    else
      var b := B.Refill(cfg, s.buckets[id], now);
      (s.(buckets := s.buckets[id := b]), Some(b.tokens))
  }

  // ---------------------------------------------------------------------------------------------
  // Per-identity refinement
  // ---------------------------------------------------------------------------------------------

  datatype Op = CheckOp(id: string, clock: Clock) | RemainingOp(id: string, now: u64)

  datatype Answer = Checked(verdict: Verdict) | Left(tokens: Option<u32>)

  function Serve(cfg: B.Config, s: Store, op: Op): (Store, Answer) {
    match op
    case CheckOp(id, clock) => var (s', v) := Check(cfg, s, id, clock); (s', Checked(v))
    case RemainingOp(id, now) => var (s', n) := Remaining(cfg, s, id, now); (s', Left(n))
  }

  function ServeAll(cfg: B.Config, s: Store, ops: seq<Op>): (Store, seq<Answer>) {
    if ops == [] then (s, [])
    else
      var (s', answers) := ServeAll(cfg, s, ops[..|ops| - 1]);
      var (s'', a) := Serve(cfg, s', ops[|ops| - 1]);
      (s'', answers + [a])
  }

  /** A lone limiter that exists from its first check on. */
  function LoneServe(cfg: B.Config, lone: Option<B.Bucket>, op: Op): (Option<B.Bucket>, Answer) {
    match op
    case CheckOp(_, clock) =>
      var b := if lone.Some? then lone.value else B.NewBucket(cfg, clock.create);
      var (b', v) := CheckBucket(cfg, b, clock);
      (Some(b'), Checked(v))
    case RemainingOp(_, now) =>
      if lone.None? then (None, Left(None))
      else var b := B.Refill(cfg, lone.value, now); (Some(b), Left(Some(b.tokens)))
  }

  function LoneServeAll(cfg: B.Config, lone: Option<B.Bucket>, ops: seq<Op>): (Option<B.Bucket>, seq<Answer>) {
    if ops == [] then (lone, [])
    else
      var (b, answers) := LoneServeAll(cfg, lone, ops[..|ops| - 1]);
      var (b', a) := LoneServe(cfg, b, ops[|ops| - 1]);
      (b', answers + [a])
  }

  function OpsOf(ops: seq<Op>, id: string): seq<Op> {
    if ops == [] then []
    else
      var rest := OpsOf(ops[..|ops| - 1], id);
      if ops[|ops| - 1].id == id then rest + [ops[|ops| - 1]] else rest
  }

  function AnswersOf(ops: seq<Op>, answers: seq<Answer>, id: string): seq<Answer>
    requires |ops| == |answers|
  {
    if ops == [] then []
    else
      var n := |ops| - 1;
      var rest := AnswersOf(ops[..n], answers[..n], id);
      if ops[n].id == id then rest + [answers[n]] else rest
  }

  ghost function Project(s: Store, id: string): Option<B.Bucket> {
    if id in s.buckets then Some(s.buckets[id]) else None
  }

  lemma {:induction false} AnswerCount(cfg: B.Config, s: Store, ops: seq<Op>)
    ensures |ServeAll(cfg, s, ops).1| == |ops|
  {
    if ops != [] {
      AnswerCount(cfg, s, ops[..|ops| - 1]);
    }
  }

  /**
   Identities do not interfere: in every sequential run over any identities, what one valid identity is
   told, and its bucket, are those of a lone limiter created at its first check and fed only its calls.
   */
  lemma {:induction false} IdentityIsolation(cfg: B.Config, ops: seq<Op>, id: string)
    requires ValidIdentity(id)
    ensures |ServeAll(cfg, EMPTY, ops).1| == |ops|
    ensures AnswersOf(ops, ServeAll(cfg, EMPTY, ops).1, id) == LoneServeAll(cfg, None, OpsOf(ops, id)).1
    ensures Project(ServeAll(cfg, EMPTY, ops).0, id) == LoneServeAll(cfg, None, OpsOf(ops, id)).0
  {
    AnswerCount(cfg, EMPTY, ops);
    if ops != [] {
      var n := |ops| - 1;
      IdentityIsolation(cfg, ops[..n], id);
      var (s, answers) := ServeAll(cfg, EMPTY, ops[..n]);
      var (_, a) := Serve(cfg, s, ops[n]);
      assert ServeAll(cfg, EMPTY, ops).1[..n] == answers && ServeAll(cfg, EMPTY, ops).1[n] == a;
      if ops[n].id == id {
        var mine := OpsOf(ops[..n], id);
        assert OpsOf(ops, id)[..|mine|] == mine;
      }
    }
  }

  // ---------------------------------------------------------------------------------------------
  // The lone limiter is a token bucket
  // ---------------------------------------------------------------------------------------------

  /** A check is admitted exactly when the refilled bucket holds a token, and then costs it one. */
  lemma CheckCostsOne(cfg: B.Config, b: B.Bucket, clock: Clock)
    ensures var (b', v) := CheckBucket(cfg, b, clock);
            var refilled := B.Refill(cfg, b, clock.refill);
            && (v.Admitted? <==> refilled.tokens >= 1)
            && (v.Admitted? ==> b'.tokens == refilled.tokens - 1 && b'.lastRefillMs == refilled.lastRefillMs)
            && (!v.Admitted? ==> v.RateLimited? && v.retryAfterSecs * 1000 <= B.WaitMs(cfg, b', clock.wait) < v.retryAfterSecs * 1000 + 1000)
  {
  }

  /** The life of one identity's limiter: not created yet, or created at a time and called since. */
  datatype Life = Unused | Since(created: u64, calls: seq<B.Call>)

  function Account(cfg: B.Config, life: Life): B.Ledger
    requires life.Since?
  {
    B.ServeAll(cfg, B.Ledger(B.NewBucket(cfg, life.created), 0), life.calls)
  }

  /** A check is an acquire of one token, with a poll after it if it is rejected. */
  function Extended(cfg: B.Config, life: Life, op: Op): Life {
    match op
    case CheckOp(_, clock) =>
      var since := if life.Unused? then Since(clock.create, []) else life;
      var ok := B.Acquire(cfg, Account(cfg, since).bucket, 1, clock.refill).1;
      var acquired := since.(calls := since.calls + [B.AcquireN(1, clock.refill)]);
      if ok then acquired else acquired.(calls := acquired.calls + [B.Poll(clock.poll)])
    case RemainingOp(_, now) =>
      if life.Unused? then life else life.(calls := life.calls + [B.Poll(now)])
  }

  function LifeOf(cfg: B.Config, ops: seq<Op>): Life {
    if ops == [] then Unused else Extended(cfg, LifeOf(cfg, ops[..|ops| - 1]), ops[|ops| - 1])
  }

  function Admissions(answers: seq<Answer>): nat {
    if answers == [] then 0
    else Admissions(answers[..|answers| - 1]) + Bit(answers[|answers| - 1] == Checked(Admitted))
  }

  lemma OneMoreCall(cfg: B.Config, created: u64, calls: seq<B.Call>, c: B.Call)
    ensures Account(cfg, Since(created, calls + [c])) == B.Serve(cfg, Account(cfg, Since(created, calls)), c)
  {
    assert (calls + [c])[..|calls|] == calls;
  }

  /** What one call to the lone limiter does is what its calls to the token bucket do. */
  lemma ExtendedIsServe(cfg: B.Config, life: Life, op: Op)
    ensures var lone := if life.Unused? then None else Some(Account(cfg, life).bucket);
            var (lone', a) := LoneServe(cfg, lone, op);
            var life' := Extended(cfg, life, op);
            && lone' == (if life'.Unused? then None else Some(Account(cfg, life').bucket))
            && (life'.Since? ==>
                  Account(cfg, life').granted
                  == (if life.Since? then Account(cfg, life).granted else 0) + Bit(a == Checked(Admitted)))
            && (life'.Unused? ==> a != Checked(Admitted))
            && (op.RemainingOp? ==> a == Left(LeftAt(cfg, life')))
  {
    match op
    case CheckOp(_, clock) =>
      var since := if life.Unused? then Since(clock.create, []) else life;
      OneMoreCall(cfg, since.created, since.calls, B.AcquireN(1, clock.refill));
      OneMoreCall(cfg, since.created, since.calls + [B.AcquireN(1, clock.refill)], B.Poll(clock.poll));
    case RemainingOp(_, now) =>
      if life.Since? {
        OneMoreCall(cfg, life.created, life.calls, B.Poll(now));
      }
  }

  lemma {:induction false} LoneIsBucket(cfg: B.Config, ops: seq<Op>)
    ensures var (lone, answers) := LoneServeAll(cfg, None, ops);
            var life := LifeOf(cfg, ops);
            && lone == (if life.Unused? then None else Some(Account(cfg, life).bucket))
            && Admissions(answers) == if life.Unused? then 0 else Account(cfg, life).granted
  {
    if ops != [] {
      var n := |ops| - 1;
      LoneIsBucket(cfg, ops[..n]);
      ExtendedIsServe(cfg, LifeOf(cfg, ops[..n]), ops[n]);
      var (lone, answers) := LoneServeAll(cfg, None, ops[..n]);
      var (_, a) := LoneServe(cfg, lone, ops[n]);
      assert (answers + [a])[..|answers|] == answers;
    }
  }

  /** Every question for remaining tokens is answered with what a poll leaves, or nothing before the first check. */
  predicate PollsAnswered(cfg: B.Config, ops: seq<Op>, answers: seq<Answer>) {
    |answers| == |ops| &&
    (ops == [] ||
     var n := |ops| - 1;
     && PollsAnswered(cfg, ops[..n], answers[..n])
     && (ops[n].RemainingOp? ==> answers[n] == Left(LeftAt(cfg, LifeOf(cfg, ops)))))
  }

  lemma {:induction false} LonePollsAnswered(cfg: B.Config, ops: seq<Op>)
    ensures PollsAnswered(cfg, ops, LoneServeAll(cfg, None, ops).1)
  {
    if ops != [] {
      var n := |ops| - 1;
      LonePollsAnswered(cfg, ops[..n]);
      LoneIsBucket(cfg, ops[..n]);
      ExtendedIsServe(cfg, LifeOf(cfg, ops[..n]), ops[n]);
      var (lone, answers) := LoneServeAll(cfg, None, ops[..n]);
      assert LoneServeAll(cfg, None, ops).1[..n] == answers;
    }
  }

  /** What a poll of the limiter reports. */
  function LeftAt(cfg: B.Config, life: Life): Option<u32> {
    if life.Unused? then None else Some(Account(cfg, life).bucket.tokens)
  }

  /**
   Per-identity refinement down to the token bucket: in every sequential run over any identities, what one
   identity has been admitted, what it is told remains, and its bucket, are those of a lone token bucket
   created at its first check and called with its checks, one token each, and its polls.
   */
  lemma IdentityIsBucket(cfg: B.Config, ops: seq<Op>, id: string)
    requires ValidIdentity(id)
    ensures var (s, answers) := ServeAll(cfg, EMPTY, ops);
            var life := LifeOf(cfg, OpsOf(ops, id));
            && |answers| == |ops|
            && Project(s, id) == (if life.Unused? then None else Some(Account(cfg, life).bucket))
            && Admissions(AnswersOf(ops, answers, id)) == (if life.Unused? then 0 else Account(cfg, life).granted)
            && PollsAnswered(cfg, OpsOf(ops, id), AnswersOf(ops, answers, id))
  {
    IdentityIsolation(cfg, ops, id);
    LoneIsBucket(cfg, OpsOf(ops, id));
    LonePollsAnswered(cfg, OpsOf(ops, id));
  }

  /** So the rate bound holds for every identity on its own, whatever the others do. */
  lemma {:induction false} IdentityRateBound(cfg: B.Config, ops: seq<Op>, id: string)
    requires ValidIdentity(id) && 0 < cfg.windowMs && LifeOf(cfg, OpsOf(ops, id)).Since?
    ensures var (s, answers) := ServeAll(cfg, EMPTY, ops);
            && |answers| == |ops| && id in s.buckets
            && WithinRate(cfg, LifeOf(cfg, OpsOf(ops, id)).created, s.buckets[id], Admissions(AnswersOf(ops, answers, id)))
  {
    IdentityIsBucket(cfg, ops, id);
    AccountWithinRate(cfg, LifeOf(cfg, OpsOf(ops, id)));
  }

  /** The rate bound of a bucket created at `t0` that has granted `granted` tokens. */
  ghost predicate WithinRate(cfg: B.Config, t0: u64, b: B.Bucket, granted: nat) {
    cfg.windowMs * (granted + b.tokens) <= cfg.maxRequests * (cfg.windowMs + b.lastRefillMs - t0)
  }

  lemma AccountWithinRate(cfg: B.Config, life: Life)
    requires life.Since? && 0 < cfg.windowMs
    ensures WithinRate(cfg, life.created, Account(cfg, life).bucket, Account(cfg, life).granted)
  {
    B.RateBound(cfg, life.created, life.calls);
  }

  // ---------------------------------------------------------------------------------------------
  // Counters against buckets
  // ---------------------------------------------------------------------------------------------

  ghost function Sum(m: map<string, B.Bucket>, f: B.Bucket -> nat): nat {
    if m == map[] then 0
    else
      var k :| k in m;
      f(m[k]) + Sum(m - {k}, f)
  }

  lemma {:induction false} SumRemove(m: map<string, B.Bucket>, f: B.Bucket -> nat, k: string)
    requires k in m
    ensures Sum(m, f) == f(m[k]) + Sum(m - {k}, f)
    decreases |m|
  {
    var j :| j in m && Sum(m, f) == f(m[j]) + Sum(m - {j}, f);
    if j != k {
      SumRemove(m - {j}, f, k);
      SumRemove(m - {k}, f, j);
      assert m - {j} - {k} == m - {k} - {j};
    }
  }

  lemma SumUpdate(m: map<string, B.Bucket>, f: B.Bucket -> nat, k: string, b: B.Bucket)
    ensures Sum(m[k := b], f) == Sum(m, f) - (if k in m then f(m[k]) else 0) + f(b)
  {
    SumRemove(m[k := b], f, k);
    assert m[k := b] - {k} == m - {k};
    if k in m {
      SumRemove(m, f, k);
    } else {
      assert m - {k} == m;
    }
  }

  function AcquiredBy(b: B.Bucket): nat { b.acquired }
  function RejectedBy(b: B.Bucket): nat { b.rejected }

  ghost predicate Reconciled(s: Store) {
    && s.metrics.successful == Sum(s.buckets, AcquiredBy)
    && s.metrics.failed == Sum(s.buckets, RejectedBy)
    && s.metrics.total == s.metrics.outcomes == s.metrics.successful + s.metrics.failed
  }

  lemma RefillKeepsCounts(cfg: B.Config, b: B.Bucket, now: u64)
    ensures B.Refill(cfg, b, now).acquired == b.acquired && B.Refill(cfg, b, now).rejected == b.rejected
  {
  }

  /** A check counts on its bucket once, on the side of its verdict. */
  lemma CheckCounts(cfg: B.Config, b: B.Bucket, clock: Clock)
    ensures var (b', v) := CheckBucket(cfg, b, clock);
            && b'.acquired == (if v.Admitted? then Wrap64(b.acquired + 1) else b.acquired)
            && b'.rejected == (if v.Admitted? then b.rejected else Wrap64(b.rejected + 1))
            && !v.Invalid?
  {
    RefillKeepsCounts(cfg, b, clock.refill);
    RefillKeepsCounts(cfg, B.Acquire(cfg, b, 1, clock.refill).0, clock.poll);
  }

  /** One more outcome, counted on the identity's bucket and in the shared counters. */
  lemma ReconcileOutcome(s: Store, id: string, b: B.Bucket, admitted: bool)
    requires Reconciled(s) && s.metrics.total < U64_MAX
    requires var acquired := if id in s.buckets then s.buckets[id].acquired else 0;
             var rejected := if id in s.buckets then s.buckets[id].rejected else 0;
             && b.acquired == (if admitted then Wrap64(acquired + 1) else acquired)
             && b.rejected == (if admitted then rejected else Wrap64(rejected + 1))
    ensures var outcome := if admitted then M.Success else M.Failure;
            var s' := Store(s.buckets[id := b], M.RecordOutcome(M.RecordAttempt(s.metrics), outcome));
            Reconciled(s') && s'.metrics.total == s.metrics.total + 1
  {
    CountIncremented(s.buckets, AcquiredBy, id, b, admitted);
    CountIncremented(s.buckets, RejectedBy, id, b, !admitted);
  }

  /** A count is at most the sum it is part of, so it cannot wrap before the sum does. */
  lemma CountIncremented(m: map<string, B.Bucket>, f: B.Bucket -> nat, id: string, b: B.Bucket, counted: bool)
    requires var was := if id in m then f(m[id]) else 0;
             f(b) == if counted then Wrap64(was + 1) else was
    requires Sum(m, f) < U64_MAX
    ensures Sum(m[id := b], f) == Sum(m, f) + if counted then 1 else 0
  {
    SumUpdate(m, f, id, b);
    if id in m {
      SumRemove(m, f, id);
    }
  }

  lemma CheckReconciled(cfg: B.Config, s: Store, id: string, clock: Clock)
    requires Reconciled(s) && s.metrics.total < U64_MAX && ValidIdentity(id)
    ensures var s' := Check(cfg, s, id, clock).0;
            Reconciled(s') && s'.metrics.total == s.metrics.total + 1
  {
    var b := BucketOf(cfg, s, id, clock.create);
    CheckCounts(cfg, b, clock);
    var (b', v) := CheckBucket(cfg, b, clock);
    ReconcileOutcome(s, id, b', v.Admitted?);
  }

  /** The number of checks that get past validation. */
  function Checks(ops: seq<Op>): nat {
    if ops == [] then 0
    else
      var op := ops[|ops| - 1];
      Checks(ops[..|ops| - 1]) + if op.CheckOp? && ValidIdentity(op.id) then 1 else 0
  }

  /**
   Without a reset the shared counters reconcile with the buckets: successes are the acquired counts
   summed over all identities, failures the rejected ones, and every attempt is one or the other.
   */
  lemma {:induction false} MetricsReconcile(cfg: B.Config, ops: seq<Op>)
    requires Checks(ops) < U64_SIZE
    ensures var s := ServeAll(cfg, EMPTY, ops).0;
            Reconciled(s) && s.metrics.total == Checks(ops)
  {
    if ops != [] {
      var n := |ops| - 1;
      MetricsReconcile(cfg, ops[..n]);
      var s := ServeAll(cfg, EMPTY, ops[..n]).0;
      match ops[n]
      case CheckOp(id, clock) =>
        if ValidIdentity(id) {
          CheckReconciled(cfg, s, id, clock);
        }
      case RemainingOp(id, now) =>
        if ValidIdentity(id) && id in s.buckets {
          RefillKeepsCounts(cfg, s.buckets[id], now);
          SumUpdate(s.buckets, AcquiredBy, id, B.Refill(cfg, s.buckets[id], now));
          SumUpdate(s.buckets, RejectedBy, id, B.Refill(cfg, s.buckets[id], now));
        }
    }
  }

  /** At the maximum the counters stand still while the bucket counts go on, or wrap. */
  lemma FullCountersDiverge(cfg: B.Config, s: Store, id: string, clock: Clock)
    requires Reconciled(s) && s.metrics.total == U64_MAX && ValidIdentity(id)
    ensures !Reconciled(Check(cfg, s, id, clock).0)
  {
    var b := BucketOf(cfg, s, id, clock.create);
    CheckCounts(cfg, b, clock);
    var (b', v) := CheckBucket(cfg, b, clock);
    SumUpdate(s.buckets, AcquiredBy, id, b');
    SumUpdate(s.buckets, RejectedBy, id, b');
    assert Check(cfg, s, id, clock).0.metrics == s.metrics;
  }

  ghost predicate AlwaysReconciled(cfg: B.Config, ops: seq<Op>) {
    (ops == [] || AlwaysReconciled(cfg, ops[..|ops| - 1])) && Reconciled(ServeAll(cfg, EMPTY, ops).0)
  }

  /** They reconcile throughout a run if and only if it has fewer than 2^64 checks of valid identities. */
  lemma {:induction false} MetricsReconcileIff(cfg: B.Config, ops: seq<Op>)
    ensures AlwaysReconciled(cfg, ops) <==> Checks(ops) < U64_SIZE
  {
    if Checks(ops) < U64_SIZE {
      MetricsReconcile(cfg, ops);
    }
    if ops != [] {
      var n := |ops| - 1;
      MetricsReconcileIff(cfg, ops[..n]);
      if Checks(ops[..n]) < U64_SIZE <= Checks(ops) {
        MetricsReconcile(cfg, ops[..n]);
        FullCountersDiverge(cfg, ServeAll(cfg, EMPTY, ops[..n]).0, ops[n].id, ops[n].clock);
      }
    }
  }

  /** A run that parts them: one identity, checked 2^64 times. */
  lemma EndlessChecksDiverge(cfg: B.Config, clock: Clock) returns (ops: seq<Op>)
    ensures !AlwaysReconciled(cfg, ops)
  {
    ops := seq(U64_SIZE, _ => CheckOp("a", clock));
    AllCheck(ops, clock);
    MetricsReconcileIff(cfg, ops);
  }

  lemma {:induction false} AllCheck(ops: seq<Op>, clock: Clock)
    requires forall i | 0 <= i < |ops| :: ops[i] == CheckOp("a", clock)
    ensures Checks(ops) == |ops|
  {
    if ops != [] {
      AllCheck(ops[..|ops| - 1], clock);
    }
  }

  // ---------------------------------------------------------------------------------------------
  // The limiter object
  // ---------------------------------------------------------------------------------------------

  /** `AuthRateLimiter`, with the bucket of each identity held as a value. */
  class Limiter {
    const cfg: B.Config
    var buckets: map<string, B.Bucket>
    var metrics: M.Counters

    constructor (cfg: B.Config)
      ensures this.cfg == cfg && State() == EMPTY
    {
      this.cfg := cfg;
      buckets, metrics := map[], M.ZERO;
    }

    ghost function State(): Store
      reads this
    {
      Store(buckets, metrics)
    }

    method GetOrCreateAuthBucket(id: string, now: u64) returns (b: B.Bucket)
      modifies this`buckets
      ensures b == BucketOf(cfg, old(State()), id, now)
      ensures buckets == old(buckets)[id := b]
    {
      if id !in buckets {
        buckets := buckets[id := B.NewBucket(cfg, now)];
      }
      b := buckets[id];
    }

    method CheckAuthRateLimit(id: string, clock: Clock) returns (v: Verdict)
      modifies this
      ensures (State(), v) == Check(cfg, old(State()), id, clock)
    {
      if !ValidIdentity(id) {
        return Invalid;
      }
      metrics := M.RecordAttempt(metrics);
      var b := GetOrCreateAuthBucket(id, clock.create);
      var (taken, ok) := B.Acquire(cfg, b, 1, clock.refill);
      buckets := buckets[id := taken];
      assert buckets == old(buckets)[id := taken];
      if ok {
        metrics := M.RecordOutcome(metrics, M.Success);
        return Admitted;
      }
      metrics := M.RecordOutcome(metrics, M.Failure);
      var polled := B.Refill(cfg, taken, clock.poll);
      buckets := buckets[id := polled];
      assert buckets == old(buckets)[id := polled];
      return RateLimited(B.WaitMs(cfg, polled, clock.wait) / 1000);
    }

    method RemainingAuthTokens(id: string, now: u64) returns (n: Option<u32>)
      modifies this
      ensures (State(), n) == Remaining(cfg, old(State()), id, now)
    {
      if !ValidIdentity(id) || id !in buckets {
        return None;
      }
      var b := B.Refill(cfg, buckets[id], now);
      buckets := buckets[id := b];
      return Some(b.tokens);
    }
  }
}
