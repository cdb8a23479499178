/**
 The limiter of src/cache/rate_limiting.rs shared by any number of threads: every atomic load, store,
 exchange and add is one step of one thread, in any order.

 The refill is a load followed by a store, so a concurrent acquire can be overwritten.  What holds in
 every interleaving is the cap, the absence of underflow and the rate bound with two explicit excess
 terms; what holds between token stores is conservation; and a call that runs alone is the sequential call.
 */
module LimiterInterleaving {
  import opened Machine
  import B = TokenBucket

  datatype Request = Acquire(count: u32) | Poll

  /** Where a thread is: the atomic operation it performs next, and the locals it has read, `since` being `last_ms`. */
  datatype Pc =
    | Idle
    | LoadLast(req: Request, now: u64)
    | StoreFull(req: Request, now: u64, since: u64)
    | LoadTokens(req: Request, now: u64, since: u64, add: u32)
    | StorePartial(req: Request, now: u64, since: u64, loaded: u32, value: u32)
    | StoreLast(req: Request, now: u64, since: u64)
    | CountRefill(req: Request)
    | LoadCurrent(req: Request)
    | Exchange(current: u32, count: u32)
    | CountAcquired
    | CountRejected
    | ResetTokens(now: u64)
    | ResetLast(now: u64)

  /**
   The shared atomics, with histories.  `granted` counts tokens granted and `stores` the stores made to
   `tokens`.  `unpaid` counts tokens put back for nothing: those a partial refill had loaded and others
   took before its store, and those a reset adds.  `doubleMs` is time credited more than once: how far
   `last_refill_ms` had moved on when a refill stored it, since that refill read it.
   */
  datatype State = State(
    tokens: u32, lastRefillMs: u64, acquired: u64, rejected: u64, refills: u64,
    granted: nat, stores: nat, unpaid: nat, doubleMs: int, threads: seq<Pc>)

  datatype Event = Begin(thread: nat, req: Request, now: u64) | BeginReset(thread: nat, now: u64) | Advance(thread: nat)

  function Init(cfg: B.Config, t0: u64, threads: nat): State {
    State(cfg.maxRequests, t0, 0, 0, 0, 0, 0, 0, 0, seq(threads, _ => Idle))
  }

  function Goto(s: State, t: nat, pc: Pc): State
    requires t < |s.threads|
  {
    s.(threads := s.threads[t := pc])
  }

  function Excess(a: nat, b: nat): nat { if a > b then a - b else 0 }

  /** The branch `refill_tokens` takes on the `last_refill_ms` it has just read. */
  function AfterLoadLast(cfg: B.Config, last: u64, req: Request, now: u64): Pc {
    var elapsed := SaturatingSub(now, last);
    if cfg.windowMs == 0 then LoadCurrent(req)
    else if elapsed >= cfg.windowMs then StoreFull(req, now, last)
    else
      var add := B.TokensToAdd(cfg, elapsed);
      if add == 0 then LoadCurrent(req) else LoadTokens(req, now, last, add)
  }

  /** One atomic operation of thread `t`. */
  function Advanced(cfg: B.Config, s: State, t: nat): State
    requires t < |s.threads|
  {
    match s.threads[t]
    case Idle => s
    case LoadLast(req, now) => Goto(s, t, AfterLoadLast(cfg, s.lastRefillMs, req, now))
    case StoreFull(req, now, since) =>
      Goto(s.(tokens := cfg.maxRequests, stores := s.stores + 1), t, StoreLast(req, now, since))
    case LoadTokens(req, now, since, add) =>
      Goto(s, t, StorePartial(req, now, since, s.tokens, B.TopUp(cfg, s.tokens, add)))
    case StorePartial(req, now, since, loaded, value) =>
      Goto(s.(tokens := value, stores := s.stores + 1, unpaid := s.unpaid + Excess(loaded, s.tokens)), t,
           StoreLast(req, now, since))
    case StoreLast(req, now, since) =>
      Goto(s.(lastRefillMs := now, doubleMs := s.doubleMs + s.lastRefillMs - since), t, CountRefill(req))
    case CountRefill(req) => Goto(s.(refills := Wrap64(s.refills + 1)), t, LoadCurrent(req))
    case LoadCurrent(req) =>
      if req.Poll? then Goto(s, t, Idle)
      else Goto(s, t, if s.tokens < req.count then CountRejected else Exchange(s.tokens, req.count))
    case Exchange(current, count) =>
      if s.tokens == current then
        Goto(s.(tokens := Wrap32(current - count), granted := s.granted + count), t, CountAcquired)
      else
        Goto(s, t, LoadCurrent(Acquire(count)))
    case CountAcquired => Goto(s.(acquired := Wrap64(s.acquired + 1)), t, Idle)
    case CountRejected => Goto(s.(rejected := Wrap64(s.rejected + 1)), t, Idle)
    case ResetTokens(now) =>
      Goto(s.(tokens := cfg.maxRequests, stores := s.stores + 1, unpaid := s.unpaid + Excess(cfg.maxRequests, s.tokens)), t,
           ResetLast(now))
    case ResetLast(now) => Goto(s.(lastRefillMs := now, doubleMs := s.doubleMs + s.lastRefillMs - now), t, Idle)
  }

  /** Any event may be tried at any time; one that is not enabled changes nothing. */
  function Step(cfg: B.Config, s: State, e: Event): State {
    if e.thread >= |s.threads| then s
    else match e
      case Begin(t, req, now) => if s.threads[t].Idle? then Goto(s, t, LoadLast(req, now)) else s
      case BeginReset(t, now) => if s.threads[t].Idle? then Goto(s, t, ResetTokens(now)) else s
      case Advance(t) => Advanced(cfg, s, t)
  }

  function Run(cfg: B.Config, s: State, events: seq<Event>): State {
    if events == [] then s
    else Step(cfg, Run(cfg, s, events[..|events| - 1]), events[|events| - 1])
  }

  // ---------------------------------------------------------------------------------------------
  // Every interleaving
  // ---------------------------------------------------------------------------------------------

  ghost predicate PcOk(cfg: B.Config, pc: Pc) {
    && (pc.StorePartial? ==> pc.value <= cfg.maxRequests)
    && (pc.Exchange? ==> pc.count <= pc.current <= cfg.maxRequests)
  }

  ghost predicate Capped(cfg: B.Config, s: State) {
    && s.tokens <= cfg.maxRequests
    && forall t | 0 <= t < |s.threads| :: PcOk(cfg, s.threads[t])
  }

  ghost predicate Budgeted(cfg: B.Config, s: State) {
    s.granted + s.tokens <= cfg.maxRequests * (1 + s.stores)
  }

  lemma StepCapped(cfg: B.Config, s: State, e: Event)
    requires Capped(cfg, s)
    ensures Capped(cfg, Step(cfg, s, e))
  {
  }

  /** A step either leaves `tokens + granted` alone or is a store, after which `tokens` is at most the maximum. */
  lemma StepConserves(cfg: B.Config, s: State, e: Event)
    requires Capped(cfg, s)
    ensures var s' := Step(cfg, s, e);
            || (s'.stores == s.stores && s'.tokens + s'.granted == s.tokens + s.granted)
            || (s'.stores == s.stores + 1 && s'.tokens <= cfg.maxRequests && s'.granted == s.granted)
  {
  }

  lemma StepBudgeted(cfg: B.Config, s: State, e: Event)
    requires Capped(cfg, s) && Budgeted(cfg, s)
    ensures Budgeted(cfg, Step(cfg, s, e))
  {
    StepConserves(cfg, s, e);
    OneMoreBucket(cfg.maxRequests, s.stores);
  }

  lemma OneMoreBucket(max: nat, stores: nat)
    ensures max * (1 + (stores + 1)) == max * (1 + stores) + max
  {
  }

  /**
   In every interleaving of any number of acquires, polls and resets: the bucket stays within its cap,
   no pending store exceeds it, no pending subtraction can underflow, and every store to `tokens` is
   worth at most one full bucket.
   */
  lemma {:induction false} EveryInterleavingSafe(cfg: B.Config, t0: u64, threads: nat, events: seq<Event>)
    ensures Capped(cfg, Run(cfg, Init(cfg, t0, threads), events))
    ensures Budgeted(cfg, Run(cfg, Init(cfg, t0, threads), events))
  {
    if events != [] {
      var init := events[..|events| - 1];
      EveryInterleavingSafe(cfg, t0, threads, init);
      var s := Run(cfg, Init(cfg, t0, threads), init);
      StepCapped(cfg, s, events[|events| - 1]);
      StepBudgeted(cfg, s, events[|events| - 1]);
    }
  }

  /** Between stores to `tokens`, concurrent acquires conserve tokens left plus tokens granted. */
  lemma {:induction false} ExchangesConserve(cfg: B.Config, s: State, events: seq<Event>)
    requires Capped(cfg, s)
    ensures var s' := Run(cfg, s, events);
            && Capped(cfg, s') && s.stores <= s'.stores
            && (s'.stores == s.stores ==> s'.tokens + s'.granted == s.tokens + s.granted)
  {
    if events != [] {
      var init := events[..|events| - 1];
      ExchangesConserve(cfg, s, init);
      StepCapped(cfg, Run(cfg, s, init), events[|events| - 1]);
      StepConserves(cfg, Run(cfg, s, init), events[|events| - 1]);
    }
  }

  ghost predicate NoStorePending(s: State) {
    forall t | 0 <= t < |s.threads| ::
      var pc := s.threads[t];
      !pc.StoreFull? && !pc.LoadTokens? && !pc.StorePartial? && !pc.ResetTokens?
  }

  ghost predicate NoReset(events: seq<Event>) {
    forall i | 0 <= i < |events| :: !events[i].BeginReset?
  }

  /** With a zero window and no reset, exactly `max_requests` tokens are ever granted or left, in every interleaving. */
  lemma {:induction false} ZeroWindowExact(cfg: B.Config, t0: u64, threads: nat, events: seq<Event>)
    requires cfg.windowMs == 0
    requires NoReset(events)
    ensures var s := Run(cfg, Init(cfg, t0, threads), events);
            && s.tokens + s.granted == cfg.maxRequests
            && s.stores == 0 && NoStorePending(s)
  {
    if events != [] {
      var init := events[..|events| - 1];
      ZeroWindowExact(cfg, t0, threads, init);
      EveryInterleavingSafe(cfg, t0, threads, init);
      StepConserves(cfg, Run(cfg, Init(cfg, t0, threads), init), events[|events| - 1]);
    }
  }

  // ---------------------------------------------------------------------------------------------
  // A call that runs alone
  // ---------------------------------------------------------------------------------------------

  function Bucket(s: State): B.Bucket {
    B.Bucket(s.tokens, s.lastRefillMs, s.acquired, s.rejected, s.refills)
  }

  /** `k` further atomic operations of thread `t`. */
  function Advances(cfg: B.Config, s: State, t: nat, k: nat): State
    decreases k
  {
    if k == 0 then s else Advances(cfg, Step(cfg, s, Advance(t)), t, k - 1)
  }

  lemma {:induction false} AdvancesAdd(cfg: B.Config, s: State, t: nat, j: nat, k: nat)
    ensures Advances(cfg, Advances(cfg, s, t, j), t, k) == Advances(cfg, s, t, j + k)
    decreases j
  {
    if j > 0 {
      AdvancesAdd(cfg, Step(cfg, s, Advance(t)), t, j - 1, k);
    }
  }

  /** The refill part of a call, run without interruption, is `Refill`. */
  lemma RefillAlone(cfg: B.Config, s: State, t: nat, req: Request, now: u64) returns (k: nat)
    requires t < |s.threads| && s.threads[t] == LoadLast(req, now)
    ensures var r := Advances(cfg, s, t, k);
            && Bucket(r) == B.Refill(cfg, Bucket(s), now)
            && r.threads == s.threads[t := LoadCurrent(req)] && r.granted == s.granted
  {
    var s1 := Step(cfg, s, Advance(t));
    match s1.threads[t]
    case LoadCurrent(_) =>
      k := 1;
      assert Advances(cfg, s, t, 1) == s1;
    case StoreFull(_, _, _) =>
      var s2 := Step(cfg, s1, Advance(t));
      var s3 := Step(cfg, s2, Advance(t));
      var s4 := Step(cfg, s3, Advance(t));
      k := 4;
      assert Advances(cfg, s3, t, 1) == s4;
      assert Advances(cfg, s, t, 4) == Advances(cfg, s1, t, 3) == Advances(cfg, s2, t, 2) == s4;
    case LoadTokens(_, _, _, _) =>
      var s2 := Step(cfg, s1, Advance(t));
      var s3 := Step(cfg, s2, Advance(t));
      var s4 := Step(cfg, s3, Advance(t));
      var s5 := Step(cfg, s4, Advance(t));
      k := 5;
      assert Advances(cfg, s4, t, 1) == s5;
      assert Advances(cfg, s, t, 5) == Advances(cfg, s1, t, 4) == Advances(cfg, s2, t, 3)
          == Advances(cfg, s3, t, 2) == s5;
  }

  /** The acquire part of a call, run without interruption, is `Take`; a poll just reads. */
  lemma AcquireAlone(cfg: B.Config, s: State, t: nat, req: Request) returns (k: nat)
    requires t < |s.threads| && s.threads[t] == LoadCurrent(req)
    ensures var r := Advances(cfg, s, t, k);
            && r.threads == s.threads[t := Idle]
            && (req.Poll? ==> Bucket(r) == Bucket(s) && r.granted == s.granted)
            && (req.Acquire? ==>
                  var (b, ok) := B.Take(Bucket(s), req.count);
                  Bucket(r) == b && r.granted == s.granted + if ok then req.count else 0)
  {
    var s1 := Step(cfg, s, Advance(t));
    match s1.threads[t]
    case Idle =>
      k := 1;
      assert Advances(cfg, s, t, 1) == s1;
    case CountRejected =>
      k := 2;
      assert Advances(cfg, s, t, 2) == Advances(cfg, s1, t, 1) == Step(cfg, s1, Advance(t));
    case Exchange(_, _) =>
      var s2 := Step(cfg, s1, Advance(t));
      k := 3;
      assert Advances(cfg, s, t, 3) == Advances(cfg, s1, t, 2) == Advances(cfg, s2, t, 1) == Step(cfg, s2, Advance(t));
  }

  function AsCall(req: Request, now: u64): B.Call {
    match req
    case Acquire(count) => B.AcquireN(count, now)
    case Poll => B.Poll(now)
  }

  /** A call during which no other thread moves has exactly the effect of the sequential call. */
  lemma AloneIsSequential(cfg: B.Config, s: State, t: nat, req: Request, now: u64) returns (k: nat)
    requires t < |s.threads| && s.threads[t] == Idle
    ensures var r := Advances(cfg, Step(cfg, s, Begin(t, req, now)), t, k);
            && r.threads == s.threads
            && B.Ledger(Bucket(r), r.granted) == B.Serve(cfg, B.Ledger(Bucket(s), s.granted), AsCall(req, now))
  {
    var s0 := Step(cfg, s, Begin(t, req, now));
    var j := RefillAlone(cfg, s0, t, req, now);
    var s1 := Advances(cfg, s0, t, j);
    var i := AcquireAlone(cfg, s1, t, req);
    k := j + i;
    AdvancesAdd(cfg, s0, t, j, i);
    assert s0.threads[t := LoadCurrent(req)][t := Idle] == s.threads;
  }

  /** A reset during which no other thread moves is the sequential reset. */
  lemma ResetAlone(cfg: B.Config, s: State, t: nat, now: u64)
    requires t < |s.threads| && s.threads[t] == Idle
    ensures var r := Advances(cfg, Step(cfg, s, BeginReset(t, now)), t, 2);
            r.threads == s.threads && r.granted == s.granted && Bucket(r) == B.Reset(cfg, Bucket(s), now)
  {
    var s1 := Step(cfg, s, BeginReset(t, now));
    var s2 := Step(cfg, s1, Advance(t));
    var s3 := Step(cfg, s2, Advance(t));
    assert Advances(cfg, s1, t, 2) == Advances(cfg, s2, t, 1) == Advances(cfg, s3, t, 0) == s3;
    assert s3.threads == s.threads;
  }

  // ---------------------------------------------------------------------------------------------
  // Every acquire is decided, as it was asked
  // ---------------------------------------------------------------------------------------------

  /** What thread `t` was last asked to do, read off the events alone. */
  function Asked(cfg: B.Config, s: State, events: seq<Event>, t: nat): Option<Request> {
    if events == [] then None
    else
      var n := |events| - 1;
      var g, e := Run(cfg, s, events[..n]), events[n];
      if e.thread == t && t < |g.threads| && g.threads[t].Idle? && !e.Advance? then
        if e.Begin? then Some(e.req) else None
      else Asked(cfg, s, events[..n], t)
  }

  /** What a thread that has not decided yet is working on. */
  function Pending(pc: Pc): Option<Request> {
    match pc
    case LoadLast(req, _) => Some(req)
    case StoreFull(req, _, _) => Some(req)
    case LoadTokens(req, _, _, _) => Some(req)
    case StorePartial(req, _, _, _, _) => Some(req)
    case StoreLast(req, _, _) => Some(req)
    case CountRefill(req) => Some(req)
    case LoadCurrent(req) => Some(req)
    case Exchange(_, count) => Some(Acquire(count))
    case _ => None
  }

  predicate Undecided(pc: Pc) {
    Pending(pc).Some? && Pending(pc).value.Acquire?
  }

  predicate Granting(pc: Pc) { pc.CountAcquired? }
  predicate Refusing(pc: Pc) { pc.CountRejected? }

  /** Retries and refills included, a thread works on what it was asked for until it has decided. */
  lemma {:induction false} CarriesAsked(cfg: B.Config, t0: u64, threads: nat, events: seq<Event>, t: nat)
    requires t < threads
    ensures var s := Run(cfg, Init(cfg, t0, threads), events);
            && |s.threads| == threads
            && (Pending(s.threads[t]).Some? ==> Pending(s.threads[t]) == Asked(cfg, Init(cfg, t0, threads), events, t))
  {
    if events != [] {
      var n := |events| - 1;
      CarriesAsked(cfg, t0, threads, events[..n], t);
      StepCarries(cfg, Run(cfg, Init(cfg, t0, threads), events[..n]), events[n], t);
    }
  }

  lemma StepCarries(cfg: B.Config, s: State, e: Event, t: nat)
    requires t < |s.threads|
    ensures |Step(cfg, s, e).threads| == |s.threads|
    ensures var pc, pc' := s.threads[t], Step(cfg, s, e).threads[t];
            if e.thread == t && pc.Idle? && !e.Advance? then Pending(pc') == (if e.Begin? then Some(e.req) else None)
            else Pending(pc').None? || Pending(pc') == Pending(pc)
  {
  }

  predicate Begins(s: State, e: Event) {
    e.Begin? && e.thread < |s.threads| && s.threads[e.thread].Idle? && e.req.Acquire?
  }

  /** An exchange that succeeds for a thread asked for `asked`. */
  predicate Takes(s: State, e: Event, asked: Option<Request>) {
    && e.Advance? && e.thread < |s.threads| && asked.Some? && asked.value.Acquire?
    && s.threads[e.thread].Exchange? && s.threads[e.thread].current == s.tokens && s.tokens >= asked.value.count
  }

  /** A load that finds fewer tokens than were asked for. */
  predicate Refuses(s: State, e: Event, asked: Option<Request>) {
    && e.Advance? && e.thread < |s.threads| && asked.Some? && asked.value.Acquire?
    && s.threads[e.thread].LoadCurrent? && s.tokens < asked.value.count
  }

  /** Acquires begun, exchanges made, loads that found too few tokens, and tokens asked for by those that took. */
  datatype Tally = Tally(begun: nat, takes: nat, refusals: nat, taken: nat)

  function Next(tally: Tally, s: State, e: Event, asked: Option<Request>): Tally {
    var takes := Takes(s, e, asked);
    Tally(tally.begun + Bit(Begins(s, e)), tally.takes + Bit(takes), tally.refusals + Bit(Refuses(s, e, asked)),
          tally.taken + if takes then asked.value.count else 0)
  }

  function TallyOf(cfg: B.Config, s: State, events: seq<Event>): Tally {
    if events == [] then Tally(0, 0, 0, 0)
    else
      var n := |events| - 1;
      Next(TallyOf(cfg, s, events[..n]), Run(cfg, s, events[..n]), events[n], Asked(cfg, s, events[..n], events[n].thread))
  }

  /** A count that runs in `u64`, of decisions of which some threads have yet to count theirs. */
  ghost predicate CountedBut(counter: u64, decisions: nat, uncounted: nat) {
    uncounted <= decisions && counter == Wrap64(decisions - uncounted)
  }

  ghost predicate Tallied(s: State, tally: Tally) {
    && tally.begun == tally.takes + tally.refusals + |Where(s.threads, Undecided)|
    && s.granted == tally.taken
    && CountedBut(s.acquired, tally.takes, |Where(s.threads, Granting)|)
    && CountedBut(s.rejected, tally.refusals, |Where(s.threads, Refusing)|)
  }

  lemma CountStep(counter: u64, decisions: nat, uncounted: nat, decided: bool, counts: bool)
    requires CountedBut(counter, decisions, uncounted) && (counts ==> uncounted > 0)
    ensures CountedBut(Wrap64(counter + Bit(counts)), decisions + Bit(decided), uncounted + Bit(decided) - Bit(counts))
  {
    if counts {
      WrapNext(counter, decisions - uncounted);
    }
  }

  /** A thread becomes undecided by beginning, and decided by taking or by being refused. */
  lemma UndecidedStep(cfg: B.Config, s: State, e: Event)
    requires Capped(cfg, s) && e.thread < |s.threads|
    ensures var asked := Pending(s.threads[e.thread]);
            |Where(Step(cfg, s, e).threads, Undecided)| + Bit(Takes(s, e, asked)) + Bit(Refuses(s, e, asked))
            == |Where(s.threads, Undecided)| + Bit(Begins(s, e))
  {
    var pc' := Step(cfg, s, e).threads[e.thread];
    assert Step(cfg, s, e).threads == s.threads[e.thread := pc'];
    WhereUpdate(s.threads, Undecided, e.thread, pc');
  }

  lemma GrantStep(cfg: B.Config, s: State, e: Event, takes: nat)
    requires Capped(cfg, s) && e.thread < |s.threads| && CountedBut(s.acquired, takes, |Where(s.threads, Granting)|)
    ensures var asked, s' := Pending(s.threads[e.thread]), Step(cfg, s, e);
            && CountedBut(s'.acquired, takes + Bit(Takes(s, e, asked)), |Where(s'.threads, Granting)|)
            && s'.granted == s.granted + if Takes(s, e, asked) then asked.value.count else 0
  {
    var pc, pc' := s.threads[e.thread], Step(cfg, s, e).threads[e.thread];
    assert Step(cfg, s, e).threads == s.threads[e.thread := pc'];
    WhereUpdate(s.threads, Granting, e.thread, pc');
    assert Granting(pc) ==> e.thread in Where(s.threads, Granting);
    CountStep(s.acquired, takes, |Where(s.threads, Granting)|, Takes(s, e, Pending(pc)), e.Advance? && Granting(pc));
  }

  lemma RefusalStep(cfg: B.Config, s: State, e: Event, refusals: nat)
    requires Capped(cfg, s) && e.thread < |s.threads| && CountedBut(s.rejected, refusals, |Where(s.threads, Refusing)|)
    ensures var asked, s' := Pending(s.threads[e.thread]), Step(cfg, s, e);
            CountedBut(s'.rejected, refusals + Bit(Refuses(s, e, asked)), |Where(s'.threads, Refusing)|)
  {
    var pc, pc' := s.threads[e.thread], Step(cfg, s, e).threads[e.thread];
    assert Step(cfg, s, e).threads == s.threads[e.thread := pc'];
    WhereUpdate(s.threads, Refusing, e.thread, pc');
    assert Refusing(pc) ==> e.thread in Where(s.threads, Refusing);
    CountStep(s.rejected, refusals, |Where(s.threads, Refusing)|, Refuses(s, e, Pending(pc)), e.Advance? && Refusing(pc));
  }

  lemma StepTallied(cfg: B.Config, s: State, e: Event, tally: Tally, asked: Option<Request>)
    requires Capped(cfg, s) && Tallied(s, tally)
    requires e.thread < |s.threads| && Pending(s.threads[e.thread]).Some? ==> Pending(s.threads[e.thread]) == asked
    ensures Tallied(Step(cfg, s, e), Next(tally, s, e, asked))
  {
    if e.thread < |s.threads| {
      SameNext(tally, s, e, asked);
      UndecidedStep(cfg, s, e);
      GrantStep(cfg, s, e, tally.takes);
      RefusalStep(cfg, s, e, tally.refusals);
    }
  }

  lemma StartsTallied(cfg: B.Config, t0: u64, threads: nat)
    ensures Tallied(Init(cfg, t0, threads), Tally(0, 0, 0, 0))
  {
    var pcs := Init(cfg, t0, threads).threads;
    assert Where(pcs, Undecided) == {} && Where(pcs, Granting) == {} && Where(pcs, Refusing) == {};
  }

  lemma WrapNext(x: u64, n: nat)
    requires x == Wrap64(n)
    ensures Wrap64(x + 1) == Wrap64(n + 1)
  {
  }

  /**
   In every interleaving, however often exchanges fail and are tried again: every acquire begun has taken
   exactly what it was asked for, has been refused at a moment when there were fewer tokens than that, or is
   still undecided; and the counts are of those that took and those that were refused.
   */
  lemma {:induction false} EveryAcquireDecided(cfg: B.Config, t0: u64, threads: nat, events: seq<Event>)
    ensures Tallied(Run(cfg, Init(cfg, t0, threads), events), TallyOf(cfg, Init(cfg, t0, threads), events))
  {
    if events == [] {
      StartsTallied(cfg, t0, threads);
    } else {
      var s0, n := Init(cfg, t0, threads), |events| - 1;
      var t := events[n].thread;
      EveryAcquireDecided(cfg, t0, threads, events[..n]);
      EveryInterleavingSafe(cfg, t0, threads, events[..n]);
      ThreadCount(cfg, t0, threads, events[..n]);
      if t < threads {
        CarriesAsked(cfg, t0, threads, events[..n], t);
      }
      StepTallied(cfg, Run(cfg, s0, events[..n]), events[n], TallyOf(cfg, s0, events[..n]), Asked(cfg, s0, events[..n], t));
    }
  }

  /** Only a thread that is undecided takes or is refused, so it does not matter what else it was asked before. */
  lemma SameNext(tally: Tally, s: State, e: Event, asked: Option<Request>)
    requires e.thread < |s.threads| && (Pending(s.threads[e.thread]).Some? ==> Pending(s.threads[e.thread]) == asked)
    ensures Next(tally, s, e, Pending(s.threads[e.thread])) == Next(tally, s, e, asked)
  {
  }

  lemma {:induction false} ThreadCount(cfg: B.Config, t0: u64, threads: nat, events: seq<Event>)
    ensures |Run(cfg, Init(cfg, t0, threads), events).threads| == threads
  {
    if events != [] {
      ThreadCount(cfg, t0, threads, events[..|events| - 1]);
    }
  }

  // ---------------------------------------------------------------------------------------------
  // The rate bound in every interleaving
  // ---------------------------------------------------------------------------------------------

  /** The time a refill has been paid in tokens for and has not yet stored. */
  function OwedMs(pc: Pc): int {
    if pc.StoreLast? then pc.now - pc.since else 0
  }

  function PendingMs(threads: seq<Pc>): int {
    if threads == [] then 0 else PendingMs(threads[..|threads| - 1]) + OwedMs(threads[|threads| - 1])
  }

  lemma {:induction false} PendingUpdate(threads: seq<Pc>, t: nat, pc: Pc)
    requires t < |threads|
    ensures PendingMs(threads[t := pc]) == PendingMs(threads) - OwedMs(threads[t]) + OwedMs(pc)
  {
    var m := |threads| - 1;
    if t == m {
      assert threads[t := pc][..m] == threads[..m];
    } else {
      assert threads[t := pc][..m] == threads[..m][t := pc];
      PendingUpdate(threads[..m], t, pc);
    }
  }

  lemma {:induction false} NothingPending(threads: seq<Pc>)
    requires forall t | 0 <= t < |threads| :: !threads[t].StoreLast?
    ensures PendingMs(threads) == 0
  {
    if threads != [] {
      NothingPending(threads[..|threads| - 1]);
    }
  }

  /** What a thread in the middle of a refill adds is paid for by the time since it read `last_refill_ms`. */
  ghost predicate Earned(cfg: B.Config, pc: Pc) {
    match pc
    case StoreFull(_, now, since) => since + cfg.windowMs <= now
    case LoadTokens(_, now, since, add) => since < now && cfg.windowMs * add <= cfg.maxRequests * (now - since)
    case StorePartial(_, now, since, loaded, value) =>
      since < now && cfg.windowMs * (value - loaded) <= cfg.maxRequests * (now - since)
    case StoreLast(_, now, since) => since <= now
    case _ => true
  }

  ghost predicate AllEarned(cfg: B.Config, s: State) {
    forall t | 0 <= t < |s.threads| :: Earned(cfg, s.threads[t])
  }

  /** `held` tokens are paid for by a full bucket, `time` and `unpaid` tokens. */
  ghost predicate Within(cfg: B.Config, held: int, time: int, unpaid: int) {
    cfg.windowMs * held <= cfg.maxRequests * (cfg.windowMs + time) + cfg.windowMs * unpaid
  }

  /** The time credited so far: what `last_refill_ms` has moved, what was credited twice, and what is on its way. */
  ghost function CreditedMs(t0: u64, s: State): int {
    s.lastRefillMs - t0 + s.doubleMs + PendingMs(s.threads)
  }

  ghost predicate Accounted(cfg: B.Config, t0: u64, s: State) {
    Within(cfg, s.granted + s.tokens, CreditedMs(t0, s), s.unpaid)
  }

  lemma WithinAdds(cfg: B.Config, held: int, time: int, unpaid: int, moreHeld: int, moreTime: int, moreUnpaid: int)
    requires Within(cfg, held, time, unpaid)
    requires cfg.windowMs * moreHeld <= cfg.maxRequests * moreTime + cfg.windowMs * moreUnpaid
    ensures Within(cfg, held + moreHeld, time + moreTime, unpaid + moreUnpaid)
  {
  }

  lemma DecisionEarned(cfg: B.Config, last: u64, req: Request, now: u64)
    ensures Earned(cfg, AfterLoadLast(cfg, last, req, now))
  {
    if 0 < cfg.windowMs {
      B.TopUpPaid(cfg, SaturatingSub(now, last));
      B.NoTimeNoTokens(cfg);
    }
  }

  lemma LoadEarned(cfg: B.Config, tokens: u32, now: u64, since: u64, add: u32)
    requires cfg.windowMs * add <= cfg.maxRequests * (now - since)
    ensures cfg.windowMs * (B.TopUp(cfg, tokens, add) - tokens) <= cfg.maxRequests * (now - since)
  {
    MulMonotone(B.TopUp(cfg, tokens, add) - tokens, add, cfg.windowMs);
  }

  lemma AdvancedEarned(cfg: B.Config, s: State, t: nat)
    requires t < |s.threads| && Earned(cfg, s.threads[t])
    ensures Earned(cfg, Advanced(cfg, s, t).threads[t])
  {
    match s.threads[t]
    case LoadLast(req, now) => DecisionEarned(cfg, s.lastRefillMs, req, now);
    case LoadTokens(_, now, since, add) => LoadEarned(cfg, s.tokens, now, since, add);
    case _ =>
  }

  lemma StepEarned(cfg: B.Config, s: State, e: Event)
    requires AllEarned(cfg, s)
    ensures AllEarned(cfg, Step(cfg, s, e))
  {
    if e.thread < |s.threads| {
      if e.Advance? {
        AdvancedEarned(cfg, s, e.thread);
        OnlyMover(cfg, s, e.thread);
      }
    }
  }

  lemma OnlyMover(cfg: B.Config, s: State, t: nat)
    requires t < |s.threads|
    ensures var s' := Advanced(cfg, s, t); s'.threads == s.threads[t := s'.threads[t]]
  {
  }

  /** A store of a full bucket is paid for by the window that has gone by. */
  lemma FullStorePaid(cfg: B.Config, tokens: u32, elapsed: nat)
    requires tokens <= cfg.maxRequests && cfg.windowMs <= elapsed
    ensures cfg.windowMs * (cfg.maxRequests - tokens) <= cfg.maxRequests * elapsed + cfg.windowMs * 0
  {
    B.FullPaid(cfg, tokens, elapsed);
  }

  /** A partial store, except for what others have taken since its load. */
  lemma PartialStorePaid(cfg: B.Config, tokens: u32, loaded: u32, value: u32, elapsed: nat)
    requires cfg.windowMs * (value - loaded) <= cfg.maxRequests * elapsed
    ensures cfg.windowMs * (value - tokens) <= cfg.maxRequests * elapsed + cfg.windowMs * Excess(loaded, tokens)
  {
    MulMonotone(value - tokens, (value - loaded) + Excess(loaded, tokens), cfg.windowMs);
  }

  /** How one atomic operation moves the three sides of the account. */
  lemma AdvancedAccounted(cfg: B.Config, t0: u64, s: State, t: nat)
    requires t < |s.threads| && Capped(cfg, s) && Earned(cfg, s.threads[t]) && Accounted(cfg, t0, s)
    ensures Accounted(cfg, t0, Advanced(cfg, s, t))
  {
    var s' := Advanced(cfg, s, t);
    OnlyMover(cfg, s, t);
    PendingUpdate(s.threads, t, s'.threads[t]);
    var held, time := s.granted + s.tokens, CreditedMs(t0, s);
    match s.threads[t]
    case StoreFull(_, now, since) =>
      FullStorePaid(cfg, s.tokens, now - since);
      WithinAdds(cfg, held, time, s.unpaid, cfg.maxRequests - s.tokens, now - since, 0);
    case StorePartial(_, now, since, loaded, value) =>
      PartialStorePaid(cfg, s.tokens, loaded, value, now - since);
      WithinAdds(cfg, held, time, s.unpaid, value - s.tokens, now - since, Excess(loaded, s.tokens));
    case ResetTokens(_) =>
      WithinAdds(cfg, held, time, s.unpaid, cfg.maxRequests - s.tokens, 0, cfg.maxRequests - s.tokens);
    case _ =>
      Balanced(cfg, s, t);
  }

  /** The other operations move nothing, and storing `last_refill_ms` only turns pending time into credited time. */
  lemma Balanced(cfg: B.Config, s: State, t: nat)
    requires t < |s.threads| && Capped(cfg, s)
    requires var pc := s.threads[t]; !pc.StoreFull? && !pc.StorePartial? && !pc.ResetTokens?
    ensures var s' := Advanced(cfg, s, t);
            && s'.granted + s'.tokens == s.granted + s.tokens && s'.unpaid == s.unpaid
            && s'.lastRefillMs + s'.doubleMs + OwedMs(s'.threads[t]) == s.lastRefillMs + s.doubleMs + OwedMs(s.threads[t])
  {
  }

  lemma StepAccounted(cfg: B.Config, t0: u64, s: State, e: Event)
    requires Capped(cfg, s) && AllEarned(cfg, s) && Accounted(cfg, t0, s)
    ensures Accounted(cfg, t0, Step(cfg, s, e))
  {
    if e.thread < |s.threads| {
      if e.Advance? {
        AdvancedAccounted(cfg, t0, s, e.thread);
      } else {
        var s' := Step(cfg, s, e);
        PendingUpdate(s.threads, e.thread, s'.threads[e.thread]);
        assert s'.threads == s.threads[e.thread := s'.threads[e.thread]];
      }
    }
  }

  /**
   The rate bound in every interleaving of any number of acquires, polls and resets, for any clock
   readings, with its two excess terms: time that overlapping refills credited more than once, and tokens
   put back that no time paid for.
   */
  lemma {:induction false} EveryInterleavingAccounted(cfg: B.Config, t0: u64, threads: nat, events: seq<Event>)
    ensures var s := Run(cfg, Init(cfg, t0, threads), events); AllEarned(cfg, s) && Accounted(cfg, t0, s)
  {
    if events == [] {
      NothingPending(Init(cfg, t0, threads).threads);
    } else {
      var n := |events| - 1;
      EveryInterleavingAccounted(cfg, t0, threads, events[..n]);
      EveryInterleavingSafe(cfg, t0, threads, events[..n]);
      var s := Run(cfg, Init(cfg, t0, threads), events[..n]);
      StepEarned(cfg, s, events[n]);
      StepAccounted(cfg, t0, s, events[n]);
    }
  }

  /** Once no refill is between its two stores, the excess terms are all that separates a run from the sequential bound. */
  lemma ExcessBound(cfg: B.Config, t0: u64, threads: nat, events: seq<Event>)
    requires var s := Run(cfg, Init(cfg, t0, threads), events);
             forall t | 0 <= t < |s.threads| :: !s.threads[t].StoreLast?
    ensures var s := Run(cfg, Init(cfg, t0, threads), events);
            cfg.windowMs * (s.granted + s.tokens)
            <= cfg.maxRequests * (cfg.windowMs + s.lastRefillMs - t0 + s.doubleMs) + cfg.windowMs * s.unpaid
  {
    EveryInterleavingAccounted(cfg, t0, threads, events);
    NothingPending(Run(cfg, Init(cfg, t0, threads), events).threads);
  }

  // ---------------------------------------------------------------------------------------------
  // Refills that do not collide
  // ---------------------------------------------------------------------------------------------

  /** Between deciding to refill and having stored the new `last_refill_ms`. */
  predicate MidRefill(pc: Pc) {
    pc.StoreFull? || pc.LoadTokens? || pc.StorePartial? || pc.StoreLast?
  }

  /** Another thread than `t` is in the middle of a refill. */
  ghost predicate OtherRefill(s: State, t: nat) {
    exists u | 0 <= u < |s.threads| :: u != t && MidRefill(s.threads[u])
  }

  /** Another thread than `t` has loaded `tokens` for a partial refill and not yet stored the sum. */
  ghost predicate OtherLoaded(s: State, t: nat) {
    exists u | 0 <= u < |s.threads| :: u != t && s.threads[u].StorePartial?
  }

  /** The step does not decide on a refill while another one is under way. */
  ghost predicate NoSecondRefill(cfg: B.Config, s: State, e: Event) {
    e.Advance? && e.thread < |s.threads| && s.threads[e.thread].LoadLast? && OtherRefill(s, e.thread) ==>
      var pc := s.threads[e.thread];
      !MidRefill(AfterLoadLast(cfg, s.lastRefillMs, pc.req, pc.now))
  }

  /** The step takes no tokens between another thread's load of `tokens` for a refill and its store. */
  ghost predicate NoForgottenTake(s: State, e: Event) {
    e.Advance? && e.thread < |s.threads| && s.threads[e.thread].Exchange? && OtherLoaded(s, e.thread) ==>
      var pc := s.threads[e.thread];
      pc.current != s.tokens || pc.count == 0
  }

  ghost predicate EachRefillAlone(cfg: B.Config, s: State, events: seq<Event>) {
    events == [] ||
    var init := events[..|events| - 1];
    EachRefillAlone(cfg, s, init) && NoSecondRefill(cfg, Run(cfg, s, init), events[|events| - 1])
  }

  ghost predicate NoTakeForgotten(cfg: B.Config, s: State, events: seq<Event>) {
    events == [] ||
    var init := events[..|events| - 1];
    NoTakeForgotten(cfg, s, init) && NoForgottenTake(Run(cfg, s, init), events[|events| - 1])
  }

  /**
   No excess: at most one refill is under way, `last_refill_ms` is what it read, and if it has loaded
   `tokens` they are what it loaded.
   */
  ghost predicate Tidy(t0: u64, s: State) {
    && s.unpaid == 0 && s.doubleMs == 0 && t0 <= s.lastRefillMs
    && (forall t | 0 <= t < |s.threads| :: !s.threads[t].ResetTokens? && !s.threads[t].ResetLast?)
    && (forall t, u | 0 <= t < |s.threads| && 0 <= u < |s.threads| && MidRefill(s.threads[t]) && MidRefill(s.threads[u]) :: t == u)
    && (forall t | 0 <= t < |s.threads| && MidRefill(s.threads[t]) :: Current(s, s.threads[t]))
  }

  ghost predicate Current(s: State, pc: Pc)
    requires MidRefill(pc)
  {
    pc.since == s.lastRefillMs && (pc.StorePartial? ==> pc.loaded == s.tokens)
  }

  lemma AdvancedTidy(cfg: B.Config, s: State, t: nat)
    requires t < |s.threads| && !s.threads[t].ResetTokens? && !s.threads[t].ResetLast?
    requires MidRefill(s.threads[t]) ==> Current(s, s.threads[t])
    requires Earned(cfg, s.threads[t])
    ensures var s' := Advanced(cfg, s, t);
            && s'.unpaid == s.unpaid && s'.doubleMs == s.doubleMs && s.lastRefillMs <= s'.lastRefillMs
            && !s'.threads[t].ResetTokens? && !s'.threads[t].ResetLast?
            && (MidRefill(s'.threads[t]) ==> Current(s', s'.threads[t]))
            && (!MidRefill(s.threads[t]) ==>
                  && s'.lastRefillMs == s.lastRefillMs
                  && (s'.tokens == s.tokens || (s.threads[t].Exchange? && s.threads[t].current == s.tokens && s.threads[t].count > 0)))
  {
  }

  lemma StepTidy(cfg: B.Config, t0: u64, s: State, e: Event)
    requires AllEarned(cfg, s) && Tidy(t0, s) && !e.BeginReset?
    requires NoSecondRefill(cfg, s, e) && NoForgottenTake(s, e)
    ensures Tidy(t0, Step(cfg, s, e))
  {
    if e.thread < |s.threads| {
      var t, s' := e.thread, Step(cfg, s, e);
      if e.Advance? {
        AdvancedTidy(cfg, s, t);
        OnlyMover(cfg, s, t);
        assert forall u | 0 <= u < |s.threads| && u != t && MidRefill(s.threads[u]) ::
            OtherRefill(s, t) && !MidRefill(s.threads[t]) && !MidRefill(s'.threads[t]);
        forall u | 0 <= u < |s.threads| && u != t && MidRefill(s.threads[u])
          ensures Current(s', s'.threads[u])
        {
          assert s.threads[u].StorePartial? ==> OtherLoaded(s, t);
        }
      }
    }
  }

  /** Both excess terms are zero throughout. */
  lemma {:induction false} NonCollidingRefillsTidy(cfg: B.Config, t0: u64, threads: nat, events: seq<Event>)
    requires NoReset(events)
    requires EachRefillAlone(cfg, Init(cfg, t0, threads), events) && NoTakeForgotten(cfg, Init(cfg, t0, threads), events)
    ensures Tidy(t0, Run(cfg, Init(cfg, t0, threads), events))
  {
    if events != [] {
      var n := |events| - 1;
      NonCollidingRefillsTidy(cfg, t0, threads, events[..n]);
      EveryInterleavingAccounted(cfg, t0, threads, events[..n]);
      StepTidy(cfg, t0, Run(cfg, Init(cfg, t0, threads), events[..n]), events[n]);
    }
  }

  /**
   The rate bound survives any interleaving in which refills do not overlap each other and no tokens are
   taken between a partial refill's load of `tokens` and its store; loads, counts, rejections and all other
   exchanges may happen at any point of a refill.
   `OverlapBreaksRateBound` and `DoubleRefillBreaksRateBound` show that neither condition can be dropped.
   */
  lemma NonCollidingRefillsKeepRateBound(cfg: B.Config, t0: u64, threads: nat, events: seq<Event>)
    requires NoReset(events)
    requires EachRefillAlone(cfg, Init(cfg, t0, threads), events) && NoTakeForgotten(cfg, Init(cfg, t0, threads), events)
    ensures var s := Run(cfg, Init(cfg, t0, threads), events);
            && t0 <= s.lastRefillMs
            && ((forall t | 0 <= t < |s.threads| :: !s.threads[t].StoreLast?) ==>
                  cfg.windowMs * (s.granted + s.tokens) <= cfg.maxRequests * (cfg.windowMs + s.lastRefillMs - t0))
  {
    NonCollidingRefillsTidy(cfg, t0, threads, events);
    var s := Run(cfg, Init(cfg, t0, threads), events);
    if forall t | 0 <= t < |s.threads| :: !s.threads[t].StoreLast? {
      ExcessBound(cfg, t0, threads, events);
    }
  }

  // ---------------------------------------------------------------------------------------------
  // Overlapping refills
  // ---------------------------------------------------------------------------------------------

  /** Two requests every two milliseconds. */
  const TWO_PER_TWO: B.Config := B.Config(2, 2)

  /** Two threads that start with a full bucket at time 0. */
  const START: State := State(2, 0, 0, 0, 0, 0, 0, 0, 0, [Idle, Idle])

  /** The part of a state that matters here. */
  predicate Shows(s: State, tokens: u32, granted: nat, last: u64, first: Pc, second: Pc) {
    s.tokens == tokens && s.granted == granted && s.lastRefillMs == last && s.threads == [first, second]
  }

  /** One more event at the end of a run, with the conditions on the run kept if they hold of the event. */
  lemma Extend(events: seq<Event>, e: Event) returns (longer: seq<Event>)
    requires NoReset(events) && !e.BeginReset?
    ensures NoReset(longer) && Run(TWO_PER_TWO, START, longer) == Step(TWO_PER_TWO, Run(TWO_PER_TWO, START, events), e)
    ensures EachRefillAlone(TWO_PER_TWO, START, events) && NoSecondRefill(TWO_PER_TWO, Run(TWO_PER_TWO, START, events), e)
        ==> EachRefillAlone(TWO_PER_TWO, START, longer)
    ensures NoTakeForgotten(TWO_PER_TWO, START, events) && NoForgottenTake(Run(TWO_PER_TWO, START, events), e)
        ==> NoTakeForgotten(TWO_PER_TWO, START, longer)
  {
    longer := events + [e];
    assert longer[..|longer| - 1] == events;
  }

  /** More than the rate bound allows, with every call returned. */
  ghost predicate Broken(cfg: B.Config, s: State) {
    && s.threads == [Idle, Idle]
    && cfg.windowMs * (s.granted + s.tokens) > cfg.maxRequests * (cfg.windowMs + s.lastRefillMs)
  }

  lemma Starts()
    ensures START == Init(TWO_PER_TWO, 0, 2) && B.Fits(TWO_PER_TWO)
    ensures B.TokensToAdd(TWO_PER_TWO, 0) == 0 && B.TokensToAdd(TWO_PER_TWO, 1) == 1
  {
    assert Init(TWO_PER_TWO, 0, 2).threads == [Idle, Idle];
  }

  /**
   The sequential rate bound does not survive overlap.  A poll that has loaded `tokens` for its refill
   stores the sum after another thread's acquire, which is thereby forgotten; the bound is still broken
   once both calls have returned.  There is only one refill.
   */
  lemma OverlapBreaksRateBound() returns (cfg: B.Config, events: seq<Event>)
    ensures 0 < cfg.windowMs && B.Fits(cfg) && NoReset(events)
    ensures EachRefillAlone(cfg, Init(cfg, 0, 2), events)
    ensures Broken(cfg, Run(cfg, Init(cfg, 0, 2), events))
  {
    cfg := TWO_PER_TWO;
    Starts();
    events := PollLoads();
    events := AcquireLoads(events);
    events := StoreForgets(events);
    events := PollReturns(events);
  }

  ghost predicate OneRefill(events: seq<Event>, tokens: u32, granted: nat, last: u64, first: Pc, second: Pc) {
    && NoReset(events) && EachRefillAlone(TWO_PER_TWO, START, events)
    && Shows(Run(TWO_PER_TWO, START, events), tokens, granted, last, first, second)
  }

  /** Thread 1 reads the clock at 1, finds one token due and loads a full bucket. */
  lemma PollLoads() returns (events: seq<Event>)
    ensures OneRefill(events, 2, 0, 0, Idle, StorePartial(Poll, 1, 0, 2, 2))
  {
    Starts();
    events := Extend([], Begin(1, Poll, 1));
    assert OneRefill(events, 2, 0, 0, Idle, LoadLast(Poll, 1));
    events := Extend(events, Advance(1));
    assert OneRefill(events, 2, 0, 0, Idle, LoadTokens(Poll, 1, 0, 1));
    events := Extend(events, Advance(1));
  }

  /** Thread 0 loads the same full bucket for its acquire. */
  lemma AcquireLoads(events: seq<Event>) returns (longer: seq<Event>)
    requires OneRefill(events, 2, 0, 0, Idle, StorePartial(Poll, 1, 0, 2, 2))
    ensures OneRefill(longer, 2, 0, 0, Exchange(2, 2), StorePartial(Poll, 1, 0, 2, 2))
  {
    Starts();
    longer := Extend(events, Begin(0, Acquire(2), 0));
    assert OneRefill(longer, 2, 0, 0, LoadLast(Acquire(2), 0), StorePartial(Poll, 1, 0, 2, 2));
    longer := Extend(longer, Advance(0));
    assert OneRefill(longer, 2, 0, 0, LoadCurrent(Acquire(2)), StorePartial(Poll, 1, 0, 2, 2));
    longer := Extend(longer, Advance(0));
  }

  /** The acquire empties the bucket and thread 1 stores it back full. */
  lemma StoreForgets(events: seq<Event>) returns (longer: seq<Event>)
    requires OneRefill(events, 2, 0, 0, Exchange(2, 2), StorePartial(Poll, 1, 0, 2, 2))
    ensures OneRefill(longer, 2, 2, 0, Idle, StoreLast(Poll, 1, 0))
  {
    longer := Extend(events, Advance(0));
    assert OneRefill(longer, 0, 2, 0, CountAcquired, StorePartial(Poll, 1, 0, 2, 2));
    longer := Extend(longer, Advance(1));
    assert OneRefill(longer, 2, 2, 0, CountAcquired, StoreLast(Poll, 1, 0));
    longer := Extend(longer, Advance(0));
  }

  lemma PollReturns(events: seq<Event>) returns (longer: seq<Event>)
    requires OneRefill(events, 2, 2, 0, Idle, StoreLast(Poll, 1, 0))
    ensures OneRefill(longer, 2, 2, 1, Idle, Idle)
  {
    longer := Extend(events, Advance(1));
    assert OneRefill(longer, 2, 2, 1, Idle, CountRefill(Poll));
    longer := Extend(longer, Advance(1));
    assert OneRefill(longer, 2, 2, 1, Idle, LoadCurrent(Poll));
    longer := Extend(longer, Advance(1));
  }

  /**
   Nor does it survive two refills at once, even if no acquire is in sight of them: both threads find one
   token due for the same millisecond and both add it.
   */
  lemma DoubleRefillBreaksRateBound() returns (cfg: B.Config, events: seq<Event>)
    ensures 0 < cfg.windowMs && B.Fits(cfg) && NoReset(events)
    ensures NoTakeForgotten(cfg, Init(cfg, 0, 2), events)
    ensures Broken(cfg, Run(cfg, Init(cfg, 0, 2), events))
  {
    cfg := TWO_PER_TWO;
    Starts();
    events := AcquireAll();
    events := BothDecide(events);
    events := FirstAdds(events);
    events := SecondAdds(events);
    events := BothReturn(events);
  }

  ghost predicate NoneForgotten(events: seq<Event>, tokens: u32, granted: nat, last: u64, first: Pc, second: Pc) {
    && NoReset(events) && NoTakeForgotten(TWO_PER_TWO, START, events)
    && Shows(Run(TWO_PER_TWO, START, events), tokens, granted, last, first, second)
  }

  /** Thread 0 takes the whole bucket at time 0. */
  lemma AcquireAll() returns (events: seq<Event>)
    ensures NoneForgotten(events, 0, 2, 0, Idle, Idle)
  {
    Starts();
    events := Extend([], Begin(0, Acquire(2), 0));
    assert NoneForgotten(events, 2, 0, 0, LoadLast(Acquire(2), 0), Idle);
    events := Extend(events, Advance(0));
    assert NoneForgotten(events, 2, 0, 0, LoadCurrent(Acquire(2)), Idle);
    events := Extend(events, Advance(0));
    events := Emptied(events);
  }

  lemma Emptied(events: seq<Event>) returns (longer: seq<Event>)
    requires NoneForgotten(events, 2, 0, 0, Exchange(2, 2), Idle)
    ensures NoneForgotten(longer, 0, 2, 0, Idle, Idle)
  {
    longer := Extend(events, Advance(0));
    assert NoneForgotten(longer, 0, 2, 0, CountAcquired, Idle);
    longer := Extend(longer, Advance(0));
  }

  /** Both threads poll at time 1 and find one token due. */
  lemma BothDecide(events: seq<Event>) returns (longer: seq<Event>)
    requires NoneForgotten(events, 0, 2, 0, Idle, Idle)
    ensures NoneForgotten(longer, 0, 2, 0, LoadTokens(Poll, 1, 0, 1), LoadTokens(Poll, 1, 0, 1))
  {
    Starts();
    longer := Extend(events, Begin(0, Poll, 1));
    longer := Extend(longer, Begin(1, Poll, 1));
    assert NoneForgotten(longer, 0, 2, 0, LoadLast(Poll, 1), LoadLast(Poll, 1));
    longer := Extend(longer, Advance(0));
    longer := Extend(longer, Advance(1));
  }

  lemma FirstAdds(events: seq<Event>) returns (longer: seq<Event>)
    requires NoneForgotten(events, 0, 2, 0, LoadTokens(Poll, 1, 0, 1), LoadTokens(Poll, 1, 0, 1))
    ensures NoneForgotten(longer, 1, 2, 1, CountRefill(Poll), LoadTokens(Poll, 1, 0, 1))
  {
    longer := Extend(events, Advance(0));
    assert NoneForgotten(longer, 0, 2, 0, StorePartial(Poll, 1, 0, 0, 1), LoadTokens(Poll, 1, 0, 1));
    longer := Extend(longer, Advance(0));
    assert NoneForgotten(longer, 1, 2, 0, StoreLast(Poll, 1, 0), LoadTokens(Poll, 1, 0, 1));
    longer := Extend(longer, Advance(0));
  }

  lemma SecondAdds(events: seq<Event>) returns (longer: seq<Event>)
    requires NoneForgotten(events, 1, 2, 1, CountRefill(Poll), LoadTokens(Poll, 1, 0, 1))
    ensures NoneForgotten(longer, 2, 2, 1, CountRefill(Poll), CountRefill(Poll))
  {
    longer := Extend(events, Advance(1));
    assert NoneForgotten(longer, 1, 2, 1, CountRefill(Poll), StorePartial(Poll, 1, 0, 1, 2));
    longer := Extend(longer, Advance(1));
    assert NoneForgotten(longer, 2, 2, 1, CountRefill(Poll), StoreLast(Poll, 1, 0));
    longer := Extend(longer, Advance(1));
  }

  lemma BothReturn(events: seq<Event>) returns (longer: seq<Event>)
    requires NoneForgotten(events, 2, 2, 1, CountRefill(Poll), CountRefill(Poll))
    ensures NoneForgotten(longer, 2, 2, 1, Idle, Idle)
  {
    longer := Extend(events, Advance(0));
    assert NoneForgotten(longer, 2, 2, 1, LoadCurrent(Poll), CountRefill(Poll));
    longer := Extend(longer, Advance(0));
    longer := SecondReturns(longer);
  }

  lemma SecondReturns(events: seq<Event>) returns (longer: seq<Event>)
    requires NoneForgotten(events, 2, 2, 1, Idle, CountRefill(Poll))
    ensures NoneForgotten(longer, 2, 2, 1, Idle, Idle)
  {
    longer := Extend(events, Advance(1));
    assert NoneForgotten(longer, 2, 2, 1, Idle, LoadCurrent(Poll));
    longer := Extend(longer, Advance(1));
  }
}
