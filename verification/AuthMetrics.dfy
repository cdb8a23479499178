/**
 The authentication counters of src/auth/metrics.rs.

 `Counters` and the class are the sequential reading; the machine below interleaves the atomic
 operations of any number of recording threads.
 */
module AuthMetrics {
  import opened Machine

  datatype Counters = Counters(total: u64, successful: u64, failed: u64, validationErrors: u64, outcomes: u64)

  const ZERO: Counters := Counters(0, 0, 0, 0, 0)

  datatype Outcome = Success | Failure

  function RecordAttempt(c: Counters): Counters {
    c.(total := SaturatingInc(c.total))
  }

  /** One outcome: skipped when as many outcomes as attempts are already recorded. */
  function RecordOutcome(c: Counters, o: Outcome): Counters {
    if c.outcomes >= c.total then c
    else
      var d := c.(outcomes := SaturatingInc(c.outcomes));
      match o
      case Success => d.(successful := SaturatingInc(d.successful))
      case Failure => d.(failed := SaturatingInc(d.failed))
  }

  /** The verdict of `validate` on four counter readings. */
  predicate Validate(total: u64, outcomes: u64, successful: u64, failed: u64) {
    Min(successful + failed, U64_MAX) <= outcomes <= total
  }

  // ---------------------------------------------------------------------------------------------
  // The collector object
  // ---------------------------------------------------------------------------------------------

  class Collector {
    var total: u64
    var successful: u64
    var failed: u64
    var validationErrors: u64
    var outcomes: u64

    ghost function State(): Counters
      reads this
    {
      Counters(total, successful, failed, validationErrors, outcomes)
    }

    constructor ()
      ensures State() == ZERO
    {
      total, successful, failed, validationErrors, outcomes := 0, 0, 0, 0, 0;
    }

    method RecordAttemptCall()
      modifies this
      ensures State() == RecordAttempt(old(State()))
    {
      total := IncrementUntilStored(total, []);
    }

    method RecordOutcomeIfAllowed() returns (allowed: bool)
      modifies this`outcomes
      ensures allowed <==> old(outcomes) < total
      ensures outcomes == if allowed then old(outcomes) + 1 else old(outcomes)
    {
      var limit := total;
      var current := outcomes;
      if current >= limit {
        return false;
      }
      outcomes := SaturatingInc(current);
      return true;
    }

    method RecordOutcomeCall(o: Outcome)
      modifies this
      ensures State() == RecordOutcome(old(State()), o)
    {
      var allowed := RecordOutcomeIfAllowed();
      if !allowed {
        return;
      }
      match o
      case Success => successful := IncrementUntilStored(successful, []);
      case Failure => failed := IncrementUntilStored(failed, []);
    }

    /** Zero every counter. */
    method Clear()
      modifies this
      ensures State() == ZERO
    {
      total, successful, failed, validationErrors, outcomes := 0, 0, 0, 0, 0;
    }

    method ValidateCall() returns (ok: bool)
      ensures ok <==> Validate(total, outcomes, successful, failed)
    {
      var completed := if successful + failed > U64_MAX then U64_MAX else successful + failed;
      if completed > outcomes {
        return false;
      }
      return outcomes <= total;
    }
  }

  /**
   `saturating_increment` on one counter.  `rivals` are the values that other threads have left there
   when each exchange is tried; the result is what this thread's exchange stores, one more than the
   last value seen, unless that is already the maximum.
   */
  method IncrementUntilStored(loaded: u64, rivals: seq<u64>) returns (stored: u64)
    ensures stored == SaturatingInc(loaded) || exists i | 0 <= i < |rivals| :: stored == SaturatingInc(rivals[i])
    ensures rivals == [] ==> stored == SaturatingInc(loaded)
  {
    var current := loaded;
    var i := 0;
    while current != U64_MAX
      invariant 0 <= i <= |rivals|
      invariant current == loaded || exists k | 0 <= k < i :: current == rivals[k]
      decreases |rivals| - i
    {
      var next := SaturatingInc(current);
      if i < |rivals| && rivals[i] != current {
        current := rivals[i];
        i := i + 1;
      } else {
        return next;
      }
    }
    return current;
  }

  // ---------------------------------------------------------------------------------------------
  // Interleavings
  // ---------------------------------------------------------------------------------------------

  datatype Counter = Total | ValidationErrors | Recorded(outcome: Outcome)

  /** The atomic operation a thread performs next. */
  datatype Pc =
    | Idle
    | LoadCounter(counter: Counter)
    | CasCounter(counter: Counter, current: u64)
    | LoadTotal(outcome: Outcome)
    | LoadOutcomes(outcome: Outcome, limit: u64)
    | CasOutcomes(outcome: Outcome, limit: u64, current: u64)

  datatype State = State(counters: Counters, threads: seq<Pc>)

  /** `spurious` lets the weak exchange inside `fetch_update` fail for no reason. */
  datatype Event =
    | BeginAttempt(thread: nat)
    | BeginValidationError(thread: nat)
    | BeginOutcome(thread: nat, outcome: Outcome)
    | Advance(thread: nat, spurious: bool)

  function Read(c: Counters, k: Counter): u64 {
    match k
    case Total => c.total
    case ValidationErrors => c.validationErrors
    case Recorded(Success) => c.successful
    case Recorded(Failure) => c.failed
  }

  function Write(c: Counters, k: Counter, v: u64): Counters {
    match k
    case Total => c.(total := v)
    case ValidationErrors => c.(validationErrors := v)
    case Recorded(Success) => c.(successful := v)
    case Recorded(Failure) => c.(failed := v)
  }

  /** The loop test of `saturating_increment`: give up at the maximum, otherwise try the exchange. */
  function Retry(k: Counter, current: u64): Pc {
    if current == U64_MAX then Idle else CasCounter(k, current)
  }

  /** The closure of `fetch_update`. */
  function Gate(o: Outcome, limit: u64, current: u64): Pc {
    if current >= limit then Idle else CasOutcomes(o, limit, current)
  }

  function Advanced(s: State, t: nat, spurious: bool): State
    requires t < |s.threads|
  {
    var c := s.counters;
    match s.threads[t]
    case Idle => s
    case LoadCounter(k) => s.(threads := s.threads[t := Retry(k, Read(c, k))])
    case CasCounter(k, current) =>
      if Read(c, k) == current then State(Write(c, k, SaturatingInc(current)), s.threads[t := Idle])
      else s.(threads := s.threads[t := Retry(k, Read(c, k))])
    case LoadTotal(o) => s.(threads := s.threads[t := LoadOutcomes(o, c.total)])
    case LoadOutcomes(o, limit) => s.(threads := s.threads[t := Gate(o, limit, c.outcomes)])
    case CasOutcomes(o, limit, current) =>
      if c.outcomes == current && !spurious then
        State(c.(outcomes := SaturatingInc(current)), s.threads[t := LoadCounter(Recorded(o))])
      else s.(threads := s.threads[t := Gate(o, limit, c.outcomes)])
  }

  function Step(s: State, e: Event): State {
    if e.thread >= |s.threads| then s
    else if e.Advance? then Advanced(s, e.thread, e.spurious)
    else if !s.threads[e.thread].Idle? then s
    else
      var pc := match e
        case BeginAttempt(_) => LoadCounter(Total)
        case BeginValidationError(_) => LoadCounter(ValidationErrors)
        case BeginOutcome(_, o) => LoadTotal(o)
        case Advance(_, _) => Idle;
      s.(threads := s.threads[e.thread := pc])
  }

  function Run(s: State, events: seq<Event>): State {
    if events == [] then s else Step(Run(s, events[..|events| - 1]), events[|events| - 1])
  }

  function Init(threads: nat): State {
    State(ZERO, seq(threads, _ => Idle))
  }

  /** Past the gate, not yet counted as a success or a failure. */
  predicate PastGate(pc: Pc) {
    (pc.LoadCounter? || pc.CasCounter?) && pc.counter.Recorded?
  }

  ghost function Between(threads: seq<Pc>): set<nat> {
    Where(threads, PastGate)
  }

  ghost predicate Balanced(s: State) {
    && s.counters.successful + s.counters.failed + |Between(s.threads)| == s.counters.outcomes
    && s.counters.outcomes <= s.counters.total
    && forall t | 0 <= t < |s.threads| :: Sensible(s.threads[t], s.counters.total)
  }

  /** No thread compares against more attempts than there are, or tries to pass the maximum. */
  predicate Sensible(pc: Pc, total: u64) {
    && (pc.LoadOutcomes? || pc.CasOutcomes? ==> pc.limit <= total)
    && (pc.CasOutcomes? ==> pc.current < pc.limit)
    && (pc.CasCounter? ==> pc.current < U64_MAX)
  }

  /** A thread past the gate never meets a saturated counter, so its outcome is not lost. */
  lemma RoomToRecord(s: State, t: nat)
    requires Balanced(s) && t < |s.threads| && PastGate(s.threads[t])
    ensures s.counters.successful < U64_MAX && s.counters.failed < U64_MAX
  {
    assert t in Between(s.threads);
    assert Between(s.threads) != {};
  }

  lemma StepBalanced(s: State, e: Event)
    requires Balanced(s)
    ensures Balanced(Step(s, e))
    ensures s.counters.total <= Step(s, e).counters.total && s.counters.outcomes <= Step(s, e).counters.outcomes
    ensures s.counters.successful <= Step(s, e).counters.successful
    ensures s.counters.failed <= Step(s, e).counters.failed
  {
    if e.thread < |s.threads| {
      var s' := Step(s, e);
      WhereUpdate(s.threads, PastGate, e.thread, s'.threads[e.thread]);
      if PastGate(s.threads[e.thread]) {
        RoomToRecord(s, e.thread);
      }
      assert s'.threads == s.threads[e.thread := s'.threads[e.thread]];
    }
  }

  /**
   In every interleaving of threads recording attempts, validation errors, successes and failures,
   although the gate compares against a total that may be stale:
   successes + failures + threads past the gate == outcomes <= attempts.
   */
  lemma {:induction false} EveryInterleavingBalanced(threads: nat, events: seq<Event>)
    ensures Balanced(Run(Init(threads), events))
  {
    if events == [] {
      assert Between(Init(threads).threads) == {};
    } else {
      EveryInterleavingBalanced(threads, events[..|events| - 1]);
      StepBalanced(Run(Init(threads), events[..|events| - 1]), events[|events| - 1]);
    }
  }

  /** Once every thread is idle, nothing that passed the gate is missing from the two counters. */
  lemma QuiescentExact(threads: nat, events: seq<Event>)
    requires forall t | 0 <= t < |Run(Init(threads), events).threads| :: Run(Init(threads), events).threads[t].Idle?
    ensures var c := Run(Init(threads), events).counters;
            c.successful + c.failed == c.outcomes <= c.total
  {
    EveryInterleavingBalanced(threads, events);
    assert Between(Run(Init(threads), events).threads) == {};
  }

  lemma {:induction false} RunMonotone(s: State, events: seq<Event>)
    requires Balanced(s)
    ensures var s' := Run(s, events);
            && Balanced(s')
            && s.counters.total <= s'.counters.total && s.counters.outcomes <= s'.counters.outcomes
            && s.counters.successful <= s'.counters.successful && s.counters.failed <= s'.counters.failed
  {
    if events != [] {
      RunMonotone(s, events[..|events| - 1]);
      StepBalanced(Run(s, events[..|events| - 1]), events[|events| - 1]);
    }
  }

  /** The verdict of a `validate` whose four loads happen in four states of a run, in its load order. */
  predicate ValidateAcross(s1: State, s2: State, s3: State, s4: State) {
    Validate(s1.counters.total, s2.counters.outcomes, s3.counters.successful, s4.counters.failed)
  }

  // ---------------------------------------------------------------------------------------------
  // A call that runs alone
  // ---------------------------------------------------------------------------------------------

  /** `k` further atomic operations of thread `t`, none failing spuriously. */
  function Advances(s: State, t: nat, k: nat): State
    decreases k
  {
    if k == 0 then s else Advances(Step(s, Advance(t, false)), t, k - 1)
  }

  lemma {:induction false} AdvancesAdd(s: State, t: nat, j: nat, k: nat)
    ensures Advances(Advances(s, t, j), t, k) == Advances(s, t, j + k)
    decreases j
  {
    if j > 0 {
      AdvancesAdd(Step(s, Advance(t, false)), t, j - 1, k);
    }
  }

  /** An increment that no other thread interrupts is the saturating increment of its counter. */
  lemma IncrementAlone(s: State, t: nat, k: Counter) returns (n: nat)
    requires t < |s.threads| && s.threads[t] == LoadCounter(k)
    ensures Advances(s, t, n) == State(Write(s.counters, k, SaturatingInc(Read(s.counters, k))), s.threads[t := Idle])
  {
    var s1 := Step(s, Advance(t, false));
    if Read(s.counters, k) == U64_MAX {
      n := 1;
      assert Advances(s, t, 1) == Advances(s1, t, 0) == s1;
    } else {
      n := 2;
      var s2 := Step(s1, Advance(t, false));
      assert Advances(s, t, 2) == Advances(s1, t, 1) == Advances(s2, t, 0) == s2;
    }
  }

  /** An attempt or a validation error recorded by a thread that runs alone. */
  lemma AttemptAlone(s: State, t: nat, valid: bool) returns (n: nat)
    requires t < |s.threads| && s.threads[t] == Idle
    ensures Advances(Step(s, if valid then BeginAttempt(t) else BeginValidationError(t)), t, n) ==
            s.(counters := if valid then RecordAttempt(s.counters)
                           else s.counters.(validationErrors := SaturatingInc(s.counters.validationErrors)))
  {
    var s1 := Step(s, if valid then BeginAttempt(t) else BeginValidationError(t));
    n := IncrementAlone(s1, t, if valid then Total else ValidationErrors);
    assert s1.threads[t := Idle] == s.threads;
  }

  /** An outcome recorded by a thread that runs alone is the sequential call: gate first, then the counter asked for. */
  lemma OutcomeAlone(s: State, t: nat, o: Outcome) returns (n: nat)
    requires t < |s.threads| && s.threads[t] == Idle
    ensures Advances(Step(s, BeginOutcome(t, o)), t, n) == s.(counters := RecordOutcome(s.counters, o))
  {
    var s1 := Step(s, BeginOutcome(t, o));
    var s2 := Step(s1, Advance(t, false));
    var s3 := Step(s2, Advance(t, false));
    assert Advances(s1, t, 2) == Advances(s2, t, 1) == Advances(s3, t, 0) == s3;
    if s.counters.outcomes >= s.counters.total {
      n := 2;
      assert s3.threads == s.threads;
    } else {
      var s4 := Step(s3, Advance(t, false));
      assert Advances(s3, t, 1) == Advances(s4, t, 0) == s4;
      AdvancesAdd(s1, t, 2, 1);
      var k := IncrementAlone(s4, t, Recorded(o));
      AdvancesAdd(s1, t, 3, k);
      n := 3 + k;
      assert s4.threads[t := Idle] == s.threads;
    }
  }

  // ---------------------------------------------------------------------------------------------
  // Everything lands on the counter it was meant for
  // ---------------------------------------------------------------------------------------------

  /** The outcome thread `t` was last asked to record, read off the events alone. */
  function Asked(s: State, events: seq<Event>, t: nat): Option<Outcome> {
    if events == [] then None
    else
      var n := |events| - 1;
      var g, e := Run(s, events[..n]), events[n];
      if e.thread == t && t < |g.threads| && g.threads[t].Idle? && !e.Advance? then
        if e.BeginOutcome? then Some(e.outcome) else None
      else Asked(s, events[..n], t)
  }

  function OutcomeOf(pc: Pc): Option<Outcome> {
    match pc
    case LoadTotal(o) => Some(o)
    case LoadOutcomes(o, _) => Some(o)
    case CasOutcomes(o, _, _) => Some(o)
    case LoadCounter(Recorded(o)) => Some(o)
    case CasCounter(Recorded(o), _) => Some(o)
    case _ => None
  }

  /** A thread carries the outcome it was asked for until it is idle again. */
  lemma {:induction false} CarriesAsked(threads: nat, events: seq<Event>, t: nat)
    requires t < threads
    ensures var s := Run(Init(threads), events);
            |s.threads| == threads && (s.threads[t].Idle? || OutcomeOf(s.threads[t]) == Asked(Init(threads), events, t))
  {
    if events != [] {
      CarriesAsked(threads, events[..|events| - 1], t);
    }
  }

  /** The step puts a thread on its way to counter `k`: a call begun, or an outcome asked for that passes the gate. */
  predicate Sets(s: State, e: Event, asked: Option<Outcome>, k: Counter) {
    && e.thread < |s.threads|
    && match k
       case Total => e.BeginAttempt? && s.threads[e.thread].Idle?
       case ValidationErrors => e.BeginValidationError? && s.threads[e.thread].Idle?
       case Recorded(o) => Passes(s, e) && asked == Some(o)
  }

  /** How often that happens in a run. */
  function Meant(s: State, events: seq<Event>, k: Counter): nat {
    if events == [] then 0
    else
      var n := |events| - 1;
      Meant(s, events[..n], k) + Bit(Sets(Run(s, events[..n]), events[n], Asked(s, events[..n], events[n].thread), k))
  }

  function On(k: Counter): Pc -> bool {
    (pc: Pc) => (pc.LoadCounter? || pc.CasCounter?) && pc.counter == k
  }

  lemma CounterStep(s: State, e: Event, k: Counter)
    requires Read(s.counters, k) + |Where(s.threads, On(k))| <= U64_MAX
    ensures var asked := if e.thread < |s.threads| then OutcomeOf(s.threads[e.thread]) else None;
            var s' := Step(s, e);
            Read(s'.counters, k) + |Where(s'.threads, On(k))|
            == Read(s.counters, k) + |Where(s.threads, On(k))| + Bit(Sets(s, e, asked, k))
  {
    if e.thread < |s.threads| {
      var s' := Step(s, e);
      assert s'.threads == s.threads[e.thread := s'.threads[e.thread]];
      WhereUpdate(s.threads, On(k), e.thread, s'.threads[e.thread]);
      if On(k)(s.threads[e.thread]) {
        assert e.thread in Where(s.threads, On(k));
        assert Where(s.threads, On(k)) != {};
      }
    }
  }

  /**
   In every interleaving each counter is what was meant for it: the attempts, validation errors, or outcomes
   of its kind that were asked for and passed the gate are those counted and those of threads on their way.
   */
  lemma {:induction false} CountersAreMeant(threads: nat, events: seq<Event>, k: Counter)
    requires Meant(Init(threads), events, k) <= U64_MAX
    ensures var s := Run(Init(threads), events);
            Read(s.counters, k) + |Where(s.threads, On(k))| == Meant(Init(threads), events, k)
  {
    if events == [] {
      assert Where(Init(threads).threads, On(k)) == {};
    } else {
      var n := |events| - 1;
      CountersAreMeant(threads, events[..n], k);
      var s := Run(Init(threads), events[..n]);
      CounterStep(s, events[n], k);
      if events[n].thread < |s.threads| {
        ThreadCount(threads, events[..n]);
        CarriesAsked(threads, events[..n], events[n].thread);
      }
    }
  }

  lemma {:induction false} ThreadCount(threads: nat, events: seq<Event>)
    ensures |Run(Init(threads), events).threads| == threads
  {
    if events != [] {
      ThreadCount(threads, events[..|events| - 1]);
    }
  }

  /** For outcomes no bound is needed, since the gate keeps them below the attempts. */
  lemma OutcomesLand(threads: nat, events: seq<Event>, o: Outcome)
    ensures var s := Run(Init(threads), events);
            Meant(Init(threads), events, Recorded(o)) == Read(s.counters, Recorded(o)) + |Where(s.threads, On(Recorded(o)))|
  {
    MeantPassed(threads, events, o);
    EveryInterleavingBalanced(threads, []);
    RunCounts(Init(threads), events);
    CountersAreMeant(threads, events, Recorded(o));
  }

  lemma {:induction false} MeantPassed(threads: nat, events: seq<Event>, o: Outcome)
    ensures Meant(Init(threads), events, Recorded(o)) <= Passed(Init(threads), events)
  {
    if events != [] {
      MeantPassed(threads, events[..|events| - 1], o);
    }
  }

  // ---------------------------------------------------------------------------------------------
  // The gate decides once, by the total it read
  // ---------------------------------------------------------------------------------------------

  /** The total that thread `t` read at the gate first, since it was last asked for anything. */
  function LimitRead(s: State, events: seq<Event>, t: nat): Option<u64> {
    if events == [] then None
    else
      var n := |events| - 1;
      var g, e, before := Run(s, events[..n]), events[n], LimitRead(s, events[..n], t);
      if e.thread != t || t >= |g.threads| then before
      else if !e.Advance? && g.threads[t].Idle? then None
      else if e.Advance? && g.threads[t].LoadTotal? && before == None then Some(g.counters.total)
      else before
  }

  predicate AtGate(pc: Pc) { pc.LoadTotal? || pc.LoadOutcomes? || pc.CasOutcomes? }

  lemma {:induction false} CarriesLimit(threads: nat, events: seq<Event>, t: nat)
    requires t < threads
    ensures var s := Run(Init(threads), events);
            && |s.threads| == threads
            && (s.threads[t].LoadTotal? ==> LimitRead(Init(threads), events, t) == None)
            && (s.threads[t].LoadOutcomes? || s.threads[t].CasOutcomes? ==>
                  LimitRead(Init(threads), events, t) == Some(s.threads[t].limit))
  {
    if events != [] {
      CarriesLimit(threads, events[..|events| - 1], t);
    }
  }

  predicate AsksOutcome(s: State, e: Event) {
    e.BeginOutcome? && e.thread < |s.threads| && s.threads[e.thread].Idle?
  }

  /** A thread goes through while there are fewer outcomes than the total it read. */
  predicate GoesThrough(s: State, e: Event, limit: Option<u64>) {
    Passes(s, e) && limit.Some? && s.counters.outcomes < limit.value
  }

  /** A thread at the gate sees as many outcomes as the total it read. */
  predicate TurnedAway(s: State, e: Event, limit: Option<u64>) {
    && e.Advance? && e.thread < |s.threads| && (s.threads[e.thread].LoadOutcomes? || s.threads[e.thread].CasOutcomes?)
    && limit.Some? && s.counters.outcomes >= limit.value
  }

  /** Outcomes asked for, let through and turned away. */
  datatype Gated = Gated(asked: nat, through: nat, away: nat)

  function GatedBy(s: State, events: seq<Event>): Gated {
    if events == [] then Gated(0, 0, 0)
    else
      var n := |events| - 1;
      var before, g, e, limit := GatedBy(s, events[..n]), Run(s, events[..n]), events[n], LimitRead(s, events[..n], events[n].thread);
      Gated(before.asked + Bit(AsksOutcome(g, e)), before.through + Bit(GoesThrough(g, e, limit)), before.away + Bit(TurnedAway(g, e, limit)))
  }

  lemma GateStep(s: State, e: Event, limit: Option<u64>)
    requires e.thread < |s.threads| && Sensible(s.threads[e.thread], s.counters.total)
    requires var pc := s.threads[e.thread]; pc.LoadOutcomes? || pc.CasOutcomes? ==> limit == Some(pc.limit)
    ensures |Where(Step(s, e).threads, AtGate)| + Bit(GoesThrough(s, e, limit)) + Bit(TurnedAway(s, e, limit))
         == |Where(s.threads, AtGate)| + Bit(AsksOutcome(s, e))
  {
    var pc' := Step(s, e).threads[e.thread];
    assert Step(s, e).threads == s.threads[e.thread := pc'];
    WhereUpdate(s.threads, AtGate, e.thread, pc');
  }

  /**
   In every interleaving, however often exchanges fail, for a reason or for none: every outcome asked for was
   let through when there were fewer outcomes than the total its thread had read, was turned away when there
   were not, or is still at the gate.
   */
  lemma {:induction false} EveryOutcomeDecided(threads: nat, events: seq<Event>)
    ensures var s, gated := Run(Init(threads), events), GatedBy(Init(threads), events);
            gated.asked == gated.through + gated.away + |Where(s.threads, AtGate)|
  {
    if events == [] {
      assert Where(Init(threads).threads, AtGate) == {};
    } else {
      var n := |events| - 1;
      var s, e := Run(Init(threads), events[..n]), events[n];
      EveryOutcomeDecided(threads, events[..n]);
      ThreadCount(threads, events[..n]);
      if e.thread < threads {
        CarriesLimit(threads, events[..n], e.thread);
        EveryInterleavingBalanced(threads, events[..n]);
        GateStep(s, e, LimitRead(Init(threads), events[..n], e.thread));
      }
    }
  }

  // ---------------------------------------------------------------------------------------------
  // Validation
  // ---------------------------------------------------------------------------------------------

  // What the recording threads do during a run, counted step by step.

  /** The step takes a thread through the gate. */
  predicate Passes(s: State, e: Event) {
    && e.Advance? && !e.spurious && e.thread < |s.threads|
    && s.threads[e.thread].CasOutcomes? && s.threads[e.thread].current == s.counters.outcomes
  }

  /** The step counts an outcome on its side. */
  predicate Counts(s: State, e: Event, o: Outcome) {
    && e.Advance? && e.thread < |s.threads| && s.threads[e.thread].CasCounter?
    && s.threads[e.thread].counter == Recorded(o) && s.threads[e.thread].current == Read(s.counters, Recorded(o))
  }

  function Passed(s: State, events: seq<Event>): nat {
    if events == [] then 0
    else
      var init := events[..|events| - 1];
      Passed(s, init) + Bit(Passes(Run(s, init), events[|events| - 1]))
  }

  function Counted(s: State, events: seq<Event>, o: Outcome): nat {
    if events == [] then 0
    else
      var init := events[..|events| - 1];
      Counted(s, init, o) + Bit(Counts(Run(s, init), events[|events| - 1], o))
  }

  lemma StepCounts(s: State, e: Event)
    requires Balanced(s)
    ensures var c, c' := s.counters, Step(s, e).counters;
            && c'.outcomes == c.outcomes + Bit(Passes(s, e))
            && c'.successful == c.successful + Bit(Counts(s, e, Success))
            && c'.failed == c.failed + Bit(Counts(s, e, Failure))
  {
    StepBalanced(s, e);
  }

  /** The counters move by exactly what the threads do. */
  lemma {:induction false} RunCounts(s: State, events: seq<Event>)
    requires Balanced(s)
    ensures var c, c' := s.counters, Run(s, events).counters;
            && Balanced(Run(s, events))
            && c'.outcomes == c.outcomes + Passed(s, events)
            && c'.successful == c.successful + Counted(s, events, Success)
            && c'.failed == c.failed + Counted(s, events, Failure)
  {
    if events != [] {
      var n := |events| - 1;
      RunCounts(s, events[..n]);
      StepCounts(Run(s, events[..n]), events[n]);
      StepBalanced(Run(s, events[..n]), events[n]);
    }
  }

  lemma {:induction false} RunConcat(s: State, a: seq<Event>, b: seq<Event>)
    ensures Run(s, a + b) == Run(Run(s, a), b)
  {
    if b == [] {
      assert a + b == a;
    } else {
      var n := |b| - 1;
      RunConcat(s, a, b[..n]);
      assert (a + b)[..|a + b| - 1] == a + b[..n];
    }
  }

  /**
   Exactly when `validate` accepts, its four loads separated by the events `e1`, `e2` and `e3`, from any
   state the machine can be in.  No more threads may pass the gate between the first two loads than there
   were attempts without an outcome at the first; and of successes counted between the second and the third
   load and failures between the second and the fourth there may be no more than threads that were past
   the gate at the second.
   */
  lemma ValidateAcceptsIff(s1: State, e1: seq<Event>, e2: seq<Event>, e3: seq<Event>)
    requires Balanced(s1)
    ensures var s2 := Run(s1, e1);
            ValidateAcross(s1, s2, Run(s2, e2), Run(Run(s2, e2), e3)) <==>
            && Passed(s1, e1) <= s1.counters.total - s1.counters.outcomes
            && Counted(s2, e2, Success) + Counted(s2, e2 + e3, Failure) <= |Between(s2.threads)|
  {
    var s2 := Run(s1, e1);
    RunCounts(s1, e1);
    RunCounts(s2, e2);
    RunCounts(s2, e2 + e3);
    RunConcat(s2, e2, e3);
    CountersBounded(s2, e2, e3);
  }

  /** The sum `validate` forms does not saturate. */
  lemma CountersBounded(s: State, a: seq<Event>, b: seq<Event>)
    requires Balanced(s)
    ensures Run(s, a).counters.successful + Run(Run(s, a), b).counters.failed <= U64_MAX
  {
    RunMonotone(s, a);
    RunMonotone(Run(s, a), b);
  }

  /** In particular it accepts whenever no thread passes the gate between its first and its last load. */
  lemma ValidateAcceptsWithoutGate(s1: State, e1: seq<Event>, e2: seq<Event>, e3: seq<Event>)
    requires Balanced(s1)
    requires Passed(s1, e1) == 0 && Passed(Run(s1, e1), e2 + e3) == 0
    ensures ValidateAcross(s1, Run(s1, e1), Run(Run(s1, e1), e2), Run(Run(Run(s1, e1), e2), e3))
  {
    var s2 := Run(s1, e1);
    RunCounts(s1, e1);
    RunCounts(s2, e2);
    RunCounts(s2, e2 + e3);
    RunConcat(s2, e2, e3);
    RunMonotone(Run(s2, e2), e3);
    ValidateAcceptsIff(s1, e1, e2, e3);
  }

  /**
   It does reject consistent counters otherwise: an attempt and its outcome recorded between the first
   two loads make the outcomes read exceed the total read.
   */
  lemma ValidateRejectsAcrossGate() returns (s1: State, e1: seq<Event>)
    ensures s1 == Init(1) && Balanced(Run(s1, e1))
    ensures !ValidateAcross(s1, Run(s1, e1), Run(s1, e1), Run(s1, e1))
  {
    s1 := Init(1);
    var n := AttemptAlone(s1, 0, true);
    var attempt := Advancing(s1, BeginAttempt(0), 0, n);
    var s2 := Run(s1, attempt);
    n := OutcomeAlone(s2, 0, Success);
    var outcome := Advancing(s2, BeginOutcome(0, Success), 0, n);
    e1 := attempt + outcome;
    RunConcat(s1, attempt, outcome);
    EveryInterleavingBalanced(1, e1);
  }

  /** The events of a call that runs alone. */
  lemma {:induction false} Advancing(s: State, e: Event, t: nat, n: nat) returns (events: seq<Event>)
    ensures Run(s, events) == Advances(Step(s, e), t, n)
    decreases n
  {
    if n == 0 {
      events := [e];
      assert events[..0] == [];
    } else {
      var init := Advancing(s, e, t, n - 1);
      events := init + [Advance(t, false)];
      assert events[..|init|] == init;
      AdvancesAdd(Step(s, e), t, n - 1, 1);
      assert Advances(Run(s, init), t, 1) == Advances(Step(Run(s, init), Advance(t, false)), t, 0);
    }
  }
}
