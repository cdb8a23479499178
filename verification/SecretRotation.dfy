/**
 Secret rotation of src/secrets.rs: the double-buffered secret, and the fleet of instances that poll
 Vault, rotate on a change and announce it to each other.

 Times are milliseconds.  One fleet step is one await point of one instance's refresh loop; reading
 Vault and storing the value are separate steps.
 */
module SecretRotation {
  import opened Machine
  import opened Timeline

  const ROTATION_GRACE_PERIOD: int := 300_000
  const REFRESH_INTERVAL: int := 300_000

  datatype RotatingSecret = RotatingSecret(current: string, previous: Option<(string, int)>)

  function Rotate(s: RotatingSecret, value: string, now: int): RotatingSecret {
    RotatingSecret(value, Some((s.current, now)))
  }

  predicate InGrace(s: RotatingSecret, now: int) {
    s.previous.Some? && now - s.previous.value.1 < ROTATION_GRACE_PERIOD
  }

  /** `Some(true)`: the current value; `Some(false)`: the previous one in its grace period. */
  function Verify(s: RotatingSecret, candidate: string, now: int): Option<bool> {
    if candidate == s.current then Some(true)
    else if InGrace(s, now) && candidate == s.previous.value.0 then Some(false)
    else None
  }

  function ValidValues(s: RotatingSecret, now: int): seq<string> {
    [s.current] + if InGrace(s, now) then [s.previous.value.0] else []
  }

  /** The two read-only views of a secret agree. */
  lemma VerifyIffListed(s: RotatingSecret, candidate: string, now: int)
    ensures Verify(s, candidate, now).Some? <==> candidate in ValidValues(s, now)
    ensures Verify(s, candidate, now) == Some(true) <==> candidate == ValidValues(s, now)[0]
  {
  }

  /** After a rotation at `at` the new value is current, the one it displaced is good for the grace period, and no other is. */
  lemma RotationGrace(s: RotatingSecret, value: string, at: int, candidate: string, now: int)
    ensures Verify(Rotate(s, value, at), candidate, now) ==
            if candidate == value then Some(true)
            else if candidate == s.current && now < at + ROTATION_GRACE_PERIOD then Some(false)
            else None
  {
  }

  class SecretCell {
    var current: string
    var previous: Option<(string, int)>

    ghost function Value(): RotatingSecret
      reads this
    {
      RotatingSecret(current, previous)
    }

    constructor (value: string)
      ensures Value() == RotatingSecret(value, None)
    {
      current, previous := value, None;
    }

    method RotateTo(value: string, now: int)
      modifies this
      ensures Value() == Rotate(old(Value()), value, now)
    {
      var old_ := current;
      current := value;
      previous := Some((old_, now));
    }

    method VerifyCandidate(candidate: string, now: int) returns (r: Option<bool>)
      ensures r == Verify(Value(), candidate, now)
    {
      if candidate == current {
        return Some(true);
      }
      if previous.Some? && now - previous.value.1 < ROTATION_GRACE_PERIOD && candidate == previous.value.0 {
        return Some(false);
      }
      return None;
    }
  }

  // ---------------------------------------------------------------------------------------------
  // The fleet
  // ---------------------------------------------------------------------------------------------

  datatype Name = Anchor | Admin

  datatype Both<T> = Both(anchor: T, admin: T) {
    function Get(k: Name): T { if k.Anchor? then anchor else admin }
    function Set(k: Name, v: T): Both<T> { if k.Anchor? then this.(anchor := v) else this.(admin := v) }
  }

  /** Where an instance's refresh loop is.  `rotated` is the loop's `rotated_any`. */
  datatype Pc =
    | Waiting
    | Reading(name: Name, rotated: bool)
    | Storing(name: Name, rotated: bool, value: string, readAt: int)
    | Announcing

  /** `syncedAt` is a history: when Vault was read for the value last stored. */
  datatype Instance = Instance(secrets: Both<RotatingSecret>, syncedAt: Both<int>, pc: Pc, pending: nat)

  datatype Fleet = Fleet(vault: Both<string>, instances: seq<Instance>)

  datatype Event =
    | VaultWrite(name: Name, value: string)
    | Tick(i: nat)
    | Notified(i: nat)
    | Read(i: nat, ok: bool)
    | Store(i: nat)
    | Publish(i: nat, reached: set<nat>)

  /** Anchor first, then admin, then an announcement if anything rotated. */
  function NextPc(name: Name, rotated: bool): Pc {
    if name.Anchor? then Reading(Admin, rotated) else if rotated then Announcing else Waiting
  }

  function Stored(inst: Instance, now: int): Instance
    requires inst.pc.Storing?
  {
    var k := inst.pc.name;
    var s := inst.secrets.Get(k);
    var changed := s.current != inst.pc.value;
    Instance(
      if changed then inst.secrets.Set(k, Rotate(s, inst.pc.value, now)) else inst.secrets,
      inst.syncedAt.Set(k, inst.pc.readAt),
      NextPc(k, inst.pc.rotated || changed),
      inst.pending)
  }

  function Delivered(instances: seq<Instance>, reached: set<nat>): seq<Instance> {
    seq(|instances|, i requires 0 <= i < |instances| =>
      if i in reached then instances[i].(pending := instances[i].pending + 1) else instances[i])
  }

  /** The step an event makes on the instance it addresses; an event that is not enabled changes nothing. */
  function Moved(inst: Instance, vault: Both<string>, e: Event, now: int): Instance {
    match e
    case VaultWrite(_, _) => inst
    case Tick(_) => if inst.pc.Waiting? then inst.(pc := Reading(Anchor, false)) else inst
    case Notified(_) =>
      if inst.pc.Waiting? && inst.pending > 0
      then inst.(pc := Reading(Anchor, false), pending := inst.pending - 1)
      else inst
    case Read(_, ok) =>
      if !inst.pc.Reading? then inst
      else if ok then inst.(pc := Storing(inst.pc.name, inst.pc.rotated, vault.Get(inst.pc.name), now))
      else inst.(pc := NextPc(inst.pc.name, inst.pc.rotated))
    case Store(_) => if inst.pc.Storing? then Stored(inst, now) else inst
    case Publish(_, _) => if inst.pc.Announcing? then inst.(pc := Waiting) else inst
  }

  function Step(f: Fleet, e: Event, now: int): Fleet {
    if e.VaultWrite? then f.(vault := f.vault.Set(e.name, e.value))
    else if e.i >= |f.instances| then f
    else
      var moved := f.instances[e.i := Moved(f.instances[e.i], f.vault, e, now)];
      f.(instances := if e.Publish? && f.instances[e.i].pc.Announcing? then Delivered(moved, e.reached) else moved)
  }

  function Run(f: Fleet, trace: seq<Timed<Event>>): Fleet {
    if trace == [] then f
    else Step(Run(f, trace[..|trace| - 1]), trace[|trace| - 1].event, trace[|trace| - 1].at)
  }

  // ---------------------------------------------------------------------------------------------
  // Values read late enough
  // ---------------------------------------------------------------------------------------------

  ghost predicate ClockedSecret(inst: Instance, k: Name, now: int) {
    && inst.syncedAt.Get(k) <= now
    && (inst.secrets.Get(k).previous.Some? ==> inst.secrets.Get(k).previous.value.1 <= now)
  }

  /** No timestamp is from the future, and a value in flight was read after the one in place. */
  ghost predicate ClockedInstance(inst: Instance, now: int) {
    && ClockedSecret(inst, Anchor, now) && ClockedSecret(inst, Admin, now)
    && (inst.pc.Storing? ==> inst.syncedAt.Get(inst.pc.name) <= inst.pc.readAt <= now)
  }

  ghost predicate Clocked(f: Fleet, now: int) {
    forall i | 0 <= i < |f.instances| :: ClockedInstance(f.instances[i], now)
  }

  lemma StepClocked(f: Fleet, e: Event, before: int, now: int)
    requires Clocked(f, before) && before <= now
    ensures Clocked(Step(f, e, now), now) && |Step(f, e, now).instances| == |f.instances|
  {
    if !e.VaultWrite? && e.i < |f.instances| {
      MovedClocked(f.instances[e.i], f.vault, e, before, now);
    }
  }

  lemma MovedClocked(inst: Instance, vault: Both<string>, e: Event, before: int, now: int)
    requires ClockedInstance(inst, before) && before <= now
    ensures ClockedInstance(Moved(inst, vault, e, now), now)
  {
  }

  /** Every value of secret `k` that an instance read from Vault after `t` satisfies `p`. */
  ghost predicate FreshInstance(inst: Instance, k: Name, t: int, p: string -> bool) {
    && (inst.pc.Storing? && inst.pc.name == k && inst.pc.readAt > t ==> p(inst.pc.value))
    && (inst.syncedAt.Get(k) > t ==> p(inst.secrets.Get(k).current))
  }

  ghost predicate Fresh(f: Fleet, k: Name, t: int, p: string -> bool) {
    && p(f.vault.Get(k))
    && forall i | 0 <= i < |f.instances| :: FreshInstance(f.instances[i], k, t, p)
  }

  ghost predicate Keeps(e: Event, k: Name, p: string -> bool) {
    e.VaultWrite? && e.name == k ==> p(e.value)
  }

  lemma StepFresh(f: Fleet, e: Event, now: int, k: Name, t: int, p: string -> bool)
    requires Fresh(f, k, t, p) && Keeps(e, k, p)
    ensures Fresh(Step(f, e, now), k, t, p)
  {
    if !e.VaultWrite? && e.i < |f.instances| {
      MovedFresh(f.instances[e.i], f.vault, e, now, k, t, p);
    }
  }

  lemma MovedFresh(inst: Instance, vault: Both<string>, e: Event, now: int, k: Name, t: int, p: string -> bool)
    requires FreshInstance(inst, k, t, p) && p(vault.Get(k))
    ensures FreshInstance(Moved(inst, vault, e, now), k, t, p)
  {
  }

  ghost predicate AllKeep(trace: seq<Timed<Event>>, k: Name, p: string -> bool) {
    forall i | 0 <= i < |trace| :: Keeps(trace[i].event, k, p)
  }

  lemma {:induction false} RunFresh(f: Fleet, trace: seq<Timed<Event>>, start: int, k: Name, t: int, p: string -> bool)
    requires Clocked(f, start) && InOrder(trace, start)
    requires Fresh(f, k, t, p) && AllKeep(trace, k, p)
    ensures Clocked(Run(f, trace), LastTime(trace, start))
    ensures Fresh(Run(f, trace), k, t, p)
    ensures |Run(f, trace).instances| == |f.instances|
  {
    if trace != [] {
      var n := |trace| - 1;
      var init := trace[..n];
      RunFresh(f, init, start, k, t, p);
      assert LastTime(init, start) <= trace[n].at;
      StepClocked(Run(f, init), trace[n].event, LastTime(init, start), trace[n].at);
      StepFresh(Run(f, init), trace[n].event, trace[n].at, k, t, p);
    }
  }

  // ---------------------------------------------------------------------------------------------
  // The staleness bound
  // ---------------------------------------------------------------------------------------------

  /** When a change made in Vault at `t` must have been picked up. */
  function Deadline(t: int): int {
    t + REFRESH_INTERVAL
  }

  ghost function Other(v: string): string -> bool {
    x => x != v
  }

  /** After `j` events, still by `deadline`, instance `i` holds a value of secret `k` that it read after `from`. */
  ghost predicate RefreshedBy(f: Fleet, trace: seq<Timed<Event>>, j: nat, i: nat, k: Name, from: int, deadline: int) {
    && j <= |trace| && LastTime(trace[..j], from) <= deadline
    && i < |Run(f, trace[..j]).instances|
    && Run(f, trace[..j]).instances[i].syncedAt.Get(k) > from
  }

  ghost predicate Refreshed(f: Fleet, trace: seq<Timed<Event>>, i: nat, k: Name, from: int, deadline: int) {
    exists j :: RefreshedBy(f, trace, j, i, k, from, deadline)
  }

  /** `v` is no longer the current value, and was displaced by `deadline` if it is the previous one. */
  ghost predicate Displaced(inst: Instance, k: Name, v: string, deadline: int) {
    var s := inst.secrets.Get(k);
    s.current != v && (s.previous.Some? && s.previous.value.0 == v ==> s.previous.value.1 <= deadline)
  }

  lemma StepDisplaced(f: Fleet, e: Event, before: int, now: int, i: nat, k: Name, t: int, v: string, deadline: int)
    requires Clocked(f, before) && before <= now && i < |f.instances|
    requires Fresh(f, k, t, Other(v))
    requires f.instances[i].syncedAt.Get(k) > t && Displaced(f.instances[i], k, v, deadline)
    ensures var inst := Step(f, e, now).instances[i];
            inst.syncedAt.Get(k) > t && Displaced(inst, k, v, deadline)
  {
    var inst := f.instances[i];
    assert ClockedInstance(inst, before) && FreshInstance(inst, k, t, Other(v));
    MovedDisplaced(inst, f.vault, e, before, now, k, t, v, deadline);
  }

  lemma MovedDisplaced(inst: Instance, vault: Both<string>, e: Event, before: int, now: int, k: Name, t: int, v: string, deadline: int)
    requires ClockedInstance(inst, before) && FreshInstance(inst, k, t, Other(v))
    requires inst.syncedAt.Get(k) > t && Displaced(inst, k, v, deadline)
    ensures var inst' := Moved(inst, vault, e, now);
            inst'.syncedAt.Get(k) > t && Displaced(inst', k, v, deadline)
  {
  }

  lemma {:induction false} RunDisplaced(f: Fleet, trace: seq<Timed<Event>>, start: int, i: nat, k: Name, t: int, v: string, deadline: int)
    requires Clocked(f, start) && InOrder(trace, start) && i < |f.instances|
    requires Fresh(f, k, t, Other(v)) && AllKeep(trace, k, Other(v))
    requires f.instances[i].syncedAt.Get(k) > t && Displaced(f.instances[i], k, v, deadline)
    ensures |Run(f, trace).instances| == |f.instances|
    ensures var inst := Run(f, trace).instances[i];
            inst.syncedAt.Get(k) > t && Displaced(inst, k, v, deadline)
  {
    if trace != [] {
      var n := |trace| - 1;
      var init := trace[..n];
      RunFresh(f, init, start, k, t, Other(v));
      RunDisplaced(f, init, start, i, k, t, v, deadline);
      StepClocked(Run(f, init), trace[n].event, LastTime(init, start), trace[n].at);
      StepDisplaced(Run(f, init), trace[n].event, LastTime(init, start), trace[n].at, i, k, t, v, deadline);
    }
  }

  lemma {:induction false} RunConcat(f: Fleet, a: seq<Timed<Event>>, b: seq<Timed<Event>>)
    ensures Run(f, a + b) == Run(Run(f, a), b)
  {
    if b == [] {
      assert a + b == a;
    } else {
      var n := |b| - 1;
      RunConcat(f, a, b[..n]);
      assert (a + b)[..|a + b| - 1] == a + b[..n];
    }
  }

  /** An instance that has refreshed by the deadline rejects `v` one grace period after it, for good. */
  lemma RefreshedRejects(f: Fleet, trace: seq<Timed<Event>>, j: nat, i: nat, t: int, k: Name, v: string, now: int)
    requires Clocked(f, t) && InOrder(trace, t) && i < |f.instances|
    requires Fresh(f, k, t, Other(v)) && AllKeep(trace, k, Other(v))
    requires RefreshedBy(f, trace, j, i, k, t, Deadline(t))
    requires Deadline(t) + ROTATION_GRACE_PERIOD <= now
    ensures i < |Run(f, trace).instances| && Verify(Run(f, trace).instances[i].secrets.Get(k), v, now) == None
  {
    var head, tail := trace[..j], trace[j..];
    RunFresh(f, head, t, k, t, Other(v));
    var g := Run(f, head);
    assert ClockedInstance(g.instances[i], LastTime(head, t)) && FreshInstance(g.instances[i], k, t, Other(v));
    RunDisplaced(g, tail, LastTime(head, t), i, k, t, v, Deadline(t));
    RunConcat(f, head, tail);
    assert trace == head + tail;
  }

  /** Whatever is in the fleet when Vault stops holding `v` was read no later than that. */
  lemma FreshAtReplacement(f: Fleet, t: int, k: Name, p: string -> bool)
    requires Clocked(f, t) && p(f.vault.Get(k))
    ensures Fresh(f, k, t, p)
  {
    forall i | 0 <= i < |f.instances|
      ensures FreshInstance(f.instances[i], k, t, p)
    {
      assert ClockedInstance(f.instances[i], t);
    }
  }

  /**
   Fleet-wide staleness.  From `t` on Vault no longer holds `v` for secret `k`, and every instance
   refreshes that secret within one REFRESH_INTERVAL of `t`.  Then from t + REFRESH_INTERVAL +
   ROTATION_GRACE_PERIOD on every instance rejects `v`, whatever notifications, failed refreshes and
   further rotations happen.
   */
  lemma StaleValueRejected(f: Fleet, trace: seq<Timed<Event>>, t: int, k: Name, v: string, now: int)
    requires Clocked(f, t) && InOrder(trace, t)
    requires f.vault.Get(k) != v && AllKeep(trace, k, Other(v))
    requires forall i | 0 <= i < |f.instances| :: Refreshed(f, trace, i, k, t, Deadline(t))
    requires t + REFRESH_INTERVAL + ROTATION_GRACE_PERIOD <= now
    ensures forall i | 0 <= i < |Run(f, trace).instances| ::
              Verify(Run(f, trace).instances[i].secrets.Get(k), v, now) == None
  {
    FreshAtReplacement(f, t, k, Other(v));
    RunFresh(f, trace, t, k, t, Other(v));
    forall i | 0 <= i < |Run(f, trace).instances|
      ensures Verify(Run(f, trace).instances[i].secrets.Get(k), v, now) == None
    {
      assert Refreshed(f, trace, i, k, t, Deadline(t));
      var j :| RefreshedBy(f, trace, j, i, k, t, Deadline(t));
      RefreshedRejects(f, trace, j, i, t, k, v, now);
    }
  }

  /** A fleet whose instances have just loaded their secrets. */
  ghost predicate Booted(f: Fleet, t0: int) {
    forall i | 0 <= i < |f.instances| ::
      var inst := f.instances[i];
      && inst.pc.Waiting? && inst.secrets.anchor.previous.None? && inst.secrets.admin.previous.None?
      && inst.syncedAt.anchor <= t0 && inst.syncedAt.admin <= t0
  }

  lemma {:induction false} ReachableClocked(f: Fleet, trace: seq<Timed<Event>>, t0: int)
    requires Booted(f, t0) && InOrder(trace, t0)
    ensures Clocked(Run(f, trace), LastTime(trace, t0)) && |Run(f, trace).instances| == |f.instances|
  {
    if trace != [] {
      var n := |trace| - 1;
      ReachableClocked(f, trace[..n], t0);
      StepClocked(Run(f, trace[..n]), trace[n].event, LastTime(trace[..n], t0), trace[n].at);
    }
  }

  /** The staleness bound over a whole run: boot, anything at all, the replacement at `t`, anything but its reversal. */
  lemma StalenessFromBoot(
      boot: Fleet, t0: int, before: seq<Timed<Event>>, t: int, k: Name, v: string, w: string, after: seq<Timed<Event>>, now: int)
    requires Booted(boot, t0) && InOrder(before, t0) && LastTime(before, t0) <= t
    requires w != v && InOrder(after, t) && AllKeep(after, k, Other(v))
    requires var f := Step(Run(boot, before), VaultWrite(k, w), t);
             forall i | 0 <= i < |f.instances| :: Refreshed(f, after, i, k, t, Deadline(t))
    requires t + REFRESH_INTERVAL + ROTATION_GRACE_PERIOD <= now
    ensures var g := Run(Step(Run(boot, before), VaultWrite(k, w), t), after);
            forall i | 0 <= i < |g.instances| :: Verify(g.instances[i].secrets.Get(k), v, now) == None
  {
    ReachableClocked(boot, before, t0);
    var f := Step(Run(boot, before), VaultWrite(k, w), t);
    StepClocked(Run(boot, before), VaultWrite(k, w), LastTime(before, t0), t);
    StaleValueRejected(f, after, t, k, v, now);
  }

  // ---------------------------------------------------------------------------------------------
  // Quiescence
  // ---------------------------------------------------------------------------------------------

  predicate Stale(inst: Instance, vault: Both<string>, k: Name) {
    inst.secrets.Get(k).current != vault.Get(k)
  }

  /** A value in flight that Vault no longer holds. */
  predicate Outdated(inst: Instance, vault: Both<string>) {
    inst.pc.Storing? && inst.pc.value != vault.Get(inst.pc.name)
  }

  predicate WillAnnounce(inst: Instance) {
    inst.pc.Announcing? || ((inst.pc.Reading? || inst.pc.Storing?) && inst.pc.rotated)
  }

  /** What an instance can still set off in a fleet of `n`. */
  function Weight(inst: Instance, vault: Both<string>, n: nat): nat {
    (n + 2) * (Bit(Stale(inst, vault, Anchor)) + Bit(Stale(inst, vault, Admin)) + 2 * Bit(Outdated(inst, vault)))
    + (n + 1) * Bit(WillAnnounce(inst)) + inst.pending
  }

  function TotalWeight(instances: seq<Instance>, vault: Both<string>, n: nat): nat {
    if instances == [] then 0
    else TotalWeight(instances[..|instances| - 1], vault, n) + Weight(instances[|instances| - 1], vault, n)
  }

  function Measure(f: Fleet): nat {
    TotalWeight(f.instances, f.vault, |f.instances|)
  }

  /** A refresh set off by a notification, a rotation, or an announcement. */
  predicate Active(f: Fleet, e: Event) {
    && !e.VaultWrite? && e.i < |f.instances|
    && var inst := f.instances[e.i];
       match e
       case Notified(_) => inst.pc.Waiting? && inst.pending > 0
       case Store(_) => inst.pc.Storing? && inst.secrets.Get(inst.pc.name).current != inst.pc.value
       case Publish(_, _) => inst.pc.Announcing?
       case _ => false
  }

  lemma {:induction false} WeightUpdate(instances: seq<Instance>, vault: Both<string>, n: nat, i: nat, inst: Instance)
    requires i < |instances|
    ensures TotalWeight(instances[i := inst], vault, n)
         == TotalWeight(instances, vault, n) - Weight(instances[i], vault, n) + Weight(inst, vault, n)
  {
    var m := |instances| - 1;
    if i == m {
      assert instances[i := inst][..m] == instances[..m];
    } else {
      assert instances[i := inst][..m] == instances[..m][i := inst];
      WeightUpdate(instances[..m], vault, n, i, inst);
    }
  }

  lemma {:induction false} WeightDelivered(instances: seq<Instance>, reached: set<nat>, vault: Both<string>, n: nat)
    ensures TotalWeight(Delivered(instances, reached), vault, n) <= TotalWeight(instances, vault, n) + |instances|
  {
    if instances != [] {
      var m := |instances| - 1;
      assert Delivered(instances, reached)[..m] == Delivered(instances[..m], reached);
      WeightDelivered(instances[..m], reached, vault, n);
    }
  }

  /** One instance's own step: never heavier, and lighter by what it sets off. */
  lemma MovedWeight(inst: Instance, vault: Both<string>, e: Event, now: int, n: nat)
    requires !e.VaultWrite?
    ensures Weight(Moved(inst, vault, e, now), vault, n) <= Weight(inst, vault, n)
    ensures e.Notified? && inst.pc.Waiting? && inst.pending > 0 ==>
              Weight(Moved(inst, vault, e, now), vault, n) < Weight(inst, vault, n)
    ensures e.Store? && inst.pc.Storing? && inst.secrets.Get(inst.pc.name).current != inst.pc.value ==>
              Weight(Moved(inst, vault, e, now), vault, n) < Weight(inst, vault, n)
    ensures e.Publish? && inst.pc.Announcing? ==>
              Weight(Moved(inst, vault, e, now), vault, n) + n < Weight(inst, vault, n)
  {
  }

  /** While Vault is unchanged no step raises the measure, and every active step lowers it. */
  lemma StepMeasure(f: Fleet, e: Event, now: int)
    requires !e.VaultWrite?
    ensures Measure(Step(f, e, now)) + Bit(Active(f, e)) <= Measure(f)
    ensures Step(f, e, now).vault == f.vault && |Step(f, e, now).instances| == |f.instances|
  {
    if e.i < |f.instances| {
      var n := |f.instances|;
      var inst := f.instances[e.i];
      var moved := f.instances[e.i := Moved(inst, f.vault, e, now)];
      MovedWeight(inst, f.vault, e, now, n);
      WeightUpdate(f.instances, f.vault, n, e.i, Moved(inst, f.vault, e, now));
      if e.Publish? {
        WeightDelivered(moved, e.reached, f.vault, n);
      }
    }
  }

  function ActiveSteps(f: Fleet, trace: seq<Timed<Event>>): nat {
    if trace == [] then 0
    else
      var init := trace[..|trace| - 1];
      ActiveSteps(f, init) + Bit(Active(Run(f, init), trace[|trace| - 1].event))
  }

  ghost predicate VaultQuiet(trace: seq<Timed<Event>>) {
    forall i | 0 <= i < |trace| :: !trace[i].event.VaultWrite?
  }

  /**
   Announcements die out.  Once Vault stops changing, the rotations, announcements and
   notification-driven refreshes of any run, however long, together number at most the measure of the
   fleet at that point.
   */
  lemma {:induction false} AnnouncementsDieOut(f: Fleet, trace: seq<Timed<Event>>)
    requires VaultQuiet(trace)
    ensures ActiveSteps(f, trace) + Measure(Run(f, trace)) <= Measure(f)
    ensures Run(f, trace).vault == f.vault
  {
    if trace != [] {
      var n := |trace| - 1;
      AnnouncementsDieOut(f, trace[..n]);
      StepMeasure(Run(f, trace[..n]), trace[n].event, trace[n].at);
    }
  }

  ghost function Is(v: string): string -> bool {
    x => x == v
  }

  /** Instance `i` has read both secrets since `t`. */
  ghost predicate InSync(inst: Instance, t: int) {
    inst.syncedAt.anchor > t && inst.syncedAt.admin > t
  }

  /** Agreeing with Vault and holding no outdated value. */
  predicate Agrees(inst: Instance, vault: Both<string>) {
    !Stale(inst, vault, Anchor) && !Stale(inst, vault, Admin) && !Outdated(inst, vault)
  }

  ghost predicate AllAgree(f: Fleet) {
    forall i | 0 <= i < |f.instances| :: Agrees(f.instances[i], f.vault)
  }

  ghost predicate NoneWillAnnounce(f: Fleet) {
    forall i | 0 <= i < |f.instances| :: !WillAnnounce(f.instances[i])
  }

  /**
   Once Vault has been quiet since `t` and every instance has read both secrets since, every instance
   agrees with Vault and holds no outdated value, so none rotates again.
   */
  lemma EveryoneAgrees(f: Fleet, trace: seq<Timed<Event>>, t: int)
    requires Clocked(f, t) && InOrder(trace, t) && VaultQuiet(trace)
    requires forall i | 0 <= i < |Run(f, trace).instances| :: InSync(Run(f, trace).instances[i], t)
    ensures Run(f, trace).vault == f.vault && AllAgree(Run(f, trace))
  {
    AnnouncementsDieOut(f, trace);
    FreshAtReplacement(f, t, Anchor, Is(f.vault.anchor));
    FreshAtReplacement(f, t, Admin, Is(f.vault.admin));
    RunFresh(f, trace, t, Anchor, t, Is(f.vault.anchor));
    RunFresh(f, trace, t, Admin, t, Is(f.vault.admin));
    var g := Run(f, trace);
    forall i | 0 <= i < |g.instances|
      ensures Agrees(g.instances[i], g.vault)
    {
      assert InSync(g.instances[i], t) && ClockedInstance(g.instances[i], LastTime(trace, t));
      assert FreshInstance(g.instances[i], Anchor, t, Is(f.vault.anchor));
      assert FreshInstance(g.instances[i], Admin, t, Is(f.vault.admin));
    }
  }

  lemma MovedAgrees(inst: Instance, vault: Both<string>, e: Event, now: int)
    requires Agrees(inst, vault)
    ensures Agrees(Moved(inst, vault, e, now), vault)
    ensures WillAnnounce(Moved(inst, vault, e, now)) ==> WillAnnounce(inst)
  {
  }

  /** In a fleet that agrees with a quiet Vault nothing rotates, and only announcements already due are made. */
  lemma StepAgrees(f: Fleet, e: Event, now: int)
    requires !e.VaultWrite? && AllAgree(f)
    ensures AllAgree(Step(f, e, now)) && (NoneWillAnnounce(f) ==> NoneWillAnnounce(Step(f, e, now)))
    ensures Active(f, e) ==> e.Notified? || (e.Publish? && !NoneWillAnnounce(f))
  {
    if e.i < |f.instances| {
      MovedAgrees(f.instances[e.i], f.vault, e, now);
    }
  }

  /** A fleet that agrees with a quiet Vault keeps agreeing, and with nothing left to announce stays silent. */
  lemma {:induction false} AgreementLasts(f: Fleet, trace: seq<Timed<Event>>)
    requires VaultQuiet(trace) && AllAgree(f)
    ensures AllAgree(Run(f, trace)) && (NoneWillAnnounce(f) ==> NoneWillAnnounce(Run(f, trace)))
  {
    if trace != [] {
      var n := |trace| - 1;
      AgreementLasts(f, trace[..n]);
      StepAgrees(Run(f, trace[..n]), trace[n].event, trace[n].at);
    }
  }

  /** Neither a rotation nor an announcement ever happens again in such a fleet. */
  lemma NothingMorePublished(f: Fleet, trace: seq<Timed<Event>>, j: nat)
    requires VaultQuiet(trace) && AllAgree(f) && NoneWillAnnounce(f)
    requires j < |trace| && Active(Run(f, trace[..j]), trace[j].event)
    ensures trace[j].event.Notified?
  {
    AgreementLasts(f, trace[..j]);
    StepAgrees(Run(f, trace[..j]), trace[j].event, trace[j].at);
  }

  // ---------------------------------------------------------------------------------------------
  // Refreshes and announcements happen
  // ---------------------------------------------------------------------------------------------

  /** One refresh of instance `i`, set off by `wake`, with either read succeeding or not. */
  function Cycle(f: Fleet, i: nat, wake: Event, anchorOk: bool, adminOk: bool, now: int): Fleet {
    var woken := Step(f, wake, now);
    var anchor := Step(Step(woken, Read(i, anchorOk), now), Store(i), now);
    Step(Step(anchor, Read(i, adminOk), now), Store(i), now)
  }

  /** What one refresh does to one secret: a successful read that finds another value rotates to it. */
  function AfterRead(s: RotatingSecret, ok: bool, value: string, now: int): RotatingSecret {
    if ok && value != s.current then RotatingSecret(value, Some((s.current, now))) else s
  }

  /**
   A waiting instance that is woken, by its timer or by a notification, reads both secrets, takes over what
   it could read, and then announces if and only if it rotated anything.
   */
  lemma RefreshTakesBoth(f: Fleet, i: nat, wake: Event, anchorOk: bool, adminOk: bool, now: int)
    requires i < |f.instances| && f.instances[i].pc.Waiting?
    requires wake == Tick(i) || (wake == Notified(i) && f.instances[i].pending > 0)
    ensures var inst, g := f.instances[i], Cycle(f, i, wake, anchorOk, adminOk, now);
            && |g.instances| == |f.instances|
            && g.instances[i].secrets.anchor == AfterRead(inst.secrets.anchor, anchorOk, f.vault.anchor, now)
            && g.instances[i].secrets.admin == AfterRead(inst.secrets.admin, adminOk, f.vault.admin, now)
            && g.instances[i].pending == inst.pending - Bit(wake.Notified?)
            && g.instances[i].pc == if g.instances[i].secrets != inst.secrets then Announcing else Waiting
  {
    var woken := Step(f, wake, now);
    ReadAndStore(woken, i, Anchor, anchorOk, now);
    ReadAndStore(Step(Step(woken, Read(i, anchorOk), now), Store(i), now), i, Admin, adminOk, now);
  }

  lemma ReadAndStore(f: Fleet, i: nat, k: Name, ok: bool, now: int)
    requires i < |f.instances| && f.instances[i].pc.Reading? && f.instances[i].pc.name == k
    ensures var inst, g := f.instances[i], Step(Step(f, Read(i, ok), now), Store(i), now);
            var s := AfterRead(inst.secrets.Get(k), ok, f.vault.Get(k), now);
            && |g.instances| == |f.instances| && g.vault == f.vault
            && g.instances[i].secrets == inst.secrets.Set(k, s) && g.instances[i].pending == inst.pending
            && g.instances[i].pc == NextPc(k, inst.pc.rotated || s != inst.secrets.Get(k))
  {
  }

  /** The step is instance `i`'s announcement. */
  predicate Publishes(f: Fleet, e: Event, i: nat) {
    e.Publish? && e.i == i && i < |f.instances| && f.instances[i].pc.Announcing?
  }

  /** The step rotates a secret of instance `i`. */
  predicate Rotates(f: Fleet, e: Event, now: int, i: nat) {
    i < |f.instances| && Step(f, e, now).instances[i].secrets != f.instances[i].secrets
  }

  /** Instance `i` has rotated during the run and not announced since. */
  predicate Unannounced(f: Fleet, trace: seq<Timed<Event>>, i: nat) {
    trace != [] &&
    var g, last := Run(f, trace[..|trace| - 1]), trace[|trace| - 1];
    || Rotates(g, last.event, last.at, i)
    || (Unannounced(f, trace[..|trace| - 1], i) && !Publishes(g, last.event, i))
  }

  lemma StepDue(f: Fleet, e: Event, now: int, i: nat)
    requires i < |f.instances|
    ensures i < |Step(f, e, now).instances|
    ensures WillAnnounce(Step(f, e, now).instances[i]) <==>
            Rotates(f, e, now, i) || (WillAnnounce(f.instances[i]) && !Publishes(f, e, i))
  {
    if !e.VaultWrite? && e.i < |f.instances| {
      MovedDue(f.instances[e.i], f.vault, e, now);
    }
  }

  lemma MovedDue(inst: Instance, vault: Both<string>, e: Event, now: int)
    ensures WillAnnounce(Moved(inst, vault, e, now)) <==>
            Moved(inst, vault, e, now).secrets != inst.secrets || (WillAnnounce(inst) && !(e.Publish? && inst.pc.Announcing?))
  {
  }

  /** Throughout a run an instance is on its way to an announcement if and only if it has rotated since its last one. */
  lemma {:induction false} DueIffRotated(f: Fleet, trace: seq<Timed<Event>>, i: nat)
    requires i < |f.instances| && f.instances[i].pc.Waiting?
    ensures i < |Run(f, trace).instances|
    ensures WillAnnounce(Run(f, trace).instances[i]) <==> Unannounced(f, trace, i)
  {
    if trace != [] {
      var n := |trace| - 1;
      DueIffRotated(f, trace[..n], i);
      StepDue(Run(f, trace[..n]), trace[n].event, trace[n].at, i);
    }
  }

  /** So an instance that is waiting again has announced every rotation it has made. */
  lemma EveryRotationAnnounced(f: Fleet, trace: seq<Timed<Event>>, i: nat)
    requires i < |f.instances| && f.instances[i].pc.Waiting?
    requires i < |Run(f, trace).instances| && Run(f, trace).instances[i].pc.Waiting?
    ensures !Unannounced(f, trace, i)
  {
    DueIffRotated(f, trace, i);
  }

  /** An announcement leaves one more notification with every instance it reaches, and nothing else. */
  lemma AnnouncementDelivers(f: Fleet, i: nat, reached: set<nat>, now: int, j: nat)
    requires i < |f.instances| && f.instances[i].pc.Announcing? && j < |f.instances|
    ensures var g := Step(f, Publish(i, reached), now);
            && g.vault == f.vault && |g.instances| == |f.instances|
            && g.instances[j].pending == f.instances[j].pending + Bit(j in reached)
            && g.instances[j].secrets == f.instances[j].secrets
            && g.instances[j].pc == if j == i then Waiting else f.instances[j].pc
  {
  }

  // ---------------------------------------------------------------------------------------------
  // Tightness
  // ---------------------------------------------------------------------------------------------

  /** The bound cannot be lowered: a value picked up at the deadline is accepted until the last millisecond. */
  lemma BoundIsTight(t: int) returns (f: Fleet, trace: seq<Timed<Event>>)
    ensures Clocked(f, t) && InOrder(trace, t) && f.vault.anchor != "old" && AllKeep(trace, Anchor, Other("old"))
    ensures |f.instances| == 1 && Refreshed(f, trace, 0, Anchor, t, Deadline(t))
    ensures |Run(f, trace).instances| == 1
    ensures Verify(Run(f, trace).instances[0].secrets.anchor, "old",
                   t + REFRESH_INTERVAL + ROTATION_GRACE_PERIOD - 1) == Some(false)
  {
    var old_ := RotatingSecret("old", None);
    var inst := Instance(Both(old_, old_), Both(t, t), Waiting, 0);
    f := Fleet(Both("new", "old"), [inst]);
    var d := Deadline(t);
    trace := [Timed(d, Tick(0)), Timed(d, Read(0, true)), Timed(d, Store(0))];
    var s1 := Step(f, Tick(0), d);
    var s2 := Step(s1, Read(0, true), d);
    var s3 := Step(s2, Store(0), d);
    assert s1.instances == [inst.(pc := Reading(Anchor, false))];
    assert s2.instances == [inst.(pc := Storing(Anchor, false, "new", d))];
    assert trace[..1] == [Timed(d, Tick(0))] && trace[..1][..0] == [];
    assert Run(f, trace[..1]) == s1;
    assert trace[..2][..1] == trace[..1];
    assert Run(f, trace[..2]) == s2;
    assert trace[..3] == trace && trace[..3][..2] == trace[..2];
    assert Run(f, trace) == s3;
    assert RefreshedBy(f, trace, 3, 0, Anchor, t, d);
  }
}
