/**
 Tenant API keys of src/db/queries.rs: rotation with a grace period, revocation, expiry and lookup,
 with the audit entries that commit in the same transaction.

 Keys appear as their stored hashes.  Times are instants of one clock, seconds for the grace period.
 */
module TenantKeys {
  import opened Machine
  import opened Timeline

  const MAX_ROTATION_GRACE_SECONDS: nat := 7 * 24 * 3600

  type Hash = string
  type TenantId = nat

  datatype Tenant = Tenant(hash: Hash, previous: Option<Hash>, graceExpires: Option<int>, active: bool)

  datatype Entry =
    | SecretIssued(tenant: TenantId, oldHash: Hash, newHash: Hash, previous: Option<Hash>, graceExpires: Option<int>)
    | SecretRevoked(tenant: TenantId, hash: Hash)

  datatype Store = Store(tenants: map<TenantId, Tenant>, audit: seq<Entry>)

  /** The WHERE clause of `lookup_api_key` on one row; a NULL expiry compares as not greater. */
  predicate Accepts(row: Tenant, h: Hash, now: int) {
    && row.active
    && (row.hash == h ||
        (row.previous == Some(h) && row.graceExpires.Some? && row.graceExpires.value > now))
  }

  /** Some tenant accepts the key. */
  predicate Accepted(s: Store, h: Hash, now: int) {
    exists t | t in s.tenants :: Accepts(s.tenants[t], h, now)
  }

  // ---------------------------------------------------------------------------------------------
  // Operations
  // ---------------------------------------------------------------------------------------------

  datatype Outcome = Done(changed: bool) | GraceTooLong | NotFound | RolledBack

  function Rotated(row: Tenant, newHash: Hash, grace: nat, now: int): Tenant {
    if grace > 0 then row.(hash := newHash, previous := Some(row.hash), graceExpires := Some(now + grace))
    else row.(hash := newHash, previous := None, graceExpires := None)
  }

  function RotationEntries(t: TenantId, row: Tenant, newHash: Hash, grace: nat, now: int): seq<Entry> {
    var row' := Rotated(row, newHash, grace, now);
    [SecretIssued(t, row.hash, newHash, row'.previous, row'.graceExpires)]
    + if grace == 0 then [SecretRevoked(t, row.hash)] else []
  }

  /** `rotate_tenant_api_key`; `commits` is whether the transaction gets through. */
  function Rotate(s: Store, t: TenantId, newHash: Hash, grace: nat, now: int, commits: bool): (Store, Outcome) {
    if grace > MAX_ROTATION_GRACE_SECONDS then (s, GraceTooLong)
    else if t !in s.tenants || !s.tenants[t].active then (s, NotFound)
    else if !commits then (s, RolledBack)
    else
      var row := s.tenants[t];
      (Store(s.tenants[t := Rotated(row, newHash, grace, now)], s.audit + RotationEntries(t, row, newHash, grace, now)),
       Done(true))
  }

  function Cleared(row: Tenant): Tenant {
    row.(previous := None, graceExpires := None)
  }

  /** `revoke_tenant_previous_secret`. */
  function Revoke(s: Store, t: TenantId, commits: bool): (Store, Outcome) {
    if t !in s.tenants || !s.tenants[t].active then (s, NotFound)
    else if !commits then (s, RolledBack)
    else if s.tenants[t].previous.None? then (s, Done(false))
    else
      (Store(s.tenants[t := Cleared(s.tenants[t])], s.audit + [SecretRevoked(t, s.tenants[t].previous.value)]), Done(true))
  }

  /** The row test of `revoke_expired_tenant_secrets`; active or not. */
  predicate Expired(row: Tenant, now: int) {
    row.previous.Some? && row.graceExpires.Some? && row.graceExpires.value <= now
  }

  /** Distinct rows that have a previous key to clear. */
  predicate Clearable(s: Store, order: seq<TenantId>) {
    && (forall i | 0 <= i < |order| :: order[i] in s.tenants && s.tenants[order[i]].previous.Some?)
    && forall i, j | 0 <= i < j < |order| :: order[i] != order[j]
  }

  /** Clear one row's previous key and log it. */
  function ExpireOne(s: Store, t: TenantId): Store
    requires t in s.tenants && s.tenants[t].previous.Some?
  {
    Store(s.tenants[t := Cleared(s.tenants[t])], s.audit + [SecretRevoked(t, s.tenants[t].previous.value)])
  }

  lemma ClearableTail(s: Store, order: seq<TenantId>)
    requires Clearable(s, order) && order != []
    ensures Clearable(ExpireOne(s, order[0]), order[1..])
  {
  }

  /** The loop of `revoke_expired_tenant_secrets` over the expired rows in the order they were fetched. */
  function ExpireEach(s: Store, order: seq<TenantId>): Store
    requires Clearable(s, order)
    decreases |order|
  {
    if order == [] then s
    else
      ClearableTail(s, order);
      ExpireEach(ExpireOne(s, order[0]), order[1..])
  }

  /** `order` lists exactly the expired rows, each once. */
  predicate Enumerates(order: seq<TenantId>, s: Store, now: int) {
    && (forall i | 0 <= i < |order| :: order[i] in s.tenants && Expired(s.tenants[order[i]], now))
    && (forall i, j | 0 <= i < j < |order| :: order[i] != order[j])
    && (forall t | t in s.tenants && Expired(s.tenants[t], now) :: t in order)
  }

  datatype Event =
    | RotateKey(t: TenantId, newHash: Hash, grace: nat, commits: bool)
    | RevokePrevious(t: TenantId, commits: bool)
    | ExpireAll(order: seq<TenantId>, commits: bool)

  function Step(s: Store, e: Timed<Event>): Store {
    match e.event
    case RotateKey(t, newHash, grace, commits) => Rotate(s, t, newHash, grace, e.at, commits).0
    case RevokePrevious(t, commits) => Revoke(s, t, commits).0
    case ExpireAll(order, commits) => if commits && Enumerates(order, s, e.at) then ExpireEach(s, order) else s
  }

  function Run(s: Store, trace: seq<Timed<Event>>): Store {
    if trace == [] then s else Step(Run(s, trace[..|trace| - 1]), trace[|trace| - 1])
  }

  /** What expiry leaves in the table. */
  lemma {:induction false} ExpireEachRows(s: Store, order: seq<TenantId>)
    requires Clearable(s, order)
    ensures var s' := ExpireEach(s, order);
            && s'.tenants.Keys == s.tenants.Keys
            && forall t | t in s.tenants ::
                 s'.tenants[t] == if t in order then Cleared(s.tenants[t]) else s.tenants[t]
    decreases |order|
  {
    if order != [] {
      var t := order[0];
      ClearableTail(s, order);
      ExpireEachRows(ExpireOne(s, t), order[1..]);
      assert forall u :: u in order <==> u == t || u in order[1..];
      assert t !in order[1..];
    }
  }

  // ---------------------------------------------------------------------------------------------
  // The life of a key
  // ---------------------------------------------------------------------------------------------

  /** A tenant never accepts more than two keys. */
  lemma AtMostTwoKeys(row: Tenant, keys: set<Hash>, now: int)
    requires forall h | h in keys :: Accepts(row, h, now)
    ensures |keys| <= 2
  {
    var both := {row.hash} + if row.previous.Some? then {row.previous.value} else {};
    assert keys <= both;
    SubsetSize(keys, both);
  }

  lemma {:induction false} SubsetSize(a: set<Hash>, b: set<Hash>)
    requires a <= b
    ensures |a| <= |b|
    decreases a
  {
    if a != {} {
      var x :| x in a;
      SubsetSize(a - {x}, b - {x});
    }
  }

  predicate Issues(e: Event, h: Hash) {
    e.RotateKey? && e.newHash == h
  }

  ghost predicate NeverIssued(trace: seq<Timed<Event>>, h: Hash) {
    forall i | 0 <= i < |trace| :: !Issues(trace[i].event, h)
  }

  /** A row that would reject `h` at time `x` still would after any step that does not issue `h`. */
  lemma StepStillRejects(s: Store, e: Timed<Event>, t: TenantId, h: Hash, x: int)
    requires t in s.tenants && !Issues(e.event, h) && !Accepts(s.tenants[t], h, x)
    ensures t in Step(s, e).tenants && !Accepts(Step(s, e).tenants[t], h, x)
    ensures Step(s, e).tenants.Keys == s.tenants.Keys
  {
    if e.event.ExpireAll? && e.event.commits && Enumerates(e.event.order, s, e.at) {
      ExpireEachRows(s, e.event.order);
    }
  }

  lemma {:induction false} RunStillRejects(s: Store, trace: seq<Timed<Event>>, t: TenantId, h: Hash, x: int)
    requires t in s.tenants && NeverIssued(trace, h) && !Accepts(s.tenants[t], h, x)
    ensures t in Run(s, trace).tenants && !Accepts(Run(s, trace).tenants[t], h, x)
  {
    if trace != [] {
      var n := |trace| - 1;
      RunStillRejects(s, trace[..n], t, h, x);
      StepStillRejects(Run(s, trace[..n]), trace[n], t, h, x);
    }
  }

  lemma {:induction false} TenantsKept(s: Store, trace: seq<Timed<Event>>)
    ensures Run(s, trace).tenants.Keys == s.tenants.Keys
  {
    if trace != [] {
      var n := |trace| - 1;
      TenantsKept(s, trace[..n]);
      var e := trace[n].event;
      if e.ExpireAll? && e.commits && Enumerates(e.order, Run(s, trace[..n]), trace[n].at) {
        ExpireEachRows(Run(s, trace[..n]), e.order);
      }
    }
  }

  /** A key once rejected by every tenant is never accepted again, as long as it is not issued again. */
  lemma RejectedForever(s: Store, trace: seq<Timed<Event>>, h: Hash, x: int, now: int)
    requires !Accepted(s, h, x) && NeverIssued(trace, h) && x <= now
    ensures !Accepted(Run(s, trace), h, now)
  {
    TenantsKept(s, trace);
    forall t | t in Run(s, trace).tenants
      ensures !Accepts(Run(s, trace).tenants[t], h, now)
    {
      RunStillRejects(s, trace, t, h, x);
    }
  }

  /**
   A key displaced at time `at` with grace `g` is rejected by its tenant from `at + g` on (at once when
   there is no grace), whatever rotations, revocations and expiries follow.
   */
  lemma DisplacedKeyRejected(
      s: Store, t: TenantId, newHash: Hash, grace: nat, at: int, trace: seq<Timed<Event>>, now: int)
    requires Rotate(s, t, newHash, grace, at, true).1 == Done(true)
    requires newHash != s.tenants[t].hash && NeverIssued(trace, s.tenants[t].hash)
    requires at + grace <= now
    ensures var s' := Run(Rotate(s, t, newHash, grace, at, true).0, trace);
            && t in s'.tenants
            && !Accepts(s'.tenants[t], s.tenants[t].hash, now)
  {
    RunStillRejects(Rotate(s, t, newHash, grace, at, true).0, trace, t, s.tenants[t].hash, at + grace);
  }

  /** A committed rotation or revocation of the tenant's keys. */
  predicate Touches(e: Event, t: TenantId) {
    match e
    case RotateKey(u, _, grace, commits) => u == t && commits && grace <= MAX_ROTATION_GRACE_SECONDS
    case RevokePrevious(u, commits) => u == t && commits
    case ExpireAll(_, _) => false
  }

  ghost predicate Untouched(trace: seq<Timed<Event>>, t: TenantId) {
    forall i | 0 <= i < |trace| :: !Touches(trace[i].event, t)
  }

  /** The displaced key `h` is still there with its deadline, or gone and its deadline past. */
  predicate InGrace(row: Tenant, newHash: Hash, h: Hash, deadline: int, now: int) {
    && row.active && row.hash == newHash
    && ((row.previous == Some(h) && row.graceExpires == Some(deadline)) || (row.previous.None? && deadline <= now))
  }

  lemma StepInGrace(s: Store, e: Timed<Event>, t: TenantId, newHash: Hash, h: Hash, deadline: int, before: int)
    requires t in s.tenants && InGrace(s.tenants[t], newHash, h, deadline, before) && before <= e.at && !Touches(e.event, t)
    ensures t in Step(s, e).tenants && InGrace(Step(s, e).tenants[t], newHash, h, deadline, e.at)
  {
    if e.event.ExpireAll? && e.event.commits && Enumerates(e.event.order, s, e.at) {
      ExpireEachRows(s, e.event.order);
    }
  }

  lemma {:induction false} RunInGrace(
      s: Store, trace: seq<Timed<Event>>, t: TenantId, newHash: Hash, h: Hash, deadline: int, start: int)
    requires t in s.tenants && InGrace(s.tenants[t], newHash, h, deadline, start)
    requires InOrder(trace, start) && Untouched(trace, t)
    ensures t in Run(s, trace).tenants && InGrace(Run(s, trace).tenants[t], newHash, h, deadline, LastTime(trace, start))
  {
    if trace != [] {
      var n := |trace| - 1;
      RunInGrace(s, trace[..n], t, newHash, h, deadline, start);
      StepInGrace(Run(s, trace[..n]), trace[n], t, newHash, h, deadline, LastTime(trace[..n], start));
    }
  }

  /**
   A grace period is honoured to the end and no further: through any events that do not rotate or revoke
   this tenant's keys, expiry runs included, the new key is accepted and the displaced one is exactly
   until `at + grace`.
   */
  lemma GraceHonoured(
      s: Store, t: TenantId, newHash: Hash, grace: nat, at: int, trace: seq<Timed<Event>>, now: int)
    requires Rotate(s, t, newHash, grace, at, true).1 == Done(true) && newHash != s.tenants[t].hash
    requires InOrder(trace, at) && Untouched(trace, t) && LastTime(trace, at) <= now
    ensures var s' := Run(Rotate(s, t, newHash, grace, at, true).0, trace);
            && t in s'.tenants && Accepts(s'.tenants[t], newHash, now)
            && (Accepts(s'.tenants[t], s.tenants[t].hash, now) <==> now < at + grace)
  {
    RunInGrace(Rotate(s, t, newHash, grace, at, true).0, trace, t, newHash, s.tenants[t].hash, at + grace, at);
  }

  // ---------------------------------------------------------------------------------------------
  // What each operation commits
  // ---------------------------------------------------------------------------------------------

  /**
   A rotation commits exactly when its grace is at most seven days, the tenant is there and active, and the
   transaction gets through.  Otherwise nothing changes; if it does, only this tenant's row does, and the log
   gains the issuance and, without grace, the revocation of the key it displaced.
   */
  lemma RotationCommits(s: Store, t: TenantId, newHash: Hash, grace: nat, at: int, commits: bool)
    ensures var (s', r) := Rotate(s, t, newHash, grace, at, commits);
            && (r == Done(true) <==> grace <= 604_800 && t in s.tenants && s.tenants[t].active && commits)
            && (r != Done(true) ==> s' == s)
            && (grace > 604_800 ==> r == GraceTooLong)
            && (r == Done(true) ==>
                  var old_, row := s.tenants[t], s'.tenants[t];
                  && s'.tenants.Keys == s.tenants.Keys && (forall u | u in s.tenants && u != t :: s'.tenants[u] == s.tenants[u])
                  && row.hash == newHash && row.active
                  && (row.previous, row.graceExpires) == (if grace > 0 then (Some(old_.hash), Some(at + grace)) else (None, None))
                  && s'.audit == s.audit + [SecretIssued(t, old_.hash, newHash, row.previous, row.graceExpires)]
                                 + if grace == 0 then [SecretRevoked(t, old_.hash)] else [])
  {
    assert forall e: Entry :: [e] + [] == [e];
  }

  /**
   A committed revocation of a previous key is final: the key is rejected at every time from then on, the
   current key is not touched, and the log gains one entry, which names the key.
   */
  lemma RevocationFinal(s: Store, t: TenantId, h: Hash, trace: seq<Timed<Event>>, now: int)
    requires t in s.tenants && s.tenants[t].active && s.tenants[t].previous == Some(h) && h != s.tenants[t].hash
    requires NeverIssued(trace, h)
    ensures var (s', r) := Revoke(s, t, true);
            && r == Done(true) && s'.audit == s.audit + [SecretRevoked(t, h)]
            && s'.tenants.Keys == s.tenants.Keys && (forall u | u in s.tenants && u != t :: s'.tenants[u] == s.tenants[u])
            && Accepts(s'.tenants[t], s.tenants[t].hash, now)
            && t in Run(s', trace).tenants && !Accepts(Run(s', trace).tenants[t], h, now)
  {
    RunStillRejects(Revoke(s, t, true).0, trace, t, h, now);
  }

  /** Without a previous key, without the tenant, or without a commit, a revocation changes nothing. */
  lemma RevocationOtherwise(s: Store, t: TenantId, commits: bool)
    requires t !in s.tenants || !s.tenants[t].active || s.tenants[t].previous == None || !commits
    ensures Revoke(s, t, commits).0 == s && Revoke(s, t, commits).1 != Done(true)
  {
  }

  lemma {:induction false} ExpireEachLogs(s: Store, order: seq<TenantId>)
    requires Clearable(s, order)
    ensures ExpireEach(s, order).audit == s.audit + seq(|order|, i requires 0 <= i < |order| => SecretRevoked(order[i], s.tenants[order[i]].previous.value))
    decreases |order|
  {
    if order != [] {
      ClearableTail(s, order);
      var s1, rest := ExpireOne(s, order[0]), order[1..];
      ExpireEachLogs(s1, rest);
      assert forall i | 0 <= i < |rest| :: rest[i] == order[i + 1] && s1.tenants[rest[i]] == s.tenants[rest[i]];
    }
  }

  /**
   An expiry run clears exactly the previous keys whose grace has ended, logs each of them once, and leaves
   everything else of every row alone.
   */
  lemma ExpiryClears(s: Store, order: seq<TenantId>, now: int)
    requires Enumerates(order, s, now)
    ensures var s' := ExpireEach(s, order);
            && s'.tenants.Keys == s.tenants.Keys
            && (forall t | t in s.tenants ::
                  var row, row' := s.tenants[t], s'.tenants[t];
                  && row'.hash == row.hash && row'.active == row.active
                  && if row.previous.Some? && row.graceExpires.Some? && row.graceExpires.value <= now
                     then row'.previous == None && row'.graceExpires == None
                     else row' == row)
            && s'.audit == s.audit + seq(|order|, i requires 0 <= i < |order| => SecretRevoked(order[i], s.tenants[order[i]].previous.value))
  {
    ExpireEachRows(s, order);
    ExpireEachLogs(s, order);
  }

  // ---------------------------------------------------------------------------------------------
  // Expiry is invisible to lookups
  // ---------------------------------------------------------------------------------------------

  /** The previous key cannot be accepted from `now` on. */
  predicate Dead(row: Tenant, now: int) {
    row.previous.None? || row.graceExpires.None? || row.graceExpires.value <= now
  }

  /** Equal but for previous keys that are past their grace period. */
  predicate Alike(a: Tenant, b: Tenant, now: int) {
    && a.hash == b.hash && a.active == b.active
    && ((a.previous == b.previous && a.graceExpires == b.graceExpires) || (Dead(a, now) && Dead(b, now)))
  }

  ghost predicate AlikeStores(a: Store, b: Store, now: int) {
    a.tenants.Keys == b.tenants.Keys && forall t | t in a.tenants :: Alike(a.tenants[t], b.tenants[t], now)
  }

  function Unexpired(e: Timed<Event>): Timed<Event> {
    if e.event.ExpireAll? then e.(event := ExpireAll([], false)) else e
  }

  function WithoutExpiry(trace: seq<Timed<Event>>): seq<Timed<Event>> {
    seq(|trace|, i requires 0 <= i < |trace| => Unexpired(trace[i]))
  }

  lemma RotateAlike(a: Store, b: Store, t: TenantId, newHash: Hash, grace: nat, at: int, commits: bool)
    requires AlikeStores(a, b, at)
    ensures AlikeStores(Rotate(a, t, newHash, grace, at, commits).0, Rotate(b, t, newHash, grace, at, commits).0, at)
  {
    assert t in a.tenants ==> Alike(a.tenants[t], b.tenants[t], at);
  }

  lemma RevokeAlike(a: Store, b: Store, t: TenantId, at: int, commits: bool)
    requires AlikeStores(a, b, at)
    ensures AlikeStores(Revoke(a, t, commits).0, Revoke(b, t, commits).0, at)
  {
    assert t in a.tenants ==> Alike(a.tenants[t], b.tenants[t], at);
  }

  lemma ExpireAlike(a: Store, b: Store, order: seq<TenantId>, at: int)
    requires AlikeStores(a, b, at) && Enumerates(order, a, at)
    ensures AlikeStores(ExpireEach(a, order), b, at)
  {
    ExpireEachRows(a, order);
  }

  lemma StepAlike(a: Store, b: Store, e: Timed<Event>, before: int)
    requires AlikeStores(a, b, before) && before <= e.at
    ensures AlikeStores(Step(a, e), Step(b, Unexpired(e)), e.at)
  {
    assert AlikeStores(a, b, e.at);
    match e.event
    case RotateKey(t, newHash, grace, commits) => RotateAlike(a, b, t, newHash, grace, e.at, commits);
    case RevokePrevious(t, commits) => RevokeAlike(a, b, t, e.at, commits);
    case ExpireAll(order, commits) =>
      if commits && Enumerates(order, a, e.at) {
        ExpireAlike(a, b, order, e.at);
      }
  }

  lemma {:induction false} RunAlike(s: Store, trace: seq<Timed<Event>>, start: int)
    requires InOrder(trace, start)
    ensures AlikeStores(Run(s, trace), Run(s, WithoutExpiry(trace)), LastTime(trace, start))
  {
    if trace != [] {
      var n := |trace| - 1;
      RunAlike(s, trace[..n], start);
      assert WithoutExpiry(trace)[..n] == WithoutExpiry(trace[..n]);
      assert WithoutExpiry(trace)[n] == Unexpired(trace[n]);
      StepAlike(Run(s, trace[..n]), Run(s, WithoutExpiry(trace[..n])), trace[n], LastTime(trace[..n], start));
    }
  }

  /**
   Pruning expired keys changes no lookup: at the end of any run and at any later time, every tenant
   accepts exactly the keys it would accept had no expiry ever run.
   */
  lemma PruningInvisible(s: Store, trace: seq<Timed<Event>>, start: int, t: TenantId, h: Hash, now: int)
    requires InOrder(trace, start) && LastTime(trace, start) <= now && t in s.tenants
    ensures t in Run(s, trace).tenants && t in Run(s, WithoutExpiry(trace)).tenants
    ensures Accepts(Run(s, trace).tenants[t], h, now) <==> Accepts(Run(s, WithoutExpiry(trace)).tenants[t], h, now)
  {
    TenantsKept(s, trace);
    RunAlike(s, trace, start);
  }

  // ---------------------------------------------------------------------------------------------
  // Audit replay
  // ---------------------------------------------------------------------------------------------

  /** One audit entry applied to one tenant's row. */
  function Apply(row: Tenant, t: TenantId, e: Entry): Tenant {
    if e.tenant != t then row
    else match e
      case SecretIssued(_, _, newHash, previous, expires) =>
        row.(hash := newHash, previous := previous, graceExpires := expires)
      case SecretRevoked(_, _) => row.(previous := None, graceExpires := None)
  }

  function Replay(row: Tenant, t: TenantId, entries: seq<Entry>): Tenant {
    if entries == [] then row else Apply(Replay(row, t, entries[..|entries| - 1]), t, entries[|entries| - 1])
  }

  /** The last entry is an issuance that left the key it displaced no grace. */
  predicate JustDisplaced(entries: seq<Entry>, t: TenantId, h: Hash) {
    entries != [] &&
    var e := entries[|entries| - 1];
    e.SecretIssued? && e.tenant == t && e.oldHash == h && e.previous == None
  }

  /**
   An entry follows from those before it: an issuance starts from the hash they lead to, and a revocation
   names the previous hash they lead to, or the one an immediate rotation has just displaced.
   */
  predicate Follows(row: Tenant, t: TenantId, entries: seq<Entry>, e: Entry) {
    e.tenant == t ==>
      match e
      case SecretIssued(_, oldHash, _, _, _) => oldHash == Replay(row, t, entries).hash
      case SecretRevoked(_, h) => Replay(row, t, entries).previous == Some(h) || JustDisplaced(entries, t, h)
  }

  predicate Linked(row: Tenant, t: TenantId, entries: seq<Entry>) {
    entries == [] ||
    var init := entries[..|entries| - 1];
    Linked(row, t, init) && Follows(row, t, init, entries[|entries| - 1])
  }

  lemma ReplayAppend(row: Tenant, t: TenantId, entries: seq<Entry>, e: Entry)
    ensures Replay(row, t, entries + [e]) == Apply(Replay(row, t, entries), t, e)
  {
    assert (entries + [e])[..|entries + [e]| - 1] == entries;
  }

  lemma LinkedAppend(row: Tenant, t: TenantId, entries: seq<Entry>, e: Entry)
    requires Linked(row, t, entries) && Follows(row, t, entries, e)
    ensures Linked(row, t, entries + [e])
  {
    assert (entries + [e])[..|entries|] == entries;
  }

  /** The log explains the row. */
  ghost predicate Explains(row: Tenant, t: TenantId, s: Store) {
    t in s.tenants && Replay(row, t, s.audit) == s.tenants[t] && Linked(row, t, s.audit)
  }

  lemma AppendExplains(row: Tenant, t: TenantId, s: Store, u: TenantId, e: Entry)
    requires Explains(row, t, s) && e.tenant == u && u in s.tenants
    requires e.SecretIssued? ==> e.oldHash == s.tenants[u].hash
    requires e.SecretRevoked? ==> s.tenants[u].previous == Some(e.hash) || JustDisplaced(s.audit, u, e.hash)
    ensures Explains(row, t, Store(s.tenants[u := Apply(s.tenants[u], u, e)], s.audit + [e]))
  {
    ReplayAppend(row, t, s.audit, e);
    LinkedAppend(row, t, s.audit, e);
  }

  lemma {:induction false} ExpireExplains(row: Tenant, t: TenantId, s: Store, order: seq<TenantId>)
    requires Clearable(s, order)
    requires Explains(row, t, s)
    ensures Explains(row, t, ExpireEach(s, order))
    decreases |order|
  {
    if order != [] {
      var u := order[0];
      var e := SecretRevoked(u, s.tenants[u].previous.value);
      AppendExplains(row, t, s, u, e);
      ClearableTail(s, order);
      ExpireExplains(row, t, ExpireOne(s, u), order[1..]);
    }
  }

  lemma RotateExplains(row: Tenant, t: TenantId, s: Store, u: TenantId, newHash: Hash, grace: nat, at: int)
    requires Explains(row, t, s) && u in s.tenants
    ensures var before := s.tenants[u];
            Explains(row, t, Store(s.tenants[u := Rotated(before, newHash, grace, at)],
                                   s.audit + RotationEntries(u, before, newHash, grace, at)))
  {
    var before := s.tenants[u];
    var after := Rotated(before, newHash, grace, at);
    var issued := SecretIssued(u, before.hash, newHash, after.previous, after.graceExpires);
    AppendExplains(row, t, s, u, issued);
    var mid := Store(s.tenants[u := after], s.audit + [issued]);
    if grace == 0 {
      var revoked := SecretRevoked(u, before.hash);
      AppendExplains(row, t, mid, u, revoked);
      assert mid.tenants[u := after] == mid.tenants;
    }
    assert s.audit + RotationEntries(u, before, newHash, grace, at)
        == if grace == 0 then s.audit + [issued] + [SecretRevoked(u, before.hash)] else s.audit + [issued];
  }

  lemma StepExplains(row: Tenant, t: TenantId, s: Store, e: Timed<Event>)
    requires Explains(row, t, s)
    ensures Explains(row, t, Step(s, e))
  {
    match e.event
    case RotateKey(u, newHash, grace, _) =>
      if u in s.tenants {
        RotateExplains(row, t, s, u, newHash, grace, e.at);
      }
    case RevokePrevious(u, _) =>
      if u in s.tenants && s.tenants[u].previous.Some? {
        AppendExplains(row, t, s, u, SecretRevoked(u, s.tenants[u].previous.value));
      }
    case ExpireAll(order, commits) =>
      if commits && Enumerates(order, s, e.at) {
        ExpireExplains(row, t, s, order);
      }
  }

  /**
   The committed audit entries of a tenant, folded from its initial row, rebuild exactly its current
   hash, previous hash and grace expiry; each issuance starts from the hash the one before it issued, and
   each revocation names a key that was then displaced.
   */
  lemma {:induction false} AuditReplays(s: Store, trace: seq<Timed<Event>>, t: TenantId)
    requires s.audit == [] && t in s.tenants
    ensures Explains(s.tenants[t], t, Run(s, trace))
  {
    if trace != [] {
      var n := |trace| - 1;
      AuditReplays(s, trace[..n], t);
      StepExplains(s.tenants[t], t, Run(s, trace[..n]), trace[n]);
    }
  }

  // ---------------------------------------------------------------------------------------------
  // The tenants table
  // ---------------------------------------------------------------------------------------------

  class TenantTable {
    var tenants: map<TenantId, Tenant>
    var audit: seq<Entry>

    ghost function State(): Store
      reads this
    {
      Store(tenants, audit)
    }

    constructor (tenants: map<TenantId, Tenant>)
      ensures State() == Store(tenants, [])
    {
      this.tenants, audit := tenants, [];
    }

    method LookupApiKey(h: Hash, now: int) returns (r: Option<TenantId>)
      ensures r.Some? ==> r.value in tenants && Accepts(tenants[r.value], h, now)
      ensures r.Some? ==>
                var row := tenants[r.value];
                && row.active
                && (row.hash == h || (row.previous == Some(h) && row.graceExpires.Some? && now < row.graceExpires.value))
      ensures r.None? ==> !Accepted(State(), h, now)
      ensures r.None? ==>
                forall t | t in tenants && tenants[t].active ::
                  && tenants[t].hash != h
                  && (tenants[t].previous == Some(h) && tenants[t].graceExpires.Some? ==> tenants[t].graceExpires.value <= now)
    {
      if t :| t in tenants && Accepts(tenants[t], h, now) {
        return Some(t);
      }
      return None;
    }

    method RotateTenantApiKey(t: TenantId, newHash: Hash, grace: nat, now: int, commits: bool) returns (r: Outcome)
      modifies this
      ensures (State(), r) == Rotate(old(State()), t, newHash, grace, now, commits)
    {
      if grace > MAX_ROTATION_GRACE_SECONDS {
        return GraceTooLong;
      }
      if t !in tenants || !tenants[t].active {
        return NotFound;
      }
      if !commits {
        return RolledBack;
      }
      var current := tenants[t].hash;
      var previous, expires := None, None;
      if grace > 0 {
        previous, expires := Some(current), Some(now + grace);
      }
      tenants := tenants[t := Tenant(newHash, previous, expires, true)];
      audit := audit + [SecretIssued(t, current, newHash, previous, expires)];
      if grace == 0 {
        audit := audit + [SecretRevoked(t, current)];
      }
      assert audit == old(audit) + RotationEntries(t, old(tenants)[t], newHash, grace, now);
      return Done(true);
    }

    method RevokePreviousSecret(t: TenantId, commits: bool) returns (r: Outcome)
      modifies this
      ensures (State(), r) == Revoke(old(State()), t, commits)
    {
      if t !in tenants || !tenants[t].active {
        return NotFound;
      }
      if !commits {
        return RolledBack;
      }
      match tenants[t].previous
      case None => return Done(false);
      case Some(h) =>
        tenants := tenants[t := tenants[t].(previous := None, graceExpires := None)];
        audit := audit + [SecretRevoked(t, h)];
        return Done(true);
    }

    method RevokeExpired(order: seq<TenantId>, now: int) returns (count: nat)
      requires Enumerates(order, State(), now)
      modifies this
      ensures State() == ExpireEach(old(State()), order) && count == |order|
    {
      ghost var start := State();
      assert order[0..] == order;
      for i := 0 to |order|
        invariant Clearable(State(), order[i..])
        invariant ExpireEach(start, order) == ExpireEach(State(), order[i..])
      {
        var t := order[i];
        ghost var rest := order[i..];
        assert rest[0] == t && rest[1..] == order[i + 1..];
        ClearableTail(State(), rest);
        var h := tenants[t].previous.value;
        tenants := tenants[t := tenants[t].(previous := None, graceExpires := None)];
        audit := audit + [SecretRevoked(t, h)];
      }
      count := |order|;
    }
  }
}
