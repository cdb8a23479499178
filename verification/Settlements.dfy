/**
 `update_settlement_status` of src/db/queries.rs.  The row lock serialises updates, so racing updates
 are a sequence of calls whose expected status may be stale.

 Which transitions make sense is decided elsewhere; here any two statuses may be asked for.
 */
module Settlements {
  import opened Machine

  type Id = nat
  type Status = string

  const VOIDED: Status := "voided"

  datatype Settlement = Settlement(
    status: Status, total: int, originalTotal: Option<int>, disputeReason: Option<string>, reviewedBy: Option<string>)

  /** A `status_update` audit row. */
  datatype Entry = Entry(settlement: Id, from: Status, to: Status, reason: Option<string>)

  /** `links` maps a transaction to the settlement it belongs to, if any. */
  datatype Store = Store(settlements: map<Id, Settlement>, links: map<Id, Option<Id>>, audit: seq<Entry>)

  datatype Request = Request(
    id: Id, expected: Status, newStatus: Status, reason: Option<string>, newTotal: Option<int>, actor: string)

  datatype Result = Updated(settlement: Settlement) | RowNotFound

  /** SQL's COALESCE of two nullable values. */
  function Coalesce<T>(a: Option<T>, b: Option<T>): Option<T> {
    if a.Some? then a else b
  }

  function UpdatedRow(row: Settlement, q: Request): Settlement {
    var original := if row.originalTotal.None? && q.newTotal.Some? then Some(row.total) else row.originalTotal;
    Settlement(
      q.newStatus,
      if q.newTotal.Some? then q.newTotal.value else row.total,
      Coalesce(original, row.originalTotal),
      Coalesce(q.reason, row.disputeReason),
      Some(q.actor))
  }

  function Released(links: map<Id, Option<Id>>, id: Id): map<Id, Option<Id>> {
    map t | t in links :: if links[t] == Some(id) then None else links[t]
  }

  /** The update goes through exactly when it sees the status it expects and changes it. */
  predicate Wins(s: Store, q: Request) {
    q.id in s.settlements && s.settlements[q.id].status == q.expected && q.expected != q.newStatus
  }

  function Update(s: Store, q: Request): (Store, Result) {
    if !Wins(s, q) then (s, RowNotFound)
    else
      var row := UpdatedRow(s.settlements[q.id], q);
      (Store(s.settlements[q.id := row],
             if q.newStatus == VOIDED then Released(s.links, q.id) else s.links,
             s.audit + [Entry(q.id, q.expected, q.newStatus, q.reason)]),
       Updated(row))
  }

  /** A request, and whether its transaction commits; or a link made by the settlement batch. */
  datatype Event = Ask(request: Request, commits: bool) | Link(transaction: Id, settlement: Id)

  function Step(s: Store, e: Event): Store {
    match e
    case Ask(q, commits) => if commits then Update(s, q).0 else s
    case Link(t, id) => s.(links := s.links[t := Some(id)])
  }

  function Run(s: Store, events: seq<Event>): Store {
    if events == [] then s else Step(Run(s, events[..|events| - 1]), events[|events| - 1])
  }

  // ---------------------------------------------------------------------------------------------
  // The chain of committed updates
  // ---------------------------------------------------------------------------------------------

  /** The status an audit log leads to for one settlement, or `None` if the log does not chain. */
  function Replay(start: Status, id: Id, audit: seq<Entry>): Option<Status> {
    if audit == [] then Some(start)
    else
      var before := Replay(start, id, audit[..|audit| - 1]);
      var e := audit[|audit| - 1];
      if e.settlement != id then before
      else if before == Some(e.from) && e.from != e.to then Some(e.to)
      else None
  }

  lemma ReplayAppend(start: Status, id: Id, audit: seq<Entry>, e: Entry)
    ensures Replay(start, id, audit + [e]) ==
            if e.settlement != id then Replay(start, id, audit)
            else if Replay(start, id, audit) == Some(e.from) && e.from != e.to then Some(e.to)
            else None
  {
    assert (audit + [e])[..|audit + [e]| - 1] == audit;
  }

  /**
   In every serialised run of racing updates, aborted transactions included, the audit entries of a
   settlement form a chain: each starts from the status the one before it set, none is a no-op, and the
   last one's status is the row's.
   */
  lemma {:induction false} AuditChains(s: Store, events: seq<Event>, id: Id)
    requires s.audit == [] && id in s.settlements
    ensures id in Run(s, events).settlements
    ensures Replay(s.settlements[id].status, id, Run(s, events).audit) == Some(Run(s, events).settlements[id].status)
  {
    if events != [] {
      var n := |events| - 1;
      AuditChains(s, events[..n], id);
      var before := Run(s, events[..n]);
      match events[n]
      case Ask(q, commits) =>
        if commits && Wins(before, q) {
          ReplayAppend(s.settlements[id].status, id, before.audit, Entry(q.id, q.expected, q.newStatus, q.reason));
        }
      case Link(_, _) =>
    }
  }

  /** Updates that race from the same status: all expect it, and none leads back to it.  Any of them may abort. */
  ghost predicate Racing(asks: seq<Event>, id: Id, from: Status) {
    forall i | 0 <= i < |asks| ::
      asks[i].Ask? && asks[i].request.id == id && asks[i].request.expected == from && asks[i].request.newStatus != from
  }

  ghost predicate NoneCommits(asks: seq<Event>) {
    forall i | 0 <= i < |asks| :: asks[i].Ask? ==> !asks[i].commits
  }

  lemma {:induction false} AbortsLeaveNothing(s: Store, asks: seq<Event>, id: Id, from: Status)
    requires Racing(asks, id, from) && NoneCommits(asks)
    ensures Run(s, asks) == s
  {
    if asks != [] {
      AbortsLeaveNothing(s, asks[..|asks| - 1], id, from);
    }
  }

  /** Once the status has changed, none of the racing updates does anything. */
  lemma {:induction false} LateAsksFail(s: Store, asks: seq<Event>, id: Id, from: Status)
    requires Racing(asks, id, from) && id in s.settlements && s.settlements[id].status != from
    ensures Run(s, asks) == s
    ensures forall i | 0 <= i < |asks| :: Update(s, asks[i].request).1 == RowNotFound
  {
    if asks != [] {
      LateAsksFail(s, asks[..|asks| - 1], id, from);
    }
  }

  lemma {:induction false} RunConcat(s: Store, a: seq<Event>, b: seq<Event>)
    ensures Run(s, a + b) == Run(Run(s, a), b)
  {
    if b == [] {
      assert a + b == a;
    } else {
      var n := |b| - 1;
      RunConcat(s, a, b[..n]);
      assert (a + b)[..|a + b| - 1] == a + b[..n];
    }
  }

  /**
   Of any number of updates racing from the same status, some of which abort, exactly the first to commit
   wins: those before it change nothing, it is carried out, and every one after it, committed or not, is told
   that the row is not found and changes nothing.
   */
  lemma OneWinner(s: Store, before: seq<Event>, winner: Request, after: seq<Event>, id: Id, from: Status)
    requires id in s.settlements && s.settlements[id].status == from
    requires Racing(before + [Ask(winner, true)] + after, id, from) && NoneCommits(before)
    ensures Update(s, winner).1.Updated?
    ensures Run(s, before + [Ask(winner, true)]) == Run(s, before + [Ask(winner, true)] + after) == Update(s, winner).0
    ensures forall i | 0 <= i < |after| ::
              after[i].Ask? && Update(Update(s, winner).0, after[i].request).1 == RowNotFound
  {
    var asks := before + [Ask(winner, true)] + after;
    assert forall i | 0 <= i < |before| :: before[i] == asks[i];
    assert asks[|before|] == Ask(winner, true);
    assert forall i | 0 <= i < |after| :: after[i] == asks[|before| + 1 + i];
    AbortsLeaveNothing(s, before, id, from);
    assert (before + [Ask(winner, true)])[..|before|] == before;
    LateAsksFail(Update(s, winner).0, after, id, from);
    RunConcat(s, before + [Ask(winner, true)], after);
  }

  // ---------------------------------------------------------------------------------------------
  // Amounts and links
  // ---------------------------------------------------------------------------------------------

  /** The original amount, once recorded, is the amount at creation; until then the total still is. */
  ghost predicate Anchored(row: Settlement, created: int) {
    if row.originalTotal.None? then row.total == created else row.originalTotal.value == created
  }

  lemma UpdateAnchored(row: Settlement, q: Request, created: int)
    requires Anchored(row, created)
    ensures Anchored(UpdatedRow(row, q), created)
    ensures UpdatedRow(row, q).originalTotal.None? <==> row.originalTotal.None? && q.newTotal.None?
    ensures row.originalTotal.Some? ==> UpdatedRow(row, q).originalTotal == row.originalTotal
  {
  }

  /** The creation amount survives every run, and a recorded original amount never changes again. */
  lemma {:induction false} OriginalAmountKept(s: Store, events: seq<Event>, id: Id, created: int)
    requires id in s.settlements && Anchored(s.settlements[id], created)
    ensures id in Run(s, events).settlements && Anchored(Run(s, events).settlements[id], created)
    ensures s.settlements[id].originalTotal.Some? ==>
              Run(s, events).settlements[id].originalTotal == s.settlements[id].originalTotal
  {
    if events != [] {
      var n := |events| - 1;
      OriginalAmountKept(s, events[..n], id, created);
      if events[n].Ask? {
        UpdateAnchored(Run(s, events[..n]).settlements[id], events[n].request, created);
      }
    }
  }

  /** A void releases every transaction of that settlement and touches no other link. */
  lemma VoidReleases(s: Store, q: Request)
    requires Wins(s, q) && q.newStatus == VOIDED
    ensures var s' := Update(s, q).0;
            && s'.settlements[q.id].status == VOIDED
            && s'.links.Keys == s.links.Keys
            && (forall t | t in s'.links :: s'.links[t] != Some(q.id))
            && (forall t | t in s.links && s.links[t] != Some(q.id) :: s'.links[t] == s.links[t])
  {
  }

  /** An update that does not win changes nothing; one that does touches its own row, and links only if it voids. */
  lemma UpdateFrame(s: Store, q: Request)
    ensures var (s', r) := Update(s, q);
            && (r == RowNotFound ==> s' == s)
            && (r.Updated? ==>
                  && q.id in s.settlements && s'.settlements.Keys == s.settlements.Keys && r.settlement == s'.settlements[q.id]
                  && (forall id | id in s.settlements && id != q.id :: s'.settlements[id] == s.settlements[id])
                  && (q.newStatus != "voided" ==> s'.links == s.links))
  {
  }

  // ---------------------------------------------------------------------------------------------
  // What the committed updates add up to
  // ---------------------------------------------------------------------------------------------

  /** The requests of a run that were carried out, in order. */
  function Winners(s: Store, events: seq<Event>): seq<Request> {
    if events == [] then []
    else
      var n := |events| - 1;
      var e := events[n];
      Winners(s, events[..n]) + if e.Ask? && e.commits && Wins(Run(s, events[..n]), e.request) then [e.request] else []
  }

  /** The last value given for the settlement, or else `initial`. */
  function Latest<T>(qs: seq<Request>, id: Id, value: Request -> Option<T>, initial: T): T {
    if qs == [] then initial
    else
      var q := qs[|qs| - 1];
      if q.id == id && value(q).Some? then value(q).value else Latest(qs[..|qs| - 1], id, value, initial)
  }

  /** The settlement was ever given a new total. */
  predicate Adjusted(qs: seq<Request>, id: Id) {
    qs != [] && ((qs[|qs| - 1].id == id && qs[|qs| - 1].newTotal.Some?) || Adjusted(qs[..|qs| - 1], id))
  }

  /** A settlement's row after the requests `qs` were carried out on it. */
  predicate Reflects(row: Settlement, initial: Settlement, qs: seq<Request>, id: Id) {
    && row.status == Latest(qs, id, (q: Request) => Some(q.newStatus), initial.status)
    && row.total == Latest(qs, id, (q: Request) => q.newTotal, initial.total)
    && row.disputeReason == Latest(qs, id, (q: Request) => if q.reason.Some? then Some(q.reason) else None, initial.disputeReason)
    && row.reviewedBy == Latest(qs, id, (q: Request) => Some(Some(q.actor)), initial.reviewedBy)
    && row.originalTotal ==
       if initial.originalTotal.Some? then initial.originalTotal
       else if Adjusted(qs, id) then Some(initial.total)
       else None
  }

  lemma LatestAppend<T>(qs: seq<Request>, q: Request, id: Id, value: Request -> Option<T>, initial: T)
    ensures Latest(qs + [q], id, value, initial) ==
            if q.id == id && value(q).Some? then value(q).value else Latest(qs, id, value, initial)
  {
    assert (qs + [q])[..|qs|] == qs;
  }

  lemma ReflectsAppend(row: Settlement, initial: Settlement, qs: seq<Request>, q: Request, id: Id)
    requires Reflects(row, initial, qs, id)
    requires row.originalTotal.None? ==> row.total == initial.total
    ensures Reflects(if q.id == id then UpdatedRow(row, q) else row, initial, qs + [q], id)
  {
    LatestAppend(qs, q, id, (q: Request) => Some(q.newStatus), initial.status);
    LatestAppend(qs, q, id, (q: Request) => q.newTotal, initial.total);
    LatestAppend(qs, q, id, (q: Request) => if q.reason.Some? then Some(q.reason) else None, initial.disputeReason);
    LatestAppend(qs, q, id, (q: Request) => Some(Some(q.actor)), initial.reviewedBy);
    assert (qs + [q])[..|qs|] == qs;
  }

  lemma {:induction false} Unadjusted(qs: seq<Request>, id: Id, initial: int)
    requires !Adjusted(qs, id)
    ensures Latest(qs, id, (q: Request) => q.newTotal, initial) == initial
  {
    if qs != [] {
      Unadjusted(qs[..|qs| - 1], id, initial);
    }
  }

  function EntryOf(q: Request): Entry {
    Entry(q.id, q.expected, q.newStatus, q.reason)
  }

  /**
   In every run the log is the committed updates in order, and every row is what they add up to: the last
   status, total, reason and reviewer given for it, and its first total as the original one if it was ever
   adjusted.
   */
  lemma {:induction false} RowsReflectWinners(s: Store, events: seq<Event>, id: Id)
    requires id in s.settlements
    ensures var s' := Run(s, events);
            && id in s'.settlements && Reflects(s'.settlements[id], s.settlements[id], Winners(s, events), id)
            && |s'.audit| == |s.audit| + |Winners(s, events)|
            && s.audit <= s'.audit
            && forall i | 0 <= i < |Winners(s, events)| :: s'.audit[|s.audit| + i] == EntryOf(Winners(s, events)[i])
  {
    if events != [] {
      var n := |events| - 1;
      RowsReflectWinners(s, events[..n], id);
      var g, e, qs := Run(s, events[..n]), events[n], Winners(s, events[..n]);
      if e.Ask? && e.commits && Wins(g, e.request) {
        if g.settlements[id].originalTotal.None? {
          Unadjusted(qs, id, s.settlements[id].total);
        }
        ReflectsAppend(g.settlements[id], s.settlements[id], qs, e.request, id);
      } else {
        assert Winners(s, events) == qs;
      }
    }
  }

  // ---------------------------------------------------------------------------------------------
  // The tables
  // ---------------------------------------------------------------------------------------------

  class SettlementTable {
    var settlements: map<Id, Settlement>
    var links: map<Id, Option<Id>>
    var audit: seq<Entry>

    ghost function State(): Store
      reads this
    {
      Store(settlements, links, audit)
    }

    constructor (settlements: map<Id, Settlement>, links: map<Id, Option<Id>>)
      ensures State() == Store(settlements, links, [])
    {
      this.settlements, this.links, audit := settlements, links, [];
    }

    method UpdateSettlementStatus(q: Request) returns (r: Result)
      modifies this
      ensures (State(), r) == Update(old(State()), q)
    {
      if q.id !in settlements {
        return RowNotFound;
      }
      var current := settlements[q.id];
      if current.status != q.expected || current.status == q.newStatus {
        return RowNotFound;
      }
      var original := current.originalTotal;
      if current.originalTotal.None? && q.newTotal.Some? {
        original := Some(current.total);
      }
      var updated := Settlement(
        q.newStatus,
        if q.newTotal.Some? then q.newTotal.value else current.total,
        Coalesce(original, current.originalTotal),
        Coalesce(q.reason, current.disputeReason),
        Some(q.actor));
      settlements := settlements[q.id := updated];
      if q.newStatus == VOIDED {
        links := map t | t in links :: if links[t] == Some(q.id) then None else links[t];
      }
      audit := audit + [Entry(q.id, current.status, q.newStatus, q.reason)];
      return Updated(updated);
    }
  }
}
