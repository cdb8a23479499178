/**
 Audit log retention of src/db/audit.rs: fetch, look up disputes, write the archive, record it, delete.
 Any number of runs, of inserts and of disputes being opened and closed interleave, one database or
 storage operation at a time, and every operation can fail.
 */
module AuditRetention {
  import opened Machine

  type RowId = nat
  type ArchiveKey = nat

  datatype Row = Row(entity: nat, timestamp: int)

  /** A row of `audit_log_archives`. */
  datatype Meta = Meta(key: ArchiveKey, rowCount: nat, coversFrom: int, coversTo: int)

  /** One retention run, by the operation it performs next. */
  datatype RunPc =
    | Idle
    | Querying(cutoff: int, rows: map<RowId, Row>, earliest: int)
    | Writing(cutoff: int, rows: map<RowId, Row>, earliest: int, disputed: set<nat>)
    | Recording(cutoff: int, rows: map<RowId, Row>, earliest: int, disputed: set<nat>, key: ArchiveKey)
    | Deleting(rows: map<RowId, Row>, disputed: set<nat>, key: ArchiveKey)

  /**
   `disputes` are the entities whose transaction is in status `disputed`; `ever` is a history of all rows
   inserted, `used` of all archive keys written to.
   */
  datatype State = State(
    live: map<RowId, Row>, archives: map<ArchiveKey, map<RowId, Row>>, metas: seq<Meta>, runs: seq<RunPc>,
    disputes: set<nat>, ever: map<RowId, Row>, used: set<ArchiveKey>)

  /** What a storage write leaves behind when it reports an error. */
  datatype WriteOutcome = Confirmed | Untouched | Garbled(partial: map<RowId, Row>)

  datatype Event =
    | Insert(id: RowId, row: Row)
    | SetDispute(entity: nat, open: bool)
    | Fetch(run: nat, cutoff: int, earliest: int, ok: bool)
    | QueryDisputed(run: nat, ok: bool)
    | WriteArchive(run: nat, key: ArchiveKey, outcome: WriteOutcome)
    | RecordMeta(run: nat, ok: bool)
    | Delete(run: nat, ok: bool)

  function Older(live: map<RowId, Row>, cutoff: int): map<RowId, Row> {
    map id | id in live && live[id].timestamp < cutoff :: live[id]
  }

  /** The timestamp of the first row in ascending order. */
  predicate IsEarliest(rows: map<RowId, Row>, earliest: int) {
    && (exists id | id in rows :: rows[id].timestamp == earliest)
    && forall id | id in rows :: earliest <= rows[id].timestamp
  }

  /** What the dispute query returns: the fetched entities that are disputed when it runs. */
  function Found(rows: map<RowId, Row>, disputes: set<nat>): set<nat> {
    set id | id in rows && rows[id].entity in disputes :: rows[id].entity
  }

  /** The fetched rows whose entity is not protected. */
  function Deletable(rows: map<RowId, Row>, disputed: set<nat>): set<RowId> {
    set id | id in rows && rows[id].entity !in disputed
  }

  function Init(runs: nat): State {
    State(map[], map[], [], seq(runs, _ => Idle), {}, map[], {})
  }

  function Goto(s: State, r: nat, pc: RunPc): State
    requires r < |s.runs|
  {
    s.(runs := s.runs[r := pc])
  }

  /** Not a step of a retention run. */
  predicate Outside(e: Event) {
    e.Insert? || e.SetDispute?
  }

  function RunStep(s: State, e: Event): State
    requires !Outside(e) && e.run < |s.runs|
  {
    var pc := s.runs[e.run];
    match e
    case Fetch(r, cutoff, earliest, ok) =>
      var rows := Older(s.live, cutoff);
      // An empty result ends the run; otherwise `earliest` is what the first row says.
      if pc.Idle? && ok && IsEarliest(rows, earliest) then Goto(s, r, Querying(cutoff, rows, earliest)) else s
    case QueryDisputed(r, ok) =>
      // A failing query counts as no disputes.
      if pc.Querying?
      then Goto(s, r, Writing(pc.cutoff, pc.rows, pc.earliest, if ok then Found(pc.rows, s.disputes) else {}))
      else s
    case WriteArchive(r, key, outcome) =>
      if !pc.Writing? then s
      else if outcome.Confirmed? then
        Goto(s.(archives := s.archives[key := pc.rows], used := s.used + {key}), r,
             Recording(pc.cutoff, pc.rows, pc.earliest, pc.disputed, key))
      else if outcome.Untouched? then Goto(s, r, Idle)
      else Goto(s.(archives := s.archives[key := outcome.partial], used := s.used + {key}), r, Idle)
    case RecordMeta(r, ok) =>
      if !pc.Recording? then s
      else if !ok then Goto(s, r, Idle)
      else Goto(s.(metas := s.metas + [Meta(pc.key, |pc.rows|, pc.earliest, pc.cutoff)]), r,
                Deleting(pc.rows, pc.disputed, pc.key))
    case Delete(r, ok) =>
      if !pc.Deleting? then s
      else if !ok then Goto(s, r, Idle)
      else Goto(s.(live := s.live - Deletable(pc.rows, pc.disputed)), r, Idle)
    case _ => s
  }

  function Step(s: State, e: Event): State {
    if e.Insert? then
      if e.id in s.ever then s
      else s.(live := s.live[e.id := e.row], ever := s.ever[e.id := e.row])
    else if e.SetDispute? then
      s.(disputes := if e.open then s.disputes + {e.entity} else s.disputes - {e.entity})
    else if e.run < |s.runs| then RunStep(s, e) else s
  }

  function Run(s: State, events: seq<Event>): State {
    if events == [] then s else Step(Run(s, events[..|events| - 1]), events[|events| - 1])
  }

  // ---------------------------------------------------------------------------------------------
  // No row is lost
  // ---------------------------------------------------------------------------------------------

  /** The record points to a stored archive that holds the row, and its range covers it. */
  predicate Covers(s: State, m: Meta, id: RowId, row: Row) {
    && m.key in s.archives && id in s.archives[m.key] && s.archives[m.key][id] == row
    && m.coversFrom <= row.timestamp < m.coversTo
  }

  ghost predicate Archived(s: State, id: RowId, row: Row) {
    exists i | 0 <= i < |s.metas| :: Covers(s, s.metas[i], id, row)
  }

  ghost predicate NoneLost(s: State) {
    forall id | id in s.ever :: (id in s.live && s.live[id] == s.ever[id]) || Archived(s, id, s.ever[id])
  }

  /** What a run holds is a set of genuine rows, and once it may delete them they are archived under a record. */
  ghost predicate RunOk(s: State, pc: RunPc) {
    match pc
    case Idle => true
    case Querying(cutoff, rows, earliest) => Genuine(s, rows, earliest, cutoff)
    case Writing(cutoff, rows, earliest, _) => Genuine(s, rows, earliest, cutoff)
    case Recording(cutoff, rows, earliest, _, key) =>
      Genuine(s, rows, earliest, cutoff) && key in s.archives && s.archives[key] == rows
    case Deleting(rows, _, key) =>
      && (forall id | id in rows :: id in s.ever && s.ever[id] == rows[id])
      && forall id | id in rows :: Archived(s, id, rows[id])
  }

  ghost predicate Genuine(s: State, rows: map<RowId, Row>, from: int, to: int) {
    forall id | id in rows :: id in s.ever && s.ever[id] == rows[id] && from <= rows[id].timestamp < to
  }

  ghost predicate LiveOk(s: State) {
    && (forall id | id in s.live :: id in s.ever && s.live[id] == s.ever[id])
    && s.archives.Keys <= s.used
  }

  ghost predicate Sound(s: State) {
    && NoneLost(s)
    && LiveOk(s)
    && (forall r | 0 <= r < |s.runs| :: RunOk(s, s.runs[r]))
  }

  /** Every write uses a key no run has written to before. */
  predicate FreshKey(s: State, e: Event) {
    Writes(s, e) ==> e.key !in s.used
  }

  /** Nothing recorded goes away: archives are only added to, and so are records and history. */
  ghost predicate Extends(s: State, s': State) {
    && (forall k | k in s.archives :: k in s'.archives && s'.archives[k] == s.archives[k])
    && s.metas <= s'.metas
    && (forall id | id in s.ever :: id in s'.ever && s'.ever[id] == s.ever[id])
  }

  /** The event is a write that leaves something, complete or not, under its key. */
  predicate Writes(s: State, e: Event) {
    e.WriteArchive? && e.run < |s.runs| && s.runs[e.run].Writing? && !e.outcome.Untouched?
  }

  predicate Deletes(s: State, e: Event) {
    e.Delete? && e.ok && e.run < |s.runs| && s.runs[e.run].Deleting?
  }

  lemma StepExtends(s: State, e: Event)
    requires Writes(s, e) ==> e.key !in s.archives
    ensures Extends(s, Step(s, e))
  {
  }

  lemma ArchivedKept(s: State, s': State, id: RowId, row: Row)
    requires Extends(s, s') && Archived(s, id, row)
    ensures Archived(s', id, row)
  {
    var i :| 0 <= i < |s.metas| && Covers(s, s.metas[i], id, row);
    assert Covers(s', s'.metas[i], id, row);
  }

  lemma RunOkKept(s: State, s': State, pc: RunPc)
    requires Extends(s, s') && RunOk(s, pc)
    ensures RunOk(s', pc)
  {
    if pc.Deleting? {
      forall id | id in pc.rows
        ensures Archived(s', id, pc.rows[id])
      {
        ArchivedKept(s, s', id, pc.rows[id]);
      }
    }
  }

  /** Recording the metadata turns the confirmed archive into one that covers all its rows. */
  lemma RecordArchives(s: State, e: Event)
    requires Sound(s) && e.RecordMeta? && e.ok && e.run < |s.runs| && s.runs[e.run].Recording?
    ensures RunOk(Step(s, e), Step(s, e).runs[e.run])
  {
    var pc, s' := s.runs[e.run], Step(s, e);
    var m := Meta(pc.key, |pc.rows|, pc.earliest, pc.cutoff);
    assert RunOk(s, pc);
    assert s'.metas[|s.metas|] == m;
    assert forall id | id in pc.rows :: Covers(s', s'.metas[|s.metas|], id, pc.rows[id]);
  }

  lemma OwnRunOk(s: State, e: Event)
    requires Sound(s) && FreshKey(s, e) && !Outside(e) && e.run < |s.runs|
    ensures RunOk(Step(s, e), Step(s, e).runs[e.run])
  {
    StepExtends(s, e);
    RunOkKept(s, Step(s, e), s.runs[e.run]);
    if e.RecordMeta? && e.ok && s.runs[e.run].Recording? {
      RecordArchives(s, e);
    }
  }

  lemma OtherRunsStay(s: State, e: Event, r: nat)
    requires r < |s.runs| && (Outside(e) || e.run != r)
    ensures |Step(s, e).runs| == |s.runs| && Step(s, e).runs[r] == s.runs[r]
  {
  }

  lemma StepRunsOk(s: State, e: Event)
    requires Sound(s) && FreshKey(s, e)
    ensures forall r | 0 <= r < |Step(s, e).runs| :: RunOk(Step(s, e), Step(s, e).runs[r])
  {
    var s' := Step(s, e);
    StepExtends(s, e);
    forall r | 0 <= r < |s'.runs|
      ensures RunOk(s', s'.runs[r])
    {
      if !Outside(e) && e.run == r {
        OwnRunOk(s, e);
      } else {
        OtherRunsStay(s, e, r);
        RunOkKept(s, s', s.runs[r]);
      }
    }
  }

  /** Only a delete removes live rows, and only rows that its run has seen archived. */
  lemma StepKeepsRow(s: State, e: Event, id: RowId)
    requires Sound(s) && id in s.live
    ensures (id in Step(s, e).live && Step(s, e).live[id] == s.live[id]) || Archived(s, id, s.live[id])
  {
    if e.Delete? && e.run < |s.runs| && s.runs[e.run].Deleting? {
      assert RunOk(s, s.runs[e.run]);
    }
  }

  lemma StepNoneLost(s: State, e: Event)
    requires Sound(s) && FreshKey(s, e)
    ensures NoneLost(Step(s, e))
  {
    var s' := Step(s, e);
    StepExtends(s, e);
    forall id | id in s'.ever
      ensures (id in s'.live && s'.live[id] == s'.ever[id]) || Archived(s', id, s'.ever[id])
    {
      if id in s.ever {
        if id in s.live {
          StepKeepsRow(s, e, id);
        }
        if Archived(s, id, s.ever[id]) {
          ArchivedKept(s, s', id, s.ever[id]);
        }
      }
    }
  }

  lemma StepLive(s: State, e: Event)
    requires LiveOk(s)
    ensures LiveOk(Step(s, e))
  {
  }

  lemma StepSound(s: State, e: Event)
    requires Sound(s) && FreshKey(s, e)
    ensures Sound(Step(s, e))
  {
    StepRunsOk(s, e);
    StepNoneLost(s, e);
    StepLive(s, e);
  }

  /** Every write of the run does. */
  predicate FreshKeys(s: State, events: seq<Event>) {
    events == [] ||
    var init := events[..|events| - 1];
    FreshKeys(s, init) && FreshKey(Run(s, init), events[|events| - 1])
  }

  /**
   No audit row is ever lost.  In every interleaving of inserts and any number of retention runs that may
   fail at any operation, provided no two archive writes share a key: every row ever inserted is still
   live or is in a stored archive, under a metadata record whose half-open range contains its timestamp.
   */
  lemma {:induction false} NoRowLost(runs: nat, events: seq<Event>)
    requires FreshKeys(Init(runs), events)
    ensures Sound(Run(Init(runs), events))
  {
    if events != [] {
      var n := |events| - 1;
      NoRowLost(runs, events[..n]);
      StepSound(Run(Init(runs), events[..n]), events[n]);
    }
  }

  // ---------------------------------------------------------------------------------------------
  // Exactly when a row is lost
  // ---------------------------------------------------------------------------------------------

  /** What a run holds are rows that were inserted. */
  ghost predicate Held(s: State, pc: RunPc) {
    !pc.Idle? ==> forall id | id in pc.rows :: id in s.ever && s.ever[id] == pc.rows[id]
  }

  /** What every reachable state has, whatever keys the runs use. */
  ghost predicate Plain(s: State) {
    && (forall id | id in s.live :: id in s.ever && s.live[id] == s.ever[id])
    && forall r | 0 <= r < |s.runs| :: Held(s, s.runs[r])
  }

  lemma OwnHeld(s: State, e: Event)
    requires Plain(s) && !Outside(e) && e.run < |s.runs|
    ensures Held(Step(s, e), Step(s, e).runs[e.run])
  {
    assert Held(s, s.runs[e.run]);
    var pc := Step(s, e).runs[e.run];
    assert pc.Idle? || pc.rows == if s.runs[e.run].Idle? then Older(s.live, e.cutoff) else s.runs[e.run].rows;
  }

  lemma HistoryGrows(s: State, e: Event)
    ensures forall id | id in s.ever :: id in Step(s, e).ever && Step(s, e).ever[id] == s.ever[id]
    ensures |Step(s, e).runs| == |s.runs|
  {
  }

  lemma StepPlain(s: State, e: Event)
    requires Plain(s)
    ensures Plain(Step(s, e))
  {
    var s' := Step(s, e);
    HistoryGrows(s, e);
    forall r | 0 <= r < |s'.runs|
      ensures Held(s', s'.runs[r])
    {
      if !Outside(e) && e.run == r {
        OwnHeld(s, e);
      } else {
        OtherRunsStay(s, e, r);
        assert Held(s, s.runs[r]);
      }
    }
    LivePlain(s, e);
  }

  lemma LivePlain(s: State, e: Event)
    requires Plain(s)
    ensures forall id | id in Step(s, e).live :: id in Step(s, e).ever && Step(s, e).live[id] == Step(s, e).ever[id]
  {
  }

  lemma {:induction false} ReachablePlain(runs: nat, events: seq<Event>)
    ensures Plain(Run(Init(runs), events))
  {
    if events != [] {
      ReachablePlain(runs, events[..|events| - 1]);
      StepPlain(Run(Init(runs), events[..|events| - 1]), events[|events| - 1]);
    }
  }

  /** A deleted row whose only covering archives are stored under `key`. */
  ghost predicate OnlyUnder(s: State, id: RowId, key: ArchiveKey) {
    && id in s.ever && id !in s.live
    && forall i | 0 <= i < |s.metas| && Covers(s, s.metas[i], id, s.ever[id]) :: s.metas[i].key == key
  }

  function Contents(s: State, e: Event): map<RowId, Row>
    requires Writes(s, e)
  {
    if e.outcome.Confirmed? then s.runs[e.run].rows else e.outcome.partial
  }

  function Doomed(s: State, e: Event): set<RowId>
    requires Deletes(s, e)
  {
    Deletable(s.runs[e.run].rows, s.runs[e.run].disputed)
  }

  /**
   The guard of a step.  A write must hold every deleted row that only its key covers; a delete must
   find a covering record for every live row it removes; no other step can lose anything.
   */
  ghost predicate Safe(s: State, e: Event) {
    && (Writes(s, e) ==> forall id | OnlyUnder(s, id, e.key) :: (id, s.ever[id]) in Contents(s, e).Items)
    && (Deletes(s, e) ==> forall id | id in Doomed(s, e) && id in s.live :: Archived(s, id, s.live[id]))
  }

  /** The row is live as inserted, or archived. */
  ghost predicate Kept(s: State, id: RowId)
    requires id in s.ever
  {
    (id in s.live && s.live[id] == s.ever[id]) || Archived(s, id, s.ever[id])
  }

  lemma WriteKeepsIff(s: State, e: Event, id: RowId)
    requires Plain(s) && NoneLost(s) && Writes(s, e) && id in s.ever
    ensures id in Step(s, e).ever
    ensures Kept(Step(s, e), id) <==> (OnlyUnder(s, id, e.key) ==> (id, s.ever[id]) in Contents(s, e).Items)
  {
    var s', row := Step(s, e), s.ever[id];
    assert s'.metas == s.metas && s'.live == s.live && s'.ever == s.ever;
    assert s'.archives == s.archives[e.key := Contents(s, e)];
    if id !in s.live {
      var i :| 0 <= i < |s.metas| && Covers(s, s.metas[i], id, row);
      if s.metas[i].key != e.key {
        assert Covers(s', s'.metas[i], id, row);
      } else if (id, row) in Contents(s, e).Items {
        assert Covers(s', s'.metas[i], id, row);
      } else {
        assert forall j | 0 <= j < |s.metas| && Covers(s', s'.metas[j], id, row) ::
            s.metas[j].key != e.key && Covers(s, s.metas[j], id, row);
        assert forall j | 0 <= j < |s.metas| && s.metas[j].key != e.key && Covers(s, s.metas[j], id, row) ::
            Covers(s', s'.metas[j], id, row);
      }
    }
  }

  lemma DeleteKeepsIff(s: State, e: Event, id: RowId)
    requires Plain(s) && NoneLost(s) && Deletes(s, e) && id in s.ever
    ensures id in Step(s, e).ever
    ensures Kept(Step(s, e), id) <==> (id in Doomed(s, e) && id in s.live ==> Archived(s, id, s.live[id]))
  {
    var s' := Step(s, e);
    assert s'.metas == s.metas && s'.archives == s.archives && s'.ever == s.ever;
    assert s'.live == s.live - Doomed(s, e);
    assert Archived(s', id, s.ever[id]) <==> Archived(s, id, s.ever[id]) by {
      assert forall i | 0 <= i < |s.metas| :: Covers(s', s'.metas[i], id, s.ever[id]) == Covers(s, s.metas[i], id, s.ever[id]);
    }
  }

  lemma LiveStays(s: State, e: Event)
    requires !Deletes(s, e) && (e.Insert? ==> forall id | id in s.live :: id in s.ever)
    ensures forall id | id in s.live :: id in Step(s, e).live && Step(s, e).live[id] == s.live[id]
    ensures forall id | id in Step(s, e).ever && id !in s.ever ::
              id in Step(s, e).live && Step(s, e).live[id] == Step(s, e).ever[id]
  {
  }

  /** The other steps only add rows and records. */
  lemma OthersKeep(s: State, e: Event)
    requires Plain(s) && NoneLost(s) && !Writes(s, e) && !Deletes(s, e)
    ensures NoneLost(Step(s, e))
  {
    var s' := Step(s, e);
    StepExtends(s, e);
    LiveStays(s, e);
    forall id | id in s'.ever
      ensures (id in s'.live && s'.live[id] == s'.ever[id]) || Archived(s', id, s'.ever[id])
    {
      if id in s.ever && Archived(s, id, s.ever[id]) {
        ArchivedKept(s, s', id, s.ever[id]);
      }
    }
  }

  /** A step from a state that has lost nothing loses something if and only if its guard fails. */
  lemma StepLosesIff(s: State, e: Event)
    requires Plain(s) && NoneLost(s)
    ensures NoneLost(Step(s, e)) <==> Safe(s, e)
  {
    var s' := Step(s, e);
    if Writes(s, e) {
      assert s'.ever == s.ever;
      forall id | id in s.ever
        ensures Kept(s', id) <==> (OnlyUnder(s, id, e.key) ==> (id, s.ever[id]) in Contents(s, e).Items)
      {
        WriteKeepsIff(s, e, id);
      }
      assert NoneLost(s') <==> forall id | id in s.ever :: Kept(s', id);
    } else if Deletes(s, e) {
      assert s'.ever == s.ever;
      forall id | id in s.ever
        ensures Kept(s', id) <==> (id in Doomed(s, e) && id in s.live ==> Archived(s, id, s.live[id]))
      {
        DeleteKeepsIff(s, e, id);
      }
      assert NoneLost(s') <==> forall id | id in s.ever :: Kept(s', id);
    } else {
      OthersKeep(s, e);
    }
  }

  /** No state of the run, from the first to the last, has lost a row. */
  ghost predicate NeverLoses(s: State, events: seq<Event>) {
    (events == [] || NeverLoses(s, events[..|events| - 1])) && NoneLost(Run(s, events))
  }

  /** Every step of the run meets its guard. */
  ghost predicate AllSafe(s: State, events: seq<Event>) {
    events == [] ||
    var init := events[..|events| - 1];
    AllSafe(s, init) && Safe(Run(s, init), events[|events| - 1])
  }

  /**
   The exact condition, for every interleaving and every choice of archive keys: no row is lost at any
   point of a run if and only if every write and every delete of it meets its guard.
   */
  lemma {:induction false} RunLosesIff(runs: nat, events: seq<Event>)
    ensures NeverLoses(Init(runs), events) <==> AllSafe(Init(runs), events)
  {
    if events != [] {
      var n := |events| - 1;
      var s := Run(Init(runs), events[..n]);
      RunLosesIff(runs, events[..n]);
      ReachablePlain(runs, events[..n]);
      if NoneLost(s) {
        StepLosesIff(s, events[n]);
      }
    }
  }

  /** Distinct keys meet every guard. */
  lemma FreshKeysAreSafe(runs: nat, events: seq<Event>)
    requires FreshKeys(Init(runs), events)
    ensures AllSafe(Init(runs), events)
  {
    FreshKeysNeverLose(runs, events);
    RunLosesIff(runs, events);
  }

  lemma {:induction false} FreshKeysNeverLose(runs: nat, events: seq<Event>)
    requires FreshKeys(Init(runs), events)
    ensures NeverLoses(Init(runs), events)
  {
    NoRowLost(runs, events);
    if events != [] {
      FreshKeysNeverLose(runs, events[..|events| - 1]);
    }
  }

  // ---------------------------------------------------------------------------------------------
  // Shared archive keys
  // ---------------------------------------------------------------------------------------------

  /**
   Guards do fail.  Archive names have a resolution of one second; a second run that writes under the
   name of an earlier one replaces the only copy of what that run deleted.
   */
  lemma SharedKeyLosesRow() returns (events: seq<Event>)
    ensures !NoneLost(Run(Init(2), events))
  {
    var a, b := Row(1, 10), Row(2, 20);
    var s0 := Init(2);
    // Run 0 archives row 0 under key 7 and deletes it.
    events := Extend(s0, [], s0, Insert(0, a));
    var s1 := Step(s0, Insert(0, a));
    events := ArchiveOne(s0, events, s1, 0, 0, a, 7);
    var s2 := Filed(s1, 0, a, 7);
    events := Extend(s0, events, s2, RecordMeta(0, true));
    events := Extend(s0, events, Step(s2, RecordMeta(0, true)), Delete(0, true));
    Forgotten(s2, a);
    // Run 1 archives row 1 under the same key.
    var s3 := Step(Step(s2, RecordMeta(0, true)), Delete(0, true));
    events := Extend(s0, events, s3, Insert(1, b));
    var s4 := Step(s3, Insert(1, b));
    assert s4.live == map[1 := b];
    events := ArchiveOne(s0, events, s4, 1, 1, b, 7);
    var s5 := Filed(s4, 1, b, 7);
    assert s5.archives[7] == map[1 := b] && s5.metas == [Meta(7, 1, 10, 11)] && 0 in s5.ever && 0 !in s5.live;
  }

  predicate NoDelete(events: seq<Event>) {
    events == [] || (NoDelete(events[..|events| - 1]) && !events[|events| - 1].Delete?)
  }

  lemma {:induction false} NoDeleteNoLoss(runs: nat, events: seq<Event>)
    requires NoDelete(events)
    ensures Run(Init(runs), events).live == Run(Init(runs), events).ever && NeverLoses(Init(runs), events)
  {
    if events != [] {
      NoDeleteNoLoss(runs, events[..|events| - 1]);
    }
  }

  /**
   The overwritten archive need not be recorded yet.  Two runs fetch, both write under one key, and the
   first, which sees its write confirmed, records and deletes: nothing is lost until that delete, which
   loses the row that only the first archive held.
   */
  lemma RacingWritesLoseRow() returns (events: seq<Event>)
    ensures NeverLoses(Init(2), events)
    ensures !NoneLost(Run(Init(2), events + [Delete(0, true)]))
  {
    var a, b := Row(1, 10), Row(2, 5);
    var s0 := Init(2);
    events := Extend(s0, [], s0, Insert(0, a));
    events := Extend(s0, events, Step(s0, Insert(0, a)), Insert(1, b));
    var both, late := map[0 := a, 1 := b], map[1 := b];
    var s := s0.(live := both, ever := both);
    events := BothFetched(s0, events, s, a, b);
    events := Overwritten(s0, events, s.(runs := [Writing(11, both, 5, {}), Writing(6, late, 5, {})]), both, late);
    NoDeleteNoLoss(2, events);
    assert (events + [Delete(0, true)])[..|events|] == events;
    LosesFirst(Run(s0, events), both, late);
  }

  /** Run 1 fetches only the older row, run 0 both. */
  lemma BothFetched(start: State, events: seq<Event>, s: State, a: Row, b: Row) returns (longer: seq<Event>)
    requires Run(start, events) == s && NoDelete(events) && a.timestamp == 10 && b.timestamp == 5
    requires s.live == map[0 := a, 1 := b] && s.runs == [Idle, Idle] && s.disputes == {}
    ensures Run(start, longer) == s.(runs := [Writing(11, s.live, 5, {}), Writing(6, map[1 := b], 5, {})])
    ensures NoDelete(longer)
  {
    TwoRows(a, b);
    longer := Fetched(start, events, s, 1, 6, 5, map[1 := b]);
    longer := Fetched(start, longer, Goto(s, 1, Writing(6, map[1 := b], 5, {})), 0, 11, 5, s.live);
  }

  lemma TwoRows(a: Row, b: Row)
    requires a.timestamp == 10 && b.timestamp == 5
    ensures Older(map[0 := a, 1 := b], 6) == map[1 := b] && IsEarliest(map[1 := b], 5)
    ensures Older(map[0 := a, 1 := b], 11) == map[0 := a, 1 := b] && IsEarliest(map[0 := a, 1 := b], 5)
  {
    assert map[1 := b][1].timestamp == 5 && map[0 := a, 1 := b][1].timestamp == 5;
  }

  /** Both runs write under key 7, the second over the first, and the first records its archive. */
  lemma Overwritten(start: State, events: seq<Event>, s: State, both: map<RowId, Row>, late: map<RowId, Row>)
    returns (longer: seq<Event>)
    requires Run(start, events) == s && NoDelete(events)
    requires s.runs == [Writing(11, both, 5, {}), Writing(6, late, 5, {})]
    ensures var s' := Run(start, longer);
            && s'.live == s.live && s'.ever == s.ever && s'.archives == s.archives[7 := late]
            && |s'.runs| == 2 && s'.runs[0] == Deleting(both, {}, 7)
    ensures NoDelete(longer)
  {
    longer := ArchiveWritten(start, events, s, 0, 7);
    var s1 := Written(s, 0, 7);
    longer := ArchiveWritten(start, longer, s1, 1, 7);
    var s2 := Written(s1, 1, 7);
    assert s2.runs[0] == Recording(11, both, 5, {}, 7);
    longer := Extend(start, longer, s2, RecordMeta(0, true));
    RecordOne(s2, 0);
  }

  lemma RecordOne(s: State, r: nat)
    requires r < |s.runs| && s.runs[r].Recording?
    ensures var pc, s' := s.runs[r], Step(s, RecordMeta(r, true));
            && s'.live == s.live && s'.ever == s.ever && s'.archives == s.archives
            && |s'.runs| == |s.runs| && s'.runs[r] == Deleting(pc.rows, pc.disputed, pc.key)
  {
  }

  lemma LosesFirst(s: State, both: map<RowId, Row>, late: map<RowId, Row>)
    requires |s.runs| == 2 && s.runs[0] == Deleting(both, {}, 7) && s.archives == map[7 := late]
    requires 0 in both && 0 in s.ever && 0 !in late
    ensures !NoneLost(Step(s, Delete(0, true)))
  {
    var s' := Step(s, Delete(0, true));
    assert 0 in Deletable(both, {}) && 0 !in s'.live && 0 in s'.ever;
    assert s'.archives == map[7 := late];
  }

  /** Run `r` fetches the rows older than its cutoff and finds no dispute. */
  lemma Fetched(start: State, events: seq<Event>, s: State, r: nat, cutoff: int, earliest: int, rows: map<RowId, Row>)
    returns (longer: seq<Event>)
    requires Run(start, events) == s && r < |s.runs| && s.runs[r] == Idle && s.disputes == {}
    requires Older(s.live, cutoff) == rows && IsEarliest(rows, earliest)
    ensures Run(start, longer) == Goto(s, r, Writing(cutoff, rows, earliest, {}))
    ensures NoDelete(events) ==> NoDelete(longer)
  {
    longer := Extend(start, events, s, Fetch(r, cutoff, earliest, true));
    var s1 := Goto(s, r, Querying(cutoff, rows, earliest));
    QueryOne(s1, r);
    longer := Extend(start, longer, s1, QueryDisputed(r, true));
    assert s1.runs[r := Writing(cutoff, rows, earliest, {})] == s.runs[r := Writing(cutoff, rows, earliest, {})];
  }

  // ---------------------------------------------------------------------------------------------
  // Disputed entities
  // ---------------------------------------------------------------------------------------------

  predicate Protects(pc: RunPc, entity: nat) {
    (pc.Writing? || pc.Recording? || pc.Deleting?) && entity in pc.disputed
  }

  /** No run that knows of the dispute removes the entity's rows, whatever step it takes. */
  lemma DisputedKept(s: State, e: Event, id: RowId)
    requires Plain(s) && id in s.live
    requires Outside(e) || e.run >= |s.runs| || Protects(s.runs[e.run], s.live[id].entity)
    ensures id in Step(s, e).live && Step(s, e).live[id] == s.live[id]
  {
    if Deletes(s, e) {
      assert Held(s, s.runs[e.run]);
    }
  }

  predicate Busy(s: State, r: nat) {
    r < |s.runs| && !s.runs[r].Idle?
  }

  /** The run is past its dispute query, with these rows fetched and these disputes found. */
  predicate Knows(s: State, r: nat, rows: map<RowId, Row>, disputed: set<nat>) {
    && r < |s.runs|
    && var pc := s.runs[r];
       (pc.Writing? || pc.Recording? || pc.Deleting?) && pc.rows == rows && pc.disputed == disputed
  }

  lemma StepKnows(s: State, e: Event, r: nat, rows: map<RowId, Row>, disputed: set<nat>)
    requires Knows(s, r, rows, disputed) && Busy(Step(s, e), r)
    ensures Knows(Step(s, e), r, rows, disputed)
  {
  }

  /** At no point of the run is retention run `r` idle. */
  predicate StaysBusy(s: State, events: seq<Event>, r: nat) {
    (events == [] || StaysBusy(s, events[..|events| - 1], r)) && Busy(Run(s, events), r)
  }

  /** Until it ends a run acts on what its query found, whatever happens to disputes meanwhile. */
  lemma {:induction false} RunKnows(s: State, events: seq<Event>, r: nat, rows: map<RowId, Row>, disputed: set<nat>)
    requires Knows(s, r, rows, disputed) && StaysBusy(s, events, r)
    ensures Knows(Run(s, events), r, rows, disputed)
  {
    if events != [] {
      var n := |events| - 1;
      RunKnows(s, events[..n], r, rows, disputed);
      StepKnows(Run(s, events[..n]), events[n], r, rows, disputed);
    }
  }

  /** The step removes no live row of the entity. */
  ghost predicate Spares(s: State, e: Event, entity: nat) {
    forall id | id in s.live && s.live[id].entity == entity :: id in Step(s, e).live && Step(s, e).live[id] == s.live[id]
  }

  /**
   From the moment a run's dispute query has returned an entity until the run ends, none of the run's
   steps removes a row of that entity, however other runs, inserts and disputes interleave.
   */
  lemma RunSparesDisputed(s: State, events: seq<Event>, r: nat, entity: nat)
    requires Plain(s) && r < |s.runs| && Protects(s.runs[r], entity) && StaysBusy(s, events, r)
    ensures forall e: Event | !Outside(e) && e.run == r :: Spares(Run(s, events), e, entity)
  {
    var g := Run(s, events);
    RunPlain(s, events);
    RunKnows(s, events, r, s.runs[r].rows, s.runs[r].disputed);
    forall e: Event, id | !Outside(e) && e.run == r && id in g.live && g.live[id].entity == entity
      ensures id in Step(g, e).live && Step(g, e).live[id] == g.live[id]
    {
      DisputedKept(g, e, id);
    }
  }

  lemma {:induction false} RunPlain(s: State, events: seq<Event>)
    requires Plain(s)
    ensures Plain(Run(s, events))
  {
    if events != [] {
      RunPlain(s, events[..|events| - 1]);
      StepPlain(Run(s, events[..|events| - 1]), events[|events| - 1]);
    }
  }

  /** A fetch that finds anything takes exactly the live rows below the cutoff. */
  lemma FetchTakesOld(s: State, r: nat, cutoff: int, earliest: int, id: RowId)
    requires r < |s.runs| && s.runs[r].Idle? && IsEarliest(Older(s.live, cutoff), earliest)
    ensures var pc := Step(s, Fetch(r, cutoff, earliest, true)).runs[r];
            pc.Querying? && (id in pc.rows <==> id in s.live && s.live[id].timestamp < cutoff)
            && (id in pc.rows ==> pc.rows[id] == s.live[id])
    ensures Step(s, Fetch(r, cutoff, earliest, false)) == s
  {
  }

  /**
   The exact condition for a disputed row to be deleted.  A run queries disputes in state `s`, and any
   events follow until it deletes.  A fetched row that is then still live, whether or not its entity is
   disputed by now, is deleted if and only if the query failed or the entity was not disputed at the query.
   */
  lemma DeletedIff(s: State, r: nat, queryOk: bool, events: seq<Event>, id: RowId)
    requires r < |s.runs| && s.runs[r].Querying? && id in s.runs[r].rows
    requires StaysBusy(Step(s, QueryDisputed(r, queryOk)), events, r)
    requires var g := Run(Step(s, QueryDisputed(r, queryOk)), events); g.runs[r].Deleting? && id in g.live
    ensures var g := Run(Step(s, QueryDisputed(r, queryOk)), events);
            id !in Step(g, Delete(r, true)).live <==> !queryOk || s.runs[r].rows[id].entity !in s.disputes
  {
    var rows := s.runs[r].rows;
    var s1 := Step(s, QueryDisputed(r, queryOk));
    var found := if queryOk then Found(rows, s.disputes) else {};
    assert rows[id].entity in found <==> queryOk && rows[id].entity in s.disputes;
    RunKnows(s1, events, r, rows, found);
    RemovedIff(Run(s1, events), r, rows, found, id);
  }

  lemma RemovedIff(s: State, r: nat, rows: map<RowId, Row>, disputed: set<nat>, id: RowId)
    requires Knows(s, r, rows, disputed) && s.runs[r].Deleting? && id in rows && id in s.live
    ensures id !in Step(s, Delete(r, true)).live <==> rows[id].entity !in disputed
  {
  }

  /**
   It happens either way: the dispute is open all along and the query fails, or the query succeeds and
   the dispute is opened after it.  The row is deleted while its entity is disputed.
   */
  lemma DisputedRowDeleted(queryOk: bool) returns (events: seq<Event>)
    ensures var s := Run(Init(1), events);
            && s.disputes == {1} && 0 in s.live && s.live[0].entity == 1
            && 0 !in Step(s, Delete(0, true)).live
    ensures QueryDisputed(0, queryOk) in events && QueryDisputed(0, !queryOk) !in events
  {
    var s;
    events, s := QueriedOne(queryOk);
    if queryOk {
      events := Extend(Init(1), events, s, SetDispute(1, true));
      s := Step(s, SetDispute(1, true));
    }
    events := Filing(Init(1), events, s, s.live);
  }

  /** A run has fetched the row of entity 1 and queried disputes; the dispute is open if the query fails. */
  lemma QueriedOne(queryOk: bool) returns (events: seq<Event>, s: State)
    ensures Run(Init(1), events) == s && s.live == map[0 := Row(1, 10)] && s.runs == [Writing(11, s.live, 10, {})]
    ensures s.disputes == if queryOk then {} else {1}
    ensures QueryDisputed(0, queryOk) in events && QueryDisputed(0, !queryOk) !in events
  {
    var a := Row(1, 10);
    var s0 := Init(1);
    events := Extend(s0, [], s0, Insert(0, a));
    s := Step(s0, Insert(0, a));
    if !queryOk {
      events := Extend(s0, events, s, SetDispute(1, true));
      s := Step(s, SetDispute(1, true));
    }
    OneRow(s.live, 0, a);
    events := Extend(s0, events, s, Fetch(0, 11, 10, true));
    s := s.(runs := [Querying(11, s.live, 10)]);
    events := Extend(s0, events, s, QueryDisputed(0, queryOk));
    assert Found(s.live, {}) == {};
    s := s.(runs := [Writing(11, s.live, 10, {})]);
  }

  /** A run about to write, with no dispute found, gets as far as its delete. */
  lemma Filing(start: State, events: seq<Event>, s: State, rows: map<RowId, Row>) returns (longer: seq<Event>)
    requires Run(start, events) == s && s.runs == [Writing(11, rows, 10, {})]
    ensures var s' := Run(start, longer);
            s'.live == s.live && s'.disputes == s.disputes && s'.runs == [Deleting(rows, {}, 7)]
    ensures forall ok: bool :: QueryDisputed(0, ok) in longer <==> QueryDisputed(0, ok) in events
  {
    longer := ArchiveWritten(start, events, s, 0, 7);
    var s1 := Written(s, 0, 7);
    assert s1.runs == [Recording(11, rows, 10, {}, 7)];
    longer := Extend(start, longer, s1, RecordMeta(0, true));
  }

  /** One more event at the end of a run that has led to `s`. */
  lemma Extend(start: State, events: seq<Event>, s: State, e: Event) returns (longer: seq<Event>)
    requires Run(start, events) == s
    ensures Run(start, longer) == Step(s, e)
    ensures NoDelete(events) && !e.Delete? ==> NoDelete(longer)
    ensures forall q: Event :: q in longer <==> q in events || q == e
  {
    longer := events + [e];
    assert longer[..|events|] == events;
  }

  /** The state after a run has fetched the only live row, found no dispute and had its archive write confirmed. */
  function Filed(s: State, r: nat, row: Row, key: ArchiveKey): State
    requires r < |s.runs|
  {
    s.(archives := s.archives[key := s.live], used := s.used + {key},
       runs := s.runs[r := Recording(row.timestamp + 1, s.live, row.timestamp, {}, key)])
  }

  lemma ArchiveOne(start: State, events: seq<Event>, s: State, r: nat, id: RowId, row: Row, key: ArchiveKey)
    returns (longer: seq<Event>)
    requires Run(start, events) == s
    requires r < |s.runs| && s.runs[r] == Idle && s.live == map[id := row] && s.disputes == {}
    ensures Run(start, longer) == Filed(s, r, row, key)
  {
    OneRow(s.live, id, row);
    longer := Fetched(start, events, s, r, row.timestamp + 1, row.timestamp, s.live);
    var s2 := Goto(s, r, Writing(row.timestamp + 1, s.live, row.timestamp, {}));
    longer := ArchiveWritten(start, longer, s2, r, key);
    assert s2.runs[r := Written(s2, r, key).runs[r]] == s.runs[r := Written(s2, r, key).runs[r]];
  }

  /** The state after a confirmed write. */
  function Written(s: State, r: nat, key: ArchiveKey): State
    requires r < |s.runs| && s.runs[r].Writing?
  {
    var pc := s.runs[r];
    s.(archives := s.archives[key := pc.rows], used := s.used + {key},
       runs := s.runs[r := Recording(pc.cutoff, pc.rows, pc.earliest, pc.disputed, key)])
  }

  lemma ArchiveWritten(start: State, events: seq<Event>, s: State, r: nat, key: ArchiveKey) returns (longer: seq<Event>)
    requires Run(start, events) == s && r < |s.runs| && s.runs[r].Writing?
    ensures Run(start, longer) == Written(s, r, key)
    ensures NoDelete(events) ==> NoDelete(longer)
    ensures forall q: Event :: q in longer <==> q in events || q == WriteArchive(r, key, Confirmed)
  {
    longer := Extend(start, events, s, WriteArchive(r, key, Confirmed));
  }

  lemma QueryOne(s: State, r: nat)
    requires r < |s.runs| && s.runs[r].Querying? && s.disputes == {}
    ensures var pc := s.runs[r];
            Step(s, QueryDisputed(r, true)) == Goto(s, r, Writing(pc.cutoff, pc.rows, pc.earliest, {}))
  {
    assert Found(s.runs[r].rows, {}) == {};
  }

  lemma OneRow(live: map<RowId, Row>, id: RowId, row: Row)
    requires live == map[id := row]
    ensures Older(live, row.timestamp + 1) == live && IsEarliest(live, row.timestamp)
  {
    assert live[id].timestamp == row.timestamp;
  }

  lemma Forgotten(s: State, a: Row)
    requires |s.runs| == 2 && s.live == map[0 := a] && s.runs[0] == Recording(a.timestamp + 1, s.live, a.timestamp, {}, 7)
    ensures Step(Step(s, RecordMeta(0, true)), Delete(0, true)) ==
            s.(live := map[], metas := s.metas + [Meta(7, 1, a.timestamp, a.timestamp + 1)], runs := s.runs[0 := Idle])
  {
    assert Deletable(s.live, {}) == {0};
    assert s.live - {0} == map[];
  }

  // ---------------------------------------------------------------------------------------------
  // One run from start to end
  // ---------------------------------------------------------------------------------------------

  /** What the database and the storage answer to a run. */
  datatype Answers = Answers(fetchOk: bool, queryOk: bool, write: WriteOutcome, recordOk: bool, deleteOk: bool)

  datatype Result = NothingToDo | Error | Retained(exported: nat, key: ArchiveKey, deleted: nat)

  method Earliest(rows: map<RowId, Row>) returns (earliest: int)
    requires rows != map[]
    ensures IsEarliest(rows, earliest)
  {
    var first :| first in rows;
    earliest := rows[first].timestamp;
    var left := rows.Keys - {first};
    ghost var holder := first;
    while left != {}
      invariant left <= rows.Keys && holder in rows && rows[holder].timestamp == earliest
      invariant forall id | id in rows && id !in left :: earliest <= rows[id].timestamp
      decreases left
    {
      var id :| id in left;
      if rows[id].timestamp < earliest {
        earliest := rows[id].timestamp;
        holder := id;
      }
      left := left - {id};
    }
  }

  class AuditTables {
    var live: map<RowId, Row>
    var archives: map<ArchiveKey, map<RowId, Row>>
    var metas: seq<Meta>
    var disputes: set<nat>
    ghost var ever: map<RowId, Row>
    ghost var used: set<ArchiveKey>

    ghost function At(pc: RunPc): State
      reads this
    {
      State(live, archives, metas, [pc], disputes, ever, used)
    }

    /**
     `run_retention` without interruption: steps of the machine above, in its order.  Rows are deleted
     only after a confirmed archive write and a recorded location, and then exactly the old rows whose
     entity the dispute query did not return.
     */
    method RunRetention(cutoff: int, key: ArchiveKey, a: Answers) returns (r: Result, ghost events: seq<Event>)
      modifies this
      ensures At(Idle) == Run(old(At(Idle)), events) && disputes == old(disputes)
      ensures !r.Retained? ==> live == old(live)
      ensures r.NothingToDo? ==> Older(old(live), cutoff) == map[] && At(Idle) == old(At(Idle))
      ensures r.Retained? ==>
                var rows := Older(old(live), cutoff);
                var gone := Deletable(rows, if a.queryOk then Found(rows, disputes) else {});
                && a.write.Confirmed? && a.recordOk
                && archives == old(archives)[key := rows] && live == old(live) - gone
                && r == Retained(|rows|, key, |gone|)
                && metas != [] && metas == old(metas) + [Meta(key, |rows|, metas[|metas| - 1].coversFrom, cutoff)]
                && IsEarliest(rows, metas[|metas| - 1].coversFrom)
    {
      ghost var start := At(Idle);
      events := [];
      if !a.fetchOk {
        return Error, events;
      }
      var rows := Older(live, cutoff);
      if rows == map[] {
        return NothingToDo, events;
      }
      var earliest := Earliest(rows);
      var disputed := if a.queryOk then Found(rows, disputes) else {};
      events := Begun(start, cutoff, earliest, a.queryOk);
      ghost var pc := Writing(cutoff, rows, earliest, disputed);
      events := Extend(start, events, At(pc), WriteArchive(0, key, a.write));
      StoreArchive(pc, rows, key, a.write);
      if !a.write.Confirmed? {
        return Error, events;
      }
      pc := Recording(cutoff, rows, earliest, disputed, key);
      events := Extend(start, events, At(pc), RecordMeta(0, a.recordOk));
      InsertMeta(pc, Meta(key, |rows|, earliest, cutoff), a.recordOk);
      if !a.recordOk {
        return Error, events;
      }
      pc := Deleting(rows, disputed, key);
      events := Extend(start, events, At(pc), Delete(0, a.deleteOk));
      DeleteRows(pc, rows, disputed, a.deleteOk);
      if !a.deleteOk {
        return Error, events;
      }
      return Retained(|rows|, key, |Deletable(rows, disputed)|), events;
    }

    method StoreArchive(ghost pc: RunPc, rows: map<RowId, Row>, key: ArchiveKey, outcome: WriteOutcome)
      requires pc.Writing? && pc.rows == rows
      modifies this`archives, this`used
      ensures outcome.Confirmed? ==> archives == old(archives)[key := rows]
      ensures Step(old(At(pc)), WriteArchive(0, key, outcome)) ==
              At(if outcome.Confirmed? then Recording(pc.cutoff, pc.rows, pc.earliest, pc.disputed, key) else Idle)
    {
      if !outcome.Untouched? {
        archives := archives[key := if outcome.Confirmed? then rows else outcome.partial];
        used := used + {key};
      }
    }

    method InsertMeta(ghost pc: RunPc, m: Meta, ok: bool)
      requires pc.Recording? && m == Meta(pc.key, |pc.rows|, pc.earliest, pc.cutoff)
      modifies this`metas
      ensures metas == old(metas) + if ok then [m] else []
      ensures Step(old(At(pc)), RecordMeta(0, ok)) == At(if ok then Deleting(pc.rows, pc.disputed, pc.key) else Idle)
    {
      if ok {
        metas := metas + [m];
      }
    }

    method DeleteRows(ghost pc: RunPc, rows: map<RowId, Row>, disputed: set<nat>, ok: bool)
      requires pc.Deleting? && pc.rows == rows && pc.disputed == disputed
      modifies this`live
      ensures live == if ok then old(live) - Deletable(rows, disputed) else old(live)
      ensures Step(old(At(pc)), Delete(0, ok)) == At(Idle)
    {
      if ok {
        live := live - Deletable(rows, disputed);
      }
    }
  }

  /**
   What such a run leaves: its archive has exactly the rows below the cutoff, and of the live ones exactly
   those at or above it and, if the dispute query succeeded, those of disputed entities.
   */
  lemma RetentionLeaves(live: map<RowId, Row>, cutoff: int, disputes: set<nat>, queryOk: bool, id: RowId)
    requires id in live
    ensures var rows := Older(live, cutoff);
            var left := live - Deletable(rows, if queryOk then Found(rows, disputes) else {});
            && (id in rows <==> live[id].timestamp < cutoff)
            && (id in left <==> live[id].timestamp >= cutoff || (queryOk && live[id].entity in disputes))
            && (id in rows ==> rows[id] == live[id]) && (id in left ==> left[id] == live[id])
  {
  }

  /** The fetch and the dispute query of a run whose table holds old rows. */
  lemma Begun(s: State, cutoff: int, earliest: int, queryOk: bool) returns (events: seq<Event>)
    requires |s.runs| == 1 && s.runs[0] == Idle && IsEarliest(Older(s.live, cutoff), earliest)
    ensures var rows := Older(s.live, cutoff);
            Run(s, events) ==
            s.(runs := [Writing(cutoff, rows, earliest, if queryOk then Found(rows, s.disputes) else {})])
  {
    var fetch, query := Fetch(0, cutoff, earliest, true), QueryDisputed(0, queryOk);
    events := Extend(s, [], s, fetch);
    events := Extend(s, events, Step(s, fetch), query);
  }
}
