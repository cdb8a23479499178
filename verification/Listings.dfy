/**
 The cursor listings: the query layer of src/db/queries.rs with the page handlers of
 src/handlers/webhook.rs, src/handlers/settlements.rs and src/handlers/search.rs.

 A cursor is the decoded pair (created_at, id).
 */
module Listings {
  import opened Machine
  import opened Keyset

  const ID_SPACE: int := 0x1_0000_0000_0000_0000_0000_0000_0000_0000

  /** A UUID is a 128-bit number. */
  type Uuid = n: nat | n < ID_SPACE

  /** `(created_at, id)` as one integer. */
  function KeyOf(createdAt: int, id: Uuid): Key {
    createdAt * ID_SPACE + id
  }

  /** SQL's row comparison `(created_at, id) < (created_at, id)` is the order of the keys. */
  lemma KeyOrder(t1: int, id1: Uuid, t2: int, id2: Uuid)
    ensures t1 < t2 || (t1 == t2 && id1 < id2) <==> KeyOf(t1, id1) < KeyOf(t2, id2)
    ensures KeyOf(t1, id1) == KeyOf(t2, id2) ==> t1 == t2 && id1 == id2
  {
  }

  datatype Transaction = Transaction(createdAt: int, tenant: Option<nat>, settlement: Option<Uuid>)

  datatype Settlement = Settlement(createdAt: int)

  datatype ListFilter = ListFilter(from: Option<int>, to: Option<int>, tenant: nat)

  predicate Visible(tx: Transaction, tenant: nat) {
    tx.tenant.None? || tx.tenant.value == tenant
  }

  predicate Listed(tx: Transaction, f: ListFilter) {
    && (f.from.Some? ==> f.from.value <= tx.createdAt)
    && (f.to.Some? ==> tx.createdAt <= f.to.value)
    && Visible(tx, f.tenant)
  }

  /** The snapshot one transaction listing sees: the keys of the rows that pass the filter. */
  function TransactionSnapshot(table: map<Uuid, Transaction>, f: ListFilter): set<Key> {
    set id | id in table && Listed(table[id], f) :: KeyOf(table[id].createdAt, id)
  }

  /** Some visible transaction is linked to the settlement. */
  predicate Reachable(txs: map<Uuid, Transaction>, settlement: Uuid, tenant: nat) {
    exists t | t in txs :: txs[t].settlement == Some(settlement) && Visible(txs[t], tenant)
  }

  /** The settlements and the transactions linked to them, as one request sees them. */
  datatype SettlementTables = SettlementTables(settlements: map<Uuid, Settlement>, txs: map<Uuid, Transaction>)

  function SettlementSnapshot(s: SettlementTables, tenant: nat): set<Key> {
    set id | id in s.settlements && Reachable(s.txs, id, tenant) :: KeyOf(s.settlements[id].createdAt, id)
  }

  function Reverse(s: seq<Key>): seq<Key> {
    seq(|s|, i requires 0 <= i < |s| => s[|s| - 1 - i])
  }

  /** The query layer: descending below the cursor, or ascending above it and reversed. */
  function Fetch(keys: set<Key>, cursor: Option<Key>, backward: bool, limit: nat): seq<Key> {
    if !backward then Page(keys, cursor, limit)
    else Reverse(Take(Reverse(Sorted(Above(keys, cursor))), limit))
  }

  datatype Response = Response(rows: seq<Key>, nextCursor: Option<Key>, hasMore: bool)

  function LastOf(rows: seq<Key>): Option<Key> {
    if rows == [] then None else Some(rows[|rows| - 1])
  }

  /** What the handler makes of the fetched rows: `limit + 1` were asked for. */
  function Cut(rows: seq<Key>, limit: int): Response {
    var hasMore := |rows| > limit;
    // `truncate(limit as usize)`: a negative limit becomes huge and truncates nothing.
    var kept := if hasMore && 0 <= limit then rows[..limit] else rows;
    Response(kept, LastOf(kept), hasMore)
  }

  /** The handler on an effective limit; `None` is the database refusing a negative LIMIT. */
  function Respond(keys: set<Key>, cursor: Option<Key>, backward: bool, limit: int): Option<Response> {
    if limit + 1 < 0 then None else Some(Cut(Fetch(keys, cursor, backward, limit + 1), limit))
  }

  function TransactionLimit(param: Option<int>): int {
    Min(if param.Some? then param.value else 25, 100)
  }

  function SettlementLimit(param: Option<int>): int {
    var n := if param.Some? then param.value else 10;
    if n < 1 then 1 else if n > 100 then 100 else n
  }

  /** Transactions: 25 if absent and 100 at most.  Settlements: 10 if absent, at least 1 and 100 at most. */
  lemma EffectiveLimits(n: int)
    ensures TransactionLimit(None) == 25 && SettlementLimit(None) == 10
    ensures TransactionLimit(Some(n)) <= 100 && (n <= 100 ==> TransactionLimit(Some(n)) == n) && (n > 100 ==> TransactionLimit(Some(n)) == 100)
    ensures 1 <= SettlementLimit(Some(n)) <= 100 && (1 <= n <= 100 ==> SettlementLimit(Some(n)) == n)
    ensures (n < 1 ==> SettlementLimit(Some(n)) == 1) && (n > 100 ==> SettlementLimit(Some(n)) == 100)
  {
  }

  /** `list_transactions_api` from the effective limit on, truncating in place. */
  method ListTransactions(keys: set<Key>, cursor: Option<Key>, backward: bool, param: Option<int>)
    returns (r: Option<Response>)
    ensures r == Respond(keys, cursor, backward, TransactionLimit(param))
  {
    var limit := if param.Some? then param.value else 25;
    if limit > 100 {
      limit := 100;
    }
    if limit + 1 < 0 {
      return None;
    }
    var rows := Fetch(keys, cursor, backward, limit + 1);
    var page := Paginate(rows, limit);
    return Some(page);
  }

  /** The tail of the handler: truncate in place, then read the cursor off the last row kept. */
  method Paginate(fetched: seq<Key>, limit: int) returns (page: Response)
    ensures page == Cut(fetched, limit)
  {
    var rows := fetched;
    var hasMore := |rows| > limit;
    if hasMore && limit >= 0 {
      rows := rows[..limit];
    }
    var next := None;
    if |rows| > 0 {
      next := Some(rows[|rows| - 1]);
    }
    page := Response(rows, next, hasMore);
  }

  // ---------------------------------------------------------------------------------------------
  // Forward walks
  // ---------------------------------------------------------------------------------------------

  /** For a positive limit the handler returns the page, and says whether the listing goes on. */
  lemma ForwardResponse(keys: set<Key>, cursor: Option<Key>, limit: int)
    requires 1 <= limit
    ensures Respond(keys, cursor, false, limit) ==
            Some(Response(Page(keys, cursor, limit), LastOf(Page(keys, cursor, limit)), |Below(keys, cursor)| > limit))
  {
    SortedFacts(Below(keys, cursor));
    CutTaken(Sorted(Below(keys, cursor)), limit);
  }

  /** One row too many is enough to tell whether there are more. */
  lemma CutTaken(all: seq<Key>, limit: nat)
    ensures Cut(Take(all, limit + 1), limit) == Response(Take(all, limit), LastOf(Take(all, limit)), |all| > limit)
  {
    assert if |all| > limit then Take(all, limit + 1)[..limit] == Take(all, limit) else Take(all, limit + 1) == Take(all, limit);
  }

  /** A walk makes progress for every table and cursor exactly when the effective limit is positive. */
  lemma ProgressIffPositive(limit: int)
    ensures (forall keys: set<Key>, cursor: Option<Key> ::
               var r := Respond(keys, cursor, false, limit);
               r.Some? && (r.value.hasMore ==> r.value.rows != [])) <==> 1 <= limit
  {
    if 1 <= limit {
      forall keys: set<Key>, cursor: Option<Key>
        ensures var r := Respond(keys, cursor, false, limit);
                r.Some? && (r.value.hasMore ==> r.value.rows != [])
      {
        ForwardResponse(keys, cursor, limit);
      }
    } else {
      var r := Respond({0}, None, false, limit);
      assert Below({0}, None) == {0};
      assert r.Some? ==> r.value.hasMore && r.value.rows == [];
    }
  }

  /** The pages of a walk that follows `next_cursor`, one snapshot per request. */
  function Pages(snaps: seq<set<Key>>, cursor: Option<Key>, limit: int): seq<Response>
    requires 1 <= limit
  {
    if snaps == [] then []
    else
      var page := Respond(snaps[0], cursor, false, limit).value;
      [page] + Pages(snaps[1..], page.nextCursor, limit)
  }

  function Rows(pages: seq<Response>): seq<Key> {
    if pages == [] then [] else pages[0].rows + Rows(pages[1..])
  }

  /** Followed while `has_more` says so, and no further. */
  ghost predicate Followed(pages: seq<Response>) {
    pages != [] && forall i | 0 <= i < |pages| :: pages[i].hasMore <==> i < |pages| - 1
  }

  lemma {:induction false} PagesAreWalk(snaps: seq<set<Key>>, cursor: Option<Key>, limit: int)
    requires 1 <= limit && Followed(Pages(snaps, cursor, limit))
    ensures Rows(Pages(snaps, cursor, limit)) == Walk(snaps, cursor, limit)
    ensures Exhausted(snaps, cursor, limit)
  {
    ForwardResponse(snaps[0], cursor, limit);
    var rows := Page(snaps[0], cursor, limit);
    var pages := Pages(snaps, cursor, limit);
    assert pages[0] == Respond(snaps[0], cursor, false, limit).value;
    assert pages[1..] == Pages(snaps[1..], pages[0].nextCursor, limit);
    if |snaps| > 1 {
      assert |pages| > 1;
      assert forall i | 0 <= i < |pages| - 1 :: pages[1..][i] == pages[i + 1];
      assert pages[0].nextCursor == After(cursor, rows);
      PagesAreWalk(snaps[1..], After(cursor, rows), limit);
    } else {
      assert Walk(snaps[1..], After(cursor, rows), limit) == [];
    }
  }

  /**
   The forward walk of the transaction and settlement listings.  Rows may come and go between requests:
   no row is returned twice, keys strictly descend, every row that matches throughout is returned, and
   on a table that does not change the pages concatenate to the whole sorted listing.
   */
  lemma ForwardWalk(snaps: seq<set<Key>>, limit: int)
    requires 1 <= limit && Followed(Pages(snaps, None, limit))
    ensures var rows := Rows(Pages(snaps, None, limit));
            && Descending(rows)
            && (forall k | k in rows :: exists i | 0 <= i < |snaps| :: k in snaps[i])
            && (forall k | k in snaps[0] && (forall i | 0 <= i < |snaps| :: k in snaps[i]) :: k in rows)
            && ((forall i | 0 <= i < |snaps| :: snaps[i] == snaps[0]) ==> rows == Sorted(snaps[0]))
  {
    PagesAreWalk(snaps, None, limit);
    WalkDescends(snaps, None, limit);
    var rows := Walk(snaps, None, limit);
    forall k | k in rows
      ensures exists i | 0 <= i < |snaps| :: k in snaps[i]
    {
      WalkSound(snaps, None, limit, k);
    }
    forall k | k in snaps[0] && forall i | 0 <= i < |snaps| :: k in snaps[i]
      ensures k in rows
    {
      WalkComplete(snaps, None, limit, k);
    }
    if forall i | 0 <= i < |snaps| :: snaps[i] == snaps[0] {
      StillWalk(snaps, snaps[0], None, limit);
      assert Below(snaps[0], None) == snaps[0];
    }
  }

  function TransactionSnapshots(tables: seq<map<Uuid, Transaction>>, f: ListFilter): seq<set<Key>> {
    seq(|tables|, i requires 0 <= i < |tables| => TransactionSnapshot(tables[i], f))
  }

  /** In every table the row is there, with this key, and is the tenant's own or nobody's. */
  ghost predicate ThereThroughout(tables: seq<map<Uuid, Transaction>>, tenant: nat, id: Uuid, createdAt: int) {
    forall i | 0 <= i < |tables| ::
      && id in tables[i] && tables[i][id].createdAt == createdAt
      && (tables[i][id].tenant == None || tables[i][id].tenant == Some(tenant))
  }

  /** The key is of a row of some table that is within the dates and the tenant's own or nobody's. */
  ghost predicate OfTransaction(tables: seq<map<Uuid, Transaction>>, f: ListFilter, k: Key) {
    exists i: nat, id: Uuid | i < |tables| && id in tables[i] ::
      && k == KeyOf(tables[i][id].createdAt, id)
      && (f.from.Some? ==> f.from.value <= tables[i][id].createdAt)
      && (f.to.Some? ==> tables[i][id].createdAt <= f.to.value)
      && (tables[i][id].tenant == None || tables[i][id].tenant == Some(f.tenant))
  }

  /**
   The transaction listing over tables that change between requests: keys strictly descend; every key
   returned belongs to a row of some table that is within the dates and the tenant's own or nobody's; every
   row of which that is true throughout is returned; and if nothing changes the pages concatenate to the
   whole sorted listing.
   */
  lemma TransactionWalk(tables: seq<map<Uuid, Transaction>>, f: ListFilter, param: Option<int>)
    requires tables != [] && 1 <= TransactionLimit(param)
    requires Followed(Pages(TransactionSnapshots(tables, f), None, TransactionLimit(param)))
    ensures var rows := Rows(Pages(TransactionSnapshots(tables, f), None, TransactionLimit(param)));
            && Descending(rows)
            && (forall k | k in rows :: OfTransaction(tables, f, k))
            && (forall id, createdAt | ThereThroughout(tables, f.tenant, id, createdAt) ::
                  (f.from.Some? ==> f.from.value <= createdAt) && (f.to.Some? ==> createdAt <= f.to.value) ==>
                    KeyOf(createdAt, id) in rows)
            && ((forall i | 0 <= i < |tables| :: tables[i] == tables[0]) ==> rows == Sorted(TransactionSnapshot(tables[0], f)))
  {
    var snaps := TransactionSnapshots(tables, f);
    ForwardWalk(snaps, TransactionLimit(param));
    var rows := Rows(Pages(snaps, None, TransactionLimit(param)));
    assert forall i | 0 <= i < |snaps| :: snaps[i] == TransactionSnapshot(tables[i], f);
    forall k | k in rows
      ensures OfTransaction(tables, f, k)
    {
      var i: nat :| i < |snaps| && k in snaps[i];
      var id := ListedRow(tables[i], f, k);
    }
    forall id: Uuid, createdAt | ThereThroughout(tables, f.tenant, id, createdAt) &&
                                 (f.from.Some? ==> f.from.value <= createdAt) && (f.to.Some? ==> createdAt <= f.to.value)
      ensures KeyOf(createdAt, id) in rows
    {
      ListedKeys(tables, f, id, createdAt);
    }
  }

  lemma ListedRow(table: map<Uuid, Transaction>, f: ListFilter, k: Key) returns (id: Uuid)
    requires k in TransactionSnapshot(table, f)
    ensures id in table && k == KeyOf(table[id].createdAt, id)
    ensures (f.from.Some? ==> f.from.value <= table[id].createdAt) && (f.to.Some? ==> table[id].createdAt <= f.to.value)
    ensures table[id].tenant == None || table[id].tenant == Some(f.tenant)
  {
    id :| id in table && Listed(table[id], f) && k == KeyOf(table[id].createdAt, id);
  }

  lemma ListedKeys(tables: seq<map<Uuid, Transaction>>, f: ListFilter, id: Uuid, createdAt: int)
    requires ThereThroughout(tables, f.tenant, id, createdAt)
    requires (f.from.Some? ==> f.from.value <= createdAt) && (f.to.Some? ==> createdAt <= f.to.value)
    ensures forall i | 0 <= i < |tables| :: KeyOf(createdAt, id) in TransactionSnapshots(tables, f)[i]
  {
    assert forall i | 0 <= i < |tables| :: KeyOf(tables[i][id].createdAt, id) in TransactionSnapshot(tables[i], f);
  }

  function SettlementSnapshots(tables: seq<SettlementTables>, tenant: nat): seq<set<Key>> {
    seq(|tables|, i requires 0 <= i < |tables| => SettlementSnapshot(tables[i], tenant))
  }

  /** In every table the settlement is there, with this key, and linked to by a transaction that is the tenant's own or nobody's. */
  ghost predicate LinkedThroughout(tables: seq<SettlementTables>, tenant: nat, id: Uuid, createdAt: int) {
    forall i | 0 <= i < |tables| ::
      && id in tables[i].settlements && tables[i].settlements[id].createdAt == createdAt
      && exists t | t in tables[i].txs ::
           && tables[i].txs[t].settlement == Some(id)
           && (tables[i].txs[t].tenant == None || tables[i].txs[t].tenant == Some(tenant))
  }

  /** The key is of a settlement of some table that a transaction links to which is the tenant's own or nobody's. */
  ghost predicate OfSettlement(tables: seq<SettlementTables>, tenant: nat, k: Key) {
    exists i: nat, id: Uuid, t: Uuid | i < |tables| && id in tables[i].settlements && t in tables[i].txs ::
      && k == KeyOf(tables[i].settlements[id].createdAt, id)
      && tables[i].txs[t].settlement == Some(id)
      && (tables[i].txs[t].tenant == None || tables[i].txs[t].tenant == Some(tenant))
  }

  /** The settlement listing, for every limit parameter: the same, a settlement being visible through its transactions. */
  lemma SettlementWalk(tables: seq<SettlementTables>, tenant: nat, param: Option<int>)
    requires tables != []
    requires Followed(Pages(SettlementSnapshots(tables, tenant), None, SettlementLimit(param)))
    ensures var rows := Rows(Pages(SettlementSnapshots(tables, tenant), None, SettlementLimit(param)));
            && Descending(rows)
            && (forall k | k in rows :: OfSettlement(tables, tenant, k))
            && (forall id, createdAt | LinkedThroughout(tables, tenant, id, createdAt) :: KeyOf(createdAt, id) in rows)
            && ((forall i | 0 <= i < |tables| :: tables[i] == tables[0]) ==> rows == Sorted(SettlementSnapshot(tables[0], tenant)))
  {
    var snaps := SettlementSnapshots(tables, tenant);
    ForwardWalk(snaps, SettlementLimit(param));
    var rows := Rows(Pages(snaps, None, SettlementLimit(param)));
    assert forall i | 0 <= i < |snaps| :: snaps[i] == SettlementSnapshot(tables[i], tenant);
    forall k | k in rows
      ensures OfSettlement(tables, tenant, k)
    {
      var i: nat :| i < |snaps| && k in snaps[i];
      ReachableRow(tables, i, tenant, k);
    }
    forall id: Uuid, createdAt | LinkedThroughout(tables, tenant, id, createdAt)
      ensures KeyOf(createdAt, id) in rows
    {
      ReachableKeys(tables, tenant, id, createdAt);
    }
  }

  lemma ReachableRow(tables: seq<SettlementTables>, i: nat, tenant: nat, k: Key)
    requires i < |tables| && k in SettlementSnapshot(tables[i], tenant)
    ensures OfSettlement(tables, tenant, k)
  {
    var s := tables[i];
    var id :| id in s.settlements && Reachable(s.txs, id, tenant) && k == KeyOf(s.settlements[id].createdAt, id);
    var t :| t in s.txs && s.txs[t].settlement == Some(id) && Visible(s.txs[t], tenant);
    assert id in tables[i].settlements && t in tables[i].txs;
  }

  lemma ReachableKeys(tables: seq<SettlementTables>, tenant: nat, id: Uuid, createdAt: int)
    requires LinkedThroughout(tables, tenant, id, createdAt)
    ensures forall i | 0 <= i < |tables| :: KeyOf(createdAt, id) in SettlementSnapshots(tables, tenant)[i]
  {
    forall i | 0 <= i < |tables|
      ensures KeyOf(tables[i].settlements[id].createdAt, id) in SettlementSnapshot(tables[i], tenant)
    {
      assert Reachable(tables[i].txs, id, tenant);
    }
  }

  /** On a table that does not change, every page that goes on leaves exactly `limit` rows fewer. */
  lemma StillWalkTerminates(keys: set<Key>, cursor: Option<Key>, limit: int)
    requires 1 <= limit
    ensures var page := Respond(keys, cursor, false, limit).value;
            page.hasMore ==> |Below(keys, page.nextCursor)| == |Below(keys, cursor)| - limit
  {
    ForwardResponse(keys, cursor, limit);
    if |Below(keys, cursor)| > limit {
      PageSplits(keys, cursor, limit);
      SortedFacts(Below(keys, cursor));
      SortedFacts(Below(keys, After(cursor, Page(keys, cursor, limit))));
    }
  }

  /** How many requests it takes to see `n` rows when the last page says so. */
  function Requests(n: nat, limit: nat): nat
    requires 1 <= limit
  {
    if n <= limit then 1 else 1 + Requests(n - limit, limit)
  }

  /** A walk over a table that does not change takes exactly as many requests as its rows need. */
  lemma {:induction false} StillWalkRequests(snaps: seq<set<Key>>, keys: set<Key>, cursor: Option<Key>, limit: int)
    requires 1 <= limit && Followed(Pages(snaps, cursor, limit))
    requires forall i | 0 <= i < |snaps| :: snaps[i] == keys
    ensures |snaps| == Requests(|Below(keys, cursor)|, limit)
  {
    var pages := Pages(snaps, cursor, limit);
    ForwardResponse(keys, cursor, limit);
    assert snaps[0] == keys && |pages| == |snaps| by { PageCount(snaps, cursor, limit); }
    assert pages[0] == Respond(keys, cursor, false, limit).value;
    assert pages[1..] == Pages(snaps[1..], pages[0].nextCursor, limit);
    if pages[0].hasMore {
      assert forall i | 0 <= i < |pages| - 1 :: pages[1..][i] == pages[i + 1];
      StillWalkTerminates(keys, cursor, limit);
      StillWalkRequests(snaps[1..], keys, pages[0].nextCursor, limit);
    }
  }

  lemma {:induction false} PageCount(snaps: seq<set<Key>>, cursor: Option<Key>, limit: int)
    requires 1 <= limit
    ensures |Pages(snaps, cursor, limit)| == |snaps|
  {
    if snaps != [] {
      PageCount(snaps[1..], Respond(snaps[0], cursor, false, limit).value.nextCursor, limit);
    }
  }

  // ---------------------------------------------------------------------------------------------
  // Search
  // ---------------------------------------------------------------------------------------------

  /** `search_transactions`: no extra row is fetched, and a full page is taken to mean there is more. */
  function SearchPage(keys: set<Key>, cursor: Option<Key>, limit: nat): (seq<Key>, Option<Key>) {
    var rows := Page(keys, cursor, limit);
    (rows, if |rows| == limit then LastOf(rows) else None)
  }

  function SearchPages(snaps: seq<set<Key>>, cursor: Option<Key>, limit: nat): seq<(seq<Key>, Option<Key>)> {
    if snaps == [] then []
    else
      var page := SearchPage(snaps[0], cursor, limit);
      [page] + SearchPages(snaps[1..], page.1, limit)
  }

  function SearchRows(pages: seq<(seq<Key>, Option<Key>)>): seq<Key> {
    if pages == [] then [] else pages[0].0 + SearchRows(pages[1..])
  }

  ghost predicate SearchFollowed(pages: seq<(seq<Key>, Option<Key>)>) {
    pages != [] && forall i | 0 <= i < |pages| :: pages[i].1.Some? <==> i < |pages| - 1
  }

  lemma {:induction false} SearchIsWalk(snaps: seq<set<Key>>, cursor: Option<Key>, limit: nat)
    requires 1 <= limit && SearchFollowed(SearchPages(snaps, cursor, limit))
    ensures SearchRows(SearchPages(snaps, cursor, limit)) == Walk(snaps, cursor, limit)
    ensures Exhausted(snaps, cursor, limit)
  {
    var rows := Page(snaps[0], cursor, limit);
    SortedFacts(Below(snaps[0], cursor));
    var pages := SearchPages(snaps, cursor, limit);
    assert pages[0] == SearchPage(snaps[0], cursor, limit);
    assert pages[1..] == SearchPages(snaps[1..], pages[0].1, limit);
    if |snaps| > 1 {
      assert |pages| > 1;
      assert forall i | 0 <= i < |pages| - 1 :: pages[1..][i] == pages[i + 1];
      assert pages[0].1 == After(cursor, rows);
      SearchIsWalk(snaps[1..], After(cursor, rows), limit);
    } else {
      assert Walk(snaps[1..], After(cursor, rows), limit) == [];
    }
  }

  /** A search followed until no cursor is returned has the same guarantees as the listings. */
  lemma SearchWalk(snaps: seq<set<Key>>, limit: nat)
    requires 1 <= limit && SearchFollowed(SearchPages(snaps, None, limit))
    ensures var rows := SearchRows(SearchPages(snaps, None, limit));
            && Descending(rows)
            && (forall k | k in rows :: exists i | 0 <= i < |snaps| :: k in snaps[i])
            && (forall k | k in snaps[0] && (forall i | 0 <= i < |snaps| :: k in snaps[i]) :: k in rows)
            && ((forall i | 0 <= i < |snaps| :: snaps[i] == snaps[0]) ==> rows == Sorted(snaps[0]))
  {
    SearchIsWalk(snaps, None, limit);
    WalkDescends(snaps, None, limit);
    forall k | k in Walk(snaps, None, limit)
      ensures exists i | 0 <= i < |snaps| :: k in snaps[i]
    {
      WalkSound(snaps, None, limit, k);
    }
    forall k | k in snaps[0] && forall i | 0 <= i < |snaps| :: k in snaps[i]
      ensures k in Walk(snaps, None, limit)
    {
      WalkComplete(snaps, None, limit, k);
    }
    if forall i | 0 <= i < |snaps| :: snaps[i] == snaps[0] {
      StillWalk(snaps, snaps[0], None, limit);
      assert Below(snaps[0], None) == snaps[0];
    }
  }

  /** How many requests it takes when only a page that is not full ends the search. */
  function SearchRequests(n: nat, limit: nat): nat
    requires 1 <= limit
  {
    if n < limit then 1 else 1 + SearchRequests(n - limit, limit)
  }

  /** So a search of a table that does not change takes one request more when its rows fill the last page. */
  lemma {:induction false} StillSearchRequests(snaps: seq<set<Key>>, keys: set<Key>, cursor: Option<Key>, limit: nat)
    requires 1 <= limit && SearchFollowed(SearchPages(snaps, cursor, limit))
    requires forall i | 0 <= i < |snaps| :: snaps[i] == keys
    ensures |snaps| == SearchRequests(|Below(keys, cursor)|, limit)
  {
    var pages := SearchPages(snaps, cursor, limit);
    SearchPageCount(snaps, cursor, limit);
    SearchStep(keys, cursor, limit);
    assert snaps[0] == keys && pages[0] == SearchPage(keys, cursor, limit);
    assert pages[1..] == SearchPages(snaps[1..], pages[0].1, limit);
    if pages[0].1.Some? {
      assert forall i | 0 <= i < |pages| - 1 :: pages[1..][i] == pages[i + 1];
      StillSearchRequests(snaps[1..], keys, pages[0].1, limit);
    }
  }

  /** A full page goes on from its last row, past which `limit` rows fewer are left. */
  lemma SearchStep(keys: set<Key>, cursor: Option<Key>, limit: nat)
    requires 1 <= limit
    ensures var next := SearchPage(keys, cursor, limit).1;
            && (next.Some? <==> |Below(keys, cursor)| >= limit)
            && (next.Some? ==> |Below(keys, next)| == |Below(keys, cursor)| - limit)
  {
    SortedFacts(Below(keys, cursor));
    if |Below(keys, cursor)| >= limit {
      PageSplits(keys, cursor, limit);
      SortedFacts(Below(keys, After(cursor, Page(keys, cursor, limit))));
    }
  }

  lemma {:induction false} SearchPageCount(snaps: seq<set<Key>>, cursor: Option<Key>, limit: nat)
    ensures |SearchPages(snaps, cursor, limit)| == |snaps|
  {
    if snaps != [] {
      SearchPageCount(snaps[1..], SearchPage(snaps[0], cursor, limit).1, limit);
    }
  }

  /** A search of an unchanging table followed to its end returns the whole listing exactly when the limit is positive. */
  lemma SearchCompleteIffPositive(limit: nat)
    ensures (forall snaps: seq<set<Key>> |
               SearchFollowed(SearchPages(snaps, None, limit)) && (forall i | 0 <= i < |snaps| :: snaps[i] == snaps[0]) ::
               SearchRows(SearchPages(snaps, None, limit)) == Sorted(snaps[0])) <==> 1 <= limit
  {
    if 1 <= limit {
      forall snaps: seq<set<Key>> |
        SearchFollowed(SearchPages(snaps, None, limit)) && (forall i | 0 <= i < |snaps| :: snaps[i] == snaps[0])
        ensures SearchRows(SearchPages(snaps, None, limit)) == Sorted(snaps[0])
      {
        SearchWalk(snaps, limit);
      }
    } else {
      var snaps: seq<set<Key>> := [{0}];
      var pages := SearchPages(snaps, None, 0);
      assert snaps[1..] == [];
      assert pages == [([], None)];
      assert SearchFollowed(pages) && pages[1..] == [] && SearchRows(pages) == [];
      SortedFacts({0});
    }
  }

  // ---------------------------------------------------------------------------------------------
  // Backward pages
  // ---------------------------------------------------------------------------------------------

  /** The query layer's backward page is the slice of the descending listing that ends just above the cursor. */
  lemma BackwardSlice(keys: set<Key>, cursor: Option<Key>, n: nat)
    ensures var all := Sorted(Above(keys, cursor));
            Fetch(keys, cursor, true, n) == all[|all| - Min(n, |all|)..]
  {
    var all := Sorted(Above(keys, cursor));
    var m := Min(n, |all|);
    assert |Take(Reverse(all), n)| == m;
    assert Fetch(keys, cursor, true, n) == all[|all| - m..];
  }

  /**
   In other words: at most `n` keys above the cursor, in descending order, and none of those left out is
   nearer to the cursor than those shown; fewer than `n` only if there are no others.
   */
  lemma BackwardNearest(keys: set<Key>, at: Key, n: nat, k: Key)
    requires k in keys
    ensures var rows := Fetch(keys, Some(at), true, n);
            && Descending(rows) && |rows| <= n
            && (k in rows ==> k > at)
            && (k > at && k !in rows ==> |rows| == n && forall i | 0 <= i < |rows| :: rows[i] < k)
  {
    var all := Sorted(Above(keys, Some(at)));
    BackwardSlice(keys, Some(at), n);
    SortedFacts(Above(keys, Some(at)));
    assert k > at <==> k in Elements(all);
    TailNearest(all, Fetch(keys, Some(at), true, n), n, k);
  }

  /** Of a descending sequence, what is cut off before the last `n` is above all of them. */
  lemma TailNearest(all: seq<Key>, rows: seq<Key>, n: nat, k: Key)
    requires Descending(all) && rows == all[|all| - Min(n, |all|)..]
    ensures Descending(rows) && |rows| <= n && (k in rows ==> k in all)
    ensures k in all && k !in rows ==> |rows| == n && forall i | 0 <= i < |rows| :: rows[i] < k
  {
    if k in all {
      var j :| 0 <= j < |all| && all[j] == k;
      if j >= |all| - |rows| {
        assert rows[j - (|all| - |rows|)] == k;
      }
    }
  }

  /**
   The handler truncates after the query layer has reversed, so the row it drops is the one nearest the
   cursor: a backward page contains that row if and only if it is the last page.
   */
  lemma BackwardKeepsNearestIffLast(keys: set<Key>, cursor: Option<Key>, limit: int)
    requires 1 <= limit && Above(keys, cursor) != {}
    ensures var all := Sorted(Above(keys, cursor));
            var page := Respond(keys, cursor, true, limit).value;
            && |all| > 0
            && (page.hasMore <==> |all| > limit)
            && (all[|all| - 1] in page.rows <==> !page.hasMore)
  {
    var all := Sorted(Above(keys, cursor));
    BackwardSlice(keys, cursor, limit + 1);
    SortedFacts(Above(keys, cursor));
    TailCut(all, Fetch(keys, cursor, true, limit + 1), limit);
  }

  /** Cutting the last `limit + 1` rows to the first `limit` of them drops the last of all. */
  lemma TailCut(all: seq<Key>, rows: seq<Key>, limit: nat)
    requires Descending(all) && all != [] && rows == all[|all| - Min(limit + 1, |all|)..]
    ensures var page := Cut(rows, limit);
            (page.hasMore <==> |all| > limit) && (all[|all| - 1] in page.rows <==> !page.hasMore)
  {
    var n := |all|;
    if n > limit {
      assert Cut(rows, limit).rows == all[n - limit - 1..n - 1];
      LastNotBefore(all, n - limit - 1);
    } else {
      assert Cut(rows, limit).rows == all;
    }
  }

  lemma LastNotBefore(s: seq<Key>, i: nat)
    requires Descending(s) && i < |s|
    ensures s[|s| - 1] !in s[i..|s| - 1]
  {
    var before := s[i..|s| - 1];
    assert forall j | 0 <= j < |before| :: before[j] == s[i + j] != s[|s| - 1];
  }

  /** Two rows above the cursor and a limit of one: the page holds the farther row, and the nearer one is never shown. */
  lemma BackwardDropsNearest()
    ensures Respond({1, 2}, Some(0), true, 1) == Some(Response([2], Some(2), true))
  {
    var all := Sorted({1, 2});
    assert Above({1, 2}, Some(0)) == {1, 2};
    SortedFacts({1, 2});
    SortedUnique(all, [2, 1]);
    BackwardSlice({1, 2}, Some(0), 2);
  }
}
