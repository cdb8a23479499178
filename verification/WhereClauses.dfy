/**
 The dynamic WHERE clauses of src/db/queries.rs and src/handlers/export.rs: conditions with numbered
 placeholders, and the values bound to them in a separate pass.

 A condition is kept as its syntax tree, which `Render` prints as the SQL text the source pushes.
 Evaluation follows SQL's three-valued logic; a row is selected when the clause is true.
 */
module WhereClauses {
  import opened Machine
  import opened Timeline
  import opened Decimals
  import L = Listings

  datatype Value = Text(text: string) | Time(time: int) | Amount(amount: real) | Uuid(id: nat) | Limit(n: int)

  datatype Column =
    | Status | AssetCode | AmountColumn | CreatedAt | StellarAccount
    | Actor | Action | Timestamp | EntityType

  datatype Row =
    | Transaction(status: string, assetCode: string, amount: real, createdAt: int, account: string,
                  id: nat, tenant: Option<nat>)
    | AuditRow(actor: string, action: string, timestamp: int, entityType: string, id: nat)

  /** The value of a column; `None` if the table has no such column. */
  function Cell(row: Row, c: Column): Option<Value> {
    match (row, c)
    case (Transaction(s, _, _, _, _, _, _), Status) => Some(Text(s))
    case (Transaction(_, a, _, _, _, _, _), AssetCode) => Some(Text(a))
    case (Transaction(_, _, n, _, _, _, _), AmountColumn) => Some(Amount(n))
    case (Transaction(_, _, _, t, _, _, _), CreatedAt) => Some(Time(t))
    case (Transaction(_, _, _, _, a, _, _), StellarAccount) => Some(Text(a))
    case (AuditRow(a, _, _, _, _), Actor) => Some(Text(a))
    case (AuditRow(_, a, _, _, _), Action) => Some(Text(a))
    case (AuditRow(_, _, t, _, _), Timestamp) => Some(Time(t))
    case (AuditRow(_, _, _, e, _), EntityType) => Some(Text(e))
    case _ => None
  }

  datatype Op = Equal | AtLeast | AtMost | Less

  /** A pushed condition.  Placeholders count from 1. */
  datatype Cond =
    | Compare(column: Column, op: Op, param: nat)
    | KeysetCond(column: Column, below: bool, param: nat)
    | TenantCond(param: nat)

  datatype Tri = True | False | Unknown

  function Truth(b: bool): Tri { if b then True else False }

  function Or(a: Tri, b: Tri): Tri {
    if a.True? || b.True? then True else if a.False? && b.False? then False else Unknown
  }

  /** Comparing values of different types is an error, here `Unknown`. */
  function Compared(a: Option<Value>, op: Op, b: Option<Value>): Tri {
    match (a, b)
    case (Some(Text(x)), Some(Text(y))) => if op.Equal? then Truth(x == y) else Unknown
    case (Some(Uuid(x)), Some(Uuid(y))) => if op.Equal? then Truth(x == y) else Unknown
    case (Some(Time(x)), Some(Time(y))) =>
      (match op case Equal => Truth(x == y) case AtLeast => Truth(x >= y) case AtMost => Truth(x <= y) case Less => Truth(x < y))
    case (Some(Amount(x)), Some(Amount(y))) =>
      (match op case Equal => Truth(x == y) case AtLeast => Truth(x >= y) case AtMost => Truth(x <= y) case Less => Truth(x < y))
    case _ => Unknown
  }

  /** Row comparison `(column, id) < (t, i)`, or `>`. */
  function KeysetCompared(a: Option<Value>, id: nat, below: bool, t: Option<Value>, i: Option<Value>): Tri {
    match (a, t, i)
    case (Some(Time(x)), Some(Time(y)), Some(Uuid(j))) =>
      if below then Truth(x < y || (x == y && id < j)) else Truth(x > y || (x == y && id > j))
    case _ => Unknown
  }

  function Bound(binds: seq<Value>, param: nat): Option<Value> {
    if 1 <= param <= |binds| then Some(binds[param - 1]) else None
  }

  function TenantOf(row: Row): Option<Value> {
    if row.Transaction? && row.tenant.Some? then Some(Uuid(row.tenant.value)) else None
  }

  function Eval(c: Cond, binds: seq<Value>, row: Row): Tri {
    match c
    case Compare(column, op, p) => Compared(Cell(row, column), op, Bound(binds, p))
    case KeysetCond(column, below, p) =>
      KeysetCompared(Cell(row, column), row.id, below, Bound(binds, p), Bound(binds, p + 1))
    case TenantCond(p) =>
      // tenant_id = $p OR tenant_id IS NULL
      Or(Compared(TenantOf(row), Equal, Bound(binds, p)), Truth(TenantOf(row).None?))
  }

  /** A conjunction selects a row when every condition is true. */
  predicate Selects(conds: seq<Cond>, binds: seq<Value>, row: Row) {
    conds == [] || (Selects(conds[..|conds| - 1], binds, row) && Eval(conds[|conds| - 1], binds, row).True?)
  }

  // ---------------------------------------------------------------------------------------------
  // Filters, before they are numbered
  // ---------------------------------------------------------------------------------------------

  /** A present filter with the values it will bind. */
  datatype Filter =
    | CompareTo(column: Column, op: Op, value: Value)
    | Beyond(column: Column, below: bool, time: int, id: nat)
    | Scope(tenant: nat)

  function Values(f: Filter): seq<Value> {
    match f
    case CompareTo(_, _, v) => [v]
    case Beyond(_, _, t, id) => [Time(t), Uuid(id)]
    case Scope(t) => [Uuid(t)]
  }

  function Number(f: Filter, p: nat): Cond {
    match f
    case CompareTo(column, op, _) => Compare(column, op, p)
    case Beyond(column, below, _, _) => KeysetCond(column, below, p)
    case Scope(_) => TenantCond(p)
  }

  /** What the filter means for a row, with no placeholders involved. */
  function Holds(f: Filter, row: Row): Tri {
    match f
    case CompareTo(column, op, v) => Compared(Cell(row, column), op, Some(v))
    case Beyond(column, below, t, id) => KeysetCompared(Cell(row, column), row.id, below, Some(Time(t)), Some(Uuid(id)))
    case Scope(t) => Or(Compared(TenantOf(row), Equal, Some(Uuid(t))), Truth(TenantOf(row).None?))
  }

  predicate AllHold(fs: seq<Filter>, row: Row) {
    fs == [] || (AllHold(fs[..|fs| - 1], row) && Holds(fs[|fs| - 1], row).True?)
  }

  function AllValues(fs: seq<Filter>): seq<Value> {
    if fs == [] then [] else AllValues(fs[..|fs| - 1]) + Values(fs[|fs| - 1])
  }

  function Numbered(fs: seq<Filter>): seq<Cond> {
    if fs == [] then []
    else
      var init := fs[..|fs| - 1];
      Numbered(init) + [Number(fs[|fs| - 1], |AllValues(init)| + 1)]
  }

  lemma NumberedAppend(fs: seq<Filter>, f: Filter)
    ensures Numbered(fs + [f]) == Numbered(fs) + [Number(f, |AllValues(fs)| + 1)]
    ensures AllValues(fs + [f]) == AllValues(fs) + Values(f)
  {
    assert (fs + [f])[..|fs + [f]| - 1] == fs;
  }

  /** A numbered condition reads back exactly the values its filter bound, whatever is bound after them. */
  lemma NumberMeans(f: Filter, before: seq<Value>, after: seq<Value>, row: Row)
    ensures Eval(Number(f, |before| + 1), before + Values(f) + after, row) == Holds(f, row)
  {
    var binds := before + Values(f) + after;
    assert Bound(binds, |before| + 1) == Some(Values(f)[0]);
    if f.Beyond? {
      assert Bound(binds, |before| + 2) == Some(Values(f)[1]);
    }
  }

  /** Conditions numbered in push order and values bound in the same order mean the filters they came from. */
  lemma {:induction false} NumberedMeans(fs: seq<Filter>, after: seq<Value>, row: Row)
    ensures Selects(Numbered(fs), AllValues(fs) + after, row) <==> AllHold(fs, row)
    ensures |Numbered(fs)| == |fs|
  {
    if fs != [] {
      var n := |fs| - 1;
      var init, last := fs[..n], fs[n];
      NumberedMeans(init, Values(last) + after, row);
      NumberMeans(last, AllValues(init), after, row);
      assert AllValues(init) + (Values(last) + after) == AllValues(fs) + after
          == AllValues(init) + Values(last) + after;
      assert Numbered(fs)[..n] == Numbered(init);
    }
  }

  /** The same with nothing bound afterwards. */
  lemma BoundMeans(fs: seq<Filter>, row: Row)
    ensures Selects(Numbered(fs), AllValues(fs), row) <==> AllHold(fs, row)
  {
    NumberedMeans(fs, [], row);
    assert AllValues(fs) + [] == AllValues(fs);
  }

  /** The placeholders a condition mentions. */
  function Params(c: Cond): seq<nat> {
    match c
    case Compare(_, _, p) => [p]
    case KeysetCond(_, _, p) => [p, p + 1]
    case TenantCond(p) => [p]
  }

  function AllParams(conds: seq<Cond>): seq<nat> {
    if conds == [] then [] else AllParams(conds[..|conds| - 1]) + Params(conds[|conds| - 1])
  }

  ghost predicate PlaceholdersAre(fs: seq<Filter>) {
    AllParams(Numbered(fs)) == UpTo(|AllValues(fs)|)
  }

  /** The placeholders are exactly 1, 2, ..., one for each bound value. */
  lemma {:induction false} PlaceholdersExact(fs: seq<Filter>)
    ensures PlaceholdersAre(fs)
  {
    if fs != [] {
      var init, f := fs[..|fs| - 1], fs[|fs| - 1];
      assert fs == init + [f];
      PlaceholdersExact(init);
      OneMorePlaceholder(init, f);
    }
  }

  lemma OneMorePlaceholder(fs: seq<Filter>, f: Filter)
    requires PlaceholdersAre(fs)
    ensures PlaceholdersAre(fs + [f])
  {
    var k := |AllValues(fs)|;
    calc {
      AllParams(Numbered(fs + [f]));
    ==  { NumberedAppend(fs, f); }
      AllParams(Numbered(fs) + [Number(f, k + 1)]);
    ==  { AllParamsAppend(Numbered(fs), Number(f, k + 1)); }
      UpTo(k) + Params(Number(f, k + 1));
    ==  { NextPlaceholders(f, k); }
      UpTo(k + |Values(f)|);
    ==  { NumberedAppend(fs, f); }
      UpTo(|AllValues(fs + [f])|);
    }
  }

  lemma AllParamsAppend(conds: seq<Cond>, c: Cond)
    ensures AllParams(conds + [c]) == AllParams(conds) + Params(c)
  {
    assert (conds + [c])[..|conds|] == conds;
  }

  lemma NextPlaceholders(f: Filter, k: nat)
    ensures UpTo(k) + Params(Number(f, k + 1)) == UpTo(k + |Values(f)|)
  {
    assert UpTo(k + 2) == UpTo(k + 1) + [k + 2];
  }

  function UpTo(n: nat): seq<nat> {
    if n == 0 then [] else UpTo(n - 1) + [n]
  }

  // ---------------------------------------------------------------------------------------------
  // Builders
  // ---------------------------------------------------------------------------------------------

  function TextFilter(c: Column, v: Option<string>): seq<Filter> {
    if v.Some? then [CompareTo(c, Equal, Text(v.value))] else []
  }

  function TimeFilter(c: Column, op: Op, v: Option<int>): seq<Filter> {
    if v.Some? then [CompareTo(c, op, Time(v.value))] else []
  }

  function AmountFilter(op: Op, v: Option<real>): seq<Filter> {
    if v.Some? then [CompareTo(AmountColumn, op, Amount(v.value))] else []
  }

  function CursorFilter(c: Column, below: bool, v: Option<(int, nat)>): seq<Filter> {
    if v.Some? then [Beyond(c, below, v.value.0, v.value.1)] else []
  }

  // What each kind of filter means for the cell it looks at.

  lemma TextFilterMeans(c: Column, v: Option<string>, row: Row, cell: string)
    requires Cell(row, c) == Some(Text(cell))
    ensures AllHold(TextFilter(c, v), row) <==> (v.Some? ==> cell == v.value)
  {
    OneFilter(TextFilter(c, v), row);
  }

  lemma TimeFilterMeans(c: Column, op: Op, v: Option<int>, row: Row, cell: int)
    requires Cell(row, c) == Some(Time(cell)) && !op.Equal?
    ensures AllHold(TimeFilter(c, op, v), row) <==>
            (v.Some? ==> if op.AtLeast? then cell >= v.value else if op.AtMost? then cell <= v.value else cell < v.value)
  {
    OneFilter(TimeFilter(c, op, v), row);
  }

  lemma AmountFilterMeans(op: Op, v: Option<real>, row: Row)
    requires row.Transaction? && (op.AtLeast? || op.AtMost?)
    ensures AllHold(AmountFilter(op, v), row) <==>
            (v.Some? ==> if op.AtLeast? then row.amount >= v.value else row.amount <= v.value)
  {
    OneFilter(AmountFilter(op, v), row);
  }

  predicate Before(t: int, id: nat, c: (int, nat)) {
    t < c.0 || (t == c.0 && id < c.1)
  }

  predicate Past(t: int, id: nat, c: (int, nat)) {
    t > c.0 || (t == c.0 && id > c.1)
  }

  lemma CursorFilterMeans(c: Column, below: bool, v: Option<(int, nat)>, row: Row, cell: int)
    requires Cell(row, c) == Some(Time(cell))
    ensures AllHold(CursorFilter(c, below, v), row) <==>
            (v.Some? ==> if below then Before(cell, row.id, v.value) else Past(cell, row.id, v.value))
  {
    OneFilter(CursorFilter(c, below, v), row);
  }

  lemma ScopeMeans(tenant: nat, row: Row)
    requires row.Transaction?
    ensures AllHold([Scope(tenant)], row) <==> (row.tenant.Some? ==> row.tenant.value == tenant)
  {
    OneFilter([Scope(tenant)], row);
  }

  lemma OneFilter(fs: seq<Filter>, row: Row)
    requires |fs| <= 1
    ensures AllHold(fs, row) <==> (fs == [] || Holds(fs[0], row).True?)
  {
    if fs != [] {
      assert fs[..0] == [];
    }
  }

  lemma {:induction false} AllHoldConcat(a: seq<Filter>, b: seq<Filter>, row: Row)
    ensures AllHold(a + b, row) <==> AllHold(a, row) && AllHold(b, row)
  {
    if b == [] {
      assert a + b == a;
    } else {
      var n := |b| - 1;
      AllHoldConcat(a, b[..n], row);
      assert (a + b)[..|a + b| - 1] == a + b[..n];
    }
  }

  /** One optional push: the condition takes the next placeholder and moves the counter past its values. */
  method Push(conds: seq<Cond>, p: nat, add: seq<Filter>, ghost fs: seq<Filter>)
    returns (conds': seq<Cond>, p': nat, ghost fs': seq<Filter>)
    requires conds == Numbered(fs) && p == |AllValues(fs)| + 1 && |add| <= 1
    ensures fs' == fs + add
    ensures conds' == Numbered(fs') && p' == |AllValues(fs')| + 1
  {
    conds', p', fs' := conds, p, fs + add;
    if |add| == 1 {
      NumberedAppend(fs, add[0]);
      assert fs + add == fs + [add[0]];
      conds' := conds + [Number(add[0], p)];
      p' := p + |Values(add[0])|;
    } else {
      assert fs + add == fs;
    }
  }

  /** One optional bind, in the same order as the pushes. */
  method Bind(binds: seq<Value>, add: seq<Filter>, ghost fs: seq<Filter>)
    returns (binds': seq<Value>, ghost fs': seq<Filter>)
    requires binds == AllValues(fs) && |add| <= 1
    ensures fs' == fs + add && binds' == AllValues(fs')
  {
    binds', fs' := binds, fs + add;
    if |add| == 1 {
      NumberedAppend(fs, add[0]);
      assert fs + add == fs + [add[0]];
      binds' := binds + Values(add[0]);
    } else {
      assert fs + add == fs;
    }
  }

  // ---------------------------------------------------------------------------------------------
  // Transaction search
  // ---------------------------------------------------------------------------------------------

  datatype Search = Search(
    status: Option<string>, assetCode: Option<string>, minAmount: Option<real>, maxAmount: Option<real>,
    from: Option<int>, to: Option<int>, account: Option<string>, cursor: Option<(int, nat)>, tenant: nat)

  ghost function SearchFilters(q: Search): seq<Filter> {
    TextFilter(Status, q.status) + TextFilter(AssetCode, q.assetCode)
    + AmountFilter(AtLeast, q.minAmount) + AmountFilter(AtMost, q.maxAmount)
    + TimeFilter(CreatedAt, AtLeast, q.from) + TimeFilter(CreatedAt, AtMost, q.to)
    + TextFilter(StellarAccount, q.account) + CursorFilter(CreatedAt, true, q.cursor) + [Scope(q.tenant)]
  }

  /** What a search asks for: every filter that is present, and the tenant's own or unowned rows. */
  predicate SearchWants(q: Search, row: Row)
    requires row.Transaction?
  {
    && (q.status.Some? ==> row.status == q.status.value)
    && (q.assetCode.Some? ==> row.assetCode == q.assetCode.value)
    && (q.minAmount.Some? ==> row.amount >= q.minAmount.value)
    && (q.maxAmount.Some? ==> row.amount <= q.maxAmount.value)
    && (q.from.Some? ==> row.createdAt >= q.from.value)
    && (q.to.Some? ==> row.createdAt <= q.to.value)
    && (q.account.Some? ==> row.account == q.account.value)
    && (q.cursor.Some? ==> Before(row.createdAt, row.id, q.cursor.value))
    && (row.tenant.Some? ==> row.tenant.value == q.tenant)
  }

  lemma SearchFiltersMean(q: Search, row: Row)
    requires row.Transaction?
    ensures AllHold(SearchFilters(q), row) <==> SearchWants(q, row)
  {
    var a := TextFilter(Status, q.status);
    var b := a + TextFilter(AssetCode, q.assetCode);
    var c := b + AmountFilter(AtLeast, q.minAmount);
    var d := c + AmountFilter(AtMost, q.maxAmount);
    var e := d + TimeFilter(CreatedAt, AtLeast, q.from);
    var f := e + TimeFilter(CreatedAt, AtMost, q.to);
    var g := f + TextFilter(StellarAccount, q.account);
    var h := g + CursorFilter(CreatedAt, true, q.cursor);
    AllHoldConcat(a, TextFilter(AssetCode, q.assetCode), row);
    AllHoldConcat(b, AmountFilter(AtLeast, q.minAmount), row);
    AllHoldConcat(c, AmountFilter(AtMost, q.maxAmount), row);
    AllHoldConcat(d, TimeFilter(CreatedAt, AtLeast, q.from), row);
    AllHoldConcat(e, TimeFilter(CreatedAt, AtMost, q.to), row);
    AllHoldConcat(f, TextFilter(StellarAccount, q.account), row);
    AllHoldConcat(g, CursorFilter(CreatedAt, true, q.cursor), row);
    AllHoldConcat(h, [Scope(q.tenant)], row);
    TextFilterMeans(Status, q.status, row, row.status);
    TextFilterMeans(AssetCode, q.assetCode, row, row.assetCode);
    AmountFilterMeans(AtLeast, q.minAmount, row);
    AmountFilterMeans(AtMost, q.maxAmount, row);
    TimeFilterMeans(CreatedAt, AtLeast, q.from, row, row.createdAt);
    TimeFilterMeans(CreatedAt, AtMost, q.to, row, row.createdAt);
    TextFilterMeans(StellarAccount, q.account, row, row.account);
    CursorFilterMeans(CreatedAt, true, q.cursor, row, row.createdAt);
    ScopeMeans(q.tenant, row);
  }

  method PushColumns(q: Search) returns (conds: seq<Cond>, p: nat, ghost fs: seq<Filter>)
    ensures fs == TextFilter(Status, q.status) + TextFilter(AssetCode, q.assetCode)
                  + AmountFilter(AtLeast, q.minAmount) + AmountFilter(AtMost, q.maxAmount)
    ensures conds == Numbered(fs) && p == |AllValues(fs)| + 1
  {
    conds, p, fs := [], 1, [];
    conds, p, fs := Push(conds, p, TextFilter(Status, q.status), fs);
    conds, p, fs := Push(conds, p, TextFilter(AssetCode, q.assetCode), fs);
    conds, p, fs := Push(conds, p, AmountFilter(AtLeast, q.minAmount), fs);
    conds, p, fs := Push(conds, p, AmountFilter(AtMost, q.maxAmount), fs);
  }

  method PushSearch(q: Search) returns (conds: seq<Cond>, p: nat)
    ensures conds == Numbered(SearchFilters(q)) && p == |AllValues(SearchFilters(q))| + 1
  {
    ghost var fs;
    conds, p, fs := PushColumns(q);
    conds, p, fs := Push(conds, p, TimeFilter(CreatedAt, AtLeast, q.from), fs);
    conds, p, fs := Push(conds, p, TimeFilter(CreatedAt, AtMost, q.to), fs);
    conds, p, fs := Push(conds, p, TextFilter(StellarAccount, q.account), fs);
    conds, p, fs := Push(conds, p, CursorFilter(CreatedAt, true, q.cursor), fs);
    conds, p, fs := Push(conds, p, [Scope(q.tenant)], fs);
    assert fs == SearchFilters(q);
  }

  method BindSearch(q: Search) returns (binds: seq<Value>)
    ensures binds == AllValues(SearchFilters(q))
  {
    binds := [];
    ghost var fs: seq<Filter> := [];
    binds, fs := Bind(binds, TextFilter(Status, q.status), fs);
    binds, fs := Bind(binds, TextFilter(AssetCode, q.assetCode), fs);
    binds, fs := Bind(binds, AmountFilter(AtLeast, q.minAmount), fs);
    binds, fs := Bind(binds, AmountFilter(AtMost, q.maxAmount), fs);
    binds, fs := Bind(binds, TimeFilter(CreatedAt, AtLeast, q.from), fs);
    binds, fs := Bind(binds, TimeFilter(CreatedAt, AtMost, q.to), fs);
    binds, fs := Bind(binds, TextFilter(StellarAccount, q.account), fs);
    binds, fs := Bind(binds, CursorFilter(CreatedAt, true, q.cursor), fs);
    binds, fs := Bind(binds, [Scope(q.tenant)], fs);
    assert fs == SearchFilters(q);
  }

  /**
   `search_transactions_for_tenant`: for every combination of filters and every row, the clause under the
   binds selects exactly what was asked for, in the count query and in the data query; the placeholders
   are 1 to k; and the LIMIT placeholder is the next one and finds the limit.
   */
  method SearchQuery(q: Search, limit: int)
    returns (conds: seq<Cond>, limitParam: nat, countBinds: seq<Value>, dataBinds: seq<Value>)
    ensures forall row: Row | row.Transaction? :: Selects(conds, countBinds, row) <==> SearchWants(q, row)
    ensures forall row: Row | row.Transaction? :: Selects(conds, dataBinds, row) <==> SearchWants(q, row)
    ensures AllParams(conds) == UpTo(|countBinds|) && |dataBinds| == |countBinds| + 1
    ensures Bound(dataBinds, limitParam) == Some(Limit(limit)) && limitParam == |dataBinds|
  {
    conds, limitParam := PushSearch(q);
    countBinds := BindSearch(q);
    var data := BindSearch(q);
    dataBinds := data + [Limit(limit)];
    ghost var fs := SearchFilters(q);
    PlaceholdersExact(fs);
    forall row: Row | row.Transaction?
      ensures Selects(conds, countBinds, row) <==> SearchWants(q, row)
      ensures Selects(conds, dataBinds, row) <==> SearchWants(q, row)
    {
      SearchClauseMeans(q, limit, row);
    }
  }

  lemma SearchClauseMeans(q: Search, limit: int, row: Row)
    requires row.Transaction?
    ensures var fs := SearchFilters(q);
            && (Selects(Numbered(fs), AllValues(fs), row) <==> SearchWants(q, row))
            && (Selects(Numbered(fs), AllValues(fs) + [Limit(limit)], row) <==> SearchWants(q, row))
  {
    SearchFiltersMean(q, row);
    BoundMeans(SearchFilters(q), row);
    NumberedMeans(SearchFilters(q), [Limit(limit)], row);
  }

  // ---------------------------------------------------------------------------------------------
  // Tenant-scoped listing
  // ---------------------------------------------------------------------------------------------

  datatype Listing = Listing(cursor: Option<(int, nat)>, backward: bool, from: Option<int>, to: Option<int>, tenant: nat)

  ghost function ListingFilters(q: Listing): seq<Filter> {
    CursorFilter(CreatedAt, !q.backward, q.cursor) + TimeFilter(CreatedAt, AtLeast, q.from)
    + TimeFilter(CreatedAt, AtMost, q.to) + [Scope(q.tenant)]
  }

  predicate ListingWants(q: Listing, row: Row)
    requires row.Transaction?
  {
    && (q.cursor.Some? ==>
          if q.backward then Past(row.createdAt, row.id, q.cursor.value) else Before(row.createdAt, row.id, q.cursor.value))
    && (q.from.Some? ==> row.createdAt >= q.from.value)
    && (q.to.Some? ==> row.createdAt <= q.to.value)
    && (row.tenant.Some? ==> row.tenant.value == q.tenant)
  }

  /** `list_transactions_filtered_for_tenant`: the same, with the cursor first. */
  method ListingQuery(q: Listing, limit: int) returns (conds: seq<Cond>, limitParam: nat, binds: seq<Value>)
    ensures forall row: Row | row.Transaction? :: Selects(conds, binds, row) <==> ListingWants(q, row)
    ensures Bound(binds, limitParam) == Some(Limit(limit)) && limitParam == |binds| >= 1
    ensures AllParams(conds) == UpTo(limitParam - 1)
  {
    conds, limitParam, binds := [], 1, [];
    ghost var fs: seq<Filter>, gs: seq<Filter> := [], [];
    conds, limitParam, fs := Push(conds, limitParam, CursorFilter(CreatedAt, !q.backward, q.cursor), fs);
    conds, limitParam, fs := Push(conds, limitParam, TimeFilter(CreatedAt, AtLeast, q.from), fs);
    conds, limitParam, fs := Push(conds, limitParam, TimeFilter(CreatedAt, AtMost, q.to), fs);
    conds, limitParam, fs := Push(conds, limitParam, [Scope(q.tenant)], fs);
    assert fs == ListingFilters(q);
    binds, gs := Bind(binds, CursorFilter(CreatedAt, !q.backward, q.cursor), gs);
    binds, gs := Bind(binds, TimeFilter(CreatedAt, AtLeast, q.from), gs);
    binds, gs := Bind(binds, TimeFilter(CreatedAt, AtMost, q.to), gs);
    binds, gs := Bind(binds, [Scope(q.tenant)], gs);
    assert gs == fs;
    binds := binds + [Limit(limit)];
    PlaceholdersExact(fs);
    forall row: Row | row.Transaction?
      ensures Selects(conds, binds, row) <==> ListingWants(q, row)
    {
      ListingFiltersMean(q, row);
      NumberedMeans(fs, [Limit(limit)], row);
    }
  }

  /**
   What the listing clause asks for is what keyset paging needs: the rows of the filtered snapshot whose
   key is below the cursor's, or above it when walking backward.
   */
  lemma ListingIsKeyset(q: Listing, row: Row)
    requires row.Transaction? && row.id < L.ID_SPACE && (q.cursor.Some? ==> q.cursor.value.1 < L.ID_SPACE)
    ensures var key := L.KeyOf(row.createdAt, row.id);
            var listed := L.Listed(L.Transaction(row.createdAt, row.tenant, None), L.ListFilter(q.from, q.to, q.tenant));
            ListingWants(q, row) <==>
            && listed
            && (q.cursor.Some? ==>
                  var at := L.KeyOf(q.cursor.value.0, q.cursor.value.1);
                  if q.backward then key > at else key < at)
  {
    if q.cursor.Some? {
      L.KeyOrder(row.createdAt, row.id, q.cursor.value.0, q.cursor.value.1);
      L.KeyOrder(q.cursor.value.0, q.cursor.value.1, row.createdAt, row.id);
    }
  }

  lemma ListingFiltersMean(q: Listing, row: Row)
    requires row.Transaction?
    ensures AllHold(ListingFilters(q), row) <==> ListingWants(q, row)
  {
    var a := CursorFilter(CreatedAt, !q.backward, q.cursor);
    var b := a + TimeFilter(CreatedAt, AtLeast, q.from);
    var c := b + TimeFilter(CreatedAt, AtMost, q.to);
    AllHoldConcat(a, TimeFilter(CreatedAt, AtLeast, q.from), row);
    AllHoldConcat(b, TimeFilter(CreatedAt, AtMost, q.to), row);
    AllHoldConcat(c, [Scope(q.tenant)], row);
    CursorFilterMeans(CreatedAt, !q.backward, q.cursor, row, row.createdAt);
    TimeFilterMeans(CreatedAt, AtLeast, q.from, row, row.createdAt);
    TimeFilterMeans(CreatedAt, AtMost, q.to, row, row.createdAt);
    ScopeMeans(q.tenant, row);
  }

  // ---------------------------------------------------------------------------------------------
  // Audit search
  // ---------------------------------------------------------------------------------------------

  datatype AuditSearch = AuditSearch(
    actor: Option<string>, action: Option<string>, from: Option<int>, to: Option<int>,
    entityType: Option<string>, cursor: Option<(int, nat)>)

  ghost function AuditBase(q: AuditSearch): seq<Filter> {
    TextFilter(Actor, q.actor) + TextFilter(Action, q.action) + TimeFilter(Timestamp, AtLeast, q.from)
    + TimeFilter(Timestamp, AtMost, q.to) + TextFilter(EntityType, q.entityType)
  }

  ghost function AuditAll(q: AuditSearch): seq<Filter> {
    AuditBase(q) + CursorFilter(Timestamp, true, q.cursor)
  }

  predicate AuditWants(q: AuditSearch, row: Row)
    requires row.AuditRow?
  {
    && (q.actor.Some? ==> row.actor == q.actor.value)
    && (q.action.Some? ==> row.action == q.action.value)
    && (q.from.Some? ==> row.timestamp >= q.from.value)
    && (q.to.Some? ==> row.timestamp <= q.to.value)
    && (q.entityType.Some? ==> row.entityType == q.entityType.value)
    && (q.cursor.Some? ==> Before(row.timestamp, row.id, q.cursor.value))
  }

  lemma AuditFiltersMean(q: AuditSearch, row: Row)
    requires row.AuditRow?
    ensures AllHold(AuditBase(q), row) <==> AuditWants(q.(cursor := None), row)
    ensures AllHold(AuditAll(q), row) <==> AuditWants(q, row)
  {
    var a := TextFilter(Actor, q.actor);
    var b := a + TextFilter(Action, q.action);
    var c := b + TimeFilter(Timestamp, AtLeast, q.from);
    var d := c + TimeFilter(Timestamp, AtMost, q.to);
    AllHoldConcat(a, TextFilter(Action, q.action), row);
    AllHoldConcat(b, TimeFilter(Timestamp, AtLeast, q.from), row);
    AllHoldConcat(c, TimeFilter(Timestamp, AtMost, q.to), row);
    AllHoldConcat(d, TextFilter(EntityType, q.entityType), row);
    AllHoldConcat(AuditBase(q), CursorFilter(Timestamp, true, q.cursor), row);
    TextFilterMeans(Actor, q.actor, row, row.actor);
    TextFilterMeans(Action, q.action, row, row.action);
    TimeFilterMeans(Timestamp, AtLeast, q.from, row, row.timestamp);
    TimeFilterMeans(Timestamp, AtMost, q.to, row, row.timestamp);
    TextFilterMeans(EntityType, q.entityType, row, row.entityType);
    CursorFilterMeans(Timestamp, true, q.cursor, row, row.timestamp);
  }

  function ColumnName(c: Column): string {
    match c
    case Status => "status"
    case AssetCode => "asset_code"
    case AmountColumn => "amount"
    case CreatedAt => "created_at"
    case StellarAccount => "stellar_account"
    case Actor => "actor"
    case Action => "action"
    case Timestamp => "timestamp"
    case EntityType => "entity_type"
  }

  function OpText(op: Op): string {
    match op
    case Equal => " = $"
    case AtLeast => " >= $"
    case AtMost => " <= $"
    case Less => " < $"
  }

  /** The text that is pushed. */
  function Render(c: Cond): string {
    match c
    case Compare(column, op, p) => ColumnName(column) + OpText(op) + Decimal(p)
    case KeysetCond(column, below, p) =>
      "(" + (ColumnName(column) + ", id") + ((if below then ") < ($" else ") > ($") + Decimal(p) + ", $" + Decimal(p + 1) + ")")
    case TenantCond(p) => "(tenant_id = $" + Decimal(p) + " OR tenant_id IS NULL)"
  }

  predicate OccursAt(s: string, needle: string, i: nat) {
    i + |needle| <= |s| && s[i..i + |needle|] == needle
  }

  /** `str::contains`. */
  predicate Contains(s: string, needle: string) {
    exists i | 0 <= i <= |s| :: OccursAt(s, needle, i)
  }

  const CURSOR_MARK: string := "timestamp, id"

  /** The count query keeps the conditions whose text does not mention the cursor. */
  function Stripped(conds: seq<Cond>): seq<Cond> {
    if conds == [] then []
    else
      var last := conds[|conds| - 1];
      Stripped(conds[..|conds| - 1]) + if Contains(Render(last), CURSOR_MARK) then [] else [last]
  }

  predicate NoComma(s: string) {
    ',' !in s
  }

  lemma NoCommaNoMark(s: string)
    requires NoComma(s)
    ensures !Contains(s, CURSOR_MARK)
  {
    forall i: nat
      ensures !OccursAt(s, CURSOR_MARK, i)
    {
      assert CURSOR_MARK[9] == ',';
      assert i + 13 <= |s| ==> s[i..i + 13][9] == s[i + 9] && s[i + 9] in s;
    }
  }

  lemma ContainsMiddle(a: string, needle: string, b: string)
    ensures Contains(a + needle + b, needle)
  {
    assert OccursAt(a + needle + b, needle, |a|);
  }

  /** A comparison never mentions the cursor, and the cursor condition always does. */
  lemma MarkFindsCursor(c: Cond)
    requires c.Compare? || (c.KeysetCond? && c.column.Timestamp?)
    ensures Contains(Render(c), CURSOR_MARK) <==> c.KeysetCond?
  {
    if c.Compare? {
      ComparisonHasNoComma(c);
      NoCommaNoMark(Render(c));
    } else {
      var tail := (if c.below then ") < ($" else ") > ($") + Decimal(c.param) + ", $" + Decimal(c.param + 1) + ")";
      assert ColumnName(c.column) + ", id" == CURSOR_MARK;
      ContainsMiddle("(", CURSOR_MARK, tail);
    }
  }

  lemma ComparisonHasNoComma(c: Cond)
    requires c.Compare?
    ensures NoComma(Render(c))
  {
    assert NoComma(ColumnName(c.column));
    assert NoComma(OpText(c.op));
    DecimalFacts(c.param);
    assert NoComma(Decimal(c.param));
  }

  ghost predicate Comparisons(fs: seq<Filter>) {
    forall i | 0 <= i < |fs| :: fs[i].CompareTo?
  }

  lemma {:induction false} StrippedComparisons(fs: seq<Filter>)
    requires Comparisons(fs)
    ensures Stripped(Numbered(fs)) == Numbered(fs)
  {
    if fs != [] {
      var n := |fs| - 1;
      StrippedComparisons(fs[..n]);
      assert Numbered(fs)[..|Numbered(fs)| - 1] == Numbered(fs[..n]);
      MarkFindsCursor(Numbered(fs)[|Numbered(fs)| - 1]);
    }
  }

  /** Because the cursor is pushed last, stripping it leaves the other conditions numbered from 1 without a gap. */
  lemma StrippedCursor(fs: seq<Filter>, cursor: Option<(int, nat)>)
    requires Comparisons(fs)
    ensures Stripped(Numbered(fs + CursorFilter(Timestamp, true, cursor))) == Numbered(fs)
  {
    StrippedComparisons(fs);
    if cursor.Some? {
      var f := Beyond(Timestamp, true, cursor.value.0, cursor.value.1);
      NumberedAppend(fs, f);
      var c := Number(f, |AllValues(fs)| + 1);
      MarkFindsCursor(c);
      assert (Numbered(fs) + [c])[..|Numbered(fs)|] == Numbered(fs);
    } else {
      assert fs + CursorFilter(Timestamp, true, cursor) == fs;
    }
  }

  method StripCursor(conds: seq<Cond>) returns (kept: seq<Cond>)
    ensures kept == Stripped(conds)
  {
    kept := [];
    for i := 0 to |conds|
      invariant kept == Stripped(conds[..i])
    {
      assert conds[..i + 1][..i] == conds[..i];
      if !Contains(Render(conds[i]), CURSOR_MARK) {
        kept := kept + [conds[i]];
      }
    }
    assert conds[..|conds|] == conds;
  }

  method PushAuditBase(q: AuditSearch) returns (conds: seq<Cond>, p: nat, ghost fs: seq<Filter>)
    ensures fs == AuditBase(q) && conds == Numbered(fs) && p == |AllValues(fs)| + 1
  {
    conds, p, fs := [], 1, [];
    conds, p, fs := Push(conds, p, TextFilter(Actor, q.actor), fs);
    conds, p, fs := Push(conds, p, TextFilter(Action, q.action), fs);
    conds, p, fs := Push(conds, p, TimeFilter(Timestamp, AtLeast, q.from), fs);
    conds, p, fs := Push(conds, p, TimeFilter(Timestamp, AtMost, q.to), fs);
    conds, p, fs := Push(conds, p, TextFilter(EntityType, q.entityType), fs);
  }

  method BindAuditBase(q: AuditSearch) returns (binds: seq<Value>, ghost fs: seq<Filter>)
    ensures fs == AuditBase(q) && binds == AllValues(fs)
  {
    binds, fs := [], [];
    binds, fs := Bind(binds, TextFilter(Actor, q.actor), fs);
    binds, fs := Bind(binds, TextFilter(Action, q.action), fs);
    binds, fs := Bind(binds, TimeFilter(Timestamp, AtLeast, q.from), fs);
    binds, fs := Bind(binds, TimeFilter(Timestamp, AtMost, q.to), fs);
    binds, fs := Bind(binds, TextFilter(EntityType, q.entityType), fs);
  }

  /**
   `search_audit_logs`: the data query selects what was asked for; the count query, whose clause has the
   cursor condition cut out by its text and whose binds leave the cursor out, selects what was asked for
   regardless of the cursor, with its placeholders still 1 to k.
   */
  method AuditQuery(q: AuditSearch, limit: int)
    returns (conds: seq<Cond>, limitParam: nat, dataBinds: seq<Value>, countConds: seq<Cond>, countBinds: seq<Value>)
    ensures forall row: Row | row.AuditRow? :: Selects(conds, dataBinds, row) <==> AuditWants(q, row)
    ensures forall row: Row | row.AuditRow? :: Selects(countConds, countBinds, row) <==> AuditWants(q.(cursor := None), row)
    ensures AllParams(countConds) == UpTo(|countBinds|)
    ensures Bound(dataBinds, limitParam) == Some(Limit(limit)) && limitParam == |dataBinds| >= 1
    ensures AllParams(conds) == UpTo(limitParam - 1)
  {
    conds, limitParam, countConds := PushAudit(q);
    countBinds, dataBinds := BindAudit(q);
    dataBinds := dataBinds + [Limit(limit)];
    ghost var base, all := AuditBase(q), AuditAll(q);
    PlaceholdersExact(base);
    PlaceholdersExact(all);
    forall row: Row | row.AuditRow?
      ensures Selects(conds, dataBinds, row) <==> AuditWants(q, row)
      ensures Selects(countConds, countBinds, row) <==> AuditWants(q.(cursor := None), row)
    {
      AuditFiltersMean(q, row);
      NumberedMeans(all, [Limit(limit)], row);
      BoundMeans(base, row);
    }
  }

  /** All conditions, and those left once the cursor's is cut out. */
  method PushAudit(q: AuditSearch) returns (conds: seq<Cond>, p: nat, countConds: seq<Cond>)
    ensures conds == Numbered(AuditAll(q)) && p == |AllValues(AuditAll(q))| + 1
    ensures countConds == Numbered(AuditBase(q))
  {
    ghost var fs;
    conds, p, fs := PushAuditBase(q);
    StrippedCursor(fs, q.cursor) by { AuditBaseCompares(q); }
    conds, p, fs := Push(conds, p, CursorFilter(Timestamp, true, q.cursor), fs);
    countConds := StripCursor(conds);
  }

  method BindAudit(q: AuditSearch) returns (countBinds: seq<Value>, dataBinds: seq<Value>)
    ensures countBinds == AllValues(AuditBase(q)) && dataBinds == AllValues(AuditAll(q))
  {
    ghost var gs, hs;
    countBinds, gs := BindAuditBase(q);
    dataBinds, hs := BindAuditBase(q);
    dataBinds, hs := Bind(dataBinds, CursorFilter(Timestamp, true, q.cursor), hs);
  }

  lemma AuditBaseCompares(q: AuditSearch)
    ensures Comparisons(AuditBase(q))
  {
  }

  // ---------------------------------------------------------------------------------------------
  // Export
  // ---------------------------------------------------------------------------------------------

  /** Dates as typed by the caller; one that does not parse is ignored by the builder. */
  datatype Export = Export(from: Option<string>, to: Option<string>, status: Option<string>, assetCode: Option<string>)

  function Parsed(parse: string -> Option<int>, date: Option<string>): Option<int> {
    if date.Some? then parse(date.value) else None
  }

  /** The end date is inclusive: everything before the start of the day after it. */
  function DayAfter(t: Option<int>): Option<int> {
    if t.Some? then Some(t.value + SECONDS_PER_DAY) else None
  }

  predicate ExportWants(parse: string -> Option<int>, q: Export, row: Row)
    requires row.Transaction?
  {
    && (Parsed(parse, q.from).Some? ==> row.createdAt >= Parsed(parse, q.from).value)
    && (Parsed(parse, q.to).Some? ==> row.createdAt < Parsed(parse, q.to).value + SECONDS_PER_DAY)
    && (q.status.Some? ==> row.status == q.status.value)
    && (q.assetCode.Some? ==> row.assetCode == q.assetCode.value)
  }

  ghost function ExportFilters(parse: string -> Option<int>, q: Export): seq<Filter> {
    TimeFilter(CreatedAt, AtLeast, Parsed(parse, q.from)) + TimeFilter(CreatedAt, Less, DayAfter(Parsed(parse, q.to)))
    + TextFilter(Status, q.status) + TextFilter(AssetCode, q.assetCode)
  }

  /** Here each condition is pushed together with its parameter. */
  method PushAndBind(conds: seq<Cond>, params: seq<Value>, p: nat, add: seq<Filter>, ghost fs: seq<Filter>)
    returns (conds': seq<Cond>, params': seq<Value>, p': nat, ghost fs': seq<Filter>)
    requires conds == Numbered(fs) && params == AllValues(fs) && p == |params| + 1 && |add| <= 1
    ensures fs' == fs + add
    ensures conds' == Numbered(fs') && params' == AllValues(fs') && p' == |params'| + 1
  {
    conds', p', fs' := Push(conds, p, add, fs);
    ghost var gs;
    params', gs := Bind(params, add, fs);
  }

  method PushExport(parse: string -> Option<int>, q: Export) returns (conds: seq<Cond>, params: seq<Value>)
    ensures conds == Numbered(ExportFilters(parse, q)) && params == AllValues(ExportFilters(parse, q))
  {
    var p := 1;
    conds, params := [], [];
    ghost var fs: seq<Filter> := [];
    conds, params, p, fs := PushAndBind(conds, params, p, TimeFilter(CreatedAt, AtLeast, Parsed(parse, q.from)), fs);
    conds, params, p, fs := PushAndBind(conds, params, p, TimeFilter(CreatedAt, Less, DayAfter(Parsed(parse, q.to))), fs);
    conds, params, p, fs := PushAndBind(conds, params, p, TextFilter(Status, q.status), fs);
    conds, params, p, fs := PushAndBind(conds, params, p, TextFilter(AssetCode, q.assetCode), fs);
    assert fs == ExportFilters(parse, q);
  }

  /** `build_filter_conditions`: the clause under its parameters selects exactly the rows asked for. */
  method BuildFilterConditions(parse: string -> Option<int>, q: Export) returns (conds: seq<Cond>, params: seq<Value>)
    ensures forall row: Row | row.Transaction? :: Selects(conds, params, row) <==> ExportWants(parse, q, row)
    ensures AllParams(conds) == UpTo(|params|)
  {
    conds, params := PushExport(parse, q);
    ghost var fs := ExportFilters(parse, q);
    PlaceholdersExact(fs);
    forall row: Row | row.Transaction?
      ensures Selects(conds, params, row) <==> ExportWants(parse, q, row)
    {
      ExportFiltersMean(parse, q, row);
      BoundMeans(fs, row);
    }
  }

  lemma ExportFiltersMean(parse: string -> Option<int>, q: Export, row: Row)
    requires row.Transaction?
    ensures AllHold(ExportFilters(parse, q), row) <==> ExportWants(parse, q, row)
  {
    var a := TimeFilter(CreatedAt, AtLeast, Parsed(parse, q.from));
    var to := TimeFilter(CreatedAt, Less, DayAfter(Parsed(parse, q.to)));
    AllHoldConcat(a, to, row);
    AllHoldConcat(a + to, TextFilter(Status, q.status), row);
    AllHoldConcat(a + to + TextFilter(Status, q.status), TextFilter(AssetCode, q.assetCode), row);
    TimeFilterMeans(CreatedAt, AtLeast, Parsed(parse, q.from), row, row.createdAt);
    TimeFilterMeans(CreatedAt, Less, DayAfter(Parsed(parse, q.to)), row, row.createdAt);
    TextFilterMeans(Status, q.status, row, row.status);
    TextFilterMeans(AssetCode, q.assetCode, row, row.assetCode);
  }
}
