/**
 Monthly partitions of src/db/cron.rs: names, their parser, and the ranges they cover.
 */
module Partitions {
  import opened Machine
  import opened Timeline
  import opened Decimals

  const I32_MIN: int := -0x8000_0000
  const I32_MAX: int := 0x7fff_ffff
  const U32_MAX: int := 0xffff_ffff

  const PREFIX: string := "transactions_y"

  // ---------------------------------------------------------------------------------------------
  // Names
  // ---------------------------------------------------------------------------------------------

  function PartitionName(year: int, month: nat): string {
    PREFIX + (DecimalInt(year) + "m" + Padded(month))
  }

  /** `str::find('m')`. */
  function FindM(s: string): Option<nat> {
    if s == "" then None
    else if s[0] == 'm' then Some(0)
    else match FindM(s[1..])
      case None => None
      case Some(i) => Some(i + 1)
  }

  lemma {:induction false} FindMFirst(a: string, b: string)
    requires forall i | 0 <= i < |a| :: a[i] != 'm'
    ensures FindM(a + "m" + b) == Some(|a|)
  {
    if a == "" {
      assert a + "m" + b == "m" + b;
    } else {
      FindMFirst(a[1..], b);
      assert (a + "m" + b)[1..] == a[1..] + "m" + b;
    }
  }

  /** The part after the prefix: a year, an `m`, a month. */
  function ParseYearMonth(rest: string): Option<(int, nat)> {
    match FindM(rest)
    case None => None
    case Some(i) =>
      if i >= |rest| then None
      else
        var y, m := ParseInt(rest[..i], I32_MIN, I32_MAX), ParseInt(rest[i + 1..], 0, U32_MAX);
        if y.Some? && m.Some? then Some((y.value, m.value)) else None
  }

  function ParsePartitionName(name: string): Option<(int, nat)> {
    if PREFIX <= name then ParseYearMonth(name[|PREFIX|..]) else None
  }

  lemma ParseJoined(y: string, m: string)
    requires forall i | 0 <= i < |y| :: y[i] != 'm'
    requires ParseInt(y, I32_MIN, I32_MAX).Some? && ParseInt(m, 0, U32_MAX).Some?
    ensures ParseYearMonth(y + "m" + m)
         == Some((ParseInt(y, I32_MIN, I32_MAX).value, ParseInt(m, 0, U32_MAX).value))
  {
    FindMFirst(y, m);
    var rest := y + "m" + m;
    assert rest[..|y|] == y && rest[|y| + 1..] == m;
  }

  lemma ParseDigits(digits: string, lo: int, hi: int)
    requires digits != "" && AllDigits(digits) && lo <= Value(digits) <= hi
    ensures ParseInt(digits, lo, hi) == Some(Value(digits))
  {
    assert IsDigit(digits[0]);
  }

  lemma ParseNegative(digits: string, lo: int, hi: int)
    requires digits != "" && AllDigits(digits) && lo < 0 && lo <= -(Value(digits) as int) <= hi
    ensures ParseInt("-" + digits, lo, hi) == Some(-(Value(digits) as int))
  {
    assert ("-" + digits)[1..] == digits;
  }

  lemma YearText(year: int)
    requires I32_MIN <= year <= I32_MAX
    ensures ParseInt(DecimalInt(year), I32_MIN, I32_MAX) == Some(year)
    ensures forall i | 0 <= i < |DecimalInt(year)| :: DecimalInt(year)[i] != 'm'
  {
    if year < 0 {
      DecimalFacts(-year);
      ParseNegative(Decimal(-year), I32_MIN, I32_MAX);
      NoM(Decimal(-year));
    } else {
      DecimalFacts(year);
      ParseDigits(Decimal(year), I32_MIN, I32_MAX);
      NoM(Decimal(year));
    }
  }

  lemma NoM(digits: string)
    requires AllDigits(digits)
    ensures forall i | 0 <= i < |digits| :: digits[i] != 'm'
  {
  }

  /** The parser undoes the printer for every `i32` year and every `u32` month, so names are never confused. */
  lemma ParseUndoesPrint(year: int, month: nat)
    requires I32_MIN <= year <= I32_MAX && month <= U32_MAX
    ensures ParsePartitionName(PartitionName(year, month)) == Some((year, month))
  {
    var y, m := DecimalInt(year), Padded(month);
    YearText(year);
    PaddedFacts(month);
    ParseDigits(m, 0, U32_MAX);
    ParseJoined(y, m);
    StripPrefix(PREFIX, y + "m" + m);
  }

  lemma StripPrefix(p: string, rest: string)
    ensures p <= p + rest && (p + rest)[|p|..] == rest
  {
  }

  /** A month's name: the year as it is, the month in two digits. */
  lemma NameShape(year: int, month: nat)
    requires 1 <= month <= 12
    ensures PartitionName(year, month) ==
            "transactions_y" + DecimalInt(year) + "m" + [DigitChar(month / 10), DigitChar(month % 10)]
  {
    if month < 10 {
      assert Padded(month) == ['0'] + [DigitChar(month)] && DigitChar(0) == '0';
    } else {
      assert Decimal(month / 10) == [DigitChar(month / 10)];
    }
  }

  lemma NamesInjective(y1: int, m1: nat, y2: int, m2: nat)
    requires I32_MIN <= y1 <= I32_MAX && m1 <= U32_MAX && I32_MIN <= y2 <= I32_MAX && m2 <= U32_MAX
    requires PartitionName(y1, m1) == PartitionName(y2, m2)
    ensures y1 == y2 && m1 == m2
  {
    ParseUndoesPrint(y1, m1);
    ParseUndoesPrint(y2, m2);
  }

  // ---------------------------------------------------------------------------------------------
  // Ranges
  // ---------------------------------------------------------------------------------------------

  predicate IsLeap(year: int) {
    year % 4 == 0 && (year % 100 != 0 || year % 400 == 0)
  }

  function DaysInMonth(year: int, month: nat): nat
    requires 1 <= month <= 12
  {
    if month == 2 then (if IsLeap(year) then 29 else 28)
    else if month == 4 || month == 6 || month == 9 || month == 11 then 30
    else 31
  }

  /** Days from the start of year 1 of the proleptic Gregorian calendar to the start of `year`. */
  function DaysBeforeYear(year: int): int {
    var y := year - 1;
    365 * y + y / 4 - y / 100 + y / 400
  }

  function DaysBeforeMonth(year: int, month: nat): nat
    requires 1 <= month <= 12
  {
    if month == 1 then 0 else DaysBeforeMonth(year, month - 1) + DaysInMonth(year, month - 1)
  }

  /** Midnight UTC of the first of the month, in seconds. */
  function MonthStart(year: int, month: nat): int
    requires 1 <= month <= 12
  {
    SECONDS_PER_DAY * (DaysBeforeYear(year) + DaysBeforeMonth(year, month))
  }

  function NextYear(year: int, month: nat): int { if month == 12 then year + 1 else year }
  function NextMonth(month: nat): nat { if month == 12 then 1 else month + 1 }

  lemma YearLength(year: int)
    ensures DaysBeforeYear(year + 1) == DaysBeforeYear(year) + if IsLeap(year) then 366 else 365
  {
    FourYears(year);
    Century(year);
    FourCenturies(year);
    LeapRules(year);
  }

  lemma FourYears(y: int)
    ensures y / 4 == (y - 1) / 4 + Bit(y % 4 == 0)
  {
  }

  lemma Century(y: int)
    ensures y / 100 == (y - 1) / 100 + Bit(y % 100 == 0)
  {
  }

  lemma FourCenturies(y: int)
    ensures y / 400 == (y - 1) / 400 + Bit(y % 400 == 0)
  {
  }

  lemma LeapRules(y: int)
    ensures Bit(IsLeap(y)) == Bit(y % 4 == 0) - Bit(y % 100 == 0) + Bit(y % 400 == 0)
  {
    if y % 400 == 0 {
      Multiple(y, 400, 4, 100);
    }
    if y % 100 == 0 {
      Multiple(y, 100, 25, 4);
    }
  }

  lemma Multiple(y: int, d: int, a: int, b: int)
    requires (d == 400 && a == 4 && b == 100) || (d == 100 && a == 25 && b == 4)
    requires y % d == 0
    ensures y % b == 0
  {
    var k := y / d;
    assert y == b * (a * k);
  }

  /** Each month ends where the next one starts, across year ends too. */
  lemma MonthLength(year: int, month: nat)
    requires 1 <= month <= 12
    ensures MonthStart(NextYear(year, month), NextMonth(month))
         == MonthStart(year, month) + SECONDS_PER_DAY * DaysInMonth(year, month)
  {
    if month == 12 {
      YearLength(year);
      ElevenMonths(year);
    }
  }

  lemma ElevenMonths(year: int)
    ensures DaysBeforeMonth(year, 12) == if IsLeap(year) then 335 else 334
  {
    var leap := if IsLeap(year) then 1 else 0;
    assert DaysBeforeMonth(year, 3) == DaysBeforeMonth(year, 2) + DaysInMonth(year, 2) == 59 + leap;
    assert DaysBeforeMonth(year, 5) == DaysBeforeMonth(year, 4) + 30 == 120 + leap;
    assert DaysBeforeMonth(year, 7) == DaysBeforeMonth(year, 6) + 30 == 181 + leap;
    assert DaysBeforeMonth(year, 9) == DaysBeforeMonth(year, 8) + 31 == 243 + leap;
    assert DaysBeforeMonth(year, 11) == DaysBeforeMonth(year, 10) + 31 == 304 + leap;
  }

  /** Days of a common year before each month. */
  const CUMULATIVE: seq<nat> := [0, 31, 59, 90, 120, 151, 181, 212, 243, 273, 304, 334]

  /** The calendar, month by month, with the leap day after February. */
  lemma {:induction false} MonthOffsets(year: int, month: nat)
    requires 1 <= month <= 12
    ensures DaysBeforeMonth(year, month) == CUMULATIVE[month - 1] + Bit(IsLeap(year) && month > 2)
  {
    if month > 1 {
      MonthOffsets(year, month - 1);
    }
  }

  /** Seconds are counted from the start of year 1; the Unix epoch is 719162 days later. */
  lemma UnixEpoch()
    ensures MonthStart(1970, 1) == 719_162 * 86_400 && MonthStart(1, 1) == 0
  {
  }

  datatype Partition = Partition(year: int, month: nat, start: int, end: int)

  function MonthPartition(year: int, month: nat): Partition
    requires 1 <= month <= 12
  {
    Partition(year, month, MonthStart(year, month), MonthStart(NextYear(year, month), NextMonth(month)))
  }

  /**
   `create_month_partition`: refuses a bad month, otherwise creates what does not exist yet and then its
   indexes; an index that fails leaves the partition behind.
   */
  method CreateMonthPartition(catalogue: set<Partition>, year: int, month: nat, tableOk: bool, indexesOk: bool)
    returns (catalogue': set<Partition>, done: bool)
    ensures done <==> 1 <= month <= 12 && tableOk && indexesOk
    ensures catalogue' == if 1 <= month <= 12 && tableOk then catalogue + {MonthPartition(year, month)} else catalogue
  {
    if month == 0 || month > 12 || !tableOk {
      return catalogue, false;
    }
    var (ny, nm) := if month == 12 then (year + 1, 1) else (year, month + 1);
    return catalogue + {Partition(year, month, MonthStart(year, month), MonthStart(ny, nm))}, indexesOk;
  }

  /** The month `n` months later. */
  function Later(year: int, month: nat, n: nat): (ym: (int, nat))
    requires 1 <= month <= 12
    ensures 1 <= ym.1 <= 12
  {
    if n == 0 then (year, month)
    else var (y, m) := Later(year, month, n - 1); (NextYear(y, m), NextMonth(m))
  }

  /** The partitions of `n` consecutive months. */
  function Months(year: int, month: nat, n: nat): seq<Partition>
    requires 1 <= month <= 12
  {
    if n == 0 then []
    else var (y, m) := Later(year, month, n - 1); Months(year, month, n - 1) + [MonthPartition(y, m)]
  }

  ghost function Created(year: int, month: nat, n: nat): set<Partition>
    requires 1 <= month <= 12
  {
    set p | p in Months(year, month, n)
  }

  lemma CreatedNext(year: int, month: nat, n: nat)
    requires 1 <= month <= 12
    ensures var (y, m) := Later(year, month, n);
            Created(year, month, n + 1) == Created(year, month, n) + {MonthPartition(y, m)}
  {
  }

  /**
   The loop of `ensure_future_partitions`.  `refused` and `unindexed` say which creations fail at the
   table and at its indexes; the loop stops at the first failure, with the months before it in place.
   */
  method EnsureFuturePartitions(
      catalogue: set<Partition>, year: int, month: nat, monthsAhead: nat, refused: set<nat>, unindexed: set<nat>)
    returns (catalogue': set<Partition>, done: nat)
    requires 1 <= month <= 12
    ensures done <= monthsAhead && (done < monthsAhead ==> done in refused + unindexed)
    ensures forall i | 0 <= i < done :: i !in refused + unindexed
    ensures var created := if done < monthsAhead && done !in refused then done + 1 else done;
            catalogue' == catalogue + Created(year, month, created)
  {
    catalogue' := catalogue;
    var y, m := year, month;
    for i := 0 to monthsAhead
      invariant (y, m) == Later(year, month, i) && 1 <= m <= 12
      invariant catalogue' == catalogue + Created(year, month, i)
      invariant forall j | 0 <= j < i :: j !in refused + unindexed
    {
      CreatedNext(year, month, i);
      var ok;
      catalogue', ok := CreateMonthPartition(catalogue', y, m, i !in refused, i !in unindexed);
      if !ok {
        return catalogue', i;
      }
      if m == 12 {
        m := 1;
        y := y + 1;
      } else {
        m := m + 1;
      }
    }
    done := monthsAhead;
  }

  /** Consecutive months, each a half-open range that ends where the next one starts. */
  ghost predicate Tiles(ps: seq<Partition>, from: int, to: int) {
    && (forall i | 0 <= i < |ps| :: ps[i].start < ps[i].end)
    && (forall i | 0 <= i < |ps| - 1 :: ps[i].end == ps[i + 1].start)
    && (if ps == [] then from == to else ps[0].start == from && ps[|ps| - 1].end == to)
  }

  lemma MonthPartitionFacts(year: int, month: nat)
    requires 1 <= month <= 12
    ensures var p := MonthPartition(year, month);
            p.start == MonthStart(year, month) < p.end == MonthStart(NextYear(year, month), NextMonth(month))
  {
    MonthLength(year, month);
  }

  lemma TilesAppend(ps: seq<Partition>, from: int, p: Partition)
    requires Tiles(ps, from, p.start) && p.start < p.end
    ensures Tiles(ps + [p], from, p.end)
  {
  }

  /** Consecutive months tile the time from the first of the first to the first after the last. */
  lemma {:induction false} MonthsTile(year: int, month: nat, n: nat)
    requires 1 <= month <= 12
    ensures |Months(year, month, n)| == n
    ensures Tiles(Months(year, month, n), MonthStart(year, month), MonthStart(Later(year, month, n).0, Later(year, month, n).1))
  {
    if n > 0 {
      MonthsTile(year, month, n - 1);
      var (y, m) := Later(year, month, n - 1);
      MonthPartitionFacts(y, m);
      TilesAppend(Months(year, month, n - 1), MonthStart(year, month), MonthPartition(y, m));
    }
  }

  lemma {:induction false} TilesOrdered(ps: seq<Partition>, from: int, to: int, i: nat, j: nat)
    requires Tiles(ps, from, to) && i < j < |ps|
    ensures ps[i].end <= ps[j].start
    decreases j
  {
    if i + 1 < j {
      TilesOrdered(ps, from, to, i, j - 1);
    }
  }

  /** Every instant of the span lies in exactly one of the partitions. */
  lemma {:induction false} TilesCover(ps: seq<Partition>, from: int, to: int, t: int) returns (i: nat)
    requires Tiles(ps, from, to) && from <= t < to
    ensures i < |ps| && ps[i].start <= t < ps[i].end
    ensures forall j | 0 <= j < |ps| && ps[j].start <= t < ps[j].end :: j == i
  {
    i := 0;
    while !(t < ps[i].end)
      invariant i < |ps| && ps[i].start <= t
      decreases |ps| - i
    {
      i := i + 1;
    }
    forall j | 0 <= j < |ps| && ps[j].start <= t < ps[j].end
      ensures j == i
    {
      if i < j {
        TilesOrdered(ps, from, to, i, j);
      } else if j < i {
        TilesOrdered(ps, from, to, j, i);
      }
    }
  }

  /** Every instant of `n` consecutive months lies in exactly one partition created for them. */
  lemma MonthsCover(year: int, month: nat, n: nat, t: int) returns (i: nat)
    requires 1 <= month <= 12
    requires MonthStart(year, month) <= t < MonthStart(Later(year, month, n).0, Later(year, month, n).1)
    ensures var ps := Months(year, month, n);
            && i < |ps| && ps[i].start <= t < ps[i].end
            && forall j | 0 <= j < |ps| && ps[j].start <= t < ps[j].end :: j == i
  {
    MonthsTile(year, month, n);
    i := TilesCover(Months(year, month, n), MonthStart(year, month),
                    MonthStart(Later(year, month, n).0, Later(year, month, n).1), t);
  }
}
