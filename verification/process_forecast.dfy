/**
 `process_well_data`: give every forecast row the first day of the calendar
 month that lies `Month - 1` months after its entity's start date.
 */
module ProcessForecast {
  import opened Wrappers
  import opened Dates
  import opened Table

  /** Some row of the start table names entity `e`. */
  predicate Mentions(starts: seq<StartRecord>, e: string) {
    exists i :: 0 <= i < |starts| && starts[i].entity == e
  }

  /** Row `i` is the last row of the start table that names its entity. */
  predicate IsLastFor(starts: seq<StartRecord>, i: int) {
    0 <= i < |starts| && forall j :: i < j < |starts| ==> starts[j].entity != starts[i].entity
  }

  /** The entity -> start date dictionary, built one start-date row at a time. */
  function StartDateMap(starts: seq<StartRecord>): (m: map<string, Option<Date>>)
    ensures |starts| > 0 ==> starts[|starts| - 1].entity in m
    ensures |starts| > 0 ==> m[starts[|starts| - 1].entity] == starts[|starts| - 1].start
  {
    if |starts| == 0 then map[]
    else
      var last := starts[|starts| - 1];
      StartDateMap(starts[..|starts| - 1])[last.entity := last.start]
  }

  /** The dictionary has a key for exactly the entities the start table names. */
  lemma {:induction false} StartDateMapKeys(starts: seq<StartRecord>, e: string)
    ensures e in StartDateMap(starts) <==> Mentions(starts, e)
  {
    if |starts| > 0 {
      var init := starts[..|starts| - 1];
      StartDateMapKeys(init, e);
      if Mentions(init, e) {
        var i :| 0 <= i < |init| && init[i].entity == e;
        assert starts[i].entity == e;
      }
      if Mentions(starts, e) && e != starts[|starts| - 1].entity {
        var i :| 0 <= i < |starts| && starts[i].entity == e;
        assert init[i].entity == e;
      }
    }
  }

  /** Duplicated entities: the last row that names an entity supplies its start date. */
  lemma {:induction false} LastWriteWins(starts: seq<StartRecord>, i: int)
    requires IsLastFor(starts, i)
    ensures starts[i].entity in StartDateMap(starts)
    ensures StartDateMap(starts)[starts[i].entity] == starts[i].start
  {
    var init := starts[..|starts| - 1];
    if i < |init| {
      assert starts[|starts| - 1].entity != starts[i].entity;
      assert forall j :: i < j < |init| ==> init[j] == starts[j];
      assert IsLastFor(init, i);
      LastWriteWins(init, i);
    }
  }

  /**
   The `Date` of forecast month `month` of an entity whose start date is
   `start`: shift the start by `month - 1` calendar months, then set the day to 1.
   */
  function ResolveDate(start: Date, month: int): (d: Date)
    ensures ValidDate(d) && d.day == 1
    ensures AbsMonth(d) == AbsMonth(start) + month - 1
  {
    WithDayOne(AddMonths(start, month - 1))
  }

  /** The `Date` a row gets: null unless its entity has a (non-null) start date. */
  function RowDate(starts: map<string, Option<Date>>, row: Row): (d: Option<Date>)
    ensures row.entity !in starts ==> d == None
    ensures row.entity in starts && starts[row.entity] == None ==> d == None
    ensures row.entity in starts && starts[row.entity].Some? ==>
              d == Some(FirstOfAbsMonth(AbsMonth(starts[row.entity].value) + row.month - 1))
  {
    if row.entity in starts then
      match starts[row.entity]
      case Some(s) =>
        var d := ResolveDate(s, row.month);
        AbsMonthInjective(d, FirstOfAbsMonth(AbsMonth(s) + row.month - 1));
        Some(d)
      case None => None
    else None
  }

  /**
   The whole transform: the `Date` column is first reset to null for every
   row, then filled in for the rows whose entity has a start date.
   */
  function ProcessWellData(starts: seq<StartRecord>, forecast: seq<Row>): (out: seq<Row>)
    ensures |out| == |forecast|
    ensures forall i :: 0 <= i < |forecast| ==> out[i] == forecast[i].(date := out[i].date)
    ensures forall i :: 0 <= i < |forecast| && out[i].date.Some? ==> out[i].date.value.day == 1
    ensures forall i :: 0 <= i < |forecast| && forecast[i].entity !in StartDateMap(starts) ==> out[i].date == None
    ensures forall i :: 0 <= i < |forecast| && forecast[i].entity in StartDateMap(starts) ==>
              match StartDateMap(starts)[forecast[i].entity]
              case None => out[i].date == None
              case Some(s) => out[i].date == Some(FirstOfAbsMonth(AbsMonth(s) + forecast[i].month - 1))
  {
    var m := StartDateMap(starts);
    seq(|forecast|, i requires 0 <= i < |forecast| => forecast[i].(date := RowDate(m, forecast[i])))
  }

  /** The resolved date is the start's (year, month) advanced by `month - 1` months, on day 1. */
  lemma ResolveYearMonth(start: Date, month: int)
    requires 1 <= start.month <= 12
    ensures ResolveDate(start, month).year == start.year + (start.month - 1 + month - 1) / 12
    ensures ResolveDate(start, month).month == (start.month - 1 + month - 1) % 12 + 1
    ensures ResolveDate(start, month).day == 1
  {
    var k := start.month - 1 + month - 1;
    var d := ResolveDate(start, month);
    assert AbsMonth(d) == start.year * 12 + k;
    AbsMonthInjective(d, Date(start.year + k / 12, k % 12 + 1, 1));
  }

  /** Only the start's year and month matter: its day is overwritten by 1. */
  lemma ResolveIgnoresStartDay(start: Date, day: int, month: int)
    ensures ResolveDate(start.(day := day), month) == ResolveDate(start, month)
  {
    AbsMonthInjective(ResolveDate(start.(day := day), month), ResolveDate(start, month));
  }

  /** Forecast month 1 is the first day of the start month itself. */
  lemma MonthOneIsStartMonth(start: Date)
    requires 1 <= start.month <= 12
    ensures ResolveDate(start, 1) == Date(start.year, start.month, 1)
  {
    AbsMonthInjective(ResolveDate(start, 1), Date(start.year, start.month, 1));
  }

  /** For one entity, a later forecast month resolves to a strictly later date. */
  lemma ResolveStrictlyIncreasing(start: Date, m1: int, m2: int)
    requires m1 < m2
    ensures Before(ResolveDate(start, m1), ResolveDate(start, m2))
  {
    BeforeIffAbsMonthLess(ResolveDate(start, m1), ResolveDate(start, m2));
  }

  /** Month 3 from 2024-04-01 is 2024-06-01. */
  lemma ExampleThirdMonth()
    ensures ResolveDate(Date(2024, 4, 1), 3) == Date(2024, 6, 1)
  {
    ResolveYearMonth(Date(2024, 4, 1), 3);
  }

  /** Month 2 from a December start rolls over into January of the next year. */
  lemma ExampleYearRollover()
    ensures ResolveDate(Date(2024, 12, 15), 2) == Date(2025, 1, 1)
  {
    ResolveYearMonth(Date(2024, 12, 15), 2);
  }

  /** A January 31 start gives the same dates as a January 1 start (no roll into March). */
  lemma ExampleEndOfMonthStart(month: int)
    ensures ResolveDate(Date(2024, 1, 31), month) == ResolveDate(Date(2024, 1, 1), month)
    ensures ResolveDate(Date(2024, 1, 31), 2) == Date(2024, 2, 1)
  {
    ResolveIgnoresStartDay(Date(2024, 1, 1), 31, month);
    ResolveYearMonth(Date(2024, 1, 31), 2);
  }

  /**
   Running the transform on its own output changes nothing: the `Date`
   column is reset before it is filled, so a stale `Date` has no influence.
   */
  lemma ProcessIdempotent(starts: seq<StartRecord>, forecast: seq<Row>)
    ensures ProcessWellData(starts, ProcessWellData(starts, forecast)) == ProcessWellData(starts, forecast)
  {
    var once := ProcessWellData(starts, forecast);
    var twice := ProcessWellData(starts, once);
    forall i | 0 <= i < |forecast|
      ensures twice[i] == once[i]
    {
      assert once[i].entity == forecast[i].entity && once[i].month == forecast[i].month;
    }
  }

  /** A row whose entity has no start-date row keeps a null `Date`, and is still in the output. */
  lemma UnmatchedEntityStaysNull(starts: seq<StartRecord>, forecast: seq<Row>, i: int)
    requires 0 <= i < |forecast|
    requires !Mentions(starts, forecast[i].entity)
    ensures ProcessWellData(starts, forecast)[i].date == None
    ensures ProcessWellData(starts, forecast)[i] == forecast[i].(date := None)
  {
    StartDateMapKeys(starts, forecast[i].entity);
  }

  /**
   A row whose entity is named by start-date row `j`, the last such row, gets
   the first of the month `Month - 1` months after that row's start date
   (or null when that start date is null).
   */
  lemma MatchedEntityUsesLastStart(starts: seq<StartRecord>, forecast: seq<Row>, i: int, j: int)
    requires 0 <= i < |forecast|
    requires IsLastFor(starts, j) && starts[j].entity == forecast[i].entity
    ensures starts[j].start == None ==> ProcessWellData(starts, forecast)[i].date == None
    ensures starts[j].start.Some? ==>
              ProcessWellData(starts, forecast)[i].date
              == Some(FirstOfAbsMonth(AbsMonth(starts[j].start.value) + forecast[i].month - 1))
  {
    LastWriteWins(starts, j);
  }
}
