/**
 The pure parts of the forecast viewer page: the row filter, the default
 entity selection and the "no chart for no data" guard of the chart helper.
 */
module Viewer {
  import opened Wrappers
  import opened Dates
  import opened Table
  import opened TextOrder
  import opened Seqs

  /** The date slider's value: both ends are included. */
  datatype Interval = Interval(lo: Date, hi: Date)

  /** The rate column a chart shows: "Oil Rate", "Form Gas Rate" or "Water Rate". */
  datatype RateStream = OilRate | FormGasRate | WaterRate

  /** A stacked-area chart of one rate column over `data`, coloured by entity. */
  datatype Chart = Chart(data: seq<Row>, stream: RateStream)

  /** What the page shows: three chart panels, or the "no data" message. */
  datatype Page = NoData | Charts(oil: Chart, gas: Chart, water: Chart)

  /** The date lies between both bounds, inclusive. A null date fails both comparisons. */
  predicate InInterval(date: Option<Date>, range: Interval) {
    date.Some? && NotAfter(range.lo, date.value) && NotAfter(date.value, range.hi)
  }

  /** The entity condition: an empty selection lets every row through. */
  predicate EntityPass(entity: seq<string>, row: Row) {
    |entity| == 0 || row.entity in entity
  }

  /** The date condition: an empty date range (`None`) lets every row through. */
  predicate DatePass(range: Option<Interval>, row: Row) {
    range.None? || InInterval(row.date, range.value)
  }

  /** The likelihood condition: an empty selection lets every row through. */
  predicate LikelihoodPass(likelihood: seq<string>, row: Row) {
    |likelihood| == 0 || row.likelihood in likelihood
  }

  /** The three filter conditions as one predicate. */
  predicate Keep(entity: seq<string>, range: Option<Interval>, likelihood: seq<string>, row: Row) {
    EntityPass(entity, row) && DatePass(range, row) && LikelihoodPass(likelihood, row)
  }

  /** The entity mask, applied only when some entity is selected. */
  function MaskEntity(rows: seq<Row>, entity: seq<string>): (r: seq<Row>)
    ensures r == Where(rows, (x: Row) => EntityPass(entity, x))
  {
    GatedWhere(rows, |entity| > 0, (x: Row) => x.entity in entity, (x: Row) => EntityPass(entity, x));
    if |entity| > 0 then Where(rows, (x: Row) => x.entity in entity) else rows
  }

  /** The inclusive date-range mask, applied only when the date range is not empty. */
  function MaskDate(rows: seq<Row>, range: Option<Interval>): (r: seq<Row>)
    ensures r == Where(rows, (x: Row) => DatePass(range, x))
  {
    match range
    case Some(iv) =>
      GatedWhere(rows, true, (x: Row) => InInterval(x.date, iv), (x: Row) => DatePass(range, x));
      Where(rows, (x: Row) => InInterval(x.date, iv))
    case None =>
      GatedWhere(rows, false, (x: Row) => true, (x: Row) => DatePass(range, x));
      rows
  }

  /** The likelihood mask, applied only when some likelihood is selected. */
  function MaskLikelihood(rows: seq<Row>, likelihood: seq<string>): (r: seq<Row>)
    ensures r == Where(rows, (x: Row) => LikelihoodPass(likelihood, x))
  {
    GatedWhere(rows, |likelihood| > 0, (x: Row) => x.likelihood in likelihood,
               (x: Row) => LikelihoodPass(likelihood, x));
    if |likelihood| > 0 then Where(rows, (x: Row) => x.likelihood in likelihood) else rows
  }

  /** The rows that pass all three conditions, in table order. */
  function KeptRows(rows: seq<Row>, entity: seq<string>, range: Option<Interval>, likelihood: seq<string>): seq<Row> {
    Where(rows, (x: Row) => Keep(entity, range, likelihood, x))
  }

  /** The rows whose date is not null, in table order. */
  function DatedRows(rows: seq<Row>): seq<Row> {
    Where(rows, (x: Row) => x.date.Some?)
  }

  /**
   `filter_data`: the entity mask, then the date mask, then the likelihood
   mask, each applied only when its selection is non-empty. The likelihood
   selection is a page-level global in the viewer; here it is an argument.
   The three masks in a row select exactly the rows that pass all three
   conditions at once, in table order.
   */
  function FilterData(rows: seq<Row>, entity: seq<string>, range: Option<Interval>, likelihood: seq<string>)
    : (r: seq<Row>)
    ensures r == KeptRows(rows, entity, range, likelihood)
  {
    var pED := (x: Row) => EntityPass(entity, x) && DatePass(range, x);
    WhereWhere(rows, (x: Row) => EntityPass(entity, x), (x: Row) => DatePass(range, x), pED);
    WhereWhere(rows, pED, (x: Row) => LikelihoodPass(likelihood, x), (x: Row) => Keep(entity, range, likelihood, x));
    MaskLikelihood(MaskDate(MaskEntity(rows, entity), range), likelihood)
  }

  /**
   A row is in the filtered table exactly when it is a row of the table whose
   entity is selected (or none is), whose date is non-null and within the
   range (or the range is empty), and whose likelihood is selected (or none is).
   */
  lemma FilterSoundAndComplete(rows: seq<Row>, entity: seq<string>, range: Option<Interval>, likelihood: seq<string>, x: Row)
    ensures x in FilterData(rows, entity, range, likelihood) <==>
              && x in rows
              && (|entity| > 0 ==> x.entity in entity)
              && (range.Some? ==> x.date.Some? && NotAfter(range.value.lo, x.date.value) && NotAfter(x.date.value, range.value.hi))
              && (|likelihood| > 0 ==> x.likelihood in likelihood)
  {
    if x in rows && Keep(entity, range, likelihood, x) {
      var i :| 0 <= i < |rows| && rows[i] == x;
    }
  }

  /** Filtered rows are a subsequence of the table: rows are only removed, never reordered. */
  lemma FilterIsSubsequence(rows: seq<Row>, entity: seq<string>, range: Option<Interval>, likelihood: seq<string>)
    ensures IsSubsequence(FilterData(rows, entity, range, likelihood), rows)
  {
    WhereIsSubsequence(rows, (x: Row) => Keep(entity, range, likelihood, x));
  }

  /** Filtering a filtered table again with the same selections changes nothing. */
  lemma FilterIdempotent(rows: seq<Row>, entity: seq<string>, range: Option<Interval>, likelihood: seq<string>)
    ensures FilterData(FilterData(rows, entity, range, likelihood), entity, range, likelihood)
            == FilterData(rows, entity, range, likelihood)
  {
    WhereIdempotent(rows, (x: Row) => Keep(entity, range, likelihood, x));
  }

  /**
   With no entity or likelihood selection and a date range that spans every
   date in the table, the filter only drops the rows whose date is null.
   */
  lemma FullRangeKeepsDatedRows(rows: seq<Row>, range: Interval)
    requires forall i :: 0 <= i < |rows| && rows[i].date.Some? ==> InInterval(rows[i].date, range)
    ensures FilterData(rows, [], Some(range), []) == DatedRows(rows)
  {
    var keep := (x: Row) => Keep([], Some(range), [], x);
    var dated := (x: Row) => x.date.Some?;
    WhereAgree(rows, keep, dated);
  }

  /**
   The entity list the page selects by default: the alphabetically first
   entity of the table, or nothing for an empty table. Removing duplicates
   first (`unique()`) cannot change which entity is least, so it is not modelled.
   */
  function DefaultEntitySelection(rows: seq<Row>): (sel: seq<string>)
    ensures |sel| <= 1
    ensures |sel| == 0 <==> |rows| == 0
    ensures forall e :: e in sel ==> exists i :: 0 <= i < |rows| && rows[i].entity == e
    ensures forall e, i :: e in sel && 0 <= i < |rows| ==> TextLe(e, rows[i].entity)
  {
    if |rows| == 0 then []
    else
      var entities := seq(|rows|, i requires 0 <= i < |rows| => rows[i].entity);
      assert forall i :: 0 <= i < |rows| ==> entities[i] == rows[i].entity;
      [Least(entities)]
  }

  /** The default selection is the unique smallest entity of the table. */
  lemma DefaultEntityIsMinimum(rows: seq<Row>, e: string)
    requires exists i :: 0 <= i < |rows| && rows[i].entity == e
    requires forall i :: 0 <= i < |rows| ==> TextLe(e, rows[i].entity)
    ensures DefaultEntitySelection(rows) == [e]
  {
    var sel := DefaultEntitySelection(rows);
    var i :| 0 <= i < |rows| && rows[i].entity == e;
    assert sel[0] in sel;
    var j :| 0 <= j < |rows| && rows[j].entity == sel[0];
    TextLeAntisymmetric(e, sel[0]);
  }

  /** `plot_stacked_area`: no chart (`None`) for an empty table, otherwise a chart of that table. */
  function PlotStackedArea(rows: seq<Row>, stream: RateStream): (chart: Option<Chart>)
    ensures chart.None? <==> |rows| == 0
    ensures chart.Some? ==> chart.value.data == rows && chart.value.stream == stream
  {
    if |rows| == 0 then None else Some(Chart(rows, stream))
  }

  /**
   The page body: filter the table, then draw the oil, gas and water charts
   of the filtered rows, or show the "no data" message when none are left.
   */
  function ViewPage(rows: seq<Row>, entity: seq<string>, range: Option<Interval>, likelihood: seq<string>)
    : (page: Page)
    ensures page.NoData? <==> forall i :: 0 <= i < |rows| ==> !Keep(entity, range, likelihood, rows[i])
    ensures page.Charts? ==>
              && page.oil == Chart(FilterData(rows, entity, range, likelihood), OilRate)
              && page.gas == Chart(FilterData(rows, entity, range, likelihood), FormGasRate)
              && page.water == Chart(FilterData(rows, entity, range, likelihood), WaterRate)
  {
    var filtered := FilterData(rows, entity, range, likelihood);
    if |filtered| > 0 then
      assert filtered[0] in filtered;
      assert filtered[0] in rows && Keep(entity, range, likelihood, filtered[0]);
      Charts(PlotStackedArea(filtered, OilRate).value,
             PlotStackedArea(filtered, FormGasRate).value,
             PlotStackedArea(filtered, WaterRate).value)
    else
      NoData
  }

  /** The filter keeps every copy of a passing row (identical rows included) and no copy of a failing one. */
  lemma FilterMultiplicity(rows: seq<Row>, entity: seq<string>, range: Option<Interval>, likelihood: seq<string>, x: Row)
    ensures multiset(FilterData(rows, entity, range, likelihood))[x]
            == if Keep(entity, range, likelihood, x) then multiset(rows)[x] else 0
  {
    WhereMultiset(rows, (y: Row) => Keep(entity, range, likelihood, y), x);
  }

  /**
   A null date lies in no interval; a date lies in one exactly when it is
   neither before the lower bound nor after the upper bound in timestamp order.
   */
  lemma InIntervalMeaning(date: Option<Date>, range: Interval)
    ensures date.None? ==> !InInterval(date, range)
    ensures date.Some? ==> (InInterval(date, range) <==> !Before(date.value, range.lo) && !Before(range.hi, date.value))
  {
    if date.Some? {
      NotAfterIsNotReverseBefore(range.lo, date.value);
      NotAfterIsNotReverseBefore(date.value, range.hi);
    }
  }

  /** A range whose upper bound is before its lower bound holds no date. */
  lemma InvertedIntervalIsEmpty(date: Option<Date>, range: Interval)
    requires Before(range.hi, range.lo)
    ensures !InInterval(date, range)
  {
    if date.Some? {
      var d := date.value;
      BeforeStrictTotalOrder(range.hi, range.lo, d);
      BeforeStrictTotalOrder(d, range.hi, range.lo);
      BeforeStrictTotalOrder(range.lo, d, range.hi);
    }
  }
}
