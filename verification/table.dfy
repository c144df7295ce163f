/**
 The records of the two workbook sheets and of the exported forecast table.
 Rate columns are carried through untouched; nothing computes with them.
 */
module Table {
  import opened Wrappers
  import opened Dates

  /** A row of the `start_dates` sheet. `start` is `None` when the cell is empty (`NaT`). */
  datatype StartRecord = StartRecord(entity: string, start: Option<Date>)

  /** The three rate columns: oil, formation gas and water. */
  datatype Rates = Rates(oil: real, gas: real, water: real)

  /**
   A row of the `forecast` sheet and of the exported table: `month` is the
   1-based forecast month, `date` the resolved calendar date (`None` is `NaT`).
   */
  datatype Row = Row(entity: string, month: int, rates: Rates, likelihood: string, date: Option<Date>)
}
