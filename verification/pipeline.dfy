/**
 The resolver's output is the viewer's input (through the exported table).
 This module states what the viewer does with rows the resolver left undated.
 */
module Pipeline {
  import opened Wrappers
  import opened Table
  import opened ProcessForecast
  import opened Viewer

  /**
   A forecast row of an entity with no start-date row survives resolution
   with a null date, and is then hidden by every date-bounded filter.
   */
  lemma UnstartedEntityHiddenByDateFilter(starts: seq<StartRecord>, forecast: seq<Row>, i: int,
                                          entity: seq<string>, range: Interval, likelihood: seq<string>)
    requires 0 <= i < |forecast|
    requires !Mentions(starts, forecast[i].entity)
    ensures forecast[i].(date := None) in ProcessWellData(starts, forecast)
    ensures forecast[i].(date := None) !in FilterData(ProcessWellData(starts, forecast), entity, Some(range), likelihood)
  {
    UnmatchedEntityStaysNull(starts, forecast, i);
  }
}
