/** The repository that runs the three queries and fills in the report. */
module MonitoringRepository {
  import opened Collections
  import opened LlmStore
  import opened LlmTables
  import opened Reports

  /** A time that is not given is None; an empty model means all of them. */
  datatype MonitoringFilter = MonitoringFilter(from: Option<Time>, to: Option<Time>, model: string)
  {
    /** The end of the window defaults to the clock, also when "all time" is asked for. */
    function WindowAt(now: Time): Window {
      Window(from, if to.Some? then to.value else now)
    }
  }

  class Repository {
    const db: Database

    constructor (db: Database)
      ensures this.db == db
    {
      this.db := db;
    }

    /** The report over the tables as the queries find them, with the window ended by the clock reading `now`
        taken before; `answer` is the order the database gives the groups. */
    method GetReport(filter: MonitoringFilter, now: Time, up: (bool, bool, bool), answer: seq<ByModel>)
      returns (report: Option<Report>)
      requires IsBreakdown(SelectEvents(db.store, filter.WindowAt(now), ""), answer)
      ensures report == if up.0 && up.1 && up.2 then Some(ReportOf(db.store, filter.WindowAt(now), filter.model, answer))
                        else None
    {
      hide IsBreakdown, SelectEvents, SelectScores, TotalsOf, LatencyOfRows, TokensOf, ScoresOf;
      var w := Window(filter.from, now);
      if filter.to.Some? {
        w := Window(filter.from, filter.to.value);
      }
      if !up.0 {
        return None;
      }
      var rows := SelectEvents(db.store, w, filter.model);
      var totals, latency, tokens := TotalsOf(rows), LatencyOfRows(rows), TokensOf(rows);
      if !up.1 {
        return None;
      }
      var scores := ScoresOf(SelectScores(db.store, w, filter.model));
      if !up.2 {
        return None;
      }
      var byModel: seq<ByModel> := [];
      for i := 0 to |answer|
        invariant byModel == answer[..i]
      {
        byModel := byModel + [answer[i]];
      }
      assert answer[..|answer|] == answer;
      return Some(Report(w, totals, latency, tokens, scores, byModel));
    }
  }
}
