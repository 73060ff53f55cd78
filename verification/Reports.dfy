/**
 The three queries of the monitoring report as functions of the tables. Totals and breakdown run over
 events left-joined with their scores; the score averages run over scores joined with their events.
 */
module Reports {
  import opened Collections
  import opened LlmStore
  import opened Aggregates

  type Sessions = map<SessionId, Session>

  /** A joined row; `score` is NULL where the left join found none. */
  datatype Row = Row(event: Event, model: string, score: Option<Score>)

  predicate HasScore(r: Row) { r.score.Some? }

  predicate IsError(r: Row) { r.event.error != "" }

  function RowModel(r: Row): string { r.model }

  function LatencyOf(r: Row): int { r.event.latency }

  function TokensInOf(r: Row): int { r.event.tokensIn }

  function TokensOutOf(r: Row): int { r.event.tokensOut }

  function CorrectnessOf(r: Row): real { if r.score.Some? then r.score.value.correctness else 0.0 }

  function CompositeOf(r: Row): real { if r.score.Some? then r.score.value.composite else 0.0 }

  function FlagOf(r: Row): real { if r.score.Some? && r.score.value.safetyFlag then 1.0 else 0.0 }

  function AcceptOf(r: Row): real { if r.score.Some? && r.score.value.userSignal == "accept" then 1.0 else 0.0 }

  // ----- FROM -----

  /** The row an event and a score give under the join conditions. */
  function Pair(sessions: Sessions, e: Event, x: Score): seq<Row> {
    if x.event == e.id && e.session in sessions then [Row(e, sessions[e.session].model, Some(x))] else []
  }

  function PairsOfEvent(sessions: Sessions, e: Event, scores: seq<Score>): seq<Row> {
    if scores == [] then []
    else PairsOfEvent(sessions, e, scores[..|scores| - 1]) + Pair(sessions, e, scores[|scores| - 1])
  }

  function PairsOfScore(sessions: Sessions, events: seq<Event>, x: Score): seq<Row> {
    if events == [] then []
    else PairsOfScore(sessions, events[..|events| - 1], x) + Pair(sessions, events[|events| - 1], x)
  }

  /** JOIN llm_sessions … LEFT JOIN decision_scores. */
  function JoinEvent(sessions: Sessions, e: Event, scores: seq<Score>): seq<Row> {
    if e.session !in sessions then []
    else if PairsOfEvent(sessions, e, scores) == [] then [Row(e, sessions[e.session].model, None)]
    else PairsOfEvent(sessions, e, scores)
  }

  /** FROM inference_events. */
  function EventRows(sessions: Sessions, events: seq<Event>, scores: seq<Score>): seq<Row> {
    if events == [] then []
    else EventRows(sessions, events[..|events| - 1], scores) + JoinEvent(sessions, events[|events| - 1], scores)
  }

  /** FROM decision_scores JOIN inference_events … JOIN llm_sessions. */
  function ScoreRows(sessions: Sessions, events: seq<Event>, scores: seq<Score>): seq<Row> {
    if scores == [] then []
    else ScoreRows(sessions, events, scores[..|scores| - 1]) + PairsOfScore(sessions, events, scores[|scores| - 1])
  }

  // ----- WHERE -----

  /** [from, to), without a lower end if `from` is NULL. */
  datatype Window = Window(from: Option<Time>, to: Time)
  {
    predicate Has(t: Time) { (from.Some? ==> from.value <= t) && t < to }
  }

  /** An empty model stands for all of them. */
  predicate Matches(w: Window, model: string, r: Row) {
    w.Has(r.event.created) && (model == "" || r.model == model)
  }

  function Condition(w: Window, model: string): Row -> bool {
    (r: Row) => Matches(w, model, r)
  }

  function OfModel(model: string): Row -> bool {
    HasKey(RowModel, model)
  }

  function SelectEvents(store: Store, w: Window, model: string): seq<Row> {
    Filter(EventRows(store.sessions, store.events, store.scores), Condition(w, model))
  }

  function SelectScores(store: Store, w: Window, model: string): seq<Row> {
    Filter(ScoreRows(store.sessions, store.events, store.scores), Condition(w, model))
  }

  // ----- SELECT -----

  datatype Totals = Totals(sessions: nat, events: nat, scoredEvents: nat, errors: nat)

  datatype Latency = Latency(p50: real, p95: real, max: int)

  datatype Tokens = Tokens(inTotal: int, outTotal: int)

  datatype Scores = Scores(avgCorrectness: real, avgComposite: real, safetyFlagRate: real, userAcceptRate: real)

  datatype ByModel = ByModel(model: string, events: nat, p50: real, avgComposite: real)

  datatype Report = Report(
    window: Window, totals: Totals, latency: Latency, tokens: Tokens, scores: Scores, byModel: seq<ByModel>)

  function SessionsOf(rows: seq<Row>): set<SessionId> { set r | r in rows :: r.event.session }

  function TotalsOf(rows: seq<Row>): Totals {
    Totals(|SessionsOf(rows)|, |rows|, |Filter(rows, HasScore)|, |Filter(rows, IsError)|)
  }

  function LatencyOfRows(rows: seq<Row>): Latency {
    var column := Map(rows, LatencyOf);
    Latency(Percentile(column, 0.5), Percentile(column, 0.95), Largest(column))
  }

  function TokensOf(rows: seq<Row>): Tokens {
    Tokens(SumInt(Map(rows, TokensInOf)), SumInt(Map(rows, TokensOutOf)))
  }

  function ScoresOf(rows: seq<Row>): Scores {
    Scores(Average(Map(rows, CorrectnessOf)), Average(Map(rows, CompositeOf)),
           Average(Map(rows, FlagOf)), Average(Map(rows, AcceptOf)))
  }

  /** One group of the breakdown; AVG passes over the NULLs. */
  function GroupOf(rows: seq<Row>, model: string): ByModel {
    var group := Filter(rows, OfModel(model));
    ByModel(model, |group|, Percentile(Map(group, LatencyOf), 0.5), Average(Map(Filter(group, HasScore), CompositeOf)))
  }

  /** What GROUP BY … ORDER BY events DESC may answer; groups of equal size come in any order. */
  predicate IsBreakdown(rows: seq<Row>, answer: seq<ByModel>) {
    && (forall i, j :: 0 <= i < j < |answer| ==> answer[i].model != answer[j].model && answer[i].events >= answer[j].events)
    && (forall a :: a in answer ==> a == GroupOf(rows, a.model) && HasModel(rows, a.model))
    && (forall r :: r in rows ==> exists i :: 0 <= i < |answer| && answer[i].model == r.model)
  }

  predicate HasModel(rows: seq<Row>, model: string) {
    exists r :: r in rows && r.model == model
  }

  /** The whole report, given the database's answer to the third query. */
  function ReportOf(store: Store, w: Window, model: string, breakdown: seq<ByModel>): Report {
    var rows := SelectEvents(store, w, model);
    Report(w, TotalsOf(rows), LatencyOfRows(rows), TokensOf(rows), ScoresOf(SelectScores(store, w, model)), breakdown)
  }
}
