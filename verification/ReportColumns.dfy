/**
 The report without its joins: over well-formed tables every number of it is an aggregate of the events in
 scope, or of the scores of such events, column by column.
 */
module ReportColumns {
  import opened Collections
  import opened LlmStore
  import opened LlmInvariant
  import opened Aggregates
  import opened Reports
  import opened ReportLaws
  import opened WindowLaws

  /** Created within the window, in a session of the model asked for. */
  predicate InScope(store: Store, w: Window, model: string, e: Event) {
    && (w.from.Some? ==> w.from.value <= e.created) && e.created < w.to
    && e.session in store.sessions && (model == "" || store.sessions[e.session].model == model)
  }

  function Scope(store: Store, w: Window, model: string): Event -> bool {
    (e: Event) => InScope(store, w, model, e)
  }

  /** Given for an event in scope. */
  function ScoreScope(store: Store, w: Window, model: string): Score -> bool {
    (x: Score) => Find(store.events, x.event).Some? && InScope(store, w, model, Find(store.events, x.event).value)
  }

  function EventsInScope(store: Store, w: Window, model: string): seq<Event> {
    Filter(store.events, Scope(store, w, model))
  }

  function ScoresInScope(store: Store, w: Window, model: string): seq<Score> {
    Filter(store.scores, ScoreScope(store, w, model))
  }

  // ----- the rows of the two queries -----

  lemma MapLast<T>(rows: seq<Row>, r: Row, f: Row -> T)
    ensures Map(rows + [r], f) == Map(rows, f) + [f(r)]
  {
    assert (rows + [r])[..|rows|] == rows;
  }

  lemma {:induction false} FilterThrough<T>(rows: seq<Row>, f: Row -> T, p: Row -> bool, q: T -> bool)
    requires forall r :: r in rows ==> (p(r) <==> q(f(r)))
    ensures Map(Filter(rows, p), f) == Filter(Map(rows, f), q)
  {
    if rows != [] {
      hide Map, Filter;
      var rest, r := rows[..|rows| - 1], rows[|rows| - 1];
      assert rows == rest + [r];
      FilterThrough(rest, f, p, q);
      MapLast(rest, r, f);
      FilterLast(rest, r, p);
      FilterLast(Map(rest, f), f(r), q);
      if p(r) {
        MapLast(Filter(rest, p), r, f);
      }
    }
  }

  lemma {:induction false} PairsBearModel(sessions: Sessions, e: Event, scores: seq<Score>)
    ensures forall r :: r in PairsOfEvent(sessions, e, scores) ==>
      r.event == e && e.session in sessions && r.model == sessions[e.session].model
  {
    if scores != [] {
      PairsBearModel(sessions, e, scores[..|scores| - 1]);
    }
  }

  lemma {:induction false} RowsBearModel(sessions: Sessions, events: seq<Event>, scores: seq<Score>)
    ensures forall r :: r in EventRows(sessions, events, scores) ==>
      r.event.session in sessions && r.model == sessions[r.event.session].model
  {
    if events != [] {
      RowsBearModel(sessions, events[..|events| - 1], scores);
      PairsBearModel(sessions, events[|events| - 1], scores);
    }
  }

  lemma SelectedEvents(store: Store, w: Window, model: string)
    requires WellFormed(store)
    ensures Map(SelectEvents(store, w, model), EventOf) == EventsInScope(store, w, model)
  {
    var rows := EventRows(store.sessions, store.events, store.scores);
    forall i | 0 <= i < |store.events| ensures store.events[i].session in store.sessions {
      assert EventOk(store.sessions, store.events[i]);
    }
    OneRowPerEvent(store.sessions, store.events, store.scores);
    RowsBearModel(store.sessions, store.events, store.scores);
    hide WellFormed, EventRows, Filter, Map, Condition, Scope;
    forall r | r in rows ensures Condition(w, model)(r) <==> Scope(store, w, model)(EventOf(r)) {
      RowInScope(store, w, model, r);
    }
    FilterThrough(rows, EventOf, Condition(w, model), Scope(store, w, model));
  }

  lemma RowInScope(store: Store, w: Window, model: string, r: Row)
    requires r.event.session in store.sessions && r.model == store.sessions[r.event.session].model
    ensures Condition(w, model)(r) <==> Scope(store, w, model)(EventOf(r))
  {
  }

  function ScoreOf(r: Row): Option<Score> { r.score }

  function Given(xs: seq<Score>): seq<Option<Score>> { Map(xs, (x: Score) => Some(x)) }

  lemma {:induction false} NoEventNoPairs(sessions: Sessions, events: seq<Event>, x: Score)
    requires forall e :: e in events ==> e.id != x.event
    ensures PairsOfScore(sessions, events, x) == []
  {
    if events != [] {
      NoEventNoPairs(sessions, events[..|events| - 1], x);
    }
  }

  /** A score joins exactly one event, its own. */
  lemma {:induction false} OnePairPerScore(sessions: Sessions, events: seq<Event>, x: Score)
    requires UniqueIds(events) && Find(events, x.event).Some? && Find(events, x.event).value.session in sessions
    ensures var e := Find(events, x.event).value;
      PairsOfScore(sessions, events, x) == [Row(e, sessions[e.session].model, Some(x))]
  {
    var rest, last := events[..|events| - 1], events[|events| - 1];
    if last.id == x.event {
      NoEventNoPairs(sessions, rest, x);
    } else {
      OnePairPerScore(sessions, rest, x);
    }
  }

  /** The row a score has in the score query. */
  predicate IsRowOf(store: Store, x: Score, r: Row) {
    && r.score == Some(x) && Find(store.events, x.event) == Some(r.event)
    && r.event.session in store.sessions && r.model == store.sessions[r.event.session].model
  }

  lemma OneRowOf(store: Store, x: Score)
    requires UniqueIds(store.events)
    requires Find(store.events, x.event).Some? && Find(store.events, x.event).value.session in store.sessions
    ensures var rows := PairsOfScore(store.sessions, store.events, x); |rows| == 1 && IsRowOf(store, x, rows[0])
  {
    hide UniqueIds, Find;
    OnePairPerScore(store.sessions, store.events, x);
  }

  lemma {:induction false} OneRowPerScore(store: Store, scores: seq<Score>)
    requires UniqueIds(store.events)
    requires forall x :: x in scores ==>
      Find(store.events, x.event).Some? && Find(store.events, x.event).value.session in store.sessions
    ensures var rows := ScoreRows(store.sessions, store.events, scores);
      |rows| == |scores| && forall i :: 0 <= i < |scores| ==> IsRowOf(store, scores[i], rows[i])
  {
    hide Find, UniqueIds, PairsOfScore, IsRowOf;
    if scores != [] {
      var rest, x := scores[..|scores| - 1], scores[|scores| - 1];
      OneRowPerScore(store, rest);
      OneRowOf(store, x);
    }
  }

  lemma ScoresHaveEvents(store: Store)
    requires WellFormed(store)
    ensures forall x :: x in store.scores ==>
      Find(store.events, x.event).Some? && Find(store.events, x.event).value.session in store.sessions
  {
    forall x | x in store.scores
      ensures Find(store.events, x.event).Some? && Find(store.events, x.event).value.session in store.sessions
    {
      assert ScoreOk(store.events, x);
      assert EventOk(store.sessions, Find(store.events, x.event).value);
    }
  }

  function InScoreScope(store: Store, w: Window, model: string): Option<Score> -> bool {
    (x: Option<Score>) => x.Some? && ScoreScope(store, w, model)(x.value)
  }

  lemma {:induction false} FilterGiven(xs: seq<Score>, p: Score -> bool, q: Option<Score> -> bool)
    requires forall x :: p(x) <==> q(Some(x))
    ensures Filter(Given(xs), q) == Given(Filter(xs, p))
  {
    if xs != [] {
      var rest, x := xs[..|xs| - 1], xs[|xs| - 1];
      assert xs == rest + [x];
      FilterGiven(rest, p, q);
      FilterLast(rest, x, p);
      assert Given(xs) == Given(rest) + [Some(x)];
      FilterLast(Given(rest), Some(x), q);
    }
  }

  lemma ScoreRowInScope(store: Store, w: Window, model: string, x: Score, r: Row)
    requires IsRowOf(store, x, r)
    ensures Condition(w, model)(r) <==> InScoreScope(store, w, model)(ScoreOf(r))
  {
    hide Find;
    assert ScoreScope(store, w, model)(x) == InScope(store, w, model, r.event);
    assert InScoreScope(store, w, model)(Some(x)) == ScoreScope(store, w, model)(x);
    assert Condition(w, model)(r) == Matches(w, model, r);
    assert Matches(w, model, r) == InScope(store, w, model, r.event);
  }

  lemma SelectedScores(store: Store, w: Window, model: string)
    requires WellFormed(store)
    ensures Map(SelectScores(store, w, model), ScoreOf) == Given(ScoresInScope(store, w, model))
  {
    var rows := ScoreRows(store.sessions, store.events, store.scores);
    ScoresHaveEvents(store);
    OneRowPerScore(store, store.scores);
    hide WellFormed, Find, ScoreRows, Filter;
    assert Map(rows, ScoreOf) == Given(store.scores) by {
      assert forall i :: 0 <= i < |rows| ==> IsRowOf(store, store.scores[i], rows[i]);
    }
    hide IsRowOf, Condition, ScoreOf, Given, Map;
    forall r | r in rows ensures Condition(w, model)(r) <==> InScoreScope(store, w, model)(ScoreOf(r)) {
      var i :| 0 <= i < |rows| && rows[i] == r;
      ScoreRowInScope(store, w, model, store.scores[i], rows[i]);
    }
    FilterThrough(rows, ScoreOf, Condition(w, model), InScoreScope(store, w, model));
    FilterGiven(store.scores, ScoreScope(store, w, model), InScoreScope(store, w, model));
  }

  // ----- the columns -----

  /** The three numbers recorded of each event, column by column. */
  predicate EventNumbers(events: seq<Event>, latencies: seq<int>, tokensIn: seq<int>, tokensOut: seq<int>) {
    && |latencies| == |tokensIn| == |tokensOut| == |events|
    && forall i :: 0 <= i < |events| ==>
         latencies[i] == events[i].latency && tokensIn[i] == events[i].tokensIn && tokensOut[i] == events[i].tokensOut
  }

  lemma EventColumns(rows: seq<Row>, events: seq<Event>, latencies: seq<int>, tokensIn: seq<int>, tokensOut: seq<int>)
    requires Map(rows, EventOf) == events && EventNumbers(events, latencies, tokensIn, tokensOut)
    ensures Map(rows, LatencyOf) == latencies && Map(rows, TokensInOf) == tokensIn && Map(rows, TokensOutOf) == tokensOut
  {
    assert |rows| == |events| && forall i :: 0 <= i < |rows| ==> events[i] == rows[i].event;
    hide Map;
    ColumnIs(rows, LatencyOf, latencies);
    ColumnIs(rows, TokensInOf, tokensIn);
    ColumnIs(rows, TokensOutOf, tokensOut);
  }

  lemma SessionsSeen(rows: seq<Row>, events: seq<Event>)
    requires Map(rows, EventOf) == events
    ensures SessionsOf(rows) == set e | e in events :: e.session
  {
    assert |rows| == |events| && forall i :: 0 <= i < |rows| ==> events[i] == rows[i].event;
    hide Map;
    forall e | e in events ensures e.session in SessionsOf(rows) {
      var i :| 0 <= i < |events| && events[i] == e;
      assert rows[i] in rows;
    }
    forall r | r in rows ensures r.event in events {
      var i :| 0 <= i < |rows| && rows[i] == r;
      assert events[i] in events;
    }
  }

  /** The four numbers averaged of each score, column by column. */
  predicate ScoreNumbers(scores: seq<Score>, correctness: seq<real>, composites: seq<real>, flags: seq<real>,
                         accepts: seq<real>) {
    && |correctness| == |composites| == |flags| == |accepts| == |scores|
    && forall i :: 0 <= i < |scores| ==>
         && correctness[i] == scores[i].correctness && composites[i] == scores[i].composite
         && flags[i] == (if scores[i].safetyFlag then 1.0 else 0.0)
         && accepts[i] == (if scores[i].userSignal == "accept" then 1.0 else 0.0)
  }

  lemma SameScores(rows: seq<Row>, scores: seq<Score>)
    requires Map(rows, ScoreOf) == Given(scores)
    ensures |rows| == |scores| && forall i :: 0 <= i < |rows| ==> rows[i].score == Some(scores[i])
  {
  }

  lemma ColumnIs<T>(rows: seq<Row>, f: Row -> T, column: seq<T>)
    requires |column| == |rows| && forall i :: 0 <= i < |rows| ==> f(rows[i]) == column[i]
    ensures Map(rows, f) == column
  {
  }

  lemma ScoreColumns(rows: seq<Row>, scores: seq<Score>, correctness: seq<real>, composites: seq<real>,
                     flags: seq<real>, accepts: seq<real>)
    requires Map(rows, ScoreOf) == Given(scores) && ScoreNumbers(scores, correctness, composites, flags, accepts)
    ensures Map(rows, CorrectnessOf) == correctness && Map(rows, CompositeOf) == composites
    ensures Map(rows, FlagOf) == flags && Map(rows, AcceptOf) == accepts
  {
    hide Map, Given;
    assert |rows| == |scores| && forall i :: 0 <= i < |rows| ==> rows[i].score == Some(scores[i]) by {
      SameScores(rows, scores);
    }
    ColumnIs(rows, CorrectnessOf, correctness);
    ColumnIs(rows, CompositeOf, composites);
    ColumnIs(rows, FlagOf, flags);
    ColumnIs(rows, AcceptOf, accepts);
  }

  predicate HasFailed(e: Event) { e.error != "" }

  lemma ErrorsInScope(rows: seq<Row>, events: seq<Event>)
    requires Map(rows, EventOf) == events
    ensures |Filter(rows, IsError)| == |Filter(events, HasFailed)|
  {
    FilterThrough(rows, EventOf, IsError, HasFailed);
    assert |Map(Filter(rows, IsError), EventOf)| == |Filter(rows, IsError)|;
  }

  // ----- the main results -----

  /** Totals, latencies and tokens are aggregates over the events in scope, each counted once. */
  lemma ReportCountsEvents(store: Store, w: Window, model: string, breakdown: seq<ByModel>, latencies: seq<int>,
                           tokensIn: seq<int>, tokensOut: seq<int>)
    requires WellFormed(store) && EventNumbers(EventsInScope(store, w, model), latencies, tokensIn, tokensOut)
    ensures var events := EventsInScope(store, w, model);
      var report := ReportOf(store, w, model, breakdown);
      && report.window == w && report.byModel == breakdown
      && report.totals.events == |events|
      && report.totals.sessions == |set e | e in events :: e.session|
      && report.totals.errors == |Filter(events, HasFailed)|
      && report.totals.scoredEvents == |ScoresInScope(store, w, model)|
      && report.latency == Latency(Percentile(latencies, 0.5), Percentile(latencies, 0.95), Largest(latencies))
      && report.tokens.inTotal == SumInt(tokensIn) && report.tokens.outTotal == SumInt(tokensOut)
  {
    var rows := SelectEvents(store, w, model);
    SelectedEvents(store, w, model);
    ScoredInScope(store, w, model);
    hide WellFormed, SelectEvents, SelectScores, EventsInScope, ScoresInScope, Filter, Map, SessionsOf, SumInt, Largest,
      Percentile, EventNumbers;
    EventColumns(rows, EventsInScope(store, w, model), latencies, tokensIn, tokensOut);
    SessionsSeen(rows, EventsInScope(store, w, model));
    ErrorsInScope(rows, EventsInScope(store, w, model));
  }

  lemma ScoredInScope(store: Store, w: Window, model: string)
    requires WellFormed(store)
    ensures TotalsOf(SelectEvents(store, w, model)).scoredEvents == |ScoresInScope(store, w, model)|
    ensures |SelectEvents(store, w, model)| == |EventsInScope(store, w, model)|
  {
    SelectedEvents(store, w, model);
    SelectedScores(store, w, model);
    JoinNeverMultiplies(store, w);
    hide WellFormed, SelectEvents, SelectScores, EventsInScope, ScoresInScope, Filter;
    assert |Map(SelectScores(store, w, model), ScoreOf)| == |SelectScores(store, w, model)|;
    assert |Map(SelectEvents(store, w, model), EventOf)| == |SelectEvents(store, w, model)|;
  }

  /** The averages and rates run over the scores of the events in scope, each counted once. */
  lemma ReportAveragesScores(store: Store, w: Window, model: string, breakdown: seq<ByModel>, correctness: seq<real>,
                             composites: seq<real>, flags: seq<real>, accepts: seq<real>)
    requires WellFormed(store)
    requires ScoreNumbers(ScoresInScope(store, w, model), correctness, composites, flags, accepts)
    ensures var scores := ReportOf(store, w, model, breakdown).scores;
      && scores.avgCorrectness == Average(correctness) && scores.avgComposite == Average(composites)
      && scores.safetyFlagRate == Average(flags) && scores.userAcceptRate == Average(accepts)
  {
    SelectedScores(store, w, model);
    hide WellFormed, SelectEvents, SelectScores, ScoresInScope, Filter, Map, Average, ScoreNumbers;
    ScoreColumns(SelectScores(store, w, model), ScoresInScope(store, w, model), correctness, composites, flags, accepts);
  }

  /** The rank `k + t` of the values in order, interpolated between its two neighbours. */
  function AtRank(ys: seq<int>, k: nat, t: real): real
    requires k < |ys| && (t > 0.0 ==> k + 1 < |ys|)
  {
    if t > 0.0 then (1.0 - t) * (ys[k] as real) + t * (ys[k + 1] as real) else ys[k] as real
  }

  /** The two percentiles of a report: with the latencies in order as `ys`, p50 lies at rank (N - 1) / 2 and p95
      at rank 0.95 * (N - 1), counted from 0. */
  lemma LatenciesInterpolate(rows: seq<Row>, ys: seq<int>, j: nat, t: real, k: nat, u: real)
    requires rows != [] && multiset(ys) == multiset(seq(|rows|, i requires 0 <= i < |rows| => rows[i].event.latency))
    requires forall a, b :: 0 <= a < b < |ys| ==> ys[a] <= ys[b]
    requires 0.0 <= t < 1.0 && 0.5 * ((|rows| - 1) as real) == j as real + t
    requires 0.0 <= u < 1.0 && 0.95 * ((|rows| - 1) as real) == k as real + u
    ensures j < |ys| && (t > 0.0 ==> j + 1 < |ys|) && LatencyOfRows(rows).p50 == AtRank(ys, j, t)
    ensures k < |ys| && (u > 0.0 ==> k + 1 < |ys|) && LatencyOfRows(rows).p95 == AtRank(ys, k, u)
  {
    var column := Map(rows, LatencyOf);
    assert column == seq(|rows|, i requires 0 <= i < |rows| => rows[i].event.latency);
    hide Percentile, Map;
    PercentileInterpolates(column, 0.5, ys, j, t);
    PercentileInterpolates(column, 0.95, ys, k, u);
  }
}
