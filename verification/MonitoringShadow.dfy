/**
 From runs to reports: what the monitoring report says in every reachable state, and how its error
 total relates to the error counters.
 */
module MonitoringShadow {
  import opened Collections
  import opened LlmStore
  import opened LlmInvariant
  import opened CounterShadow
  import opened Aggregates
  import opened Reports
  import opened ReportLaws
  import opened WindowLaws
  import opened ReportColumns
  import opened MonitoringRepository

  /** In every state of every interleaving, every report is discounted for flagged answers, counts each
      event once and has its latencies in order. */
  lemma EveryReport(s: State, w: Window, model: string)
    requires Reachable(s)
    ensures var x := ScoresOf(SelectScores(s.store, w, model));
      x.avgComposite + x.safetyFlagRate <= 1.0 && InUnit(x.avgComposite) && InUnit(x.safetyFlagRate)
    ensures var l := LatencyOfRows(SelectEvents(s.store, w, model)); 0.0 <= l.p50 <= l.p95 <= l.max as real
    ensures TotalsOf(SelectEvents(s.store, w, "")).events == |Filter(s.store.events, InWindow(w))|
  {
    StoreWellFormed(s);
    SafetyDiscount(s.store, w, model);
    LatenciesAreOrdered(s.store, w, model);
    JoinNeverMultiplies(s.store, w);
  }

  // ----- a report over all time -----

  function NotAt(now: Time): Event -> bool {
    (e: Event) => e.created != now
  }

  lemma {:induction false} FilterLength<T>(xs: seq<T>, p: T -> bool)
    ensures |Filter(xs, p)| <= |xs|
    ensures |Filter(xs, p)| == |xs| <==> forall i :: 0 <= i < |xs| ==> p(xs[i])
  {
    if xs != [] {
      FilterLength(xs[..|xs| - 1], p);
    }
  }

  /** Without an end the report covers what was created before the clock reading `t` it was begun with,
      whatever else the tables hold by the time the queries run. */
  lemma AllTimeCounts(store: Store, t: Time)
    requires WellFormed(store)
    ensures TotalsOf(SelectEvents(store, MonitoringFilter(None, None, "").WindowAt(t), "")).events
      == |Filter(store.events, InWindow(Window(None, t)))|
  {
    JoinNeverMultiplies(store, Window(None, t));
  }

  /** Empty filter values mean all time if and only if every event was created before the clock reading of
      the report: both an event of that very instant and one that is created and inserted between the reading
      and the queries are missed. */
  lemma AllTimeExactly(store: Store, t: Time)
    requires WellFormed(store)
    ensures TotalsOf(SelectEvents(store, MonitoringFilter(None, None, "").WindowAt(t), "")).events == |store.events|
      <==> forall e :: e in store.events ==> e.created < t
  {
    var w := Window(None, t);
    AllTimeCounts(store, t);
    FilterLength(store.events, InWindow(w));
    hide WellFormed, Filter, SelectEvents;
    assert (forall e :: e in store.events ==> e.created < t)
      <==> (forall i :: 0 <= i < |store.events| ==> InWindow(w)(store.events[i]));
  }

  /** The same between two states of a run: the clock is read in `s`, the queries run after `after`. Events
      recorded before the reading are missed only if they bear its instant, later ones always. */
  lemma AllTimeInRun(s: State, after: seq<Action>)
    requires Reachable(s)
    ensures var store := Exec(s, after).store;
      TotalsOf(SelectEvents(store, MonitoringFilter(None, None, "").WindowAt(s.now), "")).events == |store.events|
      <==> forall e :: e in store.events ==> e.created < s.now
  {
    StoreWellFormed(s);
    ExecKeeps(s, after);
    hide Exec;
    AllTimeExactly(Exec(s, after).store, s.now);
  }

  /** If the queries run at the instant of the reading, only events of that instant are missed. */
  lemma AllTimeAtOnce(s: State)
    requires Reachable(s)
    ensures var events := TotalsOf(SelectEvents(s.store, MonitoringFilter(None, None, "").WindowAt(s.now), "")).events;
      && events == |Filter(s.store.events, NotAt(s.now))|
      && (events == |s.store.events| <==> forall e :: e in s.store.events ==> e.created != s.now)
  {
    var w := Window(None, s.now);
    StoreWellFormed(s);
    AllTimeCounts(s.store, s.now);
    AllTimeExactly(s.store, s.now);
    forall i | 0 <= i < |s.store.events| ensures InWindow(w)(s.store.events[i]) <==> NotAt(s.now)(s.store.events[i]) {
      assert s.store.events[i] in s.store.events;
    }
    FilterSame(s.store.events, InWindow(w), NotAt(s.now));
  }

  function ModelKey(sessions: Sessions): Event -> string {
    (e: Event) => ModelOf(sessions, e)
  }

  /** What a model's error series should show is the number of its failed events. */
  lemma {:induction false} ErrorSeriesCounts(sessions: Sessions, events: seq<Event>, ids: set<EventId>, model: string)
    requires forall i :: 0 <= i < |events| ==> events[i].id in ids
    ensures EventSum(sessions, events, ids, EventsTotal(model, "error"))
      == |Filter(Filter(events, HasFailed), HasKey(ModelKey(sessions), model))| as real
  {
    hide EventSum, EventWeight, Filter, HasKey, ModelKey, HasFailed;
    if events == [] {
      NoEventsNoErrors(sessions, ids, model);
    } else {
      var rest, e := events[..|events| - 1], events[|events| - 1];
      ErrorSeriesCounts(sessions, rest, ids, model);
      OneEventsErrors(sessions, rest, e, ids, model);
      assert events == rest + [e];
    }
  }

  lemma NoEventsNoErrors(sessions: Sessions, ids: set<EventId>, model: string)
    ensures EventSum(sessions, [], ids, EventsTotal(model, "error")) == 0.0
    ensures |Filter(Filter([], HasFailed), HasKey(ModelKey(sessions), model))| == 0
  {
  }

  lemma OneEventsErrors(sessions: Sessions, rest: seq<Event>, e: Event, ids: set<EventId>, model: string)
    requires e.id in ids
    ensures var key := HasKey(ModelKey(sessions), model); var one := if HasFailed(e) && ModelOf(sessions, e) == model then 1 else 0;
      && EventSum(sessions, rest + [e], ids, EventsTotal(model, "error"))
         == EventSum(sessions, rest, ids, EventsTotal(model, "error")) + one as real
      && |Filter(Filter(rest + [e], HasFailed), key)| == |Filter(Filter(rest, HasFailed), key)| + one
  {
    assert (rest + [e])[..|rest|] == rest;
    FilterLast(rest, e, HasFailed);
    FilterLast(Filter(rest, HasFailed), e, HasKey(ModelKey(sessions), model));
    hide Filter;
  }

  /** The error series of these models, added up, each with what it lost. */
  function ErrorsCounted(s: State, models: seq<string>): real {
    if models == [] then 0.0
    else
      var series := EventsTotal(models[|models| - 1], "error");
      ErrorsCounted(s, models[..|models| - 1]) + Value(s.counters, series) + LostTotal(s, series)
  }

  lemma {:induction false} ErrorSeriesAddUp(s: State, models: seq<string>)
    requires Reachable(s) && Quiescent(s)
    ensures ErrorsCounted(s, models) == GroupSizes(Filter(s.store.events, HasFailed), ModelKey(s.store.sessions), models) as real
  {
    if models != [] {
      ErrorSeriesAddUp(s, models[..|models| - 1]);
      var model := models[|models| - 1];
      CountersShadowTables(s, EventsTotal(model, "error"));
      ErrorSeriesCounts(s.store.sessions, s.store.events, EventIds(s.store.events), model);
      ScoreSumNone(s.store, s.store.scores, ScoredIds(s.store.scores), EventsTotal(model, "error"));
    }
  }

  function FailedIn(w: Window): Event -> bool {
    (e: Event) => w.Has(e.created) && HasFailed(e)
  }

  function ErrorRow(w: Window): Row -> bool {
    (r: Row) => w.Has(r.event.created) && IsError(r)
  }

  /** The error total of the unfiltered report counts the failed events of the window. */
  lemma ErrorTotalCounts(store: Store, w: Window)
    requires WellFormed(store)
    ensures TotalsOf(SelectEvents(store, w, "")).errors == |Filter(store.events, FailedIn(w))|
  {
    EventsHaveSessions(store);
    var rows := EventRows(store.sessions, store.events, store.scores);
    OneRowPerEvent(store.sessions, store.events, store.scores);
    FilterTwice(rows, Condition(w, ""), IsError, ErrorRow(w));
    CountThrough(rows, ErrorRow(w), FailedIn(w));
  }

  lemma {:induction false} FilterSame<T>(xs: seq<T>, p: T -> bool, q: T -> bool)
    requires forall i :: 0 <= i < |xs| ==> (p(xs[i]) <==> q(xs[i]))
    ensures Filter(xs, p) == Filter(xs, q)
  {
    if xs != [] {
      FilterSame(xs[..|xs| - 1], p, q);
    }
  }

  /** At quiescent points the error total of a report over all events is what the error counters show,
      summed over any list of models that covers the sessions, plus the failed events that were lost. */
  lemma ErrorTotalMatchesCounters(s: State, to: Time, models: seq<string>)
    requires Reachable(s) && Quiescent(s) && Distinct(models)
    requires forall id :: id in s.store.sessions ==> s.store.sessions[id].model in models
    requires forall e :: e in s.store.events ==> e.created < to
    ensures TotalsOf(SelectEvents(s.store, Window(None, to), "")).errors as real == ErrorsCounted(s, models)
  {
    StoreWellFormed(s);
    var w := Window(None, to);
    ErrorTotalCounts(s.store, w);
    ErrorSeriesAddUp(s, models);
    var failed := Filter(s.store.events, HasFailed);
    FilterSame(s.store.events, FailedIn(w), HasFailed);
    forall i | 0 <= i < |failed| ensures ModelKey(s.store.sessions)(failed[i]) in models {
      assert EventOk(s.store.sessions, failed[i]);
    }
    GroupsCover(failed, ModelKey(s.store.sessions), models);
  }

  // ----- token totals -----

  function TokensOfEvent(e: Event, direction: string): int {
    if direction == "in" then e.tokensIn else if direction == "out" then e.tokensOut else 0
  }

  /** The tokens of all events in one direction. */
  function TokenSum(events: seq<Event>, direction: string): int {
    if events == [] then 0 else TokenSum(events[..|events| - 1], direction) + TokensOfEvent(events[|events| - 1], direction)
  }

  /** What the token series of these models should show, added up. */
  function TokenSeries(sessions: Sessions, events: seq<Event>, ids: set<EventId>, models: seq<string>,
                       direction: string): real {
    if models == [] then 0.0
    else
      TokenSeries(sessions, events, ids, models[..|models| - 1], direction)
      + EventSum(sessions, events, ids, TokensTotal(models[|models| - 1], direction))
  }

  lemma {:induction false} TokensCountedOnce(sessions: Sessions, rest: seq<Event>, e: Event, ids: set<EventId>,
                                             models: seq<string>, direction: string)
    requires Distinct(models) && e.id in ids
    ensures TokenSeries(sessions, rest + [e], ids, models, direction)
      == TokenSeries(sessions, rest, ids, models, direction)
         + if ModelOf(sessions, e) in models then TokensOfEvent(e, direction) as real else 0.0
  {
    if models != [] {
      var fewer, model := models[..|models| - 1], models[|models| - 1];
      assert models == fewer + [model];
      TokensCountedOnce(sessions, rest, e, ids, fewer, direction);
      assert (rest + [e])[..|rest|] == rest;
    }
  }

  lemma {:induction false} NoEventsNoTokens(sessions: Sessions, ids: set<EventId>, models: seq<string>,
                                        direction: string)
    ensures TokenSeries(sessions, [], ids, models, direction) == 0.0
  {
    if models != [] {
      NoEventsNoTokens(sessions, ids, models[..|models| - 1], direction);
    }
  }

  /** Summed over models that cover the events, the series show the tokens of all events. */
  lemma {:induction false} TokenSeriesCover(sessions: Sessions, events: seq<Event>, ids: set<EventId>,
                                        models: seq<string>, direction: string)
    requires Distinct(models) && forall i :: 0 <= i < |events| ==> events[i].id in ids && ModelOf(sessions, events[i]) in models
    ensures TokenSeries(sessions, events, ids, models, direction) == TokenSum(events, direction) as real
  {
    if events == [] {
      NoEventsNoTokens(sessions, ids, models, direction);
    } else {
      var rest, e := events[..|events| - 1], events[|events| - 1];
      assert events == rest + [e];
      TokenSeriesCover(sessions, rest, ids, models, direction);
      TokensCountedOnce(sessions, rest, e, ids, models, direction);
    }
  }

  /** The token series of these models as the counters show them, each with what it lost. */
  function TokensCounted(s: State, models: seq<string>, direction: string): real {
    if models == [] then 0.0
    else
      var series := TokensTotal(models[|models| - 1], direction);
      TokensCounted(s, models[..|models| - 1], direction) + Value(s.counters, series) + LostTotal(s, series)
  }

  lemma {:induction false} TokenSeriesAddUp(s: State, models: seq<string>, direction: string)
    requires Reachable(s) && Quiescent(s)
    ensures TokensCounted(s, models, direction)
      == TokenSeries(s.store.sessions, s.store.events, EventIds(s.store.events), models, direction)
  {
    if models != [] {
      TokenSeriesAddUp(s, models[..|models| - 1], direction);
      var series := TokensTotal(models[|models| - 1], direction);
      CountersShadowTables(s, series);
      ScoreSumNone(s.store, s.store.scores, ScoredIds(s.store.scores), series);
    }
  }

  /** A sum over the rows of all events is the sum over the events. */
  lemma {:induction false} SumThrough(rows: seq<Row>, f: Row -> int, direction: string)
    requires forall r :: f(r) == TokensOfEvent(r.event, direction)
    ensures SumInt(Map(rows, f)) == TokenSum(Map(rows, EventOf), direction)
  {
    if rows != [] {
      var rest := rows[..|rows| - 1];
      SumThrough(rest, f, direction);
      assert Map(rows, f)[..|rest|] == Map(rest, f) && Map(rows, EventOf)[..|rest|] == Map(rest, EventOf);
    }
  }

  /** The token totals of a report over all events are the tokens of all events, in each direction. */
  lemma TokenTotalsCount(store: Store, to: Time)
    requires WellFormed(store) && forall e :: e in store.events ==> e.created < to
    ensures TokensOf(SelectEvents(store, Window(None, to), "")) == Tokens(TokenSum(store.events, "in"), TokenSum(store.events, "out"))
  {
    var rows := EventRows(store.sessions, store.events, store.scores);
    AllRowsSelected(store, to);
    hide WellFormed, EventRows, Condition, Map, Filter, SumInt, TokenSum;
    SumThrough(rows, TokensInOf, "in");
    SumThrough(rows, TokensOutOf, "out");
  }

  lemma AllRowsSelected(store: Store, to: Time)
    requires WellFormed(store) && forall e :: e in store.events ==> e.created < to
    ensures var rows := EventRows(store.sessions, store.events, store.scores);
      Map(rows, EventOf) == store.events && SelectEvents(store, Window(None, to), "") == rows
  {
    hide EventRows, Filter, Map, Condition, ScoresOk, SessionsOk;
    var rows, w := EventRows(store.sessions, store.events, store.scores), Window(None, to);
    EventsHaveSessions(store);
    OneRowPerEvent(store.sessions, store.events, store.scores);
    hide WellFormed;
    forall i | 0 <= i < |rows| ensures Condition(w, "")(rows[i]) {
      RowIsInWindow(rows, store.events, w, i);
    }
    FilterAll(rows, Condition(w, ""));
  }

  lemma EventsHaveSessions(store: Store)
    requires WellFormed(store)
    ensures OnePerEvent(store.scores)
    ensures forall i :: 0 <= i < |store.events| ==> store.events[i].session in store.sessions
  {
    forall i | 0 <= i < |store.events| ensures store.events[i].session in store.sessions {
      assert EventOk(store.sessions, store.events[i]);
    }
  }

  lemma RowIsInWindow(rows: seq<Row>, events: seq<Event>, w: Window, i: nat)
    requires Map(rows, EventOf) == events && i < |rows|
    requires forall e :: e in events ==> w.Has(e.created)
    ensures Condition(w, "")(rows[i])
  {
    hide Map;
    assert Map(rows, EventOf)[i] == rows[i].event;
    assert events[i] in events;
  }

  /** At quiescent points the token totals of such a report are what the token counters show, summed over
      any list of models that covers the sessions, plus the tokens of lost events. */
  lemma TokenTotalsMatchCounters(s: State, to: Time, models: seq<string>)
    requires Reachable(s) && Quiescent(s) && Distinct(models)
    requires forall id :: id in s.store.sessions ==> s.store.sessions[id].model in models
    requires forall e :: e in s.store.events ==> e.created < to
    ensures var tokens := TokensOf(SelectEvents(s.store, Window(None, to), ""));
      tokens.inTotal as real == TokensCounted(s, models, "in") && tokens.outTotal as real == TokensCounted(s, models, "out")
  {
    StoreWellFormed(s);
    TokenTotalsCount(s.store, to);
    var ids := EventIds(s.store.events);
    forall i | 0 <= i < |s.store.events|
      ensures s.store.events[i].id in ids && ModelOf(s.store.sessions, s.store.events[i]) in models
    {
      assert EventOk(s.store.sessions, s.store.events[i]);
    }
    hide Inv, WellFormed;
    TokenSeriesCover(s.store.sessions, s.store.events, ids, models, "in");
    TokenSeriesCover(s.store.sessions, s.store.events, ids, models, "out");
    TokenSeriesAddUp(s, models, "in");
    TokenSeriesAddUp(s, models, "out");
  }
}
