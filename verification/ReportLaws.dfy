/** What every report says about the tables, for every time window and model filter. */
module ReportLaws {
  import opened Collections
  import opened LlmStore
  import opened LlmInvariant
  import opened Aggregates
  import opened Reports

  // ----- the two joins -----

  function PairsByEvent(sessions: Sessions, events: seq<Event>, scores: seq<Score>): seq<Row> {
    if events == [] then []
    else PairsByEvent(sessions, events[..|events| - 1], scores) + PairsOfEvent(sessions, events[|events| - 1], scores)
  }

  lemma {:induction false} PairsHaveScores(sessions: Sessions, e: Event, scores: seq<Score>)
    ensures Filter(PairsOfEvent(sessions, e, scores), HasScore) == PairsOfEvent(sessions, e, scores)
  {
    if scores != [] {
      PairsHaveScores(sessions, e, scores[..|scores| - 1]);
      var more := Pair(sessions, e, scores[|scores| - 1]);
      FilterSplits(PairsOfEvent(sessions, e, scores[..|scores| - 1]), more, HasScore);
      assert Filter(more, HasScore) == more by { if more != [] { assert more[..|more| - 1] == []; } }
    }
  }

  /** Dropping the NULLs of the left join leaves the inner join. */
  lemma {:induction false} ScoredRowsArePairs(sessions: Sessions, events: seq<Event>, scores: seq<Score>)
    ensures Filter(EventRows(sessions, events, scores), HasScore) == PairsByEvent(sessions, events, scores)
  {
    if events != [] {
      var rest, e := events[..|events| - 1], events[|events| - 1];
      ScoredRowsArePairs(sessions, rest, scores);
      FilterSplits(EventRows(sessions, rest, scores), JoinEvent(sessions, e, scores), HasScore);
      PairsHaveScores(sessions, e, scores);
      JoinedScored(sessions, e, scores);
    }
  }

  lemma {:induction false} NoSessionNoPairs(sessions: Sessions, e: Event, scores: seq<Score>)
    requires e.session !in sessions
    ensures PairsOfEvent(sessions, e, scores) == []
  {
    if scores != [] {
      NoSessionNoPairs(sessions, e, scores[..|scores| - 1]);
    }
  }

  lemma JoinedScored(sessions: Sessions, e: Event, scores: seq<Score>)
    ensures Filter(JoinEvent(sessions, e, scores), HasScore) == PairsOfEvent(sessions, e, scores)
  {
    PairsHaveScores(sessions, e, scores);
    if e.session !in sessions {
      NoSessionNoPairs(sessions, e, scores);
    } else if PairsOfEvent(sessions, e, scores) == [] {
      var none := [Row(e, sessions[e.session].model, None)];
      assert none[..0] == [];
    }
  }

  /** One more score adds its pairs, wherever they fall. */
  lemma {:induction false} OneMoreScore(sessions: Sessions, events: seq<Event>, scores: seq<Score>, x: Score)
    ensures multiset(PairsByEvent(sessions, events, scores + [x]))
      == multiset(PairsByEvent(sessions, events, scores)) + multiset(PairsOfScore(sessions, events, x))
  {
    if events != [] {
      var rest, e := events[..|events| - 1], events[|events| - 1];
      OneMoreScore(sessions, rest, scores, x);
      assert (scores + [x])[..|scores + [x]| - 1] == scores;
      assert PairsOfEvent(sessions, e, scores + [x]) == PairsOfEvent(sessions, e, scores) + Pair(sessions, e, x);
    }
  }

  lemma {:induction false} NoScoresNoPairs(sessions: Sessions, events: seq<Event>)
    ensures PairsByEvent(sessions, events, []) == []
  {
    if events != [] {
      NoScoresNoPairs(sessions, events[..|events| - 1]);
    }
  }

  lemma {:induction false} PairsCommute(sessions: Sessions, events: seq<Event>, scores: seq<Score>)
    ensures multiset(PairsByEvent(sessions, events, scores)) == multiset(ScoreRows(sessions, events, scores))
  {
    if scores == [] {
      NoScoresNoPairs(sessions, events);
    } else {
      var rest, x := scores[..|scores| - 1], scores[|scores| - 1];
      assert scores == rest + [x];
      PairsCommute(sessions, events, rest);
      OneMoreScore(sessions, events, rest, x);
    }
  }

  /** The scored rows of the event-driven query are, up to order, the rows of the score-driven one:
      for any tables, any window and any model. */
  lemma JoinsAgree(store: Store, w: Window, model: string)
    ensures multiset(Filter(SelectEvents(store, w, model), HasScore)) == multiset(SelectScores(store, w, model))
  {
    var rows := EventRows(store.sessions, store.events, store.scores);
    var scored := ScoreRows(store.sessions, store.events, store.scores);
    ScoredRowsArePairs(store.sessions, store.events, store.scores);
    PairsCommute(store.sessions, store.events, store.scores);
    hide EventRows, ScoreRows, Filter, Matches, HasScore;
    var selected := Filter(rows, Condition(w, model));
    forall r: Row ensures multiset(Filter(selected, HasScore))[r] == multiset(SelectScores(store, w, model))[r] {
      FilterMultiset(rows, Condition(w, model), r);
      FilterMultiset(selected, HasScore, r);
      FilterMultiset(rows, HasScore, r);
      FilterMultiset(scored, Condition(w, model), r);
    }
  }

  // ----- the left join never multiplies -----

  function EventOf(r: Row): Event { r.event }

  lemma {:induction false} PairsNeedMatch(sessions: Sessions, e: Event, scores: seq<Score>)
    requires forall i :: 0 <= i < |scores| ==> scores[i].event != e.id
    ensures PairsOfEvent(sessions, e, scores) == []
  {
    if scores != [] {
      PairsNeedMatch(sessions, e, scores[..|scores| - 1]);
    }
  }

  lemma {:induction false} AtMostOnePair(sessions: Sessions, e: Event, scores: seq<Score>)
    requires OnePerEvent(scores)
    ensures |PairsOfEvent(sessions, e, scores)| <= 1
    ensures forall r :: r in PairsOfEvent(sessions, e, scores) ==> r.event == e
  {
    if scores != [] {
      var rest, x := scores[..|scores| - 1], scores[|scores| - 1];
      AtMostOnePair(sessions, e, rest);
      if x.event == e.id {
        PairsNeedMatch(sessions, e, rest);
      }
    }
  }

  lemma OneRow(sessions: Sessions, e: Event, scores: seq<Score>)
    requires OnePerEvent(scores) && e.session in sessions
    ensures Map(JoinEvent(sessions, e, scores), EventOf) == [e]
  {
    AtMostOnePair(sessions, e, scores);
    hide PairsOfEvent, Map;
    var joined := JoinEvent(sessions, e, scores);
    assert |joined| == 1 && joined[0] in joined;
  }

  lemma EventRowsLast(sessions: Sessions, events: seq<Event>, scores: seq<Score>)
    requires events != []
    ensures var rest := events[..|events| - 1];
      && EventRows(sessions, events, scores) == EventRows(sessions, rest, scores) + JoinEvent(sessions, events[|events| - 1], scores)
      && events == rest + [events[|events| - 1]]
  {
  }

  /** With one score per event the joined rows are the events, one row each, in the same order. */
  lemma {:induction false} OneRowPerEvent(sessions: Sessions, events: seq<Event>, scores: seq<Score>)
    requires OnePerEvent(scores) && forall i :: 0 <= i < |events| ==> events[i].session in sessions
    ensures Map(EventRows(sessions, events, scores), EventOf) == events
  {
    if events != [] {
      hide *;
      var rest, e := events[..|events| - 1], events[|events| - 1];
      EventRowsLast(sessions, events, scores);
      OneRowPerEvent(sessions, rest, scores);
      OneRow(sessions, e, scores);
      MapSplits(EventRows(sessions, rest, scores), JoinEvent(sessions, e, scores), EventOf);
    }
  }

  /** In a well-formed store the totals count exactly the events of the window, each once, and their
      scored events are the rows of the score averages. */
  lemma JoinNeverMultiplies(store: Store, w: Window)
    requires WellFormed(store)
    ensures TotalsOf(SelectEvents(store, w, "")).events == |Filter(store.events, InWindow(w))|
    ensures forall model :: TotalsOf(SelectEvents(store, w, model)).scoredEvents == |SelectScores(store, w, model)|
  {
    forall i | 0 <= i < |store.events| ensures store.events[i].session in store.sessions {
      assert EventOk(store.sessions, store.events[i]);
    }
    OneRowPerEvent(store.sessions, store.events, store.scores);
    CountThrough(EventRows(store.sessions, store.events, store.scores), Condition(w, ""), InWindow(w));
    forall model ensures |Filter(SelectEvents(store, w, model), HasScore)| == |SelectScores(store, w, model)| {
      JoinsAgree(store, w, model);
      SameSize(Filter(SelectEvents(store, w, model), HasScore), SelectScores(store, w, model));
    }
  }

  function InWindow(w: Window): Event -> bool {
    (e: Event) => w.Has(e.created)
  }

  lemma SameSize<T>(xs: seq<T>, ys: seq<T>)
    requires multiset(xs) == multiset(ys)
    ensures |xs| == |ys|
  {
    assert |multiset(xs)| == |xs| && |multiset(ys)| == |ys|;
  }

  /** Counting rows by a condition on their events is counting the events. */
  lemma {:induction false} CountThrough(rows: seq<Row>, p: Row -> bool, q: Event -> bool)
    requires forall r :: p(r) <==> q(r.event)
    ensures |Filter(rows, p)| == |Filter(Map(rows, EventOf), q)|
  {
    if rows != [] {
      var rest := rows[..|rows| - 1];
      CountThrough(rest, p, q);
      assert Map(rows, EventOf)[..|rows| - 1] == Map(rest, EventOf);
    }
  }

  // ----- the safety discount -----

  /** The rows of the score query come from the tables. */
  lemma {:induction false} ScoreRowsFromTables(sessions: Sessions, events: seq<Event>, scores: seq<Score>)
    ensures forall r :: r in ScoreRows(sessions, events, scores) ==> r.score.Some? && r.score.value in scores
  {
    if scores != [] {
      ScoreRowsFromTables(sessions, events, scores[..|scores| - 1]);
      PairsFromTables(sessions, events, scores[|scores| - 1]);
    }
  }

  lemma {:induction false} PairsFromTables(sessions: Sessions, events: seq<Event>, x: Score)
    ensures forall r :: r in PairsOfScore(sessions, events, x) ==> r.score == Some(x)
  {
    if events != [] {
      PairsFromTables(sessions, events[..|events| - 1], x);
    }
  }

  lemma {:induction false} DiscountedSums(rows: seq<Row>)
    requires forall r :: r in rows ==> CompositeOf(r) + FlagOf(r) <= 1.0
    ensures SumReal(Map(rows, CompositeOf)) + SumReal(Map(rows, FlagOf)) <= |rows| as real
  {
    if rows != [] {
      DiscountedSums(rows[..|rows| - 1]);
      ColumnLast(rows, CompositeOf);
      ColumnLast(rows, FlagOf);
      assert rows[|rows| - 1] in rows;
    }
  }

  lemma DividedSum(a: real, b: real, n: real)
    requires n > 0.0 && a + b <= n
    ensures a / n + b / n <= 1.0
  {
    assert a / n + b / n == (a + b) / n;
  }

  /** Every flagged answer costs its share of the average: in every report over well-formed tables the
      average composite and the share of flagged answers add up to at most 1, and every average of the
      report lies in [0, 1]. */
  lemma SafetyDiscount(store: Store, w: Window, model: string)
    requires WellFormed(store)
    ensures var s := ScoresOf(SelectScores(store, w, model));
      && s.avgComposite + s.safetyFlagRate <= 1.0
      && InUnit(s.avgComposite) && InUnit(s.safetyFlagRate) && InUnit(s.avgCorrectness) && InUnit(s.userAcceptRate)
  {
    var rows := SelectScores(store, w, model);
    forall r | r in rows ensures r.score.Some? && ScoreOk(store.events, r.score.value) {
      ScoreRowsFromTables(store.sessions, store.events, store.scores);
    }
    hide SelectScores, Map, Average;
    AverageWithin(Map(rows, CompositeOf));
    AverageWithin(Map(rows, FlagOf));
    AverageWithin(Map(rows, CorrectnessOf));
    AverageWithin(Map(rows, AcceptOf));
    DiscountedAverages(rows);
  }

  lemma DiscountedAverages(rows: seq<Row>)
    requires forall r :: r in rows ==> CompositeOf(r) + FlagOf(r) <= 1.0
    ensures Average(Map(rows, CompositeOf)) + Average(Map(rows, FlagOf)) <= 1.0
  {
    hide Map;
    if rows != [] {
      DiscountedSums(rows);
      DividedSum(SumReal(Map(rows, CompositeOf)), SumReal(Map(rows, FlagOf)), |rows| as real);
    }
  }

  predicate Flagged(r: Row) { r.score.Some? && r.score.value.safetyFlag }

  predicate Accepted(r: Row) { r.score.Some? && r.score.value.userSignal == "accept" }

  lemma {:induction false} IndicatorSum(rows: seq<Row>, f: Row -> real, p: Row -> bool)
    requires forall r :: f(r) == if p(r) then 1.0 else 0.0
    ensures SumReal(Map(rows, f)) == |Filter(rows, p)| as real
  {
    if rows != [] {
      var rest := rows[..|rows| - 1];
      assert rows == rest + [rows[|rows| - 1]];
      IndicatorSum(rest, f, p);
      ColumnLast(rows, f);
      FilterLast(rest, rows[|rows| - 1], p);
    }
  }

  /** The two rates are shares of the scored events: of the flagged and of the accepted ones. */
  lemma RatesAreShares(store: Store, w: Window, model: string)
    ensures var rows := SelectScores(store, w, model);
      && Weighed(ScoresOf(rows).safetyFlagRate, |rows|) == |Filter(rows, Flagged)| as real
      && Weighed(ScoresOf(rows).userAcceptRate, |rows|) == |Filter(rows, Accepted)| as real
  {
    var rows := SelectScores(store, w, model);
    hide SelectScores, Average, Map, Weighed, SumReal, Filter;
    IndicatorSum(rows, FlagOf, Flagged);
    IndicatorSum(rows, AcceptOf, Accepted);
    AverageTimesCount(Map(rows, FlagOf));
    AverageTimesCount(Map(rows, AcceptOf));
  }

  // ----- the filtered report and the breakdown -----

  lemma {:induction false} FilterTwice<T(!new)>(xs: seq<T>, p: T -> bool, q: T -> bool, both: T -> bool)
    requires forall x :: both(x) <==> p(x) && q(x)
    ensures Filter(Filter(xs, p), q) == Filter(xs, both)
  {
    if xs != [] {
      var rest, x := xs[..|xs| - 1], xs[|xs| - 1];
      assert xs == rest + [x];
      FilterTwice(rest, p, q, both);
      FilterLast(rest, x, p);
      FilterLast(rest, x, both);
      if p(x) {
        FilterLast(Filter(rest, p), x, q);
      }
    }
  }

  /** Restricting the report to a model is picking that model's group. */
  lemma FilterIsGroup(store: Store, w: Window, model: string)
    requires model != ""
    ensures SelectEvents(store, w, model) == Filter(SelectEvents(store, w, ""), OfModel(model))
  {
    forall r: Row ensures Condition(w, model)(r) <==> Condition(w, "")(r) && OfModel(model)(r) {
      assert OfModel(model)(r) <==> RowModel(r) == model;
    }
    FilterTwice(EventRows(store.sessions, store.events, store.scores), Condition(w, ""), OfModel(model), Condition(w, model));
  }

  /** The report filtered to a model agrees with that model's row of the breakdown: same events, same
      median, same average composite, although the last comes from a join driven from the other side. */
  lemma FilteredAgreesWithGroup(store: Store, w: Window, model: string)
    requires model != ""
    ensures var g := GroupOf(SelectEvents(store, w, ""), model);
      && TotalsOf(SelectEvents(store, w, model)).events == g.events
      && LatencyOfRows(SelectEvents(store, w, model)).p50 == g.p50
      && ScoresOf(SelectScores(store, w, model)).avgComposite == g.avgComposite
  {
    FilterIsGroup(store, w, model);
    JoinsAgree(store, w, model);
    hide SelectEvents, SelectScores, Filter, Map, Average, Percentile;
    AverageIgnoresOrder(Filter(SelectEvents(store, w, model), HasScore), SelectScores(store, w, model), CompositeOf);
  }

  /** For whatever order the database gives the groups: the filtered report is the model's row, or all
      zeros if the model has none. */
  lemma FilteredAgreesWithBreakdown(store: Store, w: Window, model: string, answer: seq<ByModel>,
                                    filteredAnswer: seq<ByModel>)
    requires model != "" && IsBreakdown(SelectEvents(store, w, ""), answer)
    ensures var report := ReportOf(store, w, model, filteredAnswer);
      if exists i :: 0 <= i < |answer| && answer[i].model == model then
        exists i :: 0 <= i < |answer| && answer[i].model == model
          && answer[i] == ByModel(model, report.totals.events, report.latency.p50, report.scores.avgComposite)
      else
        && report.totals == Totals(0, 0, 0, 0) && report.latency == Latency(0.0, 0.0, 0)
        && report.tokens == Tokens(0, 0) && report.scores == Scores(0.0, 0.0, 0.0, 0.0)
  {
    var rows := SelectEvents(store, w, "");
    FilteredAgreesWithGroup(store, w, model);
    if i :| 0 <= i < |answer| && answer[i].model == model {
      assert answer[i] in answer && answer[i] == GroupOf(rows, model);
    } else {
      FilterIsGroup(store, w, model);
      JoinsAgree(store, w, model);
      var mine := SelectEvents(store, w, model);
      assert mine == [] by {
        FirstIsMember(mine);
        assert forall r :: r in mine ==> OfModel(model)(r) && r in rows && RowModel(r) == model;
      }
      SameSize(Filter(mine, HasScore), SelectScores(store, w, model));
      assert SessionsOf(mine) == {};
    }
  }

  function EventsOf(answer: seq<ByModel>): nat {
    if answer == [] then 0 else EventsOf(answer[..|answer| - 1]) + answer[|answer| - 1].events
  }

  function ModelNames(answer: seq<ByModel>): (names: seq<string>)
    ensures |names| == |answer| && forall i :: 0 <= i < |answer| ==> names[i] == answer[i].model
  {
    if answer == [] then [] else ModelNames(answer[..|answer| - 1]) + [answer[|answer| - 1].model]
  }

  lemma {:induction false} EventsAreCounts(rows: seq<Row>, answer: seq<ByModel>)
    requires forall i :: 0 <= i < |answer| ==> answer[i] == GroupOf(rows, answer[i].model)
    ensures EventsOf(answer) == GroupSizes(rows, RowModel, ModelNames(answer))
  {
    if answer != [] {
      EventsAreCounts(rows, answer[..|answer| - 1]);
      var names := ModelNames(answer);
      assert names[..|names| - 1] == ModelNames(answer[..|answer| - 1]);
    }
  }

  lemma ModelsAreListed(rows: seq<Row>, answer: seq<ByModel>)
    requires IsBreakdown(rows, answer)
    ensures forall i :: 0 <= i < |rows| ==> RowModel(rows[i]) in ModelNames(answer)
  {
    hide GroupOf;
    var names := ModelNames(answer);
    forall i | 0 <= i < |rows| ensures RowModel(rows[i]) in names {
      assert rows[i] in rows;
      var j :| 0 <= j < |answer| && answer[j].model == rows[i].model;
      assert names[j] == rows[i].model;
    }
  }

  /** The groups of the breakdown add up to the unfiltered total. */
  lemma BreakdownAddsUp(store: Store, w: Window, answer: seq<ByModel>)
    requires IsBreakdown(SelectEvents(store, w, ""), answer)
    ensures EventsOf(answer) == TotalsOf(SelectEvents(store, w, "")).events
  {
    hide SelectEvents, GroupOf, GroupSizes, HasKey, OfModel;
    var rows := SelectEvents(store, w, "");
    forall i | 0 <= i < |answer| ensures answer[i] == GroupOf(rows, answer[i].model) {
      assert answer[i] in answer;
    }
    EventsAreCounts(rows, answer);
    ModelsAreListed(rows, answer);
    GroupsCover(rows, RowModel, ModelNames(answer));
  }

  // ----- the database can always answer -----

  /** The models of the rows, in the order of their first occurrences. */
  function ModelsIn(rows: seq<Row>): (models: seq<string>)
    ensures Distinct(models)
    ensures forall m :: m in models <==> HasModel(rows, m)
  {
    if rows == [] then []
    else
      var rest, last := rows[..|rows| - 1], rows[|rows| - 1];
      var models := ModelsIn(rest);
      assert forall m :: HasModel(rows, m) <==> HasModel(rest, m) || m == last.model by {
        assert rows == rest + [last];
        assert forall m :: HasModel(rows, m) ==> HasModel(rest, m) || m == last.model;
        assert forall m :: HasModel(rest, m) ==> HasModel(rows, m);
        assert last in rows;
      }
      if last.model in models then models else models + [last.model]
  }

  function GroupFor(rows: seq<Row>): string -> ByModel {
    m => GroupOf(rows, m)
  }

  function SizeOf(g: ByModel): int { g.events }

  /** One group per model, each computed from the rows. */
  ghost predicate AreGroups(rows: seq<Row>, models: seq<string>, groups: seq<ByModel>) {
    && |groups| == |models| && Distinct(models)
    && forall i :: 0 <= i < |groups| ==> groups[i] == GroupOf(rows, models[i]) && groups[i].model == models[i]
  }

  lemma GroupInAnyOrder(rows: seq<Row>, models: seq<string>, groups: seq<ByModel>, answer: seq<ByModel>, a: ByModel)
    requires AreGroups(rows, models, groups) && multiset(groups) == multiset(answer) && a in answer
    ensures a == GroupOf(rows, a.model) && a.model in models
  {
    hide GroupOf;
    SameMembers(groups, answer, a);
    var i :| 0 <= i < |groups| && groups[i] == a;
    assert models[i] in models;
  }

  lemma ModelInAnyOrder(rows: seq<Row>, models: seq<string>, groups: seq<ByModel>, answer: seq<ByModel>, model: string)
    requires AreGroups(rows, models, groups) && multiset(groups) == multiset(answer) && model in models
    ensures exists i :: 0 <= i < |answer| && answer[i].model == model
  {
    hide GroupOf;
    var k :| 0 <= k < |models| && models[k] == model;
    SameMembers(groups, answer, groups[k]);
  }

  lemma GroupsAreOrdered(rows: seq<Row>, models: seq<string>, groups: seq<ByModel>, answer: seq<ByModel>, i: nat,
                         j: nat)
    requires AreGroups(rows, models, groups) && multiset(groups) == multiset(answer)
    requires Descending(answer, SizeOf) && i < j < |answer|
    ensures answer[i].model != answer[j].model && SizeOf(answer[i]) >= SizeOf(answer[j])
  {
    GroupInAnyOrder(rows, models, groups, answer, answer[i]);
    GroupInAnyOrder(rows, models, groups, answer, answer[j]);
    hide GroupOf;
    DifferentInAnyOrder(groups, answer, i, j);
    DescendingAt(answer, SizeOf, i, j);
  }

  lemma OrderedGroupsAnswer(rows: seq<Row>, models: seq<string>, groups: seq<ByModel>, answer: seq<ByModel>)
    requires AreGroups(rows, models, groups) && multiset(groups) == multiset(answer) && Descending(answer, SizeOf)
    requires forall m :: m in models <==> HasModel(rows, m)
    ensures IsBreakdown(rows, answer)
  {
    hide AreGroups, GroupOf, Descending, HasModel;
    forall a | a in answer ensures a == GroupOf(rows, a.model) && HasModel(rows, a.model) {
      GroupInAnyOrder(rows, models, groups, answer, a);
    }
    forall i, j | 0 <= i < j < |answer| ensures answer[i].model != answer[j].model && answer[i].events >= answer[j].events {
      GroupsAreOrdered(rows, models, groups, answer, i, j);
    }
    forall r | r in rows ensures exists i :: 0 <= i < |answer| && answer[i].model == r.model {
      assert HasModel(rows, r.model) by { RowHasModel(rows, r); }
      ModelInAnyOrder(rows, models, groups, answer, r.model);
    }
  }

  lemma RowHasModel(rows: seq<Row>, r: Row)
    requires r in rows
    ensures HasModel(rows, r.model)
  {
  }

  /** Whatever the tables hold, the third query has an answer. */
  lemma BreakdownExists(rows: seq<Row>) returns (answer: seq<ByModel>)
    ensures IsBreakdown(rows, answer)
  {
    var models := ModelsIn(rows);
    var groups := Map(models, GroupFor(rows));
    answer := SortDescending(groups, SizeOf);
    SortDescends(groups, SizeOf);
    assert AreGroups(rows, models, groups);
    hide IsBreakdown, AreGroups, GroupOf;
    OrderedGroupsAnswer(rows, models, groups, answer);
  }
}
