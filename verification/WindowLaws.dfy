/** Reports over adjacent windows, and the order of the latencies in every report. */
module WindowLaws {
  import opened Collections
  import opened LlmStore
  import opened LlmInvariant
  import opened Aggregates
  import opened Reports
  import opened ReportLaws

  // ----- adjacent windows -----

  /** The rows satisfying either of two exclusive conditions are, up to order, the rows of both. */
  lemma FilterEither<T(!new)>(xs: seq<T>, p: T -> bool, q: T -> bool, either: T -> bool)
    requires forall x :: (either(x) <==> p(x) || q(x)) && !(p(x) && q(x))
    ensures multiset(Filter(xs, either)) == multiset(Filter(xs, p) + Filter(xs, q))
  {
    forall x: T ensures multiset(Filter(xs, either))[x] == multiset(Filter(xs, p) + Filter(xs, q))[x] {
      FilterMultiset(xs, p, x);
      FilterMultiset(xs, q, x);
      FilterMultiset(xs, either, x);
    }
  }

  lemma {:induction false} IntColumnLast<T>(xs: seq<T>, x: T, f: T -> int)
    ensures SumInt(Map(xs + [x], f)) == SumInt(Map(xs, f)) + f(x)
  {
    assert Map(xs + [x], f)[..|xs|] == Map(xs, f);
  }

  lemma {:induction false} SumEither<T(!new)>(xs: seq<T>, p: T -> bool, q: T -> bool, either: T -> bool, f: T -> int)
    requires forall x :: (either(x) <==> p(x) || q(x)) && !(p(x) && q(x))
    ensures SumInt(Map(Filter(xs, either), f)) == SumInt(Map(Filter(xs, p), f)) + SumInt(Map(Filter(xs, q), f))
  {
    if xs != [] {
      var rest, x := xs[..|xs| - 1], xs[|xs| - 1];
      assert xs == rest + [x];
      FilterLast(rest, x, p);
      FilterLast(rest, x, q);
      FilterLast(rest, x, either);
      SumEither(rest, p, q, either, f);
      hide Filter, Map, SumInt;
      if p(x) {
        IntColumnLast(Filter(rest, p), x, f);
        IntColumnLast(Filter(rest, either), x, f);
      } else if q(x) {
        IntColumnLast(Filter(rest, q), x, f);
        IntColumnLast(Filter(rest, either), x, f);
      }
    }
  }

  function Max(a: int, b: int): int { if a >= b then a else b }

  lemma BothMembers(rows: seq<Row>, first: seq<Row>, second: seq<Row>)
    requires multiset(rows) == multiset(first + second)
    ensures forall r :: r in rows <==> r in first || r in second
  {
    forall r: Row ensures r in rows <==> r in first || r in second {
      SameMembers(rows, first + second, r);
    }
  }

  lemma LargestOfBoth(rows: seq<Row>, first: seq<Row>, second: seq<Row>)
    requires forall r :: r in rows <==> r in first || r in second
    requires forall r :: r in rows ==> 0 <= LatencyOf(r)
    ensures Largest(Map(rows, LatencyOf)) == Max(Largest(Map(first, LatencyOf)), Largest(Map(second, LatencyOf)))
  {
    hide Largest, Map, LatencyOf;
    LargestOfPart(first, rows);
    LargestOfPart(second, rows);
    if rows != [] {
      var i := LargestIsReached(rows);
      var r := rows[i];
      assert r in rows;
      if r in first {
        AtMostLargest(first, r);
      } else {
        AtMostLargest(second, r);
      }
    } else {
      NoRowsNoLargest(first);
    }
  }

  lemma NoRowsNoLargest(rows: seq<Row>)
    requires forall r :: r !in rows
    ensures rows == [] && Largest(Map(rows, LatencyOf)) == 0
  {
    FirstIsMember(rows);
  }

  lemma AtMostLargest(rows: seq<Row>, r: Row)
    requires r in rows
    ensures LatencyOf(r) <= Largest(Map(rows, LatencyOf))
  {
    hide Largest;
    var j :| 0 <= j < |rows| && rows[j] == r;
    assert Map(rows, LatencyOf)[j] in Map(rows, LatencyOf);
  }

  lemma LargestOfPart(part: seq<Row>, rows: seq<Row>)
    requires forall r :: r in part ==> r in rows
    requires forall r :: r in rows ==> 0 <= LatencyOf(r)
    ensures 0 <= Largest(Map(part, LatencyOf)) <= Largest(Map(rows, LatencyOf))
  {
    if part != [] {
      var i := LargestIsReached(part);
      assert part[i] in part;
      AtMostLargest(rows, part[i]);
    } else if rows != [] {
      var i := LargestIsReached(rows);
      assert rows[i] in rows;
    }
  }

  lemma LargestIsReached(rows: seq<Row>) returns (i: int)
    ensures rows != [] ==> 0 <= i < |rows| && Largest(Map(rows, LatencyOf)) == LatencyOf(rows[i])
  {
    i := 0;
    if rows != [] {
      var column := Map(rows, LatencyOf);
      i :| 0 <= i < |column| && column[i] == Largest(column);
    }
  }

  lemma {:induction false} RowsFromTables(sessions: Sessions, events: seq<Event>, scores: seq<Score>)
    ensures forall r :: r in EventRows(sessions, events, scores) ==> r.event in events
  {
    if events != [] {
      var e := events[|events| - 1];
      RowsFromTables(sessions, events[..|events| - 1], scores);
      PairsOfTables(sessions, e, scores);
    }
  }

  lemma {:induction false} PairsOfTables(sessions: Sessions, e: Event, scores: seq<Score>)
    ensures forall r :: r in PairsOfEvent(sessions, e, scores) ==> r.event == e
  {
    if scores != [] {
      PairsOfTables(sessions, e, scores[..|scores| - 1]);
    }
  }

  lemma SelectedAreNonNegative(store: Store, w: Window, model: string)
    requires WellFormed(store)
    ensures forall r :: r in SelectEvents(store, w, model) ==> 0 <= LatencyOf(r)
    ensures forall x :: x in Map(SelectEvents(store, w, model), LatencyOf) ==> 0 <= x
  {
    RowsFromTables(store.sessions, store.events, store.scores);
    forall r | r in SelectEvents(store, w, model) ensures 0 <= LatencyOf(r) {
      assert EventOk(store.sessions, r.event);
    }
  }

  lemma SessionsOfBoth(rows: seq<Row>, first: seq<Row>, second: seq<Row>)
    requires multiset(rows) == multiset(first + second)
    ensures |SessionsOf(first)| <= |SessionsOf(rows)| && |SessionsOf(second)| <= |SessionsOf(rows)|
    ensures |SessionsOf(rows)| <= |SessionsOf(first)| + |SessionsOf(second)|
  {
    BothMembers(rows, first, second);
    var all, a, b := SessionsOf(rows), SessionsOf(first), SessionsOf(second);
    assert all == a + b;
    UnionSize(a, b);
  }

  lemma UnionSize<T>(a: set<T>, b: set<T>)
    ensures |a| <= |a + b| <= |a| + |b| && |b| <= |a + b|
  {
    assert a + b == a + (b - a) && a + b == b + (a - b);
    assert |b| == |b - a| + |b * a| by { assert b == (b - a) + (b * a); }
  }

  /** Adjacent windows [from, b) and [b, to) make up [from, to): events, scored events, errors and token
      totals add up, the largest latency is the larger of the two, and the distinct sessions number at
      least as many as in either part and at most as many as in both. */
  lemma WindowsCompose(store: Store, whole: Window, b: Time, model: string)
    requires WellFormed(store) && (whole.from.Some? ==> whole.from.value <= b) && b <= whole.to
    ensures var rows := SelectEvents(store, whole, model);
      var first := SelectEvents(store, Window(whole.from, b), model);
      var second := SelectEvents(store, Window(Some(b), whole.to), model);
      var (t, t1, t2) := (TotalsOf(rows), TotalsOf(first), TotalsOf(second));
      && t.events == t1.events + t2.events && t.scoredEvents == t1.scoredEvents + t2.scoredEvents
      && t.errors == t1.errors + t2.errors
      && Max(t1.sessions, t2.sessions) <= t.sessions <= t1.sessions + t2.sessions
      && TokensOf(rows).inTotal == TokensOf(first).inTotal + TokensOf(second).inTotal
      && TokensOf(rows).outTotal == TokensOf(first).outTotal + TokensOf(second).outTotal
      && LatencyOfRows(rows).max == Max(LatencyOfRows(first).max, LatencyOfRows(second).max)
  {
    var all := EventRows(store.sessions, store.events, store.scores);
    var rows := SelectEvents(store, whole, model);
    var w1, w2 := Window(whole.from, b), Window(Some(b), whole.to);
    var first, second := SelectEvents(store, w1, model), SelectEvents(store, w2, model);
    FilterEither(all, Condition(w1, model), Condition(w2, model), Condition(whole, model));
    SumEither(all, Condition(w1, model), Condition(w2, model), Condition(whole, model), TokensInOf);
    SumEither(all, Condition(w1, model), Condition(w2, model), Condition(whole, model), TokensOutOf);
    SelectedAreNonNegative(store, whole, model);
    hide WellFormed, Condition, EventRows, Filter, Map;
    BothCount(rows, first, second);
    SessionsOfBoth(rows, first, second);
    BothMembers(rows, first, second);
    LargestOfBoth(rows, first, second);
  }

  lemma BothCount(rows: seq<Row>, first: seq<Row>, second: seq<Row>)
    requires multiset(rows) == multiset(first + second)
    ensures var (t, t1, t2) := (TotalsOf(rows), TotalsOf(first), TotalsOf(second));
      && t.events == t1.events + t2.events && t.scoredEvents == t1.scoredEvents + t2.scoredEvents
      && t.errors == t1.errors + t2.errors
  {
    SameSize(rows, first + second);
    FilterIgnoresOrder(rows, first + second, HasScore);
    FilterIgnoresOrder(rows, first + second, IsError);
    FilterSplits(first, second, HasScore);
    FilterSplits(first, second, IsError);
  }

  /** In every report the percentiles are ordered and bounded by the largest latency. */
  lemma LatenciesAreOrdered(store: Store, w: Window, model: string)
    requires WellFormed(store)
    ensures var l := LatencyOfRows(SelectEvents(store, w, model)); 0.0 <= l.p50 <= l.p95 <= l.max as real
  {
    SelectedAreNonNegative(store, w, model);
    PercentileOrder(Map(SelectEvents(store, w, model), LatencyOf), 0.5, 0.95);
  }

  /** A column of rows that fall into two parts averages to the weighted mean of the parts. */
  lemma AverageOfBoth(rows: seq<Row>, first: seq<Row>, second: seq<Row>, f: Row -> real)
    requires multiset(rows) == multiset(first + second)
    ensures |rows| == |first| + |second|
    ensures Weighed(Average(Map(rows, f)), |rows|)
      == Weighed(Average(Map(first, f)), |first|) + Weighed(Average(Map(second, f)), |second|)
  {
    hide Average, Weighed, SumReal;
    SameSize(rows, first + second);
    ColumnIgnoresOrder(rows, first + second, f);
    SumColumn(first, second, f);
    AverageTimesCount(Map(rows, f));
    AverageTimesCount(Map(first, f));
    AverageTimesCount(Map(second, f));
  }

  /** Over adjacent windows every score average is the mean of the two, weighted by their scored events. */
  lemma AveragesCompose(store: Store, whole: Window, b: Time, model: string)
    requires (whole.from.Some? ==> whole.from.value <= b) && b <= whole.to
    ensures var rows := SelectScores(store, whole, model);
      var first := SelectScores(store, Window(whole.from, b), model);
      var second := SelectScores(store, Window(Some(b), whole.to), model);
      var (s, s1, s2) := (ScoresOf(rows), ScoresOf(first), ScoresOf(second));
      var (n, n1, n2) := (|rows|, |first|, |second|);
      && n == n1 + n2
      && Weighed(s.avgCorrectness, n) == Weighed(s1.avgCorrectness, n1) + Weighed(s2.avgCorrectness, n2)
      && Weighed(s.avgComposite, n) == Weighed(s1.avgComposite, n1) + Weighed(s2.avgComposite, n2)
      && Weighed(s.safetyFlagRate, n) == Weighed(s1.safetyFlagRate, n1) + Weighed(s2.safetyFlagRate, n2)
      && Weighed(s.userAcceptRate, n) == Weighed(s1.userAcceptRate, n1) + Weighed(s2.userAcceptRate, n2)
  {
    var all := ScoreRows(store.sessions, store.events, store.scores);
    var w1, w2 := Window(whole.from, b), Window(Some(b), whole.to);
    FilterEither(all, Condition(w1, model), Condition(w2, model), Condition(whole, model));
    var rows, first, second := SelectScores(store, whole, model), SelectScores(store, w1, model), SelectScores(store, w2, model);
    hide Condition, ScoreRows, Filter, Map, Average, SelectScores, Weighed;
    AverageOfBoth(rows, first, second, CorrectnessOf);
    AverageOfBoth(rows, first, second, CompositeOf);
    AverageOfBoth(rows, first, second, FlagOf);
    AverageOfBoth(rows, first, second, AcceptOf);
  }
}
