/**
 What the caching repository answers and what it writes, under any interference, as the list of its cases over the
 states that its statements met and left; and how long a report is served again.
 */
module CacheOutcomes {
  import opened Collections
  import opened LlmStore
  import opened Reports
  import opened MonitoringRepository
  import opened MonitoringCache

  /** What happens around one statement: first what others do, then whether it succeeds. */
  datatype CacheTurn = CacheTurn(others: seq<CacheAction>, up: bool)

  /** One statement of a request: the state it met, what it was, and the state it left. */
  datatype CacheMoment = CacheMoment(met: CacheState, action: CacheAction, left: CacheState)

  // ----- histories are runs -----

  function LastOf(arrived: CacheState, h: seq<CacheMoment>): CacheState {
    if h == [] then arrived else h[|h| - 1].left
  }

  /** After `before`, the others of `turn` ran and then request `tid` performed the statement of `m`. */
  predicate FollowsIn(ttl: int, before: CacheState, turn: CacheTurn, tid: nat, m: CacheMoment) {
    && m.met == CacheExec(ttl, before, turn.others) && m.action.Proceed? && m.action.tid == tid
    && m.left == CacheNext(ttl, m.met, m.action)
  }

  /** The statements of `h` one after the other, each preceded by its turn of the others. */
  predicate IsCacheHistory(ttl: int, arrived: CacheState, tid: nat, turns: seq<CacheTurn>, h: seq<CacheMoment>)
    decreases |h|
  {
    h == [] ||
    var k := |h| - 1;
    && k < |turns| && IsCacheHistory(ttl, arrived, tid, turns, h[..k])
    && FollowsIn(ttl, LastOf(arrived, h[..k]), turns[k], tid, h[k])
  }

  /** All actions from the arrival to the last statement. */
  function CacheTrace(tid: nat, filter: MonitoringFilter, turns: seq<CacheTurn>, h: seq<CacheMoment>): seq<CacheAction>
    requires |h| <= |turns|
    decreases |h|
  {
    if h == [] then [Ask(tid, filter)]
    else CacheTrace(tid, filter, turns, h[..|h| - 1]) + turns[|h| - 1].others + [h[|h| - 1].action]
  }

  /** From `start`, the request arrives and goes through `h`; this is a run of the model that ends in `s`. */
  predicate IsCacheRun(ttl: int, start: CacheState, tid: nat, filter: MonitoringFilter, turns: seq<CacheTurn>,
                       h: seq<CacheMoment>, s: CacheState)
  {
    var arrived := CacheNext(ttl, start, Ask(tid, filter));
    && |h| <= |turns| && IsCacheHistory(ttl, arrived, tid, turns, h) && s == LastOf(arrived, h)
    && s == CacheExec(ttl, start, CacheTrace(tid, filter, turns, h))
  }

  lemma AskArrives(ttl: int, start: CacheState, tid: nat, filter: MonitoringFilter, turns: seq<CacheTurn>)
    ensures IsCacheRun(ttl, start, tid, filter, turns, [], CacheNext(ttl, start, Ask(tid, filter)))
  {
    hide CacheNext;
    OneCacheAction(ttl, start, Ask(tid, filter));
  }

  lemma OneCacheAction(ttl: int, s: CacheState, a: CacheAction)
    ensures CacheExec(ttl, s, [a]) == CacheNext(ttl, s, a)
  {
    hide CacheNext;
    assert [a][1..] == [];
    assert CacheExec(ttl, s, [a]) == CacheExec(ttl, CacheNext(ttl, s, a), []);
  }

  /** A run goes on with what others do and then one statement of the request. */
  lemma ExtendRun(ttl: int, start: CacheState, tid: nat, filter: MonitoringFilter, turns: seq<CacheTurn>,
                  h: seq<CacheMoment>, m: CacheMoment)
    returns (longer: seq<CacheMoment>)
    requires |h| < |turns|
    requires var s := LastOf(CacheNext(ttl, start, Ask(tid, filter)), h);
      IsCacheRun(ttl, start, tid, filter, turns, h, s) && FollowsIn(ttl, s, turns[|h|], tid, m)
    ensures longer == h + [m] && IsCacheRun(ttl, start, tid, filter, turns, longer, m.left)
  {
    hide CacheNext, CacheExec;
    longer := h + [m];
    assert longer[..|h|] == h;
    var trace, others := CacheTrace(tid, filter, turns, h), turns[|h|].others;
    CacheExecSplits(ttl, start, trace + others, [m.action]);
    CacheExecSplits(ttl, start, trace, others);
    OneCacheAction(ttl, m.met, m.action);
  }

  // ----- the cases -----

  /** The statement leaves this cache and the tables as it met them; it takes no time. */
  predicate LeavesCache(m: CacheMoment, cache: map<MonitoringFilter, Entry>) {
    m.left.cache == cache && m.left.store == m.met.store && m.left.now == m.met.now
  }

  predicate KeepsCache(m: CacheMoment) { LeavesCache(m, m.met.cache) }

  /** A report over these tables whose window ends at `clock` if the filter does not say otherwise. */
  ghost predicate IsReportOf(report: Report, store: Store, filter: MonitoringFilter, clock: Time) {
    var w := Window(filter.from, if filter.to.Some? then filter.to.value else clock);
    exists answer :: IsBreakdown(SelectEvents(store, w, ""), answer) && report == ReportOf(store, w, filter.model, answer)
  }

  lemma ReportIs(store: Store, filter: MonitoringFilter, clock: Time, answer: seq<ByModel>)
    requires IsBreakdown(SelectEvents(store, filter.WindowAt(clock), ""), answer)
    ensures IsReportOf(ReportOf(store, filter.WindowAt(clock), filter.model, answer), store, filter, clock)
  {
    hide IsBreakdown, SelectEvents, ReportOf;
  }

  /** The query, spelled out as the effect of one statement. */
  lemma QuerySpelledOut(ttl: int, s: CacheState, tid: nat, filter: MonitoringFilter, read: Time, clock: Time, up: bool,
                        answer: seq<ByModel>)
    requires tid in s.readers && s.readers[tid] == Reader(filter, Query(read, clock))
    requires IsBreakdown(SelectEvents(s.store, filter.WindowAt(clock), ""), answer)
    ensures var report := ReportOf(s.store, filter.WindowAt(clock), filter.model, answer);
      CacheNext(ttl, s, Proceed(tid, up, answer)) ==
        if up then s.(readers := s.readers[tid := Reader(filter, Fill(read, report))],
                      produced := s.produced + [Production(filter, clock, s.now, s.store, answer)])
        else s.(readers := s.readers[tid := Reader(filter, Returned(read, None, false))])
  {
    hide IsBreakdown, SelectEvents, ReportOf;
  }

  /** An entry that expires later than the first clock reading is the answer; otherwise the tables are asked. */
  ghost predicate ReportOutcome(ttl: int, filter: MonitoringFilter, turns: seq<CacheTurn>, h: seq<CacheMoment>,
                                report: Option<Report>)
    requires |turns| == 5
  {
    && |h| >= 2 && KeepsCache(h[0]) && KeepsCache(h[1])
    && var read, cache := h[0].met.now, h[1].met.cache;
       if filter in cache && read < cache[filter].expiresAt then |h| == 2 && report == Some(cache[filter].report)
       else FetchOutcome(ttl, filter, read, turns, h, report)
  }

  /** What is fetched from the tables expires `ttl` after the reading taken first. */
  ghost predicate FetchOutcome(ttl: int, filter: MonitoringFilter, read: Time, turns: seq<CacheTurn>,
                               h: seq<CacheMoment>, report: Option<Report>)
    requires |turns| == 5
  {
    && |h| >= 4 && KeepsCache(h[2]) && KeepsCache(h[3])
    && if !turns[3].up then |h| == 4 && report == None
       else
         && |h| == 5 && report.Some? && IsReportOf(report.value, h[3].met.store, filter, h[2].met.now)
         && LeavesCache(h[4], if turns[4].up then h[4].met.cache[filter := Entry(report.value, read + ttl)]
                              else h[4].met.cache)
  }

  // ----- undisturbed requests -----

  predicate Alone(turns: seq<CacheTurn>) {
    forall i :: 0 <= i < |turns| ==> turns[i].others == []
  }

  predicate AllUp(turns: seq<CacheTurn>) {
    forall i :: 0 <= i < |turns| ==> turns[i].up
  }

  /** Undisturbed, each statement meets what the one before it left. */
  lemma {:induction false} AloneMeets(ttl: int, arrived: CacheState, tid: nat, turns: seq<CacheTurn>, h: seq<CacheMoment>,
                                      k: nat)
    requires IsCacheHistory(ttl, arrived, tid, turns, h) && Alone(turns) && k < |h|
    ensures h[k].met == if k == 0 then arrived else h[k - 1].left
    decreases |h|
  {
    hide CacheNext;
    if k < |h| - 1 {
      AloneMeets(ttl, arrived, tid, turns, h[..|h| - 1], k);
    }
  }

  predicate SameCache(s: CacheState, s': CacheState) {
    s'.cache == s.cache && s'.store == s.store && s'.now == s.now
  }

  lemma AskingTouchesNothing(ttl: int, s: CacheState, tid: nat, filter: MonitoringFilter)
    ensures SameCache(s, CacheNext(ttl, s, Ask(tid, filter)))
  {
  }

  /** Nobody else ran: the statements meet what one another left, beginning with the cache of `start`. */
  predicate Undisturbed(start: CacheState, h: seq<CacheMoment>) {
    && (h != [] ==> SameCache(start, h[0].met))
    && forall k {:trigger h[k].met} :: 1 <= k < |h| ==> h[k].met == h[k - 1].left
  }

  lemma AloneIsUndisturbed(ttl: int, start: CacheState, tid: nat, filter: MonitoringFilter, turns: seq<CacheTurn>,
                           h: seq<CacheMoment>, end: CacheState)
    requires IsCacheRun(ttl, start, tid, filter, turns, h, end) && Alone(turns) && h != []
    ensures Undisturbed(start, h) && end == h[|h| - 1].left
  {
    var arrived := CacheNext(ttl, start, Ask(tid, filter));
    assert SameCache(start, arrived) by { AskingTouchesNothing(ttl, start, tid, filter); }
    hide CacheNext, CacheExec, Alone, CacheTrace;
    AloneMeets(ttl, arrived, tid, turns, h, 0);
    forall k {:trigger h[k].met} | 1 <= k < |h| ensures h[k].met == h[k - 1].left {
      AloneMeets(ttl, arrived, tid, turns, h, k);
    }
  }

  /** What an undisturbed request answers and leaves. */
  ghost predicate AnsweredAlone(ttl: int, start: CacheState, filter: MonitoringFilter, end: CacheState,
                                report: Option<Report>, queryUp: bool, fillUp: bool)
  {
    && end.store == start.store && end.now == start.now
    && if filter in start.cache && start.now < start.cache[filter].expiresAt then
         report == Some(start.cache[filter].report) && end.cache == start.cache
       else if !queryUp then report == None && end.cache == start.cache
       else
         && report.Some? && IsReportOf(report.value, start.store, filter, start.now)
         && end.cache == if fillUp then start.cache[filter := Entry(report.value, start.now + ttl)] else start.cache
  }

  lemma UndisturbedAnswer(ttl: int, start: CacheState, filter: MonitoringFilter, turns: seq<CacheTurn>,
                          h: seq<CacheMoment>, report: Option<Report>)
    requires |turns| == 5 && Undisturbed(start, h) && ReportOutcome(ttl, filter, turns, h, report)
    ensures AnsweredAlone(ttl, start, filter, h[|h| - 1].left, report, turns[3].up, turns[4].up)
  {
    hide IsReportOf;
  }

  /** An undisturbed request is answered from an unexpired entry, and otherwise from the tables if they can be
      asked; what it then leaves expires `ttl` later. */
  lemma AskAlone(ttl: int, start: CacheState, tid: nat, filter: MonitoringFilter, turns: seq<CacheTurn>,
                 h: seq<CacheMoment>, end: CacheState, report: Option<Report>)
    requires |turns| == 5 && Alone(turns) && IsCacheRun(ttl, start, tid, filter, turns, h, end)
    requires ReportOutcome(ttl, filter, turns, h, report)
    ensures AnsweredAlone(ttl, start, filter, end, report, turns[3].up, turns[4].up)
  {
    assert h != [];
    hide IsCacheRun, Undisturbed, AnsweredAlone, ReportOutcome;
    AloneIsUndisturbed(ttl, start, tid, filter, turns, h, end);
    UndisturbedAnswer(ttl, start, filter, turns, h, report);
  }

  /** Time passes, rows are recorded and sessions opened, but no request for a report proceeds. */
  predicate NoReports(actions: seq<CacheAction>) {
    forall a :: a in actions ==> !a.Proceed?
  }

  lemma {:induction false} EntriesSurvive(ttl: int, s: CacheState, actions: seq<CacheAction>)
    requires NoReports(actions)
    ensures CacheExec(ttl, s, actions).cache == s.cache
    decreases |actions|
  {
    if actions != [] {
      assert actions[0] in actions;
      EntriesSurvive(ttl, CacheNext(ttl, s, actions[0]), actions[1..]);
    }
  }

  /** A report is served again, whatever has been recorded since, to every request that comes less than the
      lifetime after the one it was produced for; a later request gets the report of the tables as they are then. */
  lemma ServedForItsLifetime(ttl: int, start: CacheState, tid: nat, filter: MonitoringFilter, turns: seq<CacheTurn>,
                             h: seq<CacheMoment>, end: CacheState, first: Report, between: seq<CacheAction>,
                             tid': nat, turns': seq<CacheTurn>, h': seq<CacheMoment>, end': CacheState,
                             second: Option<Report>)
    requires |turns| == |turns'| == 5 && Alone(turns) && Alone(turns') && AllUp(turns) && AllUp(turns') && NoReports(between)
    requires filter !in start.cache
    requires IsCacheRun(ttl, start, tid, filter, turns, h, end) && ReportOutcome(ttl, filter, turns, h, Some(first))
    requires var again := CacheExec(ttl, end, between);
      IsCacheRun(ttl, again, tid', filter, turns', h', end') && ReportOutcome(ttl, filter, turns', h', second)
    ensures IsReportOf(first, start.store, filter, start.now)
    ensures var again := CacheExec(ttl, end, between);
      if again.now < start.now + ttl then second == Some(first)
      else second.Some? && IsReportOf(second.value, again.store, filter, again.now)
  {
    var again := CacheExec(ttl, end, between);
    EntriesSurvive(ttl, end, between);
    assert turns[3].up && turns[4].up && turns'[3].up;
    hide CacheExec, IsCacheRun, ReportOutcome, IsReportOf, Alone, AllUp;
    AskAlone(ttl, start, tid, filter, turns, h, end, Some(first));
    AskAlone(ttl, again, tid', filter, turns', h', end', second);
  }
}
