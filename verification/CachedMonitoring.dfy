/** The caching repository as written, shown to be a run of the interleaving model of the cache. */
module CachedMonitoring {
  import opened Collections
  import opened LlmStore
  import opened Reports
  import opened ReportLaws
  import opened MonitoringRepository
  import opened MonitoringCache
  import opened CacheOutcomes

  predicate OthersOnly(others: seq<CacheAction>, tid: nat) {
    forall a :: a in others && a.Proceed? ==> a.tid != tid
  }

  lemma {:induction false} OthersLeaveReader(ttl: int, s: CacheState, others: seq<CacheAction>, tid: nat)
    requires OthersOnly(others, tid) && tid in s.readers
    ensures var s' := CacheExec(ttl, s, others); tid in s'.readers && s'.readers[tid] == s.readers[tid]
    decreases |others|
  {
    if others != [] {
      hide IsBreakdown, SelectEvents, ReportOf, Hit;
      assert others[0] in others;
      var s' := CacheNext(ttl, s, others[0]);
      assert tid in s'.readers && s'.readers[tid] == s.readers[tid];
      hide CacheNext;
      OthersLeaveReader(ttl, s', others[1..], tid);
    }
  }

  class CachedMonitoringRepository {
    const inner: Repository
    const ttl: int
    var cache: map<MonitoringFilter, Entry>
    var now: Time
    var readers: map<nat, Reader>
    var produced: seq<Production>   // history

    constructor (inner: Repository, ttl: int, now: Time)
      ensures this.inner == inner && this.ttl == ttl
      ensures View() == ColdStart(now, inner.db.store)
    {
      this.inner, this.ttl, this.now := inner, ttl, now;
      cache, readers, produced := map[], map[], [];
    }

    function View(): CacheState
      reads this, inner.db
    {
      CacheState(now, inner.db.store, cache, readers, produced)
    }

    method Yield(tid: nat, others: seq<CacheAction>)
      requires tid in readers && OthersOnly(others, tid)
      modifies this, inner.db`store
      ensures View() == CacheExec(ttl, old(View()), others)
      ensures tid in readers && readers[tid] == old(readers[tid])
    {
      var s := CacheExec(ttl, View(), others);
      OthersLeaveReader(ttl, View(), others, tid);
      now, cache, readers, produced := s.now, s.cache, s.readers, s.produced;
      inner.db.store := s.store;
    }

    predicate Ready(tid: nat, filter: MonitoringFilter, pc: ReaderPc, turn: CacheTurn)
      reads this
    {
      tid in readers && readers[tid] == Reader(filter, pc) && OthersOnly(turn.others, tid)
    }

    /** From state `before`, the others of `turn` ran and request `tid` performed its statement. */
    predicate Performed(before: CacheState, turn: CacheTurn, tid: nat, m: CacheMoment, r: Reader)
      reads this, inner.db
    {
      FollowsIn(ttl, before, turn, tid, m) && m.left == View() && tid in readers && readers[tid] == r
    }

    method Accept(tid: nat, filter: MonitoringFilter, ghost turns: seq<CacheTurn>) returns (ghost h: seq<CacheMoment>)
      requires tid !in readers
      modifies `readers
      ensures readers == old(readers)[tid := Reader(filter, Begin)]
      ensures h == [] && IsCacheRun(ttl, old(View()), tid, filter, turns, h, View())
    {
      AskArrives(ttl, View(), tid, filter, turns);
      readers := readers[tid := Reader(filter, Begin)];
      h := [];
    }

    method ReadClock(tid: nat, filter: MonitoringFilter, turn: CacheTurn) returns (read: Time, ghost m: CacheMoment)
      requires Ready(tid, filter, Begin, turn)
      modifies this, inner.db`store
      ensures KeepsCache(m) && read == m.met.now
      ensures Performed(old(View()), turn, tid, m, Reader(filter, Lookup(read)))
    {
      Yield(tid, turn.others);
      ghost var met := View();
      read := now;
      readers := readers[tid := Reader(filter, Lookup(read))];
      m := CacheMoment(met, Proceed(tid, turn.up, []), View());
    }

    /** Under the read lock: an entry counts while the reading is before its expiry. */
    method LookUp(tid: nat, filter: MonitoringFilter, read: Time, turn: CacheTurn)
      returns (found: Option<Report>, ghost m: CacheMoment)
      requires Ready(tid, filter, Lookup(read), turn)
      modifies this, inner.db`store
      ensures KeepsCache(m)
      ensures var cache := m.met.cache;
        found == if filter in cache && read < cache[filter].expiresAt then Some(cache[filter].report) else None
      ensures Performed(old(View()), turn, tid, m,
        Reader(filter, if found.Some? then Returned(read, found, true) else ReportClock(read)))
    {
      Yield(tid, turn.others);
      ghost var met := View();
      found := None;
      if filter in cache && read < cache[filter].expiresAt {
        found := Some(cache[filter].report);
      }
      readers := readers[tid := Reader(filter, if found.Some? then Returned(read, found, true) else ReportClock(read))];
      m := CacheMoment(met, Proceed(tid, turn.up, []), View());
    }

    /** The inner repository reads the clock before it runs its queries. */
    method ReadReportClock(tid: nat, filter: MonitoringFilter, read: Time, turn: CacheTurn)
      returns (clock: Time, ghost m: CacheMoment)
      requires Ready(tid, filter, ReportClock(read), turn)
      modifies this, inner.db`store
      ensures KeepsCache(m) && clock == m.met.now
      ensures Performed(old(View()), turn, tid, m, Reader(filter, Query(read, clock)))
    {
      Yield(tid, turn.others);
      ghost var met := View();
      clock := now;
      readers := readers[tid := Reader(filter, Query(read, clock))];
      m := CacheMoment(met, Proceed(tid, turn.up, []), View());
    }

    method AskInner(tid: nat, filter: MonitoringFilter, read: Time, clock: Time, turn: CacheTurn)
      returns (report: Option<Report>, ghost m: CacheMoment)
      requires Ready(tid, filter, Query(read, clock), turn)
      modifies this, inner.db`store
      ensures KeepsCache(m)
      ensures report.Some? <==> turn.up
      ensures report.Some? ==> IsReportOf(report.value, m.met.store, filter, clock)
      ensures Performed(old(View()), turn, tid, m,
        Reader(filter, if report.Some? then Fill(read, report.value) else Returned(read, None, false)))
    {
      hide IsBreakdown, SelectEvents, ReportOf, CacheExec, CacheNext, IsReportOf;
      Yield(tid, turn.others);
      ghost var met := View();
      var answer := PickBreakdown(filter, clock);
      QuerySpelledOut(ttl, met, tid, filter, read, clock, turn.up, answer);
      ReportIs(met.store, filter, clock, answer);
      report := inner.GetReport(filter, clock, (turn.up, turn.up, turn.up), answer);
      if report.Some? {
        produced := produced + [Production(filter, clock, now, inner.db.store, answer)];
      }
      readers := readers[tid := Reader(filter, if report.Some? then Fill(read, report.value) else Returned(read, None, false))];
      m := CacheMoment(met, Proceed(tid, turn.up, answer), View());
    }

    /** The database puts the groups into some order that satisfies ORDER BY. */
    method PickBreakdown(filter: MonitoringFilter, clock: Time) returns (answer: seq<ByModel>)
      ensures IsBreakdown(SelectEvents(inner.db.store, filter.WindowAt(clock), ""), answer)
    {
      var rows := SelectEvents(inner.db.store, filter.WindowAt(clock), "");
      ghost var some := BreakdownExists(rows);
      hide IsBreakdown;
      assert IsBreakdown(rows, some);
      answer :| IsBreakdown(rows, answer);
    }

    /** Under the write lock: the entry is dated by the reading taken before the queries. */
    method StoreEntry(tid: nat, filter: MonitoringFilter, read: Time, report: Report, turn: CacheTurn)
      returns (ghost m: CacheMoment)
      requires Ready(tid, filter, Fill(read, report), turn)
      modifies this, inner.db`store
      ensures LeavesCache(m, if turn.up then m.met.cache[filter := Entry(report, read + ttl)] else m.met.cache)
      ensures Performed(old(View()), turn, tid, m, Reader(filter, Returned(read, Some(report), false)))
    {
      Yield(tid, turn.others);
      ghost var met := View();
      if turn.up {
        cache := cache[filter := Entry(report, read + ttl)];
      }
      readers := readers[tid := Reader(filter, Returned(read, Some(report), false))];
      m := CacheMoment(met, Proceed(tid, turn.up, []), View());
    }

    /** CachedMonitoringRepository.GetReport, as a run of the model that answers and writes as its cases say. */
    method GetReport(tid: nat, filter: MonitoringFilter, turns: seq<CacheTurn>)
      returns (report: Option<Report>, ghost h: seq<CacheMoment>)
      requires tid !in readers && |turns| == 5
      requires forall i :: 0 <= i < |turns| ==> OthersOnly(turns[i].others, tid)
      modifies this, inner.db`store
      ensures IsCacheRun(ttl, old(View()), tid, filter, turns, h, View())
      ensures tid in readers && readers[tid].filter == filter && readers[tid].pc.Returned? && readers[tid].pc.result == report
      ensures ReportOutcome(ttl, filter, turns, h, report)
    {
      hide CacheNext, CacheExec, IsCacheRun, FollowsIn, KeepsCache, FetchOutcome, View;
      ghost var start := View();
      ghost var m;
      h := Accept(tid, filter, turns);
      var read;
      read, m := ReadClock(tid, filter, turns[0]);
      h := ExtendRun(ttl, start, tid, filter, turns, h, m);
      report, m := LookUp(tid, filter, read, turns[1]);
      h := ExtendRun(ttl, start, tid, filter, turns, h, m);
      if report.Some? { return report, h; }
      report, h := Fetch(tid, filter, read, turns, start, h);
    }

    /** The part after a miss: the inner repository and the fill. */
    method Fetch(tid: nat, filter: MonitoringFilter, read: Time, turns: seq<CacheTurn>, ghost start: CacheState,
                 ghost before: seq<CacheMoment>)
      returns (report: Option<Report>, ghost h: seq<CacheMoment>)
      requires |turns| == 5 && Ready(tid, filter, ReportClock(read), turns[2])
      requires |before| == 2 && IsCacheRun(ttl, start, tid, filter, turns, before, View()) && View() == before[1].left
      requires OthersOnly(turns[3].others, tid) && OthersOnly(turns[4].others, tid)
      modifies this, inner.db`store
      ensures before <= h && IsCacheRun(ttl, start, tid, filter, turns, h, View())
      ensures tid in readers && readers[tid].filter == filter && readers[tid].pc.Returned? && readers[tid].pc.result == report
      ensures FetchOutcome(ttl, filter, read, turns, h, report)
    {
      hide CacheNext, CacheExec, IsCacheRun, FollowsIn, IsReportOf, KeepsCache, LeavesCache, View;
      ghost var m;
      var clock;
      clock, m := ReadReportClock(tid, filter, read, turns[2]);
      h := ExtendRun(ttl, start, tid, filter, turns, before, m);
      report, m := AskInner(tid, filter, read, clock, turns[3]);
      h := ExtendRun(ttl, start, tid, filter, turns, h, m);
      if report.None? { return report, h; }
      m := StoreEntry(tid, filter, read, report.value, turns[4]);
      h := ExtendRun(ttl, start, tid, filter, turns, h, m);
    }
  }
}
