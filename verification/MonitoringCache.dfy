/**
 The TTL cache in front of the monitoring report. Fills and hits of concurrent requests interleave at
 every statement, so a slow old fill may overwrite a newer one.
 */
module MonitoringCache {
  import opened Collections
  import opened LlmStore
  import opened Reports
  import opened MonitoringRepository

  datatype Entry = Entry(report: Report, expiresAt: Time)

  /** A report the inner repository produced: the clock reading it was begun with, the instant of its queries
      and the tables they saw. History only. */
  datatype Production = Production(
    filter: MonitoringFilter, clock: Time, at: Time, store: Store, answer: seq<ByModel>)
  {
    function Answer(): Report {
      ReportOf(store, filter.WindowAt(clock), filter.model, answer)
    }
  }

  /** `read` is the clock reading with which a request decides on a hit and dates its own fill, `clock` the
      later one with which the inner repository ends an open window. */
  datatype ReaderPc =
    | Begin
    | Lookup(read: Time)
    | ReportClock(read: Time)
    | Query(read: Time, clock: Time)
    | Fill(read: Time, report: Report)
    | Returned(read: Time, result: Option<Report>, hit: bool)

  datatype Reader = Reader(filter: MonitoringFilter, pc: ReaderPc)

  datatype CacheState = CacheState(
    now: Time,
    store: Store,
    cache: map<MonitoringFilter, Entry>,
    readers: map<nat, Reader>,
    produced: seq<Production>)   // history

  /** `up` is whether the queries, or later the encoding of the report, succeed. */
  datatype CacheAction =
    | Wait(delay: nat)
    | RecordRows(events: seq<Event>, scores: seq<Score>)
    | OpenSessions(sessions: map<SessionId, Session>)
    | Ask(tid: nat, filter: MonitoringFilter)
    | Proceed(tid: nat, up: bool, answer: seq<ByModel>)

  function ColdStart(now: Time, store: Store): CacheState {
    CacheState(now, store, map[], map[], [])
  }

  function At(s: CacheState, tid: nat, pc: ReaderPc): CacheState
    requires tid in s.readers
  {
    s.(readers := s.readers[tid := s.readers[tid].(pc := pc)])
  }

  predicate Hit(cache: map<MonitoringFilter, Entry>, filter: MonitoringFilter, read: Time) {
    filter in cache && read < cache[filter].expiresAt
  }

  /** One statement of a request. */
  function ReaderStep(ttl: int, s: CacheState, tid: nat, up: bool, answer: seq<ByModel>): CacheState
    requires tid in s.readers
  {
    var filter := s.readers[tid].filter;
    match s.readers[tid].pc
    case Begin => At(s, tid, Lookup(s.now))
    case Lookup(read) =>
      if Hit(s.cache, filter, read) then At(s, tid, Returned(read, Some(s.cache[filter].report), true))
      else At(s, tid, ReportClock(read))
    case ReportClock(read) => At(s, tid, Query(read, s.now))
    case Query(read, clock) =>
      if !up then At(s, tid, Returned(read, None, false))
      else if !IsBreakdown(SelectEvents(s.store, filter.WindowAt(clock), ""), answer) then s
      else
        var p := Production(filter, clock, s.now, s.store, answer);
        At(s, tid, Fill(read, p.Answer())).(produced := s.produced + [p])
    case Fill(read, report) =>
      var filled := if up then s.(cache := s.cache[filter := Entry(report, read + ttl)]) else s;
      At(filled, tid, Returned(read, Some(report), false))
    case Returned(_, _, _) => s
  }

  function CacheNext(ttl: int, s: CacheState, a: CacheAction): CacheState {
    match a
    case Wait(delay) => s.(now := s.now + delay)
    case RecordRows(events, scores) =>
      s.(store := s.store.(events := s.store.events + events, scores := s.store.scores + scores))
    case OpenSessions(sessions) => s.(store := s.store.(sessions := sessions + s.store.sessions))
    case Ask(tid, filter) =>
      if tid in s.readers then s else s.(readers := s.readers[tid := Reader(filter, Begin)])
    case Proceed(tid, up, answer) =>
      if tid in s.readers then ReaderStep(ttl, s, tid, up, answer) else s
  }

  function CacheExec(ttl: int, s: CacheState, actions: seq<CacheAction>): CacheState
    decreases |actions|
  {
    if actions == [] then s else CacheExec(ttl, CacheNext(ttl, s, actions[0]), actions[1..])
  }

  lemma {:induction false} CacheExecSplits(ttl: int, s: CacheState, first: seq<CacheAction>, second: seq<CacheAction>)
    ensures CacheExec(ttl, s, first + second) == CacheExec(ttl, CacheExec(ttl, s, first), second)
    decreases |first|
  {
    if first == [] {
      assert first + second == second;
    } else {
      assert (first + second)[1..] == first[1..] + second;
      CacheExecSplits(ttl, CacheNext(ttl, s, first[0]), first[1..], second);
    }
  }

  // ----- the invariant -----

  /** `report` was produced for `filter`, beginning no earlier than `since`. */
  ghost predicate ProducedSince(produced: seq<Production>, filter: MonitoringFilter, report: Report, since: Time) {
    exists i {:trigger produced[i]} ::
      0 <= i < |produced| && produced[i].filter == filter && produced[i].Answer() == report && since <= produced[i].clock
  }

  /** An entry expires no later than its lifetime after its report was produced, because the fill is
      dated by the reading taken before the queries. */
  ghost predicate EntriesOk(ttl: int, cache: map<MonitoringFilter, Entry>, produced: seq<Production>) {
    forall f {:trigger cache[f]} :: f in cache ==> ProducedSince(produced, f, cache[f].report, cache[f].expiresAt - ttl)
  }

  ghost predicate ReaderOk(ttl: int, now: Time, produced: seq<Production>, r: Reader) {
    match r.pc
    case Begin => true
    case Lookup(read) => read <= now
    case ReportClock(read) => read <= now
    case Query(read, clock) => read <= clock <= now
    case Fill(read, report) => ProducedSince(produced, r.filter, report, read)
    case Returned(read, result, hit) => hit ==>
      result.Some? && ProducedSince(produced, r.filter, result.value, read - ttl + 1)
  }

  ghost predicate ReadersOk(ttl: int, now: Time, produced: seq<Production>, readers: map<nat, Reader>) {
    forall tid {:trigger readers[tid]} :: tid in readers ==> ReaderOk(ttl, now, produced, readers[tid])
  }

  /** Productions are dated by the past and saw tables that have only grown since. */
  ghost predicate PastOk(now: Time, store: Store, produced: seq<Production>) {
    forall i {:trigger produced[i]} :: 0 <= i < |produced| ==>
      && produced[i].clock <= produced[i].at <= now
      && produced[i].store.events <= store.events && produced[i].store.scores <= store.scores
  }

  ghost predicate CacheInv(ttl: int, s: CacheState) {
    && EntriesOk(ttl, s.cache, s.produced)
    && ReadersOk(ttl, s.now, s.produced, s.readers)
    && PastOk(s.now, s.store, s.produced)
  }

  lemma StillProduced(produced: seq<Production>, more: seq<Production>, filter: MonitoringFilter, report: Report,
                      since: Time)
    requires ProducedSince(produced, filter, report, since)
    ensures ProducedSince(produced + more, filter, report, since)
  {
    hide ReportOf;
    var i :| 0 <= i < |produced| && produced[i].filter == filter && produced[i].Answer() == report
      && since <= produced[i].clock;
    assert (produced + more)[i] == produced[i];
  }

  lemma LaterSuffices(produced: seq<Production>, filter: MonitoringFilter, report: Report, since: Time, earlier: Time)
    requires ProducedSince(produced, filter, report, since) && earlier <= since
    ensures ProducedSince(produced, filter, report, earlier)
  {
    hide ReportOf;
    var i :| 0 <= i < |produced| && produced[i].filter == filter && produced[i].Answer() == report
      && since <= produced[i].clock;
    assert earlier <= produced[i].clock;
  }

  lemma EntriesStay(ttl: int, cache: map<MonitoringFilter, Entry>, produced: seq<Production>, more: seq<Production>)
    requires EntriesOk(ttl, cache, produced)
    ensures EntriesOk(ttl, cache, produced + more)
  {
    hide ProducedSince;
    forall f | f in cache ensures ProducedSince(produced + more, f, cache[f].report, cache[f].expiresAt - ttl) {
      StillProduced(produced, more, f, cache[f].report, cache[f].expiresAt - ttl);
    }
  }

  lemma ReadersStay(ttl: int, now: Time, later: Time, produced: seq<Production>, more: seq<Production>,
                    readers: map<nat, Reader>)
    requires ReadersOk(ttl, now, produced, readers) && now <= later
    ensures ReadersOk(ttl, later, produced + more, readers)
  {
    hide ProducedSince;
    forall tid | tid in readers ensures ReaderOk(ttl, later, produced + more, readers[tid]) {
      var r := readers[tid];
      assert ReaderOk(ttl, now, produced, r);
      if r.pc.Fill? {
        StillProduced(produced, more, r.filter, r.pc.report, r.pc.read);
      } else if r.pc.Returned? && r.pc.hit {
        StillProduced(produced, more, r.filter, r.pc.result.value, r.pc.read - ttl + 1);
      }
    }
  }

  /** One request moves on; the others do not notice. */
  lemma ReaderMoves(ttl: int, s: CacheState, tid: nat, pc: ReaderPc)
    requires CacheInv(ttl, s) && tid in s.readers && ReaderOk(ttl, s.now, s.produced, s.readers[tid].(pc := pc))
    ensures CacheInv(ttl, At(s, tid, pc))
  {
    hide ProducedSince, ReaderOk;
  }

  lemma QueryKeeps(ttl: int, s: CacheState, tid: nat, answer: seq<ByModel>)
    requires CacheInv(ttl, s) && tid in s.readers && s.readers[tid].pc.Query?
    ensures var r := s.readers[tid];
      var p := Production(r.filter, r.pc.clock, s.now, s.store, answer);
      CacheInv(ttl, At(s, tid, Fill(r.pc.read, p.Answer())).(produced := s.produced + [p]))
  {
    hide ReportOf;
    var r := s.readers[tid];
    assert ReaderOk(ttl, s.now, s.produced, r);
    var p := Production(r.filter, r.pc.clock, s.now, s.store, answer);
    var produced := s.produced + [p];
    assert produced[|s.produced|] == p;
    assert ProducedSince(produced, r.filter, p.Answer(), r.pc.read);
    EntriesStay(ttl, s.cache, s.produced, [p]);
    ReadersStay(ttl, s.now, s.now, s.produced, [p], s.readers);
    var mid := s.(produced := produced);
    assert PastOk(s.now, s.store, produced);
    hide ProducedSince, PastOk, ReadersOk, EntriesOk;
    ReaderMoves(ttl, mid, tid, Fill(r.pc.read, p.Answer()));
  }

  lemma FillKeeps(ttl: int, s: CacheState, tid: nat, up: bool)
    requires CacheInv(ttl, s) && tid in s.readers && s.readers[tid].pc.Fill?
    ensures CacheInv(ttl, ReaderStep(ttl, s, tid, up, []))
  {
    hide ProducedSince;
    var r := s.readers[tid];
    assert ReaderOk(ttl, s.now, s.produced, r);
    var filled := if up then s.(cache := s.cache[r.filter := Entry(r.pc.report, r.pc.read + ttl)]) else s;
    assert EntriesOk(ttl, filled.cache, filled.produced);
    hide EntriesOk, PastOk, ReadersOk;
    ReaderMoves(ttl, filled, tid, Returned(r.pc.read, Some(r.pc.report), false));
  }

  lemma LookupKeeps(ttl: int, s: CacheState, tid: nat)
    requires CacheInv(ttl, s) && tid in s.readers && s.readers[tid].pc.Lookup?
    ensures CacheInv(ttl, ReaderStep(ttl, s, tid, true, []))
  {
    hide ProducedSince;
    var r := s.readers[tid];
    assert ReaderOk(ttl, s.now, s.produced, r);
    if Hit(s.cache, r.filter, r.pc.read) {
      var e := s.cache[r.filter];
      LaterSuffices(s.produced, r.filter, e.report, e.expiresAt - ttl, r.pc.read - ttl + 1);
      hide EntriesOk, PastOk, ReadersOk;
      ReaderMoves(ttl, s, tid, Returned(r.pc.read, Some(e.report), true));
    } else {
      hide EntriesOk, PastOk, ReadersOk;
      ReaderMoves(ttl, s, tid, ReportClock(r.pc.read));
    }
  }

  lemma OneReader(ttl: int, s: CacheState, tid: nat)
    requires CacheInv(ttl, s) && tid in s.readers
    ensures ReaderOk(ttl, s.now, s.produced, s.readers[tid])
  {
  }

  lemma ReaderStepKeeps(ttl: int, s: CacheState, tid: nat, up: bool, answer: seq<ByModel>)
    requires CacheInv(ttl, s) && tid in s.readers
    ensures CacheInv(ttl, ReaderStep(ttl, s, tid, up, answer))
  {
    hide CacheInv, ReportOf, IsBreakdown, SelectEvents, Hit;
    match s.readers[tid].pc
    case Begin => ReaderMoves(ttl, s, tid, Lookup(s.now));
    case Lookup(_) => LookupKeeps(ttl, s, tid);
    case ReportClock(read) =>
      assert ReaderOk(ttl, s.now, s.produced, s.readers[tid]) by { OneReader(ttl, s, tid); }
      ReaderMoves(ttl, s, tid, Query(read, s.now));
    case Query(read, _) =>
      if up {
        QueryKeeps(ttl, s, tid, answer);
      } else {
        ReaderMoves(ttl, s, tid, Returned(read, None, false));
      }
    case Fill(_, _) => FillKeeps(ttl, s, tid, up);
    case Returned(_, _, _) =>
  }

  lemma CacheNextKeeps(ttl: int, s: CacheState, a: CacheAction)
    requires CacheInv(ttl, s)
    ensures CacheInv(ttl, CacheNext(ttl, s, a))
  {
    hide ProducedSince, ReaderStep, ReaderOk;
    match a
    case Wait(delay) =>
      assert s.produced + [] == s.produced;
      ReadersStay(ttl, s.now, s.now + delay, s.produced, [], s.readers);
    case RecordRows(events, scores) =>
    case OpenSessions(_) =>
    case Ask(tid, filter) =>
      assert ReaderOk(ttl, s.now, s.produced, Reader(filter, Begin)) by { BeginIsOk(ttl, s.now, s.produced, filter); }
    case Proceed(tid, up, answer) =>
      if tid in s.readers {
        ReaderStepKeeps(ttl, s, tid, up, answer);
      }
  }

  lemma BeginIsOk(ttl: int, now: Time, produced: seq<Production>, filter: MonitoringFilter)
    ensures ReaderOk(ttl, now, produced, Reader(filter, Begin))
  {
  }

  lemma {:induction false} CacheExecKeeps(ttl: int, s: CacheState, actions: seq<CacheAction>)
    requires CacheInv(ttl, s)
    ensures CacheInv(ttl, CacheExec(ttl, s, actions))
    decreases |actions|
  {
    hide CacheInv, CacheNext;
    if actions != [] {
      CacheNextKeeps(ttl, s, actions[0]);
      CacheExecKeeps(ttl, CacheNext(ttl, s, actions[0]), actions[1..]);
    }
  }

  // ----- the main results -----

  /** Bounded staleness: in every interleaving of fills and hits, a hit at clock reading t returns a
      report that the inner repository produced for that same filter, from its clock reading to its queries
      later than t - ttl. */
  lemma BoundedStaleness(ttl: int, start: Time, store: Store, actions: seq<CacheAction>, tid: nat)
    returns (p: Production)
    requires var s := CacheExec(ttl, ColdStart(start, store), actions);
      tid in s.readers && s.readers[tid].pc.Returned? && s.readers[tid].pc.hit
    ensures var s := CacheExec(ttl, ColdStart(start, store), actions);
      var pc := s.readers[tid].pc;
      && p in s.produced && p.filter == s.readers[tid].filter && pc.result == Some(p.Answer())
      && pc.read - ttl < p.clock <= p.at <= s.now
      && p.store.events <= s.store.events && p.store.scores <= s.store.scores
  {
    var s := CacheExec(ttl, ColdStart(start, store), actions);
    CacheExecKeeps(ttl, ColdStart(start, store), actions);
    hide CacheExec, ReportOf;
    var r := s.readers[tid];
    assert ReaderOk(ttl, s.now, s.produced, r);
    var i :| 0 <= i < |s.produced| && s.produced[i].filter == r.filter && s.produced[i].Answer() == r.pc.result.value
      && r.pc.read - ttl + 1 <= s.produced[i].clock;
    p := s.produced[i];
  }

  /** Later productions saw at least the rows there were at `s`. */
  ghost predicate GrownSince(s: CacheState, later: CacheState) {
    && s.produced <= later.produced && s.store.events <= later.store.events && s.store.scores <= later.store.scores
    && forall i {:trigger later.produced[i]} :: |s.produced| <= i < |later.produced| ==>
         s.store.events <= later.produced[i].store.events && s.store.scores <= later.produced[i].store.scores
  }

  lemma GrowsStep(ttl: int, s: CacheState, later: CacheState, a: CacheAction)
    requires GrownSince(s, later)
    ensures GrownSince(s, CacheNext(ttl, later, a))
  {
    hide IsBreakdown, SelectEvents, ReportOf;
    var next := CacheNext(ttl, later, a);
    assert next.produced == later.produced || next.produced[..|later.produced|] == later.produced;
  }

  lemma {:induction false} Grows(ttl: int, s: CacheState, later: CacheState, actions: seq<CacheAction>)
    requires GrownSince(s, later)
    ensures GrownSince(s, CacheExec(ttl, later, actions))
    decreases |actions|
  {
    hide CacheNext, GrownSince;
    if actions != [] {
      GrowsStep(ttl, s, later, actions[0]);
      Grows(ttl, s, CacheNext(ttl, later, actions[0]), actions[1..]);
    }
  }

  /** What this means for the data: a hit at clock reading t misses nothing that was recorded up to
      t - ttl, and shows nothing that is not recorded. */
  lemma HitsMissOnlyRecentRows(ttl: int, start: Time, store: Store, before: seq<CacheAction>,
                               after: seq<CacheAction>, tid: nat)
    returns (p: Production)
    requires var s := CacheExec(ttl, ColdStart(start, store), before + after);
      tid in s.readers && s.readers[tid].pc.Returned? && s.readers[tid].pc.hit
    requires var s := CacheExec(ttl, ColdStart(start, store), before + after);
      CacheExec(ttl, ColdStart(start, store), before).now <= s.readers[tid].pc.read - ttl
    ensures var early := CacheExec(ttl, ColdStart(start, store), before);
      var s := CacheExec(ttl, ColdStart(start, store), before + after);
      && s.readers[tid].pc.result == Some(p.Answer()) && p.filter == s.readers[tid].filter
      && early.store.events <= p.store.events <= s.store.events
      && early.store.scores <= p.store.scores <= s.store.scores
  {
    var early := CacheExec(ttl, ColdStart(start, store), before);
    var s := CacheExec(ttl, ColdStart(start, store), before + after);
    p := BoundedStaleness(ttl, start, store, before + after, tid);
    CacheExecKeeps(ttl, ColdStart(start, store), before);
    CacheExecSplits(ttl, ColdStart(start, store), before, after);
    Grows(ttl, early, early, after);
    hide CacheExec, ReportOf;
    var i :| 0 <= i < |s.produced| && s.produced[i] == p;
    assert i < |early.produced| ==> p in early.produced;
  }
}
