/**
 The Prometheus counters against the tables they shadow. Inserts and increments are separate
 statements, so the two differ while a request is between them, and for good when an insert was
 applied but reported as failed.
 */
module CounterShadow {
  import opened LlmStore
  import opened LlmInvariant

  type Sessions = map<SessionId, Session>

  function ModelOf(sessions: Sessions, e: Event): string {
    if e.session in sessions then sessions[e.session].model else ""
  }

  /** What an event contributes to a series. */
  function EventWeight(sessions: Sessions, e: Event, series: Series): (w: real)
    ensures EventOk(sessions, e) ==> w >= 0.0
  {
    match series
    case EventsTotal(model, status) => if ModelOf(sessions, e) == model && e.Status() == status then 1.0 else 0.0
    case TokensTotal(model, direction) =>
      if ModelOf(sessions, e) != model then 0.0
      else if direction == "in" then e.tokensIn as real
      else if direction == "out" then e.tokensOut as real
      else 0.0
    case ScoreSum(_) => 0.0
  }

  /** What a score contributes, through the session of its event. */
  function ScoreWeight(store: Store, x: Score, series: Series): (w: real)
    ensures ScoreOk(store.events, x) ==> w >= 0.0
  {
    var found := Find(store.events, x.event);
    if series.ScoreSum? && found.Some? && ModelOf(store.sessions, found.value) == series.model then x.composite else 0.0
  }

  /** The contributions of the events with these ids. */
  function EventSum(sessions: Sessions, events: seq<Event>, ids: set<EventId>, series: Series): real {
    if events == [] then 0.0
    else
      var last := events[|events| - 1];
      EventSum(sessions, events[..|events| - 1], ids, series)
      + if last.id in ids then EventWeight(sessions, last, series) else 0.0
  }

  function ScoreSumOf(store: Store, scores: seq<Score>, ids: set<EventId>, series: Series): real {
    if scores == [] then 0.0
    else
      var last := scores[|scores| - 1];
      ScoreSumOf(store, scores[..|scores| - 1], ids, series)
      + if last.event in ids then ScoreWeight(store, last, series) else 0.0
  }

  function EventIds(events: seq<Event>): set<EventId> { set e | e in events :: e.id }

  function ScoredIds(scores: seq<Score>): set<EventId> { set x | x in scores :: x.event }

  /** The value a series should have according to the tables alone. */
  function StoreTotal(store: Store, series: Series): real {
    EventSum(store.sessions, store.events, EventIds(store.events), series)
    + ScoreSumOf(store, store.scores, ScoredIds(store.scores), series)
  }

  /** Which of the three increments of an event feeds the series. */
  function StepOf(series: Series): nat {
    if series.TokensTotal? then (if series.direction == "in" then 1 else 2) else 0
  }

  function Counted(log: map<EventId, Progress>, step: nat): set<EventId> {
    set id | id in log && log[id].done > step
  }

  function LostIds(log: map<EventId, Progress>): set<EventId> {
    set id | id in log && log[id].lost
  }

  /** The rows whose insert was reported as failed. */
  function LostTotal(s: State, series: Series): real {
    EventSum(s.store.sessions, s.store.events, LostIds(s.eventLog), series)
    + ScoreSumOf(s.store, s.store.scores, LostIds(s.scoreLog), series)
  }

  /** The rows counted so far. */
  function CountedTotal(s: State, series: Series): real {
    EventSum(s.store.sessions, s.store.events, Counted(s.eventLog, StepOf(series)), series)
    + ScoreSumOf(s.store, s.store.scores, Counted(s.scoreLog, 0), series)
  }

  /** Every counter has seen exactly the rows whose increment has been performed. */
  ghost predicate Shadows(s: State) {
    forall series {:trigger Value(s.counters, series)} :: Value(s.counters, series) == CountedTotal(s, series)
  }

  /** No request is between its insert and its last increment. */
  ghost predicate Quiescent(s: State) {
    forall tid :: tid in s.threads ==> !s.threads[tid].pc.Counting()
  }

  // ----- sums -----

  lemma {:induction false} EventSumSame(sessions: Sessions, sessions': Sessions, events: seq<Event>,
                                        ids: set<EventId>, ids': set<EventId>, series: Series)
    requires forall e :: e in events ==> EventWeight(sessions', e, series) == EventWeight(sessions, e, series)
    requires forall e :: e in events ==> (e.id in ids <==> e.id in ids')
    ensures EventSum(sessions', events, ids', series) == EventSum(sessions, events, ids, series)
  {
    if events != [] {
      EventSumSame(sessions, sessions', events[..|events| - 1], ids, ids', series);
    }
  }

  lemma {:induction false} ScoreSumSame(store: Store, store': Store, scores: seq<Score>,
                                        ids: set<EventId>, ids': set<EventId>, series: Series)
    requires forall x :: x in scores ==> ScoreWeight(store', x, series) == ScoreWeight(store, x, series)
    requires forall x :: x in scores ==> (x.event in ids <==> x.event in ids')
    ensures ScoreSumOf(store', scores, ids', series) == ScoreSumOf(store, scores, ids, series)
  {
    if scores != [] {
      ScoreSumSame(store, store', scores[..|scores| - 1], ids, ids', series);
    }
  }

  lemma {:induction false} EventSumSplits(sessions: Sessions, events: seq<Event>, a: set<EventId>, b: set<EventId>,
                                        series: Series)
    requires a !! b
    ensures EventSum(sessions, events, a + b, series) == EventSum(sessions, events, a, series) + EventSum(sessions, events, b, series)
  {
    if events != [] {
      EventSumSplits(sessions, events[..|events| - 1], a, b, series);
    }
  }

  lemma {:induction false} ScoreSumSplits(store: Store, scores: seq<Score>, a: set<EventId>, b: set<EventId>,
                                        series: Series)
    requires a !! b
    ensures ScoreSumOf(store, scores, a + b, series) == ScoreSumOf(store, scores, a, series) + ScoreSumOf(store, scores, b, series)
  {
    if scores != [] {
      ScoreSumSplits(store, scores[..|scores| - 1], a, b, series);
    }
  }

  lemma {:induction false} EventSumNone(sessions: Sessions, events: seq<Event>, ids: set<EventId>, series: Series)
    requires forall e :: e in events ==> e.id !in ids
    ensures EventSum(sessions, events, ids, series) == 0.0
  {
    if events != [] {
      EventSumNone(sessions, events[..|events| - 1], ids, series);
    }
  }

  lemma {:induction false} ScoreSumNone(store: Store, scores: seq<Score>, ids: set<EventId>, series: Series)
    requires forall x :: x in scores && x.event in ids ==> ScoreWeight(store, x, series) == 0.0
    ensures ScoreSumOf(store, scores, ids, series) == 0.0
  {
    if scores != [] {
      ScoreSumNone(store, scores[..|scores| - 1], ids, series);
    }
  }

  lemma {:induction false} EventSumOne(sessions: Sessions, events: seq<Event>, e: Event, series: Series)
    requires UniqueIds(events) && e in events
    ensures EventSum(sessions, events, {e.id}, series) == EventWeight(sessions, e, series)
  {
    var rest, last := events[..|events| - 1], events[|events| - 1];
    assert rest + [last] == events;
    if last == e {
      EventSumNone(sessions, rest, {e.id}, series);
    } else {
      EventSumOne(sessions, rest, e, series);
    }
  }

  lemma {:induction false} ScoreSumOne(store: Store, scores: seq<Score>, x: Score, series: Series)
    requires OnePerEvent(scores) && x in scores
    ensures ScoreSumOf(store, scores, {x.event}, series) == ScoreWeight(store, x, series)
  {
    var rest, last := scores[..|scores| - 1], scores[|scores| - 1];
    assert rest + [last] == scores;
    if last == x {
      ScoreSumNone(store, rest, {x.event}, series);
    } else {
      ScoreSumOne(store, rest, x, series);
    }
  }

  lemma {:induction false} EventSumNonNegative(sessions: Sessions, events: seq<Event>, ids: set<EventId>,
                                        series: Series)
    requires forall e :: e in events ==> EventOk(sessions, e)
    ensures EventSum(sessions, events, ids, series) >= 0.0
  {
    if events != [] {
      EventSumNonNegative(sessions, events[..|events| - 1], ids, series);
    }
  }

  lemma {:induction false} ScoreSumNonNegative(store: Store, scores: seq<Score>, ids: set<EventId>, series: Series)
    requires forall x :: x in scores ==> ScoreOk(store.events, x)
    ensures ScoreSumOf(store, scores, ids, series) >= 0.0
  {
    if scores != [] {
      ScoreSumNonNegative(store, scores[..|scores| - 1], ids, series);
    }
  }

  /** Part of the events contributes no more than all of them. */
  lemma EventSumPart(sessions: Sessions, events: seq<Event>, part: set<EventId>, whole: set<EventId>, series: Series)
    requires forall e :: e in events ==> EventOk(sessions, e)
    requires forall e :: e in events && e.id in part ==> e.id in whole
    ensures EventSum(sessions, events, part, series) <= EventSum(sessions, events, whole, series)
  {
    EventSumSplits(sessions, events, part * whole, whole - part, series);
    assert part * whole + (whole - part) == whole;
    EventSumSame(sessions, sessions, events, part, part * whole, series);
    EventSumNonNegative(sessions, events, whole - part, series);
  }

  lemma ScoreSumPart(store: Store, scores: seq<Score>, part: set<EventId>, whole: set<EventId>, series: Series)
    requires forall x :: x in scores ==> ScoreOk(store.events, x)
    requires forall x :: x in scores && x.event in part ==> x.event in whole
    ensures ScoreSumOf(store, scores, part, series) <= ScoreSumOf(store, scores, whole, series)
  {
    ScoreSumSplits(store, scores, part * whole, whole - part, series);
    assert part * whole + (whole - part) == whole;
    ScoreSumSame(store, store, scores, part, part * whole, series);
    ScoreSumNonNegative(store, scores, whole - part, series);
  }

  // ----- the steps -----

  /** Growing tables do not change what the old rows contribute. */
  lemma TablesGrow(s: State, s': State, mover: nat, ids: set<EventId>, ids': set<EventId>, marks: set<EventId>,
                   series: Series)
    requires Inv(s) && Kept(s, s', mover)
    requires forall e :: e in s.store.events ==> (e.id in ids <==> e.id in ids')
    ensures EventSum(s'.store.sessions, s.store.events, ids', series) == EventSum(s.store.sessions, s.store.events, ids, series)
    ensures ScoreSumOf(s'.store, s.store.scores, marks, series) == ScoreSumOf(s.store, s.store.scores, marks, series)
  {
    forall e | e in s.store.events ensures EventWeight(s'.store.sessions, e, series) == EventWeight(s.store.sessions, e, series) {
      assert EventOk(s.store.sessions, e);
    }
    EventSumSame(s.store.sessions, s'.store.sessions, s.store.events, ids, ids', series);
    forall x | x in s.store.scores ensures ScoreWeight(s'.store, x, series) == ScoreWeight(s.store, x, series) {
      assert ScoreOk(s.store.events, x);
      var e := Find(s.store.events, x.event).value;
      assert EventOk(s.store.sessions, e);
    }
    ScoreSumSame(s.store, s'.store, s.store.scores, marks, marks, series);
  }

  lemma StillShadows(s: State, s': State, mover: nat)
    requires Inv(s) && Shadows(s) && Kept(s, s', mover) && s'.counters == s.counters
    requires s'.store.events == s.store.events && s'.store.scores == s.store.scores
    requires s'.eventLog == s.eventLog && s'.scoreLog == s.scoreLog
    ensures Shadows(s')
  {
    forall series ensures Value(s'.counters, series) == CountedTotal(s', series) {
      var ids := Counted(s.eventLog, StepOf(series));
      TablesGrow(s, s', mover, ids, ids, Counted(s.scoreLog, 0), series);
      assert Value(s.counters, series) == CountedTotal(s, series);
    }
  }

  lemma EventInsertShadows(s: State, tid: nat, e: Event, lost: bool)
    requires Inv(s) && Shadows(s) && Find(s.store.events, e.id).None?
    ensures Shadows(InsertEvent(s, tid, e, lost))
  {
    var s' := InsertEvent(s, tid, e, lost);
    EventAppended(s, tid, e, lost);
    assert s'.store.events[..|s'.store.events| - 1] == s.store.events;
    hide Find, Kept, Inv;
    forall series ensures Value(s'.counters, series) == CountedTotal(s', series) {
      var ids, ids' := Counted(s.eventLog, StepOf(series)), Counted(s'.eventLog, StepOf(series));
      TablesGrow(s, s', tid, ids, ids', Counted(s.scoreLog, 0), series);
      assert e.id !in ids';
      assert Value(s.counters, series) == CountedTotal(s, series);
    }
  }

  lemma ScoreInsertShadows(s: State, tid: nat, author: UserId, x: Score, lost: bool)
    requires Inv(s) && Shadows(s) && !Scored(s.store.scores, x.event)
    ensures Shadows(InsertScore(s, tid, author, x, lost))
  {
    var s' := InsertScore(s, tid, author, x, lost);
    assert s'.store.scores[..|s'.store.scores| - 1] == s.store.scores;
    forall series ensures Value(s'.counters, series) == CountedTotal(s', series) {
      assert Counted(s'.scoreLog, 0) == Counted(s.scoreLog, 0);
      ScoreSumSame(s.store, s'.store, s.store.scores, Counted(s.scoreLog, 0), Counted(s'.scoreLog, 0), series);
      assert Value(s.counters, series) == CountedTotal(s, series);
    }
  }

  lemma EventCountAdds(s: State, e: Event, series: Series)
    requires UniqueIds(s.store.events) && e in s.store.events && e.id in s.eventLog && s.eventLog[e.id].done < 3
    ensures var done := s.eventLog[e.id].done;
      EventSum(s.store.sessions, s.store.events, Counted(Advance(s.eventLog, e.id), StepOf(series)), series)
      == EventSum(s.store.sessions, s.store.events, Counted(s.eventLog, StepOf(series)), series)
         + if StepOf(series) == done then EventWeight(s.store.sessions, e, series) else 0.0
  {
    hide UniqueIds, EventSum, EventWeight;
    var ids, ids' := Counted(s.eventLog, StepOf(series)), Counted(Advance(s.eventLog, e.id), StepOf(series));
    if StepOf(series) == s.eventLog[e.id].done {
      assert ids' == ids + {e.id};
      EventSumSplits(s.store.sessions, s.store.events, ids, {e.id}, series);
      EventSumOne(s.store.sessions, s.store.events, e, series);
    } else {
      assert ids' == ids;
    }
  }

  lemma EventCountShadows(s: State, e: Event)
    requires Inv(s) && Shadows(s) && e in s.store.events && e.id in s.eventLog && s.eventLog[e.id].done < 3
    ensures Shadows(CountEvent(s, ModelOf(s.store.sessions, e), e, s.eventLog[e.id].done))
  {
    var s' := CountEvent(s, ModelOf(s.store.sessions, e), e, s.eventLog[e.id].done);
    assert UniqueIds(s.store.events);
    hide Inv, UniqueIds;
    forall series ensures Value(s'.counters, series) == CountedTotal(s', series) {
      assert Value(s.counters, series) == CountedTotal(s, series);
      EventCountAdds(s, e, series);
      hide EventSum, ScoreSumOf, Counted, Advance;
    }
  }

  lemma ScoreCountShadows(s: State, x: Score, model: string)
    requires Inv(s) && Shadows(s) && x in s.store.scores && x.event in s.scoreLog && s.scoreLog[x.event].done == 0
    requires Find(s.store.events, x.event).Some? && ModelOf(s.store.sessions, Find(s.store.events, x.event).value) == model
    ensures Shadows(CountScore(s, model, x))
  {
    var s' := CountScore(s, model, x);
    forall series ensures Value(s'.counters, series) == CountedTotal(s', series) {
      var ids := Counted(s.scoreLog, 0);
      assert Value(s.counters, series) == CountedTotal(s, series);
      assert Counted(s'.scoreLog, 0) == ids + {x.event};
      ScoreSumSplits(s.store, s.store.scores, ids, {x.event}, series);
      ScoreSumOne(s.store, s.store.scores, x, series);
    }
  }

  /** Moving a request on changes none of the sums. */
  lemma MovedShadows(s: State, mid: State, tid: nat, pc: Pc)
    requires tid in s.threads && Shadows(mid)
    ensures Shadows(Moved(s, mid, tid, pc))
  {
    var s' := Moved(s, mid, tid, pc);
    forall series ensures Value(s'.counters, series) == CountedTotal(s', series) {
      assert Value(mid.counters, series) == CountedTotal(mid, series);
    }
  }

  lemma WritingShadows(s: State, tid: nat, env: Env)
    requires Inv(s) && Shadows(s) && tid in s.threads && Writes(s, s.threads[tid], env)
    ensures Shadows(Next(s, Run(tid, env)))
  {
    var th := s.threads[tid];
    var move := MoveOf(s, tid, th, env);
    assert ThreadOk(s, tid, th);
    hide Inv, Shadows;
    MovedShadows(s, move.s, tid, move.pc) by {
      if th.pc.EventInsert? {
        EventInsertShadows(s, tid, NewEvent(th.req.user, th.req.session, th.req.eventBody, env.id, th.pc.at), env.write.Lost?);
      } else if th.pc.ScoreInsert? {
        ScoreInsertShadows(s, tid, th.req.user, NewScore(th.req.scoreBody, env.id, th.pc.at), env.write.Lost?);
      } else if th.pc.EventCount? {
        EventCountShadows(s, th.pc.event);
      } else {
        ScoreCountShadows(s, th.pc.score, th.pc.session.model);
      }
    }
  }

  /** An action that writes nothing leaves tables, logs and counters alone, but for new sessions. */
  lemma OnlySessionsGrow(s: State, a: Action)
    requires a.Run? && a.tid in s.threads ==> !Writes(s, s.threads[a.tid], a.env)
    ensures var s' := Next(s, a);
      && Kept(s, s', 0) && s'.counters == s.counters && s'.store.events == s.store.events
      && s'.store.scores == s.store.scores && s'.eventLog == s.eventLog && s'.scoreLog == s.scoreLog
  {
  }

  lemma NextShadows(s: State, a: Action)
    requires Inv(s) && Shadows(s)
    ensures Shadows(Next(s, a))
  {
    hide Inv, Shadows, Next, Writes, Kept;
    if a.Run? && a.tid in s.threads && Writes(s, s.threads[a.tid], a.env) {
      WritingShadows(s, a.tid, a.env);
    } else {
      OnlySessionsGrow(s, a);
      StillShadows(s, Next(s, a), 0);
    }
  }

  lemma {:induction false} ExecShadows(s: State, actions: seq<Action>)
    requires Inv(s) && Shadows(s)
    ensures Inv(Exec(s, actions)) && Shadows(Exec(s, actions))
    decreases |actions|
  {
    hide Inv, Shadows, Next;
    if actions != [] {
      NextKeeps(s, actions[0]);
      NextShadows(s, actions[0]);
      ExecShadows(Next(s, actions[0]), actions[1..]);
    }
  }

  lemma ReachableShadows(s: State)
    requires Reachable(s)
    ensures Inv(s) && Shadows(s)
  {
    var start, actions :| s == Exec(Init(start), actions);
    ExecShadows(Init(start), actions);
  }

  // ----- the main results -----

  /** At no moment, whatever is in progress and whatever was lost, is a counter ahead of the tables. */
  lemma CountersNeverAhead(s: State, series: Series)
    requires Reachable(s)
    ensures 0.0 <= Value(s.counters, series) <= StoreTotal(s.store, series)
  {
    ReachableShadows(s);
    var ids, marks := Counted(s.eventLog, StepOf(series)), Counted(s.scoreLog, 0);
    assert forall e :: e in s.store.events ==> EventOk(s.store.sessions, e);
    assert forall x :: x in s.store.scores ==> ScoreOk(s.store.events, x);
    assert Value(s.counters, series) == CountedTotal(s, series);
    EventSumPart(s.store.sessions, s.store.events, ids, EventIds(s.store.events), series);
    ScoreSumPart(s.store, s.store.scores, marks, ScoredIds(s.store.scores), series);
    EventSumNonNegative(s.store.sessions, s.store.events, ids, series);
    ScoreSumNonNegative(s.store, s.store.scores, marks, series);
  }

  /** When no request is between its insert and its increments, every counter plus what was lost is
      the fold over the tables. */
  lemma CountersShadowTables(s: State, series: Series)
    requires Reachable(s) && Quiescent(s)
    ensures Value(s.counters, series) + LostTotal(s, series) == StoreTotal(s.store, series)
  {
    ReachableShadows(s);
    var ids, lost := Counted(s.eventLog, StepOf(series)), LostIds(s.eventLog);
    forall e | e in s.store.events ensures e.id in ids + lost && !(e.id in ids && e.id in lost) {
      assert EventTraced(s.eventLog, s.threads, e);
    }
    var marks, lostMarks := Counted(s.scoreLog, 0), LostIds(s.scoreLog);
    forall x | x in s.store.scores ensures x.event in marks + lostMarks && !(x.event in marks && x.event in lostMarks) {
      assert ScoreTraced(s.scoreLog, s.threads, x);
    }
    assert Value(s.counters, series) == CountedTotal(s, series);
    hide Inv, Shadows;
    EventsSplitUp(s.store.sessions, s.store.events, ids, lost, series);
    ScoresSplitUp(s.store, s.store.scores, marks, lostMarks, series);
  }

  lemma EventsSplitUp(sessions: Sessions, events: seq<Event>, ids: set<EventId>, lost: set<EventId>, series: Series)
    requires forall e :: e in events ==> e.id in ids + lost && !(e.id in ids && e.id in lost)
    ensures EventSum(sessions, events, EventIds(events), series)
      == EventSum(sessions, events, ids, series) + EventSum(sessions, events, lost, series)
  {
    EventSumSplits(sessions, events, ids - lost, lost, series);
    EventSumSame(sessions, sessions, events, ids, ids - lost, series);
    EventSumSame(sessions, sessions, events, EventIds(events), ids - lost + lost, series);
  }

  lemma ScoresSplitUp(store: Store, scores: seq<Score>, ids: set<EventId>, lost: set<EventId>, series: Series)
    requires forall x :: x in scores ==> x.event in ids + lost && !(x.event in ids && x.event in lost)
    ensures ScoreSumOf(store, scores, ScoredIds(scores), series)
      == ScoreSumOf(store, scores, ids, series) + ScoreSumOf(store, scores, lost, series)
  {
    ScoreSumSplits(store, scores, ids - lost, lost, series);
    ScoreSumSame(store, store, scores, ids, ids - lost, series);
    ScoreSumSame(store, store, scores, ScoredIds(scores), ids - lost + lost, series);
  }

  /** Nothing of value was lost: no event, and no score but those worth 0. */
  ghost predicate NothingLost(s: State) {
    && (forall e :: e in s.store.events ==> e.id !in LostIds(s.eventLog))
    && (forall x :: x in s.store.scores && x.event in LostIds(s.scoreLog) ==> x.composite == 0.0)
  }

  /** So the counters agree with the tables exactly when nothing of value was lost. */
  lemma CountersAgree(s: State)
    requires Reachable(s) && Quiescent(s)
    ensures (forall series :: Value(s.counters, series) == StoreTotal(s.store, series)) <==> NothingLost(s)
  {
    StoreWellFormed(s);
    forall series ensures Value(s.counters, series) + LostTotal(s, series) == StoreTotal(s.store, series) {
      CountersShadowTables(s, series);
    }
    if NothingLost(s) {
      forall series ensures LostTotal(s, series) == 0.0 {
        EventSumNone(s.store.sessions, s.store.events, LostIds(s.eventLog), series);
        ScoreSumNone(s.store, s.store.scores, LostIds(s.scoreLog), series);
      }
    } else {
      var series := SomethingLost(s);
    }
  }

  lemma SomethingLost(s: State) returns (series: Series)
    requires WellFormed(s.store) && !NothingLost(s)
    ensures LostTotal(s, series) > 0.0
  {
    var lost, lostMarks := LostIds(s.eventLog), LostIds(s.scoreLog);
    assert forall e :: e in s.store.events ==> EventOk(s.store.sessions, e);
    assert forall x :: x in s.store.scores ==> ScoreOk(s.store.events, x);
    if e :| e in s.store.events && e.id in lost {
      series := EventsTotal(ModelOf(s.store.sessions, e), e.Status());
      EventSumOne(s.store.sessions, s.store.events, e, series);
      EventSumPart(s.store.sessions, s.store.events, {e.id}, lost, series);
      ScoreSumNonNegative(s.store, s.store.scores, lostMarks, series);
    } else {
      var x :| x in s.store.scores && x.event in lostMarks && x.composite != 0.0;
      series := ScoreSum(ModelOf(s.store.sessions, Find(s.store.events, x.event).value));
      ScoreSumOne(s.store, s.store.scores, x, series);
      ScoreSumPart(s.store, s.store.scores, {x.event}, lostMarks, series);
      EventSumNonNegative(s.store.sessions, s.store.events, lost, series);
    }
  }

  // ----- what is lost stays lost -----

  lemma LostStaysStep(s: State, a: Action)
    requires Inv(s)
    ensures LostIds(s.eventLog) <= LostIds(Next(s, a).eventLog) && LostIds(s.scoreLog) <= LostIds(Next(s, a).scoreLog)
  {
    hide MoveOf;
    if a.Run? && a.tid in s.threads {
      LostStaysMove(s, a.tid, s.threads[a.tid], a.env);
    }
  }

  /** A statement enters a new row into a log, or advances the count of an old one, or neither. */
  lemma LogsAfter(s: State, tid: nat, th: Thread, env: Env)
    ensures var events := MoveOf(s, tid, th, env).s.eventLog;
      || events == s.eventLog
      || (Find(s.store.events, env.id).None? && events == s.eventLog[env.id := Progress(tid, th.req.user, 0, env.write.Lost?)])
      || (th.pc.EventCount? && events == Advance(s.eventLog, th.pc.event.id))
    ensures var scores := MoveOf(s, tid, th, env).s.scoreLog;
      || scores == s.scoreLog
      || (th.req.RecordScore? && !Scored(s.store.scores, th.req.scoreBody.event)
          && scores == s.scoreLog[th.req.scoreBody.event := Progress(tid, th.req.user, 0, env.write.Lost?)])
      || (th.pc.ScoreCount? && scores == Advance(s.scoreLog, th.pc.score.event))
  {
    hide Find, Scored, Increment, Add, Advance;
  }

  lemma EnteringLosesNothing(log: map<EventId, Progress>, id: EventId, p: Progress)
    requires id !in log
    ensures LostIds(log) <= LostIds(log[id := p])
  {
  }

  lemma AdvancingLosesNothing(log: map<EventId, Progress>, id: EventId)
    ensures LostIds(log) <= LostIds(Advance(log, id))
  {
  }

  lemma LostStaysMove(s: State, tid: nat, th: Thread, env: Env)
    requires Inv(s)
    ensures var s' := MoveOf(s, tid, th, env).s;
      LostIds(s.eventLog) <= LostIds(s'.eventLog) && LostIds(s.scoreLog) <= LostIds(s'.scoreLog)
  {
    assert env.id in s.eventLog ==> Find(s.store.events, env.id).Some?;
    assert th.req.RecordScore? && th.req.scoreBody.event in s.scoreLog ==> Scored(s.store.scores, th.req.scoreBody.event);
    hide Inv, Find, Scored, MoveOf, LostIds, Advance;
    LogsAfter(s, tid, th, env);
    var p := Progress(tid, th.req.user, 0, env.write.Lost?);
    if env.id !in s.eventLog { EnteringLosesNothing(s.eventLog, env.id, p); }
    if th.pc.EventCount? { AdvancingLosesNothing(s.eventLog, th.pc.event.id); }
    if th.req.RecordScore? && th.req.scoreBody.event !in s.scoreLog {
      EnteringLosesNothing(s.scoreLog, th.req.scoreBody.event, p);
    }
    if th.pc.ScoreCount? { AdvancingLosesNothing(s.scoreLog, th.pc.score.event); }
  }

  /** No statement ever makes up for a lost insert. */
  lemma {:induction false} LostForGood(s: State, after: seq<Action>)
    requires Inv(s)
    ensures LostIds(s.eventLog) <= LostIds(Exec(s, after).eventLog)
    ensures LostIds(s.scoreLog) <= LostIds(Exec(s, after).scoreLog)
    decreases |after|
  {
    hide Inv, Next, LostIds;
    if after != [] {
      NextKeeps(s, after[0]);
      LostStaysStep(s, after[0]);
      LostForGood(Next(s, after[0]), after[1..]);
    }
  }

  /** Once something of value is lost, the counters and the tables differ at every quiescent point of every
      continuation. */
  lemma NeverAgreeAgain(s: State, after: seq<Action>)
    requires Reachable(s) && !NothingLost(s)
    ensures var s' := Exec(s, after);
      && !NothingLost(s')
      && (Quiescent(s') ==> exists series :: Value(s'.counters, series) != StoreTotal(s'.store, series))
  {
    var s' := Exec(s, after);
    StoreWellFormed(s);
    LostForGood(s, after);
    AppendOnly(s, after);
    StaysReachable(s, after);
    hide Inv, Exec, Reachable, Quiescent, LostIds, StoreTotal;
    StillLost(s, s');
    if Quiescent(s') {
      CountersAgree(s');
    }
  }

  lemma StillLost(s: State, s': State)
    requires LostIds(s.eventLog) <= LostIds(s'.eventLog) && LostIds(s.scoreLog) <= LostIds(s'.scoreLog)
    requires s.store.events <= s'.store.events && s.store.scores <= s'.store.scores && !NothingLost(s)
    ensures !NothingLost(s')
  {
    hide LostIds;
    if e :| e in s.store.events && e.id in LostIds(s.eventLog) {
      assert e in s'.store.events;
    } else {
      var x :| x in s.store.scores && x.event in LostIds(s.scoreLog) && x.composite != 0.0;
      assert x in s'.store.scores;
    }
  }

  lemma StaysReachable(s: State, after: seq<Action>)
    requires Reachable(s)
    ensures Reachable(Exec(s, after))
  {
    var start, actions :| s == Exec(Init(start), actions);
    ExecSplits(Init(start), actions, after);
    assert Exec(s, after) == Exec(Init(start), actions + after);
  }

  // ----- runs in which nothing is lost -----

  ghost predicate NoneLost(s: State) {
    && (forall id :: id in s.eventLog ==> !s.eventLog[id].lost)
    && (forall id :: id in s.scoreLog ==> !s.scoreLog[id].lost)
  }

  /** Every write of the run is either acknowledged or has no effect. */
  ghost predicate Honest(actions: seq<Action>) {
    forall a :: a in actions && a.Run? ==> !a.env.write.Lost?
  }

  lemma MoveLosesNothing(s: State, tid: nat, th: Thread, env: Env)
    requires NoneLost(s) && !env.write.Lost?
    ensures NoneLost(MoveOf(s, tid, th, env).s)
  {
    hide Increment, Add, Find, Scored, NewEvent, NewScore;
  }

  lemma {:induction false} HonestRunsLoseNothing(s: State, actions: seq<Action>)
    requires NoneLost(s) && Honest(actions)
    ensures NoneLost(Exec(s, actions))
    decreases |actions|
  {
    if actions != [] {
      var a := actions[0];
      assert NoneLost(Next(s, a)) by {
        hide MoveOf;
        if a.Run? && a.tid in s.threads {
          MoveLosesNothing(s, a.tid, s.threads[a.tid], a.env);
        }
      }
      hide Next;
      HonestRunsLoseNothing(Next(s, actions[0]), actions[1..]);
    }
  }

  /** In particular they agree after every run in which no answer of the database went missing. */
  lemma HonestRunsAgree(start: Time, actions: seq<Action>, series: Series)
    requires Honest(actions) && Quiescent(Exec(Init(start), actions))
    ensures var s := Exec(Init(start), actions); Value(s.counters, series) == StoreTotal(s.store, series)
  {
    var s := Exec(Init(start), actions);
    assert Reachable(s);
    HonestRunsLoseNothing(Init(start), actions);
    assert NothingLost(s);
    CountersAgree(s);
  }
}
