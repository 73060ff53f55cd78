/** Runs showing where the report and the counters part from the tables. */
module RecordingLimits {
  import opened Collections
  import opened LlmStore
  import opened LlmInvariant
  import opened CounterShadow
  import opened Aggregates
  import opened Reports
  import opened ReportLaws
  import opened MonitoringRepository
  import opened MonitoringShadow

  function Answer(): Request {
    RecordEvent(1, 1, EventBody("prompt", "completion", 3, 5, 7, ""))
  }

  function Recorded(): Event { NewEvent(1, 1, Answer().eventBody, 9, 0) }

  function Step(write: Write): Action { Run(0, Env(true, write, 9)) }

  /** A user opens a session and records an event at the same instant; the insert ends as `write`. */
  function RecordOne(write: Write): seq<Action> {
    [CreateSession(1, 1, "model"), Arrive(0, Answer()), Step(Applied)] + [Step(Applied), Step(write)]
  }

  lemma SessionIsOpen()
    ensures var s := Exec(Init(0), [CreateSession(1, 1, "model"), Arrive(0, Answer()), Step(Applied)]);
      var session := Session(1, 1, "model", 0);
      s == Init(0).(store := Store(map[1 := session], [], []), threads := map[0 := Thread(Answer(), EventClock(session))])
  {
    ExecThree(Init(0), CreateSession(1, 1, "model"), Arrive(0, Answer()), Step(Applied));
  }

  lemma EventIsInserted(s: State, session: Session, write: Write)
    requires s == Init(0).(store := Store(map[1 := session], [], []), threads := map[0 := Thread(Answer(), EventClock(session))])
    requires !write.Failed?
    ensures var s' := Next(Next(s, Step(Applied)), Step(write));
      && s'.now == 0 && s'.store.events == [Recorded()] && s'.store.scores == []
      && s'.eventLog == map[9 := Progress(0, 1, 0, write.Lost?)]
      && (write.Lost? ==> s'.threads == map[0 := Thread(Answer(), Done(Internal))])
  {
    assert Find([], 9).None?;
  }

  lemma AfterInsert(write: Write)
    requires !write.Failed?
    ensures var s := Exec(Init(0), RecordOne(write));
      && Reachable(s) && s.now == 0 && s.store.events == [Recorded()] && s.store.scores == []
      && s.eventLog == map[9 := Progress(0, 1, 0, write.Lost?)]
      && (write.Lost? ==> s.threads == map[0 := Thread(Answer(), Done(Internal))])
  {
    var first, rest := RecordOne(write)[..3], [Step(Applied), Step(write)];
    assert first == [CreateSession(1, 1, "model"), Arrive(0, Answer()), Step(Applied)];
    assert RecordOne(write) == first + rest;
    hide Next;
    SessionIsOpen();
    ExecSplits(Init(0), first, rest);
    ExecTwo(Exec(Init(0), first), rest[0], rest[1]);
    EventIsInserted(Exec(Init(0), first), Session(1, 1, "model", 0), write);
  }

  /** A report over all time, asked for at the instant at which the only event was recorded, is empty. */
  lemma AllTimeReportIsEmpty()
    ensures var s := Exec(Init(0), RecordOne(Applied));
      && |s.store.events| == 1
      && TotalsOf(SelectEvents(s.store, MonitoringFilter(None, None, "").WindowAt(s.now), "")).events == 0
  {
    var s := Exec(Init(0), RecordOne(Applied));
    AfterInsert(Applied);
    hide Exec;
    AllTimeAtOnce(s);
    OneEventNow(s.now);
  }

  /** A report over all time that reads the clock at -1 and queries after the event was recorded at 0 misses
      it, although no event bears the instant of the reading. */
  lemma LaterEventIsMissed()
    ensures var early := Init(-1); var s := Exec(early, [Tick(1)] + RecordOne(Applied));
      && |s.store.events| == 1 && (forall e :: e in s.store.events ==> e.created != early.now)
      && TotalsOf(SelectEvents(s.store, MonitoringFilter(None, None, "").WindowAt(early.now), "")).events == 0
  {
    var actions := [Tick(1)] + RecordOne(Applied);
    assert actions[1..] == RecordOne(Applied);
    assert Exec(Init(-1), actions) == Exec(Init(0), RecordOne(Applied));
    AfterInsert(Applied);
    hide Exec;
    var store := Exec(Init(-1), actions).store;
    StoreWellFormed(Exec(Init(-1), actions));
    AllTimeCounts(store, -1);
    NoneBefore();
  }

  lemma NoneBefore()
    ensures Filter([Recorded()], InWindow(Window(None, -1))) == []
  {
    assert [Recorded()][..0] == [];
  }

  lemma OneEventNow(now: Time)
    requires now == 0
    ensures Filter([Recorded()], NotAt(now)) == []
  {
    assert [Recorded()][..0] == [];
  }

  lemma OneLost(s: State)
    requires s.store.events == [Recorded()] && s.eventLog == map[9 := Progress(0, 1, 0, true)]
    requires s.threads == map[0 := Thread(Answer(), Done(Internal))]
    ensures Quiescent(s) && !NothingLost(s)
  {
    assert s.store.events[0] in s.store.events && Recorded().id in LostIds(s.eventLog);
  }

  /** An insert that is applied but reported as failed leaves the counters behind for good. */
  lemma LostInsertIsNeverCounted(after: seq<Action>)
    ensures var s := Exec(Init(0), RecordOne(Lost));
      Reachable(s) && Quiescent(s) && exists series :: Value(s.counters, series) != StoreTotal(s.store, series)
    ensures var later := Exec(Exec(Init(0), RecordOne(Lost)), after);
      Quiescent(later) ==> exists series :: Value(later.counters, series) != StoreTotal(later.store, series)
  {
    var s := Exec(Init(0), RecordOne(Lost));
    AfterInsert(Lost);
    OneLost(s);
    hide Exec, Reachable, Quiescent, NothingLost, StoreTotal, RecordOne;
    CountersAgree(s);
    NeverAgreeAgain(s, after);
  }
}
