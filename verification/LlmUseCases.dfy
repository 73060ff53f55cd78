/**
 The two recording use cases as written, with other requests running between any two statements.
 Every execution is shown to be a run of the interleaving model of `LlmStore`.
 */
module LlmUseCases {
  import opened Collections
  import opened LlmStore
  import opened LlmInvariant
  import opened LlmTables
  import opened LlmOutcomes

  predicate OthersOnly(others: seq<Action>, tid: nat) {
    forall a :: a in others && a.Run? ==> a.tid != tid
  }

  lemma {:induction false} OthersLeaveThread(s: State, others: seq<Action>, tid: nat)
    requires OthersOnly(others, tid) && tid in s.threads
    ensures var s' := Exec(s, others); tid in s'.threads && s'.threads[tid] == s.threads[tid]
    decreases |others|
  {
    if others != [] {
      var s' := Next(s, others[0]);
      assert tid in s'.threads && s'.threads[tid] == s.threads[tid] by {
        hide MoveOf;
        assert others[0] in others;
      }
      hide Next;
      OthersLeaveThread(s', others[1..], tid);
    }
  }

  function ErrorResult(error: Error): Result {
    match error
    case SessionNotFound => NotFound
    case EventNotFound => NotFound
    case ScoreNotFound => NotFound
    case NotOwner => Forbidden
    case AlreadyScored => Conflict
    case Unavailable => Internal
  }

  class Service {
    const db: Database
    const sessionRepo: SessionRepository
    const eventRepo: EventRepository
    const scoreRepo: ScoreRepository
    const telemetry: Telemetry
    var now: Time
    var threads: map<nat, Thread>

    constructor (now: Time)
      ensures Valid() && View() == Init(now)
      ensures fresh(db) && fresh(telemetry)
    {
      this.now, this.threads := now, map[];
      var pool := new Database();
      db := pool;
      sessionRepo := new SessionRepository(pool);
      eventRepo := new EventRepository(pool);
      scoreRepo := new ScoreRepository(pool);
      telemetry := new Telemetry();
    }

    /** All repositories share one pool. */
    predicate Valid() {
      sessionRepo.db == db && eventRepo.db == db && scoreRepo.db == db
    }

    function View(): State
      reads this, db, telemetry
    {
      State(now, db.store, telemetry.counters, threads, db.eventLog, db.scoreLog)
    }

    /** The other requests run. */
    method Yield(tid: nat, others: seq<Action>)
      requires tid in threads && OthersOnly(others, tid)
      modifies this, db, telemetry
      ensures View() == Exec(old(View()), others)
      ensures tid in threads && threads[tid] == old(threads[tid])
    {
      var s := Exec(View(), others);
      OthersLeaveThread(View(), others, tid);
      now, threads := s.now, s.threads;
      db.store, db.eventLog, db.scoreLog := s.store, s.eventLog, s.scoreLog;
      telemetry.counters := s.counters;
    }

    /** Thread `tid` stands at `pc` of `req`, and the next statement may be disturbed by others only. */
    predicate Ready(tid: nat, req: Request, pc: Pc, turn: Turn)
      reads this
    {
      Valid() && tid in threads && threads[tid] == Thread(req, pc) && OthersOnly(turn.others, tid)
    }

    /** From state `before`, the others of `turn` ran, thread `tid` performed its statement and stands as `th`. */
    predicate Performed(before: State, turn: Turn, tid: nat, m: Moment, th: Thread)
      reads this, db, telemetry
    {
      Follows(before, turn, tid, m) && m.left == View() && tid in threads && threads[tid] == th
    }

    /** A request that passed validation arrives. */
    method Accept(tid: nat, req: Request, ghost turns: seq<Turn>) returns (ghost h: seq<Moment>)
      requires tid !in threads && req.Valid()
      modifies `threads
      ensures threads == old(threads)[tid := Thread(req, Start)]
      ensures h == [] && IsRun(old(View()), tid, req, turns, h, View())
      ensures View() == Last(Next(old(View()), Arrive(tid, req)), h)
    {
      Arrives(View(), tid, req, turns);
      threads := threads[tid := Thread(req, Start)];
      h := [];
    }

    /** Reads the session and compares its owner. */
    method OpenSession(tid: nat, req: Request, turn: Turn)
      returns (found: Option<Session>, error: Option<Result>, ghost m: Moment)
      requires Ready(tid, req, Start, turn)
      modifies this, db, telemetry
      ensures OnlyReads(m) && error == Refusal(m.met, req, turn.up)
      ensures found == if error.None? then Some(m.met.store.sessions[req.session]) else None
      ensures error == Some(Forbidden) <==>
        turn.up && req.session in db.store.sessions && db.store.sessions[req.session].user != req.user
      ensures Performed(old(View()), turn, tid, m, Thread(req,
        if error.Some? then Done(error.value) else if req.RecordEvent? then EventClock(found.value) else ScoreFind(found.value)))
    {
      Yield(tid, turn.others);
      ghost var met := View();
      var failure;
      found, failure := sessionRepo.FindByID(req.session, turn.up);
      error := None;
      if failure.Some? {
        found, error := None, Some(ErrorResult(failure.value));
      } else if found.value.user != req.user {
        found, error := None, Some(Forbidden);
      }
      threads := threads[tid := Thread(req,
        if error.Some? then Done(error.value) else if req.RecordEvent? then EventClock(found.value) else ScoreFind(found.value))];
      m := Moment(met, Run(tid, Env(turn.up, turn.write, 0)), View());
    }

    method ReadClock(tid: nat, req: Request, session: Session, turn: Turn) returns (at: Time, ghost m: Moment)
      requires Ready(tid, req, if req.RecordEvent? then EventClock(session) else ScoreClock(session), turn)
      modifies this, db, telemetry
      ensures OnlyReads(m) && at == m.met.now
      ensures Performed(old(View()), turn, tid, m,
        Thread(req, if req.RecordEvent? then EventInsert(session, at) else ScoreInsert(session, at)))
    {
      Yield(tid, turn.others);
      ghost var met := View();
      at := now;
      threads := threads[tid := Thread(req, if req.RecordEvent? then EventInsert(session, at) else ScoreInsert(session, at))];
      m := Moment(met, Run(tid, Env(turn.up, turn.write, 0)), View());
    }

    // ----- record event -----

    /** uuid.New does not repeat an id in use. */
    method NewId() returns (id: EventId)
      ensures Find(db.store.events, id).None?
    {
      ghost var used: set<nat> := set e | e in db.store.events :: e.id;
      ghost var unused := UpperBound(used);
      assert unused !in used;
      FindFresh(db.store.events, unused);
      id :| Find(db.store.events, id).None?;
    }

    method SaveEvent(tid: nat, req: Request, session: Session, at: Time, turn: Turn)
      returns (saved: Option<Event>, ghost m: Moment)
      requires req.RecordEvent? && Ready(tid, req, EventInsert(session, at), turn)
      modifies this, db, telemetry
      ensures saved.Some? <==> turn.write.Applied?
      ensures saved.Some? ==> AsRequested(saved.value, req) && InsertsEvent(m, req, saved.value.id, at)
      ensures turn.write.Lost? ==> exists id :: InsertsEvent(m, req, id, at)
      ensures turn.write.Failed? ==> OnlyReads(m)
      ensures Performed(old(View()), turn, tid, m,
        Thread(req, if saved.None? then Done(Internal) else EventCount(session, saved.value, 0)))
    {
      Yield(tid, turn.others);
      ghost var met := View();
      var id := NewId();
      ghost var env := Env(turn.up, turn.write, id);
      EventInsertSpelledOut(View(), tid, req, session, at, env);
      assert forall e :: e in met.store.events ==> e.id != id;
      hide Next, Exec, Find;
      var b := req.eventBody;
      var e := Event(id, req.session, req.user, b.prompt, b.completion, b.tokensIn, b.tokensOut, b.latency, b.error, at);
      var ok := eventRepo.Create(e, tid, turn.write);
      saved := if ok then Some(e) else None;
      threads := threads[tid := Thread(req, if saved.None? then Done(Internal) else EventCount(session, e, 0))];
      m := Moment(met, Run(tid, env), View());
      assert !turn.write.Failed? ==> InsertsEvent(m, req, id, at);
    }

    /** One of the three increments. */
    method Count(tid: nat, req: Request, session: Session, e: Event, done: nat, series: Series, amount: real,
                 turn: Turn)
      returns (ghost m: Moment)
      requires req.RecordEvent? && Ready(tid, req, EventCount(session, e, done), turn)
      requires (series, amount) == Increment(session.model, e, done)
      modifies this, db, telemetry
      ensures Increments(m, series, amount)
      ensures Performed(old(View()), turn, tid, m,
        Thread(req, if done < 2 then EventCount(session, e, done + 1) else Done(EventRecorded(e.id))))
      ensures db.store == Exec(old(View()), turn.others).store
      ensures db.eventLog == Advance(Exec(old(View()), turn.others).eventLog, e.id)
    {
      Yield(tid, turn.others);
      ghost var met := View();
      ghost var a := Run(tid, Env(turn.up, turn.write, 0));
      CountSpelledOut(View(), tid, req, session, e, done, a.env);
      hide Next, Exec, Add, Advance, Increment, Value;
      telemetry.Increase(series, amount);
      db.eventLog := Advance(db.eventLog, e.id);
      threads := threads[tid := Thread(req, if done < 2 then EventCount(session, e, done + 1) else Done(EventRecorded(e.id)))];
      m := Moment(met, a, View());
    }

    /** The last increment: the event is in the table and has now been counted to the end. */
    method CountLast(tid: nat, req: Request, session: Session, e: Event, turn: Turn) returns (ghost m: Moment)
      requires req.RecordEvent? && Ready(tid, req, EventCount(session, e, 2), turn) && Inv(View())
      modifies this, db, telemetry
      ensures Increments(m, TokensTotal(session.model, "out"), e.tokensOut as real)
      ensures Performed(old(View()), turn, tid, m, Thread(req, Done(EventRecorded(e.id))))
      ensures Find(db.store.events, e.id) == Some(e) && e.id in db.eventLog && db.eventLog[e.id] == Progress(tid, req.user, 3, false)
    {
      ghost var s := Exec(View(), turn.others);
      ExecKeeps(View(), turn.others);
      OthersLeaveThread(View(), turn.others, tid);
      assert ThreadOk(s, tid, s.threads[tid]);
      FindMember(s.store.events, e);
      hide Inv, Next, Exec, Find;
      m := Count(tid, req, session, e, 2, TokensTotal(session.model, "out"), e.tokensOut as real, turn);
    }

    /** The Prometheus part of the use case. */
    method CountAll(tid: nat, req: Request, session: Session, e: Event, turns: seq<Turn>, ghost start: State,
                    ghost before: seq<Moment>)
      returns (ghost h: seq<Moment>)
      requires req.RecordEvent? && |turns| == 6 && Ready(tid, req, EventCount(session, e, 0), turns[3])
      requires OthersOnly(turns[4].others, tid) && OthersOnly(turns[5].others, tid) && AsRequested(e, req)
      requires Inv(start) && |before| == 3 && IsRun(start, tid, req, turns, before, View()) && View() == before[2].left
      modifies this, db, telemetry
      ensures before <= h && IsRun(start, tid, req, turns, h, View()) && CountsEvent(req, session.model, h)
      ensures tid in threads && threads[tid] == Thread(req, Done(EventRecorded(e.id)))
      ensures Find(db.store.events, e.id) == Some(e) && e.id in db.eventLog && db.eventLog[e.id] == Progress(tid, req.user, 3, false)
    {
      hide Inv, Next, Exec, Find, Follows, IsRun, Increments, View;
      ghost var m;
      var status := "ok";
      if e.error != "" {
        status := "error";
      }
      m := Count(tid, req, session, e, 0, EventsTotal(session.model, status), 1.0, turns[3]);
      h := Extend(start, tid, req, turns, before, m);
      m := Count(tid, req, session, e, 1, TokensTotal(session.model, "in"), e.tokensIn as real, turns[4]);
      h := Extend(start, tid, req, turns, h, m);
      RunKeeps(start, tid, req, turns, h, View());
      m := CountLast(tid, req, session, e, turns[5]);
      h := Extend(start, tid, req, turns, h, m);
    }

    /** RecordEventUseCase.Execute, as a run of the model that answers and writes as its cases say; the event it
        reports as recorded is in the table, column by column as requested, and has been counted to the end. */
    method ExecuteRecordEvent(tid: nat, req: Request, turns: seq<Turn>) returns (res: Result, ghost h: seq<Moment>)
      requires Valid() && Inv(View()) && req.RecordEvent? && req.Valid() && tid !in threads && |turns| == 6
      requires forall i :: 0 <= i < |turns| ==> OthersOnly(turns[i].others, tid)
      modifies this, db, telemetry
      ensures IsRun(old(View()), tid, req, turns, h, View())
      ensures tid in threads && threads[tid] == Thread(req, Done(res))
      ensures EventOutcome(req, turns, h, res)
      ensures res.EventRecorded? ==>
        && Find(db.store.events, res.id).Some? && AsRequested(Find(db.store.events, res.id).value, req)
        && res.id in db.eventLog && db.eventLog[res.id] == Progress(tid, req.user, 3, false)
    {
      hide Inv, Next, Exec, Find, Follows, IsRun, OnlyReads, InsertsEvent, CountsEvent, AsRequested, View;
      ghost var start := View();
      ghost var m;
      h := Accept(tid, req, turns);

      var found, error;
      found, error, m := OpenSession(tid, req, turns[0]);
      h := Extend(start, tid, req, turns, h, m);
      if error.Some? { return error.value, h; }
      var session := found.value;

      var at;
      at, m := ReadClock(tid, req, session, turns[1]);
      h := Extend(start, tid, req, turns, h, m);
      var saved;
      saved, m := SaveEvent(tid, req, session, at, turns[2]);
      h := Extend(start, tid, req, turns, h, m);
      if saved.None? {
        assert h[2] == m && h[1].met.now == at;
        return Internal, h;
      }
      var e := saved.value;

      h := CountAll(tid, req, session, e, turns, start, h);
      res := EventRecorded(e.id);
    }

    // ----- record score -----

    /** The event must exist and belong to the session; any error of the lookup reads as not found. */
    method FindEvent(tid: nat, req: Request, session: Session, turn: Turn)
      returns (error: Option<Result>, ghost m: Moment)
      requires req.RecordScore? && Ready(tid, req, ScoreFind(session), turn)
      modifies this, db, telemetry
      ensures OnlyReads(m)
      ensures error == if turn.up && InSession(m.met.store.events, req.scoreBody.event, req.session) then None
                       else Some(NotFound)
      ensures Performed(old(View()), turn, tid, m, Thread(req, if error.Some? then Done(error.value) else ScoreClock(session)))
    {
      Yield(tid, turn.others);
      ghost var met := View();
      var found, failure := eventRepo.FindByID(req.scoreBody.event, turn.up);
      error := None;
      if failure.Some? {
        error := Some(NotFound);
      } else if found.value.session != req.session {
        error := Some(NotFound);
      }
      threads := threads[tid := Thread(req, if error.Some? then Done(error.value) else ScoreClock(session))];
      m := Moment(met, Run(tid, Env(turn.up, turn.write, 0)), View());
    }

    /** The table holds the score as requested, with the composite the server decides on. */
    predicate SavedScore(req: Request, id: nat)
      requires req.RecordScore?
      reads db
    {
      exists i :: 0 <= i < |db.store.scores| && db.store.scores[i] == ScoreRow(req, id, db.store.scores[i].created)
    }

    method SaveScore(tid: nat, req: Request, session: Session, at: Time, composite: real, id: nat, turn: Turn)
      returns (error: Option<Result>, ghost score: Score, ghost m: Moment)
      requires req.RecordScore? && Ready(tid, req, ScoreInsert(session, at), turn)
      requires composite == if req.scoreBody.safetyFlag then 0.0 else req.scoreBody.composite
      modifies this, db, telemetry
      ensures score == ScoreRow(req, id, at)
      ensures var store := m.met.store; var dup := exists x :: x in store.scores && x.event == req.scoreBody.event;
        && error == (if !turn.write.Applied? then Some(Internal) else if dup then Some(Conflict) else None)
        && if turn.write.Failed? || dup then OnlyReads(m) else Leaves(m, store.(scores := store.scores + [score]))
      ensures error.None? ==> SavedScore(req, id)
      ensures Performed(old(View()), turn, tid, m, Thread(req, if error.Some? then Done(error.value) else ScoreCount(session, score)))
    {
      Yield(tid, turn.others);
      ghost var met := View();
      var b := req.scoreBody;
      var x := Score(id, b.event, b.correctness, b.latencyScore, b.safetyFlag, b.costScore, b.userSignal, composite, at);
      score := x;
      ghost var env := Env(turn.up, turn.write, id);
      ScoreInsertSpelledOut(View(), tid, req, session, at, env);
      hide Next, Exec;
      var failure := scoreRepo.Create(x, tid, req.user, turn.write);
      error := if failure.Some? then Some(ErrorResult(failure.value)) else None;
      assert error.None? ==> db.store.scores[|db.store.scores| - 1] == x;
      threads := threads[tid := Thread(req, if error.Some? then Done(error.value) else ScoreCount(session, x))];
      m := Moment(met, Run(tid, env), View());
    }

    method AddComposite(tid: nat, req: Request, session: Session, ghost score: Score, composite: real, id: nat,
                        turn: Turn)
      returns (ghost m: Moment)
      requires req.RecordScore? && Ready(tid, req, ScoreCount(session, score), turn)
      requires score.event == req.scoreBody.event && score.composite == composite && SavedScore(req, id)
      modifies this, db, telemetry
      ensures Increments(m, ScoreSum(session.model), composite)
      ensures Performed(old(View()), turn, tid, m, Thread(req, Done(ScoreRecorded)))
      ensures SavedScore(req, id)
    {
      ghost var i :| 0 <= i < |db.store.scores| && db.store.scores[i] == ScoreRow(req, id, db.store.scores[i].created);
      ghost var x := db.store.scores[i];
      AppendOnly(View(), turn.others);
      assert Exec(View(), turn.others).store.scores[i] == x;
      Yield(tid, turn.others);
      ghost var met := View();
      telemetry.Increase(ScoreSum(session.model), composite);
      db.scoreLog := Advance(db.scoreLog, req.scoreBody.event);
      threads := threads[tid := Thread(req, Done(ScoreRecorded))];
      m := Moment(met, Run(tid, Env(turn.up, turn.write, 0)), View());
      assert db.store.scores[i] == x && x == ScoreRow(req, id, x.created);
    }

    /** RecordScoreUseCase.Execute, as a run of the model that answers and writes as its cases say. */
    method ExecuteRecordScore(tid: nat, req: Request, id: nat, turns: seq<Turn>)
      returns (res: Result, ghost h: seq<Moment>)
      requires Valid() && req.RecordScore? && req.Valid() && tid !in threads && |turns| == 5
      requires forall i :: 0 <= i < |turns| ==> OthersOnly(turns[i].others, tid)
      modifies this, db, telemetry
      ensures IsRun(old(View()), tid, req, turns, h, View())
      ensures tid in threads && threads[tid] == Thread(req, Done(res))
      ensures ScoreOutcome(req, id, turns, h, res)
      ensures res.ScoreRecorded? ==> SavedScore(req, id)
    {
      hide Next, Exec, SavedScore, Follows, IsRun, OnlyReads, ScoredOutcome, InSession, View;
      ghost var start := View();
      ghost var m;
      h := Accept(tid, req, turns);

      var found, error;
      found, error, m := OpenSession(tid, req, turns[0]);
      h := Extend(start, tid, req, turns, h, m);
      if error.Some? { return error.value, h; }
      var session := found.value;
      error, m := FindEvent(tid, req, session, turns[1]);
      h := Extend(start, tid, req, turns, h, m);
      if error.Some? { return error.value, h; }

      res, h := Insert(tid, req, session, id, turns, start, h);
    }

    /** The use case from the composite on. */
    method Insert(tid: nat, req: Request, session: Session, id: nat, turns: seq<Turn>, ghost start: State,
                  ghost before: seq<Moment>)
      returns (res: Result, ghost h: seq<Moment>)
      requires req.RecordScore? && |turns| == 5 && Ready(tid, req, ScoreClock(session), turns[2])
      requires |before| == 2 && IsRun(start, tid, req, turns, before, View()) && View() == before[1].left
      requires OthersOnly(turns[3].others, tid) && OthersOnly(turns[4].others, tid)
      modifies this, db, telemetry
      ensures before <= h && IsRun(start, tid, req, turns, h, View())
      ensures tid in threads && threads[tid] == Thread(req, Done(res))
      ensures ScoredOutcome(req, id, session.model, turns, h, res)
      ensures res.ScoreRecorded? ==> SavedScore(req, id)
    {
      hide Next, Exec, SavedScore, Follows, IsRun, OnlyReads, Leaves, Increments, View;
      ghost var m;
      var composite := req.scoreBody.composite;
      if req.scoreBody.safetyFlag {
        composite := 0.0;
      }
      var at;
      at, m := ReadClock(tid, req, session, turns[2]);
      h := Extend(start, tid, req, turns, before, m);
      ghost var score;
      var error;
      error, score, m := SaveScore(tid, req, session, at, composite, id, turns[3]);
      h := Extend(start, tid, req, turns, h, m);
      if error.Some? { return error.value, h; }
      m := AddComposite(tid, req, session, score, composite, id, turns[4]);
      h := Extend(start, tid, req, turns, h, m);
      res := ScoreRecorded;
    }
  }

  /** The insert of an event, spelled out as its effect on the tables. */
  lemma EventInsertSpelledOut(s: State, tid: nat, req: Request, session: Session, at: Time, env: Env)
    requires req.RecordEvent? && tid in s.threads && s.threads[tid] == Thread(req, EventInsert(session, at))
    requires Find(s.store.events, env.id).None?
    ensures var e := NewEvent(req.user, req.session, req.eventBody, env.id, at);
      var pc := if env.write.Applied? then EventCount(session, e, 0) else Done(Internal);
      var threads' := s.threads[tid := Thread(req, pc)];
      Next(s, Run(tid, env)) ==
        if env.write.Failed? then s.(threads := threads')
        else s.(store := s.store.(events := s.store.events + [e]),
                eventLog := s.eventLog[env.id := Progress(tid, req.user, 0, env.write.Lost?)], threads := threads')
  {
    hide Find;
  }

  /** An increment, spelled out likewise. */
  lemma CountSpelledOut(s: State, tid: nat, req: Request, session: Session, e: Event, done: nat, env: Env)
    requires req.RecordEvent? && tid in s.threads && s.threads[tid] == Thread(req, EventCount(session, e, done))
    ensures var (series, amount) := Increment(session.model, e, done);
      var pc := if done < 2 then EventCount(session, e, done + 1) else Done(EventRecorded(e.id));
      Next(s, Run(tid, env)) ==
        s.(counters := Add(s.counters, series, amount), eventLog := Advance(s.eventLog, e.id),
           threads := s.threads[tid := Thread(req, pc)])
  {
    hide Add, Advance, Increment;
  }

  lemma ScoreInsertSpelledOut(s: State, tid: nat, req: Request, session: Session, at: Time, env: Env)
    requires req.RecordScore? && tid in s.threads && s.threads[tid] == Thread(req, ScoreInsert(session, at))
    ensures var x := NewScore(req.scoreBody, env.id, at);
      var dup := Scored(s.store.scores, req.scoreBody.event);
      var pc := if env.write.Applied? then (if dup then Done(Conflict) else ScoreCount(session, x)) else Done(Internal);
      var threads' := s.threads[tid := Thread(req, pc)];
      Next(s, Run(tid, env)) ==
        if env.write.Failed? || dup then s.(threads := threads')
        else s.(store := s.store.(scores := s.store.scores + [x]),
                scoreLog := s.scoreLog[x.event := Progress(tid, req.user, 0, env.write.Lost?)], threads := threads')
  {
    hide Scored;
  }
}
