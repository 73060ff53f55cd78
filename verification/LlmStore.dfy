/**
 Recording inference events and decision scores. The two requests are threads that interleave at
 every statement reaching a table, the clock or a counter; as in `Rotation`, an action that is not
 possible leaves the state unchanged.
 */
module LlmStore {
  import opened Collections

  type Time = int
  type UserId = nat
  type SessionId = nat
  type EventId = nat

  datatype Session = Session(id: SessionId, user: UserId, model: string, created: Time)

  datatype Event = Event(
    id: EventId, session: SessionId, user: UserId, prompt: string, completion: string,
    tokensIn: int, tokensOut: int, latency: int, error: string, created: Time)
  {
    /** The status label of the event counter. */
    function Status(): string { if error != "" then "error" else "ok" }
  }

  datatype Score = Score(
    id: nat, event: EventId, correctness: real, latencyScore: real, safetyFlag: bool, costScore: real,
    userSignal: string, composite: real, created: Time)

  /** The three tables; events and scores in the order of their inserts. */
  datatype Store = Store(sessions: map<SessionId, Session>, events: seq<Event>, scores: seq<Score>)

  /** One time series of the Prometheus counters. */
  datatype Series =
    | EventsTotal(model: string, status: string)
    | TokensTotal(model: string, direction: string)
    | ScoreSum(model: string)

  type Counters = map<Series, real>

  function Value(counters: Counters, series: Series): real {
    if series in counters then counters[series] else 0.0
  }

  function Add(counters: Counters, series: Series, amount: real): Counters {
    counters[series := Value(counters, series) + amount]
  }

  datatype EventBody = EventBody(
    prompt: string, completion: string, tokensIn: int, tokensOut: int, latency: int, error: string)

  datatype ScoreBody = ScoreBody(
    event: EventId, correctness: real, latencyScore: real, safetyFlag: bool, costScore: real,
    userSignal: string, composite: real)

  datatype Request =
    | RecordEvent(user: UserId, session: SessionId, eventBody: EventBody)
    | RecordScore(user: UserId, session: SessionId, scoreBody: ScoreBody)
  {
    /** What request validation lets through. */
    predicate Valid() {
      match this
      case RecordEvent(_, _, b) =>
        0 < |b.prompt| <= 4000 && 0 <= b.tokensIn && 0 <= b.tokensOut && 0 <= b.latency
      case RecordScore(_, _, b) =>
        && 0.0 <= b.correctness <= 1.0 && 0.0 <= b.latencyScore <= 1.0 && 0.0 <= b.costScore <= 1.0
        && 0.0 <= b.composite <= 1.0 && b.userSignal in {"", "accept", "reject", "edit"}
    }
  }

  datatype Result = EventRecorded(id: EventId) | ScoreRecorded | NotFound | Forbidden | Conflict | Internal

  /** Where a request stands. `done` says how many of the three increments of an event are done. */
  datatype Pc =
    | Start
    | EventClock(session: Session)
    | EventInsert(session: Session, at: Time)
    | EventCount(session: Session, event: Event, done: nat)
    | ScoreFind(session: Session)
    | ScoreClock(session: Session)
    | ScoreInsert(session: Session, at: Time)
    | ScoreCount(session: Session, score: Score)
    | Done(result: Result)
  {
    predicate OfEvent() { EventClock? || EventInsert? || EventCount? }

    predicate OfScore() { ScoreFind? || ScoreClock? || ScoreInsert? || ScoreCount? }

    /** Between the insert and the last increment. */
    predicate Counting() { EventCount? || ScoreCount? }
  }

  datatype Thread = Thread(req: Request, pc: Pc)

  /** How far the counting of a row has come: `lost` if the insert was applied but reported as failed.
      No table stores this: it is history, recorded for the statements about the counters. */
  datatype Progress = Progress(tid: nat, author: UserId, done: nat, lost: bool)

  datatype State = State(
    now: Time,
    store: Store,
    counters: Counters,
    threads: map<nat, Thread>,
    eventLog: map<EventId, Progress>,   // history
    scoreLog: map<EventId, Progress>)   // history, by the event scored

  /** What the surroundings decide about one statement; `id` is the value of uuid.New. */
  datatype Env = Env(up: bool, write: Write, id: nat)

  datatype Action =
    | Tick(delay: nat)
    | CreateSession(id: SessionId, user: UserId, model: string)
    | Arrive(tid: nat, req: Request)
    | Run(tid: nat, env: Env)

  function Init(now: Time): State {
    State(now, Store(map[], [], []), map[], map[], map[], map[])
  }

  /** SELECT by primary key. */
  function Find(events: seq<Event>, id: EventId): (found: Option<Event>)
    ensures found.Some? ==> found.value in events && found.value.id == id
    ensures found.None? ==> forall e :: e in events ==> e.id != id
  {
    if events == [] then None
    else
      var last := events[|events| - 1];
      if last.id == id then Some(last) else Find(events[..|events| - 1], id)
  }

  predicate Scored(scores: seq<Score>, event: EventId) {
    exists s :: s in scores && s.event == event
  }

  function NewEvent(user: UserId, session: SessionId, b: EventBody, id: EventId, at: Time): Event {
    Event(id, session, user, b.prompt, b.completion, b.tokensIn, b.tokensOut, b.latency, b.error, at)
  }

  /** A flagged answer is worth nothing, whatever the client sent. */
  function NewScore(b: ScoreBody, id: nat, at: Time): Score {
    Score(id, b.event, b.correctness, b.latencyScore, b.safetyFlag, b.costScore, b.userSignal,
          if b.safetyFlag then 0.0 else b.composite, at)
  }

  function InsertEvent(s: State, tid: nat, e: Event, lost: bool): State {
    s.(store := s.store.(events := s.store.events + [e]),
       eventLog := s.eventLog[e.id := Progress(tid, e.user, 0, lost)])
  }

  function InsertScore(s: State, tid: nat, author: UserId, score: Score, lost: bool): State {
    s.(store := s.store.(scores := s.store.scores + [score]),
       scoreLog := s.scoreLog[score.event := Progress(tid, author, 0, lost)])
  }

  /** The series and the amount of increment number `done` of an event. */
  function Increment(model: string, e: Event, done: nat): (Series, real) {
    if done == 0 then (EventsTotal(model, e.Status()), 1.0)
    else if done == 1 then (TokensTotal(model, "in"), e.tokensIn as real)
    else (TokensTotal(model, "out"), e.tokensOut as real)
  }

  function Advance(log: map<EventId, Progress>, id: EventId): map<EventId, Progress> {
    if id in log then log[id := log[id].(done := log[id].done + 1)] else log
  }

  function CountEvent(s: State, model: string, e: Event, done: nat): State {
    var (series, amount) := Increment(model, e, done);
    s.(counters := Add(s.counters, series, amount), eventLog := Advance(s.eventLog, e.id))
  }

  function CountScore(s: State, model: string, score: Score): State {
    s.(counters := Add(s.counters, ScoreSum(model), score.composite), scoreLog := Advance(s.scoreLog, score.event))
  }

  datatype Move = Move(s: State, pc: Pc)

  function End(s: State, result: Result): Move { Move(s, Done(result)) }

  /** Both requests begin by reading the session and comparing its owner. */
  function Open(s: State, env: Env, req: Request): Move {
    if !env.up then End(s, Internal)
    else if req.session !in s.store.sessions then End(s, NotFound)
    else
      var session := s.store.sessions[req.session];
      if session.user != req.user then End(s, Forbidden)
      else Move(s, if req.RecordEvent? then EventClock(session) else ScoreFind(session))
  }

  function EventStep(s: State, tid: nat, env: Env, req: Request, pc: Pc): Move
    requires req.RecordEvent?
  {
    match pc
    case Start => Open(s, env, req)
    case EventClock(session) => Move(s, EventInsert(session, s.now))
    case EventInsert(session, at) =>
      if env.write.Failed? then End(s, Internal)
      else if Find(s.store.events, env.id).Some? then Move(s, pc)
      else
        var e := NewEvent(req.user, req.session, req.eventBody, env.id, at);
        var inserted := InsertEvent(s, tid, e, env.write.Lost?);
        if env.write.Applied? then Move(inserted, EventCount(session, e, 0)) else End(inserted, Internal)
    case EventCount(session, e, done) =>
      Move(CountEvent(s, session.model, e, done),
           if done < 2 then EventCount(session, e, done + 1) else Done(EventRecorded(e.id)))
    case _ => Move(s, pc)
  }

  function ScoreStep(s: State, tid: nat, env: Env, req: Request, pc: Pc): Move
    requires req.RecordScore?
  {
    match pc
    case Start => Open(s, env, req)
    case ScoreFind(session) =>
      var found := Find(s.store.events, req.scoreBody.event);
      if !env.up || found.None? || found.value.session != req.session then End(s, NotFound)
      else Move(s, ScoreClock(session))
    case ScoreClock(session) => Move(s, ScoreInsert(session, s.now))
    case ScoreInsert(session, at) =>
      if env.write.Failed? then End(s, Internal)
      else if Scored(s.store.scores, req.scoreBody.event) then
        End(s, if env.write.Applied? then Conflict else Internal)
      else
        var score := NewScore(req.scoreBody, env.id, at);
        var inserted := InsertScore(s, tid, req.user, score, env.write.Lost?);
        if env.write.Applied? then Move(inserted, ScoreCount(session, score)) else End(inserted, Internal)
    case ScoreCount(session, score) =>
      End(CountScore(s, session.model, score), ScoreRecorded)
    case _ => Move(s, pc)
  }

  function MoveOf(s: State, tid: nat, th: Thread, env: Env): Move {
    if th.req.RecordEvent? then EventStep(s, tid, env, th.req, th.pc) else ScoreStep(s, tid, env, th.req, th.pc)
  }

  function Next(s: State, a: Action): State {
    match a
    case Tick(delay) => s.(now := s.now + delay)
    case CreateSession(id, user, model) =>
      if id in s.store.sessions || model == "" then s
      else s.(store := s.store.(sessions := s.store.sessions[id := Session(id, user, model, s.now)]))
    case Arrive(tid, req) =>
      if tid in s.threads || !req.Valid() then s else s.(threads := s.threads[tid := Thread(req, Start)])
    case Run(tid, env) =>
      if tid !in s.threads then s
      else
        var move := MoveOf(s, tid, s.threads[tid], env);
        move.s.(threads := s.threads[tid := Thread(s.threads[tid].req, move.pc)])
  }

  function Exec(s: State, actions: seq<Action>): State
    decreases |actions|
  {
    if actions == [] then s else Exec(Next(s, actions[0]), actions[1..])
  }

  lemma ExecTwo(s: State, a: Action, b: Action)
    ensures Exec(s, [a, b]) == Next(Next(s, a), b)
  {
    hide Next;
    assert [a, b][1..] == [b] && [b][1..] == [];
    assert Exec(s, [a, b]) == Exec(Next(s, a), [b]) == Exec(Next(Next(s, a), b), []);
  }

  lemma ExecThree(s: State, a: Action, b: Action, c: Action)
    ensures Exec(s, [a, b, c]) == Next(Next(Next(s, a), b), c)
  {
    hide Next;
    assert [a, b, c][1..] == [b, c] && [b, c][1..] == [c] && [c][1..] == [];
    assert Exec(s, [a, b, c]) == Exec(Next(s, a), [b, c]) == Exec(Next(Next(s, a), b), [c]);
    assert Exec(Next(Next(s, a), b), [c]) == Exec(Next(Next(Next(s, a), b), c), []);
  }

  /** A run may be cut anywhere. */
  lemma {:induction false} ExecSplits(s: State, first: seq<Action>, second: seq<Action>)
    ensures Exec(s, first + second) == Exec(Exec(s, first), second)
    decreases |first|
  {
    if first == [] {
      assert first + second == second;
    } else {
      assert (first + second)[1..] == first[1..] + second;
      ExecSplits(Next(s, first[0]), first[1..], second);
    }
  }
}
