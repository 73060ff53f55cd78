/**
 What every interleaving of the two requests keeps: the tables stay consistent with each other
 although no foreign check is made again at the insert, and every row that has not been counted to
 the end is either lost or in the hands of the request that inserted it.
 */
module LlmInvariant {
  import opened Collections
  import opened LlmStore

  predicate InUnit(x: real) { 0.0 <= x <= 1.0 }

  ghost predicate SessionsOk(sessions: map<SessionId, Session>) {
    forall id {:trigger sessions[id]} :: id in sessions ==> sessions[id].id == id && sessions[id].model != ""
  }

  ghost predicate UniqueIds(events: seq<Event>) {
    forall i, j :: 0 <= i < j < |events| ==> events[i].id != events[j].id
  }

  ghost predicate OnePerEvent(scores: seq<Score>) {
    forall i, j :: 0 <= i < j < |scores| ==> scores[i].event != scores[j].event
  }

  /** An event belongs to the owner of its session. */
  predicate EventOk(sessions: map<SessionId, Session>, e: Event) {
    && e.session in sessions && e.user == sessions[e.session].user
    && 0 <= e.tokensIn && 0 <= e.tokensOut && 0 <= e.latency
  }

  /** A score refers to an event, and a flagged answer is worth nothing. */
  predicate ScoreOk(events: seq<Event>, score: Score) {
    && Find(events, score.event).Some?
    && InUnit(score.correctness) && InUnit(score.latencyScore) && InUnit(score.costScore) && InUnit(score.composite)
    && (score.safetyFlag ==> score.composite == 0.0)
  }

  ghost predicate EventsOk(sessions: map<SessionId, Session>, events: seq<Event>) {
    UniqueIds(events) && forall e {:trigger EventOk(sessions, e)} :: e in events ==> EventOk(sessions, e)
  }

  ghost predicate ScoresOk(events: seq<Event>, scores: seq<Score>) {
    OnePerEvent(scores) && forall x {:trigger ScoreOk(events, x)} :: x in scores ==> ScoreOk(events, x)
  }

  ghost predicate WellFormed(store: Store) {
    SessionsOk(store.sessions) && EventsOk(store.sessions, store.events) && ScoresOk(store.events, store.scores)
  }

  /** The owner of the session that a scored event belongs to. */
  function OwnerOf(store: Store, event: EventId): Option<UserId> {
    var found := Find(store.events, event);
    if found.Some? && found.value.session in store.sessions then Some(store.sessions[found.value.session].user)
    else None
  }

  predicate HoldsEvent(threads: map<nat, Thread>, tid: nat, e: Event, done: nat) {
    tid in threads && threads[tid].pc.EventCount? && threads[tid].pc.event == e && threads[tid].pc.done == done
  }

  predicate HoldsScore(threads: map<nat, Thread>, tid: nat, score: Score) {
    tid in threads && threads[tid].pc.ScoreCount? && threads[tid].pc.score == score
  }

  /** Counted to the end, lost, or being counted by the request that inserted it. */
  predicate EventTraced(log: map<EventId, Progress>, threads: map<nat, Thread>, e: Event) {
    e.id in log
    && var p := log[e.id];
       p.done <= 3 && (p.lost ==> p.done == 0) && (!p.lost && p.done < 3 ==> HoldsEvent(threads, p.tid, e, p.done))
  }

  predicate ScoreTraced(log: map<EventId, Progress>, threads: map<nat, Thread>, score: Score) {
    score.event in log
    && var p := log[score.event];
       p.done <= 1 && (p.lost ==> p.done == 0) && (!p.lost && p.done < 1 ==> HoldsScore(threads, p.tid, score))
  }

  ghost predicate EventLogOk(events: seq<Event>, log: map<EventId, Progress>, threads: map<nat, Thread>) {
    && (forall e {:trigger EventTraced(log, threads, e)} :: e in events ==> EventTraced(log, threads, e))
    && (forall id :: id in log ==> Find(events, id).Some?)
  }

  ghost predicate ScoreLogOk(scores: seq<Score>, log: map<EventId, Progress>, threads: map<nat, Thread>) {
    && (forall x {:trigger ScoreTraced(log, threads, x)} :: x in scores ==> ScoreTraced(log, threads, x))
    && (forall id :: id in log ==> Scored(scores, id))
  }

  /** Only the owner of an event's session has scored it. */
  ghost predicate ScorersOk(store: Store, log: map<EventId, Progress>) {
    forall id {:trigger log[id]} :: id in log ==> OwnerOf(store, id) == Some(log[id].author)
  }

  /** Every request holds the session it checked, and what it holds of a row is in the tables. */
  predicate ThreadOk(s: State, tid: nat, th: Thread) {
    var pc := th.pc;
    && th.req.Valid()
    && (pc.OfEvent() ==> th.req.RecordEvent?) && (pc.OfScore() ==> th.req.RecordScore?)
    && (pc.OfEvent() || pc.OfScore() ==>
        th.req.session in s.store.sessions && s.store.sessions[th.req.session] == pc.session
        && pc.session.user == th.req.user)
    && (pc.EventInsert? ==> pc.at <= s.now)
    && (pc.EventCount? ==>
        pc.event in s.store.events && pc.event.session == th.req.session && pc.done < 3
        && pc.event.id in s.eventLog && s.eventLog[pc.event.id] == Progress(tid, th.req.user, pc.done, false))
    && (pc.ScoreClock? || pc.ScoreInsert? ==> InSession(s.store.events, th.req.scoreBody.event, th.req.session))
    && (pc.ScoreCount? ==>
        pc.score in s.store.scores && InSession(s.store.events, pc.score.event, th.req.session)
        && pc.score.event in s.scoreLog && s.scoreLog[pc.score.event] == Progress(tid, th.req.user, 0, false))
  }

  predicate InSession(events: seq<Event>, event: EventId, session: SessionId) {
    Find(events, event).Some? && Find(events, event).value.session == session
  }

  ghost predicate ThreadsOk(s: State) {
    forall tid {:trigger s.threads[tid]} :: tid in s.threads ==> ThreadOk(s, tid, s.threads[tid])
  }

  ghost predicate Inv(s: State) {
    && WellFormed(s.store) && ThreadsOk(s)
    && EventLogOk(s.store.events, s.eventLog, s.threads)
    && ScoreLogOk(s.store.scores, s.scoreLog, s.threads) && ScorersOk(s.store, s.scoreLog)
    && forall e :: e in s.store.events ==> e.created <= s.now
  }

  /** What a step of `mover` leaves alone: rows stay, and so do the logs of rows others count. */
  ghost predicate Kept(s: State, s': State, mover: nat) {
    && s.now <= s'.now
    && (forall id :: id in s.store.sessions ==> id in s'.store.sessions && s'.store.sessions[id] == s.store.sessions[id])
    && (forall e :: e in s.store.events ==> e in s'.store.events)
    && (forall x :: x in s.store.scores ==> x in s'.store.scores)
    && (forall id {:trigger Find(s'.store.events, id)} :: Find(s.store.events, id).Some? ==>
        Find(s'.store.events, id) == Find(s.store.events, id))
    && (forall id :: id in s.eventLog && s.eventLog[id].tid != mover ==>
        id in s'.eventLog && s'.eventLog[id] == s.eventLog[id])
    && (forall id :: id in s.scoreLog && s.scoreLog[id].tid != mover ==>
        id in s'.scoreLog && s'.scoreLog[id] == s.scoreLog[id])
  }

  lemma OthersKept(s: State, s': State, mover: nat)
    requires ThreadsOk(s) && Kept(s, s', mover)
    requires forall tid :: tid in s'.threads && tid != mover ==> tid in s.threads && s'.threads[tid] == s.threads[tid]
    requires mover in s'.threads ==> ThreadOk(s', mover, s'.threads[mover])
    ensures ThreadsOk(s')
  {
    forall tid | tid in s'.threads ensures ThreadOk(s', tid, s'.threads[tid]) {
      if tid != mover {
        assert ThreadOk(s, tid, s.threads[tid]);
      }
    }
  }

  /** Appending a row with a new id changes no lookup of an old one. */
  lemma FindAppended(events: seq<Event>, e: Event, id: EventId)
    ensures Find(events + [e], id) == if e.id == id then Some(e) else Find(events, id)
  {
    assert (events + [e])[..|events + [e]| - 1] == events;
  }

  lemma {:induction false} FindFresh(events: seq<Event>, id: EventId)
    requires forall i :: 0 <= i < |events| ==> events[i].id != id
    ensures Find(events, id).None?
  {
    if events != [] {
      FindFresh(events[..|events| - 1], id);
    }
  }

  lemma {:induction false} FindMember(events: seq<Event>, e: Event)
    requires UniqueIds(events) && e in events
    ensures Find(events, e.id) == Some(e)
  {
    var rest := events[..|events| - 1];
    if events[|events| - 1] != e {
      assert e in rest && rest + [events[|events| - 1]] == events;
      FindMember(rest, e);
    }
  }

  // ----- the steps -----

  /** State `mid`, reached by a statement of request `tid` in `s`, with that request moved on to `pc`. */
  function Moved(s: State, mid: State, tid: nat, pc: Pc): State
    requires tid in s.threads
  {
    mid.(threads := s.threads[tid := Thread(s.threads[tid].req, pc)])
  }

  /** The mover stands well after its statement, and the others do not notice it. */
  lemma MovedThreads(s: State, mid: State, tid: nat, pc: Pc)
    requires ThreadsOk(s) && tid in s.threads && Kept(s, mid, tid)
    requires ThreadOk(mid, tid, Thread(s.threads[tid].req, pc))
    ensures ThreadsOk(Moved(s, mid, tid, pc))
  {
    var s' := Moved(s, mid, tid, pc);
    forall t | t in s'.threads ensures ThreadOk(s', t, s'.threads[t]) {
      if t != tid {
        assert ThreadOk(s, t, s.threads[t]);
      }
    }
  }

  /** A request that holds no event may move freely, as far as the events' log is concerned. */
  lemma EventLogUntouched(events: seq<Event>, log: map<EventId, Progress>, threads: map<nat, Thread>, tid: nat,
                          th: Thread)
    requires EventLogOk(events, log, threads) && (tid in threads ==> !threads[tid].pc.EventCount?)
    ensures EventLogOk(events, log, threads[tid := th])
  {
    forall e | e in events ensures EventTraced(log, threads[tid := th], e) {
      assert EventTraced(log, threads, e);
    }
  }

  lemma ScoreLogUntouched(scores: seq<Score>, log: map<EventId, Progress>, threads: map<nat, Thread>, tid: nat,
                          th: Thread)
    requires ScoreLogOk(scores, log, threads) && (tid in threads ==> !threads[tid].pc.ScoreCount?)
    ensures ScoreLogOk(scores, log, threads[tid := th])
  {
    forall x | x in scores ensures ScoreTraced(log, threads[tid := th], x) {
      assert ScoreTraced(log, threads, x);
    }
  }

  lemma ScorersKept(s: State, s': State, mover: nat)
    requires ScorersOk(s.store, s.scoreLog) && Kept(s, s', mover) && s'.scoreLog == s.scoreLog
    ensures ScorersOk(s'.store, s'.scoreLog)
  {
    forall id | id in s'.scoreLog ensures OwnerOf(s'.store, id) == Some(s'.scoreLog[id].author) {
      assert OwnerOf(s.store, id) == Some(s.scoreLog[id].author);
    }
  }

  lemma EventsGrow(sessions: map<SessionId, Session>, events: seq<Event>, e: Event)
    requires EventsOk(sessions, events) && Find(events, e.id).None? && EventOk(sessions, e)
    ensures EventsOk(sessions, events + [e]) && e in events + [e]
  {
    hide EventOk;
    assert (events + [e])[|events|] == e;
    forall i, j | 0 <= i < j < |events + [e]| ensures (events + [e])[i].id != (events + [e])[j].id {
      assert events[i] in events;
    }
    forall x | x in events + [e] ensures EventOk(sessions, x) {
      assert x != e ==> x in events;
    }
  }

  lemma ScoresStay(events: seq<Event>, e: Event, scores: seq<Score>)
    requires ScoresOk(events, scores) && Find(events, e.id).None?
    ensures ScoresOk(events + [e], scores)
  {
    forall x | x in scores ensures ScoreOk(events + [e], x) {
      assert ScoreOk(events, x);
      FindAppended(events, e, x.event);
    }
  }

  lemma EventAppended(s: State, tid: nat, e: Event, lost: bool)
    requires Find(s.store.events, e.id).None?
    requires forall id :: id in s.eventLog ==> Find(s.store.events, id).Some?
    ensures Kept(s, InsertEvent(s, tid, e, lost), tid)
  {
    forall id ensures Find(s.store.events + [e], id) == if e.id == id then Some(e) else Find(s.store.events, id) {
      FindAppended(s.store.events, e, id);
    }
    hide Find;
  }

  lemma EventLogAppended(events: seq<Event>, log: map<EventId, Progress>, threads: map<nat, Thread>,
                         tid: nat, e: Event, lost: bool, th: Thread)
    requires EventLogOk(events, log, threads) && Find(events, e.id).None?
    requires tid in threads && !threads[tid].pc.EventCount?
    requires !lost ==> th.pc.EventCount? && th.pc.event == e && th.pc.done == 0
    ensures EventLogOk(events + [e], log[e.id := Progress(tid, e.user, 0, lost)], threads[tid := th])
  {
    var log', threads' := log[e.id := Progress(tid, e.user, 0, lost)], threads[tid := th];
    forall x | x in events + [e] ensures EventTraced(log', threads', x) {
      assert x != e ==> x in events && EventTraced(log, threads, x);
    }
    forall id | id in log' ensures Find(events + [e], id).Some? {
      FindAppended(events, e, id);
    }
  }

  lemma EventInsertMoves(s: State, tid: nat, req: Request, at: Time, session: Session, e: Event, lost: bool)
    requires req.RecordEvent? && ThreadOk(s, tid, Thread(req, EventInsert(session, at)))
    requires e == NewEvent(req.user, req.session, req.eventBody, e.id, at)
    ensures EventOk(s.store.sessions, e) && e.created <= s.now
    ensures var mid := InsertEvent(s, tid, e, lost);
      ThreadOk(mid, tid, Thread(req, if lost then Done(Internal) else EventCount(session, e, 0)))
  {
    assert e in s.store.events + [e] by {
      assert (s.store.events + [e])[|s.store.events|] == e;
    }
    hide Find;
  }

  lemma EventInsertKeeps(s: State, tid: nat, e: Event, lost: bool, pc: Pc)
    requires Inv(s) && tid in s.threads && s.threads[tid].req.RecordEvent? && s.threads[tid].pc.EventInsert?
    requires Find(s.store.events, e.id).None?
    requires var req, at := s.threads[tid].req, s.threads[tid].pc.at;
      e == NewEvent(req.user, req.session, req.eventBody, e.id, at)
    requires pc == if lost then Done(Internal) else EventCount(s.threads[tid].pc.session, e, 0)
    ensures Inv(Moved(s, InsertEvent(s, tid, e, lost), tid, pc))
  {
    var th := Thread(s.threads[tid].req, pc);
    assert ThreadOk(s, tid, s.threads[tid]);
    EventInsertMoves(s, tid, s.threads[tid].req, s.threads[tid].pc.at, s.threads[tid].pc.session, e, lost);
    hide ThreadOk, EventOk, NewEvent, Kept, ThreadsOk, SessionsOk, EventsOk, ScoresOk, Scored, ScorersOk;
    EventAppended(s, tid, e, lost);
    EventsGrow(s.store.sessions, s.store.events, e);
    ScoresStay(s.store.events, e, s.store.scores);
    EventLogAppended(s.store.events, s.eventLog, s.threads, tid, e, lost, th);
    ScoreLogUntouched(s.store.scores, s.scoreLog, s.threads, tid, th);
    hide EventLogOk, ScoreLogOk, Find;
    ScorersKept(s, InsertEvent(s, tid, e, lost), tid);
    MovedThreads(s, InsertEvent(s, tid, e, lost), tid, pc);
  }

  lemma ScoreLogAppended(scores: seq<Score>, log: map<EventId, Progress>, threads: map<nat, Thread>,
                         tid: nat, author: UserId, score: Score, lost: bool, th: Thread)
    requires ScoreLogOk(scores, log, threads) && !Scored(scores, score.event)
    requires tid in threads && !threads[tid].pc.ScoreCount?
    requires !lost ==> th.pc.ScoreCount? && th.pc.score == score
    ensures ScoreLogOk(scores + [score], log[score.event := Progress(tid, author, 0, lost)], threads[tid := th])
  {
    var log', threads' := log[score.event := Progress(tid, author, 0, lost)], threads[tid := th];
    forall x | x in scores + [score] ensures ScoreTraced(log', threads', x) {
      assert x != score ==> x in scores && ScoreTraced(log, threads, x);
    }
    forall id | id in log' ensures Scored(scores + [score], id) {
      assert score in scores + [score];
      assert id != score.event ==> Scored(scores, id);
    }
  }

  lemma ScoreAppended(s: State, tid: nat, author: UserId, score: Score, lost: bool)
    requires !Scored(s.store.scores, score.event) && WellFormed(s.store) && ScoreOk(s.store.events, score)
    requires forall id :: id in s.scoreLog ==> Scored(s.store.scores, id)
    requires ScorersOk(s.store, s.scoreLog) && OwnerOf(s.store, score.event) == Some(author)
    ensures var s' := InsertScore(s, tid, author, score, lost);
      && Kept(s, s', tid) && WellFormed(s'.store) && score in s'.store.scores && ScorersOk(s'.store, s'.scoreLog)
  {
    hide ScoreOk;
    var s' := InsertScore(s, tid, author, score, lost);
    assert s'.store.scores[|s.store.scores|] == score;
    forall id | id in s'.scoreLog ensures OwnerOf(s'.store, id) == Some(s'.scoreLog[id].author) {
      assert OwnerOf(s'.store, id) == OwnerOf(s.store, id);
    }
  }

  lemma ScoreInsertMoves(s: State, tid: nat, req: Request, at: Time, session: Session, score: Score, lost: bool)
    requires req.RecordScore? && ThreadOk(s, tid, Thread(req, ScoreInsert(session, at)))
    requires score == NewScore(req.scoreBody, score.id, at)
    ensures ScoreOk(s.store.events, score) && OwnerOf(s.store, score.event) == Some(req.user)
    ensures var mid := InsertScore(s, tid, req.user, score, lost);
      ThreadOk(mid, tid, Thread(req, if lost then Done(Internal) else ScoreCount(session, score)))
  {
    assert score in s.store.scores + [score] by {
      assert (s.store.scores + [score])[|s.store.scores|] == score;
    }
    hide Find;
  }

  lemma ScoreInsertKeeps(s: State, tid: nat, score: Score, lost: bool, pc: Pc)
    requires Inv(s) && tid in s.threads && s.threads[tid].req.RecordScore? && s.threads[tid].pc.ScoreInsert?
    requires !Scored(s.store.scores, score.event)
    requires score == NewScore(s.threads[tid].req.scoreBody, score.id, s.threads[tid].pc.at)
    requires pc == if lost then Done(Internal) else ScoreCount(s.threads[tid].pc.session, score)
    ensures Inv(Moved(s, InsertScore(s, tid, s.threads[tid].req.user, score, lost), tid, pc))
  {
    var req := s.threads[tid].req;
    var th := Thread(req, pc);
    assert ThreadOk(s, tid, s.threads[tid]);
    ScoreInsertMoves(s, tid, req, s.threads[tid].pc.at, s.threads[tid].pc.session, score, lost);
    hide ThreadOk, ScoreOk, OwnerOf, Find, NewScore, Kept, ThreadsOk, WellFormed, ScorersOk;
    ScoreLogAppended(s.store.scores, s.scoreLog, s.threads, tid, req.user, score, lost, th);
    EventLogUntouched(s.store.events, s.eventLog, s.threads, tid, th);
    ScoreAppended(s, tid, req.user, score, lost);
    hide EventLogOk, ScoreLogOk, Scored;
    MovedThreads(s, InsertScore(s, tid, req.user, score, lost), tid, pc);
  }

  lemma EventLogAdvanced(events: seq<Event>, log: map<EventId, Progress>, threads: map<nat, Thread>, tid: nat,
                         e: Event, th: Thread)
    requires EventLogOk(events, log, threads) && UniqueIds(events) && e in events && e.id in log
    requires log[e.id].tid == tid && !log[e.id].lost && log[e.id].done < 3 && HoldsEvent(threads, tid, e, log[e.id].done)
    requires if log[e.id].done < 2 then th.pc.EventCount? && th.pc.event == e && th.pc.done == log[e.id].done + 1
             else !th.pc.EventCount?
    ensures EventLogOk(events, Advance(log, e.id), threads[tid := th])
  {
    forall x | x in events ensures EventTraced(Advance(log, e.id), threads[tid := th], x) {
      assert EventTraced(log, threads, x);
      if x.id == e.id {
        FindMember(events, x);
        FindMember(events, e);
      }
    }
  }

  function AfterCount(pc: Pc): Pc
    requires pc.EventCount?
  {
    if pc.done < 2 then pc.(done := pc.done + 1) else Done(EventRecorded(pc.event.id))
  }

  lemma EventCountMoves(s: State, tid: nat, th: Thread)
    requires ThreadOk(s, tid, th) && th.req.RecordEvent? && th.pc.EventCount?
    ensures var mid := CountEvent(s, th.pc.session.model, th.pc.event, th.pc.done);
      Kept(s, mid, tid) && ThreadOk(mid, tid, Thread(th.req, AfterCount(th.pc)))
  {
    hide Find, Increment, Add;
  }

  lemma EventCountKeeps(s: State, tid: nat)
    requires Inv(s) && tid in s.threads && s.threads[tid].req.RecordEvent? && s.threads[tid].pc.EventCount?
    ensures var pc := s.threads[tid].pc;
      Inv(Moved(s, CountEvent(s, pc.session.model, pc.event, pc.done), tid, AfterCount(pc)))
  {
    var pc := s.threads[tid].pc;
    var th := Thread(s.threads[tid].req, AfterCount(pc));
    assert ThreadOk(s, tid, s.threads[tid]);
    EventLogAdvanced(s.store.events, s.eventLog, s.threads, tid, pc.event, th);
    ScoreLogUntouched(s.store.scores, s.scoreLog, s.threads, tid, th);
    EventCountMoves(s, tid, s.threads[tid]);
    hide WellFormed, EventLogOk, ScoreLogOk, Find, Scored, OwnerOf, Increment, Add, Kept, ThreadOk, ThreadsOk, Advance, AfterCount;
    MovedThreads(s, CountEvent(s, pc.session.model, pc.event, pc.done), tid, AfterCount(pc));
  }

  lemma OneScore(scores: seq<Score>, x: Score, y: Score)
    requires OnePerEvent(scores) && x in scores && y in scores && x.event == y.event
    ensures x == y
  {
  }

  lemma ScoreLogAdvanced(scores: seq<Score>, log: map<EventId, Progress>, threads: map<nat, Thread>, tid: nat,
                         score: Score, th: Thread)
    requires ScoreLogOk(scores, log, threads) && OnePerEvent(scores) && score in scores && score.event in log
    requires log[score.event].tid == tid && !log[score.event].lost && log[score.event].done == 0
    requires HoldsScore(threads, tid, score) && !th.pc.ScoreCount?
    ensures ScoreLogOk(scores, Advance(log, score.event), threads[tid := th])
  {
    forall x | x in scores ensures ScoreTraced(Advance(log, score.event), threads[tid := th], x) {
      assert ScoreTraced(log, threads, x);
      if x.event == score.event {
        OneScore(scores, x, score);
      }
    }
  }

  lemma ScoreCountKeeps(s: State, tid: nat)
    requires Inv(s) && tid in s.threads && s.threads[tid].req.RecordScore? && s.threads[tid].pc.ScoreCount?
    ensures Inv(Moved(s, CountScore(s, s.threads[tid].pc.session.model, s.threads[tid].pc.score), tid, Done(ScoreRecorded)))
  {
    var pc := s.threads[tid].pc;
    var th := Thread(s.threads[tid].req, Done(ScoreRecorded));
    var mid := CountScore(s, pc.session.model, pc.score);
    assert ThreadOk(s, tid, s.threads[tid]);
    ScoreLogAdvanced(s.store.scores, s.scoreLog, s.threads, tid, pc.score, th);
    EventLogUntouched(s.store.events, s.eventLog, s.threads, tid, th);
    assert Kept(s, mid, tid) && ThreadOk(mid, tid, th) by { hide Find, Add, WellFormed, EventLogOk, ScoreLogOk, ThreadsOk; }
    hide WellFormed, EventLogOk, ScoreLogOk, Find, Scored, OwnerOf, Add, Kept, ThreadOk, ThreadsOk, Advance;
    MovedThreads(s, mid, tid, Done(ScoreRecorded));
  }

  /** A statement that only moves its own request, to a point where it holds no row. */
  lemma MoveOnlyKeeps(s: State, tid: nat, th: Thread)
    requires Inv(s) && ThreadOk(s, tid, th) && !th.pc.Counting() && (tid in s.threads ==> !s.threads[tid].pc.Counting())
    ensures Inv(s.(threads := s.threads[tid := th]))
  {
    EventLogUntouched(s.store.events, s.eventLog, s.threads, tid, th);
    ScoreLogUntouched(s.store.scores, s.scoreLog, s.threads, tid, th);
    hide WellFormed, EventLogOk, ScoreLogOk, ScorersOk, Find, Scored;
    OthersKept(s, s.(threads := s.threads[tid := th]), tid);
  }

  lemma TickKeeps(s: State, delay: nat)
    requires Inv(s)
    ensures Inv(s.(now := s.now + delay))
  {
    hide WellFormed, EventLogOk, ScoreLogOk, ScorersOk, Find, Scored;
    var s' := s.(now := s.now + delay);
    forall tid | tid in s'.threads ensures ThreadOk(s', tid, s'.threads[tid]) {
      assert ThreadOk(s, tid, s.threads[tid]);
    }
  }

  lemma CreateSessionKeeps(s: State, session: Session)
    requires Inv(s) && session.id !in s.store.sessions && session.model != ""
    ensures Inv(s.(store := s.store.(sessions := s.store.sessions[session.id := session])))
  {
    hide EventLogOk, ScoreLogOk, Find, Scored;
    var s' := s.(store := s.store.(sessions := s.store.sessions[session.id := session]));
    forall tid | tid in s'.threads ensures ThreadOk(s', tid, s'.threads[tid]) {
      assert ThreadOk(s, tid, s.threads[tid]);
    }
    forall e | e in s'.store.events ensures EventOk(s'.store.sessions, e) {
      assert EventOk(s.store.sessions, e);
    }
    forall id | id in s'.scoreLog ensures OwnerOf(s'.store, id) == Some(s'.scoreLog[id].author) {
      assert OwnerOf(s.store, id) == Some(s.scoreLog[id].author);
    }
  }

  /** This statement appends a row or increments a counter. */
  predicate Writes(s: State, th: Thread, env: Env) {
    || th.pc.Counting()
    || (th.pc.EventInsert? && !env.write.Failed? && Find(s.store.events, env.id).None?)
    || (th.pc.ScoreInsert? && th.req.RecordScore? && !env.write.Failed? && !Scored(s.store.scores, th.req.scoreBody.event))
  }

  lemma EventInsertRuns(s: State, tid: nat, env: Env)
    requires Inv(s) && tid in s.threads && s.threads[tid].req.RecordEvent? && s.threads[tid].pc.EventInsert?
    requires !env.write.Failed? && Find(s.store.events, env.id).None?
    ensures Inv(Next(s, Run(tid, env)))
  {
    hide Inv, Find;
    var req, pc := s.threads[tid].req, s.threads[tid].pc;
    var e := NewEvent(req.user, req.session, req.eventBody, env.id, pc.at);
    var pc' := if env.write.Lost? then Done(Internal) else EventCount(pc.session, e, 0);
    EventInsertKeeps(s, tid, e, env.write.Lost?, pc');
  }

  lemma ScoreInsertRuns(s: State, tid: nat, env: Env)
    requires Inv(s) && tid in s.threads && s.threads[tid].req.RecordScore? && s.threads[tid].pc.ScoreInsert?
    requires !env.write.Failed? && !Scored(s.store.scores, s.threads[tid].req.scoreBody.event)
    ensures Inv(Next(s, Run(tid, env)))
  {
    hide Inv, Scored;
    var req, pc := s.threads[tid].req, s.threads[tid].pc;
    var score := NewScore(req.scoreBody, env.id, pc.at);
    var pc' := if env.write.Lost? then Done(Internal) else ScoreCount(pc.session, score);
    ScoreInsertKeeps(s, tid, score, env.write.Lost?, pc');
  }

  lemma EventCountRuns(s: State, tid: nat, env: Env)
    requires Inv(s) && tid in s.threads && s.threads[tid].req.RecordEvent? && s.threads[tid].pc.EventCount?
    ensures Inv(Next(s, Run(tid, env)))
  {
    hide Inv, CountEvent, CountScore, Scored, Find;
    EventCountKeeps(s, tid);
  }

  lemma ScoreCountRuns(s: State, tid: nat, env: Env)
    requires Inv(s) && tid in s.threads && s.threads[tid].req.RecordScore? && s.threads[tid].pc.ScoreCount?
    ensures Inv(Next(s, Run(tid, env)))
  {
    hide Inv, CountEvent, CountScore, Scored, Find;
    ScoreCountKeeps(s, tid);
  }

  lemma WritingKeeps(s: State, tid: nat, env: Env)
    requires Inv(s) && tid in s.threads && Writes(s, s.threads[tid], env)
    ensures Inv(Next(s, Run(tid, env)))
  {
    assert ThreadOk(s, tid, s.threads[tid]);
    hide Inv, Next, Find, Scored;
    if s.threads[tid].pc.EventInsert? {
      EventInsertRuns(s, tid, env);
    } else if s.threads[tid].pc.ScoreInsert? {
      ScoreInsertRuns(s, tid, env);
    } else if s.threads[tid].pc.EventCount? {
      EventCountRuns(s, tid, env);
    } else {
      ScoreCountRuns(s, tid, env);
    }
  }

  lemma MovingKeeps(s: State, tid: nat, env: Env)
    requires Inv(s) && tid in s.threads && !Writes(s, s.threads[tid], env)
    ensures Inv(Next(s, Run(tid, env)))
  {
    var th := s.threads[tid];
    var pc := MoveOf(s, tid, th, env).pc;
    assert ThreadOk(s, tid, th);
    OnlyMoves(s, tid, th, env);
    hide Inv, MoveOf, ThreadOk, Writes;
    MoveOnlyKeeps(s, tid, Thread(th.req, pc));
  }

  lemma OnlyMoves(s: State, tid: nat, th: Thread, env: Env)
    requires ThreadOk(s, tid, th) && !Writes(s, th, env)
    ensures var m := MoveOf(s, tid, th, env);
      m.s == s && ThreadOk(s, tid, Thread(th.req, m.pc)) && !m.pc.Counting() && !th.pc.Counting()
  {
    hide Scored, Find, CountEvent, CountScore, InsertEvent, InsertScore, NewEvent, NewScore;
    if th.req.RecordEvent? {
      hide ScoreStep;
    } else {
      hide EventStep;
    }
  }

  lemma NextKeeps(s: State, a: Action)
    requires Inv(s)
    ensures Inv(Next(s, a))
  {
    hide Inv;
    match a
    case Tick(delay) => TickKeeps(s, delay);
    case CreateSession(id, user, model) =>
      if id !in s.store.sessions && model != "" {
        CreateSessionKeeps(s, Session(id, user, model, s.now));
      }
    case Arrive(tid, req) =>
      if tid !in s.threads && req.Valid() {
        MoveOnlyKeeps(s, tid, Thread(req, Start));
      }
    case Run(tid, env) =>
      if tid in s.threads {
        hide Writes;
        if Writes(s, s.threads[tid], env) {
          WritingKeeps(s, tid, env);
        } else {
          MovingKeeps(s, tid, env);
        }
      }
  }

  lemma {:induction false} ExecKeeps(s: State, actions: seq<Action>)
    requires Inv(s)
    ensures Inv(Exec(s, actions))
    decreases |actions|
  {
    hide Inv, Next;
    if actions != [] {
      NextKeeps(s, actions[0]);
      ExecKeeps(Next(s, actions[0]), actions[1..]);
    }
  }

  /** No step takes back or alters a row: sessions stay as they are, events and scores are appended. */
  lemma {:induction false} AppendOnly(s: State, actions: seq<Action>)
    ensures var s' := Exec(s, actions);
      && s.store.events <= s'.store.events && s.store.scores <= s'.store.scores
      && forall id :: id in s.store.sessions ==> id in s'.store.sessions && s'.store.sessions[id] == s.store.sessions[id]
    decreases |actions|
  {
    if actions != [] {
      StepAppends(s, actions[0]);
      hide Next;
      AppendOnly(Next(s, actions[0]), actions[1..]);
    }
  }

  lemma StepAppends(s: State, a: Action)
    ensures var s' := Next(s, a);
      && s.store.events <= s'.store.events && s.store.scores <= s'.store.scores
      && forall id :: id in s.store.sessions ==> id in s'.store.sessions && s'.store.sessions[id] == s.store.sessions[id]
  {
    hide Find, Scored, Increment, Add;
  }

  ghost predicate Reachable(s: State) {
    exists start, actions {:trigger Exec(Init(start), actions)} :: s == Exec(Init(start), actions)
  }

  /** The tables are consistent in every state of every interleaving: events belong to the owners of
      their sessions, each has at most one score, given by that owner, and flagged ones are worth 0. */
  lemma StoreWellFormed(s: State)
    requires Reachable(s)
    ensures WellFormed(s.store) && Inv(s)
    ensures forall x :: x in s.store.scores ==>
      x.event in s.scoreLog && OwnerOf(s.store, x.event) == Some(s.scoreLog[x.event].author)
  {
    var start, actions :| s == Exec(Init(start), actions);
    ExecKeeps(Init(start), actions);
    assert forall x :: x in s.store.scores ==> ScoreTraced(s.scoreLog, s.threads, x);
  }
}
