/** The three LLM tables and the repositories over them, updated one statement at a time. */
module LlmTables {
  import opened Collections
  import opened LlmStore
  import opened Aggregates
  import opened EventPages

  datatype Error = SessionNotFound | EventNotFound | ScoreNotFound | NotOwner | AlreadyScored | Unavailable

  /** The connection pool that all repositories share. The logs are the history kept beside the tables. */
  class Database {
    var store: Store
    var eventLog: map<EventId, Progress>
    var scoreLog: map<EventId, Progress>

    constructor ()
      ensures store == Store(map[], [], []) && eventLog == map[] && scoreLog == map[]
    {
      store, eventLog, scoreLog := Store(map[], [], []), map[], map[];
    }
  }

  class SessionRepository {
    const db: Database

    constructor (db: Database)
      ensures this.db == db
    {
      this.db := db;
    }

    method FindByID(id: SessionId, up: bool) returns (found: Option<Session>, error: Option<Error>)
      ensures error == Some(Unavailable) <==> !up
      ensures error == Some(SessionNotFound) <==> up && id !in db.store.sessions
      ensures error in {None, Some(Unavailable), Some(SessionNotFound)}
      ensures error.None? ==> id in db.store.sessions && found == Some(db.store.sessions[id])
    {
      if !up {
        return None, Some(Unavailable);
      }
      if id !in db.store.sessions {
        return None, Some(SessionNotFound);
      }
      return Some(db.store.sessions[id]), None;
    }
  }

  class EventRepository {
    const db: Database

    constructor (db: Database)
      ensures this.db == db
    {
      this.db := db;
    }

    /** INSERT … RETURNING; a lost answer leaves the row in place and reports an error. */
    method Create(e: Event, tid: nat, write: Write) returns (ok: bool)
      modifies db
      ensures ok <==> write.Applied?
      ensures write.Failed? ==> db.store == old(db.store) && db.eventLog == old(db.eventLog)
      ensures !write.Failed? ==>
        && db.store == old(db.store).(events := old(db.store.events) + [e])
        && db.eventLog == old(db.eventLog)[e.id := Progress(tid, e.user, 0, write.Lost?)]
      ensures db.scoreLog == old(db.scoreLog)
    {
      if !write.Failed? {
        db.store := db.store.(events := db.store.events + [e]);
        db.eventLog := db.eventLog[e.id := Progress(tid, e.user, 0, write.Lost?)];
      }
      ok := write.Applied?;
    }

    /** A failing query and a missing event are different errors. */
    method FindByID(id: EventId, up: bool) returns (found: Option<Event>, error: Option<Error>)
      ensures error == Some(Unavailable) <==> !up
      ensures error == Some(EventNotFound) <==> up && forall e :: e in db.store.events ==> e.id != id
      ensures error in {None, Some(Unavailable), Some(EventNotFound)}
      ensures error.None? ==> found.Some? && found.value in db.store.events && found.value.id == id
      ensures error.None? ==> found == Find(db.store.events, id)
      ensures error.Some? ==> found.None?
    {
      if !up {
        return None, Some(Unavailable);
      }
      found := Find(db.store.events, id);
      error := if found.None? then Some(EventNotFound) else None;
    }

    /** One page of the session, newest first, every row carrying the count of all of them. `listing`
        is the order in which the database happens to put the rows of the session. */
    method ListBySession(session: SessionId, limit: int, offset: int, up: bool, listing: seq<Event>)
      returns (out: seq<Event>, total: int, error: Option<Error>)
      requires IsListing(db.store.events, session, listing)
      ensures error == if !up || limit < 0 || offset < 0 then Some(Unavailable) else None
      ensures error.None? ==> out == Page(listing, limit, offset)
      ensures error.None? ==> total == if out == [] then 0 else |Filter(db.store.events, OfSession(session))|
    {
      out, total := [], 0;
      if !up || limit < 0 || offset < 0 {
        return out, total, Some(Unavailable);
      }
      var rows, count := Page(listing, limit, offset), |Filter(db.store.events, OfSession(session))|;
      for i := 0 to |rows|
        invariant out == rows[..i]
        invariant total == if i == 0 then 0 else count
      {
        total := count;
        out := out + [rows[i]];
      }
      error := None;
    }
  }

  class ScoreRepository {
    const db: Database

    constructor (db: Database)
      ensures this.db == db
    {
      this.db := db;
    }

    /** INSERT under UNIQUE (event_id). */
    method Create(x: Score, tid: nat, author: UserId, write: Write) returns (error: Option<Error>)
      modifies db
      ensures error.None? <==> write.Applied? && !Scored(old(db.store.scores), x.event)
      ensures error == Some(AlreadyScored) <==> write.Applied? && Scored(old(db.store.scores), x.event)
      ensures error in {None, Some(AlreadyScored), Some(Unavailable)}
      ensures write.Failed? || Scored(old(db.store.scores), x.event) ==>
        db.store == old(db.store) && db.scoreLog == old(db.scoreLog)
      ensures !write.Failed? && !Scored(old(db.store.scores), x.event) ==>
        && db.store == old(db.store).(scores := old(db.store.scores) + [x])
        && db.scoreLog == old(db.scoreLog)[x.event := Progress(tid, author, 0, write.Lost?)]
      ensures db.eventLog == old(db.eventLog)
    {
      var violated := Scored(db.store.scores, x.event);
      if !write.Failed? && !violated {
        db.store := db.store.(scores := db.store.scores + [x]);
        db.scoreLog := db.scoreLog[x.event := Progress(tid, author, 0, write.Lost?)];
      }
      if !write.Applied? {
        return Some(Unavailable);
      }
      if violated {
        return Some(AlreadyScored);
      }
      return None;
    }

    /** The score of an event, if it has one. */
    method FindByEventID(event: EventId, up: bool) returns (found: Option<Score>, error: Option<Error>)
      ensures error == Some(Unavailable) <==> !up
      ensures error == Some(ScoreNotFound) <==> up && !Scored(db.store.scores, event)
      ensures error in {None, Some(Unavailable), Some(ScoreNotFound)}
      ensures error.None? ==> found.Some? && found.value in db.store.scores && found.value.event == event
    {
      if !up {
        return None, Some(Unavailable);
      }
      if x :| x in db.store.scores && x.event == event {
        return Some(x), None;
      }
      return None, Some(ScoreNotFound);
    }
  }

  /** The Prometheus counters of the process. */
  class Telemetry {
    var counters: Counters

    constructor ()
      ensures counters == map[]
    {
      counters := map[];
    }

    method Increase(series: Series, amount: real)
      modifies this
      ensures counters == Add(old(counters), series, amount)
      ensures Value(counters, series) == Value(old(counters), series) + amount
      ensures forall other :: other != series ==> Value(counters, other) == Value(old(counters), other)
    {
      counters := counters[series := (if series in counters then counters[series] else 0.0) + amount];
    }
  }
}
