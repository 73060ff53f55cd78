/** The list-events use case: ownership, the offset, and a loop that maps rows to DTOs. */
module ListEvents {
  import opened LlmStore
  import opened Aggregates
  import opened EventPages
  import opened LlmTables

  datatype EventDto = EventDto(
    id: EventId, prompt: string, completion: string, tokensIn: int, tokensOut: int, latency: int, error: string, created: Time)

  /** A DTO shows its event field by field; the session and the user stay out of it. */
  predicate Shows(d: EventDto, e: Event) {
    && d.id == e.id && d.prompt == e.prompt && d.completion == e.completion && d.created == e.created
    && d.tokensIn == e.tokensIn && d.tokensOut == e.tokensOut && d.latency == e.latency && d.error == e.error
  }

  datatype Response = Response(events: seq<EventDto>, page: int, limit: int, total: int)

  datatype ListResult = Listed(response: Response) | Rejected(error: Error)

  /** Whatever order the database chose, a page shows events of the session only, newest first. */
  lemma PageOfSession(events: seq<Event>, session: SessionId, listing: seq<Event>, limit: nat, offset: nat)
    requires IsListing(events, session, listing)
    ensures var rows := Page(listing, limit, offset);
      && (forall i :: 0 <= i < |rows| ==> rows[i] in events && rows[i].session == session)
      && (forall i, j :: 0 <= i < j < |rows| ==> rows[i].created >= rows[j].created)
  {
    var rows, mine := Page(listing, limit, offset), Filter(events, OfSession(session));
    forall i | 0 <= i < |rows| ensures rows[i] in events && rows[i].session == session {
      SameMembers(mine, listing, rows[i]);
      assert rows[i] in mine;
    }
    hide Filter;
    forall i, j | 0 <= i < j < |rows| ensures rows[i].created >= rows[j].created {
      DescendingAt(listing, CreatedOf, Min(offset, |listing|) + i, Min(offset, |listing|) + j);
    }
  }

  class ListEventsUseCase {
    const eventRepo: EventRepository
    const sessionRepo: SessionRepository

    constructor (eventRepo: EventRepository, sessionRepo: SessionRepository)
      ensures this.eventRepo == eventRepo && this.sessionRepo == sessionRepo
    {
      this.eventRepo, this.sessionRepo := eventRepo, sessionRepo;
    }

    /** Page `page` of the session, for its owner only. An empty page reports a total of 0. */
    method Execute(user: UserId, session: SessionId, page: int, limit: int, up: (bool, bool), listing: seq<Event>)
      returns (res: ListResult)
      requires eventRepo.db == sessionRepo.db && IsListing(eventRepo.db.store.events, session, listing)
      ensures var store, offset := eventRepo.db.store, (page - 1) * limit;
        if !up.0 then res == Rejected(Unavailable)
        else if session !in store.sessions then res == Rejected(SessionNotFound)
        else if store.sessions[session].user != user then res == Rejected(NotOwner)
        else if !up.1 || limit < 0 || offset < 0 then res == Rejected(Unavailable)
        else
          && res.Listed? && res.response.page == page && res.response.limit == limit
          && var rows := Page(listing, limit, offset);
             && |res.response.events| == |rows|
             && (forall i :: 0 <= i < |rows| ==> Shows(res.response.events[i], rows[i]))
             && (forall i :: 0 <= i < |rows| ==> rows[i] in store.events && rows[i].session == session)
             && (forall i, j :: 0 <= i < j < |rows| ==> rows[i].created >= rows[j].created)
             && res.response.total == if rows == [] then 0 else |Filter(store.events, OfSession(session))|
    {
      var found, error := sessionRepo.FindByID(session, up.0);
      if error.Some? {
        return Rejected(error.value);
      }
      if found.value.user != user {
        return Rejected(NotOwner);
      }
      var offset := (page - 1) * limit;
      var events, total;
      events, total, error := eventRepo.ListBySession(session, limit, offset, up.1, listing);
      if error.Some? {
        return Rejected(error.value);
      }
      var out: seq<EventDto> := [];
      for i := 0 to |events|
        invariant |out| == i && forall j :: 0 <= j < i ==> Shows(out[j], events[j])
      {
        var e := events[i];
        out := out + [EventDto(e.id, e.prompt, e.completion, e.tokensIn, e.tokensOut, e.latency, e.error, e.created)];
      }
      PageOfSession(eventRepo.db.store.events, session, listing, limit, offset);
      return Listed(Response(out, page, limit, total));
    }
  }
}
