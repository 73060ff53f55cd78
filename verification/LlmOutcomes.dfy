/**
 What the two recording requests answer and what they write, under any interference, said in terms of the tables
 and the counters: for each request the list of its cases over the states that its statements met and left.
 */
module LlmOutcomes {
  import opened Collections
  import opened LlmStore
  import opened LlmInvariant

  /** What happens around one statement: first what others do, then how the statement fares. */
  datatype Turn = Turn(others: seq<Action>, up: bool, write: Write)

  /** One statement of a request: the state it met, what it was, and the state it left. */
  datatype Moment = Moment(met: State, action: Action, left: State)

  // ----- histories are runs -----

  function Last(arrived: State, h: seq<Moment>): State {
    if h == [] then arrived else h[|h| - 1].left
  }

  /** After `before`, the others of `turn` ran and then request `tid` performed the statement of `m`. */
  predicate Follows(before: State, turn: Turn, tid: nat, m: Moment) {
    && m.met == Exec(before, turn.others) && m.action.Run? && m.action.tid == tid
    && m.left == Next(m.met, m.action)
  }

  /** The statements of `h` one after the other, each preceded by its turn of the others. */
  predicate IsHistory(arrived: State, tid: nat, turns: seq<Turn>, h: seq<Moment>)
    decreases |h|
  {
    h == [] ||
    var k := |h| - 1;
    k < |turns| && IsHistory(arrived, tid, turns, h[..k]) && Follows(Last(arrived, h[..k]), turns[k], tid, h[k])
  }

  /** All actions from the arrival to the last statement. */
  function Trace(tid: nat, req: Request, turns: seq<Turn>, h: seq<Moment>): seq<Action>
    requires |h| <= |turns|
    decreases |h|
  {
    if h == [] then [Arrive(tid, req)]
    else Trace(tid, req, turns, h[..|h| - 1]) + turns[|h| - 1].others + [h[|h| - 1].action]
  }

  /** From `start`, the request arrives and goes through `h`; this is a run of the model that ends in `s`. */
  predicate IsRun(start: State, tid: nat, req: Request, turns: seq<Turn>, h: seq<Moment>, s: State) {
    var arrived := Next(start, Arrive(tid, req));
    && |h| <= |turns| && IsHistory(arrived, tid, turns, h) && s == Last(arrived, h)
    && s == Exec(start, Trace(tid, req, turns, h))
  }

  lemma Arrives(start: State, tid: nat, req: Request, turns: seq<Turn>)
    ensures IsRun(start, tid, req, turns, [], Next(start, Arrive(tid, req)))
  {
    hide Next;
    OneAction(start, Arrive(tid, req));
  }

  /** A run goes on with what others do and then one statement of the request. */
  lemma Extend(start: State, tid: nat, req: Request, turns: seq<Turn>, h: seq<Moment>, m: Moment)
    returns (longer: seq<Moment>)
    requires |h| < |turns|
    requires var s := Last(Next(start, Arrive(tid, req)), h);
      IsRun(start, tid, req, turns, h, s) && Follows(s, turns[|h|], tid, m)
    ensures longer == h + [m] && IsRun(start, tid, req, turns, longer, m.left)
  {
    hide Next, Exec;
    longer := h + [m];
    assert longer[..|h|] == h;
    var trace, others := Trace(tid, req, turns, h), turns[|h|].others;
    ExecSplits(start, trace + others, [m.action]);
    ExecSplits(start, trace, others);
    OneAction(m.met, m.action);
  }

  lemma OneAction(s: State, a: Action)
    ensures Exec(s, [a]) == Next(s, a)
  {
    hide Next;
    assert [a][1..] == [];
    assert Exec(s, [a]) == Exec(Next(s, a), []);
  }

  lemma RunKeeps(start: State, tid: nat, req: Request, turns: seq<Turn>, h: seq<Moment>, s: State)
    requires Inv(start) && IsRun(start, tid, req, turns, h, s)
    ensures Inv(s)
  {
    hide Inv, Next, Exec;
    ExecKeeps(start, Trace(tid, req, turns, h));
  }

  // ----- what a statement leaves -----

  /** The statement leaves these tables and no counter moved; it takes no time. */
  predicate Leaves(m: Moment, store: Store) {
    m.left.store == store && m.left.counters == m.met.counters && m.left.now == m.met.now
  }

  predicate OnlyReads(m: Moment) {
    Leaves(m, m.met.store)
  }

  /** One series grows by the amount; no other series and no table changes. */
  ghost predicate Increments(m: Moment, series: Series, amount: real) {
    && m.left.store == m.met.store && m.left.now == m.met.now
    && Grows(m.met.counters, m.left.counters, series, amount)
  }

  ghost predicate Grows(before: Counters, after: Counters, series: Series, amount: real) {
    && Value(after, series) == Value(before, series) + amount
    && forall other :: other != series ==> Value(after, other) == Value(before, other)
  }

  // ----- both requests: the session -----

  /** Why a request that reads the session in state `s` stops there, if it does. */
  function Refusal(s: State, req: Request, up: bool): Option<Result> {
    if !up then Some(Internal)
    else if req.session !in s.store.sessions then Some(NotFound)
    else if s.store.sessions[req.session].user != req.user then Some(Forbidden)
    else None
  }

  // ----- recording an event -----

  /** The row, column by column, as the request asks for it. */
  function EventRow(req: Request, id: EventId, at: Time): Event
    requires req.RecordEvent?
  {
    var b := req.eventBody;
    Event(id := id, session := req.session, user := req.user, created := at, prompt := b.prompt,
          completion := b.completion, tokensIn := b.tokensIn, tokensOut := b.tokensOut, latency := b.latency,
          error := b.error)
  }

  /** A stored event holds what the request said, in the columns it said it of. */
  predicate AsRequested(e: Event, req: Request)
    requires req.RecordEvent?
  {
    var b := req.eventBody;
    && e.session == req.session && e.user == req.user && e.prompt == b.prompt && e.completion == b.completion
    && e.tokensIn == b.tokensIn && e.tokensOut == b.tokensOut && e.latency == b.latency && e.error == b.error
  }

  /** An unused id, and the row it identifies behind the others. */
  predicate InsertsEvent(m: Moment, req: Request, id: EventId, at: Time)
    requires req.RecordEvent?
  {
    var store := m.met.store;
    (forall e :: e in store.events ==> e.id != id) && Leaves(m, store.(events := store.events + [EventRow(req, id, at)]))
  }

  /** The three increments, in this order. */
  ghost predicate CountsEvent(req: Request, model: string, h: seq<Moment>)
    requires req.RecordEvent?
  {
    var b := req.eventBody;
    && |h| == 6
    && Increments(h[3], EventsTotal(model, if b.error != "" then "error" else "ok"), 1.0)
    && Increments(h[4], TokensTotal(model, "in"), b.tokensIn as real)
    && Increments(h[5], TokensTotal(model, "out"), b.tokensOut as real)
  }

  /** Session, clock, insert, and after an acknowledged insert the three increments. */
  ghost predicate EventOutcome(req: Request, turns: seq<Turn>, h: seq<Moment>, res: Result)
    requires req.RecordEvent? && |turns| == 6
  {
    && |h| >= 1 && OnlyReads(h[0])
    && var refusal := Refusal(h[0].met, req, turns[0].up);
       if refusal.Some? then |h| == 1 && res == refusal.value
       else
         && |h| >= 3 && OnlyReads(h[1])
         && if turns[2].write.Failed? then |h| == 3 && res == Internal && OnlyReads(h[2])
            else exists id: EventId ::
              && InsertsEvent(h[2], req, id, h[1].met.now)
              && if turns[2].write.Applied?
                 then res == EventRecorded(id) && CountsEvent(req, h[0].met.store.sessions[req.session].model, h)
                 else |h| == 3 && res == Internal
  }

  // ----- recording a score -----

  /** The row, column by column, as the request asks for it; a flagged answer is worth nothing. */
  function ScoreRow(req: Request, id: nat, at: Time): Score
    requires req.RecordScore?
  {
    var b := req.scoreBody;
    Score(id := id, event := b.event, created := at, correctness := b.correctness, latencyScore := b.latencyScore,
          safetyFlag := b.safetyFlag, costScore := b.costScore, userSignal := b.userSignal,
          composite := if b.safetyFlag then 0.0 else b.composite)
  }

  /** Session, event, clock, insert under the unique key, and after an acknowledged insert the increment. */
  ghost predicate ScoreOutcome(req: Request, id: nat, turns: seq<Turn>, h: seq<Moment>, res: Result)
    requires req.RecordScore? && |turns| == 5
  {
    && |h| >= 1 && OnlyReads(h[0])
    && var refusal := Refusal(h[0].met, req, turns[0].up);
       if refusal.Some? then |h| == 1 && res == refusal.value
       else
         && |h| >= 2 && OnlyReads(h[1])
         && if !turns[1].up || !InSession(h[1].met.store.events, req.scoreBody.event, req.session)
            then |h| == 2 && res == NotFound
            else ScoredOutcome(req, id, h[0].met.store.sessions[req.session].model, turns, h, res)
  }

  ghost predicate ScoredOutcome(req: Request, id: nat, model: string, turns: seq<Turn>, h: seq<Moment>, res: Result)
    requires req.RecordScore? && |turns| == 5
  {
    && |h| >= 4 && OnlyReads(h[2])
    && var store, row := h[3].met.store, ScoreRow(req, id, h[2].met.now);
       if turns[3].write.Failed? then |h| == 4 && res == Internal && OnlyReads(h[3])
       else if exists x :: x in store.scores && x.event == row.event then
         |h| == 4 && OnlyReads(h[3]) && res == if turns[3].write.Applied? then Conflict else Internal
       else
         && Leaves(h[3], store.(scores := store.scores + [row]))
         && if turns[3].write.Applied? then
              |h| == 5 && res == ScoreRecorded && Increments(h[4], ScoreSum(model), row.composite)
            else |h| == 4 && res == Internal
  }

  // ----- undisturbed requests -----

  predicate Alone(turns: seq<Turn>) {
    forall i :: 0 <= i < |turns| ==> turns[i].others == []
  }

  /** Undisturbed, each statement meets what the one before it left. */
  lemma {:induction false} AloneMeets(arrived: State, tid: nat, turns: seq<Turn>, h: seq<Moment>, k: nat)
    requires IsHistory(arrived, tid, turns, h) && Alone(turns) && k < |h|
    ensures h[k].met == if k == 0 then arrived else h[k - 1].left
    decreases |h|
  {
    if k < |h| - 1 {
      AloneMeets(arrived, tid, turns, h[..|h| - 1], k);
    }
  }

  predicate SameStores(s: State, s': State) {
    s'.store == s.store && s'.counters == s.counters && s'.now == s.now
  }

  lemma ArrivingTouchesNothing(s: State, tid: nat, req: Request)
    ensures SameStores(s, Next(s, Arrive(tid, req)))
  {
  }

  /** Nobody else ran: the statements meet one another's stores, beginning with those of `start`. */
  predicate Undisturbed(start: State, h: seq<Moment>) {
    && (h != [] ==> SameStores(start, h[0].met))
    && forall k {:trigger h[k].met} :: 1 <= k < |h| ==> h[k].met == h[k - 1].left
  }

  lemma AloneIsUndisturbed(start: State, tid: nat, req: Request, turns: seq<Turn>, h: seq<Moment>, s: State)
    requires IsRun(start, tid, req, turns, h, s) && Alone(turns)
    ensures Undisturbed(start, h) && (h != [] ==> s == h[|h| - 1].left)
  {
    var arrived := Next(start, Arrive(tid, req));
    assert SameStores(start, arrived) by { ArrivingTouchesNothing(start, tid, req); }
    hide Next, Exec, Alone;
    if h != [] {
      AloneMeets(arrived, tid, turns, h, 0);
    }
    forall k {:trigger h[k].met} | 1 <= k < |h| ensures h[k].met == h[k - 1].left {
      AloneMeets(arrived, tid, turns, h, k);
    }
  }

  /** An undisturbed request of the owner whose insert is acknowledged is recorded, and no other: the event is the
      last row, the "in" series has grown by the tokens in, the "out" series by the tokens out and the event series
      of the status by one, and nothing else has changed. */
  lemma EventAlone(start: State, tid: nat, req: Request, turns: seq<Turn>, h: seq<Moment>, end: State, res: Result)
    requires req.RecordEvent? && |turns| == 6 && Alone(turns)
    requires IsRun(start, tid, req, turns, h, end) && EventOutcome(req, turns, h, res)
    ensures res.EventRecorded? <==>
      && turns[0].up && req.session in start.store.sessions && start.store.sessions[req.session].user == req.user
      && turns[2].write.Applied?
    ensures res.EventRecorded? ==>
      && end.store == start.store.(events := start.store.events + [EventRow(req, res.id, start.now)])
      && (forall e :: e in start.store.events ==> e.id != res.id)
      && CountedOnceMore(start.counters, end.counters, start.store.sessions[req.session].model, req.eventBody)
  {
    AloneIsUndisturbed(start, tid, req, turns, h, end);
    hide IsRun, Grows;
    if res.EventRecorded? {
      ThreeIncrements(start.counters, h[3].left.counters, h[4].left.counters, end.counters,
        start.store.sessions[req.session].model, req.eventBody);
    }
  }

  lemma ThreeIncrements(start: Counters, c1: Counters, c2: Counters, end: Counters, model: string, b: EventBody)
    requires Grows(start, c1, EventsTotal(model, if b.error != "" then "error" else "ok"), 1.0)
    requires Grows(c1, c2, TokensTotal(model, "in"), b.tokensIn as real)
    requires Grows(c2, end, TokensTotal(model, "out"), b.tokensOut as real)
    ensures CountedOnceMore(start, end, model, b)
  {
    hide Value;
  }

  /** The event series of the status counts one more, and the token series the tokens of each direction. */
  ghost predicate CountedOnceMore(start: Counters, end: Counters, model: string, b: EventBody) {
    var status := if b.error != "" then "error" else "ok";
    forall series :: Value(end, series) == Value(start, series)
      + if series == EventsTotal(model, status) then 1.0
        else if series == TokensTotal(model, "in") then b.tokensIn as real
        else if series == TokensTotal(model, "out") then b.tokensOut as real
        else 0.0
  }

  /** An undisturbed request of the owner to score an unscored event of the session is recorded if its insert is
      acknowledged, and no other: the score is the last row, and the score series has grown by its composite. */
  lemma ScoreAlone(start: State, tid: nat, req: Request, id: nat, turns: seq<Turn>, h: seq<Moment>, end: State,
                   res: Result)
    requires req.RecordScore? && |turns| == 5 && Alone(turns)
    requires IsRun(start, tid, req, turns, h, end) && ScoreOutcome(req, id, turns, h, res)
    ensures res.ScoreRecorded? <==>
      && turns[0].up && req.session in start.store.sessions && start.store.sessions[req.session].user == req.user
      && turns[1].up && InSession(start.store.events, req.scoreBody.event, req.session)
      && turns[3].write.Applied? && forall x :: x in start.store.scores ==> x.event != req.scoreBody.event
    ensures res.ScoreRecorded? ==>
      && end.store == start.store.(scores := start.store.scores + [ScoreRow(req, id, start.now)])
      && Grows(start.counters, end.counters, ScoreSum(start.store.sessions[req.session].model),
               ScoreRow(req, id, start.now).composite)
  {
    AloneIsUndisturbed(start, tid, req, turns, h, end);
    hide IsRun, Grows, InSession;
  }
}
