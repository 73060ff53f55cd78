/**
 What the four requests answer and what they write, under any interference, said in terms of the tables: for each
 request the list of its cases over the states that its statements met and left. No step of the state machine is
 named in these cases; the use cases are proved against them and against the state machine at once.
 */
module IamOutcomes {
  import opened Collections
  import opened Tokens
  import opened Rotation
  import opened Invariant

  /** What happens around one statement: first what others do, then how the statement fares. */
  datatype Turn = Turn(others: seq<Action>, up: bool, write: Write)

  /** One statement of a request: the state it met, what it was, and the state it left. */
  datatype Moment = Moment(met: State, action: Action, left: State)

  // ----- histories are runs -----

  function Last(arrived: State, h: seq<Moment>): State {
    if h == [] then arrived else h[|h| - 1].left
  }

  /** After `before`, the others of `turn` ran and then request `tid` performed the statement of `m`. */
  predicate Follows(cfg: Config, before: State, turn: Turn, tid: nat, m: Moment) {
    && m.met == Exec(cfg, before, turn.others) && m.action.Run? && m.action.tid == tid
    && m.left == Next(cfg, m.met, m.action)
  }

  /** The statements of `h` one after the other, each preceded by its turn of the others. */
  predicate IsHistory(cfg: Config, arrived: State, tid: nat, turns: seq<Turn>, h: seq<Moment>)
    decreases |h|
  {
    h == [] ||
    var k := |h| - 1;
    && k < |turns| && IsHistory(cfg, arrived, tid, turns, h[..k])
    && Follows(cfg, Last(arrived, h[..k]), turns[k], tid, h[k])
  }

  /** All actions from the arrival to the last statement. */
  function Trace(tid: nat, req: Request, turns: seq<Turn>, h: seq<Moment>): seq<Action>
    requires |h| <= |turns|
    decreases |h|
  {
    if h == [] then [Arrive(tid, req)]
    else Trace(tid, req, turns, h[..|h| - 1]) + turns[|h| - 1].others + [h[|h| - 1].action]
  }

  /** From `start`, the request arrives and goes through `h`; this is a run of the model that ends in `s`. */
  predicate IsRun(cfg: Config, start: State, tid: nat, req: Request, turns: seq<Turn>, h: seq<Moment>, s: State) {
    var arrived := Next(cfg, start, Arrive(tid, req));
    && |h| <= |turns| && IsHistory(cfg, arrived, tid, turns, h) && s == Last(arrived, h)
    && s == Exec(cfg, start, Trace(tid, req, turns, h))
  }

  lemma Arrives(cfg: Config, start: State, tid: nat, req: Request, turns: seq<Turn>)
    ensures IsRun(cfg, start, tid, req, turns, [], Next(cfg, start, Arrive(tid, req)))
  {
    hide Next;
    var trace := [Arrive(tid, req)];
    assert trace[1..] == [];
    assert Exec(cfg, start, trace) == Exec(cfg, Next(cfg, start, trace[0]), []);
  }

  /** A run goes on with what others do and then one statement of the request. */
  lemma Extend(cfg: Config, start: State, tid: nat, req: Request, turns: seq<Turn>, h: seq<Moment>, m: Moment)
    returns (longer: seq<Moment>)
    requires |h| < |turns|
    requires var s := Last(Next(cfg, start, Arrive(tid, req)), h);
      IsRun(cfg, start, tid, req, turns, h, s) && Follows(cfg, s, turns[|h|], tid, m)
    ensures longer == h + [m] && IsRun(cfg, start, tid, req, turns, longer, m.left)
  {
    hide Next, Exec;
    longer := h + [m];
    assert longer[..|h|] == h;
    var trace, others := Trace(tid, req, turns, h), turns[|h|].others;
    ExecSplits(cfg, start, trace + others, [m.action]);
    ExecSplits(cfg, start, trace, others);
    OneAction(cfg, m.met, m.action);
  }

  lemma OneAction(cfg: Config, s: State, a: Action)
    ensures Exec(cfg, s, [a]) == Next(cfg, s, a)
  {
    hide Next;
    assert [a][1..] == [];
    assert Exec(cfg, s, [a]) == Exec(cfg, Next(cfg, s, a), []);
  }

  // ----- what a statement leaves -----

  /** The statement leaves these tables; it takes no time. */
  predicate Leaves(m: Moment, rows: Table, blacklist: Blacklist, accounts: map<UserId, Account>) {
    m.left.rows == rows && m.left.blacklist == blacklist && m.left.accounts == accounts && m.left.now == m.met.now
  }

  predicate OnlyReads(m: Moment) {
    Leaves(m, m.met.rows, m.met.blacklist, m.met.accounts)
  }

  /** UPDATE … SET revoked_at WHERE id AND revoked_at IS NULL. */
  predicate RevokesRow(m: Moment, id: TokenId, write: Write) {
    var rows := m.met.rows;
    Leaves(m, if !write.Failed? && id in rows && rows[id].revokedAt.None? then rows[id := rows[id].(revokedAt := Some(m.met.now))]
              else rows, m.met.blacklist, m.met.accounts)
  }

  /** The hash is blacklisted for the lifetime left at the reading `at`, counted from the write. */
  predicate Marks(m: Moment, stored: RefreshToken, at: Time, write: Write) {
    var blacklist := m.met.blacklist;
    Leaves(m, m.met.rows,
           if write.Failed? || stored.expiresAt <= at then blacklist
           else blacklist[stored.hash := m.met.now + (stored.expiresAt - at)],
           m.met.accounts)
  }

  /** A new unrevoked row for a token that expires `cfg.refreshTTL` after the reading `at`. */
  predicate Inserts(cfg: Config, m: Moment, user: UserId, raw: string, at: Time, id: TokenId) {
    && id !in m.met.rows && (forall x :: x in m.met.rows ==> m.met.rows[x].hash != HashToken(raw))
    && Leaves(m, m.met.rows[id := RefreshToken(id := id, user := user, hash := HashToken(raw),
                                              createdAt := at, expiresAt := at + cfg.refreshTTL, revokedAt := None)],
              m.met.blacklist, m.met.accounts)
  }

  /** The insert that ends a login or a refresh; `ok` is whether the client hears of it. */
  ghost predicate InsertOutcome(cfg: Config, m: Moment, user: UserId, raw: string, at: Time, write: Write, ok: bool,
                                res: Result)
  {
    if write.Failed? then OnlyReads(m) && res == Internal
    else exists id: TokenId :: Inserts(cfg, m, user, raw, at, id) && res == if ok then Issued(id) else Internal
  }

  /** `stored` is a row with this hash. */
  predicate Presented(rows: Table, hash: TokenHash, stored: RefreshToken) {
    stored in rows.Values && stored.hash == hash
  }

  // ----- refresh -----

  /** Redis first, then the table. */
  ghost predicate RefreshOutcome(cfg: Config, raw: string, rawNew: string, turns: seq<Turn>, h: seq<Moment>, res: Result)
    requires |turns| == 7
  {
    var hash := HashToken(raw);
    && |h| >= 1 && OnlyReads(h[0])
    && var blacklist := h[0].met.blacklist;
       if !turns[0].up then |h| == 1 && res == BlacklistUnavailable
       else if hash in blacklist && h[0].met.now <= blacklist[hash] then |h| == 1 && res == TokenRevoked
       else
         && |h| >= 2 && OnlyReads(h[1])
         && if !turns[1].up then |h| == 2 && res == Internal
            else if forall x :: x in h[1].met.rows ==> h[1].met.rows[x].hash != hash then |h| == 2 && res == TokenInvalid
            else exists stored :: Presented(h[1].met.rows, hash, stored) && FoundOutcome(cfg, stored, rawNew, turns, h, res)
  }

  /** The row as it was read is judged at the clock reading that follows. */
  ghost predicate FoundOutcome(cfg: Config, stored: RefreshToken, rawNew: string, turns: seq<Turn>, h: seq<Moment>,
                               res: Result)
    requires |turns| == 7
  {
    && |h| >= 3 && OnlyReads(h[2])
    && var at := h[2].met.now;
       if at > stored.expiresAt then |h| == 3 && res == TokenExpired
       else if stored.revokedAt.Some? then
         |h| == 4 && res == TokenRevoked && Marks(h[3], stored, at, turns[3].write)
       else
         && |h| >= 4 && OnlyReads(h[3])
         && if !turns[3].up then |h| == 4 && res == Internal else RotationOutcome(cfg, stored, at, rawNew, turns, h, res)
  }

  /** The compare-and-set: an acknowledged write on an unrevoked row goes on, one on a revoked row does not. */
  ghost predicate RotationOutcome(cfg: Config, stored: RefreshToken, at: Time, rawNew: string, turns: seq<Turn>,
                                  h: seq<Moment>, res: Result)
    requires |turns| == 7
  {
    && |h| >= 5 && RevokesRow(h[4], stored.id, turns[4].write)
    && var rows := h[4].met.rows;
       if !turns[4].write.Applied? then |h| == 5 && res == Internal
       else if stored.id !in rows || rows[stored.id].revokedAt.Some? then |h| == 5 && res == NotFound
       else
         && |h| >= 6 && Marks(h[5], stored, at, turns[5].write)
         && if !turns[5].up then |h| == 6 && res == Internal
            else |h| == 7 && InsertOutcome(cfg, h[6], stored.user, rawNew, at, turns[6].write,
                                           turns[6].write.Applied? && turns[6].up, res)
  }

  // ----- login -----

  ghost predicate LoginOutcome(cfg: Config, user: UserId, password: string, raw: string, turns: seq<Turn>, h: seq<Moment>,
                               res: Result)
    requires |turns| == 4
  {
    && |h| >= 1 && OnlyReads(h[0])
    && var accounts := h[0].met.accounts;
       if !turns[0].up then |h| == 1 && res == Internal
       else if user !in accounts || !cfg.bcrypt(accounts[user].pwHash, password) then |h| == 1 && res == InvalidCredentials
       else
         && |h| >= 2 && OnlyReads(h[1])
         && if !turns[1].up then |h| == 2 && res == Internal
            else
              && |h| >= 3 && OnlyReads(h[2])
              && if !turns[2].up then |h| == 3 && res == Internal
                 else |h| == 4 && InsertOutcome(cfg, h[3], user, raw, h[2].met.now, turns[3].write,
                                                turns[3].write.Applied?, res)
  }

  // ----- logout -----

  /** Both writes are attempted whatever becomes of the other, and neither decides the answer. */
  ghost predicate LogoutOutcome(raw: string, turns: seq<Turn>, h: seq<Moment>, res: Result)
    requires |turns| == 4
  {
    var hash := HashToken(raw);
    && |h| >= 1 && OnlyReads(h[0])
    && if !turns[0].up then |h| == 1 && res == Internal
       else if forall x :: x in h[0].met.rows ==> h[0].met.rows[x].hash != hash then |h| == 1 && res == LoggedOut
       else
         && |h| == 4 && res == LoggedOut && OnlyReads(h[2])
         && exists stored :: Presented(h[0].met.rows, hash, stored)
              && RevokesRow(h[1], stored.id, turns[1].write) && Marks(h[3], stored, h[2].met.now, turns[3].write)
  }

  // ----- change password -----

  /** The answer, by the account as the first statement finds it and by how the statements fare. */
  function ChangeAnswer(cfg: Config, req: Request, newHash: string, turns: seq<Turn>, accounts: map<UserId, Account>): Result
    requires req.ChangePassword? && |turns| == 3
  {
    if !turns[0].up then Internal
    else if req.user !in accounts then NotFound
    else if !cfg.bcrypt(accounts[req.user].pwHash, req.current) then InvalidCredentials
    else if req.current == req.replacement then BadRequest
    else if !cfg.bcrypt(newHash, req.replacement) then Internal   // the new password cannot be hashed
    else if turns[1].write.Applied? && turns[2].write.Applied? then PasswordChanged
    else Internal
  }

  /** The account of the user, if there is one, gets the new hash. */
  predicate InstallsHash(m: Moment, user: UserId, newHash: string, write: Write) {
    if write.Failed? || user !in m.met.accounts then OnlyReads(m)
    else
      && user in m.left.accounts && m.left.accounts[user].pwHash == newHash
      && Leaves(m, m.met.rows, m.met.blacklist, m.met.accounts[user := m.left.accounts[user]])
  }

  /** Every unrevoked row of the user is revoked now; nothing else is touched. */
  predicate RevokesSessions(m: Moment, user: UserId, write: Write) {
    if write.Failed? then OnlyReads(m)
    else
      && Leaves(m, m.left.rows, m.met.blacklist, m.met.accounts) && m.left.rows.Keys == m.met.rows.Keys
      && forall x :: x in m.met.rows ==>
           m.left.rows[x] == if m.met.rows[x].user == user && m.met.rows[x].revokedAt.None?
                             then m.met.rows[x].(revokedAt := Some(m.met.now)) else m.met.rows[x]
  }

  /** A change that verifies installs the hash, and one whose hash is acknowledged revokes the sessions. */
  predicate ChangeOutcome(cfg: Config, req: Request, newHash: string, turns: seq<Turn>, h: seq<Moment>, res: Result)
    requires req.ChangePassword? && |turns| == 3
  {
    && |h| >= 1 && OnlyReads(h[0])
    && var accounts := h[0].met.accounts;
       && res == ChangeAnswer(cfg, req, newHash, turns, accounts)
       && if turns[0].up && req.user in accounts && cfg.bcrypt(accounts[req.user].pwHash, req.current)
             && req.current != req.replacement && cfg.bcrypt(newHash, req.replacement)
          then
            && |h| >= 2 && req.user in h[1].met.accounts && InstallsHash(h[1], req.user, newHash, turns[1].write)
            && if turns[1].write.Applied? then |h| == 3 && RevokesSessions(h[2], req.user, turns[2].write) else |h| == 2
          else |h| == 1
  }

  // ----- time and accounts in a run -----

  lemma MoveRuns(cfg: Config, s: State, th: Thread, env: Env)
    ensures var s' := MoveOf(cfg, s, th, env).s; s'.now == s.now && s.accounts.Keys <= s'.accounts.Keys
  {
    if Inserting(th.pc) {
      hide Fresh, NewToken;
      assert MoveOf(cfg, s, th, env).s.accounts == s.accounts;
    } else {
      EffectOf(cfg, s, th, env);
      hide MoveOf;
    }
  }

  lemma NextRuns(cfg: Config, s: State, a: Action)
    ensures s.now <= Next(cfg, s, a).now && s.accounts.Keys <= Next(cfg, s, a).accounts.Keys
  {
    hide MoveOf;
    if a.Run? && a.tid in s.threads {
      MoveRuns(cfg, s, s.threads[a.tid], a.env);
    }
  }

  lemma {:induction false} ExecRuns(cfg: Config, s: State, actions: seq<Action>)
    ensures s.now <= Exec(cfg, s, actions).now && s.accounts.Keys <= Exec(cfg, s, actions).accounts.Keys
    decreases |actions|
  {
    hide Next;
    if actions != [] {
      NextRuns(cfg, s, actions[0]);
      ExecRuns(cfg, Next(cfg, s, actions[0]), actions[1..]);
    }
  }

  /** The clock does not run backwards between the arrival, statement `k` and the end. */
  lemma {:induction false} HistoryRuns(cfg: Config, arrived: State, tid: nat, turns: seq<Turn>, h: seq<Moment>, k: nat)
    requires IsHistory(cfg, arrived, tid, turns, h) && k <= |h|
    ensures arrived.now <= (if k < |h| then h[k].met.now else Last(arrived, h).now) <= Last(arrived, h).now
    decreases |h|
  {
    hide Next, Exec;
    if h != [] {
      var n := |h| - 1;
      var shorter := h[..n];
      ExecRuns(cfg, Last(arrived, shorter), turns[n].others);
      NextRuns(cfg, h[n].met, h[n].action);
      HistoryRuns(cfg, arrived, tid, turns, shorter, if k < n then k else n);
    }
  }

  /** The first statement meets what its turn of the others makes of the state at the arrival. */
  lemma {:induction false} FirstMeets(cfg: Config, arrived: State, tid: nat, turns: seq<Turn>, h: seq<Moment>)
    requires IsHistory(cfg, arrived, tid, turns, h) && h != []
    ensures turns != [] && h[0].met == Exec(cfg, arrived, turns[0].others)
    decreases |h|
  {
    if |h| > 1 {
      FirstMeets(cfg, arrived, tid, turns, h[..|h| - 1]);
    }
  }

  /** What a statement meets is no older than the arrival and no newer than the end. */
  lemma RunRuns(cfg: Config, start: State, tid: nat, req: Request, turns: seq<Turn>, h: seq<Moment>, s: State, k: nat)
    requires IsRun(cfg, start, tid, req, turns, h, s) && k < |h|
    ensures start.now <= h[k].met.now <= s.now
  {
    ArrivingTouchesNothing(cfg, start, tid, req);
    hide Next, Exec;
    HistoryRuns(cfg, Next(cfg, start, Arrive(tid, req)), tid, turns, h, k);
  }

  // ----- undisturbed requests -----

  predicate Alone(turns: seq<Turn>) {
    forall i :: 0 <= i < |turns| ==> turns[i].others == []
  }

  /** Undisturbed, each statement meets what the one before it left. */
  lemma {:induction false} AloneMeets(cfg: Config, arrived: State, tid: nat, turns: seq<Turn>, h: seq<Moment>, k: nat)
    requires IsHistory(cfg, arrived, tid, turns, h) && Alone(turns) && k < |h|
    ensures h[k].met == if k == 0 then arrived else h[k - 1].left
    decreases |h|
  {
    if k < |h| - 1 {
      AloneMeets(cfg, arrived, tid, turns, h[..|h| - 1], k);
    }
  }

  /** A row with the presented hash that is unrevoked and unexpired, and whose hash is not blacklisted. */
  predicate Rotatable(s: State, hash: TokenHash, x: TokenId) {
    && x in s.rows && s.rows[x].hash == hash && s.rows[x].revokedAt.None? && s.now <= s.rows[x].expiresAt
    && !(hash in s.blacklist && s.now <= s.blacklist[hash])
  }

  /** Everything a refresh that succeeds depends on is up, and its two table writes are acknowledged. */
  predicate RefreshServed(turns: seq<Turn>)
    requires |turns| == 7
  {
    && turns[0].up && turns[1].up && turns[3].up && turns[5].up && turns[6].up
    && turns[4].write.Applied? && turns[6].write.Applied?
  }

  lemma SameRow(s: State, hash: TokenHash, stored: RefreshToken, x: TokenId)
    requires RowsOk(s.rows, s.links) && Presented(s.rows, hash, stored) && x in s.rows && s.rows[x].hash == hash
    ensures stored == s.rows[x] && stored.id == x
  {
    var y :| y in s.rows && s.rows[y] == stored;
  }

  /** What an undisturbed refresh of row `x` leaves when it is issued token `id`. */
  predicate RotatedAlone(cfg: Config, start: State, end: State, x: TokenId, rawNew: string, id: TokenId) {
    && x in start.rows && id !in start.rows
    && end.rows == start.rows[x := start.rows[x].(revokedAt := Some(start.now))]
         [id := RefreshToken(id := id, user := start.rows[x].user, hash := HashToken(rawNew), createdAt := start.now,
                             expiresAt := start.now + cfg.refreshTTL, revokedAt := None)]
    && end.accounts == start.accounts && end.now == start.now
  }

  /** Nobody else ran: the statements meet one another's tables, beginning with those of `start`. */
  predicate Undisturbed(start: State, h: seq<Moment>) {
    && (h != [] ==> h[0].met.rows == start.rows && h[0].met.blacklist == start.blacklist
                    && h[0].met.accounts == start.accounts && h[0].met.now == start.now)
    && forall k {:trigger h[k].met} :: 1 <= k < |h| ==> h[k].met == h[k - 1].left
  }

  lemma AloneIsUndisturbed(cfg: Config, start: State, tid: nat, req: Request, turns: seq<Turn>, h: seq<Moment>, s: State)
    requires IsRun(cfg, start, tid, req, turns, h, s) && Alone(turns)
    ensures Undisturbed(start, h) && (h != [] ==> s == h[|h| - 1].left)
  {
    var arrived := Next(cfg, start, Arrive(tid, req));
    hide Next, Exec, Alone;
    assert SameStores(start, arrived) by { ArrivingTouchesNothing(cfg, start, tid, req); }
    if h != [] {
      AloneMeets(cfg, arrived, tid, turns, h, 0);
    }
    forall k {:trigger h[k].met} | 1 <= k < |h| ensures h[k].met == h[k - 1].left {
      AloneMeets(cfg, arrived, tid, turns, h, k);
    }
  }

  predicate SameStores(s: State, s': State) {
    s'.rows == s.rows && s'.blacklist == s.blacklist && s'.accounts == s.accounts && s'.now == s.now
  }

  lemma ArrivingTouchesNothing(cfg: Config, s: State, tid: nat, req: Request)
    ensures SameStores(s, Next(cfg, s, Arrive(tid, req)))
  {
  }

  /** An undisturbed refresh whose statements are served is issued a token if it presents a live one. */
  lemma ServedIsIssued(cfg: Config, start: State, raw: string, rawNew: string, turns: seq<Turn>, h: seq<Moment>,
                       res: Result, x: TokenId)
    requires |turns| == 7 && RowsOk(start.rows, start.links) && Undisturbed(start, h)
    requires RefreshOutcome(cfg, raw, rawNew, turns, h, res)
    requires RefreshServed(turns) && Rotatable(start, HashToken(raw), x)
    ensures res.Issued?
  {
    hide RowsOk;
    var hash := HashToken(raw);
    assert exists y :: y in h[1].met.rows && h[1].met.rows[y].hash == hash by { assert x in h[1].met.rows; }
    var stored :| Presented(h[1].met.rows, hash, stored) && FoundOutcome(cfg, stored, rawNew, turns, h, res);
    SameRow(start, hash, stored, x);
  }

  /** And only then; it revokes that row and inserts the new one. */
  lemma IssuedIsServed(cfg: Config, start: State, raw: string, rawNew: string, turns: seq<Turn>, h: seq<Moment>,
                       res: Result)
    returns (x: TokenId)
    requires |turns| == 7 && RowsOk(start.rows, start.links) && Undisturbed(start, h)
    requires RefreshOutcome(cfg, raw, rawNew, turns, h, res) && res.Issued?
    ensures RefreshServed(turns) && Rotatable(start, HashToken(raw), x)
    ensures |h| == 7 && RotatedAlone(cfg, start, h[6].left, x, rawNew, res.token)
  {
    hide RowsOk;
    var hash := HashToken(raw);
    var stored :| Presented(h[1].met.rows, hash, stored) && FoundOutcome(cfg, stored, rawNew, turns, h, res);
    x :| x in start.rows && start.rows[x] == stored;
    SameRow(start, hash, stored, x);
  }

  /** An undisturbed refresh is issued a token if and only if it presents a live row whose hash is not
      blacklisted and everything it depends on is served; then that row is revoked and the new one inserted. */
  lemma RefreshAlone(cfg: Config, start: State, tid: nat, raw: string, rawNew: string, turns: seq<Turn>,
                     h: seq<Moment>, end: State, res: Result)
    requires |turns| == 7 && Alone(turns) && RowsOk(start.rows, start.links)
    requires IsRun(cfg, start, tid, Refresh(raw), turns, h, end) && RefreshOutcome(cfg, raw, rawNew, turns, h, res)
    ensures res.Issued? <==> RefreshServed(turns) && exists x :: Rotatable(start, HashToken(raw), x)
    ensures res.Issued? ==>
      exists x :: Rotatable(start, HashToken(raw), x) && RotatedAlone(cfg, start, end, x, rawNew, res.token)
  {
    AloneIsUndisturbed(cfg, start, tid, Refresh(raw), turns, h, end);
    hide IsRun, RowsOk, RefreshOutcome, Rotatable, RotatedAlone, RefreshServed, Undisturbed;
    if res.Issued? {
      var x := IssuedIsServed(cfg, start, raw, rawNew, turns, h, res);
    } else if RefreshServed(turns) && exists x :: Rotatable(start, HashToken(raw), x) {
      var x :| Rotatable(start, HashToken(raw), x);
      ServedIsIssued(cfg, start, raw, rawNew, turns, h, res, x);
    }
  }

  predicate LoginServed(turns: seq<Turn>)
    requires |turns| == 4
  {
    turns[0].up && turns[1].up && turns[2].up && turns[3].write.Applied?
  }

  /** A login is issued a token if and only if it knows the password and everything it depends on is served,
      whatever the others do. */
  lemma LoginExactly(cfg: Config, user: UserId, password: string, raw: string, turns: seq<Turn>, h: seq<Moment>,
                     res: Result)
    requires |turns| == 4 && LoginOutcome(cfg, user, password, raw, turns, h, res)
    ensures h != []
    ensures res.Issued? <==>
      LoginServed(turns) && user in h[0].met.accounts && cfg.bcrypt(h[0].met.accounts[user].pwHash, password)
    ensures res.Issued? ==>
      |h| == 4 && OnlyReads(h[0]) && OnlyReads(h[1]) && OnlyReads(h[2])
      && Inserts(cfg, h[3], user, raw, h[2].met.now, res.token)
  {
    hide OnlyReads, Inserts;
  }

  lemma AddsOneRow(cfg: Config, start: State, user: UserId, raw: string, h: seq<Moment>, id: TokenId)
    requires |h| == 4 && Undisturbed(start, h) && OnlyReads(h[0]) && OnlyReads(h[1]) && OnlyReads(h[2])
    requires Inserts(cfg, h[3], user, raw, h[2].met.now, id)
    ensures InsertedAlone(cfg, start, h[3].left, user, raw, id)
  {
    assert h[1].met == h[0].left && h[2].met == h[1].left && h[3].met == h[2].left;
  }

  /** What an undisturbed login leaves: one row more, and nothing else. */
  predicate InsertedAlone(cfg: Config, start: State, end: State, user: UserId, raw: string, id: TokenId) {
    && id !in start.rows && end.blacklist == start.blacklist && end.accounts == start.accounts && end.now == start.now
    && end.rows == start.rows[id := RefreshToken(id := id, user := user, hash := HashToken(raw), createdAt := start.now,
                                                 expiresAt := start.now + cfg.refreshTTL, revokedAt := None)]
  }

  /** An undisturbed login that is issued a token adds that one row and nothing else. */
  lemma LoginAlone(cfg: Config, start: State, tid: nat, user: UserId, password: string, raw: string, turns: seq<Turn>,
                   h: seq<Moment>, end: State, res: Result)
    requires |turns| == 4 && IsRun(cfg, start, tid, Login(user, password), turns, h, end) && Alone(turns)
    requires LoginOutcome(cfg, user, password, raw, turns, h, res) && res.Issued?
    ensures InsertedAlone(cfg, start, end, user, raw, res.token)
  {
    hide IsRun, OnlyReads, Inserts, InsertedAlone, LoginOutcome, Undisturbed;
    AloneIsUndisturbed(cfg, start, tid, Login(user, password), turns, h, end);
    LoginExactly(cfg, user, password, raw, turns, h, res);
    AddsOneRow(cfg, start, user, raw, h, res.token);
  }

  /** What an undisturbed logout leaves of the token in row `x`. */
  predicate EndedAlone(start: State, end: State, x: TokenId, rowWrite: Write, markWrite: Write) {
    && x in start.rows && end.accounts == start.accounts
    && end.rows == (if rowWrite.Failed? || start.rows[x].revokedAt.Some? then start.rows
                    else start.rows[x := start.rows[x].(revokedAt := Some(start.now))])
    && end.blacklist == if markWrite.Failed? || start.rows[x].expiresAt <= start.now then start.blacklist
                        else start.blacklist[start.rows[x].hash := start.rows[x].expiresAt]
  }

  lemma EndsRow(start: State, turns: seq<Turn>, h: seq<Moment>, stored: RefreshToken, x: TokenId)
    requires |turns| == 4 && |h| == 4 && Undisturbed(start, h) && OnlyReads(h[0]) && OnlyReads(h[2])
    requires x in start.rows && start.rows[x] == stored && stored.id == x
    requires RevokesRow(h[1], stored.id, turns[1].write) && Marks(h[3], stored, h[2].met.now, turns[3].write)
    ensures EndedAlone(start, h[3].left, x, turns[1].write, turns[3].write)
  {
    assert h[1].met == h[0].left && h[2].met == h[1].left && h[3].met == h[2].left;
  }

  lemma LogoutFinds(start: State, raw: string, turns: seq<Turn>, h: seq<Moment>, res: Result, x: TokenId)
    requires |turns| == 4 && RowsOk(start.rows, start.links) && Undisturbed(start, h) && LogoutOutcome(raw, turns, h, res)
    requires turns[0].up && x in start.rows && start.rows[x].hash == HashToken(raw)
    ensures res == LoggedOut && |h| == 4 && EndedAlone(start, h[3].left, x, turns[1].write, turns[3].write)
  {
    hide RowsOk, OnlyReads, RevokesRow, Marks, EndedAlone;
    var hash := HashToken(raw);
    assert exists y :: y in h[0].met.rows && h[0].met.rows[y].hash == hash by { assert x in h[0].met.rows; }
    var stored :| Presented(h[0].met.rows, hash, stored)
      && RevokesRow(h[1], stored.id, turns[1].write) && Marks(h[3], stored, h[2].met.now, turns[3].write);
    SameRow(start, hash, stored, x);
    EndsRow(start, turns, h, stored, x);
  }

  /** An undisturbed logout of a known token leaves its row revoked and, if it has time left, its hash
      blacklisted to its expiry, each if its write is applied. */
  lemma LogoutAlone(cfg: Config, start: State, tid: nat, raw: string, turns: seq<Turn>, h: seq<Moment>, end: State,
                    res: Result, x: TokenId)
    requires |turns| == 4 && Alone(turns) && RowsOk(start.rows, start.links)
    requires IsRun(cfg, start, tid, Logout(raw), turns, h, end) && LogoutOutcome(raw, turns, h, res)
    requires turns[0].up && x in start.rows && start.rows[x].hash == HashToken(raw)
    ensures res == LoggedOut && EndedAlone(start, end, x, turns[1].write, turns[3].write)
  {
    hide IsRun, RowsOk, Undisturbed, EndedAlone, LogoutOutcome;
    AloneIsUndisturbed(cfg, start, tid, Logout(raw), turns, h, end);
    LogoutFinds(start, raw, turns, h, res, x);
  }
}
