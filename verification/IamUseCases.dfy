/**
 The use cases as written: straight-line code over the stores. Before each statement the other
 requests of the system may run for as long as they like. Every execution is shown to be a run of the
 interleaving model, so what holds of all its runs holds of this code.
 */
module IamUseCases {
  import opened Collections
  import opened Tokens
  import opened Rotation
  import opened Invariant
  import opened Origins
  import opened TokenStores
  import opened IamOutcomes

  predicate OthersOnly(others: seq<Action>, tid: nat) {
    forall a :: a in others && a.Run? ==> a.tid != tid
  }

  lemma {:induction false} OthersLeaveThread(cfg: Config, s: State, others: seq<Action>, tid: nat)
    requires OthersOnly(others, tid) && tid in s.threads
    ensures var s' := Exec(cfg, s, others); tid in s'.threads && s'.threads[tid] == s.threads[tid]
    decreases |others|
  {
    if others != [] {
      var s' := Next(cfg, s, others[0]);
      assert tid in s'.threads && s'.threads[tid] == s.threads[tid] by {
        hide MoveOf;
        if others[0].Run? && others[0].tid in s.threads {
          MoveLeavesThreads(cfg, s, s.threads[others[0].tid], others[0].env);
        }
      }
      OthersLeaveThread(cfg, s', others[1..], tid);
    }
  }

  lemma RowsAreOk(s: State)
    requires Inv(s)
    ensures RowsOk(s.rows, s.links)
  {
  }

  lemma RunKeeps(cfg: Config, start: State, tid: nat, req: Request, turns: seq<Turn>, h: seq<Moment>, s: State)
    requires Inv(start) && IsRun(cfg, start, tid, req, turns, h, s)
    ensures Inv(s)
  {
    hide Inv, Later, Next, Exec;
    ExecKeeps(cfg, start, Trace(tid, req, turns, h));
  }

  lemma HeldRow(s: State, tid: nat)
    requires Inv(s) && tid in s.threads && s.threads[tid].pc.InFlight()
    ensures var stored := s.threads[tid].pc.stored;
      && stored.id in s.links && stored.id in s.rows && s.rows[stored.id].IsRevoked()
      && s.rows[stored.id].hash == stored.hash && s.rows[stored.id].user == stored.user
  {
    assert ThreadOk(s, s.threads[tid]);
  }

  /** The insert of the successor, spelled out as the effect of INSERT on the table. */
  lemma InsertSpelledOut(cfg: Config, s: State, tid: nat, raw: string, stored: RefreshToken, at: Time, env: Env)
    requires tid in s.threads && s.threads[tid] == Thread(Refresh(raw), RefreshInsert(stored, at))
    requires Fresh(s, env.id, env.raw) && stored.id in s.links
    ensures var token := NewToken(cfg, stored.user, at, env);
      var link := Link(Some(stored.id), s.links[stored.id].root, |s.rows|, s.links[stored.id].checked);
      var res := if env.write.Applied? && env.up then Issued(env.id) else Internal;
      var threads' := s.threads[tid := Thread(Refresh(raw), Done(res))];
      Next(cfg, s, Run(tid, env)) ==
        if env.write.Failed? then s.(threads := threads')
        else s.(rows := s.rows[env.id := token], links := s.links[env.id := link],
                heirs := s.heirs[stored.id := env.id], threads := threads')
  {
  }

  /** The insert of a login's row, spelled out likewise. */
  lemma LoginInsertSpelledOut(cfg: Config, s: State, tid: nat, req: Request, checked: nat, at: Time, env: Env)
    requires req.Login? && tid in s.threads && s.threads[tid] == Thread(req, LoginInsert(checked, at))
    requires Fresh(s, env.id, env.raw)
    ensures var token := NewToken(cfg, req.user, at, env);
      var res := if env.write.Applied? then Issued(env.id) else Internal;
      var threads' := s.threads[tid := Thread(req, Done(res))];
      Next(cfg, s, Run(tid, env)) ==
        if env.write.Failed? then s.(threads := threads')
        else s.(rows := s.rows[env.id := token], links := s.links[env.id := Link(None, env.id, |s.rows|, checked)],
                threads := threads')
  {
  }

  /** The update of the password hash, spelled out likewise. */
  lemma PasswordSpelledOut(cfg: Config, s: State, tid: nat, req: Request, newHash: string, env: Env)
    requires req.ChangePassword? && tid in s.threads && s.threads[tid] == Thread(req, ChangeUpdate(newHash))
    ensures var known := req.user in s.accounts;
      var version := if known then s.accounts[req.user].version + 1 else 0;
      var pc := if env.write.Applied? then (if known then ChangeRevokeAll(version) else Done(NotFound)) else Done(Internal);
      var threads' := s.threads[tid := Thread(req, pc)];
      Next(cfg, s, Run(tid, env)) ==
        if env.write.Failed? || !known then s.(threads := threads')
        else s.(accounts := s.accounts[req.user := Account(newHash, version)], threads := threads')
  {
  }

  /** The process: its stores, its clock and the requests it is serving. */
  class Service {
    const cfg: Config
    const tokens: RefreshTokenRepository
    const blacklist: TokenBlacklist
    const users: UserRepository
    var now: Time
    var threads: map<nat, Thread>

    constructor (cfg: Config, now: Time)
      ensures View() == Init(now) && this.cfg == cfg
      ensures fresh(tokens) && fresh(blacklist) && fresh(users)
    {
      this.cfg, this.now, this.threads := cfg, now, map[];
      tokens := new RefreshTokenRepository();
      blacklist := new TokenBlacklist();
      users := new UserRepository();
    }

    function View(): State
      reads this, tokens, blacklist, users
    {
      State(now, tokens.rows, blacklist.entries, users.accounts, threads, tokens.links, tokens.heirs)
    }

    /** The other requests run. */
    method Yield(tid: nat, others: seq<Action>)
      requires tid in threads && OthersOnly(others, tid)
      modifies this, tokens, blacklist, users
      ensures View() == Exec(cfg, old(View()), others)
      ensures tid in threads && threads[tid] == old(threads[tid])
    {
      var s := Exec(cfg, View(), others);
      OthersLeaveThread(cfg, View(), others, tid);
      now, threads := s.now, s.threads;
      tokens.rows, tokens.links, tokens.heirs := s.rows, s.links, s.heirs;
      blacklist.entries := s.blacklist;
      users.accounts := s.accounts;
    }

    method NewToken() returns (id: TokenId, raw: string)
      ensures Fresh(View(), id, raw)
    {
      ghost var unusedId := UpperBound(tokens.rows.Keys);
      assert unusedId !in tokens.rows;
      id :| id !in tokens.rows;
      var hashes := (set x | x in tokens.rows :: tokens.rows[x].hash) + blacklist.entries.Keys;
      ghost var unused := UnusedRaw(hashes);
      assert HashToken(unused) !in hashes;
      raw :| HashToken(raw) !in hashes;
    }

    /** Thread `tid` stands at `pc` of request `req`, and the next statement may be disturbed by others only. */
    predicate Ready(tid: nat, req: Request, pc: Pc, turn: Turn)
      reads this
    {
      tid in threads && threads[tid] == Thread(req, pc) && OthersOnly(turn.others, tid)
    }

    /** From state `before`, the others of `turn` ran, thread `tid` performed its statement and stands as `th`. */
    predicate Performed(before: State, turn: Turn, tid: nat, m: Moment, th: Thread)
      reads this, tokens, blacklist, users
    {
      Follows(cfg, before, turn, tid, m) && m.left == View() && tid in threads && threads[tid] == th
    }

    /** A request arrives. */
    method Accept(tid: nat, req: Request, ghost turns: seq<Turn>) returns (ghost h: seq<Moment>)
      requires tid !in threads
      modifies `threads
      ensures threads == old(threads)[tid := Thread(req, Start)]
      ensures h == [] && IsRun(cfg, old(View()), tid, req, turns, h, View())
    {
      Arrives(cfg, View(), tid, req, turns);
      threads := threads[tid := Thread(req, Start)];
      h := [];
    }

    /** The token `rawNew` is the successor of the token `raw`, which is revoked. */
    ghost predicate Rotated(raw: string, rawNew: string, id: TokenId)
      reads tokens
    {
      exists x {:trigger tokens.rows[x]} ::
        && x in tokens.rows && tokens.rows[x].hash == HashToken(raw) && tokens.rows[x].IsRevoked()
        && x in tokens.heirs && tokens.heirs[x] == id && id in tokens.rows
        && tokens.rows[id].hash == HashToken(rawNew) && tokens.rows[id].user == tokens.rows[x].user
    }

    /** Row `id` was created for the token at `at`, unrevoked, and lives for the configured time from then. */
    predicate IsNew(id: TokenId, raw: string, user: UserId, at: Time)
      reads tokens
    {
      && id in tokens.rows && tokens.rows[id].id == id && tokens.rows[id].hash == HashToken(raw)
      && tokens.rows[id].user == user && tokens.rows[id].createdAt == at && tokens.rows[id].revokedAt.None?
      && tokens.rows[id].expiresAt == at + cfg.refreshTTL
    }

    /** Row `id` was so created at some instant from `before` until now. */
    predicate CreatedSince(id: TokenId, raw: string, before: State)
      reads this, tokens, blacklist, users
    {
      && id in tokens.rows && before.now <= tokens.rows[id].createdAt <= View().now
      && IsNew(id, raw, tokens.rows[id].user, tokens.rows[id].createdAt)
    }

    // ----- the statements of a refresh -----

    method CheckBlacklist(tid: nat, raw: string, turn: Turn) returns (error: Option<Result>, ghost m: Moment)
      requires Ready(tid, Refresh(raw), Start, turn)
      modifies this, tokens, blacklist, users
      ensures OnlyReads(m)
      ensures var b, hash := m.met.blacklist, HashToken(raw);
        error == if !turn.up then Some(BlacklistUnavailable)
                 else if hash in b && m.met.now <= b[hash] then Some(TokenRevoked) else None
      ensures Performed(old(View()), turn, tid, m,
        Thread(Refresh(raw), if error.Some? then Done(error.value) else RefreshFind))
    {
      Yield(tid, turn.others);
      ghost var met := View();
      var revoked;
      revoked, error := blacklist.IsRevoked(HashToken(raw), now, turn.up);
      if error.None? && revoked {
        error := Some(TokenRevoked);
      }
      threads := threads[tid := Thread(Refresh(raw), if error.Some? then Done(error.value) else RefreshFind)];
      m := Moment(met, Run(tid, Env(turn.up, turn.write, None, 0, "")), View());
    }

    /** An unknown token is an invalid one; any other failure is passed on. */
    method LookUp(tid: nat, raw: string, turn: Turn)
      returns (stored: Option<RefreshToken>, error: Option<Result>, ghost m: Moment)
      requires Ready(tid, Refresh(raw), RefreshFind, turn)
      modifies this, tokens, blacklist, users
      ensures OnlyReads(m)
      ensures error == Some(Internal) <==> !turn.up
      ensures error == Some(TokenInvalid) <==>
        turn.up && forall x :: x in m.met.rows ==> m.met.rows[x].hash != HashToken(raw)
      ensures error in {None, Some(Internal), Some(TokenInvalid)}
      ensures error.None? ==> stored.Some? && Presented(m.met.rows, HashToken(raw), stored.value)
      ensures Performed(old(View()), turn, tid, m,
        Thread(Refresh(raw), if error.Some? then Done(error.value) else RefreshClock(stored.value)))
    {
      Yield(tid, turn.others);
      ghost var met := View();
      var found;
      found, error := tokens.FindByHash(HashToken(raw), turn.up);
      stored := if found.Some? then Some(tokens.rows[found.value]) else None;
      if error == Some(NotFound) {
        error := Some(TokenInvalid);
      }
      threads := threads[tid := Thread(Refresh(raw),
        if error.Some? then Done(error.value) else RefreshClock(stored.value))];
      m := Moment(met, Run(tid, Env(turn.up, turn.write, found, 0, "")), View());
    }

    method ReadClock(tid: nat, raw: string, stored: RefreshToken, turn: Turn) returns (at: Time, ghost m: Moment)
      requires Ready(tid, Refresh(raw), RefreshClock(stored), turn)
      modifies this, tokens, blacklist, users
      ensures OnlyReads(m) && at == m.met.now
      ensures Performed(old(View()), turn, tid, m, Thread(Refresh(raw),
        if stored.IsExpired(at) then Done(TokenExpired)
        else if stored.IsRevoked() then RefreshSync(stored, at) else RefreshRoles(stored, at)))
    {
      Yield(tid, turn.others);
      ghost var met := View();
      at := now;
      threads := threads[tid := Thread(Refresh(raw),
        if stored.IsExpired(at) then Done(TokenExpired)
        else if stored.IsRevoked() then RefreshSync(stored, at) else RefreshRoles(stored, at))];
      m := Moment(met, Run(tid, Env(turn.up, turn.write, None, 0, "")), View());
    }

    method SyncBlacklist(tid: nat, raw: string, stored: RefreshToken, at: Time, turn: Turn) returns (ghost m: Moment)
      requires Ready(tid, Refresh(raw), RefreshSync(stored, at), turn)
      modifies this, tokens, blacklist, users
      ensures Marks(m, stored, at, turn.write)
      ensures Performed(old(View()), turn, tid, m, Thread(Refresh(raw), Done(TokenRevoked)))
    {
      Yield(tid, turn.others);
      ghost var met := View();
      blacklist.Revoke(stored.hash, stored.RemainingLifetime(at), now, turn.write);
      threads := threads[tid := Thread(Refresh(raw), Done(TokenRevoked))];
      m := Moment(met, Run(tid, Env(turn.up, turn.write, None, 0, "")), View());
    }

    method LoadRoles(tid: nat, raw: string, stored: RefreshToken, at: Time, turn: Turn) returns (ghost m: Moment)
      requires Ready(tid, Refresh(raw), RefreshRoles(stored, at), turn)
      modifies this, tokens, blacklist, users
      ensures OnlyReads(m)
      ensures Performed(old(View()), turn, tid, m, Thread(Refresh(raw),
        if !turn.up then Done(Internal) else RefreshRevoke(stored, at)))
    {
      Yield(tid, turn.others);
      ghost var met := View();
      threads := threads[tid := Thread(Refresh(raw), if !turn.up then Done(Internal) else RefreshRevoke(stored, at))];
      m := Moment(met, Run(tid, Env(turn.up, turn.write, None, 0, "")), View());
    }

    /** The compare-and-set: an acknowledged write on an unrevoked row goes on, one on a revoked row does not. */
    method RevokeOld(tid: nat, raw: string, stored: RefreshToken, at: Time, turn: Turn)
      returns (error: Option<Result>, ghost m: Moment)
      requires Ready(tid, Refresh(raw), RefreshRevoke(stored, at), turn)
      modifies this, tokens, blacklist, users
      ensures RevokesRow(m, stored.id, turn.write)
      ensures var live := stored.id in m.met.rows && m.met.rows[stored.id].revokedAt.None?;
        error == if !turn.write.Applied? then Some(Internal) else if !live then Some(NotFound) else None
      ensures Performed(old(View()), turn, tid, m, Thread(Refresh(raw),
        if error.Some? then Done(error.value) else RefreshMark(stored, at)))
    {
      Yield(tid, turn.others);
      ghost var met := View();
      error := tokens.Revoke(stored.id, now, turn.write);
      threads := threads[tid := Thread(Refresh(raw),
        if error.Some? then Done(error.value) else RefreshMark(stored, at))];
      m := Moment(met, Run(tid, Env(turn.up, turn.write, None, 0, "")), View());
    }

    method MarkOld(tid: nat, raw: string, stored: RefreshToken, at: Time, turn: Turn) returns (ghost m: Moment)
      requires Ready(tid, Refresh(raw), RefreshMark(stored, at), turn)
      modifies this, tokens, blacklist, users
      ensures Marks(m, stored, at, turn.write)
      ensures Performed(old(View()), turn, tid, m, Thread(Refresh(raw),
        if !turn.up then Done(Internal) else RefreshInsert(stored, at)))
    {
      Yield(tid, turn.others);
      ghost var met := View();
      blacklist.Revoke(stored.hash, stored.RemainingLifetime(at), now, turn.write);
      threads := threads[tid := Thread(Refresh(raw), if !turn.up then Done(Internal) else RefreshInsert(stored, at))];
      m := Moment(met, Run(tid, Env(turn.up, turn.write, None, 0, "")), View());
    }

    method InsertSuccessor(tid: nat, raw: string, stored: RefreshToken, at: Time, turn: Turn)
      returns (res: Result, rawNew: string, ghost m: Moment)
      requires Ready(tid, Refresh(raw), RefreshInsert(stored, at), turn) && Inv(View())
      modifies this, tokens, blacklist, users
      ensures InsertOutcome(cfg, m, stored.user, rawNew, at, turn.write, turn.write.Applied? && turn.up, res)
      ensures res.Issued? ==> IsNew(res.token, rawNew, stored.user, at)
      ensures res.Issued? && stored.hash == HashToken(raw) ==> Rotated(raw, rawNew, res.token)
      ensures Performed(old(View()), turn, tid, m, Thread(Refresh(raw), Done(res)))
    {
      ExecKeeps(cfg, View(), turn.others);
      Yield(tid, turn.others);
      HeldRow(View(), tid);
      hide Inv, Later, Next, Fresh, Exec, InsertOutcome;
      var id;
      id, rawNew := NewToken();
      res, m := WriteSuccessor(tid, raw, stored, at, turn, id, rawNew);
    }

    /** The insert itself, once nobody else can run any more. */
    method WriteSuccessor(tid: nat, raw: string, stored: RefreshToken, at: Time, turn: Turn, id: TokenId,
                          rawNew: string)
      returns (res: Result, ghost m: Moment)
      requires tid in threads && threads[tid] == Thread(Refresh(raw), RefreshInsert(stored, at))
      requires Fresh(View(), id, rawNew) && stored.id in tokens.links
      requires stored.id in tokens.rows && tokens.rows[stored.id].IsRevoked()
      requires tokens.rows[stored.id].hash == stored.hash && tokens.rows[stored.id].user == stored.user
      modifies this, tokens
      ensures InsertOutcome(cfg, m, stored.user, rawNew, at, turn.write, turn.write.Applied? && turn.up, res)
      ensures res.Issued? ==> IsNew(res.token, rawNew, stored.user, at)
      ensures res.Issued? && stored.hash == HashToken(raw) ==> Rotated(raw, rawNew, res.token)
      ensures m == Moment(old(View()), m.action, View())
      ensures m.action.Run? && m.action.tid == tid && m.left == Next(cfg, m.met, m.action)
      ensures tid in threads && threads[tid] == Thread(Refresh(raw), Done(res))
    {
      ghost var met := View();
      var env := Env(turn.up, turn.write, None, id, rawNew);
      var link := Link(Some(stored.id), tokens.links[stored.id].root, |tokens.rows|, tokens.links[stored.id].checked);
      InsertSpelledOut(cfg, View(), tid, raw, stored, at, env);
      assert id != stored.id && forall x :: x in met.rows ==> met.rows[x].hash != HashToken(rawNew);
      hide Next, Fresh;
      var ok := tokens.Create(RefreshToken(id, stored.user, HashToken(rawNew), at + cfg.refreshTTL, at, None), link, turn.write);
      res := if ok && turn.up then Issued(id) else Internal;
      assert res.Issued? && stored.hash == HashToken(raw) ==> Rotated(raw, rawNew, id) by {
        assert stored.id in tokens.rows;
      }
      threads := threads[tid := Thread(Refresh(raw), Done(res))];
      m := Moment(met, Run(tid, env), View());
      assert !turn.write.Failed? ==> Inserts(cfg, m, stored.user, rawNew, at, id);
    }

    /** RefreshUseCase.Execute. Whatever the others do in between, it is a run of the model that ends
        with its answer, and answers and writes as its cases say. */
    method ExecuteRefresh(tid: nat, raw: string, turns: seq<Turn>)
      returns (res: Result, rawNew: string, ghost h: seq<Moment>)
      requires Inv(View()) && tid !in threads && |turns| == 7
      requires forall i :: 0 <= i < |turns| ==> OthersOnly(turns[i].others, tid)
      modifies this, tokens, blacklist, users
      ensures IsRun(cfg, old(View()), tid, Refresh(raw), turns, h, View())
      ensures tid in threads && threads[tid] == Thread(Refresh(raw), Done(res))
      ensures RefreshOutcome(cfg, raw, rawNew, turns, h, res)
      ensures res.Issued? ==> Rotated(raw, rawNew, res.token) && CreatedSince(res.token, rawNew, old(View()))
      ensures Alone(turns) ==>
        (res.Issued? <==> RefreshServed(turns) && exists x :: Rotatable(old(View()), HashToken(raw), x))
      ensures Alone(turns) && res.Issued? ==>
        exists x :: Rotatable(old(View()), HashToken(raw), x) && RotatedAlone(cfg, old(View()), View(), x, rawNew, res.token)
    {
      hide Inv, Next, Exec, Later, IsRun, RefreshOutcome;
      ghost var start := View();
      res, rawNew, h := RunRefresh(tid, raw, turns);
      if Alone(turns) {
        assert RowsOk(start.rows, start.links) by { RowsAreOk(start); }
        RefreshAlone(cfg, start, tid, raw, rawNew, turns, h, View(), res);
      }
    }

    /** The use case up to the row that the token names. */
    method RunRefresh(tid: nat, raw: string, turns: seq<Turn>)
      returns (res: Result, rawNew: string, ghost h: seq<Moment>)
      requires Inv(View()) && tid !in threads && |turns| == 7
      requires forall i :: 0 <= i < |turns| ==> OthersOnly(turns[i].others, tid)
      modifies this, tokens, blacklist, users
      ensures IsRun(cfg, old(View()), tid, Refresh(raw), turns, h, View())
      ensures tid in threads && threads[tid] == Thread(Refresh(raw), Done(res))
      ensures RefreshOutcome(cfg, raw, rawNew, turns, h, res)
      ensures res.Issued? ==> Rotated(raw, rawNew, res.token) && CreatedSince(res.token, rawNew, old(View()))
    {
      hide Inv, Next, Exec, Later, Rotated, CreatedSince, IsRun, Follows, OnlyReads, FoundOutcome, View;
      ghost var start := View();
      ghost var m;
      var req := Refresh(raw);
      rawNew := "";
      h := Accept(tid, req, turns);

      // 1. blacklist first
      var error;
      error, m := CheckBlacklist(tid, raw, turns[0]);
      h := Extend(cfg, start, tid, req, turns, h, m);
      if error.Some? { return error.value, rawNew, h; }

      // 2. the row
      var found;
      found, error, m := LookUp(tid, raw, turns[1]);
      h := Extend(cfg, start, tid, req, turns, h, m);
      if error.Some? { return error.value, rawNew, h; }
      res, rawNew, h := Present(tid, raw, found.value, turns, start, h);
    }

    /** The use case from the row on: expiry, revocation, roles. */
    method Present(tid: nat, raw: string, stored: RefreshToken, turns: seq<Turn>, ghost start: State,
                   ghost before: seq<Moment>)
      returns (res: Result, rawNew: string, ghost h: seq<Moment>)
      requires Inv(start) && |turns| == 7 && |before| == 2 && IsRun(cfg, start, tid, Refresh(raw), turns, before, View())
      requires View() == before[1].left
      requires Ready(tid, Refresh(raw), RefreshClock(stored), turns[2]) && stored.hash == HashToken(raw)
      requires forall i :: 0 <= i < |turns| ==> OthersOnly(turns[i].others, tid)
      modifies this, tokens, blacklist, users
      ensures before <= h && IsRun(cfg, start, tid, Refresh(raw), turns, h, View())
      ensures tid in threads && threads[tid] == Thread(Refresh(raw), Done(res))
      ensures FoundOutcome(cfg, stored, rawNew, turns, h, res)
      ensures res.Issued? ==> Rotated(raw, rawNew, res.token) && CreatedSince(res.token, rawNew, start)
    {
      hide Inv, Next, Exec, Later, Rotated, CreatedSince, IsRun, Follows, OnlyReads, Marks, RotationOutcome, View;
      ghost var m;
      var req := Refresh(raw);
      rawNew := "";
      var at;
      at, m := ReadClock(tid, raw, stored, turns[2]);
      h := Extend(cfg, start, tid, req, turns, before, m);
      if stored.IsExpired(at) { return TokenExpired, rawNew, h; }
      if stored.IsRevoked() {
        m := SyncBlacklist(tid, raw, stored, at, turns[3]);
        h := Extend(cfg, start, tid, req, turns, h, m);
        return TokenRevoked, rawNew, h;
      }

      // 3. roles
      m := LoadRoles(tid, raw, stored, at, turns[3]);
      h := Extend(cfg, start, tid, req, turns, h, m);
      if !turns[3].up { return Internal, rawNew, h; }
      res, rawNew, h := Rotate(tid, raw, stored, at, turns, start, h);
    }

    /** The use case from the compare-and-set on. */
    method Rotate(tid: nat, raw: string, stored: RefreshToken, at: Time, turns: seq<Turn>, ghost start: State,
                  ghost before: seq<Moment>)
      returns (res: Result, rawNew: string, ghost h: seq<Moment>)
      requires Inv(start) && |turns| == 7 && |before| == 4 && IsRun(cfg, start, tid, Refresh(raw), turns, before, View())
      requires View() == before[3].left && before[2].met.now == at && stored.hash == HashToken(raw)
      requires Ready(tid, Refresh(raw), RefreshRevoke(stored, at), turns[4])
      requires forall i :: 0 <= i < |turns| ==> OthersOnly(turns[i].others, tid)
      modifies this, tokens, blacklist, users
      ensures before <= h && IsRun(cfg, start, tid, Refresh(raw), turns, h, View())
      ensures tid in threads && threads[tid] == Thread(Refresh(raw), Done(res))
      ensures RotationOutcome(cfg, stored, at, rawNew, turns, h, res)
      ensures res.Issued? ==> Rotated(raw, rawNew, res.token) && CreatedSince(res.token, rawNew, start)
    {
      hide Inv, Next, Exec, Later, Rotated, IsRun, Follows, Marks, RevokesRow, InsertOutcome, View;
      ghost var m;
      var req := Refresh(raw);
      rawNew := "";

      // 4. rotate
      var error;
      error, m := RevokeOld(tid, raw, stored, at, turns[4]);
      h := Extend(cfg, start, tid, req, turns, before, m);
      if error.Some? { return error.value, rawNew, h; }
      m := MarkOld(tid, raw, stored, at, turns[5]);
      h := Extend(cfg, start, tid, req, turns, h, m);
      if !turns[5].up { return Internal, rawNew, h; }
      RunKeeps(cfg, start, tid, req, turns, h, View());
      res, rawNew, m := InsertSuccessor(tid, raw, stored, at, turns[6]);
      h := Extend(cfg, start, tid, req, turns, h, m);
      RunRuns(cfg, start, tid, req, turns, h, View(), 2);
    }

    // ----- login -----

    method CheckPassword(tid: nat, user: UserId, password: string, turn: Turn)
      returns (checked: Option<nat>, ghost m: Moment)
      requires Ready(tid, Login(user, password), Start, turn)
      modifies this, tokens, blacklist, users
      ensures OnlyReads(m)
      ensures checked.Some? <==>
        user in m.met.accounts && cfg.bcrypt(m.met.accounts[user].pwHash, password)
      ensures checked.Some? ==> checked.value == m.met.accounts[user].version
      ensures Performed(old(View()), turn, tid, m, Thread(Login(user, password),
        if !turn.up then Done(Internal)
        else if checked.None? then Done(InvalidCredentials) else LoginRoles(checked.value)))
    {
      Yield(tid, turn.others);
      ghost var met := View();
      checked := None;
      if user in users.accounts && cfg.bcrypt(users.accounts[user].pwHash, password) {
        checked := Some(users.accounts[user].version);
      }
      threads := threads[tid := Thread(Login(user, password),
        if !turn.up then Done(Internal)
        else if checked.None? then Done(InvalidCredentials) else LoginRoles(checked.value))];
      m := Moment(met, Run(tid, Env(turn.up, turn.write, None, 0, "")), View());
    }

    method LoadLoginRoles(tid: nat, req: Request, checked: nat, turn: Turn) returns (ghost m: Moment)
      requires req.Login? && Ready(tid, req, LoginRoles(checked), turn)
      modifies this, tokens, blacklist, users
      ensures OnlyReads(m)
      ensures Performed(old(View()), turn, tid, m, Thread(req, if !turn.up then Done(Internal) else LoginClock(checked)))
    {
      Yield(tid, turn.others);
      ghost var met := View();
      threads := threads[tid := Thread(req, if !turn.up then Done(Internal) else LoginClock(checked))];
      m := Moment(met, Run(tid, Env(turn.up, turn.write, None, 0, "")), View());
    }

    method SignAndReadClock(tid: nat, req: Request, checked: nat, turn: Turn) returns (at: Time, ghost m: Moment)
      requires req.Login? && Ready(tid, req, LoginClock(checked), turn)
      modifies this, tokens, blacklist, users
      ensures OnlyReads(m) && at == m.met.now
      ensures Performed(old(View()), turn, tid, m,
        Thread(req, if !turn.up then Done(Internal) else LoginInsert(checked, at)))
    {
      Yield(tid, turn.others);
      ghost var met := View();
      at := now;
      threads := threads[tid := Thread(req, if !turn.up then Done(Internal) else LoginInsert(checked, at))];
      m := Moment(met, Run(tid, Env(turn.up, turn.write, None, 0, "")), View());
    }

    method InsertRoot(tid: nat, req: Request, checked: nat, at: Time, turn: Turn)
      returns (res: Result, raw: string, ghost m: Moment)
      requires req.Login? && Ready(tid, req, LoginInsert(checked, at), turn)
      modifies this, tokens, blacklist, users
      ensures InsertOutcome(cfg, m, req.user, raw, at, turn.write, turn.write.Applied?, res)
      ensures res.Issued? <==> turn.write.Applied?
      ensures res.Issued? ==> IsNew(res.token, raw, req.user, at)
      ensures Performed(old(View()), turn, tid, m, Thread(req, Done(res)))
    {
      Yield(tid, turn.others);
      ghost var met := View();
      var id;
      id, raw := NewToken();
      var env := Env(turn.up, turn.write, None, id, raw);
      LoginInsertSpelledOut(cfg, View(), tid, req, checked, at, env);
      assert forall x :: x in met.rows ==> met.rows[x].hash != HashToken(raw);
      assert id !in met.rows;
      hide Next, Fresh, Exec;
      var ok := tokens.Create(RefreshToken(id, req.user, HashToken(raw), at + cfg.refreshTTL, at, None),
                              Link(None, id, |tokens.rows|, checked), turn.write);
      res := if ok then Issued(id) else Internal;
      threads := threads[tid := Thread(req, Done(res))];
      m := Moment(met, Run(tid, env), View());
      assert !turn.write.Failed? ==> Inserts(cfg, m, req.user, raw, at, id);
    }

    /** LoginUseCase.Execute, as a run of the model that answers and writes as its cases say; a token is issued
        exactly for the right password, and its row is in the table and lives for the configured time. */
    method ExecuteLogin(tid: nat, user: UserId, password: string, turns: seq<Turn>)
      returns (res: Result, raw: string, ghost h: seq<Moment>)
      requires tid !in threads && |turns| == 4
      requires forall i :: 0 <= i < |turns| ==> OthersOnly(turns[i].others, tid)
      modifies this, tokens, blacklist, users
      ensures IsRun(cfg, old(View()), tid, Login(user, password), turns, h, View())
      ensures tid in threads && threads[tid] == Thread(Login(user, password), Done(res))
      ensures LoginOutcome(cfg, user, password, raw, turns, h, res)
      ensures h != []
      ensures res.Issued? <==>
        LoginServed(turns) && user in h[0].met.accounts && cfg.bcrypt(h[0].met.accounts[user].pwHash, password)
      ensures res.Issued? ==> CreatedSince(res.token, raw, old(View())) && tokens.rows[res.token].user == user
    {
      hide Next, Exec, IsRun, Follows, OnlyReads, InsertOutcome, View;
      ghost var start := View();
      ghost var m;
      raw := "";
      var req := Login(user, password);
      h := Accept(tid, req, turns);

      var checked;
      checked, m := CheckPassword(tid, user, password, turns[0]);
      h := Extend(cfg, start, tid, req, turns, h, m);
      if !turns[0].up { return Internal, raw, h; }
      if checked.None? { return InvalidCredentials, raw, h; }
      m := LoadLoginRoles(tid, req, checked.value, turns[1]);
      h := Extend(cfg, start, tid, req, turns, h, m);
      if !turns[1].up { return Internal, raw, h; }
      var at;
      at, m := SignAndReadClock(tid, req, checked.value, turns[2]);
      h := Extend(cfg, start, tid, req, turns, h, m);
      if !turns[2].up { return Internal, raw, h; }
      res, raw, m := InsertRoot(tid, req, checked.value, at, turns[3]);
      h := Extend(cfg, start, tid, req, turns, h, m);
      RunRuns(cfg, start, tid, req, turns, h, View(), 2);
    }

    // ----- logout -----

    /** An unknown token is no error here. */
    method LookUpForLogout(tid: nat, raw: string, turn: Turn)
      returns (stored: Option<RefreshToken>, error: Option<Result>, ghost m: Moment)
      requires Ready(tid, Logout(raw), Start, turn)
      modifies this, tokens, blacklist, users
      ensures OnlyReads(m)
      ensures error == if turn.up then None else Some(Internal)
      ensures turn.up ==>
        (stored.None? <==> forall x :: x in m.met.rows ==> m.met.rows[x].hash != HashToken(raw))
      ensures stored.Some? ==> Presented(m.met.rows, HashToken(raw), stored.value)
      ensures Performed(old(View()), turn, tid, m, Thread(Logout(raw),
        if error.Some? then Done(error.value) else if stored.None? then Done(LoggedOut) else LogoutRevoke(stored.value)))
    {
      Yield(tid, turn.others);
      ghost var met := View();
      var found;
      found, error := tokens.FindByHash(HashToken(raw), turn.up);
      stored := if found.Some? then Some(tokens.rows[found.value]) else None;
      if error == Some(NotFound) {
        error := None;
      }
      threads := threads[tid := Thread(Logout(raw),
        if error.Some? then Done(error.value) else if stored.None? then Done(LoggedOut) else LogoutRevoke(stored.value))];
      m := Moment(met, Run(tid, Env(turn.up, turn.write, found, 0, "")), View());
    }

    /** The error of the write is dropped, whatever it is. */
    method RevokeIgnoringErrors(tid: nat, raw: string, stored: RefreshToken, turn: Turn) returns (ghost m: Moment)
      requires Ready(tid, Logout(raw), LogoutRevoke(stored), turn)
      modifies this, tokens, blacklist, users
      ensures RevokesRow(m, stored.id, turn.write)
      ensures !turn.write.Failed? ==> !CanRevoke(tokens.rows, stored.id)
      ensures Performed(old(View()), turn, tid, m, Thread(Logout(raw), LogoutClock(stored)))
    {
      Yield(tid, turn.others);
      ghost var met := View();
      var _ := tokens.Revoke(stored.id, now, turn.write);
      threads := threads[tid := Thread(Logout(raw), LogoutClock(stored))];
      m := Moment(met, Run(tid, Env(turn.up, turn.write, None, 0, "")), View());
    }

    method ReadLogoutClock(tid: nat, raw: string, stored: RefreshToken, turn: Turn) returns (at: Time, ghost m: Moment)
      requires Ready(tid, Logout(raw), LogoutClock(stored), turn)
      modifies this, tokens, blacklist, users
      ensures OnlyReads(m) && at == m.met.now
      ensures Performed(old(View()), turn, tid, m, Thread(Logout(raw), LogoutMark(stored, at)))
    {
      Yield(tid, turn.others);
      ghost var met := View();
      at := now;
      threads := threads[tid := Thread(Logout(raw), LogoutMark(stored, at))];
      m := Moment(met, Run(tid, Env(turn.up, turn.write, None, 0, "")), View());
    }

    method MarkLoggedOut(tid: nat, raw: string, stored: RefreshToken, at: Time, turn: Turn) returns (ghost m: Moment)
      requires Ready(tid, Logout(raw), LogoutMark(stored, at), turn)
      modifies this, tokens, blacklist, users
      ensures Marks(m, stored, at, turn.write)
      ensures Performed(old(View()), turn, tid, m, Thread(Logout(raw), Done(LoggedOut)))
    {
      Yield(tid, turn.others);
      ghost var met := View();
      blacklist.Revoke(stored.hash, stored.RemainingLifetime(at), now, turn.write);
      threads := threads[tid := Thread(Logout(raw), Done(LoggedOut))];
      m := Moment(met, Run(tid, Env(turn.up, turn.write, None, 0, "")), View());
    }

    /** LogoutUseCase.Execute, as a run of the model that answers and writes as its cases say: it succeeds for
        unknown tokens, for tokens already revoked and when its writes fail; only a failing lookup is reported. */
    method ExecuteLogout(tid: nat, raw: string, turns: seq<Turn>) returns (res: Result, ghost h: seq<Moment>)
      requires tid !in threads && |turns| == 4
      requires forall i :: 0 <= i < |turns| ==> OthersOnly(turns[i].others, tid)
      modifies this, tokens, blacklist, users
      ensures IsRun(cfg, old(View()), tid, Logout(raw), turns, h, View())
      ensures tid in threads && threads[tid] == Thread(Logout(raw), Done(res))
      ensures LogoutOutcome(raw, turns, h, res)
      ensures res == if turns[0].up then LoggedOut else Internal
    {
      hide Next, Exec, IsRun, Follows, OnlyReads, RevokesRow, Marks, CanRevoke, View;
      ghost var start := View();
      ghost var m;
      var req := Logout(raw);
      h := Accept(tid, req, turns);

      var found, error;
      found, error, m := LookUpForLogout(tid, raw, turns[0]);
      h := Extend(cfg, start, tid, req, turns, h, m);
      if error.Some? { return error.value, h; }
      if found.None? { return LoggedOut, h; }
      var stored := found.value;
      m := RevokeIgnoringErrors(tid, raw, stored, turns[1]);
      h := Extend(cfg, start, tid, req, turns, h, m);
      var at;
      at, m := ReadLogoutClock(tid, raw, stored, turns[2]);
      h := Extend(cfg, start, tid, req, turns, h, m);
      m := MarkLoggedOut(tid, raw, stored, at, turns[3]);
      h := Extend(cfg, start, tid, req, turns, h, m);
      res := LoggedOut;
    }

    // ----- change password -----

    /** Compares the current password and hashes the new one to `newHash`. */
    method VerifyChange(tid: nat, req: Request, newHash: string, turn: Turn)
      returns (error: Option<Result>, ghost m: Moment)
      requires req.ChangePassword? && Ready(tid, req, Start, turn)
      modifies this, tokens, blacklist, users
      ensures OnlyReads(m)
      ensures error == if !turn.up then Some(Internal)
        else if req.user !in m.met.accounts then Some(NotFound)
        else if !cfg.bcrypt(m.met.accounts[req.user].pwHash, req.current) then Some(InvalidCredentials)
        else if req.current == req.replacement then Some(BadRequest)
        else if !cfg.bcrypt(newHash, req.replacement) then Some(Internal) else None
      ensures Performed(old(View()), turn, tid, m,
        Thread(req, if error.Some? then Done(error.value) else ChangeUpdate(newHash)))
    {
      Yield(tid, turn.others);
      ghost var met := View();
      error := None;
      if !turn.up {
        error := Some(Internal);
      } else if req.user !in users.accounts {
        error := Some(NotFound);
      } else if !cfg.bcrypt(users.accounts[req.user].pwHash, req.current) {
        error := Some(InvalidCredentials);
      } else if req.current == req.replacement {
        error := Some(BadRequest);
      } else if !cfg.bcrypt(newHash, req.replacement) {
        error := Some(Internal);
      }
      threads := threads[tid := Thread(req, if error.Some? then Done(error.value) else ChangeUpdate(newHash))];
      m := Moment(met, Run(tid, Env(turn.up, turn.write, None, 0, newHash)), View());
    }

    method StorePassword(tid: nat, req: Request, newHash: string, turn: Turn)
      returns (error: Option<Result>, version: nat, ghost m: Moment)
      requires req.ChangePassword? && Ready(tid, req, ChangeUpdate(newHash), turn)
      modifies this, tokens, blacklist, users
      ensures InstallsHash(m, req.user, newHash, turn.write)
      ensures old(View()).accounts.Keys <= m.met.accounts.Keys
      ensures error == if !turn.write.Applied? then Some(Internal)
        else if req.user !in m.met.accounts then Some(NotFound) else None
      ensures Performed(old(View()), turn, tid, m,
        Thread(req, if error.Some? then Done(error.value) else ChangeRevokeAll(version)))
    {
      hide Next, Exec;
      ExecRuns(cfg, View(), turn.others);
      Yield(tid, turn.others);
      ghost var met := View();
      var env := Env(turn.up, turn.write, None, 0, "");
      PasswordSpelledOut(cfg, View(), tid, req, newHash, env);
      error := users.UpdatePassword(req.user, newHash, turn.write);
      version := if error.None? then users.accounts[req.user].version else 0;
      threads := threads[tid := Thread(req, if error.Some? then Done(error.value) else ChangeRevokeAll(version))];
      m := Moment(met, Run(tid, env), View());
    }

    method RevokeSessions(tid: nat, req: Request, version: nat, turn: Turn) returns (res: Result, ghost m: Moment)
      requires req.ChangePassword? && Ready(tid, req, ChangeRevokeAll(version), turn)
      modifies this, tokens, blacklist, users
      ensures RevokesSessions(m, req.user, turn.write)
      ensures res == if turn.write.Applied? then PasswordChanged else Internal
      ensures res.PasswordChanged? ==>
        forall x :: x in tokens.rows && tokens.rows[x].user == req.user ==> tokens.rows[x].IsRevoked()
      ensures Performed(old(View()), turn, tid, m, Thread(req, Done(res)))
    {
      Yield(tid, turn.others);
      ghost var met := View();
      var ok := tokens.RevokeAllForUser(req.user, now, turn.write);
      res := if ok then PasswordChanged else Internal;
      threads := threads[tid := Thread(req, Done(res))];
      m := Moment(met, Run(tid, Env(turn.up, turn.write, None, 0, "")), View());
    }

    /** ChangePasswordUseCase.Execute, as a run of the model with the answer that the account, as the first statement
        finds it, and the fate of the statements decide; when it reports success, the new hash was installed and no
        row of the user is unrevoked at that instant. */
    method ExecuteChangePassword(tid: nat, req: Request, newHash: string, turns: seq<Turn>)
      returns (res: Result, ghost h: seq<Moment>)
      requires req.ChangePassword? && tid !in threads && |turns| == 3
      requires forall i :: 0 <= i < |turns| ==> OthersOnly(turns[i].others, tid)
      modifies this, tokens, blacklist, users
      ensures IsRun(cfg, old(View()), tid, req, turns, h, View())
      ensures tid in threads && threads[tid] == Thread(req, Done(res))
      ensures h != []
      ensures res == ChangeAnswer(cfg, req, newHash, turns, h[0].met.accounts)
      ensures ChangeOutcome(cfg, req, newHash, turns, h, res)
      ensures res.PasswordChanged? ==>
        forall x :: x in tokens.rows && tokens.rows[x].user == req.user ==> tokens.rows[x].IsRevoked()
    {
      hide Next, Exec, IsRun, Follows, InstallsHash, RevokesSessions, View;
      ghost var start := View();
      ghost var m;
      h := Accept(tid, req, turns);

      var error;
      error, m := VerifyChange(tid, req, newHash, turns[0]);
      h := Extend(cfg, start, tid, req, turns, h, m);
      if error.Some? { return error.value, h; }
      var version;
      error, version, m := StorePassword(tid, req, newHash, turns[1]);
      h := Extend(cfg, start, tid, req, turns, h, m);
      if error.Some? { return error.value, h; }
      res, m := RevokeSessions(tid, req, version, turns[2]);
      h := Extend(cfg, start, tid, req, turns, h, m);
    }
  }
}
