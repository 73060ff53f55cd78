/**
 The four requests that touch refresh tokens (login, refresh, logout, change-password) as threads
 that interleave at every statement reaching a store or the clock. `Next` performs one atomic
 statement; an action that is not possible in a state leaves it unchanged, so `Exec` over all action
 sequences covers every interleaving, every delay and every swallowed error.
 */
module Rotation {
  import opened Collections
  import opened Tokens

  datatype Result =
    | Issued(token: TokenId)
    | LoggedOut
    | PasswordChanged
    | BlacklistUnavailable
    | TokenRevoked
    | TokenInvalid
    | TokenExpired
    | NotFound
    | InvalidCredentials
    | BadRequest
    | Internal

  datatype Request =
    | Login(user: UserId, password: string)
    | Refresh(raw: string)
    | Logout(raw: string)
    | ChangePassword(user: UserId, current: string, replacement: string)

  /** Where a request stands, with the local variables still in use there. */
  datatype Pc =
    | Start
    | LoginRoles(checked: nat)
    | LoginClock(checked: nat)
    | LoginInsert(checked: nat, at: Time)
    | RefreshFind
    | RefreshClock(stored: RefreshToken)
    | RefreshSync(stored: RefreshToken, at: Time)
    | RefreshRoles(stored: RefreshToken, at: Time)
    | RefreshRevoke(stored: RefreshToken, at: Time)
    | RefreshMark(stored: RefreshToken, at: Time)
    | RefreshInsert(stored: RefreshToken, at: Time)
    | LogoutRevoke(stored: RefreshToken)
    | LogoutClock(stored: RefreshToken)
    | LogoutMark(stored: RefreshToken, at: Time)
    | ChangeUpdate(newHash: string)
    | ChangeRevokeAll(version: nat)
    | Done(result: Result)
  {
    /** The row this request has read, if it still holds it. */
    function Snapshot(): Option<RefreshToken> {
      if RefreshClock? || RefreshSync? || RefreshRoles? || RefreshRevoke? || RefreshMark? || RefreshInsert?
         || LogoutRevoke? || LogoutClock? || LogoutMark? then Some(stored) else None
    }

    /** The clock reading this request has taken, if it still uses it. */
    function Reading(): Option<Time> {
      if LoginInsert? || RefreshSync? || RefreshRoles? || RefreshRevoke? || RefreshMark? || RefreshInsert?
         || LogoutMark? then Some(at) else None
    }

    /** Stopped between a successful compare-and-set and the insert of the successor. */
    predicate InFlight() { RefreshMark? || RefreshInsert? }

    /** A login that has checked a password but not inserted its row. */
    predicate LoginChecked() { LoginRoles? || LoginClock? || LoginInsert? }
  }

  datatype Thread = Thread(req: Request, pc: Pc)

  /** `version` counts the password changes of an account. */
  datatype Account = Account(pwHash: string, version: nat)

  /** What the insert of a row was a consequence of. No column stores this: it is history, recorded
      for the statements about chains. `checked` is the password version the chain's login compared. */
  datatype Link = Link(parent: Option<TokenId>, root: TokenId, index: nat, checked: nat)

  datatype State = State(
    now: Time,
    rows: Table,
    blacklist: Blacklist,
    accounts: map<UserId, Account>,
    threads: map<nat, Thread>,
    links: map<TokenId, Link>,      // history
    heirs: map<TokenId, TokenId>)   // history: the row inserted for a rotated one

  /** What the surroundings decide about one statement. `up` is whether a read, the token generator
      or the JWT signer succeeds; `found` is the row a query answers; `id` and `raw` are the values
      of uuid.New and the token generator (or, in `raw`, a fresh bcrypt hash). */
  datatype Env = Env(up: bool, write: Write, found: Option<TokenId>, id: TokenId, raw: string)

  datatype Action =
    | Tick(delay: nat)
    | Register(user: UserId, pwHash: string)
    | Arrive(tid: nat, req: Request)
    | Run(tid: nat, env: Env)

  datatype Config = Config(refreshTTL: int, bcrypt: (string, string) -> bool)

  function Init(now: Time): State {
    State(now, map[], map[], map[], map[], map[], map[])
  }

  /** uuid.New and the token generator never repeat a value in use. */
  predicate Fresh(s: State, id: TokenId, raw: string) {
    && id !in s.rows
    && HashToken(raw) !in s.blacklist
    && forall x :: x in s.rows ==> s.rows[x].hash != HashToken(raw)
  }

  function AddRow(s: State, token: RefreshToken, parent: Option<TokenId>, root: TokenId, checked: nat): State {
    s.(rows := s.rows[token.id := token],
       links := s.links[token.id := Link(parent, root, |s.rows|, checked)],
       heirs := if parent.Some? then s.heirs[parent.value := token.id] else s.heirs)
  }

  function NewToken(cfg: Config, user: UserId, at: Time, env: Env): RefreshToken {
    RefreshToken(env.id, user, HashToken(env.raw), at + cfg.refreshTTL, at, None)
  }

  function Mark(s: State, stored: RefreshToken, at: Time, write: Write): State {
    if write.Failed? then s
    else s.(blacklist := Blacklisted(s.blacklist, stored.hash, stored.RemainingLifetime(at), s.now))
  }

  /** What one statement leaves behind: the stores, and where the request stands after it. */
  datatype Move = Move(s: State, pc: Pc)

  function End(s: State, result: Result): Move { Move(s, Done(result)) }

  /** One statement of a login. */
  function LoginStep(cfg: Config, s: State, env: Env, user: UserId, password: string, pc: Pc): Move
  {
    match pc
    case Start =>
      if !env.up then End(s, Internal)
      else if user !in s.accounts || !cfg.bcrypt(s.accounts[user].pwHash, password) then
        End(s, InvalidCredentials)
      else Move(s, LoginRoles(s.accounts[user].version))
    case LoginRoles(checked) =>
      if !env.up then End(s, Internal) else Move(s, LoginClock(checked))
    case LoginClock(checked) =>
      if !env.up then End(s, Internal) else Move(s, LoginInsert(checked, s.now))
    case LoginInsert(checked, at) =>
      if env.write.Failed? then End(s, Internal)
      else if !Fresh(s, env.id, env.raw) then Move(s, pc)
      else
        End(AddRow(s, NewToken(cfg, user, at, env), None, env.id, checked),
            if env.write.Applied? then Issued(env.id) else Internal)
    case _ => Move(s, pc)
  }

  /** One statement of a refresh. */
  function RefreshStep(cfg: Config, s: State, env: Env, raw: string, pc: Pc): Move
  {
    var hash := HashToken(raw);
    match pc
    case Start =>
      if !env.up then End(s, BlacklistUnavailable)
      else if Listed(s.blacklist, hash, s.now) then End(s, TokenRevoked)
      else Move(s, RefreshFind)
    case RefreshFind =>
      if !env.up then End(s, Internal)
      else if !Answers(s.rows, hash, env.found) then Move(s, pc)
      else if env.found.None? then End(s, TokenInvalid)
      else Move(s, RefreshClock(s.rows[env.found.value]))
    case RefreshClock(stored) =>
      if stored.IsExpired(s.now) then End(s, TokenExpired)
      else if stored.IsRevoked() then Move(s, RefreshSync(stored, s.now))
      else Move(s, RefreshRoles(stored, s.now))
    case RefreshSync(stored, at) =>
      End(Mark(s, stored, at, env.write), TokenRevoked)
    case RefreshRoles(stored, at) =>
      if !env.up then End(s, Internal) else Move(s, RefreshRevoke(stored, at))
    case RefreshRevoke(stored, at) =>
      if env.write.Failed? then End(s, Internal)
      else if !CanRevoke(s.rows, stored.id) then
        End(s, if env.write.Applied? then NotFound else Internal)
      else
        var revoked := s.(rows := RevokeRow(s.rows, stored.id, s.now));
        if env.write.Applied? then Move(revoked, RefreshMark(stored, at)) else End(revoked, Internal)
    case RefreshMark(stored, at) =>
      var marked := Mark(s, stored, at, env.write);
      if !env.up then End(marked, Internal) else Move(marked, RefreshInsert(stored, at))
    case RefreshInsert(stored, at) =>
      if env.write.Failed? then End(s, Internal)
      else if !Fresh(s, env.id, env.raw) || stored.id !in s.links then Move(s, pc)
      else
        End(AddRow(s, NewToken(cfg, stored.user, at, env),
                   Some(stored.id), s.links[stored.id].root, s.links[stored.id].checked),
            if env.write.Applied? && env.up then Issued(env.id) else Internal)
    case _ => Move(s, pc)
  }

  /** One statement of a logout: both writes may fail, and neither failure is reported. */
  function LogoutStep(s: State, env: Env, raw: string, pc: Pc): Move
  {
    var hash := HashToken(raw);
    match pc
    case Start =>
      if !env.up then End(s, Internal)
      else if !Answers(s.rows, hash, env.found) then Move(s, pc)
      else if env.found.None? then End(s, LoggedOut)
      else Move(s, LogoutRevoke(s.rows[env.found.value]))
    case LogoutRevoke(stored) =>
      var written := if env.write.Failed? then s else s.(rows := RevokeRow(s.rows, stored.id, s.now));
      Move(written, LogoutClock(stored))
    case LogoutClock(stored) => Move(s, LogoutMark(stored, s.now))
    case LogoutMark(stored, at) => End(Mark(s, stored, at, env.write), LoggedOut)
    case _ => Move(s, pc)
  }

  /** One statement of a password change. */
  function ChangeStep(cfg: Config, s: State, env: Env, req: Request, pc: Pc): Move
    requires req.ChangePassword?
  {
    var user := req.user;
    match pc
    case Start =>
      if !env.up then End(s, Internal)
      else if user !in s.accounts then End(s, NotFound)
      else if !cfg.bcrypt(s.accounts[user].pwHash, req.current) then End(s, InvalidCredentials)
      else if req.current == req.replacement then End(s, BadRequest)
      else if !cfg.bcrypt(env.raw, req.replacement) then End(s, Internal)
      else Move(s, ChangeUpdate(env.raw))
    case ChangeUpdate(newHash) =>
      if env.write.Failed? then End(s, Internal)
      else if user !in s.accounts then End(s, if env.write.Applied? then NotFound else Internal)
      else
        var version := s.accounts[user].version + 1;
        var updated := s.(accounts := s.accounts[user := Account(newHash, version)]);
        if env.write.Applied? then Move(updated, ChangeRevokeAll(version)) else End(updated, Internal)
    case ChangeRevokeAll(_) =>
      if env.write.Failed? then End(s, Internal)
      else
        End(s.(rows := RevokeUser(s.rows, user, s.now)),
            if env.write.Applied? then PasswordChanged else Internal)
    case _ => Move(s, pc)
  }

  function MoveOf(cfg: Config, s: State, th: Thread, env: Env): Move {
    match th.req
    case Login(user, password) => LoginStep(cfg, s, env, user, password, th.pc)
    case Refresh(raw) => RefreshStep(cfg, s, env, raw, th.pc)
    case Logout(raw) => LogoutStep(s, env, raw, th.pc)
    case ChangePassword(_, _, _) => ChangeStep(cfg, s, env, th.req, th.pc)
  }

  function Goto(s: State, tid: nat, pc: Pc): State {
    if tid in s.threads then s.(threads := s.threads[tid := Thread(s.threads[tid].req, pc)]) else s
  }

  /** One statement of thread `tid`. */
  function Step(cfg: Config, s: State, tid: nat, env: Env): State
    requires tid in s.threads
  {
    var move := MoveOf(cfg, s, s.threads[tid], env);
    Goto(move.s, tid, move.pc)
  }

  function Next(cfg: Config, s: State, a: Action): State {
    match a
    case Tick(delay) => s.(now := s.now + delay)
    case Register(user, pwHash) =>
      if user in s.accounts then s else s.(accounts := s.accounts[user := Account(pwHash, 0)])
    case Arrive(tid, req) =>
      if tid in s.threads then s else s.(threads := s.threads[tid := Thread(req, Start)])
    case Run(tid, env) =>
      if tid in s.threads then Step(cfg, s, tid, env) else s
  }

  function Exec(cfg: Config, s: State, actions: seq<Action>): State
    decreases |actions|
  {
    if actions == [] then s else Exec(cfg, Next(cfg, s, actions[0]), actions[1..])
  }

  /** A run may be cut anywhere. */
  lemma {:induction false} ExecSplits(cfg: Config, s: State, first: seq<Action>, second: seq<Action>)
    ensures Exec(cfg, s, first + second) == Exec(cfg, Exec(cfg, s, first), second)
    decreases |first|
  {
    if first == [] {
      assert first + second == second;
    } else {
      assert (first + second)[1..] == first[1..] + second;
      ExecSplits(cfg, Next(cfg, s, first[0]), first[1..], second);
    }
  }

  lemma ExecTwo(cfg: Config, s: State, a: Action, b: Action)
    ensures Exec(cfg, s, [a, b]) == Next(cfg, Next(cfg, s, a), b)
  {
    hide Next;
    assert [a, b][1..] == [b] && [b][1..] == [];
    assert Exec(cfg, s, [a, b]) == Exec(cfg, Next(cfg, s, a), [b]) == Exec(cfg, Next(cfg, Next(cfg, s, a), b), []);
  }

  lemma ExecFour(cfg: Config, s: State, a: Action, b: Action, c: Action, d: Action)
    ensures Exec(cfg, s, [a, b, c, d]) == Next(cfg, Next(cfg, Next(cfg, Next(cfg, s, a), b), c), d)
  {
    hide Next;
    var s1 := Next(cfg, s, a);
    var s2 := Next(cfg, s1, b);
    assert [a, b, c, d][1..] == [b, c, d] && [b, c, d][1..] == [c, d] && [c, d][1..] == [d] && [d][1..] == [];
    var s3 := Next(cfg, s2, c);
    assert Exec(cfg, s, [a, b, c, d]) == Exec(cfg, s1, [b, c, d]) == Exec(cfg, s2, [c, d]);
    assert Exec(cfg, s2, [c, d]) == Exec(cfg, s3, [d]) == Exec(cfg, Next(cfg, s3, d), []);
  }
}
