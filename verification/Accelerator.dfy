/** What the blacklist changes about the answer of a refresh, compared with the table alone. */
module Accelerator {
  import opened Collections
  import opened Tokens
  import opened Rotation
  import opened Invariant
  import opened Origins

  datatype Verdict = Accept | Reject(reason: Result)

  /** The answer read off the table row that the query returns. */
  function TableVerdict(s: State, found: Option<TokenId>): Verdict
    requires found.Some? ==> found.value in s.rows
  {
    if found.None? then Reject(TokenInvalid)
    else if s.rows[found.value].IsExpired(s.now) then Reject(TokenExpired)
    else if s.rows[found.value].IsRevoked() then Reject(TokenRevoked)
    else Accept
  }

  /** The same with the blacklist consulted first. */
  function FastVerdict(s: State, hash: TokenHash, found: Option<TokenId>): Verdict
    requires found.Some? ==> found.value in s.rows
  {
    if Listed(s.blacklist, hash, s.now) then Reject(TokenRevoked) else TableVerdict(s, found)
  }

  /** One statement of a refresh, as a step of its thread. */
  lemma RefreshNext(cfg: Config, s: State, tid: nat, env: Env, raw: string, pc: Pc)
    requires tid in s.threads && s.threads[tid] == Thread(Refresh(raw), pc)
    ensures var m := RefreshStep(cfg, s, env, raw, pc); m.s == s ==>
      Next(cfg, s, Run(tid, env)) == s.(threads := s.threads[tid := Thread(Refresh(raw), m.pc)])
  {
    hide RefreshStep;
  }

  /** A refresh that runs its three reads undisturbed reaches exactly that verdict: it ends with the
      reason, first writes the blacklist when the table said revoked, or goes on to rotate. */
  lemma RefreshReachesVerdict(cfg: Config, s: State, tid: nat, env: Env, raw: string)
    requires tid in s.threads && s.threads[tid] == Thread(Refresh(raw), Start) && env.up
    requires Answers(s.rows, HashToken(raw), env.found)
    ensures var a := Run(tid, env); var s' := Next(cfg, Next(cfg, Next(cfg, s, a), a), a);
      && tid in s'.threads
      && var pc := s'.threads[tid].pc;
      match FastVerdict(s, HashToken(raw), env.found)
      case Accept => env.found.Some? && pc == RefreshRoles(s.rows[env.found.value], s.now)
      case Reject(reason) =>
        pc == Done(reason)
        || (reason.TokenRevoked? && env.found.Some? && pc == RefreshSync(s.rows[env.found.value], s.now))
  {
    hide Next, Answers;
    var s1 := Next(cfg, s, Run(tid, env));
    RefreshNext(cfg, s, tid, env, raw, Start);
    RefreshNext(cfg, s1, tid, env, raw, s1.threads[tid].pc);
    var s2 := Next(cfg, s1, Run(tid, env));
    RefreshNext(cfg, s2, tid, env, raw, s2.threads[tid].pc);
  }

  // ----- runs in which every logout that has something to end reaches the table -----

  predicate RunsAt(s: State, a: Action, at: Pc -> bool) {
    a.Run? && a.tid in s.threads && at(s.threads[a.tid].pc)
  }

  /** The row a logout is about to revoke is still good for a refresh later than now. */
  predicate EndsSomething(s: State, stored: RefreshToken) {
    CanRevoke(s.rows, stored.id) && s.now < stored.expiresAt
  }

  /** This action is the refused table write of a logout that had something to end. */
  predicate MissesTable(s: State, a: Action) {
    && a.Run? && a.tid in s.threads && s.threads[a.tid].pc.LogoutRevoke?
    && a.env.write.Failed? && EndsSomething(s, s.threads[a.tid].pc.stored)
  }

  /** No logout misses the table: its write is applied, whether or not the answer is lost, or there was
      nothing to end. */
  predicate LogoutsWritten(cfg: Config, s: State, actions: seq<Action>)
    decreases |actions|
  {
    actions == [] || (!MissesTable(s, actions[0]) && LogoutsWritten(cfg, Next(cfg, s, actions[0]), actions[1..]))
  }

  /** This action writes the blacklist later than the clock reading its lifetime was computed from. */
  predicate MarksLate(s: State, a: Action) {
    && RunsAt(s, a, Marking) && !a.env.write.Failed?
    && var pc := s.threads[a.tid].pc; s.now > pc.at && pc.stored.RemainingLifetime(pc.at) > 0
  }

  /** Every blacklist write happens at the instant of the clock reading, or writes nothing. */
  predicate MarksPrompt(cfg: Config, s: State, actions: seq<Action>)
    decreases |actions|
  {
    actions == [] || (!MarksLate(s, actions[0]) && MarksPrompt(cfg, Next(cfg, s, actions[0]), actions[1..]))
  }

  /** `x` is a revoked row carrying `hash`. */
  predicate RevokedOwner(rows: Table, hash: TokenHash, x: TokenId) {
    x in rows && rows[x].hash == hash && rows[x].IsRevoked()
  }

  predicate PastWrite(pc: Pc) { pc.LogoutClock? || pc.LogoutMark? }

  /** A logout past its table write has revoked the row, or finds no lifetime left to blacklist. */
  predicate WriteSettled(now: Time, rows: Table, pc: Pc)
    requires PastWrite(pc)
  {
    RevokedOwner(rows, pc.stored.hash, pc.stored.id) || pc.stored.expiresAt <= if pc.LogoutMark? then pc.at else now
  }

  /** Every blacklisted hash is the hash of a revoked row, and no logout is about to change that. */
  ghost predicate Faithful(s: State) {
    && (forall h :: h in s.blacklist ==> exists x :: RevokedOwner(s.rows, h, x))
    && (forall t {:trigger s.threads[t]} :: t in s.threads && PastWrite(s.threads[t].pc) ==>
          WriteSettled(s.now, s.rows, s.threads[t].pc))
  }

  lemma OwnerStays(s: State, s': State, h: TokenHash, x: TokenId)
    requires Later(s, s') && RevokedOwner(s.rows, h, x)
    ensures RevokedOwner(s'.rows, h, x)
  {
  }

  lemma SettledStays(s: State, s': State, pc: Pc)
    requires Later(s, s') && PastWrite(pc) && WriteSettled(s.now, s.rows, pc)
    ensures WriteSettled(s'.now, s'.rows, pc)
  {
  }

  /** A statement that blacklists a hash runs in a thread whose row is revoked. */
  lemma MarkedIsRevoked(s: State, t: nat)
    requires Inv(s) && Faithful(s) && t in s.threads && Marking(s.threads[t].pc)
    requires s.threads[t].pc.stored.RemainingLifetime(s.threads[t].pc.at) > 0
    ensures RevokedOwner(s.rows, s.threads[t].pc.stored.hash, s.threads[t].pc.stored.id)
  {
    OneThread(s, t);
  }

  /** A blacklist entry was there before, or is written by the statement that runs. */
  lemma EntryOrigin(cfg: Config, s: State, a: Action, h: TokenHash)
    requires h in Next(cfg, s, a).blacklist
    ensures var deadline := Next(cfg, s, a).blacklist[h];
      || (h in s.blacklist && deadline == s.blacklist[h])
      || (RunsAt(s, a, Marking) && !a.env.write.Failed?
          && var pc := s.threads[a.tid].pc;
          h == pc.stored.hash && pc.stored.RemainingLifetime(pc.at) > 0
          && deadline == s.now + pc.stored.RemainingLifetime(pc.at))
  {
    hide MoveOf, Next, Mark;
    if a.Run? && a.tid in s.threads {
      var th := s.threads[a.tid];
      StoresAfter(cfg, s, a);
      if Inserting(th.pc) {
        InsertsMarkNothing(cfg, s, th, a.env);
      } else {
        EffectOf(cfg, s, th, a.env);
        if Marking(th.pc) { MarkAdds(s, th.pc.stored, th.pc.at, a.env.write, h); }
      }
    } else {
      OnlyRunsMark(cfg, s, a);
    }
  }

  lemma OnlyRunsMark(cfg: Config, s: State, a: Action)
    requires !(a.Run? && a.tid in s.threads)
    ensures Next(cfg, s, a).blacklist == s.blacklist
  {
  }

  lemma InsertsMarkNothing(cfg: Config, s: State, th: Thread, env: Env)
    requires Inserting(th.pc)
    ensures MoveOf(cfg, s, th, env).s.blacklist == s.blacklist
  {
    hide Fresh;
  }

  lemma MarkAdds(s: State, stored: RefreshToken, at: Time, write: Write, h: TokenHash)
    ensures var marked := Mark(s, stored, at, write).blacklist;
      h in marked ==>
        || (h in s.blacklist && marked[h] == s.blacklist[h])
        || (!write.Failed? && h == stored.hash && stored.RemainingLifetime(at) > 0
            && marked[h] == s.now + stored.RemainingLifetime(at))
  {
  }

  /** A logout gets past its table write only by performing it, or by having nothing to end. */
  lemma PastTableWrite(cfg: Config, s: State, th: Thread, env: Env)
    requires ThreadOk(s, th) && PastWrite(MoveOf(cfg, s, th, env).pc)
    requires th.pc.LogoutRevoke? ==> !(env.write.Failed? && EndsSomething(s, th.pc.stored))
    requires PastWrite(th.pc) ==> WriteSettled(s.now, s.rows, th.pc)
    ensures var m := MoveOf(cfg, s, th, env); m.s.now == s.now && WriteSettled(s.now, m.s.rows, m.pc)
  {
    if th.req.Logout? {
      hide Fresh, AddRow, NewToken, Mark, Answers;
    } else {
      OnlyLogoutsGetThere(cfg, s, th, env);
      hide MoveOf;
    }
  }

  lemma OnlyLogoutsGetThere(cfg: Config, s: State, th: Thread, env: Env)
    requires !th.req.Logout? && PastWrite(MoveOf(cfg, s, th, env).pc)
    ensures MoveOf(cfg, s, th, env) == Move(s, th.pc)
  {
    hide Fresh, AddRow, NewToken, Mark, Answers, RevokeRow, RevokeUser;
  }

  lemma FaithfulStep(cfg: Config, s: State, a: Action)
    requires Inv(s) && Faithful(s) && !MissesTable(s, a)
    ensures Faithful(Next(cfg, s, a))
  {
    var s' := Next(cfg, s, a);
    NextKeeps(cfg, s, a);
    hide Inv, Next, Later, MoveOf, RevokedOwner, WriteSettled, MissesTable;
    forall h | h in s'.blacklist ensures exists x :: RevokedOwner(s'.rows, h, x) {
      if h in s.blacklist {
        var x :| RevokedOwner(s.rows, h, x);
        OwnerStays(s, s', h, x);
      } else {
        EntryOrigin(cfg, s, a, h);
        MarkedIsRevoked(s, a.tid);
        OwnerStays(s, s', h, s.threads[a.tid].pc.stored.id);
      }
    }
    forall t | t in s'.threads && PastWrite(s'.threads[t].pc) ensures WriteSettled(s'.now, s'.rows, s'.threads[t].pc) {
      FaithfulThread(cfg, s, a, t);
    }
  }

  lemma FaithfulThread(cfg: Config, s: State, a: Action, t: nat)
    requires Inv(s) && Faithful(s) && !MissesTable(s, a)
    requires t in Next(cfg, s, a).threads && PastWrite(Next(cfg, s, a).threads[t].pc)
    ensures var s' := Next(cfg, s, a); WriteSettled(s'.now, s'.rows, s'.threads[t].pc)
  {
    var s' := Next(cfg, s, a);
    NextKeeps(cfg, s, a);
    ThreadAfter(cfg, s, a, t);
    hide Inv, Later, MoveOf, Next, RevokedOwner, WriteSettled, EndsSomething;
    if a.Run? && a.tid == t && t in s.threads {
      OneThread(s, t);
      StoresAfter(cfg, s, a);
      PastTableWrite(cfg, s, s.threads[t], a.env);
    } else {
      SettledStays(s, s', s.threads[t].pc);
    }
  }

  lemma {:induction false} FaithfulRun(cfg: Config, s: State, actions: seq<Action>)
    requires Inv(s) && Faithful(s) && LogoutsWritten(cfg, s, actions)
    ensures Faithful(Exec(cfg, s, actions))
    decreases |actions|
  {
    hide Inv, Next, Faithful;
    if actions != [] {
      NextKeeps(cfg, s, actions[0]);
      FaithfulStep(cfg, s, actions[0]);
      FaithfulRun(cfg, Next(cfg, s, actions[0]), actions[1..]);
    }
  }

  lemma HashHasOneRow(s: State, x: TokenId, y: TokenId)
    requires Inv(s) && x in s.rows && y in s.rows && s.rows[x].hash == s.rows[y].hash
    ensures x == y
  {
  }

  /** Refresh accepts exactly what the table alone accepts. */
  ghost predicate AcceptsAlike(s: State) {
    forall hash, found {:trigger Answers(s.rows, hash, found)} ::
      Answers(s.rows, hash, found) ==> (FastVerdict(s, hash, found).Accept? <==> TableVerdict(s, found).Accept?)
  }

  lemma FaithfulAcceptsAlike(s: State)
    requires Inv(s) && Faithful(s)
    ensures AcceptsAlike(s)
  {
    forall hash, found | Answers(s.rows, hash, found)
      ensures FastVerdict(s, hash, found).Accept? <==> TableVerdict(s, found).Accept?
    {
      if hash in s.blacklist {
        var x :| RevokedOwner(s.rows, hash, x);
        HashHasOneRow(s, x, found.value);
      }
    }
  }

  /** The blacklist as an accelerator, in every run in which no logout misses the table: a listed hash is
      the hash of a revoked row, so the blacklist accepts what the table accepts; a hash it rejects is
      rejected by the table now and after any continuation. */
  lemma BlacklistAcceptsAlike(cfg: Config, start: Time, actions: seq<Action>, after: seq<Action>,
                              hash: TokenHash, later: Option<TokenId>)
    requires LogoutsWritten(cfg, Init(start), actions)
    requires Answers(Exec(cfg, Exec(cfg, Init(start), actions), after).rows, hash, later)
    ensures var s := Exec(cfg, Init(start), actions);
      && (forall h :: h in s.blacklist ==> exists x :: RevokedOwner(s.rows, h, x))
      && AcceptsAlike(s)
      && (Listed(s.blacklist, hash, s.now) ==> TableVerdict(Exec(cfg, s, after), later).Reject?)
  {
    var s0 := Init(start);
    var s := Exec(cfg, s0, actions);
    Reachable(cfg, start, []);
    Reachable(cfg, start, actions);
    hide Inv, Next, Later, LogoutsWritten;
    FaithfulRun(cfg, s0, actions);
    hide Exec;
    FaithfulAcceptsAlike(s);
    if hash in s.blacklist {
      var x :| RevokedOwner(s.rows, hash, x);
      ExecKeeps(cfg, s, after);
      var s' := Exec(cfg, s, after);
      OwnerStays(s, s', hash, x);
      HashHasOneRow(s', x, later.value);
    }
  }

  /** After `c` the blacklist goes on to accept what the table accepts, however the run continues. */
  ghost predicate StaysAlike(cfg: Config, c: State) {
    forall after {:trigger LogoutsWritten(cfg, c, after)} ::
      LogoutsWritten(cfg, c, after) ==> AcceptsAlike(Exec(cfg, c, after))
  }

  /** Left to itself, a logout whose table write was refused blacklists a token the table accepts. */
  lemma RefusedLogoutDisagrees(cfg: Config, s: State, tid: nat, env: Env) returns (after: seq<Action>)
    requires Inv(s) && tid in s.threads && s.threads[tid].req.Logout? && MissesTable(s, Run(tid, env))
    ensures var c := Next(cfg, s, Run(tid, env));
      LogoutsWritten(cfg, c, after) && !AcceptsAlike(Exec(cfg, c, after))
  {
    var stored := s.threads[tid].pc.stored;
    OneThread(s, tid);
    var go := Run(tid, Env(true, Applied, None, 0, ""));
    after := [go, go];
    var c := Next(cfg, s, Run(tid, env));
    var c1 := Next(cfg, c, go);
    var c2 := Next(cfg, c1, go);
    RefusedSteps(cfg, s, tid, env, stored);
    hide Inv, Next, ThreadOk, EndsSomething;
    assert after[1..] == [go] && [go][1..] == [];
    assert Exec(cfg, c, after) == Exec(cfg, c1, [go]) == Exec(cfg, c2, []);
    assert LogoutsWritten(cfg, c1, [go]);
    assert Answers(c2.rows, stored.hash, Some(stored.id));
  }

  lemma RefusedSteps(cfg: Config, s: State, tid: nat, env: Env, stored: RefreshToken)
    requires tid in s.threads && s.threads[tid].req.Logout? && s.threads[tid].pc == LogoutRevoke(stored)
    requires env.write.Failed? && s.now < stored.expiresAt
    ensures var go := Run(tid, Env(true, Applied, None, 0, ""));
      var c := Next(cfg, s, Run(tid, env)); var c1 := Next(cfg, c, go); var c2 := Next(cfg, c1, go);
      && tid in c.threads && c.threads[tid].pc.LogoutClock? && tid in c1.threads && c1.threads[tid].pc.LogoutMark?
      && c2.rows == s.rows && c2.now == s.now && Listed(c2.blacklist, stored.hash, c2.now)
  {
  }

  /** The condition on logouts is exact: from a state in which the blacklist is faithful, the table write of
      a logout leaves it accepting alike for good if and only if it is not refused while the row is unrevoked
      and the token has time left. */
  lemma LogoutKeepsBlacklistExactly(cfg: Config, s: State, tid: nat, env: Env)
    requires Inv(s) && Faithful(s)
    requires tid in s.threads && s.threads[tid].req.Logout? && s.threads[tid].pc.LogoutRevoke?
    ensures StaysAlike(cfg, Next(cfg, s, Run(tid, env))) <==>
      !(env.write.Failed? && EndsSomething(s, s.threads[tid].pc.stored))
  {
    var c := Next(cfg, s, Run(tid, env));
    hide Inv, Next, Faithful, EndsSomething, AcceptsAlike, Exec;
    if MissesTable(s, Run(tid, env)) {
      var after := RefusedLogoutDisagrees(cfg, s, tid, env);
    } else {
      NextKeeps(cfg, s, Run(tid, env));
      FaithfulStep(cfg, s, Run(tid, env));
      forall after | LogoutsWritten(cfg, c, after) ensures AcceptsAlike(Exec(cfg, c, after)) {
        FaithfulRun(cfg, c, after);
        ExecKeeps(cfg, c, after);
        FaithfulAcceptsAlike(Exec(cfg, c, after));
      }
    }
  }

  /** In such a run the blacklist gives another reason than the table exactly when the entry is still
      visible although the token it names has expired. */
  lemma SameReasonUnlessExpired(cfg: Config, start: Time, actions: seq<Action>, hash: TokenHash, found: Option<TokenId>)
    requires LogoutsWritten(cfg, Init(start), actions)
    requires Answers(Exec(cfg, Init(start), actions).rows, hash, found)
    ensures var s := Exec(cfg, Init(start), actions);
      FastVerdict(s, hash, found) == TableVerdict(s, found) <==>
      !(Listed(s.blacklist, hash, s.now) && found.Some? && s.rows[found.value].IsExpired(s.now))
  {
    var s := Exec(cfg, Init(start), actions);
    Reachable(cfg, start, []);
    Reachable(cfg, start, actions);
    FaithfulRun(cfg, Init(start), actions);
    if hash in s.blacklist {
      var x :| RevokedOwner(s.rows, hash, x);
      HashHasOneRow(s, x, found.value);
    }
  }

  // ----- runs in which blacklist writes are prompt -----

  /** No entry outlives its token. */
  ghost predicate Exact(s: State) {
    forall x :: x in s.rows && s.rows[x].hash in s.blacklist ==> s.blacklist[s.rows[x].hash] == s.rows[x].expiresAt
  }

  lemma ExactStep(cfg: Config, s: State, a: Action)
    requires Inv(s) && Exact(s) && !MarksLate(s, a)
    ensures Exact(Next(cfg, s, a))
  {
    var s' := Next(cfg, s, a);
    NextKeeps(cfg, s, a);
    hide Inv, Next;
    forall x | x in s'.rows && s'.rows[x].hash in s'.blacklist
      ensures s'.blacklist[s'.rows[x].hash] == s'.rows[x].expiresAt
    {
      if x in s.rows {
        EntryOrigin(cfg, s, a, s.rows[x].hash);
        if RunsAt(s, a, Marking) {
          OneThread(s, a.tid);
          var stored := s.threads[a.tid].pc.stored;
          if s.rows[x].hash == stored.hash { HashHasOneRow(s, x, stored.id); }
        }
      } else {
        NewRow(cfg, s, a, x);
        assert false;
      }
    }
  }

  lemma {:induction false} ExactRun(cfg: Config, s: State, actions: seq<Action>)
    requires Inv(s) && Exact(s) && MarksPrompt(cfg, s, actions)
    ensures Exact(Exec(cfg, s, actions))
    decreases |actions|
  {
    hide Inv, Next, Exact;
    if actions != [] {
      NextKeeps(cfg, s, actions[0]);
      ExactStep(cfg, s, actions[0]);
      ExactRun(cfg, Next(cfg, s, actions[0]), actions[1..]);
    }
  }

  /** Refresh gives the table's answer, reason included. */
  ghost predicate AnswersAlike(s: State) {
    forall hash, found {:trigger Answers(s.rows, hash, found)} ::
      Answers(s.rows, hash, found) ==> FastVerdict(s, hash, found) == TableVerdict(s, found)
  }

  lemma ExactAnswersAlike(s: State)
    requires Inv(s) && Faithful(s) && Exact(s)
    ensures AnswersAlike(s)
  {
    forall hash, found | Answers(s.rows, hash, found) ensures FastVerdict(s, hash, found) == TableVerdict(s, found) {
      if hash in s.blacklist {
        var x :| RevokedOwner(s.rows, hash, x);
        HashHasOneRow(s, x, found.value);
      }
    }
  }

  /** After `c` the reasons go on to agree, however the run continues with written logouts and prompt marks. */
  ghost predicate StaysAnsweringAlike(cfg: Config, c: State) {
    forall after {:trigger LogoutsWritten(cfg, c, after)} ::
      LogoutsWritten(cfg, c, after) && MarksPrompt(cfg, c, after) ==> AnswersAlike(Exec(cfg, c, after))
  }

  /** A refresh or a logout stands at its blacklist write. */
  predicate AtMark(th: Thread) {
    if th.pc.LogoutMark? then th.req.Logout? else th.req.Refresh? && Marking(th.pc)
  }

  /** The entry of a late mark outlives its token: a moment after the expiry the reasons differ. */
  lemma LateMarkOutlivesToken(cfg: Config, s: State, tid: nat, env: Env) returns (after: seq<Action>)
    requires Inv(s) && MarksLate(s, Run(tid, env)) && AtMark(s.threads[tid])
    ensures var c := Next(cfg, s, Run(tid, env));
      LogoutsWritten(cfg, c, after) && MarksPrompt(cfg, c, after) && !AnswersAlike(Exec(cfg, c, after))
  {
    var stored := s.threads[tid].pc.stored;
    var c := Next(cfg, s, Run(tid, env));
    OneThread(s, tid);
    LateMarkWrites(cfg, s, tid, env);
    var expired := stored.expiresAt + 1;
    var a := Tick(if s.now < expired then expired - s.now else 0);
    after := [a];
    assert after[1..] == [];
    var d := Next(cfg, c, a);
    assert Exec(cfg, c, after) == Exec(cfg, d, []) == d;
    assert d.rows == c.rows && d.blacklist == c.blacklist && d.now >= expired;
    hide Inv, Next, ThreadOk;
    assert Answers(d.rows, stored.hash, Some(stored.id));
  }

  lemma LateMarkWrites(cfg: Config, s: State, tid: nat, env: Env)
    requires MarksLate(s, Run(tid, env)) && AtMark(s.threads[tid])
    ensures var pc := s.threads[tid].pc; var c := Next(cfg, s, Run(tid, env));
      && c.now == s.now && c.rows == s.rows && pc.stored.hash in c.blacklist
      && c.blacklist[pc.stored.hash] == s.now + pc.stored.expiresAt - pc.at
  {
    MarkRuns(cfg, s, s.threads[tid], env);
    hide MoveOf;
  }

  lemma MarkRuns(cfg: Config, s: State, th: Thread, env: Env)
    requires AtMark(th)
    ensures MoveOf(cfg, s, th, env).s == Mark(s, th.pc.stored, th.pc.at, env.write)
  {
    hide Fresh, AddRow, NewToken, RevokeRow, RevokeUser, Answers, Mark;
  }

  /** The condition on blacklist writes is exact: from a state in which the blacklist names revoked rows and
      no entry outlives its token, a blacklist write leaves the reasons agreeing for good if and only if it is
      not applied later than its clock reading with lifetime left. */
  lemma MarkKeepsReasonsExactly(cfg: Config, s: State, tid: nat, env: Env)
    requires Inv(s) && Faithful(s) && Exact(s) && tid in s.threads && AtMark(s.threads[tid])
    ensures var pc := s.threads[tid].pc;
      StaysAnsweringAlike(cfg, Next(cfg, s, Run(tid, env))) <==>
      !(!env.write.Failed? && s.now > pc.at && pc.stored.RemainingLifetime(pc.at) > 0)
  {
    var c := Next(cfg, s, Run(tid, env));
    hide Inv, Next, Faithful, Exact, AnswersAlike, Exec;
    if MarksLate(s, Run(tid, env)) {
      var after := LateMarkOutlivesToken(cfg, s, tid, env);
    } else {
      NextKeeps(cfg, s, Run(tid, env));
      FaithfulStep(cfg, s, Run(tid, env));
      ExactStep(cfg, s, Run(tid, env));
      forall after | LogoutsWritten(cfg, c, after) && MarksPrompt(cfg, c, after) ensures AnswersAlike(Exec(cfg, c, after)) {
        FaithfulRun(cfg, c, after);
        ExactRun(cfg, c, after);
        ExecKeeps(cfg, c, after);
        ExactAnswersAlike(Exec(cfg, c, after));
      }
    }
  }

  /** With prompt blacklist writes as well, refresh gives the table's answer, reason included. */
  lemma BlacklistIsFaithful(cfg: Config, start: Time, actions: seq<Action>, hash: TokenHash, found: Option<TokenId>)
    requires LogoutsWritten(cfg, Init(start), actions) && MarksPrompt(cfg, Init(start), actions)
    requires Answers(Exec(cfg, Init(start), actions).rows, hash, found)
    ensures var s := Exec(cfg, Init(start), actions);
      FastVerdict(s, hash, found) == TableVerdict(s, found)
  {
    var s := Exec(cfg, Init(start), actions);
    Reachable(cfg, start, []);
    hide Inv, Next;
    SameReasonUnlessExpired(cfg, start, actions, hash, found);
    ExactRun(cfg, Init(start), actions);
  }
}
