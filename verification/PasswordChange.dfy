/** A password change cuts every chain of the user, except where a request was in flight. */
module PasswordChange {
  import opened Collections
  import opened Tokens
  import opened Rotation
  import opened Invariant
  import opened Lineage
  import opened Origins

  /** At `c` a refresh has revoked row `p` and not inserted its successor. */
  ghost predicate CaughtInFlight(c: State, p: TokenId) {
    exists t :: Holds(c.threads, t, p)
  }

  /** Since `c`, a chain segment that hangs under a row of `user` from before `c` was started by a
      refresh that was in flight at `c`. */
  ghost predicate CutOff(c: State, s: State, user: UserId) {
    && (forall x :: x in c.rows && c.rows[x].user == user ==> c.rows[x].IsRevoked())
    && (forall x | x in s.rows && x !in c.rows && s.rows[x].user == user && x in s.links
            && s.links[x].parent.Some? && s.links[x].parent.value in c.rows
          :: CaughtInFlight(c, s.links[x].parent.value))
    && (forall t, p {:trigger Holds(s.threads, t, p)} ::
          Holds(s.threads, t, p) && s.threads[t].pc.stored.user == user && p in c.rows ==> Holds(c.threads, t, p))
  }

  lemma CutOffStep(cfg: Config, c: State, s: State, a: Action, user: UserId)
    requires Inv(s) && Later(c, s) && CutOff(c, s, user)
    ensures CutOff(c, Next(cfg, s, a), user)
  {
    hide Inv, Next;
    var s' := Next(cfg, s, a);
    NextKeeps(cfg, s, a);
    forall x | x in s'.rows && x !in c.rows && s'.rows[x].user == user && x in s'.links
               && s'.links[x].parent.Some? && s'.links[x].parent.value in c.rows
      ensures CaughtInFlight(c, s'.links[x].parent.value)
    {
      if x in s.rows {
        OneRow(s, x);
      } else {
        NewRow(cfg, s, a, x);
        assert Holds(s.threads, a.tid, s.threads[a.tid].pc.stored.id);
      }
    }
    forall t, p | Holds(s'.threads, t, p) && s'.threads[t].pc.stored.user == user && p in c.rows
      ensures Holds(c.threads, t, p)
    {
      NewHolder(cfg, s, a, t);
      if s.threads[t].pc.InFlight() {
        assert Holds(s.threads, t, p);
      } else {
        OneThread(s, t);
      }
    }
  }

  lemma OneRow(s: State, x: TokenId)
    requires Inv(s) && x in s.rows
    ensures x in s.links && LinkOk(s.rows, s.links, s.heirs, x)
  {
    assert LinkOk(s.rows, s.links, s.heirs, x);
  }

  lemma {:induction false} CutOffRun(cfg: Config, c: State, s: State, actions: seq<Action>, user: UserId)
    requires Inv(s) && Later(c, s) && CutOff(c, s, user)
    ensures var s' := Exec(cfg, s, actions); Inv(s') && Later(c, s') && CutOff(c, s', user)
    decreases |actions|
  {
    hide Inv, Next, Later, CutOff;
    if actions != [] {
      var s' := Next(cfg, s, actions[0]);
      NextKeeps(cfg, s, actions[0]);
      LaterTrans(c, s, s');
      CutOffStep(cfg, c, s, actions[0], user);
      CutOffRun(cfg, c, s', actions[1..], user);
    }
  }

  /** The rows of the chain of `x` that were inserted after `c`, in order. */
  lemma {:induction false} Segment(c: State, s: State, x: TokenId) returns (path: seq<TokenId>)
    requires Inv(s) && x in s.rows && x !in c.rows
    ensures IsDescent(s, path) && path[|path| - 1] == x
    ensures forall i :: 0 <= i < |path| ==> path[i] !in c.rows && path[i] in s.rows && s.rows[path[i]].user == s.rows[x].user
    ensures s.links[path[0]].parent.Some? ==> s.links[path[0]].parent.value in c.rows
    decreases s.links[x].index
  {
    assert LinkOk(s.rows, s.links, s.heirs, x);
    var parent := s.links[x].parent;
    if parent.None? || parent.value in c.rows {
      path := [x];
    } else {
      assert LinkOk(s.rows, s.links, s.heirs, parent.value);
      hide Inv;
      path := Segment(c, s, parent.value);
      path := path + [x];
    }
  }

  /** No refresh of `user` is between its compare-and-set and its insert, and no login of `user`
      between comparing a password older than version `v` and its insert. */
  predicate NobodyInFlight(c: State, user: UserId, v: nat) {
    forall t :: t in c.threads ==>
      && (c.threads[t].pc.InFlight() ==> c.threads[t].pc.stored.user != user)
      && (c.threads[t].req.Login? && c.threads[t].req.user == user && c.threads[t].pc.LoginChecked() ==>
            c.threads[t].pc.checked >= v)
  }

  /** Since `c`, the user's new chains come from logins that compared version `v` or a later one. */
  ghost predicate OnlyNewLogins(c: State, s: State, user: UserId, v: nat) {
    && user in s.accounts && s.accounts[user].version >= v
    && (forall x :: x in c.rows && c.rows[x].user == user ==> c.rows[x].IsRevoked())
    && (forall x :: x in s.rows && x !in c.rows && s.rows[x].user == user ==>
          x in s.links && s.links[x].checked >= v && s.links[x].root !in c.rows)
    && (forall t | t in s.threads && s.threads[t].req.Login? && s.threads[t].req.user == user
            && s.threads[t].pc.LoginChecked()
          :: s.threads[t].pc.checked >= v)
    && (forall t :: t in s.threads && s.threads[t].pc.InFlight() && s.threads[t].pc.stored.user == user ==>
          s.threads[t].pc.stored.id !in c.rows)
  }

  lemma MoveChecksCurrent(cfg: Config, s: State, th: Thread, env: Env)
    requires th.req.Login? && MoveOf(cfg, s, th, env).pc.LoginChecked()
    ensures var pc := MoveOf(cfg, s, th, env).pc;
      || (th.pc.LoginChecked() && pc.checked == th.pc.checked)
      || (th.req.user in s.accounts && pc.checked == s.accounts[th.req.user].version)
  {
  }

  /** A login that has checked a password had checked it before, or checks the current one. */
  lemma NewCheck(cfg: Config, s: State, a: Action, t: nat)
    requires t in Next(cfg, s, a).threads && Next(cfg, s, a).threads[t].req.Login?
    requires Next(cfg, s, a).threads[t].pc.LoginChecked()
    ensures t in s.threads && s.threads[t].req == Next(cfg, s, a).threads[t].req
    ensures var pc := Next(cfg, s, a).threads[t].pc; var user := s.threads[t].req.user;
      || (s.threads[t].pc.LoginChecked() && pc.checked == s.threads[t].pc.checked)
      || (user in s.accounts && pc.checked == s.accounts[user].version)
  {
    hide MoveOf, Next;
    ThreadAfter(cfg, s, a, t);
    if a.Run? && a.tid == t && t in s.threads { MoveChecksCurrent(cfg, s, s.threads[t], a.env); }
  }

  lemma OnlyNewLoginsStep(cfg: Config, c: State, s: State, a: Action, user: UserId, v: nat)
    requires Inv(s) && Later(c, s) && OnlyNewLogins(c, s, user, v)
    ensures OnlyNewLogins(c, Next(cfg, s, a), user, v)
  {
    hide Inv, Next;
    var s' := Next(cfg, s, a);
    NextKeeps(cfg, s, a);
    forall x | x in s'.rows && x !in c.rows && s'.rows[x].user == user
      ensures x in s'.links && s'.links[x].checked >= v && s'.links[x].root !in c.rows
    {
      if x in s.rows {
        OneRow(s, x);
      } else {
        NewRow(cfg, s, a, x);
        OneThread(s, a.tid);
      }
    }
    forall t | t in s'.threads && s'.threads[t].req.Login? && s'.threads[t].req.user == user
               && s'.threads[t].pc.LoginChecked()
      ensures s'.threads[t].pc.checked >= v
    {
      NewCheck(cfg, s, a, t);
    }
    forall t | t in s'.threads && s'.threads[t].pc.InFlight() && s'.threads[t].pc.stored.user == user
      ensures s'.threads[t].pc.stored.id !in c.rows
    {
      NewHolder(cfg, s, a, t);
      OneThread(s, t);
    }
  }

  lemma {:induction false} OnlyNewLoginsRun(cfg: Config, c: State, s: State, actions: seq<Action>, user: UserId, v: nat)
    requires Inv(s) && Later(c, s) && OnlyNewLogins(c, s, user, v)
    ensures OnlyNewLogins(c, Exec(cfg, s, actions), user, v)
    decreases |actions|
  {
    hide Inv, Next, Later, OnlyNewLogins;
    if actions != [] {
      var s' := Next(cfg, s, actions[0]);
      NextKeeps(cfg, s, actions[0]);
      LaterTrans(c, s, s');
      OnlyNewLoginsStep(cfg, c, s, actions[0], user, v);
      OnlyNewLoginsRun(cfg, c, s', actions[1..], user, v);
    }
  }

  /** The state right after the revoke-all of a password change has taken effect. */
  ghost predicate JustCut(cfg: Config, start: Time, before: seq<Action>, tid: nat, env: Env, c: State, user: UserId,
                          v: nat) {
    var s := Exec(cfg, Init(start), before);
    && tid in s.threads && s.threads[tid].req.ChangePassword? && s.threads[tid].pc == ChangeRevokeAll(v)
    && s.threads[tid].req.user == user && !env.write.Failed?
    && c == Next(cfg, s, Run(tid, env))
  }

  lemma RevokeAllCuts(cfg: Config, s: State, tid: nat, env: Env)
    requires Inv(s) && tid in s.threads && s.threads[tid].req.ChangePassword? && s.threads[tid].pc.ChangeRevokeAll?
    requires !env.write.Failed?
    ensures var c := Next(cfg, s, Run(tid, env)); var user := s.threads[tid].req.user;
      && (forall x :: x in c.rows && c.rows[x].user == user ==> c.rows[x].IsRevoked())
      && user in c.accounts && s.threads[tid].pc.version <= c.accounts[user].version
  {
    OneThread(s, tid);
  }

  lemma LaterHere(s: State)
    ensures Later(s, s)
  {
  }

  /** Every row of the user that is unrevoked at any time after the revoke-all lies in a segment of
      later rows that starts with a login, or with the successor inserted by a refresh whose
      compare-and-set came before the revoke-all. */
  lemma PasswordChangeCutsChains(cfg: Config, start: Time, before: seq<Action>, tid: nat, env: Env,
                                 c: State, user: UserId, v: nat, after: seq<Action>, x: TokenId)
    requires JustCut(cfg, start, before, tid, env, c, user, v)
    requires var s := Exec(cfg, c, after); x in s.rows && s.rows[x].user == user && !s.rows[x].IsRevoked()
    ensures var s := Exec(cfg, c, after);
      exists path :: IsDescent(s, path) && path[|path| - 1] == x
        && (forall i :: 0 <= i < |path| ==> path[i] !in c.rows)
        && (s.links[path[0]].parent.None? || CaughtInFlight(c, s.links[path[0]].parent.value))
  {
    var s0 := Exec(cfg, Init(start), before);
    Reachable(cfg, start, before);
    NextKeeps(cfg, s0, Run(tid, env));
    RevokeAllCuts(cfg, s0, tid, env);
    LaterHere(c);
    hide Inv, Next;
    CutOffRun(cfg, c, c, after, user);
    var s := Exec(cfg, c, after);
    var path := Segment(c, s, x);
  }

  /** `x` belongs to a chain that started after `c`, with a password at least as new as version `v`. */
  predicate LoggedInAgain(c: State, s: State, x: TokenId, v: nat) {
    && x in s.links
    && var root := s.links[x].root;
    root in s.links && s.links[root].parent.None? && root !in c.rows && s.links[root].checked >= v
  }

  /** Everything `user` can still use after any continuation stems from a new login. */
  ghost predicate LogsOut(cfg: Config, c: State, user: UserId, v: nat) {
    forall after, x :: LoggedInAgainAfter(cfg, c, user, v, after, x)
  }

  ghost predicate LoggedInAgainAfter(cfg: Config, c: State, user: UserId, v: nat, after: seq<Action>, x: TokenId) {
    var s := Exec(cfg, c, after);
    x in s.rows && s.rows[x].user == user && !s.rows[x].IsRevoked() ==> LoggedInAgain(c, s, x, v)
  }

  lemma NewLoginsOnly(cfg: Config, c: State, user: UserId, v: nat, after: seq<Action>, x: TokenId)
    requires Inv(c) && OnlyNewLogins(c, c, user, v)
    ensures LoggedInAgainAfter(cfg, c, user, v, after, x)
  {
    var s := Exec(cfg, c, after);
    if x in s.rows && s.rows[x].user == user && !s.rows[x].IsRevoked() {
      hide Inv, Next;
      LaterHere(c);
      OnlyNewLoginsRun(cfg, c, c, after, user, v);
      ExecKeeps(cfg, c, after);
      OneRow(s, x);
    }
  }

  /** The statements an in-flight request still has to perform. */
  function Left(pc: Pc): nat {
    if pc.LoginRoles? then 3 else if pc.LoginClock? || pc.RefreshMark? then 2 else 1
  }

  predicate Straggling(th: Thread) {
    th.pc.InFlight() || (th.req.Login? && th.pc.LoginChecked())
  }

  /** Row `x` is what straggler `th` of state `s` inserts. */
  predicate InsertedFor(s: State, th: Thread, s': State, x: TokenId) {
    && x in s'.rows && x in s'.links && x !in s.rows && !s'.rows[x].IsRevoked()
    && (th.pc.InFlight() ==>
          s'.rows[x].user == th.pc.stored.user && th.pc.stored.id in s.links
          && s'.links[x].root == s.links[th.pc.stored.id].root)
    && (!th.pc.InFlight() && th.req.Login? && th.pc.LoginChecked() ==>
          s'.rows[x].user == th.req.user && s'.links[x].checked == th.pc.checked && s'.links[x].root == x)
  }

  lemma StragglerAdvances(cfg: Config, s: State, t: nat, id: TokenId, raw: string)
    requires t in s.threads && Straggling(s.threads[t]) && !Inserting(s.threads[t].pc)
    requires s.threads[t].pc.InFlight() ==> s.threads[t].req.Refresh?
    ensures var s' := Next(cfg, s, Run(t, Env(true, Failed, None, id, raw))); var th, th' := s.threads[t], s'.threads[t];
      && s'.rows == s.rows && s'.links == s.links && th'.req == th.req && Straggling(th')
      && Left(th'.pc) < Left(th.pc)
      && (th.pc.InFlight() ==> th'.pc.InFlight() && th'.pc.stored == th.pc.stored)
      && (!th.pc.InFlight() ==> th'.pc.LoginChecked() && th'.pc.checked == th.pc.checked)
  {
    hide Fresh, AddRow, NewToken, RevokeRow, Answers, Blacklisted;
  }

  lemma StragglerEnds(cfg: Config, s: State, t: nat, id: TokenId, raw: string)
    requires t in s.threads && Straggling(s.threads[t]) && Inserting(s.threads[t].pc) && Fresh(s, id, raw)
    requires s.threads[t].pc.InFlight() ==> s.threads[t].req.Refresh? && s.threads[t].pc.stored.id in s.links
    ensures InsertedFor(s, s.threads[t], Next(cfg, s, Run(t, Env(true, Applied, None, id, raw))), id)
  {
  }

  /** Left to itself, an in-flight request inserts its row. */
  lemma {:induction false} StragglerInserts(cfg: Config, s: State, t: nat) returns (after: seq<Action>, x: TokenId)
    requires Inv(s) && t in s.threads && Straggling(s.threads[t])
    ensures InsertedFor(s, s.threads[t], Exec(cfg, s, after), x)
    decreases Left(s.threads[t].pc)
  {
    OneThread(s, t);
    hide Inv, Next;
    if Inserting(s.threads[t].pc) {
      x := UpperBound(s.rows.Keys);
      var raw := UnusedRaw((set y | y in s.rows :: s.rows[y].hash) + s.blacklist.Keys);
      after := [Run(t, Env(true, Applied, None, x, raw))];
      StragglerEnds(cfg, s, t, x, raw);
      assert Exec(cfg, s, after) == Next(cfg, s, after[0]);
    } else {
      var a := Run(t, Env(true, Failed, None, 0, ""));
      NextKeeps(cfg, s, a);
      StragglerAdvances(cfg, s, t, 0, "");
      after, x := StragglerInserts(cfg, Next(cfg, s, a), t);
      assert ([a] + after)[1..] == after;
      after := [a] + after;
    }
  }

  /** A password change forces a new login on every device exactly when the revoke-all catches no refresh
      of the user in flight, and no login of the user that compared an older password. */
  lemma PasswordChangeLogsOut(cfg: Config, start: Time, before: seq<Action>, tid: nat, env: Env,
                              c: State, user: UserId, v: nat)
    requires JustCut(cfg, start, before, tid, env, c, user, v)
    ensures LogsOut(cfg, c, user, v) <==> NobodyInFlight(c, user, v)
  {
    var s0 := Exec(cfg, Init(start), before);
    Reachable(cfg, start, before);
    NextKeeps(cfg, s0, Run(tid, env));
    RevokeAllCuts(cfg, s0, tid, env);
    if NobodyInFlight(c, user, v) {
      hide Inv;
      forall after, x ensures LoggedInAgainAfter(cfg, c, user, v, after, x) {
        NewLoginsOnly(cfg, c, user, v, after, x);
      }
    } else {
      hide Inv;
      var t :| t in c.threads
        && ((c.threads[t].pc.InFlight() && c.threads[t].pc.stored.user == user)
            || (c.threads[t].req.Login? && c.threads[t].req.user == user && c.threads[t].pc.LoginChecked()
                && c.threads[t].pc.checked < v));
      var after, x := StragglerInserts(cfg, c, t);
      OneThread(c, t);
      if c.threads[t].pc.InFlight() { OneRow(c, c.threads[t].pc.stored.id); }
      assert !LoggedInAgainAfter(cfg, c, user, v, after, x);
    }
  }
}
