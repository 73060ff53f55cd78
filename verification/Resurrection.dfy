/** A token that was logged out never comes back, whichever of the two writes got through. */
module Resurrection {
  import opened Collections
  import opened Tokens
  import opened Rotation
  import opened Invariant
  import opened Origins

  /** Row `x` can no longer be accepted by a refresh that reads the table now. */
  predicate Dead(s: State, x: TokenId)
    requires x in s.rows
  {
    s.rows[x].IsRevoked() || s.rows[x].IsExpired(s.now)
  }

  /** A write that ends the token took effect: in the table, or in the blacklist. */
  predicate Ended(s: State, x: TokenId)
    requires x in s.rows
  {
    s.rows[x].IsRevoked() || s.rows[x].hash in s.blacklist
  }

  predicate PresentsToken(th: Thread, hash: TokenHash) {
    th.req.Refresh? && HashToken(th.req.raw) == hash
  }

  /** How far a refresh of the ended token `x` can get. */
  predicate Doomed(s: State, pc: Pc, x: TokenId)
    requires x in s.rows
  {
    match pc
    case Start => true
    case RefreshFind => Dead(s, x)
    case RefreshClock(stored) => stored.IsRevoked() || stored.IsExpired(s.now)
    case RefreshSync(_, _) => true
    case Done(result) => !result.Issued?
    case _ => false
  }

  /** Every refresh of `x` that arrived after `c` is doomed. */
  ghost predicate AllDoomed(c: State, s: State, x: TokenId) {
    && x in c.rows && x in s.rows && Ended(s, x)
    && forall t :: t in s.threads && t !in c.threads && PresentsToken(s.threads[t], s.rows[x].hash) ==>
         Doomed(s, s.threads[t].pc, x)
  }

  lemma DoomedMove(cfg: Config, s: State, th: Thread, env: Env, x: TokenId)
    requires x in s.rows && PresentsToken(th, s.rows[x].hash) && Doomed(s, th.pc, x) && Ended(s, x)
    requires RowsOk(s.rows, s.links) && BlacklistOk(s.rows, s.blacklist)
    ensures Doomed(s, MoveOf(cfg, s, th, env).pc, x)
  {
  }

  lemma AnswerIsUnique(s: State, x: TokenId)
    requires Inv(s) && x in s.rows
    ensures RowsOk(s.rows, s.links) && BlacklistOk(s.rows, s.blacklist)
  {
  }

  lemma DoomedStays(s: State, s': State, pc: Pc, x: TokenId)
    requires x in s.rows && Later(s, s') && (pc.Start? || Doomed(s, pc, x))
    ensures x in s'.rows && Doomed(s', pc, x)
  {
  }

  lemma DoomedNext(cfg: Config, s: State, a: Action, x: TokenId, t: nat)
    requires Inv(s) && x in s.rows && Ended(s, x) && t in Next(cfg, s, a).threads
    requires PresentsToken(Next(cfg, s, a).threads[t], s.rows[x].hash)
    requires t in s.threads ==> Doomed(s, s.threads[t].pc, x)
    ensures x in Next(cfg, s, a).rows && Doomed(Next(cfg, s, a), Next(cfg, s, a).threads[t].pc, x)
  {
    var s' := Next(cfg, s, a);
    NextKeeps(cfg, s, a);
    hide Inv, Later, MoveOf, Next, Doomed;
    ThreadAfter(cfg, s, a, t);
    if t in s.threads {
      if a.Run? && a.tid == t {
        AnswerIsUnique(s, x);
        DoomedMove(cfg, s, s.threads[t], a.env, x);
      }
      DoomedStays(s, s', s'.threads[t].pc, x);
    } else {
      DoomedStays(s, s', Start, x);
    }
  }

  lemma AllDoomedStep(cfg: Config, c: State, s: State, a: Action, x: TokenId)
    requires Inv(s) && AllDoomed(c, s, x)
    ensures AllDoomed(c, Next(cfg, s, a), x)
  {
    hide Inv, Next, Doomed;
    var s' := Next(cfg, s, a);
    NextKeeps(cfg, s, a);
    forall t | t in s'.threads && t !in c.threads && PresentsToken(s'.threads[t], s'.rows[x].hash)
      ensures Doomed(s', s'.threads[t].pc, x)
    {
      DoomedNext(cfg, s, a, x, t);
    }
  }

  lemma {:induction false} AllDoomedRun(cfg: Config, c: State, s: State, actions: seq<Action>, x: TokenId)
    requires Inv(s) && AllDoomed(c, s, x)
    ensures AllDoomed(c, Exec(cfg, s, actions), x)
    decreases |actions|
  {
    hide Inv, Next, AllDoomed;
    if actions != [] {
      NextKeeps(cfg, s, actions[0]);
      AllDoomedStep(cfg, c, s, actions[0], x);
      AllDoomedRun(cfg, c, Next(cfg, s, actions[0]), actions[1..], x);
    }
  }

  lemma TokenStays(c: State, s: State, x: TokenId)
    requires Later(c, s) && x in c.rows
    ensures x in s.rows && s.rows[x].hash == c.rows[x].hash
  {
  }

  /** No resurrection: once the row is revoked or its hash has been written to the blacklist, no
      refresh of the token that arrives later rotates it or is issued a token, however much later. */
  lemma NoResurrection(cfg: Config, start: Time, before: seq<Action>, after: seq<Action>, x: TokenId, t: nat)
    requires var c := Exec(cfg, Init(start), before);
      x in c.rows && Ended(c, x) && t !in c.threads
    requires var c := Exec(cfg, Init(start), before); var s := Exec(cfg, c, after);
      t in s.threads && PresentsToken(s.threads[t], c.rows[x].hash)
    ensures var pc := Exec(cfg, Exec(cfg, Init(start), before), after).threads[t].pc;
      !pc.InFlight() && !(pc.Done? && pc.result.Issued?)
  {
    var c := Exec(cfg, Init(start), before);
    Reachable(cfg, start, before);
    hide Inv, Later, Next;
    AllDoomedRun(cfg, c, c, after, x);
    ExecKeeps(cfg, c, after);
    TokenStays(c, Exec(cfg, c, after), x);
  }

  /** Either write of a logout, when it is applied, ends the token: the revocation always, the
      blacklist entry unless the token had no lifetime left. */
  lemma LogoutEndsToken(cfg: Config, s: State, tid: nat, env: Env)
    requires Inv(s) && tid in s.threads && s.threads[tid].req.Logout? && !env.write.Failed?
    requires var pc := s.threads[tid].pc;
      pc.LogoutRevoke? || (pc.LogoutMark? && pc.stored.RemainingLifetime(pc.at) > 0)
    ensures var x := s.threads[tid].pc.stored.id; var c := Next(cfg, s, Run(tid, env));
      x in c.rows && Ended(c, x)
  {
    OneThread(s, tid);
  }

  /** A revoked row that nobody is rotating stays unrotated, even by requests that arrived earlier. */
  ghost predicate NeverRotated(s: State, x: TokenId) {
    x in s.rows && s.rows[x].IsRevoked() && x !in s.heirs && NobodyHolds(s, x)
  }

  lemma HeirOf(s: State, x: TokenId)
    requires Inv(s) && x in s.heirs
    ensures s.heirs[x] in s.rows && s.heirs[x] in s.links && s.links[s.heirs[x]].parent == Some(x)
  {
    assert HeirOk(s.rows, s.links, s.heirs, x);
  }

  lemma LinkedToHeir(s: State, y: TokenId)
    requires Inv(s) && y in s.rows
    ensures y in s.links && (s.links[y].parent.Some? ==> s.links[y].parent.value in s.heirs)
  {
    assert LinkOk(s.rows, s.links, s.heirs, y);
  }

  /** A row gets a successor from a thread that holds it. */
  lemma HeirOrigin(cfg: Config, s: State, a: Action, x: TokenId)
    requires Inv(s) && x in Next(cfg, s, a).heirs
    ensures x in s.heirs || exists t :: Holds(s.threads, t, x)
  {
    hide Inv, Next;
    var s' := Next(cfg, s, a);
    NextKeeps(cfg, s, a);
    HeirOf(s', x);
    var y := s'.heirs[x];
    if y in s.rows {
      LinkedToHeir(s, y);
    } else {
      NewRow(cfg, s, a, y);
      assert Holds(s.threads, a.tid, x);
    }
  }

  /** A row gets a holder by being revoked. */
  lemma HolderOrigin(cfg: Config, s: State, a: Action, t: nat, x: TokenId)
    requires Holds(Next(cfg, s, a).threads, t, x)
    ensures Holds(s.threads, t, x) || CanRevoke(s.rows, x)
  {
    hide Next;
    NewHolder(cfg, s, a, t);
  }

  lemma NeverRotatedStep(cfg: Config, s: State, a: Action, x: TokenId)
    requires Inv(s) && NeverRotated(s, x)
    ensures NeverRotated(Next(cfg, s, a), x)
  {
    var s' := Next(cfg, s, a);
    NextKeeps(cfg, s, a);
    hide Inv, Next, Holds;
    if x in s'.heirs { HeirOrigin(cfg, s, a, x); }
    forall t ensures !Holds(s'.threads, t, x) {
      if Holds(s'.threads, t, x) { HolderOrigin(cfg, s, a, t, x); }
    }
  }

  lemma {:induction false} NeverRotatedRun(cfg: Config, s: State, actions: seq<Action>, x: TokenId)
    requires Inv(s) && NeverRotated(s, x)
    ensures NeverRotated(Exec(cfg, s, actions), x)
    decreases |actions|
  {
    hide Inv, Next, NeverRotated;
    if actions != [] {
      NextKeeps(cfg, s, actions[0]);
      NeverRotatedStep(cfg, s, actions[0], x);
      NeverRotatedRun(cfg, Next(cfg, s, actions[0]), actions[1..], x);
    }
  }

  lemma LogoutStepRevokes(cfg: Config, s: State, tid: nat, env: Env)
    requires tid in s.threads && s.threads[tid].req.Logout? && s.threads[tid].pc.LogoutRevoke?
    requires !env.write.Failed? && CanRevoke(s.rows, s.threads[tid].pc.stored.id)
    ensures var c := Next(cfg, s, Run(tid, env)); var x := s.threads[tid].pc.stored.id;
      && x in c.rows && c.rows[x].IsRevoked() && c.heirs == s.heirs
      && c.threads == s.threads[tid := Thread(s.threads[tid].req, LogoutClock(s.threads[tid].pc.stored))]
  {
  }

  lemma LogoutRevokes(cfg: Config, s: State, tid: nat, env: Env)
    requires Inv(s) && tid in s.threads && s.threads[tid].req.Logout? && s.threads[tid].pc.LogoutRevoke?
    requires !env.write.Failed? && CanRevoke(s.rows, s.threads[tid].pc.stored.id)
    ensures var c := Next(cfg, s, Run(tid, env)); Inv(c) && NeverRotated(c, s.threads[tid].pc.stored.id)
  {
    hide Inv, Later, Next;
    var x := s.threads[tid].pc.stored.id;
    var c := Next(cfg, s, Run(tid, env));
    NextKeeps(cfg, s, Run(tid, env));
    LogoutStepRevokes(cfg, s, tid, env);
    LiveRowHasNoHolder(s, x);
    forall t ensures !Holds(c.threads, t, x) { assert !Holds(s.threads, t, x); }
  }

  /** A token revoked in the table by a logout is never rotated again, by any request. */
  lemma RevokedTokenIsNeverRotated(cfg: Config, start: Time, before: seq<Action>, tid: nat, env: Env,
                                   after: seq<Action>)
    requires var s := Exec(cfg, Init(start), before);
      && tid in s.threads && s.threads[tid].req.Logout? && s.threads[tid].pc.LogoutRevoke? && !env.write.Failed?
      && CanRevoke(s.rows, s.threads[tid].pc.stored.id)
    ensures var s := Exec(cfg, Init(start), before); var x := s.threads[tid].pc.stored.id;
      var s' := Exec(cfg, Next(cfg, s, Run(tid, env)), after);
      forall y :: y in s'.rows ==> y in s'.links && s'.links[y].parent != Some(x)
  {
    var s := Exec(cfg, Init(start), before);
    var x := s.threads[tid].pc.stored.id;
    var c := Next(cfg, s, Run(tid, env));
    Reachable(cfg, start, before);
    LogoutRevokes(cfg, s, tid, env);
    hide Inv, Next, NeverRotated;
    NeverRotatedRun(cfg, c, after, x);
    ExecKeeps(cfg, c, after);
    var s' := Exec(cfg, c, after);
    forall y | y in s'.rows ensures y in s'.links && s'.links[y].parent != Some(x) { LinkedToHeir(s', y); }
  }
}
