/** A refresh token is good for one successful refresh, however many requests present it. */
module SingleUse {
  import opened Collections
  import opened Tokens
  import opened Rotation
  import opened Invariant
  import opened Origins

  /** Thread `t` has ended with a new token `id`. */
  predicate IssuedTo(threads: map<nat, Thread>, t: nat, id: TokenId) {
    t in threads && threads[t].pc.Done? && threads[t].pc.result == Issued(id)
  }

  /** The new token of a refresh is the successor of a row that carries the presented token's hash. */
  predicate SucceedsPresented(s: State, th: Thread, id: TokenId) {
    && id in s.rows && id in s.links
    && (th.req.Refresh? ==>
          && s.links[id].parent.Some? && s.links[id].parent.value in s.rows
          && s.rows[s.links[id].parent.value].hash == HashToken(th.req.raw))
  }

  /** A refresh holds a row that it found by the hash of the presented token. */
  predicate HoldsPresented(th: Thread) {
    th.req.Refresh? && th.pc.Snapshot().Some? ==> th.pc.Snapshot().value.hash == HashToken(th.req.raw)
  }

  ghost predicate IssuesOk(s: State) {
    && (forall t {:trigger s.threads[t]} :: t in s.threads ==> HoldsPresented(s.threads[t]))
    && (forall t, id {:trigger IssuedTo(s.threads, t, id)} ::
          IssuedTo(s.threads, t, id) ==> SucceedsPresented(s, s.threads[t], id))
    && (forall t, u, id {:trigger IssuedTo(s.threads, t, id), IssuedTo(s.threads, u, id)} ::
          IssuedTo(s.threads, t, id) && IssuedTo(s.threads, u, id) ==> t == u)
  }

  lemma MoveHoldsPresented(cfg: Config, s: State, th: Thread, env: Env)
    requires HoldsPresented(th)
    ensures HoldsPresented(Thread(th.req, MoveOf(cfg, s, th, env).pc))
  {
    hide Fresh, AddRow, NewToken, Mark, RevokeRow, RevokeUser;
  }

  /** A request ends with a new token only by inserting it, with an id that was not in use. */
  lemma MoveIssues(cfg: Config, s: State, th: Thread, env: Env, id: TokenId)
    requires MoveOf(cfg, s, th, env).pc == Done(Issued(id)) && th.pc != Done(Issued(id))
    ensures var s' := MoveOf(cfg, s, th, env).s;
      && Inserting(th.pc) && id !in s.rows && id in s'.rows && id in s'.links
      && (th.req.Refresh? ==> th.pc.RefreshInsert? && s'.links[id].parent == Some(th.pc.stored.id))
  {
    hide RevokeRow, RevokeUser, Mark, Answers;
  }

  lemma Stays(s: State, s': State, th: Thread, id: TokenId)
    requires Later(s, s') && SucceedsPresented(s, th, id)
    ensures SucceedsPresented(s', th, id)
  {
  }

  /** A thread that has ended with a token had done so before, or does so now with a new id. */
  lemma IssueOrigin(cfg: Config, s: State, a: Action, t: nat, id: TokenId)
    requires Inv(s) && IssuesOk(s) && IssuedTo(Next(cfg, s, a).threads, t, id)
    ensures var s' := Next(cfg, s, a);
      && SucceedsPresented(s', s'.threads[t], id)
      && (IssuedTo(s.threads, t, id) || (id !in s.rows && a.Run? && a.tid == t))
  {
    var s' := Next(cfg, s, a);
    NextKeeps(cfg, s, a);
    ThreadAfter(cfg, s, a, t);
    if IssuedTo(s.threads, t, id) {
      hide Inv, Next, Later, MoveOf;
      Stays(s, s', s.threads[t], id);
    } else {
      OneThread(s, t);
      MoveIssues(cfg, s, s.threads[t], a.env, id);
      NewIssue(cfg, s, a, t, id);
    }
  }

  lemma NewIssue(cfg: Config, s: State, a: Action, t: nat, id: TokenId)
    requires Inv(s) && IssuesOk(s) && a.Run? && a.tid == t && t in s.threads
    requires MoveOf(cfg, s, s.threads[t], a.env).pc == Done(Issued(id)) && s.threads[t].pc != Done(Issued(id))
    ensures var s' := Next(cfg, s, a); t in s'.threads && SucceedsPresented(s', s'.threads[t], id)
  {
    var s' := Next(cfg, s, a);
    var th := s.threads[t];
    NextKeeps(cfg, s, a);
    MoveIssues(cfg, s, th, a.env, id);
    hide Inv, MoveOf;
    assert s'.rows == MoveOf(cfg, s, th, a.env).s.rows && s'.links == MoveOf(cfg, s, th, a.env).s.links;
    if th.req.Refresh? {
      OneThread(s, t);
      assert HoldsPresented(th);
    }
  }

  lemma IssuesStep(cfg: Config, s: State, a: Action)
    requires Inv(s) && IssuesOk(s)
    ensures IssuesOk(Next(cfg, s, a))
  {
    hide Inv, Next, MoveOf, SucceedsPresented;
    var s' := Next(cfg, s, a);
    forall t | t in s'.threads ensures HoldsPresented(s'.threads[t]) {
      ThreadAfter(cfg, s, a, t);
      if a.Run? && a.tid == t && t in s.threads {
        MoveHoldsPresented(cfg, s, s.threads[t], a.env);
      }
    }
    forall t: nat, id: TokenId | IssuedTo(s'.threads, t, id) ensures SucceedsPresented(s', s'.threads[t], id) {
      IssueOrigin(cfg, s, a, t, id);
    }
    forall t: nat, u: nat, id: TokenId | IssuedTo(s'.threads, t, id) && IssuedTo(s'.threads, u, id) ensures t == u {
      IssueOrigin(cfg, s, a, t, id);
      IssueOrigin(cfg, s, a, u, id);
      if IssuedTo(s.threads, t, id) || IssuedTo(s.threads, u, id) {
        IssuedIsARow(s, if IssuedTo(s.threads, t, id) then t else u, id);
      }
    }
  }

  lemma IssuedIsARow(s: State, t: nat, id: TokenId)
    requires IssuesOk(s) && IssuedTo(s.threads, t, id)
    ensures id in s.rows
  {
    assert SucceedsPresented(s, s.threads[t], id);
  }

  lemma {:induction false} IssuesRun(cfg: Config, s: State, actions: seq<Action>)
    requires Inv(s) && IssuesOk(s)
    ensures IssuesOk(Exec(cfg, s, actions))
    decreases |actions|
  {
    hide Inv, Next, IssuesOk;
    if actions != [] {
      NextKeeps(cfg, s, actions[0]);
      IssuesStep(cfg, s, actions[0]);
      IssuesRun(cfg, Next(cfg, s, actions[0]), actions[1..]);
    }
  }

  /** Single use: of all the refreshes that ever present the same token, at most one is issued a new one,
      in every interleaving. */
  lemma OneRefreshPerToken(cfg: Config, start: Time, actions: seq<Action>, t: nat, u: nat, x: TokenId, y: TokenId)
    requires var s := Exec(cfg, Init(start), actions);
      && IssuedTo(s.threads, t, x) && IssuedTo(s.threads, u, y)
      && s.threads[t].req.Refresh? && s.threads[u].req == s.threads[t].req
    ensures t == u && x == y
  {
    var s := Exec(cfg, Init(start), actions);
    Reachable(cfg, start, []);
    Reachable(cfg, start, actions);
    IssuesRun(cfg, Init(start), actions);
    assert SucceedsPresented(s, s.threads[t], x) && SucceedsPresented(s, s.threads[u], y);
    hide Exec;
    SameParent(s, x, y);
  }

  lemma SameParent(s: State, x: TokenId, y: TokenId)
    requires Inv(s) && x in s.rows && y in s.rows && x in s.links && y in s.links
    requires s.links[x].parent.Some? && s.links[x].parent.value in s.rows
    requires s.links[y].parent.Some? && s.links[y].parent.value in s.rows
    requires s.rows[s.links[x].parent.value].hash == s.rows[s.links[y].parent.value].hash
    ensures x == y
  {
    assert LinkOk(s.rows, s.links, s.heirs, x) && LinkOk(s.rows, s.links, s.heirs, y);
  }
}
