/** Where a new row and a new holder of a chain can come from in one action. */
module Origins {
  import opened Collections
  import opened Tokens
  import opened Rotation
  import opened Invariant

  /** The thread that inserts row `x` in this action, and what it inserts it for. */
  predicate CreatedBy(s: State, s': State, tid: nat, x: TokenId)
    requires tid in s.threads && x in s'.rows && x in s'.links
  {
    var Thread(req, pc) := s.threads[tid];
    var link := s'.links[x];
    || (req.Login? && pc.LoginInsert? && link.parent.None? && link.root == x && link.checked == pc.checked
        && s'.rows[x].user == req.user)
    || (req.Refresh? && pc.RefreshInsert? && link.parent == Some(pc.stored.id) && pc.stored.id in s.links
        && link.root == s.links[pc.stored.id].root && link.checked == s.links[pc.stored.id].checked
        && s'.rows[x].user == pc.stored.user)
  }

  lemma InsertCreates(cfg: Config, s: State, tid: nat, env: Env, x: TokenId)
    requires tid in s.threads && Inserting(s.threads[tid].pc) && s.links.Keys == s.rows.Keys
    requires x in Step(cfg, s, tid, env).rows && x !in s.rows
    ensures var s' := Step(cfg, s, tid, env);
      x in s'.links && !s'.rows[x].IsRevoked() && s'.rows[x].hash !in s'.blacklist && CreatedBy(s, s', tid, x)
  {
    hide Step, CreatedBy;
    if s.threads[tid].pc.LoginInsert? {
      LoginCreates(cfg, s, tid, env, x);
    } else {
      RefreshCreates(cfg, s, tid, env, x);
    }
  }

  lemma LoginCreates(cfg: Config, s: State, tid: nat, env: Env, x: TokenId)
    requires tid in s.threads && s.threads[tid].pc.LoginInsert? && s.links.Keys == s.rows.Keys
    requires x in Step(cfg, s, tid, env).rows && x !in s.rows
    ensures var s' := Step(cfg, s, tid, env);
      x in s'.links && !s'.rows[x].IsRevoked() && s'.rows[x].hash !in s'.blacklist && CreatedBy(s, s', tid, x)
  {
  }

  lemma RefreshCreates(cfg: Config, s: State, tid: nat, env: Env, x: TokenId)
    requires tid in s.threads && s.threads[tid].pc.RefreshInsert? && s.links.Keys == s.rows.Keys
    requires x in Step(cfg, s, tid, env).rows && x !in s.rows
    ensures var s' := Step(cfg, s, tid, env);
      x in s'.links && !s'.rows[x].IsRevoked() && s'.rows[x].hash !in s'.blacklist && CreatedBy(s, s', tid, x)
  {
  }

  lemma NewRow(cfg: Config, s: State, a: Action, x: TokenId)
    requires Inv(s) && x in Next(cfg, s, a).rows && x !in s.rows
    ensures a.Run? && a.tid in s.threads && x in Next(cfg, s, a).links
      && !Next(cfg, s, a).rows[x].IsRevoked() && Next(cfg, s, a).rows[x].hash !in Next(cfg, s, a).blacklist
      && CreatedBy(s, Next(cfg, s, a), a.tid, x)
  {
    hide Inv, MoveOf, CreatedBy;
    if a.Run? && a.tid in s.threads {
      OneThread(s, a.tid);
      if Inserting(s.threads[a.tid].pc) {
        InsertCreates(cfg, s, a.tid, a.env, x);
      } else {
        EffectOf(cfg, s, s.threads[a.tid], a.env);
      }
    }
  }

  lemma MoveLeavesThreads(cfg: Config, s: State, th: Thread, env: Env)
    ensures MoveOf(cfg, s, th, env).s.threads == s.threads
  {
    hide Fresh, RevokeRow, RevokeUser, Answers;
    if !Inserting(th.pc) {
      EffectOf(cfg, s, th, env);
      hide MoveOf;
    }
  }

  /** An action moves on the thread it runs and no other. */
  lemma ThreadAfter(cfg: Config, s: State, a: Action, t: nat)
    requires t in Next(cfg, s, a).threads
    ensures var th' := Next(cfg, s, a).threads[t];
      if t !in s.threads then th'.pc.Start?
      else if a.Run? && a.tid == t then th' == Thread(s.threads[t].req, MoveOf(cfg, s, s.threads[t], a.env).pc)
      else th' == s.threads[t]
  {
    hide MoveOf;
    if a.Run? && a.tid in s.threads { MoveLeavesThreads(cfg, s, s.threads[a.tid], a.env); }
  }

  lemma StoresAfter(cfg: Config, s: State, a: Action)
    requires a.Run? && a.tid in s.threads
    ensures var s', m := Next(cfg, s, a), MoveOf(cfg, s, s.threads[a.tid], a.env);
      s'.rows == m.s.rows && s'.blacklist == m.s.blacklist
  {
    hide MoveOf;
  }

  lemma MoveIntoFlight(cfg: Config, s: State, th: Thread, env: Env)
    requires MoveOf(cfg, s, th, env).pc.InFlight()
    ensures var stored := MoveOf(cfg, s, th, env).pc.stored;
      || (th.pc.InFlight() && th.pc.stored == stored)
      || (th.req.Refresh? && th.pc.RefreshRevoke? && th.pc.stored == stored && CanRevoke(s.rows, stored.id))
  {
    hide Fresh, RevokeRow, RevokeUser, Mark, AddRow, Answers;
  }

  /** A thread in flight was in flight before, or has just revoked a live row. */
  lemma NewHolder(cfg: Config, s: State, a: Action, t: nat)
    requires t in Next(cfg, s, a).threads && Next(cfg, s, a).threads[t].pc.InFlight()
    ensures t in s.threads
    ensures var stored := Next(cfg, s, a).threads[t].pc.stored;
      || (s.threads[t].pc.InFlight() && s.threads[t].pc.stored == stored)
      || (a.Run? && a.tid == t && s.threads[t].req.Refresh? && s.threads[t].pc.RefreshRevoke?
          && s.threads[t].pc.stored == stored && CanRevoke(s.rows, stored.id))
  {
    hide MoveOf, Next;
    ThreadAfter(cfg, s, a, t);
    if a.Run? && a.tid == t && t in s.threads { MoveIntoFlight(cfg, s, s.threads[t], a.env); }
  }
}
