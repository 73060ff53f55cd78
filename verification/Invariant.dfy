/** What every statement of every interleaving keeps. */
module Invariant {
  import opened Collections
  import opened Tokens
  import opened Rotation

  type Links = map<TokenId, Link>
  type Heirs = map<TokenId, TokenId>

  /** Two rows never share an id or a hash, and every row has its history. */
  ghost predicate RowsOk(rows: Table, links: Links) {
    && links.Keys == rows.Keys
    && (forall x :: x in rows ==> rows[x].id == x)
    && (forall x, y :: x in rows && y in rows && rows[x].hash == rows[y].hash ==> x == y)
  }

  /** One row of a chain: it hangs under an older, revoked row of the same chain, or is its root. */
  ghost predicate LinkOk(rows: Table, links: Links, heirs: Heirs, x: TokenId) {
    && x in rows && x in links
    && var Link(parent, root, index, checked) := links[x];
    && index < |rows|
    && root in rows && root in links
    && links[root].parent.None? && links[root].checked == checked
    && rows[root].user == rows[x].user
    && (parent.None? ==> root == x)
    && (parent.Some? ==>
          var p := parent.value;
          && p in rows && p in links && rows[p].IsRevoked() && links[p].root == root
          && links[p].index < index && p in heirs && heirs[p] == x)
  }

  /** A rotated row is revoked and its successor points back at it. */
  ghost predicate HeirOk(rows: Table, links: Links, heirs: Heirs, x: TokenId) {
    && x in heirs && x in rows && rows[x].IsRevoked()
    && heirs[x] in links && links[heirs[x]].parent == Some(x)
  }

  /** The end of its chain: nothing was rotated out of it yet. */
  predicate IsTip(rows: Table, heirs: Heirs, x: TokenId) { x in rows && x !in heirs }

  ghost predicate ChainsOk(rows: Table, links: Links, heirs: Heirs)
    requires links.Keys == rows.Keys
  {
    && (forall x {:trigger LinkOk(rows, links, heirs, x)} :: x in rows ==> LinkOk(rows, links, heirs, x))
    && (forall x {:trigger HeirOk(rows, links, heirs, x)} :: x in heirs ==> HeirOk(rows, links, heirs, x))
    && (forall x, y {:trigger IsTip(rows, heirs, x), IsTip(rows, heirs, y)} ::
          IsTip(rows, heirs, x) && IsTip(rows, heirs, y) && links[x].root == links[y].root ==> x == y)
  }

  /** The row a thread read is still there, at most revoked since. */
  ghost predicate SnapshotOk(s: State, stored: RefreshToken) {
    && stored.id in s.rows
    && stored.SameIdentity(s.rows[stored.id])
    && (stored.IsRevoked() ==> s.rows[stored.id].IsRevoked())
  }

  ghost predicate ThreadOk(s: State, th: Thread) {
    && (th.pc.Snapshot().Some? ==> SnapshotOk(s, th.pc.Snapshot().value))
    && (th.pc.Reading().Some? ==> th.pc.Reading().value <= s.now)
    && (th.pc.RefreshSync? ==> th.pc.stored.IsRevoked())
    && (th.pc.InFlight() ==>
          th.req.Refresh? && s.rows[th.pc.stored.id].IsRevoked() && th.pc.stored.id !in s.heirs)
    && (th.req.Login? && th.pc.LoginChecked() ==>
          th.req.user in s.accounts && th.pc.checked <= s.accounts[th.req.user].version)
    && (th.req.ChangePassword? && th.pc.ChangeRevokeAll? ==>
          th.req.user in s.accounts && th.pc.version <= s.accounts[th.req.user].version)
  }

  /** Thread `t` is stopped between its compare-and-set of row `x` and the insert of the successor. */
  predicate Holds(threads: map<nat, Thread>, t: nat, x: TokenId) {
    t in threads && threads[t].pc.InFlight() && threads[t].pc.stored.id == x
  }

  ghost predicate ThreadsOk(s: State) {
    forall t {:trigger ThreadOk(s, s.threads[t])} :: t in s.threads ==> ThreadOk(s, s.threads[t])
  }

  /** No two threads are about to extend the same row. */
  ghost predicate HoldersDistinct(threads: map<nat, Thread>) {
    forall t, u, x {:trigger Holds(threads, t, x), Holds(threads, u, x)} ::
      Holds(threads, t, x) && Holds(threads, u, x) ==> t == u
  }

  /** A blacklist deadline never falls before the expiry of the token it names. */
  ghost predicate BlacklistOk(rows: Table, blacklist: Blacklist) {
    forall x :: x in rows && rows[x].hash in blacklist ==> blacklist[rows[x].hash] >= rows[x].expiresAt
  }

  ghost predicate Inv(s: State) {
    && RowsOk(s.rows, s.links) && ChainsOk(s.rows, s.links, s.heirs)
    && ThreadsOk(s) && HoldersDistinct(s.threads) && BlacklistOk(s.rows, s.blacklist)
  }

  /** Nobody is stopped between the compare-and-set of `x` and the insert of its successor. */
  ghost predicate NobodyHolds(s: State, x: TokenId) {
    forall t {:trigger Holds(s.threads, t, x)} :: !Holds(s.threads, t, x)
  }

  // ----- what never changes once it is there -----

  ghost predicate Later(s: State, s': State) {
    && s.now <= s'.now
    && (forall x :: x in s.rows ==>
          x in s'.rows && s'.rows[x].SameIdentity(s.rows[x]) && (s.rows[x].IsRevoked() ==> s'.rows[x] == s.rows[x]))
    && (forall x :: x in s.links ==> x in s'.links && s'.links[x] == s.links[x])
    && (forall u :: u in s.accounts ==> u in s'.accounts && s.accounts[u].version <= s'.accounts[u].version)
    && (forall t :: t in s.threads ==> t in s'.threads && s'.threads[t].req == s.threads[t].req)
    && (forall h :: h in s.blacklist ==> h in s'.blacklist)
  }

  /** A thread stays consistent while the stores grow, unless the row it holds gets a successor. */
  lemma ThreadStaysOk(s: State, s': State, th: Thread)
    requires ThreadOk(s, th) && Later(s, s')
    requires th.pc.InFlight() && th.pc.stored.id in s'.heirs ==> th.pc.stored.id in s.heirs
    ensures ThreadOk(s', th)
  {
  }

  // ----- the elementary changes keep the invariant -----

  lemma GotoKeepsThreads(s: State, tid: nat, pc: Pc)
    requires ThreadsOk(s) && tid in s.threads && ThreadOk(s, Thread(s.threads[tid].req, pc))
    ensures ThreadsOk(Goto(s, tid, pc))
  {
    var s' := Goto(s, tid, pc);
    forall t | t in s'.threads ensures ThreadOk(s', s'.threads[t]) {
      if t != tid { assert ThreadOk(s, s.threads[t]); }
      ThreadStaysOk(s, s', s'.threads[t]);
    }
  }

  lemma GotoKeepsHolders(s: State, tid: nat, pc: Pc)
    requires HoldersDistinct(s.threads) && tid in s.threads
    requires pc.InFlight() ==> Holds(s.threads, tid, pc.stored.id) || NobodyHolds(s, pc.stored.id)
    ensures HoldersDistinct(Goto(s, tid, pc).threads)
  {
    var s' := Goto(s, tid, pc);
    forall t, u, x | Holds(s'.threads, t, x) && Holds(s'.threads, u, x) ensures t == u {
      assert t != tid ==> Holds(s.threads, t, x);
      assert u != tid ==> Holds(s.threads, u, x);
    }
  }

  lemma GotoKeeps(s: State, tid: nat, pc: Pc)
    requires Inv(s) && tid in s.threads
    requires ThreadOk(s, Thread(s.threads[tid].req, pc))
    requires pc.InFlight() ==> Holds(s.threads, tid, pc.stored.id) || NobodyHolds(s, pc.stored.id)
    ensures Inv(Goto(s, tid, pc)) && Later(s, Goto(s, tid, pc))
  {
    hide ThreadsOk, ThreadOk, ChainsOk, RowsOk;
    GotoKeepsThreads(s, tid, pc);
    GotoKeepsHolders(s, tid, pc);
  }

  lemma GrowingKeepsThreads(s: State, s': State)
    requires ThreadsOk(s) && Later(s, s') && s'.threads == s.threads
    requires forall t, x :: Holds(s.threads, t, x) && x in s'.heirs ==> x in s.heirs
    ensures ThreadsOk(s')
  {
    hide ThreadOk, Later;
    forall t | t in s'.threads ensures ThreadOk(s', s'.threads[t]) {
      assert ThreadOk(s, s.threads[t]);
      assert s.threads[t].pc.InFlight() ==> Holds(s.threads, t, s.threads[t].pc.stored.id);
      ThreadStaysOk(s, s', s.threads[t]);
    }
  }

  /** Revoking any set of rows: nothing but `revoked_at` changes, and only from NULL. */
  ghost predicate OnlyRevokes(rows: Table, rows': Table) {
    && rows'.Keys == rows.Keys
    && forall x :: x in rows ==> rows'[x].SameIdentity(rows[x]) && (rows[x].IsRevoked() ==> rows'[x] == rows[x])
  }

  lemma TheUpdatesOnlyRevoke(rows: Table, id: TokenId, user: UserId, now: Time)
    ensures OnlyRevokes(rows, RevokeRow(rows, id, now)) && OnlyRevokes(rows, RevokeUser(rows, user, now))
  {
  }

  lemma RevokingKeepsChains(rows: Table, rows': Table, links: Links, heirs: Heirs)
    requires links.Keys == rows.Keys && OnlyRevokes(rows, rows') && ChainsOk(rows, links, heirs)
    ensures ChainsOk(rows', links, heirs)
  {
    assert |rows'| == |rows'.Keys| == |rows|;
    forall x | x in rows' ensures LinkOk(rows', links, heirs, x) { assert LinkOk(rows, links, heirs, x); }
    forall x | x in heirs ensures HeirOk(rows', links, heirs, x) { assert HeirOk(rows, links, heirs, x); }
    forall x, y | IsTip(rows', heirs, x) && IsTip(rows', heirs, y) && links[x].root == links[y].root ensures x == y {
      assert IsTip(rows, heirs, x) && IsTip(rows, heirs, y);
    }
  }

  lemma RevokingKeeps(s: State, rows': Table)
    requires Inv(s) && OnlyRevokes(s.rows, rows')
    ensures Inv(s.(rows := rows')) && Later(s, s.(rows := rows'))
  {
    var s' := s.(rows := rows');
    RevokingKeepsChains(s.rows, rows', s.links, s.heirs);
    GrowingKeepsThreads(s, s');
  }

  lemma MarkKeeps(s: State, stored: RefreshToken, at: Time, write: Write)
    requires Inv(s) && SnapshotOk(s, stored) && at <= s.now
    ensures Inv(Mark(s, stored, at, write)) && Later(s, Mark(s, stored, at, write))
  {
    var s' := Mark(s, stored, at, write);
    forall x | x in s'.rows && s'.rows[x].hash in s'.blacklist
      ensures s'.blacklist[s'.rows[x].hash] >= s'.rows[x].expiresAt
    {
      if s'.rows[x].hash == stored.hash { assert x == stored.id; }
    }
    GrowingKeepsThreads(s, s');
  }

  lemma AccountsKeep(s: State, user: UserId, account: Account)
    requires Inv(s) && (user in s.accounts ==> account.version >= s.accounts[user].version)
    ensures Inv(s.(accounts := s.accounts[user := account])) && Later(s, s.(accounts := s.accounts[user := account]))
  {
    var s' := s.(accounts := s.accounts[user := account]);
    GrowingKeepsThreads(s, s');
  }

  /** A new row either starts a chain or extends the chain of a tip nobody else will extend. */
  ghost predicate MayAdd(s: State, token: RefreshToken, parent: Option<TokenId>, root: TokenId, checked: nat) {
    && token.id !in s.rows && token.hash !in s.blacklist && !token.IsRevoked()
    && (forall x :: x in s.rows ==> s.rows[x].hash != token.hash)
    && (parent.None? ==> root == token.id)
    && (parent.Some? ==>
          var p := parent.value;
          && p in s.rows && p in s.links && s.rows[p].IsRevoked() && p !in s.heirs && NobodyHolds(s, p)
          && s.rows[p].user == token.user && s.links[p].root == root && s.links[p].checked == checked)
  }

  lemma AddRowKeepsRows(rows: Table, links: Links, token: RefreshToken, link: Link)
    requires RowsOk(rows, links) && token.id !in rows
    requires forall x :: x in rows ==> rows[x].hash != token.hash
    ensures var rows' := rows[token.id := token];
      RowsOk(rows', links[token.id := link]) && rows'.Keys == rows.Keys + {token.id} && |rows'| == |rows| + 1
  {
    var rows' := rows[token.id := token];
    assert rows'.Keys == rows.Keys + {token.id};
    assert |rows'| == |rows'.Keys| == |rows.Keys| + 1;
  }

  /** Rows already in a chain stay well linked when a fresh row is hung under an heirless one. */
  lemma OldLink(rows: Table, links: Links, heirs: Heirs, token: RefreshToken, link: Link, heirs': Heirs, x: TokenId)
    requires links.Keys == rows.Keys && token.id !in rows && LinkOk(rows, links, heirs, x)
    requires forall y :: y in heirs && Some(y) != link.parent ==> y in heirs' && heirs'[y] == heirs[y]
    requires link.parent.Some? ==> link.parent.value !in heirs
    ensures LinkOk(rows[token.id := token], links[token.id := link], heirs', x)
  {
    assert rows[token.id := token].Keys == rows.Keys + {token.id};
    assert |rows[token.id := token]| == |rows.Keys + {token.id}|;
  }

  lemma NewLink(rows: Table, links: Links, heirs: Heirs, token: RefreshToken, link: Link)
    requires links.Keys == rows.Keys && token.id !in rows && link.index == |rows|
    requires link.parent.None? ==> link.root == token.id
    requires link.parent.Some? ==>
      var p := link.parent.value;
      && LinkOk(rows, links, heirs, p) && rows[p].IsRevoked()
      && rows[p].user == token.user && links[p].root == link.root && links[p].checked == link.checked
    ensures var heirs' := if link.parent.Some? then heirs[link.parent.value := token.id] else heirs;
      LinkOk(rows[token.id := token], links[token.id := link], heirs', token.id)
  {
    assert rows[token.id := token].Keys == rows.Keys + {token.id};
    assert |rows[token.id := token]| == |rows.Keys + {token.id}|;
  }

  lemma ChainHeirs(rows: Table, links: Links, heirs: Heirs, token: RefreshToken, link: Link, x: TokenId)
    requires token.id !in rows && links.Keys == rows.Keys
    requires link.parent.Some? ==> link.parent.value in rows && rows[link.parent.value].IsRevoked()
    requires x in heirs && Some(x) != link.parent ==> HeirOk(rows, links, heirs, x)
    requires x in heirs || link.parent == Some(x)
    ensures var heirs' := if link.parent.Some? then heirs[link.parent.value := token.id] else heirs;
      HeirOk(rows[token.id := token], links[token.id := link], heirs', x)
  {
  }

  lemma AddRowKeepsChains(rows: Table, links: Links, heirs: Heirs, token: RefreshToken, link: Link)
    requires links.Keys == rows.Keys && ChainsOk(rows, links, heirs) && token.id !in rows
    requires link.index == |rows| && (link.parent.None? ==> link.root == token.id)
    requires link.parent.Some? ==>
      var p := link.parent.value;
      && p in rows && rows[p].IsRevoked() && p !in heirs
      && rows[p].user == token.user && links[p].root == link.root && links[p].checked == link.checked
    ensures var heirs' := if link.parent.Some? then heirs[link.parent.value := token.id] else heirs;
      ChainsOk(rows[token.id := token], links[token.id := link], heirs')
  {
    hide LinkOk, HeirOk, IsTip;
    var z := token.id;
    var rows', links' := rows[z := token], links[z := link];
    var heirs' := if link.parent.Some? then heirs[link.parent.value := z] else heirs;
    forall x | x in rows' ensures LinkOk(rows', links', heirs', x) {
      if x != z {
        assert LinkOk(rows, links, heirs, x);
        OldLink(rows, links, heirs, token, link, heirs', x);
      } else {
        assert link.parent.Some? ==> LinkOk(rows, links, heirs, link.parent.value);
        NewLink(rows, links, heirs, token, link);
      }
    }
    forall x | x in heirs' ensures HeirOk(rows', links', heirs', x) {
      assert x in heirs ==> HeirOk(rows, links, heirs, x);
      ChainHeirs(rows, links, heirs, token, link, x);
    }
    OneTip(rows, links, heirs, token, link);
  }

  /** A tip other than the new row was a tip before, of another chain than the one extended. */
  lemma OneTip(rows: Table, links: Links, heirs: Heirs, token: RefreshToken, link: Link)
    requires links.Keys == rows.Keys && ChainsOk(rows, links, heirs) && token.id !in rows
    requires link.parent.None? ==> link.root == token.id
    requires link.parent.Some? ==> IsTip(rows, heirs, link.parent.value) && links[link.parent.value].root == link.root
    ensures var rows', links' := rows[token.id := token], links[token.id := link];
      var heirs' := if link.parent.Some? then heirs[link.parent.value := token.id] else heirs;
      forall x, y {:trigger IsTip(rows', heirs', x), IsTip(rows', heirs', y)} ::
        IsTip(rows', heirs', x) && IsTip(rows', heirs', y) && links'[x].root == links'[y].root ==> x == y
  {
    var z := token.id;
    var rows', links' := rows[z := token], links[z := link];
    var heirs' := if link.parent.Some? then heirs[link.parent.value := z] else heirs;
    forall x, y | IsTip(rows', heirs', x) && IsTip(rows', heirs', y) && links'[x].root == links'[y].root
      ensures x == y
    {
      assert x != z ==> IsTip(rows, heirs, x) && LinkOk(rows, links, heirs, x);
      assert y != z ==> IsTip(rows, heirs, y) && LinkOk(rows, links, heirs, y);
    }
  }

  lemma AddRowIsLater(s: State, token: RefreshToken, parent: Option<TokenId>, root: TokenId, checked: nat)
    requires token.id !in s.rows && s.links.Keys == s.rows.Keys
    ensures Later(s, AddRow(s, token, parent, root, checked))
  {
  }

  lemma AddRowKeeps(s: State, token: RefreshToken, parent: Option<TokenId>, root: TokenId, checked: nat)
    requires Inv(s) && MayAdd(s, token, parent, root, checked)
    ensures Inv(AddRow(s, token, parent, root, checked)) && Later(s, AddRow(s, token, parent, root, checked))
  {
    hide ThreadsOk, ChainsOk, Later;
    var s' := AddRow(s, token, parent, root, checked);
    var link := Link(parent, root, |s.rows|, checked);
    AddRowKeepsRows(s.rows, s.links, token, link);
    AddRowKeepsChains(s.rows, s.links, s.heirs, token, link);
    AddRowIsLater(s, token, parent, root, checked);
    GrowingKeepsThreads(s, s');
  }

  // ----- each statement keeps the invariant -----

  /** What a statement needs to know about the thread that performs it. */
  lemma OneThread(s: State, tid: nat)
    requires Inv(s) && tid in s.threads
    ensures ThreadOk(s, s.threads[tid])
    ensures forall x :: x in s.rows ==> s.rows[x].id == x
    ensures s.links.Keys == s.rows.Keys
  {
  }

  /** The row of a live token has no successor, and no thread is about to insert one. */
  lemma LiveRowHasNoHolder(s: State, x: TokenId)
    requires Inv(s) && CanRevoke(s.rows, x)
    ensures x !in s.heirs && NobodyHolds(s, x)
  {
    assert x in s.heirs ==> HeirOk(s.rows, s.links, s.heirs, x);
    forall t ensures !Holds(s.threads, t, x) {
      if t in s.threads { assert ThreadOk(s, s.threads[t]); }
    }
  }

  /** Once the one thread that held a row moves on, nobody holds it. */
  lemma HolderLeaves(s: State, tid: nat, pc: Pc)
    requires HoldersDistinct(s.threads) && tid in s.threads && s.threads[tid].pc.InFlight() && !pc.InFlight()
    ensures NobodyHolds(Goto(s, tid, pc), s.threads[tid].pc.stored.id)
  {
    var x := s.threads[tid].pc.stored.id;
    assert Holds(s.threads, tid, x);
    forall t ensures !Holds(Goto(s, tid, pc).threads, t, x) {
      if t != tid { assert Holds(s.threads, t, x) ==> t == tid; }
    }
  }

  predicate Inserting(pc: Pc) { pc.LoginInsert? || pc.RefreshInsert? }

  predicate Revoking(pc: Pc) { pc.RefreshRevoke? || pc.LogoutRevoke? || pc.ChangeRevokeAll? }

  predicate Marking(pc: Pc) { pc.RefreshSync? || pc.RefreshMark? || pc.LogoutMark? }

  /** What one statement other than an insert does to the stores. */
  lemma EffectOf(cfg: Config, s: State, th: Thread, env: Env)
    requires !Inserting(th.pc)
    ensures var s' := MoveOf(cfg, s, th, env).s;
      || s' == s
      || (Revoking(th.pc) && s' == s.(rows := s'.rows) && OnlyRevokes(s.rows, s'.rows))
      || (Marking(th.pc) && s' == Mark(s, th.pc.stored, th.pc.at, env.write))
      || (th.pc.ChangeUpdate? && th.req.ChangePassword? && th.req.user in s.accounts
          && s' == s.(accounts := s.accounts[th.req.user :=
               Account(th.pc.newHash, s.accounts[th.req.user].version + 1)]))
  {
    hide OnlyRevokes, RevokeRow, RevokeUser, Mark, Fresh, Answers;
    if Revoking(th.pc) {
      if th.pc.ChangeRevokeAll? {
        if th.req.ChangePassword? { TheUpdatesOnlyRevoke(s.rows, 0, th.req.user, s.now); }
      } else {
        TheUpdatesOnlyRevoke(s.rows, th.pc.stored.id, 0, s.now);
      }
    }
  }

  lemma EffectKeeps(cfg: Config, s: State, tid: nat, env: Env)
    requires Inv(s) && tid in s.threads && !Inserting(s.threads[tid].pc)
    ensures var s' := MoveOf(cfg, s, s.threads[tid], env).s; Inv(s') && Later(s, s') && s'.threads == s.threads && s'.heirs == s.heirs
  {
    hide Inv, MoveOf, SnapshotOk;
    var th := s.threads[tid];
    var s' := MoveOf(cfg, s, th, env).s;
    EffectOf(cfg, s, th, env);
    OneThread(s, tid);
    if s' != s {
      if Revoking(th.pc) {
        RevokingKeeps(s, s'.rows);
      } else if Marking(th.pc) {
        MarkKeeps(s, th.pc.stored, th.pc.at, env.write);
      } else {
        AccountsKeep(s, th.req.user, Account(th.pc.newHash, s.accounts[th.req.user].version + 1));
      }
    }
  }

  lemma LoginMove(cfg: Config, s: State, th: Thread, env: Env)
    requires ThreadOk(s, th) && th.req.Login? && !Inserting(th.pc)
    ensures var m := MoveOf(cfg, s, th, env); ThreadOk(s, Thread(th.req, m.pc)) && (m.pc.InFlight() ==> m.pc == th.pc)
  {
    hide SnapshotOk;
  }

  lemma FoundIsOk(s: State, x: TokenId)
    requires x in s.rows && s.rows[x].id == x
    ensures SnapshotOk(s, s.rows[x])
  {
  }

  /** A refresh reaches the in-flight statements only through its own successful compare-and-set. */
  lemma RefreshMove(cfg: Config, s: State, th: Thread, env: Env)
    requires ThreadOk(s, th) && th.req.Refresh? && !Inserting(th.pc)
    requires forall x :: x in s.rows ==> s.rows[x].id == x
    ensures var m := MoveOf(cfg, s, th, env);
      && (!m.pc.RefreshMark? || m.pc == th.pc ==> ThreadOk(s, Thread(th.req, m.pc)))
      && (m.pc.RefreshMark? && m.pc != th.pc ==>
            th.pc == RefreshRevoke(m.pc.stored, m.pc.at) && CanRevoke(s.rows, m.pc.stored.id)
            && m.s == s.(rows := RevokeRow(s.rows, m.pc.stored.id, s.now)))
      && (m.pc.RefreshInsert? ==> th.pc == RefreshMark(m.pc.stored, m.pc.at))
  {
    hide SnapshotOk;
    if th.pc.RefreshFind? && env.found.Some? && env.found.value in s.rows { FoundIsOk(s, env.found.value); }
  }

  lemma LogoutMove(cfg: Config, s: State, th: Thread, env: Env)
    requires ThreadOk(s, th) && th.req.Logout? && !Inserting(th.pc)
    requires forall x :: x in s.rows ==> s.rows[x].id == x
    ensures var m := MoveOf(cfg, s, th, env); ThreadOk(s, Thread(th.req, m.pc)) && (m.pc.InFlight() ==> m.pc == th.pc)
  {
    hide SnapshotOk;
    if th.pc.Start? && env.found.Some? && env.found.value in s.rows { FoundIsOk(s, env.found.value); }
  }

  lemma ChangeMove(cfg: Config, s: State, th: Thread, env: Env)
    requires ThreadOk(s, th) && th.req.ChangePassword? && !Inserting(th.pc)
    ensures var m := MoveOf(cfg, s, th, env);
      && (m.pc.InFlight() ==> m.pc == th.pc)
      && (m.pc.ChangeRevokeAll? && m.pc != th.pc ==>
            th.req.user in m.s.accounts && m.pc.version == m.s.accounts[th.req.user].version)
      && (!m.pc.ChangeRevokeAll? || m.pc == th.pc ==> ThreadOk(s, Thread(th.req, m.pc)))
  {
    hide SnapshotOk;
  }

  lemma RotatedIsOk(s: State, th: Thread)
    requires ThreadOk(s, th) && th.req.Refresh? && th.pc.RefreshRevoke? && CanRevoke(s.rows, th.pc.stored.id)
    requires th.pc.stored.id !in s.heirs
    ensures ThreadOk(s.(rows := RevokeRow(s.rows, th.pc.stored.id, s.now)),
                     Thread(th.req, RefreshMark(th.pc.stored, th.pc.at)))
  {
  }

  /** After any statement but an insert the thread is consistent with the stores it left behind. */
  lemma MoveKeepsThread(cfg: Config, s: State, tid: nat, env: Env)
    requires Inv(s) && tid in s.threads && !Inserting(s.threads[tid].pc)
    ensures var m := MoveOf(cfg, s, s.threads[tid], env);
      && ThreadOk(m.s, Thread(s.threads[tid].req, m.pc))
      && (m.pc.InFlight() ==> Holds(s.threads, tid, m.pc.stored.id) || NobodyHolds(s, m.pc.stored.id))
  {
    hide Inv, MoveOf, Later, SnapshotOk;
    var th := s.threads[tid];
    var m := MoveOf(cfg, s, th, env);
    var th' := Thread(th.req, m.pc);
    OneThread(s, tid);
    EffectKeeps(cfg, s, tid, env);
    match th.req {
      case Login(_, _) => LoginMove(cfg, s, th, env); ThreadStaysOk(s, m.s, th');
      case Logout(_) => LogoutMove(cfg, s, th, env); ThreadStaysOk(s, m.s, th');
      case ChangePassword(_, _, _) =>
        ChangeMove(cfg, s, th, env);
        if !m.pc.ChangeRevokeAll? || m.pc == th.pc { ThreadStaysOk(s, m.s, th'); }
      case Refresh(_) =>
        RefreshMove(cfg, s, th, env);
        if m.pc.RefreshMark? && m.pc != th.pc {
          LiveRowHasNoHolder(s, th.pc.stored.id);
          RotatedIsOk(s, th);
        } else {
          ThreadStaysOk(s, m.s, th');
        }
    }
  }

  /** An insert: the thread ends first, so that nobody holds the row that now gets a successor. */
  lemma InsertKeeps(cfg: Config, s: State, tid: nat, env: Env)
    requires Inv(s) && tid in s.threads && Inserting(s.threads[tid].pc)
    ensures Inv(Step(cfg, s, tid, env)) && Later(s, Step(cfg, s, tid, env))
  {
    hide Inv, Later;
    var Thread(req, pc) := s.threads[tid];
    var m := MoveOf(cfg, s, s.threads[tid], env);
    OneThread(s, tid);
    var ended := Goto(s, tid, m.pc);
    if m.s == s {
      InsertStutters(s, tid, m.pc);
    } else if pc.LoginInsert? {
      GotoKeeps(s, tid, m.pc);
      AddRowKeeps(ended, NewToken(cfg, req.user, pc.at, env), None, env.id, pc.checked);
      LaterTrans(s, ended, Step(cfg, s, tid, env));
    } else {
      GotoKeeps(s, tid, m.pc);
      TheHolderLeaves(s, tid, m.pc);
      var Link(_, root, _, checked) := s.links[pc.stored.id];
      AddRowKeeps(ended, NewToken(cfg, pc.stored.user, pc.at, env), Some(pc.stored.id), root, checked);
      LaterTrans(s, ended, Step(cfg, s, tid, env));
    }
  }

  lemma TheHolderLeaves(s: State, tid: nat, pc: Pc)
    requires Inv(s) && tid in s.threads && s.threads[tid].pc.InFlight() && !pc.InFlight()
    ensures NobodyHolds(Goto(s, tid, pc), s.threads[tid].pc.stored.id)
  {
    HolderLeaves(s, tid, pc);
  }

  lemma InsertStutters(s: State, tid: nat, pc: Pc)
    requires Inv(s) && tid in s.threads && (pc == s.threads[tid].pc || pc.Done?)
    ensures Inv(Goto(s, tid, pc)) && Later(s, Goto(s, tid, pc))
  {
    hide Inv, Later;
    OneThread(s, tid);
    GotoKeeps(s, tid, pc);
  }

  lemma LaterTrans(a: State, b: State, c: State)
    requires Later(a, b) && Later(b, c)
    ensures Later(a, c)
  {
  }

  lemma StepKeeps(cfg: Config, s: State, tid: nat, env: Env)
    requires Inv(s) && tid in s.threads
    ensures Inv(Step(cfg, s, tid, env)) && Later(s, Step(cfg, s, tid, env))
  {
    hide Inv, Later, MoveOf, ThreadOk;
    if Inserting(s.threads[tid].pc) {
      InsertKeeps(cfg, s, tid, env);
    } else {
      var m := MoveOf(cfg, s, s.threads[tid], env);
      EffectKeeps(cfg, s, tid, env);
      MoveKeepsThread(cfg, s, tid, env);
      if m.pc.InFlight() && NobodyHolds(s, m.pc.stored.id) {
        assert NobodyHolds(m.s, m.pc.stored.id) by {
          forall t ensures !Holds(m.s.threads, t, m.pc.stored.id) {
            assert !Holds(s.threads, t, m.pc.stored.id);
          }
        }
      }
      GotoKeeps(m.s, tid, m.pc);
      LaterTrans(s, m.s, Step(cfg, s, tid, env));
    }
  }

  lemma ArriveKeeps(cfg: Config, s: State, tid: nat, req: Request)
    requires Inv(s)
    ensures Inv(Next(cfg, s, Arrive(tid, req)))
  {
    hide RowsOk, ChainsOk, BlacklistOk, ThreadOk, Later, HoldersDistinct;
    var s' := Next(cfg, s, Arrive(tid, req));
    ArrivesLater(cfg, s, tid, req);
    forall t | t in s'.threads ensures ThreadOk(s', s'.threads[t]) {
      if t in s.threads {
        assert ThreadOk(s, s.threads[t]);
        ThreadStaysOk(s, s', s.threads[t]);
      } else {
        StartIsOk(s', req);
      }
    }
    if tid !in s.threads {
      NewcomerHoldsNothing(s.threads, tid, Thread(req, Start));
    }
  }

  lemma NewcomerHoldsNothing(threads: map<nat, Thread>, tid: nat, th: Thread)
    requires HoldersDistinct(threads) && tid !in threads && !th.pc.InFlight()
    ensures HoldersDistinct(threads[tid := th])
  {
    var threads' := threads[tid := th];
    forall t, u, x | Holds(threads', t, x) && Holds(threads', u, x) ensures t == u {
      assert Holds(threads, t, x) && Holds(threads, u, x);
    }
  }

  lemma ArrivesLater(cfg: Config, s: State, tid: nat, req: Request)
    ensures Later(s, Next(cfg, s, Arrive(tid, req)))
  {
  }

  lemma StartIsOk(s: State, req: Request)
    ensures ThreadOk(s, Thread(req, Start))
  {
  }

  lemma TickKeeps(cfg: Config, s: State, delay: nat)
    requires Inv(s)
    ensures Inv(Next(cfg, s, Tick(delay)))
  {
    GrowingKeepsThreads(s, Next(cfg, s, Tick(delay)));
  }

  lemma NextKeeps(cfg: Config, s: State, a: Action)
    requires Inv(s)
    ensures Inv(Next(cfg, s, a)) && Later(s, Next(cfg, s, a))
  {
    hide Inv, Step;
    match a {
      case Tick(delay) => TickKeeps(cfg, s, delay);
      case Register(user, pwHash) =>
        if user !in s.accounts { AccountsKeep(s, user, Account(pwHash, 0)); }
      case Arrive(tid, req) => ArriveKeeps(cfg, s, tid, req);
      case Run(tid, env) =>
        if tid in s.threads { StepKeeps(cfg, s, tid, env); }
    }
  }

  lemma {:induction false} ExecKeeps(cfg: Config, s: State, actions: seq<Action>)
    requires Inv(s)
    ensures Inv(Exec(cfg, s, actions)) && Later(s, Exec(cfg, s, actions))
    decreases |actions|
  {
    hide Inv, Next;
    if actions != [] {
      NextKeeps(cfg, s, actions[0]);
      ExecKeeps(cfg, Next(cfg, s, actions[0]), actions[1..]);
    }
  }

  /** Every reachable state of every interleaving satisfies the invariant. */
  lemma Reachable(cfg: Config, start: Time, actions: seq<Action>)
    ensures Inv(Exec(cfg, Init(start), actions))
  {
    ExecKeeps(cfg, Init(start), actions);
  }
}
