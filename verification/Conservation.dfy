/** Chains are conserved: each login's chain is live, in flight or ended, and stays accounted for. */
module Conservation {
  import opened Collections
  import opened Tokens
  import opened Rotation
  import opened Invariant
  import opened Lineage
  import opened Origins

  /** The rows of `user` that a login created: one per chain. */
  function LoginRows(s: State, user: UserId): set<TokenId> {
    set x | x in s.rows && s.rows[x].user == user && x in s.links && s.links[x].parent.None?
  }

  /** Rows of `user` that a refresh would still accept, expiry aside. */
  function UnrevokedRows(s: State, user: UserId): set<TokenId> {
    set x | x in s.rows && s.rows[x].user == user && !s.rows[x].IsRevoked()
  }

  /** Refreshes of `user` that have revoked the old token and not inserted the new one yet. */
  function InFlight(s: State, user: UserId): set<nat> {
    set t | t in s.threads && s.threads[t].pc.InFlight() && s.threads[t].pc.stored.user == user
  }

  /** Chains with no unrevoked row and nobody about to insert one. */
  function EndedChains(s: State, user: UserId): set<TokenId> {
    set r | r in LoginRows(s, user) && LiveRows(s, r) == {} && Holders(s, r) == {}
  }

  function LiveRoots(s: State, user: UserId): set<TokenId> {
    set x | x in UnrevokedRows(s, user) :: RootOf(s, x)
  }

  function HeldRoot(s: State, t: nat): TokenId {
    if t in s.threads && s.threads[t].pc.InFlight() then RootOf(s, s.threads[t].pc.stored.id) else 0
  }

  function HeldRoots(s: State, user: UserId): set<TokenId> {
    set t | t in InFlight(s, user) :: HeldRoot(s, t)
  }

  /** The root of a row is a login row of the same user. */
  lemma RootIsLogin(s: State, x: TokenId)
    requires Inv(s) && x in s.rows
    ensures RootOf(s, x) in LoginRows(s, s.rows[x].user)
  {
    assert LinkOk(s.rows, s.links, s.heirs, x);
  }

  lemma RootKeepsUser(s: State, x: TokenId, user: UserId)
    requires Inv(s) && x in s.rows && RootOf(s, x) in LoginRows(s, user)
    ensures s.rows[x].user == user
  {
    assert LinkOk(s.rows, s.links, s.heirs, x);
  }

  /** As many chains have an unrevoked row as there are unrevoked rows. */
  lemma LiveRootsCount(s: State, user: UserId)
    requires Inv(s)
    ensures |LiveRoots(s, user)| == |UnrevokedRows(s, user)|
  {
    var f := (x: TokenId) => RootOf(s, x);
    forall x, y | x in UnrevokedRows(s, user) && y in UnrevokedRows(s, user) && f(x) == f(y) ensures x == y {
      LiveAndHeldAreTips(s, x);
      LiveAndHeldAreTips(s, y);
    }
    InjectiveImageSize(UnrevokedRows(s, user), f, LiveRoots(s, user));
  }

  /** As many chains are held as there are refreshes in flight. */
  lemma HeldRootsCount(s: State, user: UserId)
    requires Inv(s)
    ensures |HeldRoots(s, user)| == |InFlight(s, user)|
  {
    var f := (t: nat) => HeldRoot(s, t);
    forall t, u | t in InFlight(s, user) && u in InFlight(s, user) && f(t) == f(u) ensures t == u {
      HeldRowExists(s, t);
      HeldRowExists(s, u);
      assert Holds(s.threads, t, s.threads[t].pc.stored.id) && Holds(s.threads, u, s.threads[u].pc.stored.id);
    }
    InjectiveImageSize(InFlight(s, user), f, HeldRoots(s, user));
  }

  lemma LiveRootsAreChains(s: State, user: UserId, r: TokenId)
    requires Inv(s)
    ensures r in LiveRoots(s, user) <==> r in LoginRows(s, user) && LiveRows(s, r) != {}
  {
    if r in LiveRoots(s, user) {
      var x :| x in UnrevokedRows(s, user) && RootOf(s, x) == r;
      RootIsLogin(s, x);
      assert x in LiveRows(s, r);
    }
    if r in LoginRows(s, user) && LiveRows(s, r) != {} {
      var x :| x in LiveRows(s, r);
      RootKeepsUser(s, x, user);
    }
  }

  lemma HeldRootsAreChains(s: State, user: UserId, r: TokenId)
    requires Inv(s)
    ensures r in HeldRoots(s, user) <==> r in LoginRows(s, user) && Holders(s, r) != {}
  {
    if r in HeldRoots(s, user) {
      var t :| t in InFlight(s, user) && HeldRoot(s, t) == r;
      HeldRowExists(s, t);
      RootIsLogin(s, s.threads[t].pc.stored.id);
      assert t in Holders(s, r);
    }
    if r in LoginRows(s, user) && Holders(s, r) != {} {
      var t :| t in Holders(s, r);
      HeldRowExists(s, t);
      RootKeepsUser(s, s.threads[t].pc.stored.id, user);
      assert t in InFlight(s, user) && HeldRoot(s, t) == r;
    }
  }

  lemma ChainsAreAccountedFor(s: State, user: UserId)
    requires Inv(s)
    ensures |LoginRows(s, user)| == |UnrevokedRows(s, user)| + |InFlight(s, user)| + |EndedChains(s, user)|
  {
    hide Inv, LiveRoots, HeldRoots, LoginRows, LiveRows, Holders;
    var live, held, ended := LiveRoots(s, user), HeldRoots(s, user), EndedChains(s, user);
    forall r ensures (r in live <==> r in LoginRows(s, user) && LiveRows(s, r) != {})
                  && (r in held <==> r in LoginRows(s, user) && Holders(s, r) != {})
                  && !(r in live && r in held)
    {
      LiveRootsAreChains(s, user, r);
      HeldRootsAreChains(s, user, r);
      OneTokenPerChain(s, r);
    }
    assert live + held + ended == LoginRows(s, user);
    PartitionSize(LoginRows(s, user), live, held, ended);
    LiveRootsCount(s, user);
    HeldRootsCount(s, user);
  }

  /** Conservation of chains, in every reachable state: the logins of a user are its unrevoked
      rows, its refreshes in flight and its ended chains. */
  lemma ChainsConserved(cfg: Config, start: Time, actions: seq<Action>, user: UserId)
    ensures var s := Exec(cfg, Init(start), actions);
      |LoginRows(s, user)| == |UnrevokedRows(s, user)| + |InFlight(s, user)| + |EndedChains(s, user)|
  {
    Reachable(cfg, start, actions);
    ChainsAreAccountedFor(Exec(cfg, Init(start), actions), user);
  }

  /** No action loses a chain, only the insert of a login adds one, and an ended chain stays ended. */
  lemma NoActionLosesAChain(cfg: Config, s: State, a: Action, user: UserId)
    requires Inv(s)
    ensures var s' := Next(cfg, s, a);
      && LoginRows(s, user) <= LoginRows(s', user)
      && EndedChains(s, user) <= EndedChains(s', user)
      && (forall x :: x in LoginRows(s', user) - LoginRows(s, user) ==>
            a.Run? && a.tid in s.threads && s.threads[a.tid].req.Login? && s.threads[a.tid].pc.LoginInsert?
            && s.threads[a.tid].req.user == user && x in UnrevokedRows(s', user))
  {
    hide Inv, Next;
    var s' := Next(cfg, s, a);
    NextKeeps(cfg, s, a);
    forall x | x in LoginRows(s, user) ensures x in LoginRows(s', user) { KeysOfRows(s, s'); }
    forall x | x in LoginRows(s', user) - LoginRows(s, user)
      ensures a.Run? && a.tid in s.threads && s.threads[a.tid].req.Login? && s.threads[a.tid].pc.LoginInsert?
        && s.threads[a.tid].req.user == user && x in UnrevokedRows(s', user)
    {
      KeysOfRows(s, s');
      NewRow(cfg, s, a, x);
    }
    forall r | r in EndedChains(s, user) ensures r in EndedChains(s', user) {
      EndedStaysEnded(cfg, s, a, user, r);
    }
  }

  lemma KeysOfRows(s: State, s': State)
    requires Inv(s) && Inv(s')
    ensures s.links.Keys == s.rows.Keys && s'.links.Keys == s'.rows.Keys
  {
  }

  /** A live row of a chain was live before, or is inserted for a row that a refresh held. */
  lemma LiveOrigin(cfg: Config, s: State, a: Action, r: TokenId, x: TokenId)
    requires Inv(s) && x in LiveRows(Next(cfg, s, a), r) && r in s.rows
    ensures x in LiveRows(s, r) || (exists t :: t in Holders(s, r))
  {
    hide Inv, Next;
    var s' := Next(cfg, s, a);
    NextKeeps(cfg, s, a);
    KeysOfRows(s, s');
    if x !in s.rows {
      NewRow(cfg, s, a, x);
      assert s.threads[a.tid].pc.RefreshInsert? && a.tid in Holders(s, r);
    }
  }

  /** A holder of a chain held it before, or has just revoked its live row. */
  lemma HolderOrigin(cfg: Config, s: State, a: Action, r: TokenId, t: nat)
    requires Inv(s) && t in Holders(Next(cfg, s, a), r)
    ensures t in Holders(s, r) || (exists x :: x in LiveRows(s, r))
  {
    hide Inv, Next;
    var s' := Next(cfg, s, a);
    NextKeeps(cfg, s, a);
    KeysOfRows(s, s');
    NewHolder(cfg, s, a, t);
    var x := s'.threads[t].pc.stored.id;
    if s.threads[t].pc.InFlight() {
      HeldRowExists(s, t);
    } else {
      assert x in LiveRows(s, r);
    }
  }

  lemma EndedStaysEnded(cfg: Config, s: State, a: Action, user: UserId, r: TokenId)
    requires Inv(s) && r in EndedChains(s, user)
    ensures r in EndedChains(Next(cfg, s, a), user)
  {
    var s' := Next(cfg, s, a);
    NextKeeps(cfg, s, a);
    KeysOfRows(s, s');
    hide Inv, Next, LiveRows, Holders;
    forall x ensures x !in LiveRows(s', r) {
      if x in LiveRows(s', r) { LiveOrigin(cfg, s, a, r, x); }
    }
    forall t ensures t !in Holders(s', r) {
      if t in Holders(s', r) { HolderOrigin(cfg, s, a, r, t); }
    }
  }

  /** A chain that has ended has ended for good. */
  lemma {:induction false} EndedForGood(cfg: Config, s: State, actions: seq<Action>, user: UserId)
    requires Inv(s)
    ensures EndedChains(s, user) <= EndedChains(Exec(cfg, s, actions), user)
    decreases |actions|
  {
    hide Inv, Next, EndedChains;
    if actions != [] {
      NextKeeps(cfg, s, actions[0]);
      NoActionLosesAChain(cfg, s, actions[0], user);
      EndedForGood(cfg, Next(cfg, s, actions[0]), actions[1..], user);
    }
  }
}
