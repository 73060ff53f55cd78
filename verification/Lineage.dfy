/** Rotation is linear: every login starts one chain of tokens, and a chain never forks. */
module Lineage {
  import opened Collections
  import opened Tokens
  import opened Rotation
  import opened Invariant

  /** The root of the chain a row belongs to. */
  function RootOf(s: State, x: TokenId): TokenId {
    if x in s.links then s.links[x].root else x
  }

  /** Unrevoked rows of the chain of `root`. */
  function LiveRows(s: State, root: TokenId): set<TokenId> {
    set x | x in s.rows && !s.rows[x].IsRevoked() && RootOf(s, x) == root
  }

  /** Threads stopped between the compare-and-set of a row of the chain of `root` and the insert. */
  function Holders(s: State, root: TokenId): set<nat> {
    set t | t in s.threads && s.threads[t].pc.InFlight() && RootOf(s, s.threads[t].pc.stored.id) == root
  }

  /** `path` descends from its first row by successive rotations. */
  predicate IsDescent(s: State, path: seq<TokenId>) {
    && |path| > 0
    && (forall i :: 0 <= i < |path| ==> path[i] in s.links)
    && (forall i :: 0 < i < |path| ==> s.links[path[i]].parent == Some(path[i - 1]))
  }

  /** Two live rows, or a live row and a holder, or two holders of one chain are the same. */
  lemma LiveAndHeldAreTips(s: State, x: TokenId)
    requires Inv(s) && x in s.rows
    requires !s.rows[x].IsRevoked() || exists t :: Holds(s.threads, t, x)
    ensures IsTip(s.rows, s.heirs, x)
  {
    if !s.rows[x].IsRevoked() {
      LiveRowHasNoHolder(s, x);
    } else {
      var t :| Holds(s.threads, t, x);
      assert ThreadOk(s, s.threads[t]);
    }
  }

  lemma HeldRowExists(s: State, t: nat)
    requires Inv(s) && t in s.threads && s.threads[t].pc.InFlight()
    ensures var x := s.threads[t].pc.stored.id; x in s.rows && s.rows[x].IsRevoked() && IsTip(s.rows, s.heirs, x)
    ensures s.threads[t].pc.stored.user == s.rows[s.threads[t].pc.stored.id].user
  {
    assert ThreadOk(s, s.threads[t]);
  }

  /** A chain has one tip: live row, held row or neither, but never two of them. */
  lemma OneTokenPerChain(s: State, root: TokenId)
    requires Inv(s)
    ensures |LiveRows(s, root)| + |Holders(s, root)| <= 1
  {
    forall x, y | x in LiveRows(s, root) && y in LiveRows(s, root) ensures x == y {
      LiveAndHeldAreTips(s, x);
      LiveAndHeldAreTips(s, y);
    }
    AtMostOne(LiveRows(s, root));
    forall t, u | t in Holders(s, root) && u in Holders(s, root) ensures t == u {
      HeldRowExists(s, t);
      HeldRowExists(s, u);
      assert Holds(s.threads, t, s.threads[t].pc.stored.id) && Holds(s.threads, u, s.threads[u].pc.stored.id);
    }
    AtMostOne(Holders(s, root));
    forall x, t | x in LiveRows(s, root) && t in Holders(s, root) ensures false {
      LiveAndHeldAreTips(s, x);
      HeldRowExists(s, t);
    }
    assert LiveRows(s, root) == {} || Holders(s, root) == {} by {
      if x, t :| x in LiveRows(s, root) && t in Holders(s, root) { assert false; }
    }
  }

  /** The rows from the root of a chain down to `x`. */
  lemma {:induction false} Descent(s: State, x: TokenId) returns (path: seq<TokenId>)
    requires Inv(s) && x in s.rows
    ensures IsDescent(s, path) && path[0] == s.links[x].root && path[|path| - 1] == x
    decreases s.links[x].index
  {
    assert LinkOk(s.rows, s.links, s.heirs, x);
    var parent := s.links[x].parent;
    if parent.None? {
      path := [x];
    } else {
      path := Descent(s, parent.value);
      path := path + [x];
    }
  }

  /** A token is rotated at most once: no two rows name the same predecessor. */
  lemma OneSuccessor(s: State, y: TokenId, z: TokenId)
    requires Inv(s) && y in s.rows && z in s.rows && y in s.links && z in s.links
    requires s.links[y].parent.Some? && s.links[y].parent == s.links[z].parent
    ensures y == z
  {
    assert LinkOk(s.rows, s.links, s.heirs, y) && LinkOk(s.rows, s.links, s.heirs, z);
  }

  /** The chain of `x`: its root was inserted by a login of the same user, and rotations lead from it to `x`. */
  ghost predicate InChain(s: State, x: TokenId) {
    && x in s.rows && x in s.links
    && var root := s.links[x].root;
    && root in s.rows && root in s.links && s.links[root].parent.None? && s.rows[root].user == s.rows[x].user
    && exists path :: IsDescent(s, path) && path[0] == root && path[|path| - 1] == x
  }

  lemma RowIsInChain(s: State, x: TokenId)
    requires Inv(s) && x in s.rows
    ensures InChain(s, x)
  {
    assert LinkOk(s.rows, s.links, s.heirs, x);
    var path := Descent(s, x);
  }

  /** Linear lineage, in every reachable state of every interleaving: a row has at most one
      successor, a chain has at most one live row or pending successor, and belongs to one user. */
  lemma LinearLineage(cfg: Config, start: Time, actions: seq<Action>)
    ensures var s := Exec(cfg, Init(start), actions);
      && (forall y, z | y in s.rows && z in s.rows && y in s.links && z in s.links
             && s.links[y].parent.Some? && s.links[y].parent == s.links[z].parent :: y == z)
      && (forall root :: |LiveRows(s, root)| + |Holders(s, root)| <= 1)
      && (forall x :: x in s.rows ==> InChain(s, x))
  {
    var s := Exec(cfg, Init(start), actions);
    Reachable(cfg, start, actions);
    hide Inv, InChain, LiveRows, Holders;
    forall y, z | y in s.rows && z in s.rows && y in s.links && z in s.links
                  && s.links[y].parent.Some? && s.links[y].parent == s.links[z].parent
      ensures y == z
    {
      OneSuccessor(s, y, z);
    }
    forall root ensures |LiveRows(s, root)| + |Holders(s, root)| <= 1 { OneTokenPerChain(s, root); }
    forall x | x in s.rows ensures InChain(s, x) { RowIsInChain(s, x); }
  }
}
