/** Runs showing that both provisos on the blacklist's answers are needed. */
module AcceleratorLimits {
  import opened Collections
  import opened Tokens
  import opened Rotation
  import opened Accelerator

  const TEN_SECONDS := Config(10, (hash: string, password: string) => true)

  function With(write: Write): Env { Env(true, write, None, 7, "raw") }

  /** A user logs in at instant 0 and receives row 7, valid until 10; a logout of it has read the row. */
  function LoginAndFind(): seq<Action> {
    [Register(1, "hash"), Arrive(0, Login(1, "password")), Run(0, With(Applied)), Run(0, With(Applied))] +
    [Run(0, With(Applied)), Run(0, With(Applied)), Arrive(1, Logout("raw")), Run(1, With(Applied).(found := Some(7)))]
  }

  /** The table write of the logout ends as `write`; the blacklist write comes `lag` after the clock reading. */
  function LogoutSlowly(write: Write, lag: nat): seq<Action> {
    [Run(1, With(write)), Run(1, With(Applied)), Tick(lag), Run(1, With(Applied))]
  }

  function Row7(): RefreshToken { RefreshToken(7, 1, HashToken("raw"), 10, 0, None) }

  lemma AfterLogin()
    ensures var s := Exec(TEN_SECONDS, Init(0), LoginAndFind()[..4]);
      && s.now == 0 && s.rows == map[] && s.blacklist == map[] && s.links == map[]
      && s.threads == map[0 := Thread(Login(1, "password"), LoginClock(0))]
  {
    var a := Run(0, With(Applied));
    assert LoginAndFind()[..4] == [Register(1, "hash"), Arrive(0, Login(1, "password")), a, a];
    ExecFour(TEN_SECONDS, Init(0), Register(1, "hash"), Arrive(0, Login(1, "password")), a, a);
  }

  lemma InsertStep(s: State)
    requires s.now == 0 && s.rows == map[] && s.blacklist == map[] && s.links == map[]
    requires s.threads == map[0 := Thread(Login(1, "password"), LoginClock(0))]
    ensures var a := Run(0, With(Applied)); var s' := Next(TEN_SECONDS, Next(TEN_SECONDS, s, a), a);
      && s'.now == 0 && s'.rows == map[7 := Row7()] && s'.blacklist == map[] && s'.threads.Keys == {0}
  {
  }

  lemma FindStep(s: State)
    requires s.now == 0 && s.rows == map[7 := Row7()] && s.blacklist == map[] && s.threads.Keys == {0}
    ensures var find := Run(1, With(Applied).(found := Some(7)));
      var s' := Next(TEN_SECONDS, Next(TEN_SECONDS, s, Arrive(1, Logout("raw"))), find);
      && s'.now == 0 && s'.rows == s.rows && s'.blacklist == map[]
      && 1 in s'.threads && s'.threads[1] == Thread(Logout("raw"), LogoutRevoke(Row7()))
  {
  }

  lemma AfterFind()
    ensures var s := Exec(TEN_SECONDS, Init(0), LoginAndFind());
      && s.now == 0 && s.rows == map[7 := Row7()] && s.blacklist == map[]
      && 1 in s.threads && s.threads[1] == Thread(Logout("raw"), LogoutRevoke(Row7()))
  {
    var s := Exec(TEN_SECONDS, Init(0), LoginAndFind()[..4]);
    var a, find := Run(0, With(Applied)), Run(1, With(Applied).(found := Some(7)));
    AfterLogin();
    ExecSplits(TEN_SECONDS, Init(0), LoginAndFind()[..4], [a, a, Arrive(1, Logout("raw")), find]);
    assert LoginAndFind() == LoginAndFind()[..4] + [a, a, Arrive(1, Logout("raw")), find];
    hide Next;
    ExecFour(TEN_SECONDS, s, a, a, Arrive(1, Logout("raw")), find);
    InsertStep(s);
    FindStep(Next(TEN_SECONDS, Next(TEN_SECONDS, s, a), a));
  }

  lemma TableWriteAndClock(s: State, write: Write)
    requires s.now == 0 && s.rows == map[7 := Row7()] && s.blacklist == map[]
    requires 1 in s.threads && s.threads[1] == Thread(Logout("raw"), LogoutRevoke(Row7()))
    ensures var s' := Next(TEN_SECONDS, Next(TEN_SECONDS, s, Run(1, With(write))), Run(1, With(Applied)));
      && s'.now == 0 && s'.blacklist == map[]
      && s'.rows == (map[7 := if write.Failed? then Row7() else Row7().(revokedAt := Some(0))])
      && 1 in s'.threads && s'.threads[1] == Thread(Logout("raw"), LogoutMark(Row7(), 0))
  {
  }

  lemma DelayAndMark(s: State, lag: nat)
    requires s.now == 0 && s.blacklist == map[]
    requires 1 in s.threads && s.threads[1] == Thread(Logout("raw"), LogoutMark(Row7(), 0))
    ensures var s' := Next(TEN_SECONDS, Next(TEN_SECONDS, s, Tick(lag)), Run(1, With(Applied)));
      s'.now == lag && s'.rows == s.rows && s'.blacklist == map[HashToken("raw") := lag + 10]
  {
  }

  lemma AfterLogout(write: Write, lag: nat)
    ensures var s := Exec(TEN_SECONDS, Init(0), LoginAndFind() + LogoutSlowly(write, lag));
      && s.now == lag && s.blacklist == map[HashToken("raw") := lag + 10]
      && s.rows == map[7 := if write.Failed? then Row7() else Row7().(revokedAt := Some(0))]
  {
    var s := Exec(TEN_SECONDS, Init(0), LoginAndFind());
    AfterFind();
    ExecSplits(TEN_SECONDS, Init(0), LoginAndFind(), LogoutSlowly(write, lag));
    hide Next;
    ExecFour(TEN_SECONDS, s, Run(1, With(write)), Run(1, With(Applied)), Tick(lag), Run(1, With(Applied)));
    TableWriteAndClock(s, write);
    DelayAndMark(Next(TEN_SECONDS, Next(TEN_SECONDS, s, Run(1, With(write))), Run(1, With(Applied))), lag);
  }

  /** A logout whose table write fails but whose blacklist write succeeds: the blacklist rejects a
      token that the table would accept. */
  lemma UnwrittenLogoutDisagrees()
    ensures var s := Exec(TEN_SECONDS, Init(0), LoginAndFind() + LogoutSlowly(Failed, 0));
      && Answers(s.rows, HashToken("raw"), Some(7))
      && FastVerdict(s, HashToken("raw"), Some(7)) == Reject(TokenRevoked)
      && TableVerdict(s, Some(7)) == Accept
  {
    AfterLogout(Failed, 0);
  }

  /** All writes applied, but the blacklist write 11 after the clock reading: the entry is visible
      although the token has expired, so the reason differs from the table's. */
  lemma LateMarkGivesOtherReason()
    ensures var actions := LoginAndFind() + LogoutSlowly(Applied, 11); var s := Exec(TEN_SECONDS, Init(0), actions);
      && (forall a :: a in actions && a.Run? ==> a.env.write.Applied?)
      && Answers(s.rows, HashToken("raw"), Some(7))
      && FastVerdict(s, HashToken("raw"), Some(7)) == Reject(TokenRevoked)
      && TableVerdict(s, Some(7)) == Reject(TokenExpired)
  {
    AfterLogout(Applied, 11);
  }
}
