/** A run in which a password change catches a login in flight. */
module PasswordChangeLimits {
  import opened Collections
  import opened Rotation
  import opened PasswordChange

  /** Passwords are stored as they are. */
  const PLAIN := Config(10, (hash: string, password: string) => hash == password)

  const OLD_PASSWORD := "old"
  const NEW_PASSWORD := "new"

  function Goes(raw: string): Env { Env(true, Applied, None, 0, raw) }

  /** A login compares the old password; then the password is changed, up to the revoke-all. */
  function LoginDuringChange(): seq<Action> {
    [Register(1, OLD_PASSWORD), Arrive(0, Login(1, OLD_PASSWORD)), Run(0, Goes("")),
     Arrive(1, ChangePassword(1, OLD_PASSWORD, NEW_PASSWORD))]
    + [Run(1, Goes(NEW_PASSWORD)), Run(1, Goes(""))]
  }

  lemma LoginCompares()
    ensures var s := Exec(PLAIN, Init(0), LoginDuringChange()[..4]);
      && s.rows == map[] && s.accounts == map[1 := Account(OLD_PASSWORD, 0)]
      && s.threads == map[0 := Thread(Login(1, OLD_PASSWORD), LoginRoles(0)),
                          1 := Thread(ChangePassword(1, OLD_PASSWORD, NEW_PASSWORD), Start)]
  {
    var register, login := Register(1, OLD_PASSWORD), Arrive(0, Login(1, OLD_PASSWORD));
    var change := Arrive(1, ChangePassword(1, OLD_PASSWORD, NEW_PASSWORD));
    assert LoginDuringChange()[..4] == [register, login, Run(0, Goes("")), change];
    ExecFour(PLAIN, Init(0), register, login, Run(0, Goes("")), change);
  }

  lemma PasswordIsStored(s: State)
    requires s.accounts == map[1 := Account(OLD_PASSWORD, 0)]
    requires 0 in s.threads && s.threads[0] == Thread(Login(1, OLD_PASSWORD), LoginRoles(0))
    requires 1 in s.threads && s.threads[1] == Thread(ChangePassword(1, OLD_PASSWORD, NEW_PASSWORD), Start)
    ensures var s' := Next(PLAIN, Next(PLAIN, s, Run(1, Goes(NEW_PASSWORD))), Run(1, Goes("")));
      && 0 in s'.threads && s'.threads[0] == s.threads[0]
      && 1 in s'.threads && s'.threads[1] == Thread(s.threads[1].req, ChangeRevokeAll(1))
  {
    assert OLD_PASSWORD[0] != NEW_PASSWORD[0];
  }

  lemma LoginStandsBesideRevokeAll()
    ensures var s := Exec(PLAIN, Init(0), LoginDuringChange());
      && 0 in s.threads && s.threads[0] == Thread(Login(1, OLD_PASSWORD), LoginRoles(0))
      && 1 in s.threads && s.threads[1] == Thread(ChangePassword(1, OLD_PASSWORD, NEW_PASSWORD), ChangeRevokeAll(1))
  {
    var s := Exec(PLAIN, Init(0), LoginDuringChange()[..4]);
    var rest := [Run(1, Goes(NEW_PASSWORD)), Run(1, Goes(""))];
    LoginCompares();
    assert LoginDuringChange() == LoginDuringChange()[..4] + rest;
    ExecSplits(PLAIN, Init(0), LoginDuringChange()[..4], rest);
    PasswordIsStored(s);
    ExecTwo(PLAIN, s, rest[0], rest[1]);
  }

  /** So there is a password change that does not log everyone out: the login goes on with the old
      password after the revoke-all. */
  lemma LoginSurvivesChange() returns (c: State)
    ensures JustCut(PLAIN, 0, LoginDuringChange(), 1, Goes(""), c, 1, 1)
    ensures !NobodyInFlight(c, 1, 1) && !LogsOut(PLAIN, c, 1, 1)
  {
    var s := Exec(PLAIN, Init(0), LoginDuringChange());
    LoginStandsBesideRevokeAll();
    hide Exec;
    c := Next(PLAIN, s, Run(1, Goes("")));
    assert 0 in c.threads && c.threads[0] == s.threads[0];
    hide Next;
    PasswordChangeLogsOut(PLAIN, 0, LoginDuringChange(), 1, Goes(""), c, 1, 1);
  }
}
