/** Role-based access: the cached fast path of the middleware and the domain's definition. */
module Rbac {
  import opened Collections

  type Permission = string

  datatype Role = Role(name: string, permissions: seq<Permission>)

  /** "org:*" against "org:read": everything before the trailing star is a prefix of what is wanted. */
  predicate IsPrefixWildcard(pattern: string, want: string) {
    var n := |pattern|;
    if n < 2 || pattern[n - 1] != '*' then false
    else
      var prefix := pattern[..n - 1];
      prefix != ":" && |want| >= |prefix| && want[..|prefix|] == prefix
  }

  predicate Grants(granted: Permission, want: Permission) {
    granted == "*" || granted == want || IsPrefixWildcard(granted, want)
  }

  // ----- the domain's definition -----

  /** Role.HasPermission: the first permission of the role that grants decides. */
  predicate HasPermission(permissions: seq<Permission>, want: Permission) {
    if permissions == [] then false
    else if permissions[0] == "*" then true
    else if permissions[0] == want then true
    else if IsPrefixWildcard(permissions[0], want) then true
    else HasPermission(permissions[1..], want)
  }

  predicate PermissionsMatch(roles: seq<Role>, want: Permission) {
    roles != [] && (HasPermission(roles[0].permissions, want) || PermissionsMatch(roles[1..], want))
  }

  lemma {:induction false} HasPermissionMeans(permissions: seq<Permission>, want: Permission)
    ensures HasPermission(permissions, want) <==> exists p :: p in permissions && Grants(p, want)
  {
    if permissions != [] {
      HasPermissionMeans(permissions[1..], want);
      assert permissions == [permissions[0]] + permissions[1..];
      assert Grants(permissions[0], want) ==> permissions[0] in permissions;
      assert forall p :: p in permissions && Grants(p, want) ==> p == permissions[0] || p in permissions[1..];
    }
  }

  lemma {:induction false} PermissionsMatchMeans(roles: seq<Role>, want: Permission)
    ensures PermissionsMatch(roles, want) <==> exists r, p :: r in roles && p in r.permissions && Grants(p, want)
  {
    if roles != [] {
      PermissionsMatchMeans(roles[1..], want);
      HasPermissionMeans(roles[0].permissions, want);
      assert roles == [roles[0]] + roles[1..];
    }
  }

  // ----- the middleware -----

  /** matchPermission of the middleware, over the flat list of the resolver. */
  predicate MatchPermission(granted: seq<Permission>, want: Permission) {
    granted != [] && (granted[0] == "*" || granted[0] == want || IsPrefixWildcard(granted[0], want)
                      || MatchPermission(granted[1..], want))
  }

  lemma {:induction false} MatchPermissionMeans(granted: seq<Permission>, want: Permission)
    ensures MatchPermission(granted, want) <==> exists p :: p in granted && Grants(p, want)
  {
    if granted != [] {
      MatchPermissionMeans(granted[1..], want);
      assert granted == [granted[0]] + granted[1..];
      assert Grants(granted[0], want) ==> granted[0] in granted;
      assert forall p :: p in granted && Grants(p, want) ==> p == granted[0] || p in granted[1..];
    }
  }

  // ----- the resolver -----

  type RoleCache = map<string, seq<Permission>>

  /** Every permission of the named roles, role by role; unknown roles have none. */
  function AllPermissions(cache: RoleCache, names: seq<string>): seq<Permission> {
    if names == [] then []
    else
      var last := names[|names| - 1];
      AllPermissions(cache, names[..|names| - 1]) + if last in cache then cache[last] else []
  }

  /** Drops every element that has occurred before. */
  function FirstOccurrences<T(==)>(xs: seq<T>): seq<T> {
    if xs == [] then []
    else
      var rest, last := xs[..|xs| - 1], xs[|xs| - 1];
      FirstOccurrences(rest) + if last in rest then [] else [last]
  }

  ghost predicate NoRepeats<T>(xs: seq<T>) {
    forall i, j :: 0 <= i < j < |xs| ==> xs[i] != xs[j]
  }

  /** Where an element occurs first. */
  function FirstIndex<T(==)>(xs: seq<T>, x: T): (i: nat)
    requires x in xs
    ensures i < |xs| && xs[i] == x && x !in xs[..i]
  {
    var rest := xs[..|xs| - 1];
    if x in rest then
      assert rest[..FirstIndex(rest, x)] == xs[..FirstIndex(rest, x)];
      FirstIndex(rest, x)
    else
      assert xs == rest + [xs[|xs| - 1]];
      |xs| - 1
  }

  /** Deduplication keeps exactly the members, once each, in the order of their first occurrences. */
  lemma {:induction false} FirstOccurrencesMeans<T>(xs: seq<T>)
    ensures var r := FirstOccurrences(xs);
      && NoRepeats(r) && (forall i :: 0 <= i < |r| ==> r[i] in xs) && (forall i :: 0 <= i < |xs| ==> xs[i] in r)
      && forall i, j :: 0 <= i < j < |r| ==> FirstIndex(xs, r[i]) < FirstIndex(xs, r[j])
  {
    if xs != [] {
      var rest, last := xs[..|xs| - 1], xs[|xs| - 1];
      assert xs == rest + [last];
      FirstOccurrencesMeans(rest);
    }
  }

  lemma {:induction false} AllPermissionsMeans(cache: RoleCache, names: seq<string>, p: Permission)
    ensures p in AllPermissions(cache, names) <==> exists n :: n in names && n in cache && p in cache[n]
  {
    if names != [] {
      AllPermissionsMeans(cache, names[..|names| - 1], p);
      assert names == names[..|names| - 1] + [names[|names| - 1]];
    }
  }

  lemma OneMore(before: seq<Permission>, more: seq<Permission>, j: nat)
    requires j < |more|
    ensures FirstOccurrences(before + more[..j + 1])
      == FirstOccurrences(before + more[..j]) + if more[j] in before + more[..j] then [] else [more[j]]
    ensures before + more[..j + 1] == before + more[..j] + [more[j]]
  {
    assert before + more[..j + 1] == before + more[..j] + [more[j]];
    assert (before + more[..j] + [more[j]])[..|before| + j] == before + more[..j];
  }

  lemma NoneYet(cache: RoleCache, names: seq<string>)
    ensures AllPermissions(cache, names[..0]) == [] && FirstOccurrences<Permission>([]) == []
  {
  }

  lemma OneRoleMore(cache: RoleCache, names: seq<string>, i: nat)
    requires i < |names|
    ensures AllPermissions(cache, names[..i + 1])
      == AllPermissions(cache, names[..i]) + if names[i] in cache then cache[names[i]] else []
  {
    assert names[..i + 1][..i] == names[..i];
  }

  /** A row of the roles table, as far as scanning and decoding it succeeds. */
  datatype Scanned = Decoded(role: Role) | Unreadable

  /** The cache a complete reading of the table gives. */
  function Loaded(rows: seq<Scanned>): RoleCache {
    if rows == [] then map[]
    else
      var last := rows[|rows| - 1];
      if last.Decoded? then Loaded(rows[..|rows| - 1])[last.role.name := last.role.permissions]
      else Loaded(rows[..|rows| - 1])
  }

  /** Role names are unique, so the cache is the table. */
  lemma {:induction false} LoadedIsTable(rows: seq<Scanned>)
    requires forall i :: 0 <= i < |rows| ==> rows[i].Decoded?
    requires forall i, j :: 0 <= i < j < |rows| ==> rows[i].role.name != rows[j].role.name
    ensures forall i :: 0 <= i < |rows| ==>
      rows[i].role.name in Loaded(rows) && Loaded(rows)[rows[i].role.name] == rows[i].role.permissions
    ensures forall n :: n in Loaded(rows) ==> exists i :: 0 <= i < |rows| && rows[i].role.name == n
  {
    if rows != [] {
      LoadedIsTable(rows[..|rows| - 1]);
    }
  }

  class PermissionResolver {
    var cache: RoleCache

    constructor ()
      ensures cache == map[]
    {
      cache := map[];
    }

    /** Reads the table into a new map and swaps it in; any failure on the way leaves the cache as it was. */
    method Refresh(queryOk: bool, rows: seq<Scanned>, endOk: bool) returns (ok: bool)
      modifies this
      ensures ok <==> queryOk && endOk && forall i :: 0 <= i < |rows| ==> rows[i].Decoded?
      ensures cache == if ok then Loaded(rows) else old(cache)
    {
      if !queryOk {
        return false;
      }
      var tmp: RoleCache := map[];
      for k := 0 to |rows|
        invariant forall i :: 0 <= i < k ==> rows[i].Decoded?
        invariant tmp == Loaded(rows[..k])
      {
        if rows[k].Unreadable? {
          return false;
        }
        tmp := tmp[rows[k].role.name := rows[k].role.permissions];
        assert rows[..k + 1][..k] == rows[..k];
      }
      if !endOk {
        return false;
      }
      assert rows[..|rows|] == rows;
      cache := tmp;
      ok := true;
    }

    /** The union of the roles' permissions without repeats, in the order of first occurrence. */
    method PermissionsForRoles(names: seq<string>) returns (out: seq<Permission>)
      ensures out == FirstOccurrences(AllPermissions(cache, names))
    {
      hide FirstOccurrences, AllPermissions;
      NoneYet(cache, names);
      var seen: set<Permission> := {};
      out := [];
      for i := 0 to |names|
        invariant out == FirstOccurrences(AllPermissions(cache, names[..i]))
        invariant forall p :: p in seen <==> p in AllPermissions(cache, names[..i])
      {
        var permissions := if names[i] in cache then cache[names[i]] else [];
        out, seen := AddUnseen(out, seen, permissions, AllPermissions(cache, names[..i]));
        OneRoleMore(cache, names, i);
      }
      assert names[..|names|] == names;
    }

    /** The inner loop: the permissions of one role, after those of the roles `before` it. */
    method AddUnseen(out: seq<Permission>, seen: set<Permission>, permissions: seq<Permission>, ghost before: seq<Permission>)
      returns (out': seq<Permission>, seen': set<Permission>)
      requires out == FirstOccurrences(before) && forall p :: p in seen <==> p in before
      ensures out' == FirstOccurrences(before + permissions) && forall p :: p in seen' <==> p in before + permissions
    {
      hide FirstOccurrences;
      out', seen' := out, seen;
      assert before + permissions[..0] == before;
      for j := 0 to |permissions|
        invariant out' == FirstOccurrences(before + permissions[..j])
        invariant forall p :: p in seen' <==> p in before + permissions[..j]
      {
        var p := permissions[j];
        OneMore(before, permissions, j);
        if p !in seen' {
          seen' := seen' + {p};
          out' := out' + [p];
        }
      }
      assert permissions[..|permissions|] == permissions;
    }
  }

  // ----- the decision -----

  datatype Decision = Unauthenticated | Denied | Allowed

  /** The roles the token names, as the domain sees them; unknown ones do not exist. */
  function RolesNamed(cache: RoleCache, names: seq<string>): seq<Role> {
    if names == [] then []
    else
      var last := names[|names| - 1];
      RolesNamed(cache, names[..|names| - 1]) + if last in cache then [Role(last, cache[last])] else []
  }

  lemma {:induction false} RolesNamedMeans(cache: RoleCache, names: seq<string>, p: Permission)
    ensures p in AllPermissions(cache, names) <==> exists r :: r in RolesNamed(cache, names) && p in r.permissions
  {
    if names != [] {
      RolesNamedMeans(cache, names[..|names| - 1], p);
    }
  }

  /** The fast path equals the definition: matching over the deduplicated union grants exactly when some
      role grants by itself. */
  lemma FastPathIsDefinition(cache: RoleCache, names: seq<string>, want: Permission)
    ensures MatchPermission(FirstOccurrences(AllPermissions(cache, names)), want)
      <==> PermissionsMatch(RolesNamed(cache, names), want)
  {
    var all := AllPermissions(cache, names);
    FirstOccurrencesMeans(all);
    MatchPermissionMeans(FirstOccurrences(all), want);
    PermissionsMatchMeans(RolesNamed(cache, names), want);
    hide Grants, AllPermissions, RolesNamed, FirstOccurrences, MatchPermission, PermissionsMatch;
    forall p ensures p in FirstOccurrences(all) <==> exists r :: r in RolesNamed(cache, names) && p in r.permissions {
      RolesNamedMeans(cache, names, p);
      assert p in FirstOccurrences(all) <==> p in all;
    }
    if r, p :| r in RolesNamed(cache, names) && p in r.permissions && Grants(p, want) {
      assert p in FirstOccurrences(all) && Grants(p, want);
    }
  }

  /** RequirePermission: who is let through to the handler. */
  method RequirePermission(resolver: PermissionResolver, roles: Option<seq<string>>, want: Permission)
    returns (d: Decision)
    ensures d.Unauthenticated? <==> roles.None?
    ensures d.Allowed? <==> roles.Some? && PermissionsMatch(RolesNamed(resolver.cache, roles.value), want)
  {
    if roles.None? {
      return Unauthenticated;
    }
    var perms := resolver.PermissionsForRoles(roles.value);
    FastPathIsDefinition(resolver.cache, roles.value, want);
    if |perms| == 0 {
      return Denied;
    }
    if !MatchPermission(perms, want) {
      return Denied;
    }
    return Allowed;
  }

  // ----- the language of the patterns -----

  /** A pattern with a trailing star grants exactly what begins with the rest of it. */
  lemma WildcardLanguage(prefix: string, want: Permission)
    ensures prefix != "" && prefix != ":" ==> (Grants(prefix + "*", want) <==> prefix <= want)
    ensures prefix == ":" ==> (Grants(prefix + "*", want) <==> want == ":*")
    ensures prefix == "" ==> Grants(prefix + "*", want)
  {
    assert (prefix + "*")[..|prefix|] == prefix;
  }

  /** The language of the comments: "*" for everything, "org:*" for everything under "org", "*:read" for
      reading anything, and an exact match otherwise. */
  predicate Documented(granted: Permission, want: Permission) {
    || granted == "*"
    || granted == want
    || (AllActions(granted) && granted[..|granted| - 1] <= want)
    || (AnyResource(granted) && EndsWith(want, granted[1..]))
  }

  /** "org:*", with something before the colon. */
  predicate AllActions(granted: Permission) {
    |granted| > 2 && granted[|granted| - 2..] == ":*"
  }

  /** "*:read", with something after the colon. */
  predicate AnyResource(granted: Permission) {
    |granted| > 2 && granted[..2] == "*:"
  }

  predicate EndsWith(s: string, end: string) {
    |s| >= |end| && s[|s| - |end|..] == end
  }

  /** A trailing star that does not follow a colon, as in "or*". */
  predicate BareWildcard(granted: Permission) {
    |granted| >= 2 && granted[|granted| - 1] == '*' && granted[|granted| - 2] != ':'
  }

  /** The code grants less than the comments say: "*:read" does not grant "user:read". */
  lemma SuffixWildcardIsNotImplemented()
    ensures Documented("*:read", "user:read") && !Grants("*:read", "user:read")
  {
    assert "user:read"[4..] == "*:read"[1..];
    assert "*:read"[..2] == "*:";
  }

  /** It also grants more: "or*" grants "org:read". */
  lemma BareWildcardIsGranted()
    ensures Grants("or*", "org:read") && !Documented("or*", "org:read")
  {
    assert "or*"[..2] == "or" == "org:read"[..2];
    assert "or*"[1..][0] == 'r';
  }

  /** Where the two part: the code omits what "*:read" should add, and adds what "or*" should not. */
  lemma SuffixIsOmitted(granted: Permission) returns (want: Permission)
    requires AnyResource(granted)
    ensures Documented(granted, want) && !Grants(granted, want)
  {
    want := "x" + granted[1..];
    assert want[1..] == granted[1..] && want[0] == 'x' && granted[0] == granted[..2][0] == '*';
    assert !IsPrefixWildcard(granted, want) by {
      assert granted[..|granted| - 1][0] == '*' && want[..|granted| - 1][0] == 'x';
    }
  }

  lemma BareIsAdded(granted: Permission) returns (want: Permission)
    requires BareWildcard(granted) && !AnyResource(granted)
    ensures Grants(granted, want) && !Documented(granted, want)
  {
    var prefix := granted[..|granted| - 1];
    want := prefix + "x";
    assert want[..|prefix|] == prefix && prefix[|prefix| - 1] != ':';
    assert want[|want| - 1] == 'x' && granted[|granted| - 1] == '*';
    assert !AllActions(granted) by { assert granted[|granted| - 2..][0] == granted[|granted| - 2] != ":*"[0]; }
  }

  lemma OtherwiseTheSame(granted: Permission, want: Permission)
    requires !AnyResource(granted) && !BareWildcard(granted)
    ensures Grants(granted, want) <==> Documented(granted, want)
  {
    if |granted| >= 2 && granted[|granted| - 1] == '*' {
      var prefix := granted[..|granted| - 1];
      assert granted[|granted| - 2..] == ":*";
      assert prefix == ":" <==> |granted| == 2;
    } else if |granted| > 2 {
      assert granted[|granted| - 2..][1] == granted[|granted| - 1];
    }
  }

  /** Code and comments agree on every wanted permission for exactly the patterns that neither begin with
      "*:" and something, nor end in a star that does not follow a colon; "*" itself is among them. */
  lemma DocumentedExactly(granted: Permission)
    ensures (forall want :: Grants(granted, want) <==> Documented(granted, want))
      <==> !AnyResource(granted) && !BareWildcard(granted)
  {
    hide Grants, Documented, AnyResource, BareWildcard;
    if AnyResource(granted) {
      var want := SuffixIsOmitted(granted);
    } else if BareWildcard(granted) {
      var want := BareIsAdded(granted);
    } else {
      forall want ensures Grants(granted, want) <==> Documented(granted, want) {
        OtherwiseTheSame(granted, want);
      }
    }
  }
}
