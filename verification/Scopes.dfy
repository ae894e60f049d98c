/** The scopes of a user's permissions: joined over the user's roles, and carried along by a principal. */
module Scopes {
  import opened Base
  import opened Text

  /** How far a permission reaches; any other text a stored role may carry is `Unknown`. */
  datatype Scope = Own | Assigned | All | Unknown(name: string)

  /** A permission key granted to a role. */
  datatype KeyGrant = KeyGrant(role: ID, key: string)

  datatype Membership = Membership(user: ID, role: ID)

  datatype RoleTables = RoleTables(
    users: set<ID>,
    scopes: map<ID, Scope>,
    members: set<Membership>,
    keys: set<KeyGrant>)

  datatype UserAccess = UserAccess(scope: Scope, permissions: map<string, bool>, permissionScopes: map<string, Scope>)

  // ---------------------------------------------------------------- specification

  function MergeScope(a: Scope, b: Scope): Scope {
    if a == All || b == All then All
    else if a == Assigned || b == Assigned then Assigned
    else Own
  }

  /** The order own < assigned < all; text that names no scope counts as own. */
  function Level(scope: Scope): nat {
    match scope
    case All => 2
    case Assigned => 1
    case _ => 0
  }

  predicate Known(scope: Scope) {
    !scope.Unknown?
  }

  function RolesOf(t: RoleTables, user: ID): set<ID> {
    set r | r in t.scopes && Membership(user, r) in t.members
  }

  function KeysOf(t: RoleTables, user: ID): set<KeyGrant> {
    set g | g in t.keys && g.role in RolesOf(t, user)
  }

  /** A query answers with the rows of a set, each once, in any order. */
  ghost predicate Answers<T(!new)>(rows: seq<T>, expected: set<T>) {
    && (forall i | 0 <= i < |rows| :: rows[i] in expected)
    && (forall x | x in expected :: exists i :: 0 <= i < |rows| && rows[i] == x)
    && (forall i, j | 0 <= i < j < |rows| :: rows[i] != rows[j])
  }

  function OverallScope(t: RoleTables, rows: seq<ID>): Scope
    requires forall i | 0 <= i < |rows| :: rows[i] in t.scopes
  {
    if rows == [] then Own
    else MergeScope(OverallScope(t, rows[..|rows| - 1]), t.scopes[rows[|rows| - 1]])
  }

  /** The scope of one key after some rows: the first row's as it is, later ones joined in. */
  function KeyScope(t: RoleTables, rows: seq<KeyGrant>, key: string): Option<Scope>
    requires forall i | 0 <= i < |rows| :: rows[i].role in t.scopes
  {
    if rows == [] then None
    else
      var before, row := KeyScope(t, rows[..|rows| - 1], key), rows[|rows| - 1];
      if row.key != key then before
      else if before.None? then Some(t.scopes[row.role])
      else Some(MergeScope(before.value, t.scopes[row.role]))
  }

  /** What resolving leaves for the rows of a user's keys. */
  ghost predicate Resolved(t: RoleTables, keyRows: seq<KeyGrant>, permissions: map<string, bool>,
                           permissionScopes: map<string, Scope>)
    requires forall i | 0 <= i < |keyRows| :: keyRows[i].role in t.scopes
  {
    && permissionScopes.Keys == permissions.Keys
    && (forall key :: key in permissions <==> KeyScope(t, keyRows, key).Some?)
    && (forall key | key in permissions ::
          permissions[key] && KeyScope(t, keyRows, key) == Some(permissionScopes[key]))
  }

  // ---------------------------------------------------------------- the operations

  /** Resolves a user's access; the two row lists are what the two queries answer. */
  method ResolveRBACAccess(t: RoleTables, user: ID, roleRows: seq<ID>, keyRows: seq<KeyGrant>)
    returns (access: Option<UserAccess>)
    requires Answers(roleRows, RolesOf(t, user)) && Answers(keyRows, KeysOf(t, user))
    ensures access.Some? <==> user in t.users
    ensures access.Some? ==>
              && access.value.scope == OverallScope(t, roleRows)
              && Resolved(t, keyRows, access.value.permissions, access.value.permissionScopes)
  {
    if user !in t.users {
      return None;
    }
    var scope := Own;
    for n := 0 to |roleRows|
      invariant scope == OverallScope(t, roleRows[..n])
    {
      assert roleRows[..n + 1][..n] == roleRows[..n];
      scope := MergeScope(scope, t.scopes[roleRows[n]]);
    }
    assert roleRows[..|roleRows|] == roleRows;
    var permissions, permissionScopes := ResolveKeys(t, keyRows);
    access := Some(UserAccess(scope, permissions, permissionScopes));
  }

  method ResolveKeys(t: RoleTables, keyRows: seq<KeyGrant>)
    returns (permissions: map<string, bool>, permissionScopes: map<string, Scope>)
    requires forall i | 0 <= i < |keyRows| :: keyRows[i].role in t.scopes
    ensures Resolved(t, keyRows, permissions, permissionScopes)
  {
    permissions, permissionScopes := map[], map[];
    for n := 0 to |keyRows|
      invariant Resolved(t, keyRows[..n], permissions, permissionScopes)
    {
      assert keyRows[..n + 1][..n] == keyRows[..n];
      var key, roleScope := keyRows[n].key, t.scopes[keyRows[n].role];
      permissions := permissions[key := true];
      if key in permissionScopes {
        permissionScopes := permissionScopes[key := MergeScope(permissionScopes[key], roleScope)];
      } else {
        permissionScopes := permissionScopes[key := roleScope];
      }
    }
    assert keyRows[..|keyRows|] == keyRows;
  }

  // ---------------------------------------------------------------- main results

  /** The roles of the user that grant a key. */
  function GrantingRoles(t: RoleTables, user: ID, key: string): set<ID> {
    set r | r in RolesOf(t, user) && KeyGrant(r, key) in t.keys
  }

  /** `level` is the highest level among the roles. */
  ghost predicate IsJoin(t: RoleTables, roles: set<ID>, level: nat) {
    && (forall r | r in roles && r in t.scopes :: Level(t.scopes[r]) <= level)
    && (level == 0 || exists r :: r in roles && r in t.scopes && Level(t.scopes[r]) == level)
  }

  lemma MergeLevel(a: Scope, b: Scope)
    ensures Level(MergeScope(a, b)) == if Level(a) < Level(b) then Level(b) else Level(a)
    ensures Known(MergeScope(a, b))
  {
  }

  /** The roles named by the rows for a key. */
  function RowRoles(rows: seq<KeyGrant>, key: string): set<ID> {
    set i | 0 <= i < |rows| && rows[i].key == key :: rows[i].role
  }

  lemma {:induction false} KeyScopeJoins(t: RoleTables, rows: seq<KeyGrant>, key: string)
    requires forall i | 0 <= i < |rows| :: rows[i].role in t.scopes
    ensures KeyScope(t, rows, key).None? <==> RowRoles(rows, key) == {}
    ensures KeyScope(t, rows, key).Some? ==> IsJoin(t, RowRoles(rows, key), Level(KeyScope(t, rows, key).value))
    ensures KeyScope(t, rows, key).Some? && (forall r | r in RowRoles(rows, key) :: r in t.scopes && Known(t.scopes[r]))
            ==> Known(KeyScope(t, rows, key).value)
  {
    if rows != [] {
      var before, row := rows[..|rows| - 1], rows[|rows| - 1];
      KeyScopeJoins(t, before, key);
      assert RowRoles(rows, key) == RowRoles(before, key) + (if row.key == key then {row.role} else {});
      if row.key == key && KeyScope(t, before, key).Some? {
        MergeLevel(KeyScope(t, before, key).value, t.scopes[row.role]);
      }
    }
  }

  /** A further row for a key brings a role that no earlier row for it has. */
  lemma RowRolesAppend(rows: seq<KeyGrant>, key: string)
    requires rows != [] && forall i, j | 0 <= i < j < |rows| :: rows[i] != rows[j]
    ensures var before, row := RowRoles(rows[..|rows| - 1], key), rows[|rows| - 1];
            && RowRoles(rows, key) == before + (if row.key == key then {row.role} else {})
            && (row.key == key ==> row.role !in before)
  {
    var before, row := rows[..|rows| - 1], rows[|rows| - 1];
    forall i | 0 <= i < |before| && before[i].key == key && row.key == key ensures before[i].role != row.role {
      assert rows[i] != row;
    }
  }

  /** Text that names no scope is left only if a single role grants, and then that role's text is left. */
  ghost predicate SoleIfUnknown(t: RoleTables, roles: set<ID>, scope: Option<Scope>) {
    && (scope.None? <==> roles == {})
    && (scope.Some? && !Known(scope.value) ==> exists r :: roles == {r})
    && forall r | roles == {r} :: r in t.scopes && scope == Some(t.scopes[r])
  }

  lemma SoleStep(t: RoleTables, roles: set<ID>, scope: Option<Scope>, role: ID)
    requires SoleIfUnknown(t, roles, scope) && role in t.scopes && role !in roles
    ensures SoleIfUnknown(t, roles + {role},
                          Some(if scope.None? then t.scopes[role] else MergeScope(scope.value, t.scopes[role])))
  {
    if roles == {} {
      assert roles + {role} == {role};
    } else {
      var other :| other in roles;
      assert forall r | roles + {role} == {r} :: other == r && role == r;
      MergeLevel(scope.value, t.scopes[role]);
    }
  }

  lemma {:induction false} SingleRole(t: RoleTables, rows: seq<KeyGrant>, key: string)
    requires forall i | 0 <= i < |rows| :: rows[i].role in t.scopes
    requires forall i, j | 0 <= i < j < |rows| :: rows[i] != rows[j]
    ensures SoleIfUnknown(t, RowRoles(rows, key), KeyScope(t, rows, key))
  {
    if rows != [] {
      hide RowRoles, SoleIfUnknown;
      var before, row := rows[..|rows| - 1], rows[|rows| - 1];
      SingleRole(t, before, key);
      RowRolesAppend(rows, key);
      if row.key == key {
        SoleStep(t, RowRoles(before, key), KeyScope(t, before, key), row.role);
      } else {
        assert RowRoles(before, key) + {} == RowRoles(before, key);
      }
    }
  }

  lemma RowRolesGrant(t: RoleTables, user: ID, rows: seq<KeyGrant>, key: string)
    requires Answers(rows, KeysOf(t, user))
    ensures RowRoles(rows, key) == GrantingRoles(t, user, key)
  {
    forall r | r in GrantingRoles(t, user, key) ensures r in RowRoles(rows, key) {
      assert KeyGrant(r, key) in KeysOf(t, user);
    }
  }

  /**
   * Whatever the order of the rows, a key is permitted exactly if some role of the user grants it, and its scope is
   * the join over exactly the roles granting it.
   */
  lemma ScopeIsJoin(t: RoleTables, user: ID, rows: seq<KeyGrant>, key: string)
    requires Answers(rows, KeysOf(t, user))
    ensures KeyScope(t, rows, key).Some? <==> GrantingRoles(t, user, key) != {}
    ensures KeyScope(t, rows, key).Some?
            ==> IsJoin(t, GrantingRoles(t, user, key), Level(KeyScope(t, rows, key).value))
  {
    KeyScopeJoins(t, rows, key);
    RowRolesGrant(t, user, rows, key);
  }

  lemma JoinUnique(t: RoleTables, roles: set<ID>, a: nat, b: nat)
    requires IsJoin(t, roles, a) && IsJoin(t, roles, b)
    ensures a == b
  {
  }

  lemma LevelDecides(a: Scope, b: Scope)
    requires Known(a) && Known(b) && Level(a) == Level(b)
    ensures a == b
  {
  }

  /** Two orders of the same rows, and any two sets of tables that agree on the roles granting a key, resolve alike. */
  lemma ScopeDependsOnGrantingRoles(t: RoleTables, u: RoleTables, user: ID, rows: seq<KeyGrant>,
                                    otherRows: seq<KeyGrant>, key: string)
    requires Answers(rows, KeysOf(t, user)) && Answers(otherRows, KeysOf(u, user))
    requires GrantingRoles(t, user, key) == GrantingRoles(u, user, key)
    requires forall r | r in GrantingRoles(t, user, key) :: t.scopes[r] == u.scopes[r]
    ensures KeyScope(t, rows, key) == KeyScope(u, otherRows, key)
  {
    RowRolesGrant(t, user, rows, key);
    RowRolesGrant(u, user, otherRows, key);
    SameJoin(t, u, rows, otherRows, key);
  }

  lemma SameJoin(t: RoleTables, u: RoleTables, rows: seq<KeyGrant>, otherRows: seq<KeyGrant>, key: string)
    requires forall i | 0 <= i < |rows| :: rows[i].role in t.scopes
    requires forall i, j | 0 <= i < j < |rows| :: rows[i] != rows[j]
    requires forall i | 0 <= i < |otherRows| :: otherRows[i].role in u.scopes
    requires forall i, j | 0 <= i < j < |otherRows| :: otherRows[i] != otherRows[j]
    requires RowRoles(rows, key) == RowRoles(otherRows, key)
    requires forall r | r in RowRoles(rows, key) :: r in t.scopes && r in u.scopes && t.scopes[r] == u.scopes[r]
    ensures KeyScope(t, rows, key) == KeyScope(u, otherRows, key)
  {
    hide RowRoles, KeyScope;
    KeyScopeJoins(t, rows, key);
    KeyScopeJoins(u, otherRows, key);
    SingleRole(t, rows, key);
    SingleRole(u, otherRows, key);
    if KeyScope(t, rows, key).Some? {
      var a, b := KeyScope(t, rows, key).value, KeyScope(u, otherRows, key).value;
      if !Known(a) || !Known(b) {
        var r :| RowRoles(rows, key) == {r};
      } else {
        JoinUnique(t, RowRoles(rows, key), Level(a), Level(b));
        LevelDecides(a, b);
      }
    }
  }

  /** Giving the user one more role changes no key that the role does not grant. */
  lemma OtherKeysUnchanged(t: RoleTables, user: ID, role: ID, rows: seq<KeyGrant>, after: seq<KeyGrant>, key: string)
    requires KeyGrant(role, key) !in t.keys
    requires Answers(rows, KeysOf(t, user))
    requires Answers(after, KeysOf(t.(members := t.members + {Membership(user, role)}), user))
    ensures KeyScope(t, after, key) == KeyScope(t, rows, key)
  {
    var u := t.(members := t.members + {Membership(user, role)});
    assert GrantingRoles(u, user, key) == GrantingRoles(t, user, key);
    ScopeDependsOnGrantingRoles(t, u, user, rows, after, key);
    SameScopes(t, u, after, key);
  }

  lemma {:induction false} SameScopes(t: RoleTables, u: RoleTables, rows: seq<KeyGrant>, key: string)
    requires t.scopes == u.scopes && forall i | 0 <= i < |rows| :: rows[i].role in t.scopes
    ensures KeyScope(t, rows, key) == KeyScope(u, rows, key)
  {
    if rows != [] {
      SameScopes(t, u, rows[..|rows| - 1], key);
    }
  }

  lemma {:induction false} OverallJoins(t: RoleTables, rows: seq<ID>)
    requires forall i | 0 <= i < |rows| :: rows[i] in t.scopes
    ensures IsJoin(t, set i | 0 <= i < |rows| :: rows[i], Level(OverallScope(t, rows)))
  {
    if rows != [] {
      var before, row := rows[..|rows| - 1], rows[|rows| - 1];
      OverallJoins(t, before);
      MergeLevel(OverallScope(t, before), t.scopes[row]);
      assert (set i | 0 <= i < |rows| :: rows[i]) == (set i | 0 <= i < |before| :: before[i]) + {row};
    }
  }

  /** The overall scope is the join over all roles of the user. */
  lemma OverallIsJoin(t: RoleTables, user: ID, rows: seq<ID>)
    requires Answers(rows, RolesOf(t, user))
    ensures IsJoin(t, RolesOf(t, user), Level(OverallScope(t, rows)))
  {
    OverallJoins(t, rows);
    assert (set i | 0 <= i < |rows| :: rows[i]) == RolesOf(t, user);
  }

  /** The overall scope reaches at least as far as the scope of every single permission. */
  lemma OverallBounds(t: RoleTables, user: ID, roleRows: seq<ID>, keyRows: seq<KeyGrant>, key: string)
    requires Answers(roleRows, RolesOf(t, user)) && Answers(keyRows, KeysOf(t, user))
    requires KeyScope(t, keyRows, key).Some?
    ensures Level(KeyScope(t, keyRows, key).value) <= Level(OverallScope(t, roleRows))
  {
    ScopeIsJoin(t, user, keyRows, key);
    OverallIsJoin(t, user, roleRows);
  }

  // ---------------------------------------------------------------- the principal

  datatype Principal = Principal(scope: Scope, permissions: set<string>, permissionScopes: map<string, Scope>)

  /** The scope that a text names. */
  function ScopeNamed(text: string): Scope {
    if text == "all" then All
    else if text == "assigned" then Assigned
    else if text == "own" then Own
    else Unknown(text)
  }

  /** A principal trims scope texts, so a text with white space around it can come to name a scope. */
  function TrimScope(scope: Scope): Scope {
    if scope.Unknown? then ScopeNamed(TrimSpace(scope.name)) else scope
  }

  /** A blank scope text says nothing. */
  predicate Blank(scope: Scope) {
    TrimScope(scope) == Unknown("")
  }

  lemma TrimScopeTwice(scope: Scope)
    ensures TrimScope(TrimScope(scope)) == TrimScope(scope) && (Blank(TrimScope(scope)) <==> Blank(scope))
  {
    if scope.Unknown? {
      TrimTwice(scope.name);
    }
    hide TrimSpace;
  }

  /** The scopes that the copy keeps: those of allowed permissions, trimmed, unless blank. */
  function KeptScopes(permissions: map<string, bool>, scopes: map<string, Scope>): map<string, Scope> {
    map key | key in permissions && permissions[key] && key in scopes && !Blank(scopes[key]) :: TrimScope(scopes[key])
  }

  /** Copies the allowed permissions and their scopes, walking the map in any order. */
  method NewPrincipalWithScopes(scope: Scope, permissions: map<string, bool>, scopes: map<string, Scope>)
    returns (p: Principal)
    ensures p.scope == TrimScope(scope)
    ensures p.permissions == set key | key in permissions && permissions[key]
    ensures p.permissionScopes == KeptScopes(permissions, scopes)
  {
    var permissionCopy: set<string>, scopeCopy: map<string, Scope> := {}, map[];
    var todo := permissions.Keys;
    while todo != {}
      invariant todo <= permissions.Keys
      invariant permissionCopy == set key | key in permissions && key !in todo && permissions[key]
      invariant scopeCopy == map key | key in KeptScopes(permissions, scopes) && key !in todo
                                :: TrimScope(scopes[key])
    {
      hide TrimSpace, ScopeNamed;
      var permission :| permission in todo;
      todo := todo - {permission};
      if permissions[permission] {
        permissionCopy := permissionCopy + {permission};
        if permission in scopes && !Blank(scopes[permission]) {
          scopeCopy := scopeCopy[permission := TrimScope(scopes[permission])];
        }
      }
    }
    p := Principal(TrimScope(scope), permissionCopy, scopeCopy);
  }

  predicate HasPermission(p: Principal, permission: string) {
    TrimSpace(permission) in p.permissions
  }

  function ScopeFor(p: Principal, permission: string): Scope {
    ScopeOfKey(p, TrimSpace(permission))
  }

  function ScopeOfKey(p: Principal, key: string): Scope {
    if key in p.permissionScopes && !Blank(p.permissionScopes[key]) then TrimScope(p.permissionScopes[key])
    else TrimScope(p.scope)
  }

  /** The principal made from a resolved access. */
  ghost predicate MadeFrom(p: Principal, access: UserAccess) {
    && p.permissions == (set key | key in access.permissions && access.permissions[key])
    && p.permissionScopes == KeptScopes(access.permissions, access.permissionScopes)
  }

  /** All roles of the user reach no further than `own`. */
  predicate OwnAtMost(t: RoleTables, user: ID) {
    forall r | r in RolesOf(t, user) :: Level(t.scopes[r]) == 0
  }

  /**
   * One role alone grants the key, and its scope text names no scope as it stands: it is blank and another role of the
   * user reaches further, or trimmed it names a scope wider than own.
   */
  predicate Misread(t: RoleTables, user: ID, key: string) {
    exists r :: r in t.scopes && GrantingRoles(t, user, key) == {r} && t.scopes[r].Unknown?
                && (if Blank(t.scopes[r]) then !OwnAtMost(t, user) else Level(TrimScope(t.scopes[r])) > 0)
  }

  /** A key scope that names no scope is the text of the one role granting the key. */
  lemma UnknownKeyScope(t: RoleTables, user: ID, rows: seq<KeyGrant>, key: string)
    requires Answers(rows, KeysOf(t, user)) && KeyScope(t, rows, key).Some?
    ensures !Known(KeyScope(t, rows, key).value) ==> exists r :: GrantingRoles(t, user, key) == {r}
    ensures forall r | GrantingRoles(t, user, key) == {r} ::
              r in t.scopes && t.scopes[r] == KeyScope(t, rows, key).value
  {
    RowRolesGrant(t, user, rows, key);
    SingleRole(t, rows, key);
  }

  /** What a principal reports for a permitted key is the join over the granting roles, unless the key is misread. */
  lemma ScopeForJoinsIff(t: RoleTables, user: ID, roleRows: seq<ID>, keyRows: seq<KeyGrant>, access: UserAccess,
                         p: Principal, key: string)
    requires Answers(roleRows, RolesOf(t, user)) && Answers(keyRows, KeysOf(t, user))
    requires Resolved(t, keyRows, access.permissions, access.permissionScopes) && MadeFrom(p, access)
    requires p.scope == OverallScope(t, roleRows)
    ensures key in p.permissions <==> GrantingRoles(t, user, key) != {}
    ensures key in p.permissions
            ==> (IsJoin(t, GrantingRoles(t, user, key), Level(ScopeOfKey(p, key))) <==> !Misread(t, user, key))
  {
    ScopeIsJoin(t, user, keyRows, key);
    if KeyScope(t, keyRows, key).Some? {
      var scope := KeyScope(t, keyRows, key).value;
      UnknownKeyScope(t, user, keyRows, key);
      OverallIsJoin(t, user, roleRows);
      OverallKnown(t, roleRows);
      CarriedScope(access, p, key);
      hide ScopeOfKey, Resolved, MadeFrom, KeyScope, GrantingRoles, Answers, OverallScope, TrimScope;
      if Known(scope) {
        KnownStays(scope);
      } else {
        var r :| GrantingRoles(t, user, key) == {r};
        OwnLevel(t, user, OverallScope(t, roleRows));
        JoinOfUnknown(t, r, Level(if Blank(scope) then OverallScope(t, roleRows) else TrimScope(scope)));
      }
    }
  }

  /** The scope a principal reports for a permitted key: the trimmed key scope, or the overall one for a blank. */
  lemma CarriedScope(access: UserAccess, p: Principal, key: string)
    requires MadeFrom(p, access) && access.permissionScopes.Keys == access.permissions.Keys && Known(p.scope)
    ensures key in p.permissions
            ==> ScopeOfKey(p, key) == if Blank(access.permissionScopes[key]) then p.scope
                                      else TrimScope(access.permissionScopes[key])
  {
    if key in access.permissionScopes {
      TrimScopeTwice(access.permissionScopes[key]);
    }
    hide TrimSpace, ScopeNamed;
  }

  lemma OverallKnown(t: RoleTables, rows: seq<ID>)
    requires forall i | 0 <= i < |rows| :: rows[i] in t.scopes
    ensures Known(OverallScope(t, rows))
  {
  }

  lemma KnownStays(scope: Scope)
    requires Known(scope)
    ensures TrimScope(scope) == scope && !Blank(scope)
  {
  }

  lemma OwnLevel(t: RoleTables, user: ID, overall: Scope)
    requires IsJoin(t, RolesOf(t, user), Level(overall))
    ensures OwnAtMost(t, user) <==> Level(overall) == 0
  {
  }

  lemma JoinOfUnknown(t: RoleTables, r: ID, level: nat)
    requires r in t.scopes && t.scopes[r].Unknown?
    ensures IsJoin(t, {r}, level) <==> level == 0
  {
  }

  /** The scope that storing a role writes: one of the three, and `assigned` for any other text. */
  function StoredScope(text: string): Scope {
    var scope := ScopeNamed(TrimSpace(text));
    if Known(scope) then scope else Assigned
  }

  /** With scopes as storing roles writes them, no key is misread: what a principal reports is the join. */
  lemma StoredScopesRead(t: RoleTables, texts: map<ID, string>, user: ID, key: string)
    requires t.scopes == map r | r in texts :: StoredScope(texts[r])
    ensures !Misread(t, user, key)
  {
    hide TrimSpace, ScopeNamed, TrimScope;
  }

  /**
   * From the stored roles to the principal: a key, given with white space or not, is permitted exactly if a role of the
   * user grants it. The principal's scope for it is the join over the roles that do, exactly if the key is not misread.
   */
  method PrincipalForUser(t: RoleTables, user: ID, roleRows: seq<ID>, keyRows: seq<KeyGrant>)
    returns (p: Option<Principal>)
    requires Answers(roleRows, RolesOf(t, user)) && Answers(keyRows, KeysOf(t, user))
    ensures p.Some? <==> user in t.users
    ensures p.Some? ==> forall permission ::
              var key := TrimSpace(permission);
              && (HasPermission(p.value, permission) <==> GrantingRoles(t, user, key) != {})
              && (HasPermission(p.value, permission)
                  ==> (IsJoin(t, GrantingRoles(t, user, key), Level(ScopeFor(p.value, permission)))
                       <==> !Misread(t, user, key)))
  {
    var access := ResolveRBACAccess(t, user, roleRows, keyRows);
    if access.None? {
      return None;
    }
    var principal := NewPrincipalWithScopes(access.value.scope, access.value.permissions,
                                            access.value.permissionScopes);
    OverallKnown(t, roleRows);
    KnownStays(access.value.scope);
    hide TrimSpace, IsJoin, GrantingRoles, Misread, TrimScope, ScopeOfKey, KeptScopes;
    forall permission
      ensures HasPermission(principal, permission) <==> GrantingRoles(t, user, TrimSpace(permission)) != {}
      ensures HasPermission(principal, permission)
              ==> (IsJoin(t, GrantingRoles(t, user, TrimSpace(permission)), Level(ScopeFor(principal, permission)))
                   <==> !Misread(t, user, TrimSpace(permission)))
    {
      ScopeForJoinsIff(t, user, roleRows, keyRows, access.value, principal, TrimSpace(permission));
    }
    p := Some(principal);
  }
}
