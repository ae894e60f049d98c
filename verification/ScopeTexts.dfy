/** The scope of a permission, told by the scope texts of the stored roles. */
module ScopeTexts {
  import opened Base
  import opened Scopes
  import opened Text

  /** The user has the role, and the role has the permission. */
  predicate Gives(t: RoleTables, user: ID, key: string, r: ID) {
    r in t.scopes && Membership(user, r) in t.members && KeyGrant(r, key) in t.keys
  }

  /** What the join over some scopes is: the widest of them. */
  ghost predicate Widest(t: RoleTables, roles: set<ID>, scope: Scope) {
    && (scope == All <==> exists r :: r in roles && r in t.scopes && t.scopes[r] == All)
    && (scope == Assigned
        <==> && (forall r | r in roles && r in t.scopes :: t.scopes[r] != All)
             && exists r :: r in roles && r in t.scopes && t.scopes[r] == Assigned)
  }

  lemma JoinIsWidest(t: RoleTables, roles: set<ID>, scope: Scope)
    requires IsJoin(t, roles, Level(scope))
    ensures Widest(t, roles, scope)
  {
  }

  lemma GivesIff(t: RoleTables, user: ID, key: string)
    ensures GrantingRoles(t, user, key) == set r | r in t.scopes && Gives(t, user, key, r)
  {
  }

  /** A key is permitted if some role of the user gives it, with the widest scope of the roles that do. */
  lemma KeyScopeTold(t: RoleTables, user: ID, rows: seq<KeyGrant>, key: string)
    requires Answers(rows, set g | g in t.keys && g.role in t.scopes && Membership(user, g.role) in t.members)
    ensures KeyScope(t, rows, key).Some? <==> exists r :: Gives(t, user, key, r)
    ensures KeyScope(t, rows, key).Some?
            ==> Widest(t, (set r | r in t.scopes && Gives(t, user, key, r)), KeyScope(t, rows, key).value)
  {
    assert KeysOf(t, user) == set g | g in t.keys && g.role in t.scopes && Membership(user, g.role) in t.members;
    GivesIff(t, user, key);
    hide KeyScope, GrantingRoles, Answers, Widest, IsJoin;
    ScopeIsJoin(t, user, rows, key);
    if r :| Gives(t, user, key, r) {
      assert r in GrantingRoles(t, user, key);
    }
    if KeyScope(t, rows, key).Some? {
      var r :| r in GrantingRoles(t, user, key);
      assert Gives(t, user, key, r);
      JoinIsWidest(t, GrantingRoles(t, user, key), KeyScope(t, rows, key).value);
    }
  }

  /** The overall scope is the widest of all the user's roles. */
  lemma OverallTold(t: RoleTables, user: ID, rows: seq<ID>)
    requires Answers(rows, set r | r in t.scopes && Membership(user, r) in t.members)
    ensures Widest(t, (set r | r in t.scopes && Membership(user, r) in t.members), OverallScope(t, rows))
  {
    assert RolesOf(t, user) == set r | r in t.scopes && Membership(user, r) in t.members;
    hide OverallScope, Answers, Widest, IsJoin;
    OverallIsJoin(t, user, rows);
    JoinIsWidest(t, RolesOf(t, user), OverallScope(t, rows));
  }

  // ---------------------------------------------------------------- stored texts

  /** The scope texts as roles are stored: trimmed, and anything but the three names means `assigned`. */
  predicate FromTexts(t: RoleTables, texts: map<ID, string>) {
    t.scopes == map r | r in texts :: StoredScope(texts[r])
  }

  lemma StoredText(text: string)
    ensures StoredScope(text) == All <==> TrimSpace(text) == "all"
    ensures StoredScope(text) == Own <==> TrimSpace(text) == "own"
    ensures StoredScope(text) == All || StoredScope(text) == Own || StoredScope(text) == Assigned
  {
    hide TrimSpace;
  }

  /** The scope that goes with a text. */
  ghost predicate TextsTell(t: RoleTables, texts: map<ID, string>, user: ID, key: string, scope: Scope) {
    && (scope == All <==> exists r :: r in texts && Gives(t, user, key, r) && TrimSpace(texts[r]) == "all")
    && (scope == Own <==> forall r | r in texts && Gives(t, user, key, r) :: TrimSpace(texts[r]) == "own")
    && !scope.Unknown?
  }

  lemma JoinOfTexts(t: RoleTables, texts: map<ID, string>, user: ID, key: string, scope: Scope)
    requires FromTexts(t, texts) && !scope.Unknown?
    requires IsJoin(t, GrantingRoles(t, user, key), Level(scope))
    ensures TextsTell(t, texts, user, key, scope)
  {
    GivesIff(t, user, key);
    forall r | r in texts
      ensures r in t.scopes && (t.scopes[r] == All <==> TrimSpace(texts[r]) == "all")
      ensures t.scopes[r] == Own <==> TrimSpace(texts[r]) == "own"
      ensures !t.scopes[r].Unknown?
    {
      StoredText(texts[r]);
    }
    hide TrimSpace, StoredScope, GrantingRoles, FromTexts;
  }

  /**
   * From the texts of the stored roles to what a principal reports for a permitted key: `all` if the text of one of the
   * roles giving the key is "all", `own` if all their texts are "own", and else `assigned`.
   */
  lemma ReportedTold(t: RoleTables, texts: map<ID, string>, user: ID, roleRows: seq<ID>, keyRows: seq<KeyGrant>,
                     access: UserAccess, p: Principal, key: string)
    requires FromTexts(t, texts) && Answers(roleRows, RolesOf(t, user)) && Answers(keyRows, KeysOf(t, user))
    requires Resolved(t, keyRows, access.permissions, access.permissionScopes) && MadeFrom(p, access)
    requires p.scope == OverallScope(t, roleRows)
    ensures key in p.permissions <==> exists r :: Gives(t, user, key, r)
    ensures key in p.permissions ==> TextsTell(t, texts, user, key, ScopeOfKey(p, key))
  {
    ScopeForJoinsIff(t, user, roleRows, keyRows, access, p, key);
    StoredScopesRead(t, texts, user, key);
    GivesIff(t, user, key);
    KnownReported(t, texts, user, roleRows, keyRows, access, p, key);
    hide OverallScope, Answers, Resolved, MadeFrom, ScopeOfKey, TextsTell, IsJoin, Misread;
    if r :| Gives(t, user, key, r) {
      assert r in GrantingRoles(t, user, key);
    }
    if key in p.permissions {
      var r :| r in GrantingRoles(t, user, key);
      assert Gives(t, user, key, r);
      JoinOfTexts(t, texts, user, key, ScopeOfKey(p, key));
    }
  }

  lemma KnownReported(t: RoleTables, texts: map<ID, string>, user: ID, roleRows: seq<ID>, keyRows: seq<KeyGrant>,
                      access: UserAccess, p: Principal, key: string)
    requires FromTexts(t, texts) && Answers(roleRows, RolesOf(t, user)) && Answers(keyRows, KeysOf(t, user))
    requires Resolved(t, keyRows, access.permissions, access.permissionScopes) && MadeFrom(p, access)
    requires p.scope == OverallScope(t, roleRows)
    ensures key in p.permissions ==> !ScopeOfKey(p, key).Unknown?
  {
    if key in p.permissions {
      OverallKnown(t, roleRows);
      CarriedScope(access, p, key);
      forall r | r in t.scopes ensures Known(t.scopes[r]) {
        StoredText(texts[r]);
      }
      KeyScopeJoins(t, keyRows, key);
      KnownStays(access.permissionScopes[key]);
    }
  }
}
