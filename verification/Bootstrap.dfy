/** Seeding permissions, system roles and the administrator at every start. */
module Bootstrap {
  import opened Base
  import opened Scopes
  import opened Text

  /** A permission key. */
  datatype Key = Key(text: string)

  datatype RoleID = Admin | Operator | Auditor | Viewer | Custom(id: ID)

  datatype Role = Role(name: string, scope: Scope, system: bool)

  datatype User = User(username: string, builtin: bool, hash: string)

  datatype RoleGrant = RoleGrant(role: RoleID, key: Key)

  datatype UserRole = UserRole(user: ID, role: RoleID)

  /** The permissions with their descriptions, as the application knows them. */
  type Catalogue = map<Key, string>

  const BLANK := Key("")
  const ADMIN_USER := ID("admin")
  const AUDIT_READ := Key("audit:read")

  /** The system roles in the order they are written, with their stored names. */
  const SYSTEM_ROLES: seq<(RoleID, Role)> := [
    (Admin, Role("管理员", All, true)),
    (Operator, Role("操作员", Assigned, true)),
    (Auditor, Role("审计员", All, true)),
    (Viewer, Role("只读用户", Assigned, true))]

  // ---------------------------------------------------------------- specification

  function Trimmed(key: Key): Key {
    Key(TrimSpace(key.text))
  }

  predicate HasSuffix(s: string, suffix: string) {
    |suffix| <= |s| && s[|s| - |suffix|..] == suffix
  }

  /** Keys that only the administrator gets. */
  predicate Reserved(key: Key) {
    || "rbac:" <= key.text || "config:" <= key.text || "audit:" <= key.text
    || key.text in ["mcp:write", "mcp:external:execute",
                    "roles:write", "roles:delete", "skills:write", "skills:delete", "agents:write", "agents:delete",
                    "knowledge:write", "knowledge:delete", "workflow:write", "workflow:delete", "robot:write"]
  }

  /** The roles besides the administrator that get a key. */
  function Audience(key: Key): set<RoleID> {
    if key.text == "auth:self" then {Operator, Auditor, Viewer}
    else if key.text == "audit:read" then {Auditor}
    else if Reserved(key) then {}
    else if HasSuffix(key.text, ":read") then {Operator, Auditor, Viewer}
    else {Operator}
  }

  predicate IsSystem(role: RoleID) {
    !role.Custom?
  }

  /** What the grants of the system roles come to. */
  function SystemGrants(keys: set<Key>): set<RoleGrant> {
    (set key | key in keys :: RoleGrant(Admin, key))
    + (set key, role | key in keys && role in Audience(key) :: RoleGrant(role, key))
  }

  /** Custom roles keep their grants of known keys; those of system roles are made anew. */
  function FinalGrants(before: set<RoleGrant>, keys: set<Key>): set<RoleGrant> {
    (set g | g in before && !IsSystem(g.role) && g.key in keys) + SystemGrants(keys)
  }

  predicate NameTaken(roles: map<RoleID, Role>, role: RoleID, name: string) {
    exists other :: other in roles && other != role && roles[other].name == name
  }

  /** Writes roles one after the other; the database refuses a name that another role has. */
  function SeedRoles(roles: map<RoleID, Role>, rows: seq<(RoleID, Role)>): Option<map<RoleID, Role>> {
    if rows == [] then Some(roles)
    else
      var before, row := SeedRoles(roles, rows[..|rows| - 1]), rows[|rows| - 1];
      if before.None? || NameTaken(before.value, row.0, row.1.name) then None
      else Some(before.value[row.0 := row.1])
  }

  predicate CleanKey(key: Key) {
    key != BLANK && Trimmed(key) == key
  }

  /** A key is written trimmed, and a grant needs the key as the catalogue spells it. */
  predicate Grantable(permissions: map<Key, string>, catalogue: Catalogue) {
    forall key | key in catalogue :: key in permissions || CleanKey(key)
  }

  predicate AdminKnown(users: map<ID, User>, hash: string) {
    users != map[] || TrimSpace(hash) != ""
  }

  function SeedUsers(users: map<ID, User>, hash: string): map<ID, User> {
    if users == map[] then map[ADMIN_USER := User("admin", true, hash)]
    else if TrimSpace(hash) == "" then users
    else map id | id in users ::
           if users[id].username == "admin" && users[id].builtin && users[id].hash == "" then users[id].(hash := hash)
           else users[id]
  }

  function SeedUserRoles(users: map<ID, User>, userRoles: set<UserRole>): set<UserRole> {
    if users == map[] then userRoles + {UserRole(ADMIN_USER, Admin)} else userRoles
  }

  // ---------------------------------------------------------------- main results

  /** Whatever is in the catalogue, the viewer's keys are the operator's, and the operator's are the administrator's. */
  lemma RolesNested(keys: set<Key>, key: Key)
    ensures RoleGrant(Viewer, key) in SystemGrants(keys) ==> RoleGrant(Operator, key) in SystemGrants(keys)
    ensures RoleGrant(Operator, key) in SystemGrants(keys) ==> RoleGrant(Admin, key) in SystemGrants(keys)
    ensures RoleGrant(Admin, key) in SystemGrants(keys) <==> key in keys
  {
    hide Reserved, HasSuffix;
  }

  /** The auditor has the viewer's keys, and reading the audit log if that is in the catalogue. */
  lemma AuditorIsViewerPlus(keys: set<Key>, key: Key)
    ensures RoleGrant(Auditor, key) in SystemGrants(keys)
            <==> RoleGrant(Viewer, key) in SystemGrants(keys) || (key == AUDIT_READ && key in keys)
  {
    hide Reserved, HasSuffix;
  }

  /** Grants of the system roles depend on the catalogue alone, and no role keeps an unknown key. */
  lemma GrantsDetermined(before: set<RoleGrant>, other: set<RoleGrant>, keys: set<Key>, g: RoleGrant)
    ensures IsSystem(g.role) ==> (g in FinalGrants(before, keys) <==> g in FinalGrants(other, keys))
    ensures g in FinalGrants(before, keys) ==> g.key in keys
    ensures !IsSystem(g.role) ==> (g in FinalGrants(before, keys) <==> g in before && g.key in keys)
  {
    hide Reserved, HasSuffix;
  }

  // ---------------------------------------------------------------- who gets what, key by key

  predicate StartsWith(s: string, prefix: string) {
    |prefix| <= |s| && s[..|prefix|] == prefix
  }

  predicate EndsWith(s: string, suffix: string) {
    |suffix| <= |s| && s[|s| - |suffix|..] == suffix
  }

  /** Access control, configuration and the audit log. */
  predicate Administrative(key: string) {
    StartsWith(key, "rbac:") || StartsWith(key, "config:") || StartsWith(key, "audit:")
  }

  /** The viewer reads, but nothing administrative. */
  predicate ViewerKey(key: string) {
    key == "auth:self" || (EndsWith(key, ":read") && !Administrative(key))
  }

  /**
   * The operator does everything but what is administrative, external tools, and the changing of shared definitions.
   */
  predicate OperatorKey(key: string) {
    && !Administrative(key)
    && key != "mcp:write" && key != "mcp:external:execute" && key != "roles:write" && key != "roles:delete"
    && key != "skills:write" && key != "skills:delete" && key != "agents:write" && key != "agents:delete"
    && key != "knowledge:write" && key != "knowledge:delete" && key != "workflow:write" && key != "workflow:delete"
    && key != "robot:write"
  }

  /** Which grants there are, role by role. */
  ghost predicate GrantsTold(before: set<RoleGrant>, keys: set<Key>, after: set<RoleGrant>) {
    forall key: Key ::
      && (RoleGrant(Admin, key) in after <==> key in keys)
      && (RoleGrant(Operator, key) in after <==> key in keys && OperatorKey(key.text))
      && (RoleGrant(Auditor, key) in after <==> key in keys && (ViewerKey(key.text) || key.text == "audit:read"))
      && (RoleGrant(Viewer, key) in after <==> key in keys && ViewerKey(key.text))
      && forall id :: RoleGrant(Custom(id), key) in after <==> RoleGrant(Custom(id), key) in before && key in keys
  }

  lemma PrefixStarts(s: string, prefix: string)
    ensures prefix <= s <==> StartsWith(s, prefix)
  {
  }

  lemma ReservedTold(key: Key)
    ensures Reserved(key) <==> !OperatorKey(key.text)
  {
    PrefixStarts(key.text, "rbac:");
    PrefixStarts(key.text, "config:");
    PrefixStarts(key.text, "audit:");
  }

  /** Changing keys are no reading keys. */
  lemma ChangesNoRead(key: string)
    requires !OperatorKey(key) && !Administrative(key)
    ensures !EndsWith(key, ":read")
  {
    hide EndsWith, Administrative;
    if EndsWith(key, ":read") {
      ReadEnds(key);
    }
  }

  lemma ReadEnds(key: string)
    requires EndsWith(key, ":read")
    ensures |key| >= 2 && key[|key| - 1] == 'd' && key[|key| - 2] == 'a'
  {
    assert key[|key| - 5..][4] == key[|key| - 1] && key[|key| - 5..][3] == key[|key| - 2];
  }

  lemma SelfIsPlain()
    ensures !Administrative("auth:self") && OperatorKey("auth:self") && Administrative("audit:read")
  {
    assert "auth:self"[0] != "rbac:"[0] && "auth:self"[0] != "config:"[0] && "auth:self"[2] != "audit:"[2];
    assert "audit:read"[..6] == "audit:";
    assert |"auth:self"| == 9;
  }

  lemma AudienceTold(key: Key)
    ensures Operator in Audience(key) <==> OperatorKey(key.text)
    ensures Auditor in Audience(key) <==> ViewerKey(key.text) || key.text == "audit:read"
    ensures Viewer in Audience(key) <==> ViewerKey(key.text)
    ensures Admin !in Audience(key) && forall id :: Custom(id) !in Audience(key)
  {
    ReservedTold(key);
    SelfIsPlain();
    if !OperatorKey(key.text) && !Administrative(key.text) {
      ChangesNoRead(key.text);
    }
    hide Administrative, Reserved, EndsWith;
    SuffixEnds(key.text);
  }

  lemma SuffixEnds(s: string)
    ensures HasSuffix(s, ":read") <==> EndsWith(s, ":read")
  {
  }

  lemma FinalGrantsTold(before: set<RoleGrant>, keys: set<Key>)
    ensures GrantsTold(before, keys, FinalGrants(before, keys))
  {
    hide OperatorKey, ViewerKey, Audience;
    forall key: Key {
      AudienceTold(key);
    }
  }

  /** The four system roles have their names and scopes, and all other roles are as before. */
  ghost predicate RolesTold(before: map<RoleID, Role>, after: map<RoleID, Role>) {
    && after.Keys == before.Keys + {Admin, Operator, Auditor, Viewer}
    && after[Admin] == Role("管理员", All, true) && after[Operator] == Role("操作员", Assigned, true)
    && after[Auditor] == Role("审计员", All, true) && after[Viewer] == Role("只读用户", Assigned, true)
    && forall id | Custom(id) in before :: after[Custom(id)] == before[Custom(id)]
  }

  lemma OverlaidTold(before: map<RoleID, Role>, after: map<RoleID, Role>)
    requires Overlaid(before, SYSTEM_ROLES, after)
    ensures RolesTold(before, after)
  {
    var rows := SYSTEM_ROLES;
    assert rows[0].0 == Admin && rows[1].0 == Operator && rows[2].0 == Auditor && rows[3].0 == Viewer;
    assert RowIDs(rows) == {Admin, Operator, Auditor, Viewer};
  }

  /** Without users the administrator is made; a builtin administrator without a password gets one that is not blank. */
  predicate UsersTold(before: map<ID, User>, hash: string, after: map<ID, User>) {
    if before == map[] then after == map[ID("admin") := User("admin", true, hash)]
    else
      && after.Keys == before.Keys
      && forall id | id in before ::
           after[id] == if before[id] == User("admin", true, "") && TrimSpace(hash) != "" then User("admin", true, hash)
                        else before[id]
  }

  /** The administrator made then has the administrator's role; nobody else gets a role. */
  predicate UserRolesTold(users: map<ID, User>, before: set<UserRole>, after: set<UserRole>) {
    after == before + if users == map[] then {UserRole(ID("admin"), Admin)} else {}
  }

  lemma SeededTold(users: map<ID, User>, hash: string, userRoles: set<UserRole>)
    ensures UsersTold(users, hash, SeedUsers(users, hash))
    ensures UserRolesTold(users, userRoles, SeedUserRoles(users, userRoles))
  {
    hide TrimSpace;
  }

  /** Making the grants a second time changes nothing. */
  lemma GrantsTwice(before: set<RoleGrant>, keys: set<Key>)
    ensures FinalGrants(FinalGrants(before, keys), keys) == FinalGrants(before, keys)
  {
    forall g ensures g in FinalGrants(FinalGrants(before, keys), keys) <==> g in FinalGrants(before, keys) {
      GrantsDetermined(before, FinalGrants(before, keys), keys, g);
      GrantsDetermined(FinalGrants(before, keys), before, keys, g);
    }
  }

  predicate DistinctRows(rows: seq<(RoleID, Role)>) {
    forall i, j | 0 <= i < j < |rows| :: rows[i].0 != rows[j].0 && rows[i].1.name != rows[j].1.name
  }

  /** Once written, each row is there and no other role has its name. */
  ghost predicate RowsWritten(roles: map<RoleID, Role>, rows: seq<(RoleID, Role)>) {
    forall i | 0 <= i < |rows| ::
      && rows[i].0 in roles && roles[rows[i].0] == rows[i].1
      && !NameTaken(roles, rows[i].0, rows[i].1.name)
  }

  lemma {:induction false} SeedWrites(roles: map<RoleID, Role>, rows: seq<(RoleID, Role)>)
    requires DistinctRows(rows) && SeedRoles(roles, rows).Some?
    ensures RowsWritten(SeedRoles(roles, rows).value, rows)
  {
    if rows != [] {
      var n := |rows| - 1;
      SeedWrites(roles, rows[..n]);
      var before := SeedRoles(roles, rows[..n]).value;
      var after := before[rows[n].0 := rows[n].1];
      forall i | 0 <= i < |rows|
        ensures rows[i].0 in after && after[rows[i].0] == rows[i].1 && !NameTaken(after, rows[i].0, rows[i].1.name)
      {
        if i < n {
          assert rows[..n][i] == rows[i];
          assert rows[i].0 != rows[n].0 && rows[i].1.name != rows[n].1.name;
        }
      }
    }
  }

  lemma {:induction false} SeedIdle(roles: map<RoleID, Role>, rows: seq<(RoleID, Role)>)
    requires RowsWritten(roles, rows)
    ensures SeedRoles(roles, rows) == Some(roles)
  {
    if rows != [] {
      var n := |rows| - 1;
      assert forall i | 0 <= i < n :: rows[..n][i] == rows[i];
      SeedIdle(roles, rows[..n]);
      assert roles[rows[n].0 := rows[n].1] == roles;
    }
  }

  function RowIDs(rows: seq<(RoleID, Role)>): set<RoleID> {
    set i | 0 <= i < |rows| :: rows[i].0
  }

  /** The table has the rows, and every other role as it was. */
  ghost predicate Overlaid(roles: map<RoleID, Role>, rows: seq<(RoleID, Role)>, after: map<RoleID, Role>) {
    && after.Keys == roles.Keys + RowIDs(rows)
    && (forall i | 0 <= i < |rows| :: rows[i].0 in after && after[rows[i].0] == rows[i].1)
    && (forall id | id in roles && id !in RowIDs(rows) :: after[id] == roles[id])
  }

  /** A role that is neither the row's own nor rewritten before it has the name of the row. */
  predicate NameHeld(roles: map<RoleID, Role>, rows: seq<(RoleID, Role)>, i: nat)
    requires i < |rows|
  {
    exists id :: id in roles && id != rows[i].0 && id !in RowIDs(rows[..i]) && roles[id].name == rows[i].1.name
  }

  predicate NamesFree(roles: map<RoleID, Role>, rows: seq<(RoleID, Role)>) {
    forall i | 0 <= i < |rows| :: !NameHeld(roles, rows, i)
  }

  lemma RowIDsAppend(rows: seq<(RoleID, Role)>)
    requires rows != []
    ensures RowIDs(rows) == RowIDs(rows[..|rows| - 1]) + {rows[|rows| - 1].0}
  {
  }

  lemma OverlaidStep(roles: map<RoleID, Role>, rows: seq<(RoleID, Role)>, before: map<RoleID, Role>)
    requires DistinctRows(rows) && rows != [] && Overlaid(roles, rows[..|rows| - 1], before)
    ensures Overlaid(roles, rows, before[rows[|rows| - 1].0 := rows[|rows| - 1].1])
  {
    var n := |rows| - 1;
    var (id, role) := rows[n];
    var after := before[id := role];
    RowIDsAppend(rows);
    hide RowIDs;
    assert after.Keys == roles.Keys + RowIDs(rows);
    forall i | 0 <= i < n ensures rows[i].0 in after && after[rows[i].0] == rows[i].1 {
      assert rows[..n][i] == rows[i] && rows[i].0 != id;
    }
  }

  lemma TakenIsHeld(roles: map<RoleID, Role>, rows: seq<(RoleID, Role)>, before: map<RoleID, Role>)
    requires DistinctRows(rows) && rows != [] && Overlaid(roles, rows[..|rows| - 1], before)
    ensures NameTaken(before, rows[|rows| - 1].0, rows[|rows| - 1].1.name) <==> NameHeld(roles, rows, |rows| - 1)
  {
    var n := |rows| - 1;
    var name := rows[n].1.name;
    forall id | id in RowIDs(rows[..n]) ensures id in before && before[id].name != name {
      var i :| 0 <= i < n && rows[i].0 == id;
      assert rows[i].1.name != rows[n].1.name;
    }
    if other :| other in before && other != rows[n].0 && before[other].name == name {
      assert other in roles && roles[other].name == name;
    }
    if id :| id in roles && id != rows[n].0 && id !in RowIDs(rows[..n]) && roles[id].name == name {
      assert before[id].name == name;
    }
  }

  /**
   * The rows can be written exactly if, for each of them, no role has its name but the row's own role and roles that
   * are renamed before it; and then they are overlaid on the table.
   */
  lemma {:induction false} SeedRolesIff(roles: map<RoleID, Role>, rows: seq<(RoleID, Role)>)
    requires DistinctRows(rows)
    ensures SeedRoles(roles, rows).Some? <==> NamesFree(roles, rows)
    ensures SeedRoles(roles, rows).Some? ==> Overlaid(roles, rows, SeedRoles(roles, rows).value)
  {
    if rows != [] {
      var n := |rows| - 1;
      SeedRolesIff(roles, rows[..n]);
      NamesFreeAppend(roles, rows);
      hide Overlaid, NameHeld, NamesFree, NameTaken;
      if SeedRoles(roles, rows[..n]).Some? {
        OverlaidStep(roles, rows, SeedRoles(roles, rows[..n]).value);
        TakenIsHeld(roles, rows, SeedRoles(roles, rows[..n]).value);
      }
    }
  }

  lemma NamesFreeAppend(roles: map<RoleID, Role>, rows: seq<(RoleID, Role)>)
    requires rows != []
    ensures NamesFree(roles, rows) <==> NamesFree(roles, rows[..|rows| - 1]) && !NameHeld(roles, rows, |rows| - 1)
  {
    var n := |rows| - 1;
    forall i | 0 <= i < n ensures NameHeld(roles, rows[..n], i) <==> NameHeld(roles, rows, i) {
      assert rows[..n][..i] == rows[..i];
    }
  }

  /** A system role may have another one's name, if it is the earlier of the two to be renamed. */
  lemma RenamedFirst()
    ensures var roles := map[Admin := Role("操作员", All, true)];
            NameTaken(roles, Operator, "操作员") && NamesFree(roles, SYSTEM_ROLES)
  {
    var roles := map[Admin := Role("操作员", All, true)];
    SystemNamesDistinct();
    assert roles[Admin].name != "管理员" by {
      assert "管理员"[0] != "操作员"[0];
    }
    forall i | 0 <= i < |SYSTEM_ROLES| ensures !NameHeld(roles, SYSTEM_ROLES, i) {
      if i > 0 {
        assert SYSTEM_ROLES[..i][0].0 == Admin;
      }
    }
  }

  /** Starting a second time with the same catalogue and password goes through and changes nothing. */
  lemma BootstrapTwice(roles: map<RoleID, Role>, users: map<ID, User>, userRoles: set<UserRole>, grants: set<RoleGrant>,
                       permissions: map<Key, string>, once: map<Key, string>, twice: map<Key, string>,
                       hash: string, catalogue: Catalogue)
    requires NamesFree(roles, SYSTEM_ROLES) && AdminKnown(users, hash)
    requires once.Keys == catalogue.Keys && Described(permissions, catalogue, catalogue.Keys, once)
    requires twice.Keys == catalogue.Keys && Described(once, catalogue, catalogue.Keys, twice)
    ensures SeedRoles(roles, SYSTEM_ROLES).Some?
    ensures var seeded := SeedRoles(roles, SYSTEM_ROLES).value;
            NamesFree(seeded, SYSTEM_ROLES) && SeedRoles(seeded, SYSTEM_ROLES) == Some(seeded)
    ensures AdminKnown(SeedUsers(users, hash), hash)
    ensures SeedUsers(SeedUsers(users, hash), hash) == SeedUsers(users, hash)
    ensures SeedUserRoles(SeedUsers(users, hash), SeedUserRoles(users, userRoles)) == SeedUserRoles(users, userRoles)
    ensures FinalGrants(FinalGrants(grants, catalogue.Keys), catalogue.Keys) == FinalGrants(grants, catalogue.Keys)
    ensures Grantable(once, catalogue)
    ensures Unambiguous(catalogue) ==> twice == once
  {
    hide TrimSpace, SeedRoles, FinalGrants, NamesFree, Overlaid, Described;
    if Unambiguous(catalogue) {
      DescriptionsStay(permissions, catalogue, once, twice);
    }
    SystemNamesDistinct();
    SeedRolesIff(roles, SYSTEM_ROLES);
    SeedRolesIff(SeedRoles(roles, SYSTEM_ROLES).value, SYSTEM_ROLES);
    SeedWrites(roles, SYSTEM_ROLES);
    SeedIdle(SeedRoles(roles, SYSTEM_ROLES).value, SYSTEM_ROLES);
    GrantsTwice(grants, catalogue.Keys);
    UsersStay(users, hash);
  }

  lemma SystemNamesDistinct()
    ensures DistinctRows(SYSTEM_ROLES)
  {
    assert "管理员"[0] != "操作员"[0] && "管理员"[0] != "审计员"[0] && "操作员"[0] != "审计员"[0];
    assert |"只读用户"| == 4 && |"管理员"| == 3 && |"操作员"| == 3 && |"审计员"| == 3;
  }

  lemma UsersStay(users: map<ID, User>, hash: string)
    requires AdminKnown(users, hash)
    ensures SeedUsers(users, hash) != map[]
    ensures SeedUsers(SeedUsers(users, hash), hash) == SeedUsers(users, hash)
  {
    hide TrimSpace;
    if users == map[] {
      assert ADMIN_USER in SeedUsers(users, hash);
    } else {
      var id :| id in users;
      assert id in SeedUsers(users, hash);
    }
    if TrimSpace(hash) != "" {
      assert hash != "" by {
        BlankTrims();
      }
    }
  }

  /** The key has a description that the catalogue gives for it, or the one it had if the catalogue gives none. */
  predicate DescribedKey(before: map<Key, string>, catalogue: Catalogue, written: set<Key>, key: Key, text: string)
    requires written <= catalogue.Keys
  {
    || (key != BLANK && exists raw :: raw in written && Trimmed(raw) == key && text == catalogue[raw])
    || (key in before && text == before[key] && (key == BLANK || forall raw | raw in written :: Trimmed(raw) != key))
  }

  predicate Described(before: map<Key, string>, catalogue: Catalogue, written: set<Key>, after: map<Key, string>)
    requires written <= catalogue.Keys
  {
    forall key | key in after :: DescribedKey(before, catalogue, written, key, after[key])
  }

  /** Keys of the catalogue that are the same but for white space have the same description. */
  predicate Unambiguous(catalogue: Catalogue) {
    forall a, b | a in catalogue && b in catalogue && Trimmed(a) == Trimmed(b) != BLANK :: catalogue[a] == catalogue[b]
  }

  lemma DescriptionsStay(permissions: map<Key, string>, catalogue: Catalogue, once: map<Key, string>,
                         twice: map<Key, string>)
    requires once.Keys == catalogue.Keys && Described(permissions, catalogue, catalogue.Keys, once)
    requires twice.Keys == catalogue.Keys && Described(once, catalogue, catalogue.Keys, twice)
    requires Unambiguous(catalogue)
    ensures twice == once
  {
    hide Trimmed;
    forall key | key in twice ensures twice[key] == once[key] {
      assert DescribedKey(permissions, catalogue, catalogue.Keys, key, once[key]);
      assert DescribedKey(once, catalogue, catalogue.Keys, key, twice[key]);
    }
  }

  lemma CleanIsUnambiguous(catalogue: Catalogue)
    requires Clean(catalogue)
    ensures Unambiguous(catalogue)
  {
    hide Trimmed;
  }

  lemma NothingWritten(before: map<Key, string>, catalogue: Catalogue)
    ensures Described(before, catalogue, catalogue.Keys - catalogue.Keys, before)
  {
  }

  lemma CleanWritten(catalogue: Catalogue)
    requires Clean(catalogue)
    ensures Written(catalogue.Keys) == catalogue.Keys
  {
    hide Trimmed;
    forall key | key in catalogue ensures key in Written(catalogue.Keys) {
      assert CleanKey(key);
    }
  }

  lemma CleanDescriptions(before: map<Key, string>, catalogue: Catalogue, after: map<Key, string>)
    requires Clean(catalogue) && Described(before, catalogue, catalogue.Keys, after)
    ensures forall key | key in catalogue && key in after :: after[key] == catalogue[key]
  {
    hide Trimmed;
    forall key | key in catalogue && key in after ensures after[key] == catalogue[key] {
      assert DescribedKey(before, catalogue, catalogue.Keys, key, after[key]);
      assert CleanKey(key);
    }
  }

  // ---------------------------------------------------------------- the operation

  /** The keys written for some catalogue keys. */
  function Written(keys: set<Key>): set<Key> {
    set key | key in keys && Trimmed(key) != BLANK :: Trimmed(key)
  }

  /** No key of the catalogue is blank or has white space around it. */
  predicate Clean(catalogue: Catalogue) {
    forall key | key in catalogue :: CleanKey(key)
  }

  lemma TrimmedIsClean(key: Key)
    ensures Trimmed(Trimmed(key)) == Trimmed(key)
  {
    TrimTwice(key.text);
  }

  /** After keys outside the catalogue are gone, the table has the whole catalogue exactly if all of it is grantable. */
  lemma KnownKeys(permissions: map<Key, string>, catalogue: Catalogue)
    ensures var known := (permissions.Keys + Written(catalogue.Keys)) * catalogue.Keys;
            known == catalogue.Keys <==> Grantable(permissions, catalogue)
  {
    var known := (permissions.Keys + Written(catalogue.Keys)) * catalogue.Keys;
    forall key | key in catalogue ensures key in known <==> key in permissions || CleanKey(key) {
      if key in Written(catalogue.Keys) {
        var raw :| raw in catalogue && Trimmed(raw) == key;
        TrimmedIsClean(raw);
      }
    }
    if known == catalogue.Keys {
      assert forall key | key in catalogue :: key in known;
    }
  }

  class RbacStore {
    var permissions: map<Key, string>
    var roles: map<RoleID, Role>
    var grants: set<RoleGrant>
    var users: map<ID, User>
    var userRoles: set<UserRole>

    /** Every grant is of a stored permission. */
    ghost predicate Valid()
      reads this
    {
      forall g | g in grants :: g.key in permissions
    }

    /** The permission table with the catalogue written into it, walked in any order. */
    method WritePermissions(catalogue: Catalogue) returns (table: map<Key, string>)
      ensures table.Keys == permissions.Keys + Written(catalogue.Keys)
      ensures Described(permissions, catalogue, catalogue.Keys, table)
      ensures Clean(catalogue) ==> forall key | key in catalogue :: key in table && table[key] == catalogue[key]
    {
      hide Trimmed, Clean, DescribedKey;
      table := permissions;
      var todo := catalogue.Keys;
      NothingWritten(permissions, catalogue);
      while todo != {}
        invariant todo <= catalogue.Keys
        invariant table.Keys == permissions.Keys + Written(catalogue.Keys - todo)
        invariant Described(permissions, catalogue, catalogue.Keys - todo, table)
      {
        var raw :| raw in todo;
        var rest := todo - {raw};
        var key := Trimmed(raw);
        assert catalogue.Keys - rest == (catalogue.Keys - todo) + {raw};
        WriteOneMore(permissions, catalogue, catalogue.Keys - todo, table, raw);
        todo := rest;
        if key == BLANK {
          continue;
        }
        table := table[key := catalogue[raw]];
      }
      assert catalogue.Keys - {} == catalogue.Keys;
      if Clean(catalogue) {
        CleanDescriptions(permissions, catalogue, table);
        CleanWritten(catalogue);
      }
    }

    /** The permission table and the grants without the keys that are not in the catalogue any more. */
    method WriteKnownPermissions(catalogue: Catalogue) returns (table: map<Key, string>, left: set<RoleGrant>)
      requires Valid()
      ensures table.Keys <= catalogue.Keys
      ensures table.Keys == catalogue.Keys <==> Grantable(permissions, catalogue)
      ensures table.Keys == catalogue.Keys && Clean(catalogue) ==> table == catalogue
      ensures Described(permissions, catalogue, catalogue.Keys, table)
      ensures left == set g | g in grants && g.key in catalogue.Keys
    {
      hide Grantable, Written, CleanKey, DescribedKey, Clean;
      KnownKeys(permissions, catalogue);
      table := WritePermissions(catalogue);
      var stale := table.Keys - catalogue.Keys;
      left := set g | g in grants && g.key !in stale;
      table := table - stale;
      assert table.Keys == (permissions.Keys + Written(catalogue.Keys)) * catalogue.Keys;
    }

    method WriteRoles() returns (table: Option<map<RoleID, Role>>)
      ensures table.Some? <==> NamesFree(roles, SYSTEM_ROLES)
      ensures table.Some? ==> Overlaid(roles, SYSTEM_ROLES, table.value)
    {
      SystemNamesDistinct();
      table := WriteRoleList(SYSTEM_ROLES);
    }

    method WriteRoleList(rows: seq<(RoleID, Role)>) returns (table: Option<map<RoleID, Role>>)
      requires DistinctRows(rows)
      ensures table.Some? <==> NamesFree(roles, rows)
      ensures table.Some? ==> Overlaid(roles, rows, table.value)
    {
      SeedRolesIff(roles, rows);
      hide NamesFree, Overlaid;
      var written := roles;
      for n := 0 to |rows|
        invariant SeedRoles(roles, rows[..n]) == Some(written)
      {
        assert rows[..n + 1][..n] == rows[..n] && rows[..n + 1][n] == rows[n];
        hide NameTaken;
        if NameTaken(written, rows[n].0, rows[n].1.name) {
          NoRolesAfter(roles, rows, n + 1);
          return None;
        }
        written := written[rows[n].0 := rows[n].1];
      }
      assert rows[..|rows|] == rows;
      table := Some(written);
    }

    method GrantKey(before: set<RoleGrant>, key: Key) returns (made: set<RoleGrant>)
      ensures made == before + {RoleGrant(Admin, key)} + (set role | role in Audience(key) :: RoleGrant(role, key))
    {
      hide Reserved, HasSuffix;
      made := before + {RoleGrant(Admin, key)};
      if key.text == "auth:self" {
        made := made + {RoleGrant(Operator, key), RoleGrant(Auditor, key), RoleGrant(Viewer, key)};
      } else if key.text == "audit:read" {
        made := made + {RoleGrant(Auditor, key)};
      } else if !Reserved(key) {
        if HasSuffix(key.text, ":read") {
          made := made + {RoleGrant(Operator, key), RoleGrant(Auditor, key), RoleGrant(Viewer, key)};
        } else {
          made := made + {RoleGrant(Operator, key)};
        }
      }
    }

    /** The grants with those of the system roles made anew; None if a key is not stored. */
    method GrantSystemRolePermissions(known: set<Key>, before: set<RoleGrant>, keys: set<Key>)
      returns (after: Option<set<RoleGrant>>)
      ensures after.Some? <==> keys <= known
      ensures after.Some? ==> after.value == (set g | g in before && !IsSystem(g.role)) + SystemGrants(keys)
    {
      hide SystemGrants, Audience, IsSystem;
      var made := set g | g in before && !IsSystem(g.role);
      NoSystemGrants();
      assert keys - keys == {};
      ghost var kept := made;
      var todo := keys;
      while todo != {}
        invariant todo <= keys && keys - todo <= known
        invariant made == kept + SystemGrants(keys - todo)
      {
        var key :| key in todo;
        if key !in known {
          return None;
        }
        var rest := todo - {key};
        assert keys - rest == (keys - todo) + {key};
        SystemGrantsOneMore(keys - todo, key);
        made := GrantKey(made, key);
        todo := rest;
      }
      assert keys - {} == keys;
      after := Some(made);
    }

    /**
     * Seeds everything or nothing. It runs through exactly if no role holds the name of a system role when that is
     * written, there are users or a password for the first one, and every catalogue key can be granted.
     */
    method BootstrapRBAC(hash: string, catalogue: Catalogue) returns (ok: bool)
      requires Valid()
      modifies this
      ensures Valid()
      ensures ok <==> && NamesFree(old(roles), SYSTEM_ROLES) && AdminKnown(old(users), hash)
                      && Grantable(old(permissions), catalogue)
      ensures ok ==> && permissions.Keys == catalogue.Keys && (Clean(catalogue) ==> permissions == catalogue)
                     && Described(old(permissions), catalogue, catalogue.Keys, permissions)
                     && Overlaid(old(roles), SYSTEM_ROLES, roles)
                     && grants == FinalGrants(old(grants), catalogue.Keys)
                     && users == SeedUsers(old(users), hash) && userRoles == SeedUserRoles(old(users), old(userRoles))
      ensures ok ==> && GrantsTold(old(grants), catalogue.Keys, grants) && RolesTold(old(roles), roles)
                     && UsersTold(old(users), hash, users) && UserRolesTold(old(users), old(userRoles), userRoles)
      ensures !ok ==> && permissions == old(permissions) && roles == old(roles) && grants == old(grants)
                      && users == old(users) && userRoles == old(userRoles)
    {
      hide NamesFree, Overlaid, SystemGrants, Grantable, Written, Clean, CleanKey, FinalGrants, IsSystem, SeedUsers,
        SeedUserRoles, TrimSpace, Described, GrantsTold, RolesTold, UsersTold, UserRolesTold;
      KnownGrants(grants, catalogue.Keys);
      var table, grantsLeft := WriteKnownPermissions(catalogue);
      var newRoles := WriteRoles();
      if newRoles.None? {
        return false;
      }
      if users == map[] && TrimSpace(hash) == "" {
        return false;
      }
      var newGrants := GrantSystemRolePermissions(table.Keys, grantsLeft, catalogue.Keys);
      if newGrants.None? {
        return false;
      }
      OverlaidTold(roles, newRoles.value);
      SeededTold(users, hash, userRoles);
      FinalGrantsTold(grants, catalogue.Keys);
      userRoles := SeedUserRoles(users, userRoles);
      users := SeedUsers(users, hash);
      permissions, roles, grants := table, newRoles.value, newGrants.value;
      FinalKnown(old(grants), catalogue.Keys);
      ok := true;
    }
  }

  /** The table with one more key of the catalogue written. */
  lemma WriteOneMore(before: map<Key, string>, catalogue: Catalogue, written: set<Key>, table: map<Key, string>,
                     raw: Key)
    requires written <= catalogue.Keys && raw in catalogue && Described(before, catalogue, written, table)
    ensures var key := Trimmed(raw);
            Described(before, catalogue, written + {raw}, if key == BLANK then table else table[key := catalogue[raw]])
  {
    hide Trimmed;
    var key := Trimmed(raw);
    var after := if key == BLANK then table else table[key := catalogue[raw]];
    forall k | k in after ensures DescribedKey(before, catalogue, written + {raw}, k, after[k]) {
      if k == key != BLANK {
        assert raw in written + {raw};
      } else {
        assert DescribedKey(before, catalogue, written, k, table[k]);
      }
    }
  }

  lemma {:induction false} NoRolesAfter(roles: map<RoleID, Role>, rows: seq<(RoleID, Role)>, n: nat)
    requires n <= |rows| && SeedRoles(roles, rows[..n]).None?
    ensures SeedRoles(roles, rows).None?
  {
    if n == |rows| {
      assert rows[..n] == rows;
    } else {
      assert rows[..|rows| - 1][..n] == rows[..n];
      NoRolesAfter(roles, rows[..|rows| - 1], n);
    }
  }

  lemma FinalKnown(before: set<RoleGrant>, keys: set<Key>)
    ensures forall g | g in FinalGrants(before, keys) :: g.key in keys
  {
    forall g | g in FinalGrants(before, keys) ensures g.key in keys {
      GrantsDetermined(before, before, keys, g);
    }
  }

  lemma NoSystemGrants()
    ensures SystemGrants({}) == {}
  {
  }

  lemma KnownGrants(before: set<RoleGrant>, keys: set<Key>)
    ensures (set g | g in (set h | h in before && h.key in keys) && !IsSystem(g.role)) + SystemGrants(keys)
            == FinalGrants(before, keys)
  {
  }

  lemma SystemGrantsOneMore(keys: set<Key>, key: Key)
    ensures SystemGrants(keys + {key})
            == SystemGrants(keys) + {RoleGrant(Admin, key)} + (set role | role in Audience(key) :: RoleGrant(role, key))
  {
    hide Audience;
  }
}
