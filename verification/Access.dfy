/** Who may see which row: the check of a single row, and the filters that the lists apply. */
module Access {
  import opened Base
  import opened Scopes

  datatype Kind = Project | Conversation | Asset | Vulnerability | BatchTask | OtherKind(name: string)

  /** A row of the assignment table. */
  datatype Grant = Grant(user: ID, kind: Kind, id: ID)

  /** A conversation or an asset: a row that may belong to a project. */
  datatype Member = Member(owner: Option<ID>, projectID: Option<ID>)

  datatype Finding = Finding(owner: Option<ID>, projectID: Option<ID>, conversationID: Option<ID>)

  /** The columns that decide about access. Projects and task queues have nothing but an owner. */
  datatype Tables = Tables(
    projects: map<ID, Option<ID>>,
    conversations: map<ID, Member>,
    assets: map<ID, Member>,
    vulnerabilities: map<ID, Finding>,
    queues: map<ID, Option<ID>>,
    grants: set<Grant>)

  // ---------------------------------------------------------------- the check of a single row

  predicate UserOwnsResource(t: Tables, user: ID, kind: Kind, id: ID) {
    match kind
    case Project => id in t.projects && t.projects[id] == Some(user)
    case Conversation => id in t.conversations && t.conversations[id].owner == Some(user)
    case Vulnerability => id in t.vulnerabilities && t.vulnerabilities[id].owner == Some(user)
    case Asset => id in t.assets && t.assets[id].owner == Some(user)
    case BatchTask => id in t.queues && t.queues[id] == Some(user)
    case OtherKind(_) => false
  }

  /** A parent's kind ranks lower, so the check ends. */
  function Rank(kind: Kind): nat {
    match kind
    case Vulnerability => 2
    case Conversation => 1
    case Asset => 1
    case _ => 0
  }

  /** A user, a kind or a row ID can be blank: no user, the kind with the empty name, no row. */
  predicate UserCanAccessResource(t: Tables, user: Option<ID>, scope: Scope, kind: Kind, id: Option<ID>)
    decreases Rank(kind), 1
  {
    if user.None? || kind == OtherKind("") || id.None? then false
    else if scope == All then true
    else if scope == Own && UserOwnsResource(t, user.value, kind, id.value) then true
    else if Grant(user.value, kind, id.value) in t.grants then true
    else match kind
      case Vulnerability => VulnerabilityViaParent(t, user, scope, id.value)
      case Asset => AssetViaParent(t, user, scope, id.value)
      case Conversation => ConversationViaParent(t, user, scope, id.value)
      case _ => false
  }

  predicate AssetViaParent(t: Tables, user: Option<ID>, scope: Scope, id: ID)
    decreases Rank(Asset), 0
  {
    && id in t.assets
    && t.assets[id].projectID.Some?
    && UserCanAccessResource(t, user, scope, Project, t.assets[id].projectID)
  }

  predicate ConversationViaParent(t: Tables, user: Option<ID>, scope: Scope, id: ID)
    decreases Rank(Conversation), 0
  {
    && id in t.conversations
    && t.conversations[id].projectID.Some?
    && UserCanAccessResource(t, user, scope, Project, t.conversations[id].projectID)
  }

  predicate VulnerabilityViaParent(t: Tables, user: Option<ID>, scope: Scope, id: ID)
    decreases Rank(Vulnerability), 0
  {
    && id in t.vulnerabilities
    && var v := t.vulnerabilities[id];
       || (v.projectID.Some? && UserCanAccessResource(t, user, scope, Project, v.projectID))
       || (v.conversationID.Some? && UserCanAccessResource(t, user, scope, Conversation, v.conversationID))
  }

  // ---------------------------------------------------------------- the filters of the lists

  predicate Unfiltered(user: Option<ID>, scope: Scope) {
    user.None? || scope == All
  }

  predicate ProjectListed(t: Tables, user: Option<ID>, scope: Scope, id: ID) {
    && id in t.projects
    && (|| Unfiltered(user, scope)
        || t.projects[id] == user
        || Grant(user.value, Project, id) in t.grants)
  }

  /** The project of a listed conversation is looked up among the existing projects. */
  predicate ConversationListed(t: Tables, user: Option<ID>, scope: Scope, id: ID) {
    && id in t.conversations
    && (|| Unfiltered(user, scope)
        || t.conversations[id].owner == user
        || Grant(user.value, Conversation, id) in t.grants
        || exists p :: p in t.projects && t.conversations[id].projectID == Some(p)
                       && (t.projects[p] == user || Grant(user.value, Project, p) in t.grants))
  }

  /** For an asset with a project ID an assignment of that ID is enough, whether the project exists or not. */
  predicate AssetListed(t: Tables, user: Option<ID>, scope: Scope, id: ID) {
    id in t.assets && AssetShown(t.projects, t.grants, user, scope, id, t.assets[id])
  }

  predicate AssetShown(projects: map<ID, Option<ID>>, grants: set<Grant>, user: Option<ID>, scope: Scope, id: ID,
                       asset: Member)
  {
    || Unfiltered(user, scope)
    || asset.owner == user
    || Grant(user.value, Asset, id) in grants
    || (&& asset.projectID.Some?
        && var project := asset.projectID.value;
           (project in projects && projects[project] == user) || Grant(user.value, Project, project) in grants)
  }

  predicate VulnerabilityListed(t: Tables, user: Option<ID>, scope: Scope, id: ID) {
    && id in t.vulnerabilities
    && var v := t.vulnerabilities[id];
       || Unfiltered(user, scope)
       || v.owner == user
       || Grant(user.value, Vulnerability, id) in t.grants
       || (v.projectID.Some?
           && ((v.projectID.value in t.projects && t.projects[v.projectID.value] == user)
               || Grant(user.value, Project, v.projectID.value) in t.grants))
       || (v.conversationID.Some?
           && ((v.conversationID.value in t.conversations && t.conversations[v.conversationID.value].owner == user)
               || Grant(user.value, Conversation, v.conversationID.value) in t.grants))
  }

  // ---------------------------------------------------------------- access, told independently

  datatype Ref = Ref(kind: Kind, id: ID)

  /** The rows that a row points to as its parents. */
  function Parents(t: Tables, r: Ref): set<Ref> {
    match r.kind
    case Asset => if r.id in t.assets then ProjectRef(t.assets[r.id].projectID) else {}
    case Conversation => if r.id in t.conversations then ProjectRef(t.conversations[r.id].projectID) else {}
    case Vulnerability =>
      if r.id in t.vulnerabilities then
        var v := t.vulnerabilities[r.id];
        ProjectRef(v.projectID) + (if v.conversationID.Some? then {Ref(Conversation, v.conversationID.value)} else {})
      else {}
    case _ => {}
  }

  function ProjectRef(id: Option<ID>): set<Ref> {
    if id.Some? then {Ref(Project, id.value)} else {}
  }

  /** A chain from `r` to one of its ancestors. */
  ghost predicate Chain(t: Tables, path: seq<Ref>) {
    && path != []
    && forall i | 0 <= i < |path| - 1 :: path[i + 1] in Parents(t, path[i])
  }

  /** The user owns the row, as far as the scope lets ownership count, or it is assigned to the user. */
  predicate Holds(t: Tables, user: ID, scope: Scope, r: Ref) {
    (scope == Own && UserOwnsResource(t, user, r.kind, r.id)) || Grant(user, r.kind, r.id) in t.grants
  }

  ghost predicate HoldsAncestor(t: Tables, user: ID, scope: Scope, r: Ref) {
    exists path :: Chain(t, path) && path[0] == r && Holds(t, user, scope, path[|path| - 1])
  }

  lemma HoldsStep(t: Tables, user: ID, scope: Scope, r: Ref)
    ensures HoldsAncestor(t, user, scope, r)
            <==> Holds(t, user, scope, r) || exists p :: p in Parents(t, r) && HoldsAncestor(t, user, scope, p)
  {
    if HoldsAncestor(t, user, scope, r) {
      var path :| Chain(t, path) && path[0] == r && Holds(t, user, scope, path[|path| - 1]);
      if |path| > 1 {
        var rest := path[1..];
        assert rest[0] in Parents(t, path[0]);
        assert Chain(t, rest) by {
          forall i | 0 <= i < |rest| - 1 ensures rest[i + 1] in Parents(t, rest[i]) {
            assert path[i + 1 + 1] in Parents(t, path[i + 1]);
          }
        }
        assert rest[|rest| - 1] == path[|path| - 1];
        assert HoldsAncestor(t, user, scope, rest[0]);
      }
    }
    if Holds(t, user, scope, r) {
      assert Chain(t, [r]) && [r][0] == r && [r][|[r]| - 1] == r;
    }
    if p :| p in Parents(t, r) && HoldsAncestor(t, user, scope, p) {
      var path :| Chain(t, path) && path[0] == p && Holds(t, user, scope, path[|path| - 1]);
      var long := [r] + path;
      forall i | 0 <= i < |long| - 1 ensures long[i + 1] in Parents(t, long[i]) {
        assert i > 0 ==> path[i - 1 + 1] in Parents(t, path[i - 1]);
      }
      assert Chain(t, long) && long[0] == r && long[|long| - 1] == path[|path| - 1];
    }
  }

  /**
   * A user may see a row exactly when the user holds the row or, over any chain of parents, one of its ancestors.
   * Only the scope `own` makes ownership count; every scope but `own` and `all` counts assignments alone.
   */
  lemma {:induction false} AccessIffHoldsAncestor(t: Tables, user: ID, scope: Scope, kind: Kind, id: ID)
    requires scope != All && kind != OtherKind("")
    ensures UserCanAccessResource(t, Some(user), scope, kind, Some(id))
            <==> HoldsAncestor(t, user, scope, Ref(kind, id))
    decreases Rank(kind)
  {
    var r := Ref(kind, id);
    HoldsStep(t, user, scope, r);
    forall p | p in Parents(t, r)
      ensures HoldsAncestor(t, user, scope, p) <==> UserCanAccessResource(t, Some(user), scope, p.kind, Some(p.id))
    {
      AccessIffHoldsAncestor(t, user, scope, p.kind, p.id);
    }
    ParentAccess(t, user, scope, kind, id);
  }

  /** The check of a row in terms of the check of its parents. */
  lemma ParentAccess(t: Tables, user: ID, scope: Scope, kind: Kind, id: ID)
    requires scope != All && kind != OtherKind("")
    ensures UserCanAccessResource(t, Some(user), scope, kind, Some(id))
            <==> Holds(t, user, scope, Ref(kind, id))
                 || exists p :: p in Parents(t, Ref(kind, id))
                                && UserCanAccessResource(t, Some(user), scope, p.kind, Some(p.id))
  {
    var parents := Parents(t, Ref(kind, id));
    if kind == Vulnerability && id in t.vulnerabilities {
      var v := t.vulnerabilities[id];
      assert v.projectID.Some? ==> Ref(Project, v.projectID.value) in parents;
      assert v.conversationID.Some? ==> Ref(Conversation, v.conversationID.value) in parents;
    } else if kind == Asset && id in t.assets {
      assert t.assets[id].projectID.Some? ==> Ref(Project, t.assets[id].projectID.value) in parents;
    } else if kind == Conversation && id in t.conversations {
      assert t.conversations[id].projectID.Some? ==> Ref(Project, t.conversations[id].projectID.value) in parents;
    }
  }

  // ---------------------------------------------------------------- lists and single rows

  /** With scope `own` the project list shows exactly the projects the user may see. */
  lemma ProjectsAgree(t: Tables, user: ID, id: ID)
    requires id in t.projects
    ensures ProjectListed(t, Some(user), Own, id) <==> UserCanAccessResource(t, Some(user), Own, Project, Some(id))
  {
  }

  /** With scope `own` the asset list shows exactly the assets the user may see, existing project or not. */
  lemma AssetsAgree(t: Tables, user: ID, id: ID)
    requires id in t.assets
    ensures AssetListed(t, Some(user), Own, id) <==> UserCanAccessResource(t, Some(user), Own, Asset, Some(id))
  {
    ParentAccess(t, user, Own, Asset, id);
    if t.assets[id].projectID.Some? {
      ParentAccess(t, user, Own, Project, t.assets[id].projectID.value);
    }
  }

  /**
   * With scope `own` the conversation list shows no conversation the user may not see. It would hide one exactly if the
   * user reached it only through the assignment of a missing project, which foreign keys rule out.
   */
  lemma ConversationHiddenIff(t: Tables, user: ID, id: ID)
    requires id in t.conversations
    ensures ConversationListed(t, Some(user), Own, id)
            ==> UserCanAccessResource(t, Some(user), Own, Conversation, Some(id))
    ensures UserCanAccessResource(t, Some(user), Own, Conversation, Some(id))
            && !ConversationListed(t, Some(user), Own, id)
            <==> (var c := t.conversations[id];
                  && c.owner != Some(user) && Grant(user, Conversation, id) !in t.grants
                  && c.projectID.Some? && c.projectID.value !in t.projects
                  && Grant(user, Project, c.projectID.value) in t.grants)
  {
    var c := t.conversations[id];
    ParentAccess(t, user, Own, Conversation, id);
    if c.projectID.Some? {
      ParentAccess(t, user, Own, Project, c.projectID.value);
    }
  }

  /** The lists of the three kinds that share one shape. */
  predicate Listed(t: Tables, user: Option<ID>, scope: Scope, kind: Kind, id: ID) {
    match kind
    case Project => ProjectListed(t, user, scope, id)
    case Conversation => ConversationListed(t, user, scope, id)
    case Asset => AssetListed(t, user, scope, id)
    case _ => false
  }

  /** The row exists, and so does its project if it has one. */
  predicate Stored(t: Tables, kind: Kind, id: ID) {
    match kind
    case Project => id in t.projects
    case Conversation =>
      && id in t.conversations
      && (t.conversations[id].projectID.Some? ==> t.conversations[id].projectID.value in t.projects)
    case Asset => id in t.assets && (t.assets[id].projectID.Some? ==> t.assets[id].projectID.value in t.projects)
    case _ => false
  }

  /** On stored rows and with scope `own`, each list shows exactly what the check of single rows grants. */
  lemma ListsAgree(t: Tables, user: ID, kind: Kind, id: ID)
    requires Stored(t, kind, id)
    ensures Listed(t, Some(user), Own, kind, id) <==> UserCanAccessResource(t, Some(user), Own, kind, Some(id))
  {
    match kind
    case Project => ProjectsAgree(t, user, id);
    case Conversation => ConversationHiddenIff(t, user, id);
    case Asset => AssetsAgree(t, user, id);
  }

  // ---------------------------------------------------------------- tables that can come about

  /** What changes projects, the rows in them and assignments. */
  datatype Change =
    | PutProject(id: ID, owner: Option<ID>)
    | DropProject(id: ID)
    | PutConversation(id: ID, row: Member)
    | DropConversation(id: ID)
    | PutAsset(id: ID, row: Member)
    | DropAsset(id: ID)
    | SetGrants(grants: set<Grant>)

  function Unlinked(rows: map<ID, Member>, project: ID): map<ID, Member> {
    map id | id in rows :: if rows[id].projectID == Some(project) then rows[id].(projectID := None) else rows[id]
  }

  predicate ProjectKnown(t: Tables, row: Member) {
    row.projectID.Some? ==> row.projectID.value in t.projects
  }

  /** Foreign keys: an unknown project is refused, and deleting a project clears the columns that name it. */
  function Apply(t: Tables, c: Change): Tables {
    match c
    case PutProject(id, owner) => t.(projects := t.projects[id := owner])
    case DropProject(id) =>
      t.(projects := t.projects - {id},
         conversations := Unlinked(t.conversations, id), assets := Unlinked(t.assets, id))
    case PutConversation(id, row) => if ProjectKnown(t, row) then t.(conversations := t.conversations[id := row]) else t
    case DropConversation(id) => t.(conversations := t.conversations - {id})
    case PutAsset(id, row) => if ProjectKnown(t, row) then t.(assets := t.assets[id := row]) else t
    case DropAsset(id) => t.(assets := t.assets - {id})
    case SetGrants(grants) => t.(grants := grants)
  }

  function Run(t: Tables, changes: seq<Change>): Tables {
    if changes == [] then t else Apply(Run(t, changes[..|changes| - 1]), changes[|changes| - 1])
  }

  ghost predicate Linked(t: Tables) {
    && (forall id | id in t.conversations :: ProjectKnown(t, t.conversations[id]))
    && (forall id | id in t.assets :: ProjectKnown(t, t.assets[id]))
  }

  lemma {:induction false} RunLinked(t: Tables, changes: seq<Change>)
    requires Linked(t)
    ensures Linked(Run(t, changes))
  {
    if changes != [] {
      hide Linked, Apply;
      RunLinked(t, changes[..|changes| - 1]);
      ApplyLinked(Run(t, changes[..|changes| - 1]), changes[|changes| - 1]);
    }
  }

  lemma ApplyLinked(t: Tables, c: Change)
    requires Linked(t)
    ensures Linked(Apply(t, c))
  {
  }

  predicate Exists(t: Tables, kind: Kind, id: ID) {
    match kind
    case Project => id in t.projects
    case Conversation => id in t.conversations
    case Asset => id in t.assets
    case _ => false
  }

  /** Whatever has been changed, with scope `own` each list shows exactly the rows that the check grants. */
  lemma ListsAgreeAlways(t: Tables, changes: seq<Change>, user: ID, kind: Kind, id: ID)
    requires Linked(t) && Exists(Run(t, changes), kind, id)
    ensures var now := Run(t, changes);
            Listed(now, Some(user), Own, kind, id) <==> UserCanAccessResource(now, Some(user), Own, kind, Some(id))
  {
    RunLinked(t, changes);
    hide Run;
    ListsAgree(Run(t, changes), user, kind, id);
  }

  predicate OwnsRowOrProject(t: Tables, user: ID, kind: Kind, id: ID) {
    || UserOwnsResource(t, user, kind, id)
    || exists p :: p in Parents(t, Ref(kind, id)) && UserOwnsResource(t, user, p.kind, p.id)
  }

  predicate AssignedRowOrProject(t: Tables, user: ID, kind: Kind, id: ID) {
    || Grant(user, kind, id) in t.grants
    || exists p :: p in Parents(t, Ref(kind, id)) && Grant(user, p.kind, p.id) in t.grants
  }

  /** With any filtering scope a list shows what the user owns or is assigned, itself or through its project. */
  lemma ListedIff(t: Tables, user: ID, scope: Scope, kind: Kind, id: ID)
    requires scope != All && Stored(t, kind, id)
    ensures Listed(t, Some(user), scope, kind, id)
            <==> OwnsRowOrProject(t, user, kind, id) || AssignedRowOrProject(t, user, kind, id)
  {
    var parents := Parents(t, Ref(kind, id));
    if kind == Conversation && t.conversations[id].projectID.Some? {
      assert Ref(Project, t.conversations[id].projectID.value) in parents;
    } else if kind == Asset && t.assets[id].projectID.Some? {
      assert Ref(Project, t.assets[id].projectID.value) in parents;
    }
  }

  lemma AssignedIff(t: Tables, user: ID, scope: Scope, kind: Kind, id: ID)
    requires scope != All && scope != Own && Stored(t, kind, id)
    ensures UserCanAccessResource(t, Some(user), scope, kind, Some(id)) <==> AssignedRowOrProject(t, user, kind, id)
  {
    ParentAccess(t, user, scope, kind, id);
    forall p | p in Parents(t, Ref(kind, id))
      ensures UserCanAccessResource(t, Some(user), scope, p.kind, Some(p.id)) <==> Grant(user, p.kind, p.id) in t.grants
    {
      ParentAccess(t, user, scope, p.kind, p.id);
    }
  }

  /**
   * With scope `assigned` the check grants a subset of the list: missing are exactly the listed rows that the user
   * reaches by ownership alone.
   */
  lemma AssignedSubset(t: Tables, user: ID, scope: Scope, kind: Kind, id: ID)
    requires scope != All && scope != Own && Stored(t, kind, id)
    ensures UserCanAccessResource(t, Some(user), scope, kind, Some(id)) ==> Listed(t, Some(user), scope, kind, id)
    ensures Listed(t, Some(user), scope, kind, id) && !UserCanAccessResource(t, Some(user), scope, kind, Some(id))
            <==> OwnsRowOrProject(t, user, kind, id) && !AssignedRowOrProject(t, user, kind, id)
  {
    ListedIff(t, user, scope, kind, id);
    AssignedIff(t, user, scope, kind, id);
  }

  /** Without a user the lists show every row, and the check grants none, whatever the scope. */
  lemma BlankUserDiffers(t: Tables, scope: Scope, kind: Kind, id: ID)
    requires Stored(t, kind, id)
    ensures Listed(t, None, scope, kind, id) && !UserCanAccessResource(t, None, scope, kind, Some(id))
  {
  }

  /** Assignments and a wider scope only add access. */
  lemma {:induction false} AccessGrows(t: Tables, more: set<Grant>, user: ID, scope: Scope, wider: Scope, kind: Kind,
                                      id: ID)
    requires t.grants <= more && (wider == scope || wider == All || (wider == Own && scope != All))
    requires UserCanAccessResource(t, Some(user), scope, kind, Some(id))
    ensures UserCanAccessResource(t.(grants := more), Some(user), wider, kind, Some(id))
    decreases Rank(kind)
  {
    if wider != All && scope != All {
      ParentAccess(t, user, scope, kind, id);
      ParentAccess(t.(grants := more), user, wider, kind, id);
      if p :| p in Parents(t, Ref(kind, id)) && UserCanAccessResource(t, Some(user), scope, p.kind, Some(p.id)) {
        AccessGrows(t, more, user, scope, wider, p.kind, p.id);
        assert p in Parents(t.(grants := more), Ref(kind, id));
      }
    }
  }

  // ---------------------------------------------------------------- the vulnerability list

  /** The conversation of the finding belongs to a project that the finding itself does not name. */
  predicate ConversationAddsProject(t: Tables, v: Finding) {
    && v.conversationID.Some? && v.conversationID.value in t.conversations
    && var project := t.conversations[v.conversationID.value].projectID;
       project.Some? && project != v.projectID
  }

  /** The check of a vulnerability is what its list shows, or access to its conversation's project. */
  lemma VulnerabilityAccess(t: Tables, user: ID, id: ID)
    requires id in t.vulnerabilities
    ensures var v := t.vulnerabilities[id];
            UserCanAccessResource(t, Some(user), Own, Vulnerability, Some(id))
            <==> || VulnerabilityListed(t, Some(user), Own, id)
                 || (&& v.conversationID.Some? && v.conversationID.value in t.conversations
                     && t.conversations[v.conversationID.value].projectID.Some?
                     && UserCanAccessResource(t, Some(user), Own, Project,
                                              t.conversations[v.conversationID.value].projectID))
  {
  }

  /** An ID that is none of three given ones. */
  lemma FreshID(a: Option<ID>, b: Option<ID>, c: Option<ID>) returns (id: ID)
    ensures a != Some(id) && b != Some(id) && c != Some(id)
  {
    var size := Size(a) + Size(b) + Size(c) + 1;
    id := ID(seq(size, _ => 'x'));
    assert |id.text| == size;
  }

  function Size(id: Option<ID>): nat {
    if id.Some? then |id.value.text| else 0
  }

  function OwnerOf(t: Tables, project: Option<ID>): Option<ID> {
    if project.Some? && project.value in t.projects then t.projects[project.value] else None
  }

  ghost predicate VulnerabilityAgrees(t: Tables, grants: set<Grant>, user: ID, id: ID)
    requires id in t.vulnerabilities
  {
    VulnerabilityListed(t.(grants := grants), Some(user), Own, id)
    == UserCanAccessResource(t.(grants := grants), Some(user), Own, Vulnerability, Some(id))
  }

  /**
   * The vulnerability list does not look at the project of the conversation, the check does. The two agree for every
   * user and all assignments exactly if the conversation adds no project.
   */
  lemma VulnerabilityAgreesIff(t: Tables, id: ID)
    requires id in t.vulnerabilities
    ensures (forall user: ID, grants: set<Grant> :: VulnerabilityAgrees(t, grants, user, id))
            <==> !ConversationAddsProject(t, t.vulnerabilities[id])
  {
    var v := t.vulnerabilities[id];
    if ConversationAddsProject(t, v) {
      var c := t.conversations[v.conversationID.value];
      var user := FreshID(v.owner, OwnerOf(t, v.projectID), c.owner);
      var grants := {Grant(user, Project, c.projectID.value)};
      VulnerabilityAccess(t.(grants := grants), user, id);
      assert UserCanAccessResource(t.(grants := grants), Some(user), Own, Project, c.projectID);
      assert !VulnerabilityAgrees(t, grants, user, id);
    } else {
      forall user: ID, grants: set<Grant> ensures VulnerabilityAgrees(t, grants, user, id) {
        VulnerabilityAccess(t.(grants := grants), user, id);
      }
    }
  }

  /** A vulnerability that was found in a conversation before that belonged to a project, which a user is assigned. */
  function BeforeMove(project: ID, conversation: ID, vulnerability: ID, owner: ID, user: ID): Tables {
    Tables(map[project := None], map[conversation := Member(Some(owner), None)], map[],
           map[vulnerability := Finding(Some(owner), None, Some(conversation))], map[], {Grant(user, Project, project)})
  }

  /**
   * Once the conversation is moved into the project, the user passes the check, and the list hides the vulnerability.
   */
  lemma MovedConversation(project: ID, conversation: ID, vulnerability: ID, owner: ID, user: ID)
    requires user != owner
    ensures var t := BeforeMove(project, conversation, vulnerability, owner, user);
            var now := Apply(t, PutConversation(conversation, Member(Some(owner), Some(project))));
            && VulnerabilityAgrees(t, t.grants, user, vulnerability)
            && !VulnerabilityListed(now, Some(user), Own, vulnerability)
            && UserCanAccessResource(now, Some(user), Own, Vulnerability, Some(vulnerability))
  {
    var t := BeforeMove(project, conversation, vulnerability, owner, user);
    var now := Apply(t, PutConversation(conversation, Member(Some(owner), Some(project))));
    VulnerabilityAccess(t, user, vulnerability);
    VulnerabilityAccess(now, user, vulnerability);
    assert UserCanAccessResource(now, Some(user), Own, Project, Some(project));
  }
}
