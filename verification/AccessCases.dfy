/** The check of a single row in closed form: who sees a row of each kind, by the columns of the tables. */
module AccessCases {
  import opened Access
  import opened Base
  import opened Scopes

  /** The row belongs to the user, which only scope `own` asks for, or is assigned to the user. */
  predicate Mine(t: Tables, user: ID, scope: Scope, owner: Option<ID>, kind: Kind, id: ID) {
    (scope == Own && owner == Some(user)) || Grant(user, kind, id) in t.grants
  }

  predicate ProjectSeen(t: Tables, user: ID, scope: Scope, id: ID) {
    Mine(t, user, scope, if id in t.projects then t.projects[id] else None, Project, id)
  }

  /** A conversation or an asset, by itself or by its project. */
  ghost predicate MemberSeen(t: Tables, user: ID, scope: Scope, rows: map<ID, Member>, kind: Kind, id: ID) {
    if id !in rows then Mine(t, user, scope, None, kind, id)
    else
      || Mine(t, user, scope, rows[id].owner, kind, id)
      || exists p :: rows[id].projectID == Some(p) && ProjectSeen(t, user, scope, p)
  }

  /** A vulnerability, by itself, by its project or by its conversation. */
  ghost predicate FindingSeen(t: Tables, user: ID, scope: Scope, id: ID) {
    if id !in t.vulnerabilities then Mine(t, user, scope, None, Vulnerability, id)
    else
      || Mine(t, user, scope, t.vulnerabilities[id].owner, Vulnerability, id)
      || (exists p :: t.vulnerabilities[id].projectID == Some(p) && ProjectSeen(t, user, scope, p))
      || (exists c :: t.vulnerabilities[id].conversationID == Some(c)
                      && MemberSeen(t, user, scope, t.conversations, Conversation, c))
  }

  ghost predicate Seen(t: Tables, user: ID, scope: Scope, kind: Kind, id: ID) {
    match kind
    case Project => ProjectSeen(t, user, scope, id)
    case Conversation => MemberSeen(t, user, scope, t.conversations, Conversation, id)
    case Asset => MemberSeen(t, user, scope, t.assets, Asset, id)
    case Vulnerability => FindingSeen(t, user, scope, id)
    case BatchTask => Mine(t, user, scope, if id in t.queues then t.queues[id] else None, BatchTask, id)
    case OtherKind(_) => Grant(user, kind, id) in t.grants
  }

  /**
   * The check grants nothing without a user, a kind or a row ID, everything with scope `all`, and else the rows of the
   * user, the assigned ones and those seen by a project or conversation.
   */
  lemma CheckTold(t: Tables, user: Option<ID>, scope: Scope, kind: Kind, id: Option<ID>)
    ensures UserCanAccessResource(t, user, scope, kind, id)
            <==> && user.Some? && id.Some? && kind != OtherKind("")
                 && (scope == All || Seen(t, user.value, scope, kind, id.value))
  {
    if user.Some? && id.Some? && kind != OtherKind("") && scope != All {
      SeenIff(t, user.value, scope, kind, id.value);
    }
  }

  lemma ProjectIff(t: Tables, user: ID, scope: Scope, id: ID)
    requires scope != All
    ensures UserCanAccessResource(t, Some(user), scope, Project, Some(id)) <==> ProjectSeen(t, user, scope, id)
  {
  }

  lemma ConversationIff(t: Tables, user: ID, scope: Scope, id: ID)
    requires scope != All
    ensures UserCanAccessResource(t, Some(user), scope, Conversation, Some(id))
            <==> MemberSeen(t, user, scope, t.conversations, Conversation, id)
  {
    if id in t.conversations && t.conversations[id].projectID.Some? {
      ProjectIff(t, user, scope, t.conversations[id].projectID.value);
    }
  }

  lemma AssetIff(t: Tables, user: ID, scope: Scope, id: ID)
    requires scope != All
    ensures UserCanAccessResource(t, Some(user), scope, Asset, Some(id))
            <==> MemberSeen(t, user, scope, t.assets, Asset, id)
  {
    if id in t.assets && t.assets[id].projectID.Some? {
      ProjectIff(t, user, scope, t.assets[id].projectID.value);
    }
  }

  lemma FindingIff(t: Tables, user: ID, scope: Scope, id: ID)
    requires scope != All
    ensures UserCanAccessResource(t, Some(user), scope, Vulnerability, Some(id)) <==> FindingSeen(t, user, scope, id)
  {
    if id in t.vulnerabilities {
      var v := t.vulnerabilities[id];
      hide ProjectSeen, MemberSeen;
      if v.projectID.Some? {
        ProjectIff(t, user, scope, v.projectID.value);
      }
      if v.conversationID.Some? {
        ConversationIff(t, user, scope, v.conversationID.value);
      }
    }
  }

  lemma SeenIff(t: Tables, user: ID, scope: Scope, kind: Kind, id: ID)
    requires scope != All && kind != OtherKind("")
    ensures UserCanAccessResource(t, Some(user), scope, kind, Some(id)) <==> Seen(t, user, scope, kind, id)
  {
    match kind
    case Project => ProjectIff(t, user, scope, id);
    case Conversation => ConversationIff(t, user, scope, id);
    case Asset => AssetIff(t, user, scope, id);
    case Vulnerability => FindingIff(t, user, scope, id);
    case BatchTask =>
    case OtherKind(_) =>
  }

  // ---------------------------------------------------------------- the lists

  /** The row named exists and belongs to the user. */
  predicate OwnedIn(rows: map<ID, Option<ID>>, id: Option<ID>, user: ID) {
    id.Some? && id.value in rows && rows[id.value] == Some(user)
  }

  predicate Assigned(t: Tables, user: ID, kind: Kind, id: Option<ID>) {
    id.Some? && Grant(user, kind, id.value) in t.grants
  }

  /** The vulnerability list, whatever scope it filters by. */
  lemma VulnerabilityListTold(t: Tables, user: ID, scope: Scope, id: ID)
    requires scope != All && id in t.vulnerabilities
    ensures var v := t.vulnerabilities[id];
            VulnerabilityListed(t, Some(user), scope, id)
            <==> || v.owner == Some(user) || Assigned(t, user, Vulnerability, Some(id))
                 || OwnedIn(t.projects, v.projectID, user) || Assigned(t, user, Project, v.projectID)
                 || Assigned(t, user, Conversation, v.conversationID)
                 || exists c :: v.conversationID == Some(c) && c in t.conversations
                                && t.conversations[c].owner == Some(user)
  {
  }
}
