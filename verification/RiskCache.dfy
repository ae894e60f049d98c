/**
 * The risk figures that every asset row caches: the number of vulnerabilities found by its last scan, the highest open
 * severity and the level made from it. Writers refresh only the assets that a change can concern.
 */
module RiskCache {
  import opened Access
  import opened AssetKeys
  import opened Base
  import opened Scopes
  import opened Text

  /** When an asset was last scanned, and the conversation or batch task of that scan; blank links are None. */
  datatype Scan = Scan(at: Option<int>, conversationID: Option<ID>, queueID: Option<ID>, taskID: Option<ID>)

  datatype Level = Unassessed | Normal | Info | Low | Medium | High | Critical

  datatype Cache = Cache(count: nat, score: nat, level: Level)

  datatype AssetRow = AssetRow(details: Details, key: string, owner: Option<ID>, scan: Scan, cache: Cache)

  datatype VulnerabilityRow = VulnerabilityRow(
    conversationID: Option<ID>, projectID: Option<ID>, severity: string, status: string, texts: string)

  datatype TaskRow = TaskRow(conversationID: Option<ID>, completedAt: Option<int>)

  /**
   * The tables. `answeredAt` has the time of the last assistant message of each conversation that has one,
   * `conversations` the project of each conversation, `projects` the owner of each project.
   */
  datatype Db = Db(
    assets: map<ID, AssetRow>,
    vulnerabilities: map<ID, VulnerabilityRow>,
    tasks: map<ID, TaskRow>,
    answeredAt: map<ID, int>,
    conversations: map<ID, Option<ID>>,
    projects: map<ID, Option<ID>>,
    users: set<ID>,
    grants: set<Grant>)

  const NEVER := Scan(None, None, None, None)
  const NO_RISK := Cache(0, 0, Unassessed)

  // ---------------------------------------------------------------- the figures, computed from scratch

  /** The vulnerability comes from the scan: over its conversation, or over the conversation of its task. */
  predicate Matches(tasks: map<ID, TaskRow>, scan: Scan, v: VulnerabilityRow) {
    && v.conversationID.Some?
    && (|| scan.conversationID == v.conversationID
        || (&& scan.taskID.Some? && scan.taskID.value in tasks
            && tasks[scan.taskID.value].conversationID == v.conversationID))
  }

  predicate Open(status: string) {
    LowerAscii(status) !in ["fixed", "false_positive", "ignored"]
  }

  function Rank(severity: string): nat {
    var s := LowerAscii(severity);
    if s == "critical" then 5
    else if s == "high" then 4
    else if s == "medium" then 3
    else if s == "low" then 2
    else if s == "info" then 1
    else 0
  }

  function Matching(db: Db, scan: Scan): set<ID> {
    set v | v in db.vulnerabilities && Matches(db.tasks, scan, db.vulnerabilities[v])
  }

  predicate HasRank(db: Db, scan: Scan, rank: nat) {
    exists v ::
      v in Matching(db, scan) && Open(db.vulnerabilities[v].status) && Rank(db.vulnerabilities[v].severity) == rank
  }

  function Score(db: Db, scan: Scan): nat {
    if HasRank(db, scan, 5) then 5
    else if HasRank(db, scan, 4) then 4
    else if HasRank(db, scan, 3) then 3
    else if HasRank(db, scan, 2) then 2
    else if HasRank(db, scan, 1) then 1
    else 0
  }

  /** The completion of the task, else the last answer of the conversation, else the time stored with the asset. */
  function LastScan(db: Db, scan: Scan): Option<int> {
    if scan.taskID.Some? && scan.taskID.value in db.tasks && db.tasks[scan.taskID.value].completedAt.Some? then
      db.tasks[scan.taskID.value].completedAt
    else if scan.conversationID.Some? && scan.conversationID.value in db.answeredAt then
      Some(db.answeredAt[scan.conversationID.value])
    else scan.at
  }

  function LevelFromScore(score: nat, scanned: bool): Level {
    if !scanned then Unassessed
    else match score
      case 5 => Critical
      case 4 => High
      case 3 => Medium
      case 2 => Low
      case 1 => Info
      case _ => Normal
  }

  function Computed(db: Db, scan: Scan): Cache {
    Cache(|Matching(db, scan)|, Score(db, scan), LevelFromScore(Score(db, scan), LastScan(db, scan).Some?))
  }

  /** The score is the highest rank among the open vulnerabilities of the scan. */
  lemma ScoreIsHighest(db: Db, scan: Scan)
    ensures forall v | v in Matching(db, scan) && Open(db.vulnerabilities[v].status) ::
              Rank(db.vulnerabilities[v].severity) <= Score(db, scan)
    ensures Score(db, scan) > 0 ==> HasRank(db, scan, Score(db, scan))
  {
    forall v | v in Matching(db, scan) && Open(db.vulnerabilities[v].status)
      ensures Rank(db.vulnerabilities[v].severity) <= Score(db, scan)
    {
      assert HasRank(db, scan, Rank(db.vulnerabilities[v].severity));
    }
  }

  // ---------------------------------------------------------------- coherence

  /** Every cached figure is what computing it now would give. */
  ghost predicate Coherent(db: Db) {
    forall id | id in db.assets :: db.assets[id].cache == Computed(db, db.assets[id].scan)
  }

  /** An asset has scan links only if it has a scan time, so figures do not hang on when tasks and answers come in. */
  ghost predicate LinksNeedScan(db: Db) {
    forall id | id in db.assets ::
      db.assets[id].scan.at.None? ==> db.assets[id].scan.conversationID.None? && db.assets[id].scan.taskID.None?
  }

  function Refresh(db: Db, id: ID): Db {
    if id in db.assets then
      db.(assets := db.assets[id := db.assets[id].(cache := Computed(db, db.assets[id].scan))])
    else db
  }

  /** The store with the figures of the given assets computed anew. */
  function Refreshed(db: Db, ids: set<ID>): Db {
    db.(assets := map id | id in db.assets ::
          if id in ids then db.assets[id].(cache := Computed(db, db.assets[id].scan)) else db.assets[id])
  }

  /** The assets whose last scan has to do with one of the conversations. */
  function AffectedAssets(db: Db, conversations: set<ID>): set<ID> {
    set id | id in db.assets && Concerns(db.tasks, db.assets[id].scan, conversations)
  }

  predicate Concerns(tasks: map<ID, TaskRow>, scan: Scan, conversations: set<ID>) {
    || (scan.conversationID.Some? && scan.conversationID.value in conversations)
    || (&& scan.taskID.Some? && scan.taskID.value in tasks && tasks[scan.taskID.value].conversationID.Some?
        && tasks[scan.taskID.value].conversationID.value in conversations)
  }

  /** A row without conversation, or of one of the conversations. */
  predicate Within(v: VulnerabilityRow, conversations: set<ID>) {
    v.conversationID.None? || v.conversationID.value in conversations
  }

  /** Outside the conversations the two tables have the same rows. */
  ghost predicate ChangedWithin(before: map<ID, VulnerabilityRow>, after: map<ID, VulnerabilityRow>,
                                conversations: set<ID>)
  {
    forall v | v in before || v in after ::
      || (v in before && v in after && before[v] == after[v])
      || ((v in before ==> Within(before[v], conversations)) && (v in after ==> Within(after[v], conversations)))
  }

  /** A change of vulnerabilities leaves the figures of every asset that is not among the affected ones. */
  lemma UnaffectedKept(db: Db, after: map<ID, VulnerabilityRow>, conversations: set<ID>, scan: Scan)
    requires ChangedWithin(db.vulnerabilities, after, conversations) && !Concerns(db.tasks, scan, conversations)
    ensures Computed(db.(vulnerabilities := after), scan) == Computed(db, scan)
  {
    hide Rank, Open;
    var changed := db.(vulnerabilities := after);
    forall v ensures v in Matching(changed, scan) <==> v in Matching(db, scan)
             ensures v in Matching(db, scan) ==> v in after && after[v] == db.vulnerabilities[v] {
    }
    assert Matching(changed, scan) == Matching(db, scan);
    forall rank: nat ensures HasRank(changed, scan, rank) <==> HasRank(db, scan, rank) {
    }
  }

  /** Refreshing the affected assets after such a change keeps the whole store coherent. */
  lemma RefreshAffectedSuffices(db: Db, after: map<ID, VulnerabilityRow>, conversations: set<ID>)
    requires Coherent(db) && ChangedWithin(db.vulnerabilities, after, conversations)
    ensures var changed := db.(vulnerabilities := after);
            Coherent(Refreshed(changed, AffectedAssets(changed, conversations)))
  {
    var changed := db.(vulnerabilities := after);
    var result := Refreshed(changed, AffectedAssets(changed, conversations));
    forall id | id in result.assets ensures result.assets[id].cache == Computed(result, result.assets[id].scan) {
      SameFigures(result, changed, result.assets[id].scan);
      if id !in AffectedAssets(changed, conversations) {
        UnaffectedKept(db, after, conversations, db.assets[id].scan);
      }
    }
  }

  /** The figures depend on three tables only. */
  lemma SameFigures(a: Db, b: Db, scan: Scan)
    requires a.vulnerabilities == b.vulnerabilities && a.tasks == b.tasks && a.answeredAt == b.answeredAt
    ensures Computed(a, scan) == Computed(b, scan)
  {
    assert Matching(a, scan) == Matching(b, scan);
    forall rank: nat ensures HasRank(a, scan, rank) <==> HasRank(b, scan, rank) {
    }
  }

  /** On a coherent store refreshing is idle, whichever assets it takes. */
  lemma RefreshIdleIff(db: Db)
    ensures Coherent(db) <==> Refreshed(db, db.assets.Keys) == db
  {
    var all := Refreshed(db, db.assets.Keys);
    if Coherent(db) {
      assert all.assets == db.assets;
    }
    if all == db {
      forall id | id in db.assets ensures db.assets[id].cache == Computed(db, db.assets[id].scan) {
        assert all.assets[id] == db.assets[id];
      }
    }
  }

  // ---------------------------------------------------------------- the writers of vulnerabilities

  function Single(id: Option<ID>): set<ID> {
    if id.Some? then {id.value} else {}
  }

  /** Stores the vulnerability table and refreshes what the conversations concern. */
  function StoreVulnerabilities(db: Db, after: map<ID, VulnerabilityRow>, conversations: set<ID>): Db {
    var changed := db.(vulnerabilities := after);
    Refreshed(changed, AffectedAssets(changed, conversations))
  }

  /** A new row has a status, and the project of its conversation if it names none. */
  function Completed(db: Db, v: VulnerabilityRow): VulnerabilityRow {
    var project := if v.projectID.None? && v.conversationID.Some? && v.conversationID.value in db.conversations
                   then db.conversations[v.conversationID.value] else v.projectID;
    v.(projectID := project, status := if v.status == "" then "open" else v.status)
  }

  /** The database refuses a known ID and an unknown conversation. */
  function CreateVulnerability(db: Db, id: ID, v: VulnerabilityRow): Option<Db> {
    if id in db.vulnerabilities || (v.conversationID.Some? && v.conversationID.value !in db.conversations) then None
    else Some(StoreVulnerabilities(db, db.vulnerabilities[id := Completed(db, v)], Single(v.conversationID)))
  }

  /** The conversation of a vulnerability never changes; the one given only adds to what is refreshed. */
  function UpdateVulnerability(db: Db, id: ID, v: VulnerabilityRow): Db {
    StoreVulnerabilities(db, Overwritten(db, id, v), OldConversation(db, id) + Single(v.conversationID))
  }

  function OldConversation(db: Db, id: ID): set<ID> {
    if id in db.vulnerabilities then Single(db.vulnerabilities[id].conversationID) else {}
  }

  function Overwritten(db: Db, id: ID, v: VulnerabilityRow): map<ID, VulnerabilityRow> {
    if id in db.vulnerabilities then
      db.vulnerabilities[id := v.(conversationID := db.vulnerabilities[id].conversationID)]
    else db.vulnerabilities
  }

  function DeleteVulnerability(db: Db, id: ID): Db {
    StoreVulnerabilities(db, db.vulnerabilities - {id}, OldConversation(db, id))
  }

  /** The IDs of the rows that a filter selects. */
  function Selected(db: Db, filter: (ID, VulnerabilityRow) -> bool): set<ID> {
    set v | v in db.vulnerabilities && filter(v, db.vulnerabilities[v])
  }

  function DeleteVulnerabilities(db: Db, filter: (ID, VulnerabilityRow) -> bool): Db {
    StoreVulnerabilities(db, db.vulnerabilities - Selected(db, filter), ConversationsOf(db, Selected(db, filter)))
  }

  function ConversationsOf(db: Db, ids: set<ID>): set<ID> {
    set v | v in ids && v in db.vulnerabilities && db.vulnerabilities[v].conversationID.Some?
      :: db.vulnerabilities[v].conversationID.value
  }

  /** What the risk figures rest on. */
  ghost predicate Sound(db: Db) {
    Coherent(db) && LinksNeedScan(db)
  }

  lemma StoreVulnerabilitiesSound(db: Db, after: map<ID, VulnerabilityRow>, conversations: set<ID>)
    requires Sound(db) && ChangedWithin(db.vulnerabilities, after, conversations)
    ensures Sound(StoreVulnerabilities(db, after, conversations))
  {
    RefreshAffectedSuffices(db, after, conversations);
  }

  lemma CreateVulnerabilitySound(db: Db, id: ID, v: VulnerabilityRow)
    requires Sound(db) && CreateVulnerability(db, id, v).Some?
    ensures Sound(CreateVulnerability(db, id, v).value)
  {
    StoreVulnerabilitiesSound(db, db.vulnerabilities[id := Completed(db, v)], Single(v.conversationID));
  }

  lemma UpdateVulnerabilitySound(db: Db, id: ID, v: VulnerabilityRow)
    requires Sound(db)
    ensures Sound(UpdateVulnerability(db, id, v))
  {
    StoreVulnerabilitiesSound(db, Overwritten(db, id, v), OldConversation(db, id) + Single(v.conversationID));
  }

  lemma DeleteVulnerabilitySound(db: Db, id: ID)
    requires Sound(db)
    ensures Sound(DeleteVulnerability(db, id))
  {
    StoreVulnerabilitiesSound(db, db.vulnerabilities - {id}, OldConversation(db, id));
  }

  lemma DeleteVulnerabilitiesSound(db: Db, filter: (ID, VulnerabilityRow) -> bool)
    requires Sound(db)
    ensures Sound(DeleteVulnerabilities(db, filter))
  {
    StoreVulnerabilitiesSound(db, db.vulnerabilities - Selected(db, filter), ConversationsOf(db, Selected(db, filter)));
  }

  // ---------------------------------------------------------------- scans, answers and finished tasks

  /** Who asks, and how far the permission behind the request reaches. */
  datatype ListAccess = ListAccess(user: Option<ID>, scope: Scope)

  predicate Visible(db: Db, access: ListAccess, id: ID) {
    && id in db.assets
    && AssetShown(db.projects, db.grants, access.user, access.scope, id,
                  Member(db.assets[id].owner, db.assets[id].details.projectID))
  }

  function MarkAssetScanned(db: Db, id: ID, conversationID: Option<ID>, queueID: Option<ID>, taskID: Option<ID>,
                            now: int,
                            access: ListAccess): Option<Db>
  {
    if !Visible(db, access, id) then None
    else
      var scan := Scan(Some(now), conversationID, queueID, taskID);
      Some(Refresh(db.(assets := db.assets[id := db.assets[id].(scan := scan)]), id))
  }

  predicate TaskBelongs(db: Db, taskID: Option<ID>, conversationID: ID) {
    taskID.Some? && taskID.value in db.tasks && db.tasks[taskID.value].conversationID == Some(conversationID)
  }

  /** Task and queue stay linked only if the task is one of the conversation that completes the scan. */
  function CompleteAssetScan(db: Db, id: ID, conversationID: Option<ID>, now: int, access: ListAccess): Option<Db> {
    if conversationID.None? || !Visible(db, access, id) then None
    else
      var stored := db.assets[id].scan;
      var keep := TaskBelongs(db, stored.taskID, conversationID.value);
      var scan := Scan(Some(now), conversationID, if keep then stored.queueID else None,
                       if keep then stored.taskID else None);
      Some(Refresh(db.(assets := db.assets[id := db.assets[id].(scan := scan)]), id))
  }

  lemma RescanSound(db: Db, id: ID, scan: Scan)
    requires Sound(db) && id in db.assets && scan.at.Some?
    ensures Sound(Refresh(db.(assets := db.assets[id := db.assets[id].(scan := scan)]), id))
  {
    var result := Refresh(db.(assets := db.assets[id := db.assets[id].(scan := scan)]), id);
    forall a | a in result.assets ensures result.assets[a].cache == Computed(result, result.assets[a].scan) {
      SameFigures(result, db, result.assets[a].scan);
      SameFigures(db.(assets := db.assets[id := db.assets[id].(scan := scan)]), db, result.assets[a].scan);
    }
  }

  lemma MarkAssetScannedSound(db: Db, id: ID, conversationID: Option<ID>, queueID: Option<ID>, taskID: Option<ID>,
                              now: int,
                              access: ListAccess)
    requires Sound(db) && Visible(db, access, id)
    ensures Sound(MarkAssetScanned(db, id, conversationID, queueID, taskID, now, access).value)
  {
    RescanSound(db, id, Scan(Some(now), conversationID, queueID, taskID));
  }

  lemma CompleteAssetScanSound(db: Db, id: ID, conversationID: ID, now: int, access: ListAccess)
    requires Sound(db) && Visible(db, access, id)
    ensures Sound(CompleteAssetScan(db, id, Some(conversationID), now, access).value)
  {
    var stored := db.assets[id].scan;
    var keep := TaskBelongs(db, stored.taskID, conversationID);
    RescanSound(db, id, Scan(Some(now), Some(conversationID), if keep then stored.queueID else None,
                             if keep then stored.taskID else None));
  }

  /** An assistant message comes in; nothing is refreshed. */
  function Answer(db: Db, conversationID: ID, at: int): Db {
    db.(answeredAt := db.answeredAt[conversationID := at])
  }

  /** A task of a fixed conversation finishes; nothing is refreshed. */
  function FinishTask(db: Db, taskID: ID, at: int): Db {
    if taskID in db.tasks then db.(tasks := db.tasks[taskID := db.tasks[taskID].(completedAt := Some(at))]) else db
  }

  /** Neither makes a cached figure wrong: an asset with links to either counts as scanned already. */
  lemma TimesSound(db: Db, conversationID: ID, taskID: ID, at: int)
    requires Sound(db)
    ensures Sound(Answer(db, conversationID, at)) && Sound(FinishTask(db, taskID, at))
  {
    hide Computed;
    SameMatchesSound(db, Answer(db, conversationID, at));
    SameMatchesSound(db, FinishTask(db, taskID, at));
  }

  lemma SameMatchesSound(a: Db, b: Db)
    requires Sound(a) && a.assets == b.assets && a.vulnerabilities == b.vulnerabilities && a.tasks.Keys == b.tasks.Keys
    requires forall t | t in a.tasks :: a.tasks[t].conversationID == b.tasks[t].conversationID
    ensures Sound(b)
  {
    hide Computed;
    forall id | id in b.assets ensures b.assets[id].cache == Computed(b, b.assets[id].scan) {
      SameMatches(a, b, b.assets[id].scan);
    }
  }

  lemma SameMatches(a: Db, b: Db, scan: Scan)
    requires a.vulnerabilities == b.vulnerabilities && a.tasks.Keys == b.tasks.Keys
    requires forall t | t in a.tasks :: a.tasks[t].conversationID == b.tasks[t].conversationID
    requires scan.at.None? ==> scan.conversationID.None? && scan.taskID.None?
    ensures Computed(a, scan) == Computed(b, scan)
  {
    hide Rank, Open;
    assert Matching(a, scan) == Matching(b, scan);
    forall rank: nat ensures HasRank(a, scan, rank) <==> HasRank(b, scan, rank) {
    }
  }

  // ---------------------------------------------------------------- what the figures mean to a user

  /** The vulnerabilities found in a conversation. */
  function FoundIn(db: Db, conversationID: ID): set<ID> {
    set v | v in db.vulnerabilities && db.vulnerabilities[v].conversationID == Some(conversationID)
  }

  /** Completing a scan leaves no trace of earlier ones: exactly the findings of its conversation count. */
  lemma CompletedScanCounts(db: Db, id: ID, conversationID: ID, now: int, access: ListAccess)
    requires Visible(db, access, id)
    ensures var after := CompleteAssetScan(db, id, Some(conversationID), now, access).value;
            && id in after.assets
            && Matching(after, after.assets[id].scan) == FoundIn(db, conversationID)
            && after.assets[id].cache.count == |FoundIn(db, conversationID)|
            && after.assets[id].cache.level != Unassessed
  {
    hide Score;
    var after := CompleteAssetScan(db, id, Some(conversationID), now, access).value;
    var scan := after.assets[id].scan;
    assert Matching(after, scan) == FoundIn(db, conversationID);
    SameFigures(db.(assets := db.assets[id := db.assets[id].(scan := scan)]), after, scan);
  }

  /** The asset's scan ran in the conversation, directly or as a task of it. */
  predicate ScannedIn(db: Db, id: ID, conversationID: ID) {
    id in db.assets && Concerns(db.tasks, db.assets[id].scan, {conversationID})
  }

  function Max(a: nat, b: nat): nat {
    if a < b then b else a
  }

  lemma ScoreIs(db: Db, scan: Scan, score: nat)
    requires score <= 5 && (score == 0 || HasRank(db, scan, score))
    requires forall rank: nat | HasRank(db, scan, rank) :: rank <= score
    ensures Score(db, scan) == score
  {
  }

  lemma RankAtMost(severity: string)
    ensures Rank(severity) <= 5
  {
  }

  lemma ScoreAtMost(db: Db, scan: Scan)
    ensures Score(db, scan) <= 5
  {
  }

  /** The store `after` has one more vulnerability, and the scan matches it. */
  ghost predicate OneMore(db: Db, after: Db, scan: Scan, id: ID) {
    && id !in db.vulnerabilities && after.vulnerabilities.Keys == db.vulnerabilities.Keys + {id}
    && (forall v | v in db.vulnerabilities :: after.vulnerabilities[v] == db.vulnerabilities[v])
    && after.tasks == db.tasks && Matches(db.tasks, scan, after.vulnerabilities[id])
  }

  lemma OneMoreMatching(db: Db, after: Db, scan: Scan, id: ID)
    requires OneMore(db, after, scan, id)
    ensures Matching(after, scan) == Matching(db, scan) + {id} && id !in Matching(db, scan)
  {
  }

  lemma OneMoreRank(db: Db, after: Db, scan: Scan, id: ID, rank: nat)
    requires OneMore(db, after, scan, id)
    ensures var v := after.vulnerabilities[id];
            HasRank(after, scan, rank) <==> HasRank(db, scan, rank) || (Open(v.status) && Rank(v.severity) == rank)
  {
    OneMoreMatching(db, after, scan, id);
    hide Rank, Open, Matching;
    assert forall v | v in Matching(db, scan) :: v in Matching(after, scan);
    assert id in Matching(after, scan);
    assert forall v | v in Matching(db, scan) :: v in db.vulnerabilities by {
      MatchingStored(db, scan);
    }
  }

  lemma MatchingStored(db: Db, scan: Scan)
    ensures Matching(db, scan) <= db.vulnerabilities.Keys
  {
  }

  /** One more vulnerability of the scan raises the count by one, and the score to its rank if it is open. */
  lemma OneMoreFinding(db: Db, after: Db, scan: Scan, id: ID)
    requires OneMore(db, after, scan, id)
    ensures |Matching(after, scan)| == |Matching(db, scan)| + 1
    ensures var v := after.vulnerabilities[id];
            Score(after, scan) == if Open(v.status) then Max(Score(db, scan), Rank(v.severity)) else Score(db, scan)
  {
    var v := after.vulnerabilities[id];
    OneMoreMatching(db, after, scan, id);
    hide HasRank, Score, Matching, Rank, Open, OneMore;
    forall rank: nat
      ensures HasRank(after, scan, rank) <==> HasRank(db, scan, rank) || (Open(v.status) && Rank(v.severity) == rank)
    {
      OneMoreRank(db, after, scan, id, rank);
    }
    ScoreHasRank(db, scan);
    RankAtMost(v.severity);
    ScoreAtMost(db, scan);
    ScoreIs(after, scan, if Open(v.status) then Max(Score(db, scan), Rank(v.severity)) else Score(db, scan));
  }

  lemma ScoreHasRank(db: Db, scan: Scan)
    ensures Score(db, scan) > 0 ==> HasRank(db, scan, Score(db, scan))
    ensures forall rank: nat | HasRank(db, scan, rank) :: rank <= Score(db, scan)
  {
    ScoreIsHighest(db, scan);
  }

  lemma SoundFigures(db: Db, asset: ID)
    requires Sound(db) && asset in db.assets
    ensures db.assets[asset].cache == Computed(db, db.assets[asset].scan)
  {
    hide Computed;
  }

  /** A new vulnerability shows at once in the figures of every asset scanned in its conversation, and in no others. */
  lemma NewVulnerabilityShows(db: Db, id: ID, v: VulnerabilityRow, asset: ID)
    requires Sound(db) && asset in db.assets
    requires id !in db.vulnerabilities && (v.conversationID.Some? ==> v.conversationID.value in db.conversations)
    ensures CreateVulnerability(db, id, v).Some?
    ensures var after, row := CreateVulnerability(db, id, v).value, Completed(db, v);
            && asset in after.assets
            && if v.conversationID.Some? && ScannedIn(db, asset, v.conversationID.value) then
                 && after.assets[asset].cache.count == db.assets[asset].cache.count + 1
                 && after.assets[asset].cache.score
                    == (if Open(row.status) then Max(db.assets[asset].cache.score, Rank(row.severity))
                        else db.assets[asset].cache.score)
               else after.assets[asset] == db.assets[asset]
  {
    var after := CreateVulnerability(db, id, v).value;
    CreatedRows(db, id, v, asset);
    if v.conversationID.Some? && ScannedIn(db, asset, v.conversationID.value) {
      CreateVulnerabilitySound(db, id, v);
      hide CreateVulnerability, Rank, Open, Score, Matching, Sound, OneMore;
      SoundFigures(db, asset);
      SoundFigures(after, asset);
      OneMoreFinding(db, after, db.assets[asset].scan, id);
    }
  }

  /** What creating a vulnerability does to one asset and to the table. */
  lemma CreatedRows(db: Db, id: ID, v: VulnerabilityRow, asset: ID)
    requires asset in db.assets && CreateVulnerability(db, id, v).Some?
    ensures var after := CreateVulnerability(db, id, v).value;
            && asset in after.assets && after.assets[asset].scan == db.assets[asset].scan
            && id in after.vulnerabilities && after.vulnerabilities[id] == Completed(db, v)
            && if v.conversationID.Some? && ScannedIn(db, asset, v.conversationID.value)
               then OneMore(db, after, db.assets[asset].scan, id)
               else after.assets[asset] == db.assets[asset]
  {
    hide Computed;
  }

  /** The stores agree in everything but vulnerabilities and cached figures. */
  ghost predicate SameButFigures(a: Db, b: Db) {
    && a == b.(assets := a.assets, vulnerabilities := a.vulnerabilities)
    && a.assets.Keys == b.assets.Keys
    && forall id | id in a.assets :: a.assets[id] == b.assets[id].(cache := a.assets[id].cache)
  }

  lemma StoreKeepsRest(db: Db, after: map<ID, VulnerabilityRow>, conversations: set<ID>)
    ensures var result := StoreVulnerabilities(db, after, conversations);
            result.vulnerabilities == after && SameButFigures(result, db)
  {
    hide Computed, AffectedAssets;
  }

  /** Two coherent stores that agree in everything but figures agree in the figures too. */
  lemma FiguresDetermined(a: Db, b: Db)
    requires Coherent(a) && Coherent(b) && SameButFigures(a, b) && a.vulnerabilities == b.vulnerabilities
    ensures a == b
  {
    forall id | id in a.assets ensures a.assets[id] == b.assets[id] {
      SameFigures(a, b, a.assets[id].scan);
    }
    hide Computed;
    assert a.assets == b.assets;
  }

  lemma SameTwice(a: Db, b: Db, c: Db)
    requires SameButFigures(a, b) && SameButFigures(b, c)
    ensures SameButFigures(a, c)
  {
  }

  /** Deleting a vulnerability that was just created takes back everything, cached figures included. */
  lemma CreateDeleteUndone(db: Db, id: ID, v: VulnerabilityRow)
    requires Sound(db)
    ensures CreateVulnerability(db, id, v).Some? ==> DeleteVulnerability(CreateVulnerability(db, id, v).value, id) == db
  {
    hide StoreVulnerabilities, SameButFigures, Completed, Coherent, LinksNeedScan;
    if CreateVulnerability(db, id, v).None? {
      return;
    }
    var created := CreateVulnerability(db, id, v).value;
    var deleted := DeleteVulnerability(created, id);
    CreateVulnerabilitySound(db, id, v);
    DeleteVulnerabilitySound(created, id);
    StoreKeepsRest(db, db.vulnerabilities[id := Completed(db, v)], Single(v.conversationID));
    StoreKeepsRest(created, created.vulnerabilities - {id}, OldConversation(created, id));
    SameTwice(deleted, created, db);
    assert created.vulnerabilities - {id} == db.vulnerabilities;
    FiguresDetermined(deleted, db);
  }
}
