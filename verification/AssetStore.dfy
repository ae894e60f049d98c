/** The asset and vulnerability tables with everything that writes them, and what any run of writes keeps. */
module AssetStore {
  import opened Access
  import opened AssetImport
  import opened AssetKeys
  import opened Base
  import opened RiskCache
  import opened Scopes

  // ---------------------------------------------------------------- writing assets leaves the risk figures right

  /** After the write each row has the scan and figures of its old self, or those of a row that was never scanned. */
  ghost predicate RiskKept(before: Db, after: Db) {
    && after.vulnerabilities == before.vulnerabilities && after.tasks == before.tasks
    && after.answeredAt == before.answeredAt
    && forall id | id in after.assets ::
         || (&& id in before.assets && after.assets[id].scan == before.assets[id].scan
             && after.assets[id].cache == before.assets[id].cache)
         || (after.assets[id].scan == NEVER && after.assets[id].cache == NO_RISK)
  }

  lemma NeverScanned(db: Db)
    ensures Computed(db, NEVER) == NO_RISK
  {
    assert Matching(db, NEVER) == {};
    assert forall rank: nat :: !HasRank(db, NEVER, rank);
  }

  lemma RiskKeptSound(before: Db, after: Db)
    requires Sound(before) && RiskKept(before, after)
    ensures Sound(after)
  {
    NeverScanned(after);
    forall id | id in after.assets ensures after.assets[id].cache == Computed(after, after.assets[id].scan) {
      SameFigures(before, after, after.assets[id].scan);
    }
  }

  lemma UpsertRiskKept(r: NetRules, b: Batch, input: Input, importer: Importer)
    ensures RiskKept(b.db, Upsert(r, b, input, importer).batch.db)
  {
    hide Normalize, Validate, RiskKept, UpsertValid;
    RiskKeptItself(b.db);
    if input.details.Some? && Validate(r, Normalize(r, input.details.value)).Valid? {
      UpsertValidRiskKept(b, Validate(r, Normalize(r, input.details.value)).details, input.newID, importer);
    }
  }

  lemma RiskKeptItself(db: Db)
    ensures RiskKept(db, db)
  {
  }

  lemma UpsertValidRiskKept(b: Batch, d: Details, newID: ID, importer: Importer)
    requires d.port >= 0
    ensures RiskKept(b.db, UpsertValid(b, d, newID, importer).batch.db)
  {
    hide Key, RiskKept, Insert, Overwrite;
    RiskKeptItself(b.db);
    match FindKey(b.db.assets, Key(d))
    case None => InsertRiskKept(b, d, newID, importer.owner);
    case Some(id) => OverwriteRiskKept(b, d, id, importer);
  }

  lemma InsertRiskKept(b: Batch, d: Details, id: ID, owner: Option<ID>)
    requires d.port >= 0
    ensures RiskKept(b.db, Insert(b, d, id, owner).batch.db)
  {
    hide Key, Assign;
  }

  lemma OverwriteRiskKept(b: Batch, d: Details, id: ID, importer: Importer)
    requires id in b.db.assets
    ensures RiskKept(b.db, Overwrite(b, d, id, importer).batch.db)
  {
    hide Merge, Assign, ProjectExists, Foreign, RiskKept;
    RiskKeptItself(b.db);
    DetailsRiskKept(b.db, id, Merge(b.db.assets[id].details, d), Overwrite(b, d, id, importer).batch.db.grants);
  }

  lemma DetailsRiskKept(db: Db, id: ID, d: Details, grants: set<Grant>)
    requires id in db.assets
    ensures RiskKept(db, db.(assets := db.assets[id := db.assets[id].(details := d)], grants := grants))
  {
  }

  lemma {:induction false} UpsertAllRiskKept(r: NetRules, db: Db, inputs: seq<Input>, importer: Importer)
    ensures RiskKept(db, UpsertAll(r, db, inputs, importer).batch.db)
  {
    if inputs != [] {
      hide Upsert;
      var n := |inputs| - 1;
      UpsertAllRiskKept(r, db, inputs[..n], importer);
      if UpsertAll(r, db, inputs[..n], importer).Going? {
        UpsertRiskKept(r, UpsertAll(r, db, inputs[..n], importer).batch, inputs[n], importer);
      }
    }
  }

  lemma UpdateRiskKept(r: NetRules, db: Db, id: ID, d: Details, access: ListAccess)
    ensures UpdateAsset(r, db, id, d, access).Done? ==> RiskKept(db, UpdateAsset(r, db, id, d, access).db)
  {
    hide Normalize, Validate, Key;
  }

  lemma MergeRiskKept(r: NetRules, db: Db, primary: Option<ID>, d: Details, duplicates: seq<ID>,
                      writeAccess: ListAccess, deleteAccess: ListAccess)
    ensures var w := MergeAssets(r, db, primary, d, duplicates, writeAccess, deleteAccess);
            w.Done? ==> RiskKept(db, w.db)
  {
    hide Normalize, Validate, Key, Distinct, Without;
  }

  // ---------------------------------------------------------------- runs

  datatype Op =
    | ImportBatch(inputs: seq<Input>, importer: Importer)
    | PutAsset(id: ID, details: Details, access: ListAccess)
    | JoinAssets(primary: Option<ID>, details: Details, duplicates: seq<ID>, writeAccess: ListAccess,
                 deleteAccess: ListAccess)
    | DropAssets(ids: seq<ID>, access: ListAccess)
    | Scanned(id: ID, conversationID: Option<ID>, queueID: Option<ID>, taskID: Option<ID>, now: int, access: ListAccess)
    | ScanCompleted(id: ID, conversationID: Option<ID>, now: int, access: ListAccess)
    | NewVulnerability(id: ID, row: VulnerabilityRow)
    | PutVulnerability(id: ID, row: VulnerabilityRow)
    | DropVulnerability(id: ID)
    | DropVulnerabilities(filter: (ID, VulnerabilityRow) -> bool)
    | Answered(conversation: ID, at: int)
    | TaskFinished(task: ID, at: int)

  function OrSame(db: Db, after: Option<Db>): Db {
    if after.Some? then after.value else db
  }

  function Written(db: Db, w: Write): Db {
    if w.Done? then w.db else db
  }

  /** The store after a batch: all of it is kept, or nothing. */
  ghost function Imported(r: NetRules, db: Db, inputs: seq<Input>, importer: Importer): Db {
    var o := UpsertAll(r, db, inputs, importer);
    if o.Going? then o.batch.db else db
  }

  ghost function Apply(r: NetRules, db: Db, op: Op): Db {
    match op
    case ImportBatch(inputs, importer) => Imported(r, db, inputs, importer)
    case PutAsset(id, d, access) => Written(db, UpdateAsset(r, db, id, d, access))
    case JoinAssets(primary, d, duplicates, writeAccess, deleteAccess) =>
      Written(db, MergeAssets(r, db, primary, d, duplicates, writeAccess, deleteAccess))
    case DropAssets(ids, access) => Written(db, DeleteAssets(db, ids, access))
    case Scanned(id, conversationID, queueID, taskID, now, access) =>
      OrSame(db, MarkAssetScanned(db, id, conversationID, queueID, taskID, now, access))
    case ScanCompleted(id, conversationID, now, access) =>
      OrSame(db, CompleteAssetScan(db, id, conversationID, now, access))
    case NewVulnerability(id, row) => OrSame(db, CreateVulnerability(db, id, row))
    case PutVulnerability(id, row) => UpdateVulnerability(db, id, row)
    case DropVulnerability(id) => DeleteVulnerability(db, id)
    case DropVulnerabilities(filter) => DeleteVulnerabilities(db, filter)
    case Answered(conversationID, at) => Answer(db, conversationID, at)
    case TaskFinished(taskID, at) => FinishTask(db, taskID, at)
  }

  ghost function Run(r: NetRules, db: Db, ops: seq<Op>): Db {
    if ops == [] then db else Apply(r, Run(r, db, ops[..|ops| - 1]), ops[|ops| - 1])
  }

  /** Every single operation, whether it succeeds or fails, keeps the cached figures equal to the computed ones. */
  lemma ApplySound(r: NetRules, db: Db, op: Op)
    requires Sound(db)
    ensures Sound(Apply(r, db, op))
  {
    hide Sound, Upsert, UpsertAll, RiskKept, UpdateAsset, MergeAssets, CreateVulnerability, UpdateVulnerability,
      DeleteVulnerability, DeleteVulnerabilities, MarkAssetScanned, CompleteAssetScan, Answer, FinishTask;
    match op
    case ImportBatch(inputs, importer) =>
      UpsertAllRiskKept(r, db, inputs, importer);
      RiskKeptSound(db, UpsertAll(r, db, inputs, importer).batch.db);
    case PutAsset(id, d, access) =>
      if UpdateAsset(r, db, id, d, access).Done? {
        UpdateRiskKept(r, db, id, d, access);
        RiskKeptSound(db, UpdateAsset(r, db, id, d, access).db);
      }
    case JoinAssets(primary, d, duplicates, writeAccess, deleteAccess) =>
      if MergeAssets(r, db, primary, d, duplicates, writeAccess, deleteAccess).Done? {
        MergeRiskKept(r, db, primary, d, duplicates, writeAccess, deleteAccess);
        RiskKeptSound(db, MergeAssets(r, db, primary, d, duplicates, writeAccess, deleteAccess).db);
      }
    case DropAssets(ids, access) => RemoveSound(db, Distinct(ids));
    case Scanned(id, conversationID, queueID, taskID, now, access) =>
      MarkedSound(db, id, conversationID, queueID, taskID, now, access);
    case ScanCompleted(id, conversationID, now, access) => CompletedSound(db, id, conversationID, now, access);
    case NewVulnerability(id, row) =>
      if CreateVulnerability(db, id, row).Some? {
        CreateVulnerabilitySound(db, id, row);
      }
    case PutVulnerability(id, row) => UpdateVulnerabilitySound(db, id, row);
    case DropVulnerability(id) => DeleteVulnerabilitySound(db, id);
    case DropVulnerabilities(filter) => DeleteVulnerabilitiesSound(db, filter);
    case Answered(conversationID, at) => TimesSound(db, conversationID, conversationID, at);
    case TaskFinished(taskID, at) => TimesSound(db, taskID, taskID, at);
  }

  lemma RemoveSound(db: Db, ids: seq<ID>)
    requires Sound(db)
    ensures Sound(Remove(db, ids))
  {
    RiskKeptSound(db, Remove(db, ids));
  }

  lemma MarkedSound(db: Db, id: ID, conversationID: Option<ID>, queueID: Option<ID>, taskID: Option<ID>, now: int,
                    access: ListAccess)
    requires Sound(db)
    ensures Sound(OrSame(db, MarkAssetScanned(db, id, conversationID, queueID, taskID, now, access)))
  {
    hide Sound, Refresh;
    if Visible(db, access, id) {
      MarkAssetScannedSound(db, id, conversationID, queueID, taskID, now, access);
    }
  }

  lemma CompletedSound(db: Db, id: ID, conversationID: Option<ID>, now: int, access: ListAccess)
    requires Sound(db)
    ensures Sound(OrSame(db, CompleteAssetScan(db, id, conversationID, now, access)))
  {
    hide Sound, Refresh;
    if conversationID.Some? && Visible(db, access, id) {
      CompleteAssetScanSound(db, id, conversationID.value, now, access);
    }
  }

  /** Only the asset writers touch the keys; the rest keeps all rows but for scans and figures. */
  ghost predicate KeysKept(before: Db, after: Db) {
    && after.assets.Keys == before.assets.Keys
    && forall id | id in before.assets ::
         after.assets[id].key == before.assets[id].key && after.assets[id].details == before.assets[id].details
  }

  lemma KeysKeptDeduplicated(before: Db, after: Db)
    requires Deduplicated(before.assets) && KeysKept(before, after)
    ensures Deduplicated(after.assets)
  {
    hide Storable, Key;
  }

  /** Every single operation keeps each row under the key of its own fields, and no key twice. */
  lemma ApplyDeduplicated(r: NetRules, db: Db, op: Op)
    requires Deduplicated(db.assets)
    ensures Deduplicated(Apply(r, db, op).assets)
  {
    hide Deduplicated, Upsert, UpsertAll, UpdateAsset, MergeAssets, Computed, Remove;
    match op
    case ImportBatch(inputs, importer) => UpsertAllDeduplicated(r, db, inputs, importer);
    case PutAsset(id, d, access) =>
      if UpdateAsset(r, db, id, d, access).Done? {
        UpdateDeduplicated(r, db, id, d, access);
      }
    case JoinAssets(primary, d, duplicates, writeAccess, deleteAccess) =>
      if MergeAssets(r, db, primary, d, duplicates, writeAccess, deleteAccess).Done? {
        MergeDeduplicated(r, db, primary, d, duplicates, writeAccess, deleteAccess);
      }
    case DropAssets(ids, access) => RemoveDeduplicated(db, Distinct(ids));
    case _ =>
      OthersKeepKeys(r, db, op);
      hide Apply;
      KeysKeptDeduplicated(db, Apply(r, db, op));
  }

  lemma RefreshedKeepsKeys(db: Db, after: map<ID, VulnerabilityRow>, conversations: set<ID>)
    ensures KeysKept(db, StoreVulnerabilities(db, after, conversations))
  {
    hide Computed, AffectedAssets;
  }

  lemma RescanKeepsKeys(db: Db, id: ID, scan: Scan)
    requires id in db.assets
    ensures KeysKept(db, Refresh(db.(assets := db.assets[id := db.assets[id].(scan := scan)]), id))
  {
    hide Computed;
  }

  lemma OthersKeepKeys(r: NetRules, db: Db, op: Op)
    requires !op.ImportBatch? && !op.PutAsset? && !op.JoinAssets? && !op.DropAssets?
    ensures KeysKept(db, Apply(r, db, op))
  {
    hide StoreVulnerabilities, Refresh, AssetShown, Selected, Completed, Single, OldConversation, Overwritten,
      ConversationsOf;
    match op
    case Scanned(id, conversationID, queueID, taskID, now, access) =>
      if Visible(db, access, id) {
        RescanKeepsKeys(db, id, Scan(Some(now), conversationID, queueID, taskID));
      }
    case ScanCompleted(id, conversationID, now, access) =>
      if conversationID.Some? && Visible(db, access, id) {
        var stored := db.assets[id].scan;
        var keep := TaskBelongs(db, stored.taskID, conversationID.value);
        RescanKeepsKeys(db, id, Scan(Some(now), conversationID, if keep then stored.queueID else None,
                                     if keep then stored.taskID else None));
      }
    case NewVulnerability(id, row) =>
      RefreshedKeepsKeys(db, db.vulnerabilities[id := Completed(db, row)], Single(row.conversationID));
    case PutVulnerability(id, row) =>
      RefreshedKeepsKeys(db, Overwritten(db, id, row), OldConversation(db, id) + Single(row.conversationID));
    case DropVulnerability(id) => RefreshedKeepsKeys(db, db.vulnerabilities - {id}, OldConversation(db, id));
    case DropVulnerabilities(filter) =>
      RefreshedKeepsKeys(db, db.vulnerabilities - Selected(db, filter), ConversationsOf(db, Selected(db, filter)));
    case _ =>
  }

  /**
   * Starting without assets, after any operations in any order: every asset's cached count, score and level are what
   * computing them anew gives, every row stands under the key of its own fields, and no two rows under the same.
   */
  lemma {:induction false} RunInvariant(r: NetRules, db: Db, ops: seq<Op>)
    requires db.assets == map[]
    ensures Coherent(Run(r, db, ops)) && Deduplicated(Run(r, db, ops).assets)
    ensures Sound(Run(r, db, ops))
  {
    if ops != [] {
      hide Coherent, LinksNeedScan, Deduplicated, Apply;
      var before := Run(r, db, ops[..|ops| - 1]);
      RunInvariant(r, db, ops[..|ops| - 1]);
      ApplySound(r, before, ops[|ops| - 1]);
      ApplyDeduplicated(r, before, ops[|ops| - 1]);
    }
  }

  // ---------------------------------------------------------------- the operations

  class Store {
    var assets: map<ID, AssetRow>
    var vulnerabilities: map<ID, VulnerabilityRow>
    var tasks: map<ID, TaskRow>
    var answeredAt: map<ID, int>
    var conversations: map<ID, Option<ID>>
    var projects: map<ID, Option<ID>>
    var users: set<ID>
    var grants: set<Grant>
    const rules: NetRules

    function Snapshot(): Db
      reads this
    {
      Db(assets, vulnerabilities, tasks, answeredAt, conversations, projects, users, grants)
    }

    /** What the asset table itself enforces. */
    ghost predicate Valid()
      reads this
    {
      UniqueKeys(assets)
    }

    /** A store without assets and vulnerabilities, among given tasks, conversations, projects and users. */
    constructor (rules: NetRules, tasks: map<ID, TaskRow>, conversations: map<ID, Option<ID>>,
                 projects: map<ID, Option<ID>>,
                 users: set<ID>)
      ensures Valid() && this.rules == rules
      ensures Snapshot() == Db(map[], map[], tasks, map[], conversations, projects, users, {})
    {
      this.rules := rules;
      this.tasks, this.conversations, this.projects, this.users := tasks, conversations, projects, users;
      assets, vulnerabilities, answeredAt, grants := map[], map[], map[], {};
    }

    // -------------------------------------------------------------- refreshing

    method RefreshAssetRiskCache(id: ID)
      modifies this`assets
      ensures Snapshot() == Refresh(old(Snapshot()), id)
      ensures old(Valid()) ==> Valid()
    {
      if id !in assets {
        return;
      }
      var scan := assets[id].scan;
      var count := |Matching(Snapshot(), scan)|;
      var score := RiskCache.Score(Snapshot(), scan);
      var level := LevelFromScore(score, LastScan(Snapshot(), scan).Some?);
      assets := assets[id := assets[id].(cache := Cache(count, score, level))];
    }

    /** The conversations named, and the assets that the query finds for them. */
    method AssetIDsForVulnerabilityConversations(conversationIDs: seq<Option<ID>>) returns (ids: set<ID>)
      ensures ids == AffectedAssets(Snapshot(), Named(conversationIDs))
    {
      var cleaned: seq<ID>, seen: set<ID> := [], {};
      for n := 0 to |conversationIDs|
        invariant seen == Named(conversationIDs[..n])
        invariant forall id :: id in cleaned <==> id in seen
      {
        assert conversationIDs[..n + 1] == conversationIDs[..n] + [conversationIDs[n]];
        NamedAppend(conversationIDs[..n], conversationIDs[n]);
        if conversationIDs[n].Some? && conversationIDs[n].value !in seen {
          seen := seen + {conversationIDs[n].value};
          cleaned := cleaned + [conversationIDs[n].value];
        }
      }
      assert conversationIDs[..|conversationIDs|] == conversationIDs;
      if cleaned == [] {
        return {};
      }
      ids := set id | id in assets && Concerns(tasks, assets[id].scan, set c | c in cleaned);
      assert (set c | c in cleaned) == seen;
    }

    method RefreshAssets(ids: set<ID>)
      modifies this`assets
      ensures Snapshot() == Refreshed(old(Snapshot()), ids)
      ensures old(Valid()) ==> Valid()
    {
      hide Refresh, Refreshed;
      ghost var before := Snapshot();
      var todo := ids;
      NothingRefreshed(before);
      assert ids - ids == {};
      while todo != {}
        invariant todo <= ids && Snapshot() == Refreshed(before, ids - todo)
        invariant old(Valid()) ==> Valid()
      {
        var id :| id in todo;
        RefreshAssetRiskCache(id);
        RefreshOneMore(before, ids - todo, id);
        assert ids - (todo - {id}) == (ids - todo) + {id};
        todo := todo - {id};
      }
      assert ids - {} == ids;
    }

    method RefreshAssetRiskCacheForConversations(conversationIDs: seq<Option<ID>>)
      modifies this`assets
      ensures Snapshot() == Refreshed(old(Snapshot()), AffectedAssets(old(Snapshot()), Named(conversationIDs)))
      ensures old(Valid()) ==> Valid()
    {
      var ids := AssetIDsForVulnerabilityConversations(conversationIDs);
      RefreshAssets(ids);
    }

    method RefreshAllAssetRiskCache()
      modifies this`assets
      ensures Snapshot() == Refreshed(old(Snapshot()), old(assets).Keys)
      ensures old(Valid()) ==> Valid()
    {
      RefreshAssets(assets.Keys);
    }

    // -------------------------------------------------------------- vulnerabilities

    method CreateVulnerability(id: ID, v: VulnerabilityRow) returns (ok: bool)
      modifies this`assets, this`vulnerabilities
      ensures ok == RiskCache.CreateVulnerability(old(Snapshot()), id, v).Some?
      ensures Snapshot() == OrSame(old(Snapshot()), RiskCache.CreateVulnerability(old(Snapshot()), id, v))
      ensures old(Valid()) ==> Valid()
    {
      var row := v;
      if row.status == "" {
        row := row.(status := "open");
      }
      if row.projectID.None? && row.conversationID.Some? && row.conversationID.value in conversations {
        row := row.(projectID := conversations[row.conversationID.value]);
      }
      if id in vulnerabilities || (row.conversationID.Some? && row.conversationID.value !in conversations) {
        return false;
      }
      vulnerabilities := vulnerabilities[id := row];
      NamedOne(row.conversationID);
      RefreshAssetRiskCacheForConversations([row.conversationID]);
      ok := true;
    }

    method UpdateVulnerability(id: ID, v: VulnerabilityRow)
      modifies this`assets, this`vulnerabilities
      ensures Snapshot() == RiskCache.UpdateVulnerability(old(Snapshot()), id, v)
      ensures old(Valid()) ==> Valid()
    {
      var oldConversationID := None;
      if id in vulnerabilities {
        oldConversationID := vulnerabilities[id].conversationID;
        vulnerabilities := vulnerabilities[id := v.(conversationID := oldConversationID)];
      }
      NamedTwo(oldConversationID, v.conversationID);
      RefreshAssetRiskCacheForConversations([oldConversationID, v.conversationID]);
    }

    method DeleteVulnerability(id: ID)
      modifies this`assets, this`vulnerabilities
      ensures Snapshot() == RiskCache.DeleteVulnerability(old(Snapshot()), id)
      ensures old(Valid()) ==> Valid()
    {
      var conversationID := if id in vulnerabilities then vulnerabilities[id].conversationID else None;
      vulnerabilities := vulnerabilities - {id};
      NamedOne(conversationID);
      RefreshAssetRiskCacheForConversations([conversationID]);
    }

    /** The conversations of some rows, collected row by row. */
    method CollectVulnerabilityConversationIDs(ids: set<ID>) returns (affected: seq<Option<ID>>)
      requires ids <= vulnerabilities.Keys
      ensures Named(affected) == ConversationsOf(Snapshot(), ids)
    {
      affected := [];
      var todo := ids;
      while todo != {}
        invariant todo <= ids && Named(affected) == ConversationsOf(Snapshot(), ids - todo)
      {
        var v :| v in todo;
        NamedAppend(affected, vulnerabilities[v].conversationID);
        ConversationsOfOneMore(Snapshot(), ids - todo, v);
        assert ids - (todo - {v}) == (ids - todo) + {v};
        affected := affected + [vulnerabilities[v].conversationID];
        todo := todo - {v};
      }
      assert ids - {} == ids;
    }

    method DeleteVulnerabilitiesByFilter(filter: (ID, VulnerabilityRow) -> bool) returns (deleted: nat)
      modifies this`assets, this`vulnerabilities
      ensures Snapshot() == DeleteVulnerabilities(old(Snapshot()), filter)
      ensures deleted == |Selected(old(Snapshot()), filter)|
      ensures old(Valid()) ==> Valid()
    {
      var gone := Selected(Snapshot(), filter);
      var affected := CollectVulnerabilityConversationIDs(gone);
      vulnerabilities := vulnerabilities - gone;
      RefreshAssetRiskCacheForConversations(affected);
      deleted := |gone|;
    }

    // -------------------------------------------------------------- scans

    method MarkAssetScanned(id: ID, conversationID: Option<ID>, queueID: Option<ID>, taskID: Option<ID>, now: int,
                            access: ListAccess) returns (ok: bool)
      modifies this`assets
      ensures ok == Visible(old(Snapshot()), access, id)
      ensures Snapshot() == OrSame(old(Snapshot()),
                                   RiskCache.MarkAssetScanned(old(Snapshot()), id, conversationID, queueID, taskID,
                                                              now, access))
      ensures old(Valid()) ==> Valid()
    {
      if !Visible(Snapshot(), access, id) {
        return false;
      }
      assets := assets[id := assets[id].(scan := Scan(Some(now), conversationID, queueID, taskID))];
      RefreshAssetRiskCache(id);
      ok := true;
    }

    method CompleteAssetScan(id: ID, conversationID: Option<ID>, now: int, access: ListAccess) returns (ok: bool)
      modifies this`assets
      ensures ok == (conversationID.Some? && Visible(old(Snapshot()), access, id))
      ensures Snapshot() == OrSame(old(Snapshot()),
                                   RiskCache.CompleteAssetScan(old(Snapshot()), id, conversationID, now, access))
      ensures old(Valid()) ==> Valid()
    {
      if conversationID.None? || !Visible(Snapshot(), access, id) {
        return false;
      }
      var queueID, taskID := assets[id].scan.queueID, assets[id].scan.taskID;
      if !TaskBelongs(Snapshot(), taskID, conversationID.value) {
        queueID, taskID := None, None;
      }
      assets := assets[id := assets[id].(scan := Scan(Some(now), conversationID, queueID, taskID))];
      RefreshAssetRiskCache(id);
      ok := true;
    }

    // -------------------------------------------------------------- assets

    /** The row of the key gets the non-empty fields, unless it is somebody else's. */
    method OverwriteAsset(b: Batch, d: Details, id: ID, importer: Importer) returns (o: Outcome)
      requires id in b.db.assets
      ensures o == Overwrite(b, d, id, importer)
    {
      hide Merge, Assign;
      var tx, row := b.db, b.db.assets[id];
      if !importer.global && row.owner.Some? && row.owner != importer.owner {
        return Going(b.(skipped := b.skipped + 1));
      }
      if !ProjectExists(tx, d.projectID) {
        return Stopped(b, Refused);
      }
      var newGrants := tx.grants;
      if row.owner.None? || row.owner == importer.owner {
        newGrants := Assign(tx, importer.owner, id);
      }
      tx := tx.(assets := tx.assets[id := row.(details := Merge(row.details, d))], grants := newGrants);
      o := Going(b.(db := tx, updated := b.updated + 1));
    }

    method InsertAsset(b: Batch, d: Details, id: ID, owner: Option<ID>) returns (o: Outcome)
      requires d.port >= 0
      ensures o == Insert(b, d, id, owner)
    {
      hide Key, Assign;
      var tx := b.db;
      if id in tx.assets || !ProjectExists(tx, d.projectID) {
        return Stopped(b, Refused);
      }
      tx := tx.(assets := tx.assets[id := AssetRow(d, Key(d), owner, NEVER, NO_RISK)], grants := Assign(tx, owner, id));
      o := Going(b.(db := tx, created := b.created + 1));
    }

    method UpsertChecked(b: Batch, d: Details, newID: ID, importer: Importer) returns (o: Outcome)
      requires UniqueKeys(b.db.assets) && d.port >= 0
      ensures o == UpsertValid(b, d, newID, importer)
    {
      hide UniqueKeys, Key, Insert, Overwrite;
      var key := Key(d);
      if key == "|0|" {
        return Going(b.(skipped := b.skipped + 1));
      }
      if existing :| existing in b.db.assets && b.db.assets[existing].key == key {
        FoundKey(b.db.assets, existing);
        o := OverwriteAsset(b, d, existing, importer);
      } else {
        o := InsertAsset(b, d, newID, importer.owner);
      }
    }

    /** One entry of a batch, inside the transaction. */
    method UpsertAsset(b: Batch, input: Input, importer: Importer) returns (o: Outcome)
      requires UniqueKeys(b.db.assets)
      ensures o == Upsert(rules, b, input, importer)
    {
      hide UniqueKeys, Normalize, Validate, UpsertValid;
      if input.details.None? {
        return Going(b.(skipped := b.skipped + 1));
      }
      var asset := NormalizeAsset(rules, input.details.value);
      var checked := Validate(rules, asset);
      if checked.Invalid? {
        return Stopped(b, InvalidAsset(checked.error));
      }
      o := UpsertChecked(b, checked.details, input.newID, importer);
    }

    /** Imports a batch in one transaction; the counters come back even if nothing is kept. */
    method UpsertAssets(inputs: seq<Input>, importer: Importer)
      returns (created: nat, updated: nat, skipped: nat, error: Option<StoreError>)
      requires Valid()
      modifies this`assets, this`grants
      ensures Valid() && Snapshot() == Imported(rules, old(Snapshot()), inputs, importer)
      ensures var o := UpsertAll(rules, old(Snapshot()), inputs, importer);
              && created == o.batch.created && updated == o.batch.updated && skipped == o.batch.skipped
              && error == if o.Stopped? then Some(o.error) else None
      ensures error.None? ==> created + updated + skipped == |inputs|
      ensures error.Some? ==> Snapshot() == old(Snapshot())
    {
      CountersAddUp(rules, Snapshot(), inputs, importer);
      hide Upsert, UniqueKeys;
      var b := Batch(Snapshot(), 0, 0, 0);
      for n := 0 to |inputs|
        invariant Snapshot() == old(Snapshot()) && UniqueKeys(b.db.assets)
        invariant UpsertAll(rules, old(Snapshot()), inputs[..n], importer) == Going(b)
        invariant RestKept(old(Snapshot()), b.db)
      {
        assert inputs[..n + 1][..n] == inputs[..n];
        var o := UpsertAsset(b, inputs[n], importer);
        if o.Stopped? {
          StopStays(rules, Snapshot(), inputs, importer, n + 1);
          return o.batch.created, o.batch.updated, o.batch.skipped, Some(o.error);
        }
        UpsertRestKept(rules, b, inputs[n], importer);
        UpsertUniqueKeys(rules, b, inputs[n], importer);
        b := o.batch;
      }
      assert inputs[..|inputs|] == inputs;
      assets, grants := b.db.assets, b.db.grants;
      return b.created, b.updated, b.skipped, None;
    }

    method UpdateAsset(id: ID, input: Details, access: ListAccess) returns (error: Option<StoreError>)
      requires Valid()
      modifies this`assets
      ensures Valid()
      ensures Snapshot() == Written(old(Snapshot()),
                                    AssetImport.UpdateAsset(rules, old(Snapshot()), id, input, access))
      ensures error == ErrorOf(AssetImport.UpdateAsset(rules, old(Snapshot()), id, input, access))
    {
      var asset := NormalizeAsset(rules, input);
      var checked := Validate(rules, asset);
      if checked.Invalid? {
        return Some(InvalidAsset(checked.error));
      }
      var d := checked.details;
      hide Normalize, Validate, Key, AssetShown, UniqueKeys;
      var key := Key(d);
      if key == "|0|" {
        return Some(NothingToDo);
      }
      if !Visible(Snapshot(), access, id) {
        return Some(NotFound);
      }
      if other :| other in assets && other != id && assets[other].key == key {
        return Some(Refused);
      }
      if !ProjectExists(Snapshot(), d.projectID) {
        return Some(Refused);
      }
      FreeKeyUnique(assets, id, assets[id].(details := d, key := key));
      assets := assets[id := assets[id].(details := d, key := key)];
      error := None;
    }

    method DeleteAssets(ids: seq<ID>, access: ListAccess) returns (deleted: nat, error: Option<StoreError>)
      requires Valid()
      modifies this`assets
      ensures Valid() && Snapshot() == Written(old(Snapshot()), AssetImport.DeleteAssets(old(Snapshot()), ids, access))
      ensures error == ErrorOf(AssetImport.DeleteAssets(old(Snapshot()), ids, access))
      ensures error.None? ==> deleted == |old(assets)| - |assets|
    {
      var unique := NormalizeAssetIDs(ids);
      if unique == [] {
        return 0, Some(NothingToDo);
      }
      var accessible := |set id | id in unique && Visible(Snapshot(), access, id)|;
      DistinctSound(ids);
      CountVisible(Snapshot(), access, unique);
      if accessible != |unique| {
        return 0, Some(NotPermitted);
      }
      RemovedCount(Snapshot(), unique);
      assets := map id | id in assets && id !in unique :: assets[id];
      return |unique|, None;
    }

    method MergeAssets(primary: Option<ID>, input: Details, duplicateIDs: seq<ID>, writeAccess: ListAccess,
                       deleteAccess: ListAccess) returns (merged: nat, error: Option<StoreError>)
      requires Valid()
      modifies this`assets
      ensures Valid()
      ensures Snapshot() == Written(old(Snapshot()),
                                    AssetImport.MergeAssets(rules, old(Snapshot()), primary, input, duplicateIDs,
                                                                            writeAccess, deleteAccess))
      ensures error == ErrorOf(AssetImport.MergeAssets(rules, old(Snapshot()), primary, input, duplicateIDs,
                                                       writeAccess, deleteAccess))
    {
      if primary.None? {
        return 0, Some(NothingToDo);
      }
      var asset := NormalizeAsset(rules, input);
      var checked := Validate(rules, asset);
      if checked.Invalid? {
        return 0, Some(InvalidAsset(checked.error));
      }
      var d := checked.details;
      hide Normalize, Validate, Key, Distinct, Without, AssetShown;
      var duplicates := NormalizeAssetIDs(duplicateIDs);
      var filtered := WithoutID(duplicates, primary.value);
      if filtered == [] {
        return 0, Some(NothingToDo);
      }
      if !Visible(Snapshot(), writeAccess, primary.value) || !AllVisible(Snapshot(), deleteAccess, filtered) {
        return 0, Some(NotPermitted);
      }
      WithoutSound(duplicates, primary.value);
      var tx := Remove(Snapshot(), filtered);
      if other :| other in tx.assets && other != primary.value && tx.assets[other].key == Key(d) {
        return 0, Some(Refused);
      }
      if !ProjectExists(tx, d.projectID) {
        return 0, Some(Refused);
      }
      FreeKeyUnique(tx.assets, primary.value, tx.assets[primary.value].(details := d, key := Key(d)));
      assets := tx.assets[primary.value := tx.assets[primary.value].(details := d, key := Key(d))];
      return |filtered|, None;
    }
  }

  function ErrorOf(w: Write): Option<StoreError> {
    if w.Done? then None else Some(w.error)
  }

  method NormalizeAssetIDs(ids: seq<ID>) returns (unique: seq<ID>)
    ensures unique == Distinct(ids)
  {
    unique := [];
    var seen := {};
    for n := 0 to |ids|
      invariant unique == Distinct(ids[..n])
      invariant forall id :: id in unique <==> id in seen
    {
      assert ids[..n + 1][..n] == ids[..n];
      if ids[n] !in seen {
        seen := seen + {ids[n]};
        unique := unique + [ids[n]];
      }
    }
    assert ids[..|ids|] == ids;
  }

  method WithoutID(ids: seq<ID>, id: ID) returns (filtered: seq<ID>)
    ensures filtered == Without(ids, id)
  {
    filtered := [];
    for n := 0 to |ids|
      invariant filtered == Without(ids[..n], id)
    {
      assert ids[..n + 1][..n] == ids[..n];
      if ids[n] != id {
        filtered := filtered + [ids[n]];
      }
    }
    assert ids[..|ids|] == ids;
  }

  /** A batch writes nothing but assets and assignments. */
  ghost predicate RestKept(before: Db, after: Db) {
    after == before.(assets := after.assets, grants := after.grants)
  }

  lemma UpsertRestKept(r: NetRules, b: Batch, input: Input, importer: Importer)
    ensures RestKept(b.db, Upsert(r, b, input, importer).batch.db)
  {
    hide Normalize, Validate, Key, Merge;
  }

  /** Entries behind the one at which a batch stops are not looked at. */
  lemma {:induction false} StopStays(r: NetRules, db: Db, inputs: seq<Input>, importer: Importer, n: nat)
    requires n <= |inputs| && UpsertAll(r, db, inputs[..n], importer).Stopped?
    ensures UpsertAll(r, db, inputs, importer) == UpsertAll(r, db, inputs[..n], importer)
  {
    hide Upsert;
    if n == |inputs| {
      assert inputs[..n] == inputs;
    } else {
      assert inputs[..|inputs| - 1][..n] == inputs[..n];
      StopStays(r, db, inputs[..|inputs| - 1], importer, n);
    }
  }

  /** Counting the visible rows among distinct IDs tells whether all of them are. */
  lemma CountVisible(db: Db, access: ListAccess, ids: seq<ID>)
    requires forall i, j | 0 <= i < j < |ids| :: ids[i] != ids[j]
    ensures |set id | id in ids && Visible(db, access, id)| == |ids| <==> AllVisible(db, access, ids)
  {
    var all, visible := (set id | id in ids), (set id | id in ids && Visible(db, access, id));
    DistinctCount(ids);
    if |visible| == |ids| {
      SubsetOfSameSize(visible, all);
      forall i | 0 <= i < |ids| ensures Visible(db, access, ids[i]) {
        assert ids[i] in all;
      }
    } else {
      assert AllVisible(db, access, ids) ==> visible == all;
    }
  }

  lemma {:induction false} DistinctCount(ids: seq<ID>)
    requires forall i, j | 0 <= i < j < |ids| :: ids[i] != ids[j]
    ensures |set id | id in ids| == |ids|
  {
    if ids != [] {
      var n := |ids| - 1;
      DistinctCount(ids[..n]);
      assert (set id | id in ids) == (set id | id in ids[..n]) + {ids[n]};
    }
  }

  lemma SubsetOfSameSize(a: set<ID>, b: set<ID>)
    requires a <= b && |a| == |b|
    ensures a == b
  {
    assert |b - a| == 0;
  }

  lemma RemovedCount(db: Db, ids: seq<ID>)
    requires forall i, j | 0 <= i < j < |ids| :: ids[i] != ids[j]
    requires forall i | 0 <= i < |ids| :: ids[i] in db.assets
    ensures |Remove(db, ids).assets| == |db.assets| - |ids|
  {
    var gone, left := (set id | id in ids), Remove(db, ids).assets.Keys;
    DistinctCount(ids);
    assert left + gone == db.assets.Keys && left * gone == {};
    assert |left| == |Remove(db, ids).assets| && |db.assets.Keys| == |db.assets|;
  }

  /** The conversations a list names; blank entries name none. */
  function Named(ids: seq<Option<ID>>): set<ID> {
    set i | 0 <= i < |ids| && ids[i].Some? :: ids[i].value
  }

  lemma NamedAppend(ids: seq<Option<ID>>, id: Option<ID>)
    ensures Named(ids + [id]) == Named(ids) + Single(id)
  {
    forall x ensures x in Named(ids + [id]) <==> x in Named(ids) || x in Single(id) {
      if x in Named(ids) {
        var i :| 0 <= i < |ids| && ids[i] == Some(x);
        assert (ids + [id])[i] == Some(x);
      }
      if x in Single(id) {
        assert (ids + [id])[|ids|] == Some(x);
      }
    }
  }

  lemma NamedOne(id: Option<ID>)
    ensures Named([id]) == Single(id)
  {
    NamedAppend([], id);
    assert [] + [id] == [id];
  }

  lemma NamedTwo(a: Option<ID>, b: Option<ID>)
    ensures Named([a, b]) == Single(a) + Single(b)
  {
    NamedOne(a);
    NamedAppend([a], b);
    assert [a] + [b] == [a, b];
  }

  lemma ConversationsOfOneMore(db: Db, ids: set<ID>, v: ID)
    requires v in db.vulnerabilities
    ensures ConversationsOf(db, ids + {v}) == ConversationsOf(db, ids) + Single(db.vulnerabilities[v].conversationID)
  {
  }

  lemma NothingRefreshed(db: Db)
    ensures forall ids: set<ID> :: ids == {} ==> Refreshed(db, ids) == db
  {
    assert Refreshed(db, {}).assets == db.assets;
  }

  lemma RefreshOneMore(db: Db, ids: set<ID>, id: ID)
    ensures Refresh(Refreshed(db, ids), id) == Refreshed(db, ids + {id})
  {
    var a, b := Refresh(Refreshed(db, ids), id), Refreshed(db, ids + {id});
    if id in db.assets {
      SameFigures(Refreshed(db, ids), db, db.assets[id].scan);
    }
    hide Computed;
    assert a.assets == b.assets;
  }
}
