/**
 * Writing assets: importing a batch, updating, merging and deleting. One asset is one target, port and protocol,
 * whatever fields are filled in later.
 */
module AssetImport {
  import opened Access
  import opened AssetKeys
  import opened Base
  import opened RiskCache

  /** One entry of a batch, and the ID a new row for it gets. */
  datatype Input = Input(details: Option<Details>, newID: ID)

  datatype StoreError = InvalidAsset(error: AssetError) | Refused | NotFound | NothingToDo | NotPermitted

  /** The store and the three counters of an import. */
  datatype Batch = Batch(db: Db, created: nat, updated: nat, skipped: nat)

  datatype Outcome = Going(batch: Batch) | Stopped(batch: Batch, error: StoreError)

  /** Whose import it is: the owner of new rows, and whether rows of other owners may be changed. */
  datatype Importer = Importer(owner: Option<ID>, global: bool)

  // ---------------------------------------------------------------- specification

  /** The row with a key; at most one has it. */
  ghost function FindKey(assets: map<ID, AssetRow>, key: string): Option<ID> {
    if id :| id in assets && assets[id].key == key then Some(id) else None
  }

  /** The database refuses a project ID that no project has. */
  predicate ProjectExists(db: Db, projectID: Option<ID>) {
    projectID.None? || projectID.value in db.projects
  }

  /** An owner who is a user gets the asset assigned. */
  function Assign(db: Db, owner: Option<ID>, id: ID): set<Grant> {
    if owner.Some? && owner.value in db.users then db.grants + {Grant(owner.value, Asset, id)} else db.grants
  }

  function Insert(b: Batch, d: Details, id: ID, owner: Option<ID>): Outcome
    requires d.port >= 0
  {
    if id in b.db.assets || !ProjectExists(b.db, d.projectID) then Stopped(b, Refused)
    else
      Going(b.(created := b.created + 1,
               db := b.db.(assets := b.db.assets[id := AssetRow(d, Key(d), owner, NEVER, NO_RISK)],
                           grants := Assign(b.db, owner, id))))
  }

  predicate Foreign(importer: Importer, owner: Option<ID>) {
    !importer.global && owner.Some? && owner != importer.owner
  }

  function Overwrite(b: Batch, d: Details, id: ID, importer: Importer): Outcome
    requires id in b.db.assets
  {
    var row := b.db.assets[id];
    if Foreign(importer, row.owner) then Going(b.(skipped := b.skipped + 1))
    else if !ProjectExists(b.db, d.projectID) then Stopped(b, Refused)
    else
      var grants := if row.owner.None? || row.owner == importer.owner then Assign(b.db, importer.owner, id)
                    else b.db.grants;
      Going(b.(updated := b.updated + 1,
               db := b.db.(assets := b.db.assets[id := row.(details := Merge(row.details, d))], grants := grants)))
  }

  ghost function Upsert(r: NetRules, b: Batch, input: Input, importer: Importer): Outcome {
    if input.details.None? then Going(b.(skipped := b.skipped + 1))
    else
      match Validate(r, Normalize(r, input.details.value))
      case Invalid(error) => Stopped(b, InvalidAsset(error))
      case Valid(d) => UpsertValid(b, d, input.newID, importer)
  }

  ghost function UpsertValid(b: Batch, d: Details, newID: ID, importer: Importer): Outcome
    requires d.port >= 0
  {
    if Key(d) == "|0|" then Going(b.(skipped := b.skipped + 1))
    else
      match FindKey(b.db.assets, Key(d))
      case None => Insert(b, d, newID, importer.owner)
      case Some(id) => Overwrite(b, d, id, importer)
  }

  ghost function UpsertAll(r: NetRules, db: Db, inputs: seq<Input>, importer: Importer): Outcome {
    if inputs == [] then Going(Batch(db, 0, 0, 0))
    else
      var n := |inputs| - 1;
      match UpsertAll(r, db, inputs[..n], importer)
      case Going(b) => Upsert(r, b, inputs[n], importer)
      case Stopped(b, e) => Stopped(b, e)
  }

  // ---------------------------------------------------------------- the keys stay right

  /** Each row is a checked asset under the key of its own fields. */
  ghost predicate Keyed(assets: map<ID, AssetRow>) {
    forall id | id in assets :: Storable(assets[id].details) && assets[id].key == Key(assets[id].details)
  }

  /** The table allows no key twice. */
  ghost predicate UniqueKeys(assets: map<ID, AssetRow>) {
    forall i, j | i in assets && j in assets && assets[i].key == assets[j].key :: i == j
  }

  ghost predicate Deduplicated(assets: map<ID, AssetRow>) {
    Keyed(assets) && UniqueKeys(assets)
  }

  /** So no two rows are the same target, port and protocol. */
  lemma NoDuplicates(assets: map<ID, AssetRow>, i: ID, j: ID)
    requires Deduplicated(assets) && i in assets && j in assets && i != j
    ensures var a, b := assets[i].details, assets[j].details;
            !(Target(a) == Target(b) && a.port == b.port && a.protocol == b.protocol)
  {
    KeyInjective(assets[i].details, assets[j].details);
  }

  lemma FoundKey(assets: map<ID, AssetRow>, id: ID)
    requires UniqueKeys(assets) && id in assets
    ensures FindKey(assets, assets[id].key) == Some(id)
  {
  }

  /** One entry of a batch keeps every row under the key of its fields, although it overwrites only some of them. */
  lemma UpsertDeduplicated(r: NetRules, b: Batch, input: Input, importer: Importer)
    requires Deduplicated(b.db.assets)
    ensures Deduplicated(Upsert(r, b, input, importer).batch.db.assets)
  {
    if input.details.Some? && Validate(r, Normalize(r, input.details.value)).Valid? {
      hide Storable, Normalize, Validate, UpsertValid, Deduplicated;
      ValidIsStorable(r, Normalize(r, input.details.value));
      UpsertValidDeduplicated(b, Validate(r, Normalize(r, input.details.value)).details, input.newID, importer);
    }
  }

  lemma InsertDeduplicated(assets: map<ID, AssetRow>, id: ID, row: AssetRow)
    requires Deduplicated(assets) && FindKey(assets, row.key).None?
    requires Storable(row.details) && row.key == Key(row.details) && id !in assets
    ensures Deduplicated(assets[id := row])
  {
    hide Storable, Key;
  }

  lemma OverwriteDeduplicated(assets: map<ID, AssetRow>, id: ID, d: Details)
    requires Deduplicated(assets) && Storable(d) && id in assets && assets[id].key == Key(d)
    ensures Deduplicated(assets[id := assets[id].(details := Merge(assets[id].details, d))])
  {
    MergeKeepsKey(assets[id].details, d);
    hide Storable, Key, Merge;
  }

  lemma UpsertValidDeduplicated(b: Batch, d: Details, newID: ID, importer: Importer)
    requires Deduplicated(b.db.assets) && Storable(d)
    ensures Deduplicated(UpsertValid(b, d, newID, importer).batch.db.assets)
  {
    assert d.port >= 0;
    hide Storable, Key, Merge, Deduplicated;
    match FindKey(b.db.assets, Key(d))
    case None =>
      if newID !in b.db.assets {
        InsertDeduplicated(b.db.assets, newID, AssetRow(d, Key(d), importer.owner, NEVER, NO_RISK));
      }
    case Some(id) => OverwriteDeduplicated(b.db.assets, id, d);
  }

  lemma {:induction false} UpsertAllDeduplicated(r: NetRules, db: Db, inputs: seq<Input>, importer: Importer)
    requires Deduplicated(db.assets)
    ensures Deduplicated(UpsertAll(r, db, inputs, importer).batch.db.assets)
  {
    if inputs != [] {
      hide Deduplicated, Upsert;
      var n := |inputs| - 1;
      UpsertAllDeduplicated(r, db, inputs[..n], importer);
      if UpsertAll(r, db, inputs[..n], importer).Going? {
        UpsertDeduplicated(r, UpsertAll(r, db, inputs[..n], importer).batch, inputs[n], importer);
      }
    }
  }

  /** An entry counts once, or stops the batch as it is. */
  lemma UpsertCounts(r: NetRules, b: Batch, input: Input, importer: Importer)
    ensures var o := Upsert(r, b, input, importer);
            if o.Stopped? then o.batch == b
            else Total(o.batch) == Total(b) + 1
  {
    hide Normalize, Validate, Key, Merge;
  }

  function Total(b: Batch): nat {
    b.created + b.updated + b.skipped
  }

  /** A batch that goes through counts every entry; one that stops counts those in front of where it stopped. */
  lemma {:induction false} CountersAddUp(r: NetRules, db: Db, inputs: seq<Input>, importer: Importer)
    ensures var o := UpsertAll(r, db, inputs, importer);
            if o.Going? then Total(o.batch) == |inputs| else Total(o.batch) < |inputs|
  {
    if inputs != [] {
      hide Upsert;
      var n := |inputs| - 1;
      CountersAddUp(r, db, inputs[..n], importer);
      var o := UpsertAll(r, db, inputs[..n], importer);
      if o.Going? {
        UpsertCounts(r, o.batch, inputs[n], importer);
      }
    }
  }

  /** A batch stops at the entry behind the counted ones, the one whose number the error names. */
  lemma {:induction false} StopsBehindCounted(r: NetRules, db: Db, inputs: seq<Input>, importer: Importer)
    requires UpsertAll(r, db, inputs, importer).Stopped?
    ensures var o := UpsertAll(r, db, inputs, importer);
            var n := Total(o.batch);
            && n < |inputs| && UpsertAll(r, db, inputs[..n], importer) == Going(o.batch)
            && Upsert(r, o.batch, inputs[n], importer) == o
  {
    hide Upsert, Total;
    var n := |inputs| - 1;
    var before := UpsertAll(r, db, inputs[..n], importer);
    if before.Stopped? {
      StopsBehindCounted(r, db, inputs[..n], importer);
      assert inputs[..n][..Total(before.batch)] == inputs[..Total(before.batch)];
    } else {
      CountersAddUp(r, db, inputs[..n], importer);
      UpsertCounts(r, before.batch, inputs[n], importer);
    }
  }

  lemma UpsertUniqueKeys(r: NetRules, b: Batch, input: Input, importer: Importer)
    requires UniqueKeys(b.db.assets)
    ensures UniqueKeys(Upsert(r, b, input, importer).batch.db.assets)
  {
    hide Normalize, Validate, UniqueKeys, UpsertValid;
    if input.details.Some? && Validate(r, Normalize(r, input.details.value)).Valid? {
      UpsertValidUniqueKeys(b, Validate(r, Normalize(r, input.details.value)).details, input.newID, importer);
    }
  }

  lemma UpsertValidUniqueKeys(b: Batch, d: Details, newID: ID, importer: Importer)
    requires UniqueKeys(b.db.assets) && d.port >= 0
    ensures UniqueKeys(UpsertValid(b, d, newID, importer).batch.db.assets)
  {
    hide Key, Merge, Assign, UniqueKeys;
    match FindKey(b.db.assets, Key(d))
    case None => NewKeyUnique(b.db.assets, newID, AssetRow(d, Key(d), importer.owner, NEVER, NO_RISK));
    case Some(id) => SameKeyUnique(b.db.assets, id, b.db.assets[id].(details := Merge(b.db.assets[id].details, d)));
  }

  lemma NewKeyUnique(assets: map<ID, AssetRow>, id: ID, row: AssetRow)
    requires UniqueKeys(assets) && FindKey(assets, row.key).None?
    ensures id !in assets ==> UniqueKeys(assets[id := row])
  {
  }

  lemma SameKeyUnique(assets: map<ID, AssetRow>, id: ID, row: AssetRow)
    requires UniqueKeys(assets) && id in assets && assets[id].key == row.key
    ensures UniqueKeys(assets[id := row])
  {
  }

  // ---------------------------------------------------------------- what a batch stores and what it leaves alone

  /** The key of an entry that passes the checks. */
  function KeyOf(r: NetRules, input: Input): Option<string> {
    if input.details.None? then None
    else
      match Validate(r, Normalize(r, input.details.value))
      case Invalid(_) => None
      case Valid(d) => Some(Key(d))
  }

  ghost predicate HasKey(assets: map<ID, AssetRow>, key: string) {
    exists id :: id in assets && assets[id].key == key
  }

  /** No row goes, and no row changes its key, its owner, its scan or its figures. */
  ghost predicate RowsKept(before: map<ID, AssetRow>, after: map<ID, AssetRow>) {
    forall id | id in before ::
      && id in after && after[id].key == before[id].key && after[id].owner == before[id].owner
      && after[id].scan == before[id].scan && after[id].cache == before[id].cache
  }

  /** One entry adds a row for its key or changes the row of its key, and that row only if it may. */
  lemma UpsertRow(r: NetRules, b: Batch, input: Input, importer: Importer, id: ID)
    requires id in b.db.assets
    ensures var row, after := b.db.assets[id], Upsert(r, b, input, importer).batch.db.assets;
            && RowsKept(b.db.assets, after)
            && (Some(row.key) != KeyOf(r, input) || Foreign(importer, row.owner) ==> after[id] == row)
  {
    hide Normalize, Validate, Key, UpsertValid, RowsKept, Foreign;
    UpsertRowsKept(r, b, input, importer);
    assert id in Upsert(r, b, input, importer).batch.db.assets by {
      KeptThere(b.db.assets, Upsert(r, b, input, importer).batch.db.assets, id);
    }
    if input.details.Some? && Validate(r, Normalize(r, input.details.value)).Valid? {
      UpsertValidRow(b, Validate(r, Normalize(r, input.details.value)).details, input.newID, importer, id);
    }
  }

  lemma UpsertValidRow(b: Batch, d: Details, newID: ID, importer: Importer, id: ID)
    requires d.port >= 0 && id in b.db.assets
    ensures var row, after := b.db.assets[id], UpsertValid(b, d, newID, importer).batch.db.assets;
            id in after && (row.key != Key(d) || Foreign(importer, row.owner) ==> after[id] == row)
  {
    hide Key, Merge, Assign, ProjectExists;
  }

  lemma UpsertValidStores(b: Batch, d: Details, newID: ID, importer: Importer)
    requires d.port >= 0
    ensures UpsertValid(b, d, newID, importer).Going? && Key(d) != "|0|"
            ==> HasKey(UpsertValid(b, d, newID, importer).batch.db.assets, Key(d))
  {
    hide Key, Merge;
    match FindKey(b.db.assets, Key(d))
    case None =>
      assert b.db.assets[newID := AssetRow(d, Key(d), importer.owner, NEVER, NO_RISK)][newID].key == Key(d);
    case Some(id) =>
      assert id in UpsertValid(b, d, newID, importer).batch.db.assets;
  }

  lemma UpsertStoresKey(r: NetRules, b: Batch, input: Input, importer: Importer)
    requires input.details.Some?
    ensures var o, key := Upsert(r, b, input, importer), KeyOf(r, input);
            o.Going? ==> key.Some? && HasKey(o.batch.db.assets, key.value)
  {
    hide Normalize, Validate, Key, Storable, UpsertValid, HasKey;
    if Validate(r, Normalize(r, input.details.value)).Valid? {
      EmptyKeyUnreachable(r, Normalize(r, input.details.value));
      UpsertValidStores(b, Validate(r, Normalize(r, input.details.value)).details, input.newID, importer);
    }
  }

  lemma UpsertRowsKept(r: NetRules, b: Batch, input: Input, importer: Importer)
    ensures RowsKept(b.db.assets, Upsert(r, b, input, importer).batch.db.assets)
  {
    hide Normalize, Validate, UpsertValid;
    if input.details.Some? && Validate(r, Normalize(r, input.details.value)).Valid? {
      UpsertValidRowsKept(b, Validate(r, Normalize(r, input.details.value)).details, input.newID, importer);
    }
  }

  lemma UpsertValidRowsKept(b: Batch, d: Details, newID: ID, importer: Importer)
    requires d.port >= 0
    ensures RowsKept(b.db.assets, UpsertValid(b, d, newID, importer).batch.db.assets)
  {
    hide Key, Merge, Assign, ProjectExists;
  }

  lemma {:induction false} UpsertAllRowsKept(r: NetRules, db: Db, inputs: seq<Input>, importer: Importer)
    ensures RowsKept(db.assets, UpsertAll(r, db, inputs, importer).batch.db.assets)
  {
    if inputs != [] {
      hide Upsert;
      var n := |inputs| - 1;
      UpsertAllRowsKept(r, db, inputs[..n], importer);
      if UpsertAll(r, db, inputs[..n], importer).Going? {
        UpsertRowsKept(r, UpsertAll(r, db, inputs[..n], importer).batch, inputs[n], importer);
      }
    }
  }

  lemma KeyStays(before: map<ID, AssetRow>, after: map<ID, AssetRow>, key: string)
    requires RowsKept(before, after) && HasKey(before, key)
    ensures HasKey(after, key)
  {
    var id :| id in before && before[id].key == key;
    assert after[id].key == key;
  }

  /** After a batch that went through, every entry has passed the checks and is a stored row. */
  lemma {:induction false} UpsertAllStores(r: NetRules, db: Db, inputs: seq<Input>, importer: Importer, i: nat)
    requires UpsertAll(r, db, inputs, importer).Going? && i < |inputs| && inputs[i].details.Some?
    ensures var key := KeyOf(r, inputs[i]);
            key.Some? && HasKey(UpsertAll(r, db, inputs, importer).batch.db.assets, key.value)
  {
    hide Upsert, KeyOf, HasKey, RowsKept;
    var n := |inputs| - 1;
    var before := UpsertAll(r, db, inputs[..n], importer).batch;
    if i == n {
      UpsertStoresKey(r, before, inputs[n], importer);
    } else {
      UpsertAllStores(r, db, inputs[..n], importer, i);
      UpsertRowsKept(r, before, inputs[n], importer);
      KeyStays(before.db.assets, Upsert(r, before, inputs[n], importer).batch.db.assets, KeyOf(r, inputs[i]).value);
    }
  }

  /** A row that no entry names, or that belongs to somebody else, is left exactly as it was. */
  lemma {:induction false} UpsertAllLeaves(r: NetRules, db: Db, inputs: seq<Input>, importer: Importer, id: ID)
    requires id in db.assets
    requires || Foreign(importer, db.assets[id].owner)
             || forall i | 0 <= i < |inputs| :: KeyOf(r, inputs[i]) != Some(db.assets[id].key)
    ensures var after := UpsertAll(r, db, inputs, importer).batch.db.assets;
            id in after && after[id] == db.assets[id]
  {
    if inputs != [] {
      hide Upsert, KeyOf, Foreign, RowsKept;
      var n := |inputs| - 1;
      UpsertAllLeaves(r, db, inputs[..n], importer, id);
      if UpsertAll(r, db, inputs[..n], importer).Going? {
        UpsertRow(r, UpsertAll(r, db, inputs[..n], importer).batch, inputs[n], importer, id);
        assert RowsKept(UpsertAll(r, db, inputs[..n], importer).batch.db.assets,
                        UpsertAll(r, db, inputs, importer).batch.db.assets);
        KeptThere(UpsertAll(r, db, inputs[..n], importer).batch.db.assets,
                  UpsertAll(r, db, inputs, importer).batch.db.assets, id);
      }
    }
  }

  lemma KeptThere(before: map<ID, AssetRow>, after: map<ID, AssetRow>, id: ID)
    requires RowsKept(before, after) && id in before
    ensures id in after
  {
  }

  // ---------------------------------------------------------------- updating, deleting and merging

  datatype Write = Done(db: Db, count: nat) | Failed(error: StoreError)

  /** Another row than `id` has the key. */
  ghost predicate KeyTaken(assets: map<ID, AssetRow>, key: string, id: ID) {
    exists other :: other in assets && other != id && assets[other].key == key
  }

  lemma FreeKeyUnique(assets: map<ID, AssetRow>, id: ID, row: AssetRow)
    requires UniqueKeys(assets) && !KeyTaken(assets, row.key, id)
    ensures UniqueKeys(assets[id := row])
  {
  }

  /** The row gets all fields of the asset and their key; the database refuses a taken key and an unknown project. */
  ghost function Replace(db: Db, id: ID, d: Details, count: nat): Write
    requires d.port >= 0
  {
    if id !in db.assets then Failed(NotFound)
    else if KeyTaken(db.assets, Key(d), id) || !ProjectExists(db, d.projectID) then Failed(Refused)
    else Done(db.(assets := db.assets[id := db.assets[id].(details := d, key := Key(d))]), count)
  }

  ghost function UpdateAsset(r: NetRules, db: Db, id: ID, d: Details, access: ListAccess): Write {
    match Validate(r, Normalize(r, d))
    case Invalid(error) => Failed(InvalidAsset(error))
    case Valid(e) =>
      if Key(e) == "|0|" then Failed(NothingToDo)
      else if !Visible(db, access, id) then Failed(NotFound)
      else Replace(db, id, e, 1)
  }

  /** The IDs without repetitions, in their first order. */
  function Distinct(ids: seq<ID>): seq<ID> {
    if ids == [] then []
    else
      var before, id := Distinct(ids[..|ids| - 1]), ids[|ids| - 1];
      if id in before then before else before + [id]
  }

  function Without(ids: seq<ID>, id: ID): seq<ID> {
    if ids == [] then []
    else Without(ids[..|ids| - 1], id) + if ids[|ids| - 1] == id then [] else [ids[|ids| - 1]]
  }

  predicate AllVisible(db: Db, access: ListAccess, ids: seq<ID>) {
    forall i | 0 <= i < |ids| :: Visible(db, access, ids[i])
  }

  function Remove(db: Db, ids: seq<ID>): Db {
    db.(assets := map id | id in db.assets && id !in ids :: db.assets[id])
  }

  function DeleteAssets(db: Db, ids: seq<ID>, access: ListAccess): Write {
    var unique := Distinct(ids);
    if unique == [] then Failed(NothingToDo)
    else if !AllVisible(db, access, unique) then Failed(NotPermitted)
    else Done(Remove(db, unique), |unique|)
  }

  /** Replaces the primary asset and removes its duplicates, or does nothing. */
  ghost function MergeAssets(r: NetRules, db: Db, primary: Option<ID>, d: Details, duplicates: seq<ID>,
                             writeAccess: ListAccess, deleteAccess: ListAccess): Write
  {
    if primary.None? then Failed(NothingToDo)
    else
      match Validate(r, Normalize(r, d))
      case Invalid(error) => Failed(InvalidAsset(error))
      case Valid(e) =>
        var unique := Without(Distinct(duplicates), primary.value);
        if unique == [] then Failed(NothingToDo)
        else if !Visible(db, writeAccess, primary.value) || !AllVisible(db, deleteAccess, unique) then
          Failed(NotPermitted)
        else Replace(Remove(db, unique), primary.value, e, |unique|)
  }

  lemma {:induction false} DistinctSound(ids: seq<ID>)
    ensures forall id :: id in Distinct(ids) <==> id in ids
    ensures forall i, j | 0 <= i < j < |Distinct(ids)| :: Distinct(ids)[i] != Distinct(ids)[j]
  {
    if ids != [] {
      DistinctSound(ids[..|ids| - 1]);
      assert ids == ids[..|ids| - 1] + [ids[|ids| - 1]];
    }
  }

  lemma {:induction false} WithoutSound(ids: seq<ID>, id: ID)
    ensures forall other :: other in Without(ids, id) <==> other in ids && other != id
  {
    if ids != [] {
      WithoutSound(ids[..|ids| - 1], id);
      assert ids == ids[..|ids| - 1] + [ids[|ids| - 1]];
    }
  }

  lemma ReplaceDeduplicated(db: Db, id: ID, d: Details, count: nat)
    requires Deduplicated(db.assets) && Storable(d)
    ensures Replace(db, id, d, count).Done? ==> Deduplicated(Replace(db, id, d, count).db.assets)
  {
    assert d.port >= 0;
    hide Storable, Key;
  }

  /** An update keeps the keys right, or fails. */
  lemma UpdateDeduplicated(r: NetRules, db: Db, id: ID, d: Details, access: ListAccess)
    requires Deduplicated(db.assets)
    ensures UpdateAsset(r, db, id, d, access).Done? ==> Deduplicated(UpdateAsset(r, db, id, d, access).db.assets)
  {
    hide Storable, Key, Normalize, Validate, Deduplicated;
    if Validate(r, Normalize(r, d)).Valid? {
      ValidIsStorable(r, Normalize(r, d));
      ReplaceDeduplicated(db, id, Validate(r, Normalize(r, d)).details, 1);
    }
  }

  lemma RemoveDeduplicated(db: Db, ids: seq<ID>)
    requires Deduplicated(db.assets)
    ensures Deduplicated(Remove(db, ids).assets)
  {
    hide Storable, Key;
  }

  lemma MergeDeduplicated(r: NetRules, db: Db, primary: Option<ID>, d: Details, duplicates: seq<ID>,
                          writeAccess: ListAccess, deleteAccess: ListAccess)
    requires Deduplicated(db.assets)
    ensures var w := MergeAssets(r, db, primary, d, duplicates, writeAccess, deleteAccess);
            w.Done? ==> Deduplicated(w.db.assets)
  {
    hide Storable, Key, Normalize, Validate, Deduplicated, Replace, Distinct, Without;
    if primary.Some? && Validate(r, Normalize(r, d)).Valid? {
      ValidIsStorable(r, Normalize(r, d));
      var unique := Without(Distinct(duplicates), primary.value);
      RemoveDeduplicated(db, unique);
      ReplaceDeduplicated(Remove(db, unique), primary.value, Validate(r, Normalize(r, d)).details, |unique|);
    }
  }

  /** Merging removes the named duplicates, keeps the primary row and leaves all other rows as they were. */
  lemma MergeLeavesOthers(r: NetRules, db: Db, primary: ID, d: Details, duplicates: seq<ID>,
                          writeAccess: ListAccess, deleteAccess: ListAccess)
    ensures var w := MergeAssets(r, db, Some(primary), d, duplicates, writeAccess, deleteAccess);
            w.Done? ==>
              && primary in db.assets && primary in w.db.assets && w.db.assets[primary].scan == db.assets[primary].scan
              && w.db.assets[primary].owner == db.assets[primary].owner
              && w.db.assets[primary].cache == db.assets[primary].cache
              && (forall id | id != primary ::
                    && (id in w.db.assets <==> id in db.assets && id !in duplicates)
                    && (id in w.db.assets ==> w.db.assets[id] == db.assets[id]))
  {
    DistinctSound(duplicates);
    WithoutSound(Distinct(duplicates), primary);
    hide Key, Normalize, Validate, Distinct, Without;
  }
}
