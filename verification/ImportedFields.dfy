/**
 * What an import leaves in the fields of each row, told by the entries alone: the last value given for a field stays.
 */
module ImportedFields {
  import opened Access
  import opened AssetImport
  import opened AssetKeys
  import opened AssetReimport
  import opened Base
  import opened RiskCache

  /** The fields that an import may overwrite. */
  datatype Field =
    | Project | Host | IP | Domain | Protocol | Title | Server | Country | Province | City
    | ResponsiblePerson | Department | BusinessSystem | Environment | Criticality | Source | SourceQuery | Tags

  datatype Value = Link(project: Option<ID>) | Text(text: string) | Many(texts: seq<string>)

  function Get(d: Details, field: Field): Value {
    match field
    case Project => Link(d.projectID)
    case Host => Text(d.host)
    case IP => Text(d.ip)
    case Domain => Text(d.domain)
    case Protocol => Text(d.protocol)
    case Title => Text(d.title)
    case Server => Text(d.server)
    case Country => Text(d.country)
    case Province => Text(d.province)
    case City => Text(d.city)
    case ResponsiblePerson => Text(d.responsiblePerson)
    case Department => Text(d.department)
    case BusinessSystem => Text(d.businessSystem)
    case Environment => Text(d.environment)
    case Criticality => Text(d.criticality)
    case Source => Text(d.source)
    case SourceQuery => Text(d.sourceQuery)
    case Tags => Many(d.tags)
  }

  predicate Blank(v: Value) {
    v == Link(None) || v == Text("") || v == Many([])
  }

  /** The entry is an asset that passes the checks, under the key. */
  predicate Names(r: NetRules, input: Input, key: string) {
    && input.details.Some? && Validate(r, Normalize(r, input.details.value)).Valid?
    && Key(Validate(r, Normalize(r, input.details.value)).details) == key
  }

  /** What the entry gives for the field; nothing unless it is an asset under the key. */
  function Given(r: NetRules, input: Input, key: string, field: Field): Option<Value> {
    if Names(r, input, key) && !Blank(Get(Validate(r, Normalize(r, input.details.value)).details, field))
    then Some(Get(Validate(r, Normalize(r, input.details.value)).details, field))
    else None
  }

  /** The value is the last one that the entries give, or that of before if they give none. */
  ghost predicate LastGiven(r: NetRules, inputs: seq<Input>, key: string, field: Field, before: Value, after: Value) {
    || (exists i :: 0 <= i < |inputs| && Given(r, inputs[i], key, field) == Some(after)
                    && forall j | i < j < |inputs| :: Given(r, inputs[j], key, field).None?)
    || (after == before && forall i | 0 <= i < |inputs| :: Given(r, inputs[i], key, field).None?)
  }

  /** The importer may change the row. */
  predicate MayChange(importer: Importer, row: AssetRow) {
    importer.global || row.owner.None? || row.owner == importer.owner
  }

  /** One field at a time. */
  lemma MergedField(stored: Details, d: Details, field: Field)
    ensures Get(Merge(stored, d), field) == if Blank(Get(d, field)) then Get(stored, field) else Get(d, field)
    ensures Merge(stored, d).port == stored.port && Merge(stored, d).status == stored.status
  {
  }

  lemma LastGivenStep(r: NetRules, inputs: seq<Input>, key: string, field: Field, before: Value, mid: Value)
    requires inputs != [] && LastGiven(r, inputs[..|inputs| - 1], key, field, before, mid)
    ensures var given := Given(r, inputs[|inputs| - 1], key, field);
            LastGiven(r, inputs, key, field, before, if given.Some? then given.value else mid)
  {
    hide Given, LastGiven;
    if Given(r, inputs[|inputs| - 1], key, field).Some? {
      GivenNow(r, inputs, key, field, before);
    } else {
      GivenEarlier(r, inputs, key, field, before, mid);
    }
  }

  lemma GivenNow(r: NetRules, inputs: seq<Input>, key: string, field: Field, before: Value)
    requires inputs != [] && Given(r, inputs[|inputs| - 1], key, field).Some?
    ensures LastGiven(r, inputs, key, field, before, Given(r, inputs[|inputs| - 1], key, field).value)
  {
    hide Given;
  }

  lemma GivenEarlier(r: NetRules, inputs: seq<Input>, key: string, field: Field, before: Value, value: Value)
    requires inputs != [] && Given(r, inputs[|inputs| - 1], key, field).None?
    requires LastGiven(r, inputs[..|inputs| - 1], key, field, before, value)
    ensures LastGiven(r, inputs, key, field, before, value)
  {
    hide Given;
    var n := |inputs| - 1;
    var rest := inputs[..n];
    assert forall i | 0 <= i < n :: rest[i] == inputs[i];
    if i :| 0 <= i < n && Given(r, rest[i], key, field) == Some(value)
            && forall j | i < j < n :: Given(r, rest[j], key, field).None? {
      assert Given(r, inputs[i], key, field) == Some(value);
    }
  }

  // ---------------------------------------------------------------- rows that were there

  /** Every field that the entries give is the last value given; port and status stay, and so do all other fields. */
  ghost predicate FieldsTold(r: NetRules, inputs: seq<Input>, key: string, before: Details, after: Details) {
    && (forall field :: LastGiven(r, inputs, key, field, Get(before, field), Get(after, field)))
    && after.port == before.port && after.status == before.status
  }

  lemma EntryGives(r: NetRules, input: Input, key: string, field: Field)
    ensures Names(r, input, key) <==> Entry(r, input).Some? && Key(Entry(r, input).value) == key
    ensures Given(r, input, key, field)
            == if Names(r, input, key) && !Blank(Get(Entry(r, input).value, field))
               then Some(Get(Entry(r, input).value, field)) else None
  {
    hide Normalize, Validate, Key, Get;
  }

  /** One more entry. */
  lemma FieldsStep(r: NetRules, inputs: seq<Input>, key: string, before: Details, mid: Details)
    requires inputs != [] && FieldsTold(r, inputs[..|inputs| - 1], key, before, mid)
    ensures var input := inputs[|inputs| - 1];
            FieldsTold(r, inputs, key, before,
                       if Names(r, input, key) then Merge(mid, Entry(r, input).value) else mid)
  {
    hide LastGiven, Get, Names, Given, Entry, Merge, Blank;
    var input := inputs[|inputs| - 1];
    EntryGives(r, input, key, Host);
    var after := if Names(r, input, key) then Merge(mid, Entry(r, input).value) else mid;
    if Names(r, input, key) {
      MergedField(mid, Entry(r, input).value, Host);
    }
    forall field ensures LastGiven(r, inputs, key, field, Get(before, field), Get(after, field)) {
      EntryGives(r, input, key, field);
      LastGivenStep(r, inputs, key, field, Get(before, field), Get(mid, field));
      if Names(r, input, key) {
        MergedField(mid, Entry(r, input).value, field);
      }
    }
  }

  /**
   * After a batch that went through, each overwritable field of an earlier row that may be changed is the last value
   * that the entries of its key give for it, or its old value if they give none. Port and status stay, and so does
   * everything in a row that may not be changed.
   */
  lemma {:induction false} RowFields(r: NetRules, db: Db, inputs: seq<Input>, importer: Importer, id: ID)
    requires UniqueKeys(db.assets) && id in db.assets && UpsertAll(r, db, inputs, importer).Going?
    ensures var row, after := db.assets[id], UpsertAll(r, db, inputs, importer).batch.db.assets;
            && id in after && after[id].key == row.key && after[id].owner == row.owner
            && if MayChange(importer, row) then FieldsTold(r, inputs, row.key, row.details, after[id].details)
               else after[id].details == row.details
  {
    hide Upsert, UniqueKeys, FieldsTold;
    var row := db.assets[id];
    if inputs == [] {
      NothingGiven(r, row.key, row.details);
    } else {
      var n := |inputs| - 1;
      RowFields(r, db, inputs[..n], importer, id);
      UpsertAllUniqueKeys(r, db, inputs[..n], importer);
      var b := UpsertAll(r, db, inputs[..n], importer).batch;
      RowStep(r, b, inputs[n], importer, id);
      UpsertRowsKept(r, b, inputs[n], importer);
      EntryGives(r, inputs[n], row.key, Host);
      hide Entry, Names, Merge, Key, Given;
      if MayChange(importer, row) {
        FieldsStep(r, inputs, row.key, row.details, b.db.assets[id].details);
      }
    }
  }

  lemma NothingGiven(r: NetRules, key: string, d: Details)
    ensures FieldsTold(r, [], key, d, d)
  {
  }

  // ---------------------------------------------------------------- rows that an entry makes

  /** An asset of which nothing is known but port and status. */
  function NothingKnown(port: int, status: string): Details {
    Details(None, "", "", port, "", "", "", "", "", "", "", "", "", "", "", "", "", "", status, [])
  }

  lemma MergeIntoNothing(d: Details)
    ensures Merge(NothingKnown(d.port, d.status), d) == d
  {
  }

  /** No entry names a key that is not stored after the batch. */
  lemma UnnamedKey(r: NetRules, db: Db, inputs: seq<Input>, importer: Importer, key: string)
    requires UpsertAll(r, db, inputs, importer).Going?
    requires !HasKey(UpsertAll(r, db, inputs, importer).batch.db.assets, key)
    ensures forall i | 0 <= i < |inputs| :: !Names(r, inputs[i], key)
  {
    hide Normalize, Validate, Key, UpsertAll, HasKey;
    forall i | 0 <= i < |inputs| && inputs[i].details.Some? ensures !Names(r, inputs[i], key) {
      UpsertAllStores(r, db, inputs, importer, i);
    }
  }

  lemma NoneGiven(r: NetRules, inputs: seq<Input>, key: string, d: Details)
    requires forall i | 0 <= i < |inputs| :: !Names(r, inputs[i], key)
    ensures FieldsTold(r, inputs, key, d, d)
  {
    hide Names, Get;
  }

  /** The first entry that names the row makes it; the fields are the last values that the entries give, or blank. */
  ghost predicate MadeBy(r: NetRules, inputs: seq<Input>, importer: Importer, id: ID, row: AssetRow, first: nat) {
    && first < |inputs| && inputs[first].newID == id && Names(r, inputs[first], row.key)
    && (forall i | 0 <= i < first :: !Names(r, inputs[i], row.key))
    && row.owner == importer.owner && row.scan == Scan(None, None, None, None) && row.cache == Cache(0, 0, Unassessed)
    && var d := Validate(r, Normalize(r, inputs[first].details.value)).details;
       FieldsTold(r, inputs, row.key, NothingKnown(d.port, d.status), row.details)
  }

  lemma MadeNow(r: NetRules, db: Db, inputs: seq<Input>, importer: Importer, id: ID)
    requires inputs != [] && UpsertAll(r, db, inputs, importer).Going?
    requires id !in UpsertAll(r, db, inputs[..|inputs| - 1], importer).batch.db.assets
    requires id in UpsertAll(r, db, inputs, importer).batch.db.assets
    ensures MadeBy(r, inputs, importer, id, UpsertAll(r, db, inputs, importer).batch.db.assets[id], |inputs| - 1)
  {
    var n := |inputs| - 1;
    var b := UpsertAll(r, db, inputs[..n], importer).batch;
    assert UpsertAll(r, db, inputs, importer) == Upsert(r, b, inputs[n], importer);
    InsertedRow(r, b, inputs[n], importer, id);
    InsertedNew(r, b, inputs[n], importer, id);
    var row := UpsertAll(r, db, inputs, importer).batch.db.assets[id];
    hide Upsert, Key, HasKey;
    UnnamedKey(r, db, inputs[..n], importer, row.key);
    EntryGives(r, inputs[n], row.key, Host);
    assert forall i | 0 <= i < n :: inputs[..n][i] == inputs[i];
    hide UpsertAll, Given, FieldsTold, Normalize, Validate, Merge;
    FieldsMade(r, inputs, row.key);
  }

  /** An entry with a new key makes the row. */
  lemma FieldsMade(r: NetRules, inputs: seq<Input>, key: string)
    requires inputs != [] && Names(r, inputs[|inputs| - 1], key)
    requires forall i | 0 <= i < |inputs| - 1 :: !Names(r, inputs[i], key)
    ensures Entry(r, inputs[|inputs| - 1]).Some?
    ensures var d := Entry(r, inputs[|inputs| - 1]).value;
            FieldsTold(r, inputs, key, NothingKnown(d.port, d.status), d)
  {
    var n := |inputs| - 1;
    EntryGives(r, inputs[n], key, Host);
    hide FieldsTold, Normalize, Validate, Merge, Names, Entry;
    var d := Entry(r, inputs[n]).value;
    assert forall i | 0 <= i < n :: inputs[..n][i] == inputs[i];
    NoneGiven(r, inputs[..n], key, NothingKnown(d.port, d.status));
    FieldsStep(r, inputs, key, NothingKnown(d.port, d.status), NothingKnown(d.port, d.status));
    MergeIntoNothing(d);
  }

  lemma InsertedNew(r: NetRules, b: Batch, input: Input, importer: Importer, id: ID)
    requires Upsert(r, b, input, importer).Going? && id !in b.db.assets
    requires id in Upsert(r, b, input, importer).batch.db.assets
    ensures var row := Upsert(r, b, input, importer).batch.db.assets[id];
            input.newID == id && row.scan == Scan(None, None, None, None) && row.cache == Cache(0, 0, Unassessed)
  {
    UpsertCases(r, b, input, importer);
    hide Normalize, Validate, Key, Merge, Upsert, Entry, Assign;
  }

  /** Every row that was not there before the batch was made by one of its entries, and the later ones filled it in. */
  lemma {:induction false} NewRowFields(r: NetRules, db: Db, inputs: seq<Input>, importer: Importer, id: ID)
      returns (first: nat)
    requires UniqueKeys(db.assets) && UpsertAll(r, db, inputs, importer).Going?
    requires id !in db.assets && id in UpsertAll(r, db, inputs, importer).batch.db.assets
    ensures MadeBy(r, inputs, importer, id, UpsertAll(r, db, inputs, importer).batch.db.assets[id], first)
  {
    hide Upsert, UniqueKeys, MadeBy;
    var n := |inputs| - 1;
    var b := UpsertAll(r, db, inputs[..n], importer).batch;
    if id in b.db.assets {
      first := NewRowFields(r, db, inputs[..n], importer, id);
      UpsertAllUniqueKeys(r, db, inputs[..n], importer);
      MadeStep(r, b, inputs, importer, id, first);
    } else {
      first := n;
      MadeNow(r, db, inputs, importer, id);
    }
  }

  lemma MadeStep(r: NetRules, b: Batch, inputs: seq<Input>, importer: Importer, id: ID, first: nat)
    requires inputs != [] && UniqueKeys(b.db.assets) && id in b.db.assets
    requires Upsert(r, b, inputs[|inputs| - 1], importer).Going?
    requires MadeBy(r, inputs[..|inputs| - 1], importer, id, b.db.assets[id], first)
    ensures var after := Upsert(r, b, inputs[|inputs| - 1], importer).batch.db.assets;
            id in after && MadeBy(r, inputs, importer, id, after[id], first)
  {
    var n := |inputs| - 1;
    var row := b.db.assets[id];
    RowStep(r, b, inputs[n], importer, id);
    UpsertRowsKept(r, b, inputs[n], importer);
    EntryGives(r, inputs[n], row.key, Host);
    assert forall i | 0 <= i < n :: inputs[..n][i] == inputs[i];
    hide Upsert, Key, Entry, Names, Merge, Given, UniqueKeys, Normalize, Validate, FieldsTold;
    var d := Validate(r, Normalize(r, inputs[first].details.value)).details;
    FieldsStep(r, inputs, row.key, NothingKnown(d.port, d.status), row.details);
  }

  // ---------------------------------------------------------------- what the counters count

  /** The entry is left out, or names a row that was there before and may not be changed. */
  ghost predicate Skips(r: NetRules, db: Db, input: Input, importer: Importer) {
    || input.details.None?
    || exists id :: id in db.assets && Names(r, input, db.assets[id].key) && !MayChange(importer, db.assets[id])
  }

  ghost function SkipCount(r: NetRules, db: Db, inputs: seq<Input>, importer: Importer): nat {
    |set i | 0 <= i < |inputs| && Skips(r, db, inputs[i], importer)|
  }

  lemma SkipStep(r: NetRules, db: Db, inputs: seq<Input>, importer: Importer)
    requires inputs != []
    ensures SkipCount(r, db, inputs, importer)
            == SkipCount(r, db, inputs[..|inputs| - 1], importer)
               + if Skips(r, db, inputs[|inputs| - 1], importer) then 1 else 0
  {
    hide Skips;
    var n := |inputs| - 1;
    var before := set i | 0 <= i < n && Skips(r, db, inputs[..n][i], importer);
    var all := set i | 0 <= i < |inputs| && Skips(r, db, inputs[i], importer);
    assert all == if Skips(r, db, inputs[n], importer) then before + {n} else before;
  }

  /** A row of the batch that may not be changed was there before it. */
  lemma {:induction false} ForeignRowsStored(r: NetRules, db: Db, inputs: seq<Input>, importer: Importer, id: ID)
    requires UpsertAll(r, db, inputs, importer).Going? && id in UpsertAll(r, db, inputs, importer).batch.db.assets
    requires !MayChange(importer, UpsertAll(r, db, inputs, importer).batch.db.assets[id])
    ensures id in db.assets
  {
    if inputs != [] {
      hide Upsert;
      var n := |inputs| - 1;
      var b := UpsertAll(r, db, inputs[..n], importer).batch;
      if id !in b.db.assets {
        InsertedRow(r, b, inputs[n], importer, id);
        assert false;
      }
      UpsertRowsKept(r, b, inputs[n], importer);
      ForeignRowsStored(r, db, inputs[..n], importer, id);
    }
  }

  /** What one entry does to counters, rows and assignments. */
  lemma CountStep(r: NetRules, b: Batch, input: Input, importer: Importer)
    requires UniqueKeys(b.db.assets) && Upsert(r, b, input, importer).Going?
    ensures var after := Upsert(r, b, input, importer).batch;
            && |after.db.assets| - |b.db.assets| == after.created - b.created
            && after.skipped == b.skipped + if Skips(r, b.db, input, importer) then 1 else 0
  {
    UpsertCases(r, b, input, importer);
    forall key {
      EntryGives(r, input, key, Host);
    }
    hide Normalize, Validate, Key, Merge, Upsert, Entry, Assign, Names, UniqueKeys, Given;
    if Entry(r, input).Some? {
      match FindKey(b.db.assets, Key(Entry(r, input).value))
      case None =>
      case Some(id) =>
        FoundOnly(b.db.assets, id, Key(Entry(r, input).value));
        assert Skips(r, b.db, input, importer) <==> !MayChange(importer, b.db.assets[id]);
    }
  }

  lemma FoundOnly(assets: map<ID, AssetRow>, id: ID, key: string)
    requires UniqueKeys(assets) && id in assets && assets[id].key == key
    ensures forall other | other in assets && assets[other].key == key :: other == id
  {
  }

  lemma SkipsSame(r: NetRules, db: Db, inputs: seq<Input>, importer: Importer, input: Input)
    requires UpsertAll(r, db, inputs, importer).Going?
    ensures Skips(r, UpsertAll(r, db, inputs, importer).batch.db, input, importer) <==> Skips(r, db, input, importer)
  {
    var now := UpsertAll(r, db, inputs, importer).batch.db;
    UpsertAllRowsKept(r, db, inputs, importer);
    forall id | id in now.assets && !MayChange(importer, now.assets[id]) ensures id in db.assets {
      ForeignRowsStored(r, db, inputs, importer, id);
    }
    hide UpsertAll, Names;
  }

  lemma NoSkips(r: NetRules, db: Db, importer: Importer)
    ensures SkipCount(r, db, [], importer) == 0
  {
    hide Skips;
  }

  /**
   * After a batch that went through, `created` is the number of new rows, `skipped` the number of entries that are
   * left out or name a row of before that may not be changed, and `updated` the number of all the others.
   */
  lemma {:induction false} BatchCounts(r: NetRules, db: Db, inputs: seq<Input>, importer: Importer)
    requires UniqueKeys(db.assets) && UpsertAll(r, db, inputs, importer).Going?
    ensures var b := UpsertAll(r, db, inputs, importer).batch;
            && b.created == |b.db.assets| - |db.assets| && b.skipped == SkipCount(r, db, inputs, importer)
            && b.created + b.updated + b.skipped == |inputs|
  {
    CountersAddUp(r, db, inputs, importer);
    if inputs == [] {
      NoSkips(r, db, importer);
    } else {
      hide Upsert, UniqueKeys, Skips, SkipCount;
      var n := |inputs| - 1;
      BatchCounts(r, db, inputs[..n], importer);
      UpsertAllUniqueKeys(r, db, inputs[..n], importer);
      CountStep(r, UpsertAll(r, db, inputs[..n], importer).batch, inputs[n], importer);
      SkipsSame(r, db, inputs[..n], importer, inputs[n]);
      SkipStep(r, db, inputs, importer);
    }
  }

  // ---------------------------------------------------------------- who is assigned what

  /** The entry assigns the row it names to the importer: one that the importer owns, or nobody. */
  ghost predicate Assigns(r: NetRules, users: set<ID>, input: Input, importer: Importer, rows: map<ID, AssetRow>,
                          g: Grant)
  {
    && importer.owner == Some(g.user) && g.user in users && g.kind == Kind.Asset
    && g.id in rows && (rows[g.id].owner.None? || rows[g.id].owner == importer.owner)
    && Names(r, input, rows[g.id].key)
  }

  /** The grant was there, or the importer is assigned the row of the key: a row without an owner, or their own. */
  predicate GrantedFor(before: Db, after: Db, importer: Importer, key: string, g: Grant) {
    || g in before.grants
    || (&& importer.owner == Some(g.user) && g.user in before.users && g.kind == Kind.Asset
        && g.id in after.assets && after.assets[g.id].key == key
        && (after.assets[g.id].owner.None? || after.assets[g.id].owner == importer.owner))
  }

  lemma InsertGrants(b: Batch, d: Details, newID: ID, importer: Importer, g: Grant)
    requires d.port >= 0 && Insert(b, d, newID, importer.owner).Going?
    requires forall id | id in b.db.assets :: b.db.assets[id].key != Key(d)
    ensures var after := Insert(b, d, newID, importer.owner).batch.db;
            g in after.grants <==> GrantedFor(b.db, after, importer, Key(d), g)
  {
    hide Key, ProjectExists;
  }

  lemma OverwriteGrants(b: Batch, d: Details, id: ID, importer: Importer, key: string, g: Grant)
    requires id in b.db.assets && b.db.assets[id].key == key && Overwrite(b, d, id, importer).Going?
    requires forall other | other in b.db.assets && b.db.assets[other].key == key :: other == id
    ensures var after := Overwrite(b, d, id, importer).batch.db;
            g in after.grants <==> GrantedFor(b.db, after, importer, key, g)
  {
    hide Merge, ProjectExists;
  }

  lemma ValidGrants(b: Batch, d: Details, newID: ID, importer: Importer, g: Grant)
    requires UniqueKeys(b.db.assets) && d.port >= 0 && Key(d) != "|0|" && UpsertValid(b, d, newID, importer).Going?
    ensures var after := UpsertValid(b, d, newID, importer).batch.db;
            g in after.grants <==> GrantedFor(b.db, after, importer, Key(d), g)
  {
    hide Key, UniqueKeys, Insert, Overwrite, GrantedFor;
    match FindKey(b.db.assets, Key(d))
    case None => InsertGrants(b, d, newID, importer, g);
    case Some(id) =>
      FoundOnly(b.db.assets, id, Key(d));
      OverwriteGrants(b, d, id, importer, Key(d), g);
  }

  lemma GrantStep(r: NetRules, b: Batch, input: Input, importer: Importer, g: Grant)
    requires UniqueKeys(b.db.assets) && Upsert(r, b, input, importer).Going?
    ensures var after := Upsert(r, b, input, importer).batch.db;
            && after.users == b.db.users
            && (g in after.grants <==> g in b.db.grants || Assigns(r, b.db.users, input, importer, after.assets, g))
  {
    UsersStay(r, b, input, importer);
    hide Normalize, Validate, Key, UpsertValid, UniqueKeys;
    if input.details.Some? {
      EmptyKeyUnreachable(r, Normalize(r, input.details.value));
      ValidGrants(b, Validate(r, Normalize(r, input.details.value)).details, input.newID, importer, g);
    }
  }

  lemma UsersStay(r: NetRules, b: Batch, input: Input, importer: Importer)
    ensures Upsert(r, b, input, importer).batch.db.users == b.db.users
  {
    StepLater(r, b, input, importer);
    hide RowsKept, Upsert;
  }

  /** Rows keep their keys and owners, so an assignment does not depend on when it is looked at. */
  lemma AssignsLater(r: NetRules, users: set<ID>, input: Input, importer: Importer, before: map<ID, AssetRow>,
                     after: map<ID, AssetRow>, g: Grant)
    requires RowsKept(before, after) && (g.id in after && Names(r, input, after[g.id].key) ==> g.id in before)
    ensures Assigns(r, users, input, importer, after, g) <==> Assigns(r, users, input, importer, before, g)
  {
    hide Names;
  }

  /** A row that an entry names is there once the entry is through. */
  lemma NamedStored(r: NetRules, db: Db, inputs: seq<Input>, importer: Importer, i: nat, after: map<ID, AssetRow>,
                    id: ID)
    requires UpsertAll(r, db, inputs, importer).Going? && i < |inputs|
    requires RowsKept(UpsertAll(r, db, inputs, importer).batch.db.assets, after) && UniqueKeys(after)
    requires id in after && Names(r, inputs[i], after[id].key)
    ensures id in UpsertAll(r, db, inputs, importer).batch.db.assets
  {
    UpsertAllStores(r, db, inputs, importer, i);
    hide UpsertAll, Normalize, Validate, Key;
    var assets := UpsertAll(r, db, inputs, importer).batch.db.assets;
    var same :| same in assets && assets[same].key == after[id].key;
    assert same in after && after[same].key == after[id].key;
  }

  ghost predicate AnyAssigns(r: NetRules, users: set<ID>, inputs: seq<Input>, importer: Importer,
                             rows: map<ID, AssetRow>, g: Grant)
  {
    exists i :: 0 <= i < |inputs| && Assigns(r, users, inputs[i], importer, rows, g)
  }

  lemma AnyStep(r: NetRules, users: set<ID>, inputs: seq<Input>, importer: Importer, before: map<ID, AssetRow>,
                after: map<ID, AssetRow>, g: Grant)
    requires inputs != []
    requires forall i | 0 <= i < |inputs| - 1 ::
               Assigns(r, users, inputs[i], importer, after, g) <==> Assigns(r, users, inputs[i], importer, before, g)
    ensures AnyAssigns(r, users, inputs, importer, after, g)
            <==> || AnyAssigns(r, users, inputs[..|inputs| - 1], importer, before, g)
                 || Assigns(r, users, inputs[|inputs| - 1], importer, after, g)
  {
    hide Assigns;
    var rest := inputs[..|inputs| - 1];
    assert forall i | 0 <= i < |rest| :: rest[i] == inputs[i];
    if i :| 0 <= i < |rest| && Assigns(r, users, rest[i], importer, before, g) {
      assert Assigns(r, users, inputs[i], importer, after, g);
    }
  }

  /** The entries so far assign the same whether looked at now or after one more entry. */
  lemma AssignsKept(r: NetRules, db: Db, inputs: seq<Input>, importer: Importer, i: nat, after: map<ID, AssetRow>,
                    g: Grant)
    requires UpsertAll(r, db, inputs, importer).Going? && i < |inputs|
    requires RowsKept(UpsertAll(r, db, inputs, importer).batch.db.assets, after) && UniqueKeys(after)
    ensures Assigns(r, db.users, inputs[i], importer, after, g)
            <==> Assigns(r, db.users, inputs[i], importer, UpsertAll(r, db, inputs, importer).batch.db.assets, g)
  {
    hide Names, UpsertAll, UniqueKeys, RowsKept, Assigns;
    if g.id in after && Names(r, inputs[i], after[g.id].key) {
      NamedStored(r, db, inputs, importer, i, after, g.id);
    }
    AssignsLater(r, db.users, inputs[i], importer, UpsertAll(r, db, inputs, importer).batch.db.assets, after, g);
  }

  /**
   * After a batch that went through, the new assignments are exactly those of the importer, if that is a user, to the
   * rows that entries name and that belong to the importer or to nobody.
   */
  lemma {:induction false} BatchGrants(r: NetRules, db: Db, inputs: seq<Input>, importer: Importer, g: Grant)
    requires UniqueKeys(db.assets) && UpsertAll(r, db, inputs, importer).Going?
    ensures var after := UpsertAll(r, db, inputs, importer).batch.db;
            && after.users == db.users
            && (g in after.grants
                <==> g in db.grants || AnyAssigns(r, db.users, inputs, importer, after.assets, g))
  {
    hide Upsert, UniqueKeys, Assigns, AnyAssigns, RowsKept;
    if inputs == [] {
      NobodyAssigns(r, db.users, importer, db.assets, g);
    } else {
      var n := |inputs| - 1;
      var b := UpsertAll(r, db, inputs[..n], importer).batch;
      var after := UpsertAll(r, db, inputs, importer).batch.db;
      BatchGrants(r, db, inputs[..n], importer, g);
      UpsertAllUniqueKeys(r, db, inputs[..n], importer);
      UpsertAllUniqueKeys(r, db, inputs, importer);
      GrantStep(r, b, inputs[n], importer, g);
      UpsertRowsKept(r, b, inputs[n], importer);
      forall i | 0 <= i < n
        ensures Assigns(r, db.users, inputs[i], importer, after.assets, g)
                <==> Assigns(r, db.users, inputs[i], importer, b.db.assets, g)
      {
        AssignsKept(r, db, inputs[..n], importer, i, after.assets, g);
      }
      AnyStep(r, db.users, inputs, importer, b.db.assets, after.assets, g);
    }
  }

  lemma NobodyAssigns(r: NetRules, users: set<ID>, importer: Importer, rows: map<ID, AssetRow>, g: Grant)
    ensures !AnyAssigns(r, users, [], importer, rows, g)
  {
  }

  // ---------------------------------------------------------------- what stops a batch

  ghost predicate NamesRow(r: NetRules, db: Db, input: Input) {
    exists id :: id in db.assets && Names(r, input, db.assets[id].key)
  }

  /**
   * An entry stops the batch exactly if it is an asset that fails the checks; or one in an unknown project, unless it
   * names a row that may not be changed anyway; or one that names no row and whose new ID is taken.
   */
  lemma EntryStopsIff(r: NetRules, b: Batch, input: Input, importer: Importer)
    requires UniqueKeys(b.db.assets)
    ensures Upsert(r, b, input, importer).Stopped?
            <==> input.details.Some?
                 && var c := Validate(r, Normalize(r, input.details.value));
                    || c.Invalid?
                    || (c.details.projectID.Some? && c.details.projectID.value !in b.db.projects
                        && !Skips(r, b.db, input, importer))
                    || (!NamesRow(r, b.db, input) && input.newID in b.db.assets)
  {
    UpsertCases(r, b, input, importer);
    forall key {
      EntryGives(r, input, key, Host);
    }
    hide Normalize, Key, Merge, Upsert, Assign, Names, UniqueKeys, Given;
    if Entry(r, input).Some? {
      hide Validate, Entry;
      match FindKey(b.db.assets, Key(Entry(r, input).value))
      case None =>
      case Some(id) => FoundOnly(b.db.assets, id, Key(Entry(r, input).value));
    }
  }
}
