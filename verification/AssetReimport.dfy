/** Importing a batch a second time: it creates nothing and changes nothing. */
module AssetReimport {
  import opened Access
  import opened AssetImport
  import opened AssetKeys
  import opened Base
  import opened RiskCache

  // ---------------------------------------------------------------- merging again and again

  /** A stored asset after some merges. */
  function Chain(stored: Details, entries: seq<Details>): Details {
    if entries == [] then stored
    else Merge(Chain(stored, entries[..|entries| - 1]), entries[|entries| - 1])
  }

  /** What is merged later wins, so an earlier merge of the same asset does not matter. */
  lemma MergeTwice(s: Details, d: Details, e: Details)
    ensures Merge(Merge(Merge(s, d), e), d) == Merge(Merge(s, e), d)
    ensures Merge(Merge(s, d), d) == Merge(s, d) && Merge(d, d) == d
  {
  }

  lemma {:induction false} EarlierForgotten(s: Details, d: Details, entries: seq<Details>)
    ensures Merge(Chain(Merge(s, d), entries), d) == Merge(Chain(s, entries), d)
  {
    hide Merge;
    MergeTwice(s, d, d);
    if entries != [] {
      var before, e := entries[..|entries| - 1], entries[|entries| - 1];
      EarlierForgotten(s, d, before);
      MergeTwice(Chain(Merge(s, d), before), d, e);
      MergeTwice(Chain(s, before), d, e);
    }
  }

  lemma {:induction false} EarlierIdle(s: Details, d: Details, entries: seq<Details>)
    requires d in entries
    ensures Chain(Merge(s, d), entries) == Chain(s, entries)
  {
    hide Merge;
    var before, e := entries[..|entries| - 1], entries[|entries| - 1];
    if d == e {
      EarlierForgotten(s, d, before);
    } else {
      EarlierIdle(s, d, before);
    }
  }

  lemma {:induction false} ChainIdle(s: Details, first: seq<Details>, entries: seq<Details>)
    requires forall i | 0 <= i < |first| :: first[i] in entries
    ensures Chain(Chain(s, first), entries) == Chain(s, entries)
  {
    hide Merge;
    if first != [] {
      var before, d := first[..|first| - 1], first[|first| - 1];
      ChainIdle(s, before, entries);
      EarlierIdle(Chain(s, before), d, entries);
    }
  }

  /** Merging a whole sequence a second time changes nothing. */
  lemma ChainTwice(s: Details, entries: seq<Details>)
    ensures Chain(Chain(s, entries), entries) == Chain(s, entries)
  {
    ChainIdle(s, entries, entries);
  }

  // ---------------------------------------------------------------- what a batch makes of each row

  /** The asset of an entry that passes the checks. */
  function Entry(r: NetRules, input: Input): (d: Option<Details>)
    ensures d.Some? ==> input.details.Some? && d.value.port >= 0
  {
    if input.details.None? then None
    else
      match Validate(r, Normalize(r, input.details.value))
      case Invalid(_) => None
      case Valid(d) => Some(d)
  }

  /** An entry finds its row by its key, or makes one. */
  lemma UpsertCases(r: NetRules, b: Batch, input: Input, importer: Importer)
    ensures input.details.None? ==> Upsert(r, b, input, importer) == Going(b.(skipped := b.skipped + 1))
    ensures input.details.Some? && Entry(r, input).None? ==> Upsert(r, b, input, importer).Stopped?
    ensures Entry(r, input).Some? ==>
              var d := Entry(r, input).value;
              Upsert(r, b, input, importer) == match FindKey(b.db.assets, Key(d))
                                               case None => Insert(b, d, input.newID, importer.owner)
                                               case Some(id) => Overwrite(b, d, id, importer)
  {
    hide Normalize, Validate, Key, Insert, Overwrite;
    if Entry(r, input).Some? {
      EmptyKeyUnreachable(r, Normalize(r, input.details.value));
    }
  }

  /** The entries of a batch that are the asset with a key. */
  function EntriesOf(r: NetRules, inputs: seq<Input>, key: string): seq<Details> {
    if inputs == [] then []
    else
      var before, d := EntriesOf(r, inputs[..|inputs| - 1], key), Entry(r, inputs[|inputs| - 1]);
      if d.Some? && Key(d.value) == key then before + [d.value] else before
  }

  lemma ChainAppend(s: Details, entries: seq<Details>, d: Details)
    ensures Chain(s, entries + [d]) == Merge(Chain(s, entries), d)
  {
    assert (entries + [d])[..|entries|] == entries;
  }

  /** Whether the entries for a row are merged into it. */
  predicate Merged(importer: Importer, row: AssetRow) {
    !Foreign(importer, row.owner)
  }

  /** One entry merges into the row of its key and changes the details of no other row. */
  lemma RowStep(r: NetRules, b: Batch, input: Input, importer: Importer, id: ID)
    requires UniqueKeys(b.db.assets) && id in b.db.assets && Upsert(r, b, input, importer).Going?
    ensures var row, after := b.db.assets[id], Upsert(r, b, input, importer).batch.db.assets;
            && id in after
            && after[id].details
               == if Entry(r, input).Some? && Key(Entry(r, input).value) == row.key && Merged(importer, row)
                  then Merge(row.details, Entry(r, input).value) else row.details
  {
    UpsertCases(r, b, input, importer);
    hide Normalize, Validate, Key, Merge, Upsert, Entry, Assign;
    if Entry(r, input).Some? && Key(Entry(r, input).value) == b.db.assets[id].key {
      FoundKey(b.db.assets, id);
    }
  }

  lemma {:induction false} UpsertAllUniqueKeys(r: NetRules, db: Db, inputs: seq<Input>, importer: Importer)
    requires UniqueKeys(db.assets)
    ensures UniqueKeys(UpsertAll(r, db, inputs, importer).batch.db.assets)
  {
    if inputs != [] {
      hide Upsert, UniqueKeys;
      var n := |inputs| - 1;
      UpsertAllUniqueKeys(r, db, inputs[..n], importer);
      if UpsertAll(r, db, inputs[..n], importer).Going? {
        UpsertUniqueKeys(r, UpsertAll(r, db, inputs[..n], importer).batch, inputs[n], importer);
      }
    }
  }

  /** The details of a row after a batch. */
  ghost predicate Follows(r: NetRules, inputs: seq<Input>, importer: Importer, row: AssetRow, stored: Details) {
    row.details == if Merged(importer, row) then Chain(stored, EntriesOf(r, inputs, row.key)) else stored
  }

  lemma FollowsStep(r: NetRules, b: Batch, inputs: seq<Input>, importer: Importer, id: ID, stored: Details)
    requires inputs != [] && UniqueKeys(b.db.assets) && id in b.db.assets
    requires Upsert(r, b, inputs[|inputs| - 1], importer).Going?
    requires Follows(r, inputs[..|inputs| - 1], importer, b.db.assets[id], stored)
    ensures var after := Upsert(r, b, inputs[|inputs| - 1], importer).batch.db.assets;
            id in after && Follows(r, inputs, importer, after[id], stored)
  {
    var n := |inputs| - 1;
    RowStep(r, b, inputs[n], importer, id);
    UpsertRowsKept(r, b, inputs[n], importer);
    hide Upsert, Merge, Key, Entry, UniqueKeys;
    var row := b.db.assets[id];
    if Entry(r, inputs[n]).Some? {
      ChainAppend(stored, EntriesOf(r, inputs[..n], row.key), Entry(r, inputs[n]).value);
    }
    hide Chain;
    assert Upsert(r, b, inputs[n], importer).batch.db.assets[id].key == row.key;
  }

  /** Every row that was there before is merged with its entries, in order. */
  lemma {:induction false} RowsFollow(r: NetRules, db: Db, inputs: seq<Input>, importer: Importer, id: ID)
    requires UniqueKeys(db.assets) && id in db.assets && UpsertAll(r, db, inputs, importer).Going?
    ensures var after := UpsertAll(r, db, inputs, importer).batch.db.assets;
            id in after && Follows(r, inputs, importer, after[id], db.assets[id].details)
  {
    hide Upsert, UniqueKeys, Follows;
    if inputs == [] {
      FollowsNothing(r, importer, db.assets[id]);
    } else {
      var n := |inputs| - 1;
      RowsFollow(r, db, inputs[..n], importer, id);
      UpsertAllUniqueKeys(r, db, inputs[..n], importer);
      FollowsStep(r, UpsertAll(r, db, inputs[..n], importer).batch, inputs, importer, id, db.assets[id].details);
    }
  }

  lemma FollowsNothing(r: NetRules, importer: Importer, row: AssetRow)
    ensures Follows(r, [], importer, row, row.details)
  {
  }

  lemma {:induction false} NoEntries(r: NetRules, inputs: seq<Input>, key: string)
    requires forall i | 0 <= i < |inputs| :: Entry(r, inputs[i]).Some? ==> Key(Entry(r, inputs[i]).value) != key
    ensures EntriesOf(r, inputs, key) == []
  {
    if inputs != [] {
      hide Entry, Key;
      NoEntries(r, inputs[..|inputs| - 1], key);
    }
  }

  /** A row that an entry makes has no entries before that one. */
  lemma InsertedFirst(r: NetRules, db: Db, inputs: seq<Input>, importer: Importer, key: string)
    requires UpsertAll(r, db, inputs, importer).Going?
    requires !HasKey(UpsertAll(r, db, inputs, importer).batch.db.assets, key)
    ensures EntriesOf(r, inputs, key) == []
  {
    forall i | 0 <= i < |inputs| && Entry(r, inputs[i]).Some? ensures Key(Entry(r, inputs[i]).value) != key {
      UpsertAllStores(r, db, inputs, importer, i);
      EntryKey(r, inputs[i]);
    }
    hide Entry, Key, UpsertAll, HasKey;
    NoEntries(r, inputs, key);
  }

  lemma EntryKey(r: NetRules, input: Input)
    ensures KeyOf(r, input) == if Entry(r, input).Some? then Some(Key(Entry(r, input).value)) else None
  {
    hide Normalize, Validate, Key;
  }

  /** The row an entry makes: its own asset, owned by the importer. */
  lemma InsertedRow(r: NetRules, b: Batch, input: Input, importer: Importer, id: ID)
    requires Upsert(r, b, input, importer).Going? && id !in b.db.assets
    requires id in Upsert(r, b, input, importer).batch.db.assets
    ensures var row := Upsert(r, b, input, importer).batch.db.assets[id];
            && Entry(r, input).Some? && row.details == Entry(r, input).value && row.key == Key(row.details)
            && row.owner == importer.owner && !HasKey(b.db.assets, row.key)
  {
    UpsertCases(r, b, input, importer);
    hide Normalize, Validate, Key, Merge, Upsert, Entry, Assign;
  }

  lemma InsertedFollows(r: NetRules, db: Db, inputs: seq<Input>, importer: Importer, id: ID)
    requires inputs != [] && UpsertAll(r, db, inputs, importer).Going?
    requires var b := UpsertAll(r, db, inputs[..|inputs| - 1], importer); b.Going? && id !in b.batch.db.assets
    requires id in UpsertAll(r, db, inputs, importer).batch.db.assets
    ensures var row := UpsertAll(r, db, inputs, importer).batch.db.assets[id];
            Merged(importer, row) && Follows(r, inputs, importer, row, row.details)
  {
    var n := |inputs| - 1;
    var b := UpsertAll(r, db, inputs[..n], importer).batch;
    assert UpsertAll(r, db, inputs, importer) == Upsert(r, b, inputs[n], importer);
    InsertedRow(r, b, inputs[n], importer, id);
    var row := UpsertAll(r, db, inputs, importer).batch.db.assets[id];
    hide Upsert, UpsertAll, Merge, Key, Entry, HasKey;
    InsertedFirst(r, db, inputs[..n], importer, row.key);
    MergeTwice(row.details, row.details, row.details);
    assert EntriesOf(r, inputs, row.key) == [row.details];
    ChainAppend(row.details, [], row.details);
    assert [] + [row.details] == [row.details];
  }

  /** The stored asset that a row's entries were merged into: the old one, or that of the entry that made the row. */
  lemma {:induction false} RowsFollowSome(r: NetRules, db: Db, inputs: seq<Input>, importer: Importer, id: ID)
      returns (stored: Details)
    requires UniqueKeys(db.assets) && UpsertAll(r, db, inputs, importer).Going?
    requires id in UpsertAll(r, db, inputs, importer).batch.db.assets
    ensures Follows(r, inputs, importer, UpsertAll(r, db, inputs, importer).batch.db.assets[id], stored)
  {
    hide Upsert, UniqueKeys, Follows, Merged;
    if id in db.assets {
      stored := db.assets[id].details;
      RowsFollow(r, db, inputs, importer, id);
    } else {
      var n := |inputs| - 1;
      var b := UpsertAll(r, db, inputs[..n], importer).batch;
      if id in b.db.assets {
        stored := RowsFollowSome(r, db, inputs[..n], importer, id);
        UpsertAllUniqueKeys(r, db, inputs[..n], importer);
        FollowsStep(r, b, inputs, importer, id, stored);
      } else {
        stored := UpsertAll(r, db, inputs, importer).batch.db.assets[id].details;
        InsertedFollows(r, db, inputs, importer, id);
      }
    }
  }

  // ---------------------------------------------------------------- the second time

  predicate Assigned(db: Db, owner: Option<ID>, id: ID) {
    owner.Some? && owner.value in db.users ==> Grant(owner.value, Asset, id) in db.grants
  }

  /** An entry that can neither make a row nor fail, nor assign anything new. */
  ghost predicate Idle(r: NetRules, db: Db, input: Input, importer: Importer) {
    || input.details.None?
    || (&& Entry(r, input).Some?
        && var d := Entry(r, input).value;
           exists id :: id in db.assets && db.assets[id].key == Key(d)
                        && (|| Foreign(importer, db.assets[id].owner)
                            || (&& ProjectExists(db, d.projectID)
                                && (db.assets[id].owner.None? || db.assets[id].owner == importer.owner
                                    ==> Assigned(db, importer.owner, id)))))
  }

  /** Nothing that entries look at has changed but details, and assignments have only been added. */
  ghost predicate Later(before: Db, after: Db) {
    && RowsKept(before.assets, after.assets)
    && after.projects == before.projects && after.users == before.users && before.grants <= after.grants
  }

  lemma IdleLater(r: NetRules, before: Db, after: Db, input: Input, importer: Importer)
    requires Idle(r, before, input, importer) && Later(before, after)
    ensures Idle(r, after, input, importer)
  {
    hide Entry, Key;
    if input.details.Some? {
      var d := Entry(r, input).value;
      var id :| id in before.assets && before.assets[id].key == Key(d)
                && (|| Foreign(importer, before.assets[id].owner)
                    || (&& ProjectExists(before, d.projectID)
                        && (before.assets[id].owner.None? || before.assets[id].owner == importer.owner
                            ==> Assigned(before, importer.owner, id))));
      assert id in after.assets && after.assets[id].key == Key(d);
    }
  }

  lemma StepLater(r: NetRules, b: Batch, input: Input, importer: Importer)
    ensures Later(b.db, Upsert(r, b, input, importer).batch.db)
  {
    UpsertRowsKept(r, b, input, importer);
    UpsertCases(r, b, input, importer);
    hide Normalize, Validate, Key, Merge, Entry, RowsKept, FindKey;
  }

  /** An entry that has gone through has nothing left to do. */
  lemma StepIdle(r: NetRules, b: Batch, input: Input, importer: Importer)
    requires Upsert(r, b, input, importer).Going?
    ensures Idle(r, Upsert(r, b, input, importer).batch.db, input, importer)
  {
    UpsertCases(r, b, input, importer);
    hide Normalize, Validate, Key, Merge, Upsert, Entry;
    if Entry(r, input).Some? {
      var d := Entry(r, input).value;
      match FindKey(b.db.assets, Key(d))
      case None => assert input.newID in Upsert(r, b, input, importer).batch.db.assets;
      case Some(id) => assert id in Upsert(r, b, input, importer).batch.db.assets;
    }
  }

  lemma {:induction false} AllIdle(r: NetRules, db: Db, inputs: seq<Input>, importer: Importer, i: nat)
    requires UpsertAll(r, db, inputs, importer).Going? && i < |inputs|
    ensures Idle(r, UpsertAll(r, db, inputs, importer).batch.db, inputs[i], importer)
  {
    hide Upsert, Idle, Later;
    var n := |inputs| - 1;
    var b := UpsertAll(r, db, inputs[..n], importer).batch;
    if i == n {
      StepIdle(r, b, inputs[n], importer);
    } else {
      AllIdle(r, db, inputs[..n], importer, i);
      StepLater(r, b, inputs[n], importer);
      IdleLater(r, b.db, UpsertAll(r, db, inputs, importer).batch.db, inputs[i], importer);
    }
  }

  /** The second time round, only details may differ on the way. */
  ghost predicate SameButDetails(before: Db, after: Db) {
    && after == before.(assets := after.assets) && after.assets.Keys == before.assets.Keys
    && forall id | id in before.assets :: after.assets[id] == before.assets[id].(details := after.assets[id].details)
  }

  lemma IdleStep(r: NetRules, b: Batch, input: Input, importer: Importer)
    requires UniqueKeys(b.db.assets) && Idle(r, b.db, input, importer)
    ensures var o := Upsert(r, b, input, importer);
            o.Going? && o.batch.created == b.created && SameButDetails(b.db, o.batch.db)
  {
    UpsertCases(r, b, input, importer);
    hide Normalize, Validate, Key, Merge, Upsert, Entry, UniqueKeys;
    if input.details.Some? {
      var d := Entry(r, input).value;
      var id :| id in b.db.assets && b.db.assets[id].key == Key(d)
                && (|| Foreign(importer, b.db.assets[id].owner)
                    || (&& ProjectExists(b.db, d.projectID)
                        && (b.db.assets[id].owner.None? || b.db.assets[id].owner == importer.owner
                            ==> Assigned(b.db, importer.owner, id))));
      FoundKey(b.db.assets, id);
    }
  }

  lemma SameIsLater(before: Db, after: Db)
    requires SameButDetails(before, after)
    ensures Later(before, after)
  {
  }

  lemma SameTwice(a: Db, b: Db, c: Db)
    requires SameButDetails(a, b) && SameButDetails(b, c)
    ensures SameButDetails(a, c)
  {
  }

  lemma SameItself(db: Db)
    ensures SameButDetails(db, db)
  {
  }

  lemma {:induction false} SecondTime(r: NetRules, db: Db, inputs: seq<Input>, importer: Importer)
    requires UniqueKeys(db.assets)
    requires forall i | 0 <= i < |inputs| :: Idle(r, db, inputs[i], importer)
    ensures var o := UpsertAll(r, db, inputs, importer);
            o.Going? && o.batch.created == 0 && SameButDetails(db, o.batch.db)
  {
    hide Upsert, Idle, UniqueKeys, SameButDetails, Later;
    if inputs == [] {
      SameItself(db);
    } else {
      var n := |inputs| - 1;
      SecondTime(r, db, inputs[..n], importer);
      var b := UpsertAll(r, db, inputs[..n], importer).batch;
      UpsertAllUniqueKeys(r, db, inputs[..n], importer);
      SameIsLater(db, b.db);
      IdleLater(r, db, b.db, inputs[n], importer);
      IdleStep(r, b, inputs[n], importer);
      SameTwice(db, b.db, Upsert(r, b, inputs[n], importer).batch.db);
    }
  }

  /** A row that follows a batch is the same after following it again. */
  lemma FollowsAgain(r: NetRules, inputs: seq<Input>, importer: Importer, row: AssetRow, again: AssetRow,
                     stored: Details)
    requires Follows(r, inputs, importer, row, stored) && Follows(r, inputs, importer, again, row.details)
    requires again == row.(details := again.details)
    ensures again == row
  {
    hide EntriesOf, Chain;
    ChainTwice(stored, EntriesOf(r, inputs, row.key));
  }

  /** A batch that has gone through goes through again, creates nothing and leaves the store exactly as it is. */
  lemma ImportTwice(r: NetRules, db: Db, inputs: seq<Input>, importer: Importer)
    requires UniqueKeys(db.assets) && UpsertAll(r, db, inputs, importer).Going?
    ensures var once := UpsertAll(r, db, inputs, importer).batch.db;
            var twice := UpsertAll(r, once, inputs, importer);
            twice.Going? && twice.batch.created == 0 && twice.batch.db == once
  {
    hide UpsertAll, UniqueKeys, Idle, Follows;
    var once := UpsertAll(r, db, inputs, importer).batch.db;
    forall i | 0 <= i < |inputs| ensures Idle(r, once, inputs[i], importer) {
      AllIdle(r, db, inputs, importer, i);
    }
    UpsertAllUniqueKeys(r, db, inputs, importer);
    SecondTime(r, once, inputs, importer);
    var twice := UpsertAll(r, once, inputs, importer).batch.db;
    forall id | id in once.assets ensures twice.assets[id] == once.assets[id] {
      var stored := RowsFollowSome(r, db, inputs, importer, id);
      RowsFollow(r, once, inputs, importer, id);
      FollowsAgain(r, inputs, importer, once.assets[id], twice.assets[id], stored);
    }
    assert twice.assets == once.assets;
  }
}
