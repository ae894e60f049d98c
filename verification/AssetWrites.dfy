/** What updating, merging and deleting assets store, told by the rows before and after. */
module AssetWrites {
  import opened Access
  import opened AssetImport
  import opened AssetKeys
  import opened Base
  import opened RiskCache
  import opened StoredAssets
  import opened Text

  /** What an asset is called: by its domain, else by its address, else by its host in lower case. */
  predicate Denotes(d: Details, name: string) {
    if d.domain != "" then name == d.domain
    else if d.ip != "" then name == d.ip
    else name == LowerAscii(d.host)
  }

  /** Two checked assets are the same one exactly if name, port and protocol agree. */
  ghost predicate SameAsset(a: Details, b: Details) {
    a.port == b.port && a.protocol == b.protocol && exists name :: Denotes(a, name) && Denotes(b, name)
  }

  lemma SameKeyIff(a: Details, b: Details)
    requires Storable(a) && Storable(b)
    ensures Key(a) == Key(b) <==> SameAsset(a, b)
  {
    KeyInjective(a, b);
    assert Denotes(a, Target(a)) && Denotes(b, Target(b));
    hide Key, LowerAscii;
  }

  /** The table is as before but for one row, which keeps its owner, its scan and its figures. */
  ghost predicate RowReplaced(before: Db, after: Db, id: ID, d: Details) {
    && after == before.(assets := after.assets) && id in before.assets && id in after.assets
    && after.assets[id] == before.assets[id].(details := d, key := after.assets[id].key)
    && after.assets.Keys == before.assets.Keys
    && forall other | other in before.assets && other != id :: after.assets[other] == before.assets[other]
  }

  /** Another row is the same asset. */
  ghost predicate Elsewhere(assets: map<ID, AssetRow>, id: ID, d: Details) {
    exists other :: other in assets && other != id && SameAsset(assets[other].details, d)
  }

  predicate KnownProject(db: Db, project: Option<ID>) {
    project == None || project.value in db.projects
  }

  lemma TakenIsElsewhere(assets: map<ID, AssetRow>, id: ID, d: Details)
    requires Keyed(assets) && Storable(d)
    ensures KeyTaken(assets, Key(d), id) <==> Elsewhere(assets, id, d)
  {
    forall other | other in assets ensures assets[other].key == Key(d) <==> SameAsset(assets[other].details, d) {
      SameKeyIff(assets[other].details, d);
    }
    hide Storable, Key, SameAsset;
  }

  lemma ReplaceTold(db: Db, id: ID, d: Details, count: nat)
    requires Keyed(db.assets) && Storable(d) && d.port >= 0
    ensures var w := Replace(db, id, d, count);
            && (w.Done? <==> id in db.assets && !Elsewhere(db.assets, id, d) && KnownProject(db, d.projectID))
            && (w.Done? ==> RowReplaced(db, w.db, id, d) && w.db.assets[id].key == Key(d))
            && (w.Failed? && id in db.assets ==> w.error == Refused)
  {
    TakenIsElsewhere(db.assets, id, d);
    hide Key, KeyTaken, Elsewhere, Keyed, Storable;
  }

  /**
   * An update stores all fields of the asset in the row and nothing else. It goes through exactly if the asset is
   * accepted, the row is one that the user may see, no other row is the same asset, and its project is known.
   */
  lemma UpdateTold(r: NetRules, db: Db, id: ID, d: Details, access: ListAccess)
    requires Keyed(db.assets)
    ensures var w, c := UpdateAsset(r, db, id, d, access), Validate(r, Normalize(r, d));
            && (w.Done? <==> && c.Valid? && Visible(db, access, id) && !Elsewhere(db.assets, id, c.details)
                             && KnownProject(db, c.details.projectID))
            && (w.Done? ==> RowReplaced(db, w.db, id, c.details) && w.db.assets[id].key == Key(c.details))
            && (w.Failed? ==> w.error == if c.Invalid? then InvalidAsset(c.error)
                                         else if !Visible(db, access, id) then NotFound else Refused)
  {
    var c := Validate(r, Normalize(r, d));
    if c.Valid? {
      EmptyKeyUnreachable(r, Normalize(r, d));
      ReplaceTold(db, id, c.details, 1);
    }
    hide Normalize, Validate, Key, Elsewhere, Keyed, Storable, AssetShown, Replace, KnownProject;
  }

  /** Of the named rows all but the primary one. */
  ghost predicate Named(duplicates: seq<ID>, primary: ID, id: ID) {
    id in duplicates && id != primary
  }

  /** The tables without the rows named as duplicates. */
  ghost function Unnamed(db: Db, duplicates: seq<ID>, primary: ID): Db {
    db.(assets := map id | id in db.assets && !Named(duplicates, primary, id) :: db.assets[id])
  }

  /**
   * All fields of the asset are stored in the primary row, the other named rows go and all else stays. That happens
   * exactly if there are such rows, the user may write the primary row and delete the others, no row that stays is
   * the same asset, and its project is known.
   */
  ghost predicate Merged(db: Db, w: Write, primary: ID, d: Details, duplicates: seq<ID>, writeAccess: ListAccess,
                         deleteAccess: ListAccess)
    requires d.port >= 0
  {
    var left := Unnamed(db, duplicates, primary);
    && (w.Done? <==> && (exists id :: Named(duplicates, primary, id)) && Visible(db, writeAccess, primary)
                     && (forall id | Named(duplicates, primary, id) :: Visible(db, deleteAccess, id))
                     && !Elsewhere(left.assets, primary, d) && KnownProject(db, d.projectID))
    && (w.Done? ==> RowReplaced(left, w.db, primary, d) && w.db.assets[primary].key == Key(d))
  }

  /** A merge of an accepted asset does that, and any other merge is refused. */
  lemma MergeTold(r: NetRules, db: Db, primary: ID, d: Details, duplicates: seq<ID>, writeAccess: ListAccess,
                  deleteAccess: ListAccess)
    requires Keyed(db.assets)
    ensures var w := MergeAssets(r, db, Some(primary), d, duplicates, writeAccess, deleteAccess);
            var c := Validate(r, Normalize(r, d));
            if c.Valid? then Merged(db, w, primary, c.details, duplicates, writeAccess, deleteAccess) else w.Failed?
  {
    var c := Validate(r, Normalize(r, d));
    if c.Valid? {
      ValidIsStorable(r, Normalize(r, d));
      MergeValidTold(db, primary, c.details, duplicates, writeAccess, deleteAccess);
    }
    hide Normalize, Validate, Keyed, Visible, AllVisible, Distinct, Without, Replace, Remove, Merged;
  }

  /** What merging does once the asset is accepted. */
  ghost function MergeValid(db: Db, primary: ID, d: Details, duplicates: seq<ID>, writeAccess: ListAccess,
                            deleteAccess: ListAccess): Write
    requires d.port >= 0
  {
    var unique := Without(Distinct(duplicates), primary);
    if unique == [] then Failed(NothingToDo)
    else if !Visible(db, writeAccess, primary) || !AllVisible(db, deleteAccess, unique) then Failed(NotPermitted)
    else Replace(Remove(db, unique), primary, d, |unique|)
  }

  lemma MergeValidTold(db: Db, primary: ID, d: Details, duplicates: seq<ID>, writeAccess: ListAccess,
                       deleteAccess: ListAccess)
    requires Keyed(db.assets) && Storable(d) && d.port >= 0
    ensures Merged(db, MergeValid(db, primary, d, duplicates, writeAccess, deleteAccess), primary, d, duplicates,
                   writeAccess, deleteAccess)
  {
    var unique := Without(Distinct(duplicates), primary);
    var left := Unnamed(db, duplicates, primary);
    SomeNamed(duplicates, primary);
    RemoveNamed(db, duplicates, primary);
    AllNamedVisible(db, deleteAccess, duplicates, primary);
    PrimaryStays(db, writeAccess, primary, duplicates, deleteAccess);
    ReplaceTold(left, primary, d, |unique|);
    ProjectStays(db, left, d.projectID);
    hide Key, Elsewhere, Keyed, Storable, Visible, AllVisible, Distinct, Without, Replace, Remove, Named, RowReplaced,
      KnownProject;
  }

  lemma ProjectStays(db: Db, left: Db, project: Option<ID>)
    requires left == db.(assets := left.assets)
    ensures KnownProject(left, project) == KnownProject(db, project)
  {
  }

  lemma SomeNamed(duplicates: seq<ID>, primary: ID)
    ensures Without(Distinct(duplicates), primary) != [] <==> exists id :: Named(duplicates, primary, id)
  {
    NamedIsUnique(duplicates, primary);
  }

  lemma NamedIsUnique(duplicates: seq<ID>, primary: ID)
    ensures var unique := Without(Distinct(duplicates), primary);
            && (forall id :: id in unique <==> Named(duplicates, primary, id))
            && (unique != [] <==> exists id :: Named(duplicates, primary, id))
  {
    var unique := Without(Distinct(duplicates), primary);
    DistinctSound(duplicates);
    WithoutSound(Distinct(duplicates), primary);
    hide Distinct, Without;
    if unique != [] {
      assert unique[0] in unique;
    }
  }

  lemma RemoveNamed(db: Db, duplicates: seq<ID>, primary: ID)
    requires Keyed(db.assets)
    ensures var left := Unnamed(db, duplicates, primary);
            Remove(db, Without(Distinct(duplicates), primary)) == left && Keyed(left.assets)
  {
    NamedIsUnique(duplicates, primary);
    hide Distinct, Without, Named, Key, Storable;
  }

  lemma AllNamedVisible(db: Db, access: ListAccess, duplicates: seq<ID>, primary: ID)
    ensures AllVisible(db, access, Without(Distinct(duplicates), primary))
            <==> forall id | Named(duplicates, primary, id) :: Visible(db, access, id)
  {
    NamedIsUnique(duplicates, primary);
    hide Distinct, Without, Named, Visible;
    var unique := Without(Distinct(duplicates), primary);
    if AllVisible(db, access, unique) {
      forall id | Named(duplicates, primary, id) ensures Visible(db, access, id) {
        var i :| 0 <= i < |unique| && unique[i] == id;
      }
    }
    assert forall i | 0 <= i < |unique| :: unique[i] in unique;
  }

  lemma PrimaryStays(db: Db, access: ListAccess, primary: ID, duplicates: seq<ID>, deleteAccess: ListAccess)
    ensures Visible(db, access, primary) ==> primary in db.assets && !Named(duplicates, primary, primary)
  {
    hide AssetShown;
  }

  /** A deletion removes exactly the named rows, if there are any and the user may see all of them. */
  lemma DeleteTold(db: Db, ids: seq<ID>, access: ListAccess)
    ensures var w := DeleteAssets(db, ids, access);
            && (w.Done? <==> ids != [] && forall id | id in ids :: Visible(db, access, id))
            && (w.Done? ==> w.db == db.(assets := map id | id in db.assets && id !in ids :: db.assets[id])
                            && w.count == |set id | id in ids|)
  {
    DistinctSound(ids);
    var unique := Distinct(ids);
    hide AssetShown, Distinct;
    if ids != [] {
      assert ids[0] in unique;
    }
    DistinctCount(unique);
    assert (set id | id in unique) == set id | id in ids;
    forall id | id in ids ensures exists i :: 0 <= i < |unique| && unique[i] == id {
      assert id in unique;
    }
  }

  lemma {:induction false} DistinctCount(ids: seq<ID>)
    requires forall i, j | 0 <= i < j < |ids| :: ids[i] != ids[j]
    ensures |set id | id in ids| == |ids|
  {
    if ids != [] {
      var n := |ids| - 1;
      DistinctCount(ids[..n]);
      assert (set id | id in ids) == (set id | id in ids[..n]) + {ids[n]};
    }
  }
}
