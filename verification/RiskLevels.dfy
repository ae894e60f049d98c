/**
 * What the cached figures of an asset say about its vulnerabilities, told in terms of the stored rows alone: which
 * severity and which status make which level.
 */
module RiskLevels {
  import opened AssetKeys
  import opened AssetStore
  import opened Base
  import opened RiskCache
  import opened Text

  /** The scan ran in the conversation, itself or as a task of it. */
  ghost predicate RanIn(db: Db, scan: Scan, c: ID) {
    || scan.conversationID == Some(c)
    || exists t :: scan.taskID == Some(t) && t in db.tasks && db.tasks[t].conversationID == Some(c)
  }

  /** The row was found in a conversation that the scan ran in. */
  ghost predicate FoundByScan(db: Db, scan: Scan, v: ID) {
    v in db.vulnerabilities && exists c :: db.vulnerabilities[v].conversationID == Some(c) && RanIn(db, scan, c)
  }

  /** A row of the scan has the severity and is neither fixed nor a false positive nor ignored. */
  ghost predicate Unresolved(db: Db, scan: Scan, severity: string) {
    exists v :: FoundByScan(db, scan, v) && LowerAscii(db.vulnerabilities[v].severity) == severity
                && Unsettled(db.vulnerabilities[v].status)
  }

  predicate Unsettled(status: string) {
    var s := LowerAscii(status);
    s != "fixed" && s != "false_positive" && s != "ignored"
  }

  /** The gravest severity among unresolved rows of the scan is the one at this place, counted from 5 for critical. */
  ghost predicate Gravest(db: Db, scan: Scan, place: nat) {
    var critical, high := Unresolved(db, scan, "critical"), Unresolved(db, scan, "high");
    var medium := Unresolved(db, scan, "medium");
    var low, info := Unresolved(db, scan, "low"), Unresolved(db, scan, "info");
    match place
    case 5 => critical
    case 4 => high && !critical
    case 3 => medium && !high && !critical
    case 2 => low && !medium && !high && !critical
    case 1 => info && !low && !medium && !high && !critical
    case 0 => !info && !low && !medium && !high && !critical
    case _ => false
  }

  ghost predicate FiguresTold(db: Db, row: AssetRow) {
    && row.cache.count == |set v | v in db.vulnerabilities && FoundByScan(db, row.scan, v)|
    && Gravest(db, row.scan, row.cache.score)
    && (row.cache.level == Unassessed <==> row.scan.at.None?)
    && (row.scan.at.Some?
        ==> && (row.cache.level == Critical <==> Gravest(db, row.scan, 5))
            && (row.cache.level == High <==> Gravest(db, row.scan, 4))
            && (row.cache.level == Medium <==> Gravest(db, row.scan, 3))
            && (row.cache.level == Low <==> Gravest(db, row.scan, 2))
            && (row.cache.level == Info <==> Gravest(db, row.scan, 1))
            && (row.cache.level == Normal <==> Gravest(db, row.scan, 0)))
  }

  // ---------------------------------------------------------------- the figures are those

  lemma FoundIsMatching(db: Db, scan: Scan)
    ensures (set v | v in db.vulnerabilities && FoundByScan(db, scan, v)) == Matching(db, scan)
    ensures forall v :: FoundByScan(db, scan, v) <==> v in Matching(db, scan)
  {
    forall v ensures FoundByScan(db, scan, v) <==> v in Matching(db, scan) {
      if v in Matching(db, scan) {
        assert db.vulnerabilities[v].conversationID == Some(db.vulnerabilities[v].conversationID.value);
      }
    }
  }

  lemma RankTold(severity: string)
    ensures var s := LowerAscii(severity);
            && (s == "critical" <==> Rank(severity) == 5) && (s == "high" <==> Rank(severity) == 4)
            && (s == "medium" <==> Rank(severity) == 3) && (s == "low" <==> Rank(severity) == 2)
            && (s == "info" <==> Rank(severity) == 1)
  {
  }

  lemma UnresolvedIsRank(db: Db, scan: Scan, severity: string, rank: nat)
    requires forall s: string :: LowerAscii(s) == severity <==> Rank(s) == rank
    ensures Unresolved(db, scan, severity) <==> HasRank(db, scan, rank)
  {
    FoundIsMatching(db, scan);
    hide FoundByScan, Matching, Rank, LowerAscii;
    if Unresolved(db, scan, severity) {
      var v :| FoundByScan(db, scan, v) && LowerAscii(db.vulnerabilities[v].severity) == severity
               && Unsettled(db.vulnerabilities[v].status);
      assert v in Matching(db, scan) && Open(db.vulnerabilities[v].status);
    }
  }

  lemma GravestIsScore(db: Db, scan: Scan, place: nat)
    ensures Gravest(db, scan, place) <==> Score(db, scan) == place
  {
    forall s: string {
      RankTold(s);
    }
    UnresolvedIsRank(db, scan, "critical", 5);
    UnresolvedIsRank(db, scan, "high", 4);
    UnresolvedIsRank(db, scan, "medium", 3);
    UnresolvedIsRank(db, scan, "low", 2);
    UnresolvedIsRank(db, scan, "info", 1);
    hide Unresolved, HasRank, Rank;
  }

  lemma ScannedIsTimed(db: Db, scan: Scan)
    requires scan.at.None? ==> scan.conversationID.None? && scan.taskID.None?
    ensures LastScan(db, scan).Some? <==> scan.at.Some?
  {
  }

  /** On a sound store every asset's figures are told by its vulnerabilities. */
  lemma SoundIsTold(db: Db, asset: ID)
    requires Sound(db) && asset in db.assets
    ensures FiguresTold(db, db.assets[asset])
  {
    var scan := db.assets[asset].scan;
    SoundFigures(db, asset);
    ScannedIsTimed(db, scan);
    FoundIsMatching(db, scan);
    forall place: nat {
      GravestIsScore(db, scan, place);
    }
    hide Gravest, Score, FoundByScan, Matching, LastScan, Sound;
  }

  /** After any run of operations on a store that had no assets, count, score and level of every asset are those. */
  lemma RunFiguresTold(r: NetRules, db: Db, ops: seq<Op>, asset: ID)
    requires db.assets == map[] && asset in Run(r, db, ops).assets
    ensures FiguresTold(Run(r, db, ops), Run(r, db, ops).assets[asset])
  {
    RunInvariant(r, db, ops);
    hide Run, Sound, Coherent;
    SoundIsTold(Run(r, db, ops), asset);
  }

  // ---------------------------------------------------------------- what the writers store

  /** All rows of the table but one. */
  ghost predicate OtherRowsKept(before: Db, after: Db, id: ID) {
    && after.vulnerabilities.Keys - {id} == before.vulnerabilities.Keys - {id}
    && forall v | v in before.vulnerabilities && v != id ::
         v in after.vulnerabilities && after.vulnerabilities[v] == before.vulnerabilities[v]
  }

  /** All tables but the vulnerabilities and the figures of assets. */
  ghost predicate OnlyFigures(before: Db, after: Db) {
    && after == before.(assets := after.assets, vulnerabilities := after.vulnerabilities)
    && after.assets.Keys == before.assets.Keys
    && forall a | a in before.assets :: after.assets[a] == before.assets[a].(cache := after.assets[a].cache)
  }

  /**
   * A new row is stored as given, open unless it has a status, and in the project of its conversation unless it names
   * one; it is refused exactly if its ID is taken or its conversation unknown.
   */
  lemma CreatedRow(db: Db, id: ID, v: VulnerabilityRow)
    ensures CreateVulnerability(db, id, v).None?
            <==> id in db.vulnerabilities || (exists c :: v.conversationID == Some(c) && c !in db.conversations)
    ensures CreateVulnerability(db, id, v).Some?
            ==> var after := CreateVulnerability(db, id, v).value;
                && OtherRowsKept(db, after, id) && OnlyFigures(db, after) && id in after.vulnerabilities
                && var row := after.vulnerabilities[id];
                   && row.conversationID == v.conversationID && row.severity == v.severity && row.texts == v.texts
                   && (v.status != "" ==> row.status == v.status) && (v.status == "" ==> row.status == "open")
                   && (v.projectID.Some? ==> row.projectID == v.projectID)
                   && (v.projectID.None?
                       ==> forall c | v.conversationID == Some(c) :: row.projectID == db.conversations[c])
                   && (v.projectID.None? && v.conversationID.None? ==> row.projectID.None?)
  {
    hide Computed, AffectedAssets;
    if v.conversationID.Some? {
      assert v.conversationID == Some(v.conversationID.value);
    }
  }

  /** An update stores every field but the conversation, which stays; of an unknown row it stores nothing. */
  lemma UpdatedRow(db: Db, id: ID, v: VulnerabilityRow)
    ensures var after := UpdateVulnerability(db, id, v);
            && OtherRowsKept(db, after, id) && OnlyFigures(db, after)
            && (id in after.vulnerabilities <==> id in db.vulnerabilities)
            && (id in db.vulnerabilities
                ==> var row := after.vulnerabilities[id];
                    && row.conversationID == db.vulnerabilities[id].conversationID && row.projectID == v.projectID
                    && row.severity == v.severity && row.status == v.status && row.texts == v.texts)
  {
    StoreKeepsRest(db, Overwritten(db, id, v), OldConversation(db, id) + Single(v.conversationID));
    hide StoreVulnerabilities;
  }

  /** A deletion removes the row and no other. */
  lemma DeletedRow(db: Db, id: ID)
    ensures var after := DeleteVulnerability(db, id);
            OtherRowsKept(db, after, id) && OnlyFigures(db, after) && id !in after.vulnerabilities
  {
    StoreKeepsRest(db, db.vulnerabilities - {id}, OldConversation(db, id));
    hide StoreVulnerabilities;
  }

  // ---------------------------------------------------------------- a finding comes and is fixed

  /** Rows of other IDs count as before; the row counts exactly if the scan ran in its conversation. */
  lemma FoundWith(before: Db, after: Db, id: ID, scan: Scan)
    requires OtherRowsKept(before, after, id) && after.tasks == before.tasks
    ensures forall v | v != id :: FoundByScan(after, scan, v) <==> FoundByScan(before, scan, v)
    ensures id in after.vulnerabilities
            ==> (FoundByScan(after, scan, id)
                 <==> exists c :: after.vulnerabilities[id].conversationID == Some(c) && RanIn(after, scan, c))
  {
    forall c {
      RanInSame(after, before, scan, c);
    }
    hide RanIn;
    forall v | v != id ensures FoundByScan(after, scan, v) <==> FoundByScan(before, scan, v) {
      assert v in after.vulnerabilities.Keys - {id} <==> v in before.vulnerabilities.Keys - {id};
    }
  }

  /** Creating an unresolved critical finding makes every asset scanned in its conversation critical at once. */
  lemma CriticalShows(db: Db, id: ID, v: VulnerabilityRow, c: ID, asset: ID)
    requires Sound(db) && asset in db.assets && db.assets[asset].scan.at.Some?
    requires CreateVulnerability(db, id, v).Some?
    requires v.conversationID == Some(c) && RanIn(db, db.assets[asset].scan, c)
    requires LowerAscii(v.severity) == "critical" && Unsettled(v.status)
    ensures var after := CreateVulnerability(db, id, v).value;
            asset in after.assets && after.assets[asset].cache.level == Critical && after.assets[asset].cache.score == 5
  {
    var after := CreateVulnerability(db, id, v).value;
    var scan := db.assets[asset].scan;
    CreatedRow(db, id, v);
    CreateVulnerabilitySound(db, id, v);
    hide CreateVulnerability, Sound, Unresolved, FoundByScan, RanIn;
    SoundIsTold(after, asset);
    FoundWith(db, after, id, scan);
    OpenIsUnsettled();
    RanInSame(db, after, scan, c);
    ShowsOne(after, scan, id, "critical");
  }

  lemma RanInSame(a: Db, b: Db, scan: Scan, c: ID)
    requires a.tasks == b.tasks
    ensures RanIn(a, scan, c) <==> RanIn(b, scan, c)
  {
  }

  lemma OpenIsUnsettled()
    ensures Unsettled("open")
  {
    assert |LowerAscii("open")| == 4 && |"fixed"| == 5 && |"false_positive"| == 14 && |"ignored"| == 7;
  }

  lemma ShowsOne(db: Db, scan: Scan, v: ID, severity: string)
    requires v in db.vulnerabilities && FoundByScan(db, scan, v)
    requires LowerAscii(db.vulnerabilities[v].severity) == severity && Unsettled(db.vulnerabilities[v].status)
    ensures Unresolved(db, scan, severity)
  {
  }

  lemma OneMoreCounted(before: Db, after: Db, id: ID, scan: Scan)
    requires OtherRowsKept(before, after, id) && after.tasks == before.tasks
    requires id !in before.vulnerabilities && id in after.vulnerabilities
    ensures |set v | v in after.vulnerabilities && FoundByScan(after, scan, v)|
            == |set v | v in before.vulnerabilities && FoundByScan(before, scan, v)|
               + if FoundByScan(after, scan, id) then 1 else 0
  {
    FoundWith(before, after, id, scan);
    hide FoundByScan;
    var earlier := set v | v in before.vulnerabilities && FoundByScan(before, scan, v);
    var now := set v | v in after.vulnerabilities && FoundByScan(after, scan, v);
    forall v | v != id ensures v in now <==> v in earlier {
      assert v in after.vulnerabilities.Keys - {id} <==> v in before.vulnerabilities.Keys - {id};
    }
    OneMore(earlier, now, id);
  }

  lemma OneMore(earlier: set<ID>, now: set<ID>, id: ID)
    requires id !in earlier && forall v | v != id :: v in now <==> v in earlier
    ensures |now| == |earlier| + if id in now then 1 else 0
  {
    assert now == if id in now then earlier + {id} else earlier;
  }

  /** A row that is settled shows in no level, whatever its severity. */
  lemma SettledHides(before: Db, after: Db, id: ID, scan: Scan, severity: string)
    requires OtherRowsKept(before, after, id) && after.tasks == before.tasks
    requires id !in before.vulnerabilities && id in after.vulnerabilities
    requires !Unsettled(after.vulnerabilities[id].status)
    ensures Unresolved(after, scan, severity) <==> Unresolved(before, scan, severity)
  {
    FoundWith(before, after, id, scan);
    hide LowerAscii, Unsettled;
    if Unresolved(after, scan, severity) {
      var v :| FoundByScan(after, scan, v) && LowerAscii(after.vulnerabilities[v].severity) == severity
               && Unsettled(after.vulnerabilities[v].status);
      ShowsOne(before, scan, v, severity);
    }
    if Unresolved(before, scan, severity) {
      var v :| FoundByScan(before, scan, v) && LowerAscii(before.vulnerabilities[v].severity) == severity
               && Unsettled(before.vulnerabilities[v].status);
      ShowsOne(after, scan, v, severity);
    }
  }

  /** Figures of two stores that show the same severities for the same scan. */
  lemma SameSeverities(a: Db, rowA: AssetRow, b: Db, rowB: AssetRow)
    requires FiguresTold(a, rowA) && FiguresTold(b, rowB) && rowA.scan == rowB.scan
    requires forall severity: string :: Unresolved(a, rowA.scan, severity) <==> Unresolved(b, rowB.scan, severity)
    ensures rowA.cache.score == rowB.cache.score && rowA.cache.level == rowB.cache.level
  {
    hide Unresolved, FoundByScan;
    assert forall place: nat :: Gravest(a, rowA.scan, place) <==> Gravest(b, rowB.scan, place);
  }

  /** The rows found in a conversation that the scan ran in. */
  ghost predicate FoundThere(db: Db, v: VulnerabilityRow, scan: Scan) {
    exists c :: v.conversationID == Some(c) && RanIn(db, scan, c)
  }

  lemma SettledRowTold(db: Db, after: Db, id: ID, asset: ID)
    requires Sound(db) && Sound(after) && asset in db.assets
    requires OtherRowsKept(db, after, id) && OnlyFigures(db, after)
    requires id !in db.vulnerabilities && id in after.vulnerabilities && !Unsettled(after.vulnerabilities[id].status)
    ensures var cache := after.assets[asset].cache;
            && cache.score == db.assets[asset].cache.score && cache.level == db.assets[asset].cache.level
            && cache.count == db.assets[asset].cache.count
                              + if FoundByScan(after, db.assets[asset].scan, id) then 1 else 0
  {
    var scan := db.assets[asset].scan;
    SoundIsTold(db, asset);
    SoundIsTold(after, asset);
    hide Sound, Unresolved, FoundByScan, LowerAscii, Unsettled, OtherRowsKept;
    OneMoreCounted(db, after, id, scan);
    forall severity: string ensures Unresolved(after, scan, severity) <==> Unresolved(db, scan, severity) {
      SettledHides(db, after, id, scan, severity);
    }
    assert after.assets[asset].scan == scan;
    hide OnlyFigures;
    SameSeverities(after, after.assets[asset], db, db.assets[asset]);
  }

  lemma KeptTwice(a: Db, b: Db, c: Db, id: ID)
    requires OtherRowsKept(a, b, id) && OtherRowsKept(b, c, id) && OnlyFigures(a, b) && OnlyFigures(b, c)
    ensures OtherRowsKept(a, c, id) && OnlyFigures(a, c)
  {
  }

  lemma FoundThereIs(db: Db, after: Db, id: ID, v: VulnerabilityRow, scan: Scan)
    requires id in after.vulnerabilities && after.vulnerabilities[id].conversationID == v.conversationID
    requires after.tasks == db.tasks
    ensures FoundByScan(after, scan, id) <==> FoundThere(db, v, scan)
  {
    forall c {
      RanInSame(after, db, scan, c);
    }
  }

  lemma CreatedThenUpdated(db: Db, id: ID, v: VulnerabilityRow, row: VulnerabilityRow)
    requires Sound(db) && CreateVulnerability(db, id, v).Some?
    ensures var after := UpdateVulnerability(CreateVulnerability(db, id, v).value, id, row);
            && OtherRowsKept(db, after, id) && OnlyFigures(db, after) && Sound(after) && after.tasks == db.tasks
            && id !in db.vulnerabilities && id in after.vulnerabilities
            && after.vulnerabilities[id].conversationID == v.conversationID
            && after.vulnerabilities[id].status == row.status
  {
    var created := CreateVulnerability(db, id, v).value;
    CreatedRow(db, id, v);
    CreateVulnerabilitySound(db, id, v);
    hide CreateVulnerability;
    UpdatedRow(created, id, row);
    UpdateVulnerabilitySound(created, id, row);
    hide UpdateVulnerability, Sound;
    KeptTwice(db, created, UpdateVulnerability(created, id, row), id);
  }

  lemma SettledText(status: string)
    requires LowerAscii(status) in ["fixed", "false_positive", "ignored"]
    ensures !Unsettled(status)
  {
    hide LowerAscii;
  }

  /**
   * A finding that comes and is then fixed, set aside or ignored leaves every asset its score and level of before; the
   * assets scanned in its conversation count one more.
   */
  lemma FixedTakesBack(db: Db, id: ID, v: VulnerabilityRow, settled: string, asset: ID)
    requires Sound(db) && asset in db.assets && CreateVulnerability(db, id, v).Some?
    requires LowerAscii(settled) in ["fixed", "false_positive", "ignored"]
    ensures var after := UpdateVulnerability(CreateVulnerability(db, id, v).value, id, v.(status := settled));
            && asset in after.assets
            && after.assets[asset].cache.score == db.assets[asset].cache.score
            && after.assets[asset].cache.level == db.assets[asset].cache.level
            && after.assets[asset].cache.count
               == db.assets[asset].cache.count
                  + if FoundThere(db, v, db.assets[asset].scan) then 1 else 0
  {
    hide CreateVulnerability, UpdateVulnerability, Sound, OtherRowsKept, Unsettled, LowerAscii, FoundThere,
      FoundByScan;
    CreatedThenUpdated(db, id, v, v.(status := settled));
    SettledText(settled);
    var after := UpdateVulnerability(CreateVulnerability(db, id, v).value, id, v.(status := settled));
    SettledRowTold(db, after, id, asset);
    FoundThereIs(db, after, id, v, db.assets[asset].scan);
  }

  // ---------------------------------------------------------------- which scan an asset is linked to

  /** The row of the asset has another scan, and new figures; nothing else changes. */
  ghost predicate OnlyScan(before: Db, after: Db, id: ID, scan: Scan) {
    && after == before.(assets := after.assets) && id in before.assets
    && after.assets.Keys == before.assets.Keys
    && after.assets[id] == before.assets[id].(scan := scan, cache := after.assets[id].cache)
    && forall a | a in before.assets && a != id :: after.assets[a] == before.assets[a]
  }

  lemma MarkedScan(db: Db, id: ID, c: Option<ID>, queue: Option<ID>, task: Option<ID>, now: int, access: ListAccess)
    requires MarkAssetScanned(db, id, c, queue, task, now, access).Some?
    ensures OnlyScan(db, MarkAssetScanned(db, id, c, queue, task, now, access).value, id,
                     Scan(Some(now), c, queue, task))
  {
    hide Computed;
  }

  /** A completed scan keeps its task and queue if that task belongs to the conversation, and loses both otherwise. */
  lemma CompletedScan(db: Db, id: ID, c: ID, now: int, access: ListAccess)
    requires CompleteAssetScan(db, id, Some(c), now, access).Some? && id in db.assets
    ensures var after, last := CompleteAssetScan(db, id, Some(c), now, access).value, db.assets[id].scan;
            if exists t :: last.taskID == Some(t) && t in db.tasks && db.tasks[t].conversationID == Some(c)
            then OnlyScan(db, after, id, last.(at := Some(now), conversationID := Some(c)))
            else OnlyScan(db, after, id, Scan(Some(now), Some(c), None, None))
  {
    hide Computed;
    if db.assets[id].scan.taskID.Some? {
      assert db.assets[id].scan.taskID == Some(db.assets[id].scan.taskID.value);
    }
  }
}
