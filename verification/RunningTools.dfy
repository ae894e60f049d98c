/**
 * Rows of tools that are still queued or running. The statistics count an execution once it has finished, and a purge
 * takes off every row it deletes, finished or not.
 */
module RunningTools {
  import opened Base
  import opened LegacyGuard
  import opened ToolStats

  const QUEUED := OtherStatus("queued")
  const RUNNING := OtherStatus("running")

  predicate Pending(s: Status) {
    s == QUEUED || s == RUNNING
  }

  /** The rows that have been counted. */
  function Done(log: Log): Log {
    map id | id in log && !Pending(log[id].status) :: log[id]
  }

  // ---------------------------------------------------------------- purging

  /** The purge deletes a pending row of the tool and leaves a finished one. */
  predicate TakesTooMuch(log: Log, ids: set<ID>, tool: ToolName) {
    && (exists id :: id in ids && id in log && log[id].tool == tool && Pending(log[id].status))
    && (exists id :: id in log && id !in ids && log[id].tool == tool && !Pending(log[id].status))
  }

  /** The deleted rows of a tool are its deleted finished rows and the pending ones. */
  lemma GoneRows(log: Log, ids: set<ID>, tool: ToolName)
    ensures var gone, counted := ids * OfTool(log, tool), ids * OfTool(Done(log), tool);
            && counted <= gone
            && (gone == counted
                <==> forall id | id in ids && id in log && log[id].tool == tool :: !Pending(log[id].status))
  {
    var gone, counted := ids * OfTool(log, tool), ids * OfTool(Done(log), tool);
    forall id | id in gone && !Pending(log[id].status) ensures id in counted {
    }
    if id :| id in gone && Pending(log[id].status) {
      assert id !in counted;
    }
  }

  lemma RestRows(log: Log, ids: set<ID>, tool: ToolName)
    ensures Done(DeletedLog(log, ids)) == DeletedLog(Done(log), ids)
    ensures OfTool(DeletedLog(Done(log), ids), tool) != {}
            <==> exists id :: id in log && id !in ids && log[id].tool == tool && !Pending(log[id].status)
  {
    var rest := OfTool(DeletedLog(Done(log), ids), tool);
    if id :| id in rest {
      assert id in log && id !in ids && log[id].tool == tool && !Pending(log[id].status);
    }
    if id :| id in log && id !in ids && log[id].tool == tool && !Pending(log[id].status) {
      assert id in rest;
    }
  }

  lemma MoreRows(a: set<ID>, b: set<ID>)
    requires a <= b
    ensures |a| <= |b| && (a != b ==> |a| < |b|)
  {
    SubsetSize(a, b);
    if id :| id in b && id !in a {
      SubsetSize(a + {id}, b);
    }
  }

  /** What a decrease by too much leaves is not what is left. */
  lemma DecreaseTooMuch(stats: Stats, deltas: Stats, tool: ToolName, rest: Stat)
    requires tool in stats && tool in deltas && stats[tool].total < deltas[tool].total + rest.total
    ensures rest.total == 0 ==> tool !in DecreaseAll(stats, deltas)
    ensures rest.total > 0 ==> tool !in DecreaseAll(stats, deltas) || DecreaseAll(stats, deltas)[tool] != rest
  {
  }

  lemma NothingTaken(ids: set<ID>, all: set<ID>)
    requires ids * all == {}
    ensures all - ids == all
  {
    assert forall id | id in all :: id in ids ==> id in ids * all;
  }

  lemma DecreaseNone(stats: Stats, deltas: Stats, tool: ToolName)
    requires tool !in stats || tool !in deltas
    ensures Figures(DecreaseAll(stats, deltas), tool) == Figures(stats, tool)
  {
  }

  /** The rows to take off are counted with the pending ones among them. */
  lemma PurgedTally(log: Log, ids: set<ID>, tool: ToolName)
    requires Named(log, ids)
    ensures var gone, counted := ids * OfTool(log, tool), ids * OfTool(Done(log), tool);
            && (tool in Deltas(log, ids) <==> gone != {})
            && (gone != {} ==> Deltas(log, ids)[tool] == Tally(log, gone))
            && (gone == counted ==> Tally(log, gone) == Tally(Done(log), counted))
            && (gone != counted ==> Tally(Done(log), counted).total < Tally(log, gone).total)
            && (gone != counted ==> gone != {})
  {
    UnderNamed(log, ids, tool);
    GoneRows(log, ids, tool);
    var gone, counted := ids * OfTool(log, tool), ids * OfTool(Done(log), tool);
    MoreRows(counted, gone);
    if gone == counted {
      SameTally(log, Done(log), gone);
    }
    hide OfTool, Deltas, Named, Under, Done, CompletedOf, FailedOf;
    if gone != {} {
      DeltaIs(log, ids, tool);
    }
  }

  /** One tool's figures after a purge. */
  lemma PurgeMirrorsToolIff(stats: Stats, log: Log, ids: set<ID>, tool: ToolName)
    requires MirrorsTool(stats, Done(log), tool) && Named(log, ids)
    ensures MirrorsTool(DecreaseAll(stats, Deltas(log, ids)), DeletedLog(Done(log), ids), tool)
            <==> !TakesTooMuch(log, ids, tool)
  {
    GoneRows(log, ids, tool);
    RestRows(log, ids, tool);
    hide Tally, OfTool, Deltas, DeletedLog, Named, Done, DecreaseAll;
    PurgedTally(log, ids, tool);
    SplitTally(Done(log), ids, tool);
    var deltas, left := Deltas(log, ids), DeletedLog(Done(log), ids);
    var gone, counted, rest := ids * OfTool(log, tool), ids * OfTool(Done(log), tool), OfTool(left, tool);
    assert TakesTooMuch(log, ids, tool) <==> gone != counted && rest != {};
    hide TakesTooMuch;
    TallyBounds(left, rest);
    if tool in stats && tool in deltas {
      if gone == counted {
        DecreaseLeaves(stats, deltas, tool, Tally(left, rest));
      } else {
        DecreaseTooMuch(stats, deltas, tool, Tally(left, rest));
      }
    } else {
      DecreaseNone(stats, deltas, tool);
      NoTally(Done(log));
      if tool in stats {
        NothingTaken(ids, OfTool(Done(log), tool));
      }
    }
  }

  /**
   * If the figures count the finished rows, they still do after rows with clean names are purged exactly if no tool
   * loses a pending row and keeps a finished one.
   */
  lemma PurgeMirrorsIff(stats: Stats, log: Log, ids: set<ID>)
    requires Mirrors(stats, Done(log)) && Named(log, ids)
    ensures Mirrors(DecreaseAll(stats, Deltas(log, ids)), Done(DeletedLog(log, ids)))
            <==> forall tool :: !TakesTooMuch(log, ids, tool)
  {
    var after := DecreaseAll(stats, Deltas(log, ids));
    RestRows(log, ids, BLANK);
    hide TakesTooMuch, DecreaseAll, Deltas, Done, DeletedLog, MirrorsTool;
    forall tool: ToolName
      ensures MirrorsTool(after, DeletedLog(Done(log), ids), tool) <==> !TakesTooMuch(log, ids, tool)
    {
      assert MirrorsTool(stats, Done(log), tool);
      PurgeMirrorsToolIff(stats, log, ids, tool);
    }
  }

  // ---------------------------------------------------------------- runs

  /** A row is stored when an execution is queued or starts, and again, and counted, when it has finished. */
  datatype Op =
    | Stored(id: ID, execution: Execution)
    | Finished(id: ID, execution: Execution)
    | Purged(cutoff: int)
    | Migrated(legacy: Legacy)

  /** Each execution finishes once, and its row is not pending then. */
  function Apply(s: State, op: Op): State {
    match op
    case Stored(id, e) =>
      if id in Done(s.log) || !Pending(e.status) then s else State(s.log[id := e], s.stats)
    case Finished(id, e) =>
      if id in Done(s.log) || Pending(e.status) then s
      else State(s.log[id := e], s.stats[e.tool := Plus(StatOr(s.stats, e.tool), GroupStat(1, e.status))])
    case Purged(cutoff) => ToolStats.Apply(s, ToolStats.Purged(cutoff))
    case Migrated(g) => ToolStats.Apply(s, ToolStats.Migrated(g))
  }

  function Run(ops: seq<Op>): State {
    if ops == [] then State(map[], map[]) else Apply(Run(ops[..|ops| - 1]), ops[|ops| - 1])
  }

  predicate CleanName(tool: ToolName) {
    tool != BLANK && Trimmed(tool) == tool
  }

  predicate CleanOp(op: Op) {
    op.Stored? || op.Finished? ==> CleanName(op.execution.tool)
  }

  /** No purge takes a pending row of a tool and leaves a finished one. */
  ghost predicate CarefulOp(s: State, op: Op) {
    op.Purged? ==> forall tool :: !TakesTooMuch(s.log, Before(s.log, op.cutoff), tool)
  }

  ghost predicate Careful(ops: seq<Op>) {
    forall i | 0 <= i < |ops| :: CleanOp(ops[i]) && CarefulOp(Run(ops[..i]), ops[i])
  }

  ghost predicate SoundDone(s: State) {
    Mirrors(s.stats, Done(s.log)) && Named(s.log, s.log.Keys)
  }

  lemma DoneStored(log: Log, id: ID, e: Execution)
    requires id !in Done(log)
    ensures Done(log[id := e]) == if Pending(e.status) then Done(log) else Done(log)[id := e]
  {
  }

  lemma DoneMigrated(g: Legacy, stats: Stats, log: Log)
    ensures Qualifying(g, Done(log)) == Qualifying(g, log)
    ensures var ids := Qualifying(g, log);
            && (Encodable(g, Done(log), ids) <==> Encodable(g, log, ids))
            && Done(BlockAll(g, log, ids)) == BlockAll(g, Done(log), ids)
            && UnfailAll(stats, Done(log), ids) == UnfailAll(stats, log, ids)
  {
    hide IsLegacyToolGuardRefusal, LessFailed;
    var ids := Qualifying(g, log);
    forall tool ensures ids * OfTool(Done(log), tool) == ids * OfTool(log, tool) {
    }
  }

  lemma ApplySoundDone(s: State, op: Op)
    requires SoundDone(s) && CleanOp(op) && CarefulOp(s, op)
    ensures SoundDone(Apply(s, op))
  {
    hide Trimmed, Mirrors, DecreaseAll, Deltas, UnfailAll, Plus, GroupStat, StatOr, Done, TakesTooMuch;
    match op
    case Stored(id, e) =>
      if id !in Done(s.log) {
        DoneStored(s.log, id, e);
      }
    case Finished(id, e) =>
      if id !in Done(s.log) {
        DoneStored(s.log, id, e);
        FinishMirrors(State(Done(s.log), s.stats), id, e);
      }
    case Purged(cutoff) => PurgeMirrorsIff(s.stats, s.log, Before(s.log, cutoff));
    case Migrated(g) =>
      DoneMigrated(g, s.stats, s.log);
      if Encodable(g, s.log, Qualifying(g, s.log)) {
        MigrateMirrors(g, s.stats, Done(s.log), Qualifying(g, s.log));
      }
  }

  /** After any such run the figures count the finished rows. */
  lemma {:induction false} RunMirrorsDone(ops: seq<Op>)
    requires Careful(ops)
    ensures SoundDone(Run(ops))
  {
    if ops == [] {
      forall tool ensures MirrorsTool(map[], map[], tool) {
      }
      assert Done(map[]) == map[];
    } else {
      var n := |ops| - 1;
      hide CleanOp, CarefulOp, Apply, SoundDone;
      forall i | 0 <= i < n ensures CleanOp(ops[..n][i]) && CarefulOp(Run(ops[..n][..i]), ops[..n][i]) {
        assert ops[..n][..i] == ops[..i];
      }
      RunMirrorsDone(ops[..n]);
      ApplySoundDone(Run(ops[..n]), ops[n]);
    }
  }

  /** One execution of a tool has finished, an older one still runs when its row is purged: the figures are gone. */
  lemma RunningPurged(finished: ID, running: ID, tool: ToolName)
    requires finished != running && CleanName(tool)
    ensures var log := map[finished := Execution(tool, Completed, 10, "", ""),
                           running := Execution(tool, RUNNING, 0, "", "")];
            var s := Apply(State(log, map[tool := Stat(1, 1, 0)]), Op.Purged(5));
            finished in s.log && tool !in s.stats
  {
    var log := map[finished := Execution(tool, Completed, 10, "", ""), running := Execution(tool, RUNNING, 0, "", "")];
    var ids := Before(log, 5);
    hide Trimmed;
    assert ids == {running};
    assert Under(log, ids, tool) == {running};
    assert tool in Names(log, ids);
  }
}
