/** The tool statistics, told by the rows of the log and their statuses alone. */
module ToolFigures {
  import opened Base
  import opened LegacyGuard
  import RunningTools
  import opened Text
  import opened ToolStats

  /** The figures of some rows: all of them, those completed, and those that failed, timed out or were orphaned. */
  predicate Counts(s: Stat, log: Log, ids: set<ID>) {
    && s.total == |ids|
    && s.success == |set id | id in ids && id in log && log[id].status == Completed|
    && s.failed == |set id | id in ids && id in log && log[id].status in {Failed, HardTimeout, Orphaned}|
  }

  /** A tool has figures exactly if it has rows, and they are the figures of its rows. */
  predicate FiguresTold(s: State, tool: ToolName) {
    var rows := set id | id in s.log && s.log[id].tool == tool;
    if rows == {} then tool !in s.stats else tool in s.stats && Counts(s.stats[tool], s.log, rows)
  }

  predicate FinishesNamed(op: Op) {
    op.Finished? ==> op.execution.tool.text != "" && TrimSpace(op.execution.tool.text) == op.execution.tool.text
  }

  lemma TallyCounts(log: Log, ids: set<ID>)
    ensures Counts(Tally(log, ids), log, ids)
  {
    assert CompletedOf(log, ids) == set id | id in ids && id in log && log[id].status == Completed;
    assert FailedOf(log, ids) == set id | id in ids && id in log && log[id].status in {Failed, HardTimeout, Orphaned};
  }

  lemma MirrorsTold(s: State, tool: ToolName)
    requires MirrorsTool(s.stats, s.log, tool)
    ensures FiguresTold(s, tool)
  {
    TallyCounts(s.log, OfTool(s.log, tool));
    hide Tally, Counts;
  }

  /** After any run of executions with clean tool names, purges and migrations. */
  lemma RunFiguresTold(ops: seq<Op>, tool: ToolName)
    requires forall i | 0 <= i < |ops| :: FinishesNamed(ops[i])
    ensures FiguresTold(Run(ops), tool)
  {
    assert forall i | 0 <= i < |ops| :: FinishesNamed(ops[i]);
    assert CleanNames(ops);
    RunMirrors(ops);
    hide Run, FiguresTold, TrimSpace;
    assert MirrorsTool(Run(ops).stats, Run(ops).log, tool);
    MirrorsTold(Run(ops), tool);
  }

  /** Rows of executions that are neither queued nor running. */
  function Ended(log: Log): Log {
    map id | id in log && log[id].status !in {OtherStatus("queued"), OtherStatus("running")} :: log[id]
  }

  /** With rows of queued and running executions in the log, the figures are those of the rows that have ended. */
  lemma EndedFiguresTold(ops: seq<RunningTools.Op>, tool: ToolName)
    requires RunningTools.Careful(ops)
    ensures var s := RunningTools.Run(ops); FiguresTold(State(Ended(s.log), s.stats), tool)
  {
    RunningTools.RunMirrorsDone(ops);
    var s := RunningTools.Run(ops);
    assert Ended(s.log) == RunningTools.Done(s.log);
    hide Ended, RunningTools.Done, RunningTools.Run, FiguresTold;
    assert MirrorsTool(s.stats, Ended(s.log), tool);
    MirrorsTold(State(Ended(s.log), s.stats), tool);
  }

  // ---------------------------------------------------------------- what each step leaves in the log

  /** The migration asks for these rows. */
  predicate OldRefusal(g: Legacy, e: Execution) {
    e.status == Failed && IsLegacyToolGuardRefusal(e.error, g.unquotes)
  }

  predicate Unmarked(g: Legacy, e: Execution) {
    OldRefusal(g, e) && g.marked(e.error, e.result) == None
  }

  /**
   * A finished execution is logged once; a purge leaves the rows from the cutoff on; the migration blocks the old
   * refusals among the failed rows and marks their results, or changes nothing if a result cannot be marked.
   */
  ghost predicate LogTold(before: Log, op: Op, after: Log) {
    match op
    case Finished(id, e) => after == if id in before then before else before[id := e]
    case Purged(cutoff) => after == map id | id in before && cutoff <= before[id].startedAt :: before[id]
    case Migrated(g) =>
      && after.Keys == before.Keys
      && if exists id :: id in before && Unmarked(g, before[id]) then after == before
         else forall id | id in before ::
                if OldRefusal(g, before[id])
                then && after[id] == before[id].(status := Blocked, result := after[id].result)
                     && g.marked(before[id].error, before[id].result) == Some(after[id].result)
                else after[id] == before[id]
  }

  lemma StepLogTold(s: State, op: Op)
    ensures LogTold(s.log, op, Apply(s, op).log)
  {
    hide *;
    match op
    case Finished(id, e) => FinishedTold(s, id, e);
    case Purged(cutoff) => PurgedTold(s, cutoff);
    case Migrated(g) => MigratedTold(g, s);
  }

  lemma FinishedTold(s: State, id: ID, e: Execution)
    ensures LogTold(s.log, Finished(id, e), Apply(s, Finished(id, e)).log)
  {
  }

  lemma PurgedTold(s: State, cutoff: int)
    ensures LogTold(s.log, Purged(cutoff), Apply(s, Purged(cutoff)).log)
  {
    hide Deltas, DecreaseAll, OldRefusal, Unmarked;
  }

  lemma MigratedTold(g: Legacy, s: State)
    ensures LogTold(s.log, Migrated(g), Apply(s, Migrated(g)).log)
  {
    hide IsLegacyToolGuardRefusal, UnfailAll;
    var ids := Qualifying(g, s.log);
    forall id | id in s.log ensures id in ids <==> OldRefusal(g, s.log[id]) {
    }
    if Encodable(g, s.log, ids) {
      forall id | id in s.log && OldRefusal(g, s.log[id])
        ensures g.marked(s.log[id].error, s.log[id].result).Some?
      {
        assert id in ids;
      }
    } else {
      var id :| id in ids && id in s.log && !g.marked(s.log[id].error, s.log[id].result).Some?;
      assert OldRefusal(g, s.log[id]);
    }
  }

  // ---------------------------------------------------------------- purging, whatever the names

  function AtLeastZero(n: int): int {
    if n < 0 then 0 else n
  }

  /** A tool's figures go down by those of the purged rows whose trimmed name is its name, and not below zero. */
  ghost predicate PurgeTold(s: State, cutoff: int, tool: ToolName, after: State) {
    var gone := set id | id in s.log && s.log[id].startedAt < cutoff && TrimSpace(s.log[id].tool.text) == tool.text;
    if tool !in s.stats then tool !in after.stats
    else if tool.text == "" || gone == {} then tool in after.stats && after.stats[tool] == s.stats[tool]
    else
      exists d: Stat ::
        && Counts(d, s.log, gone)
        && (tool in after.stats <==> d.total < s.stats[tool].total)
        && (tool in after.stats ==> after.stats[tool] == Stat(s.stats[tool].total - d.total,
                                                              AtLeastZero(s.stats[tool].success - d.success),
                                                              AtLeastZero(s.stats[tool].failed - d.failed)))
  }

  /** What a purge takes off a tool's figures. */
  lemma DeltaTold(log: Log, cutoff: int, tool: ToolName)
    ensures var gone := set id | id in log && log[id].startedAt < cutoff && TrimSpace(log[id].tool.text) == tool.text;
            var deltas := Deltas(log, Before(log, cutoff));
            && (tool in deltas <==> tool.text != "" && gone != {})
            && (tool in deltas ==> Counts(deltas[tool], log, gone))
  {
    var purged := Before(log, cutoff);
    var gone := Under(log, purged, tool);
    assert gone == set id | id in log && log[id].startedAt < cutoff && TrimSpace(log[id].tool.text) == tool.text;
    hide TrimSpace, Counts, Tally;
    if id :| id in gone {
      assert tool in Names(log, purged);
    }
    TallyCounts(log, gone);
  }

  /** Decreasing by counts that are not zero. */
  lemma DecreaseTold(stats: Stats, deltas: Stats, tool: ToolName)
    requires tool in stats && tool in deltas
    ensures var s, d, after := stats[tool], deltas[tool], DecreaseAll(stats, deltas);
            && (tool in after <==> d.total < s.total)
            && (tool in after ==> after[tool] == Stat(s.total - d.total, AtLeastZero(s.success - d.success),
                                                      AtLeastZero(s.failed - d.failed)))
  {
  }

  lemma StepPurgeTold(s: State, cutoff: int, tool: ToolName)
    ensures PurgeTold(s, cutoff, tool, Apply(s, Purged(cutoff)))
  {
    hide TrimSpace, Counts, Deltas, DecreaseAll, DeletedLog, AtLeastZero;
    var deltas := Deltas(s.log, Before(s.log, cutoff));
    DeltaTold(s.log, cutoff, tool);
    if tool in s.stats && tool in deltas {
      DecreaseTold(s.stats, deltas, tool);
    } else {
      DecreaseOther(s.stats, deltas, tool);
    }
  }

  lemma DecreaseOther(stats: Stats, deltas: Stats, tool: ToolName)
    requires tool !in stats || tool !in deltas
    ensures tool in DecreaseAll(stats, deltas) <==> tool in stats
    ensures tool in stats ==> DecreaseAll(stats, deltas)[tool] == stats[tool]
  {
  }
}
