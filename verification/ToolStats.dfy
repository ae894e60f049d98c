/** The tool statistics, which are to mirror the log of tool executions. */
module ToolStats {
  import opened Base
  import opened LegacyGuard
  import opened Text

  datatype Status = Completed | Failed | HardTimeout | Orphaned | Blocked | OtherStatus(name: string)

  datatype ToolName = ToolName(text: string)

  const BLANK := ToolName("")

  function Trimmed(tool: ToolName): ToolName {
    ToolName(TrimSpace(tool.text))
  }

  datatype Execution = Execution(tool: ToolName, status: Status, startedAt: int, error: string, result: string)

  datatype Stat = Stat(total: int, success: int, failed: int)

  type Log = map<ID, Execution>

  type Stats = map<ToolName, Stat>

  // ---------------------------------------------------------------- counting the log

  predicate CountsAsFailed(s: Status) {
    s == Failed || s == HardTimeout || s == Orphaned
  }

  function CompletedOf(log: Log, ids: set<ID>): set<ID> {
    set id | id in ids && id in log && log[id].status == Completed
  }

  function FailedOf(log: Log, ids: set<ID>): set<ID> {
    set id | id in ids && id in log && CountsAsFailed(log[id].status)
  }

  /** The counts over some rows of the log. */
  function Tally(log: Log, ids: set<ID>): Stat {
    Stat(|ids|, |CompletedOf(log, ids)|, |FailedOf(log, ids)|)
  }

  function OfTool(log: Log, tool: ToolName): set<ID> {
    set id | id in log && log[id].tool == tool
  }

  /** Each tool's figures are the counts in the log; a tool without executions has no figures. */
  ghost predicate Mirrors(stats: Stats, log: Log) {
    forall tool :: MirrorsTool(stats, log, tool)
  }

  predicate MirrorsTool(stats: Stats, log: Log, tool: ToolName) {
    Figures(stats, tool) == Counted(log, tool)
  }

  function Figures(stats: Stats, tool: ToolName): Option<Stat> {
    if tool in stats then Some(stats[tool]) else None
  }

  function Counted(log: Log, tool: ToolName): Option<Stat> {
    if OfTool(log, tool) == {} then None else Some(Tally(log, OfTool(log, tool)))
  }

  function Plus(a: Stat, b: Stat): Stat {
    Stat(a.total + b.total, a.success + b.success, a.failed + b.failed)
  }

  lemma TallyUnion(log: Log, a: set<ID>, b: set<ID>)
    requires a * b == {}
    ensures Tally(log, a + b) == Plus(Tally(log, a), Tally(log, b))
  {
    assert CompletedOf(log, a + b) == CompletedOf(log, a) + CompletedOf(log, b);
    assert FailedOf(log, a + b) == FailedOf(log, a) + FailedOf(log, b);
  }

  // ---------------------------------------------------------------- decreasing

  function Floor(n: int): nat {
    if n < 0 then 0 else n
  }

  /** The figures less some counts, never below zero; a tool whose total comes to zero goes. */
  function Decrease(stats: Stats, tool: ToolName, d: Stat): Stats {
    if tool !in stats then stats
    else
      var left := Stat(Floor(stats[tool].total - d.total), Floor(stats[tool].success - d.success),
                       Floor(stats[tool].failed - d.failed));
      if left.total == 0 then stats - {tool} else stats[tool := left]
  }

  /** What one tool's figures become under all the decreases. */
  function DecreaseAll(stats: Stats, deltas: Stats): Stats {
    map tool | tool in stats && (tool in deltas ==> tool in Decrease(stats, tool, deltas[tool]))
      :: if tool in deltas then Decrease(stats, tool, deltas[tool])[tool] else stats[tool]
  }

  /** The rows counted under a tool name: those whose trimmed name it is. */
  function Under(log: Log, ids: set<ID>, tool: ToolName): set<ID> {
    set id | id in ids && id in log && Trimmed(log[id].tool) == tool
  }

  /** The counts to take off for deleted rows; rows without a name are left out. */
  function Deltas(log: Log, ids: set<ID>): Stats {
    map tool | tool in Names(log, ids) && tool != BLANK :: Tally(log, Under(log, ids, tool))
  }

  function Names(log: Log, ids: set<ID>): set<ToolName> {
    set id | id in ids && id in log :: Trimmed(log[id].tool)
  }

  function Before(log: Log, cutoff: int): set<ID> {
    set id | id in log && log[id].startedAt < cutoff
  }

  // ---------------------------------------------------------------- the legacy blocks

  /** What the migration needs from outside: whether a text is a string literal, and the result marked as blocked. */
  datatype Legacy = Legacy(unquotes: string -> bool, marked: (string, string) -> Option<string>)

  function Qualifying(g: Legacy, log: Log): set<ID> {
    set id | id in log && log[id].status == Failed && IsLegacyToolGuardRefusal(log[id].error, g.unquotes)
  }

  /** Encoding a result can fail, and then nothing is migrated. */
  predicate Encodable(g: Legacy, log: Log, ids: set<ID>) {
    forall id | id in ids && id in log :: g.marked(log[id].error, log[id].result).Some?
  }

  function Block(g: Legacy, e: Execution): Execution {
    match g.marked(e.error, e.result)
    case Some(result) => e.(status := Blocked, result := result)
    case None => e
  }

  function BlockAll(g: Legacy, log: Log, ids: set<ID>): Log {
    map id | id in log :: if id in ids then Block(g, log[id]) else log[id]
  }

  function LessFailed(s: Stat, n: nat): Stat {
    if n == 0 then s else s.(failed := Floor(s.failed - n))
  }

  /** How many of the rows are of the tool. */
  function CountIn(log: Log, ids: set<ID>, tool: ToolName): nat {
    |ids * OfTool(log, tool)|
  }

  function UnfailAll(stats: Stats, log: Log, ids: set<ID>): Stats {
    map tool | tool in stats :: LessFailed(stats[tool], CountIn(log, ids, tool))
  }

  // ---------------------------------------------------------------- deleting rows

  function DeletedLog(log: Log, ids: set<ID>): Log {
    map id | id in log && id !in ids :: log[id]
  }

  /** All the rows have a name, and no white space around it. */
  predicate Named(log: Log, ids: set<ID>) {
    forall id | id in ids && id in log :: log[id].tool != BLANK && Trimmed(log[id].tool) == log[id].tool
  }

  lemma SameTally(log: Log, later: Log, ids: set<ID>)
    requires forall id | id in ids :: id in log && id in later && log[id].status == later[id].status
    ensures Tally(log, ids) == Tally(later, ids)
  {
    assert CompletedOf(log, ids) == CompletedOf(later, ids);
    assert FailedOf(log, ids) == FailedOf(later, ids);
  }

  /** What is counted under a tool's name, if all names are clean, are the deleted rows of the tool. */
  lemma UnderNamed(log: Log, ids: set<ID>, tool: ToolName)
    requires Named(log, ids)
    ensures Under(log, ids, tool) == ids * OfTool(log, tool)
    ensures tool in Deltas(log, ids) <==> ids * OfTool(log, tool) != {}
  {
    hide Trimmed;
    if tool in Deltas(log, ids) {
      var id :| id in ids && id in log && Trimmed(log[id].tool) == tool;
      assert id in ids * OfTool(log, tool);
    }
    if id :| id in ids * OfTool(log, tool) {
      assert Trimmed(log[id].tool) == tool;
    }
  }

  /** A tool's counts fall into those of its deleted rows and those of the rows that stay. */
  lemma SplitTally(log: Log, ids: set<ID>, tool: ToolName)
    ensures var rest := OfTool(DeletedLog(log, ids), tool);
            && rest == OfTool(log, tool) - ids
            && Tally(log, OfTool(log, tool))
               == Plus(Tally(log, ids * OfTool(log, tool)), Tally(DeletedLog(log, ids), rest))
  {
    var all, gone := OfTool(log, tool), ids * OfTool(log, tool);
    var rest := OfTool(DeletedLog(log, ids), tool);
    assert rest == all - ids;
    assert all == gone + rest;
    TallyUnion(log, gone, rest);
    SameTally(log, DeletedLog(log, ids), rest);
  }

  lemma TallyBounds(log: Log, ids: set<ID>)
    ensures var t := Tally(log, ids);
            0 <= t.success <= t.total && 0 <= t.failed <= t.total && (t.total == 0 <==> ids == {})
  {
    SubsetSize(CompletedOf(log, ids), ids);
    SubsetSize(FailedOf(log, ids), ids);
    if ids != {} {
      var id :| id in ids;
      SubsetSize({id}, ids);
    }
  }

  lemma SubsetSize(a: set<ID>, b: set<ID>)
    requires a <= b
    ensures |a| <= |b|
  {
    assert b == a + (b - a);
  }

  lemma DeltaIs(log: Log, ids: set<ID>, tool: ToolName)
    requires tool in Deltas(log, ids)
    ensures Deltas(log, ids)[tool] == Tally(log, Under(log, ids, tool))
  {
  }

  /** Decreasing by a part of the figures leaves the other part, without any floor. */
  lemma DecreaseLeaves(stats: Stats, deltas: Stats, tool: ToolName, rest: Stat)
    requires tool in stats && tool in deltas && stats[tool] == Plus(deltas[tool], rest)
    requires rest.total >= 0 && rest.success >= 0 && rest.failed >= 0
    ensures tool in DecreaseAll(stats, deltas) <==> rest.total != 0
    ensures rest.total != 0 ==> DecreaseAll(stats, deltas)[tool] == rest
  {
  }

  /** Deleting rows with clean names takes each tool's figures to the new counts, and no floor takes effect. */
  lemma DeleteMirrorsTool(stats: Stats, log: Log, ids: set<ID>, tool: ToolName)
    requires MirrorsTool(stats, log, tool) && Named(log, ids)
    ensures MirrorsTool(DecreaseAll(stats, Deltas(log, ids)), DeletedLog(log, ids), tool)
    ensures tool in stats && tool in Deltas(log, ids)
            ==> (var s, d := stats[tool], Deltas(log, ids)[tool];
                 0 <= d.total <= s.total && 0 <= d.success <= s.success && 0 <= d.failed <= s.failed)
  {
    UnderNamed(log, ids, tool);
    SplitTally(log, ids, tool);
    hide Tally, OfTool, Deltas, DeletedLog, Named, Under;
    var gone, rest := ids * OfTool(log, tool), OfTool(DeletedLog(log, ids), tool);
    TallyBounds(log, gone);
    TallyBounds(DeletedLog(log, ids), rest);
    if tool in stats {
      if gone == {} {
        assert OfTool(log, tool) == rest;
      } else {
        DeltaIs(log, ids, tool);
        DecreaseLeaves(stats, Deltas(log, ids), tool, Tally(DeletedLog(log, ids), rest));
      }
    }
  }

  /** A row whose name is blank or has white space around it is taken off the wrong figures, or off none. */
  lemma BadNameBreaks(stats: Stats, log: Log, ids: set<ID>, id: ID)
    requires Mirrors(stats, log) && id in ids && id in log
    requires log[id].tool == BLANK || Trimmed(log[id].tool) != log[id].tool
    ensures !MirrorsTool(DecreaseAll(stats, Deltas(log, ids)), DeletedLog(log, ids), log[id].tool)
  {
    var tool := log[id].tool;
    assert MirrorsTool(stats, log, tool) && id in OfTool(log, tool);
    if tool in Deltas(log, ids) {
      var other :| other in ids && other in log && Trimmed(log[other].tool) == tool;
      TrimTwice(log[other].tool.text);
      assert false;
    }
    SplitTally(log, ids, tool);
    hide Deltas, Trimmed;
    TallyBounds(log, ids * OfTool(log, tool));
    assert id in ids * OfTool(log, tool);
  }

  /** After any rows are deleted, the statistics mirror the log exactly if all of these rows had clean names. */
  lemma DeleteMirrorsIff(stats: Stats, log: Log, ids: set<ID>)
    requires Mirrors(stats, log)
    ensures Mirrors(DecreaseAll(stats, Deltas(log, ids)), DeletedLog(log, ids)) <==> Named(log, ids)
  {
    if Named(log, ids) {
      forall tool ensures MirrorsTool(DecreaseAll(stats, Deltas(log, ids)), DeletedLog(log, ids), tool) {
        assert MirrorsTool(stats, log, tool);
        DeleteMirrorsTool(stats, log, ids, tool);
      }
    } else {
      var id :| id in ids && id in log && !(log[id].tool != BLANK && Trimmed(log[id].tool) == log[id].tool);
      BadNameBreaks(stats, log, ids, id);
    }
  }

  // ---------------------------------------------------------------- migrating

  /** Blocking failed rows changes no total, and takes them off the failures one by one. */
  lemma BlockTally(g: Legacy, log: Log, ids: set<ID>, all: set<ID>)
    requires all <= log.Keys && ids <= Qualifying(g, log) && Encodable(g, log, ids)
    ensures var before, after := Tally(log, all), Tally(BlockAll(g, log, ids), all);
            after == before.(failed := before.failed - |ids * all|)
  {
    var later := BlockAll(g, log, ids);
    BlockedLeave(g, log, ids, all);
    hide BlockAll, FailedOf, CompletedOf, Qualifying, Encodable;
    assert |FailedOf(log, all)| == |FailedOf(later, all)| + |ids * all|;
  }

  lemma BlockedLeave(g: Legacy, log: Log, ids: set<ID>, all: set<ID>)
    requires all <= log.Keys && ids <= Qualifying(g, log) && Encodable(g, log, ids)
    ensures var later := BlockAll(g, log, ids);
            && CompletedOf(later, all) == CompletedOf(log, all)
            && FailedOf(log, all) == FailedOf(later, all) + ids * all && FailedOf(later, all) * (ids * all) == {}
  {
  }

  lemma SameTools(g: Legacy, log: Log, ids: set<ID>, tool: ToolName)
    ensures OfTool(BlockAll(g, log, ids), tool) == OfTool(log, tool)
    ensures OfTool(log, tool) <= log.Keys
  {
  }

  lemma MigrateMirrorsTool(g: Legacy, stats: Stats, log: Log, ids: set<ID>, tool: ToolName)
    requires MirrorsTool(stats, log, tool) && ids <= Qualifying(g, log) && Encodable(g, log, ids)
    ensures MirrorsTool(UnfailAll(stats, log, ids), BlockAll(g, log, ids), tool)
    ensures tool in stats ==> CountIn(log, ids, tool) <= stats[tool].failed
  {
    hide Tally, OfTool, BlockAll, Qualifying, Encodable;
    SameTools(g, log, ids, tool);
    BlockTally(g, log, ids, OfTool(log, tool));
    TallyBounds(BlockAll(g, log, ids), OfTool(log, tool));
  }

  /** The migration keeps the statistics a mirror of the log, and no floor takes effect. */
  lemma MigrateMirrors(g: Legacy, stats: Stats, log: Log, ids: set<ID>)
    requires Mirrors(stats, log) && ids <= Qualifying(g, log) && Encodable(g, log, ids)
    ensures Mirrors(UnfailAll(stats, log, ids), BlockAll(g, log, ids))
    ensures forall tool | tool in stats :: CountIn(log, ids, tool) <= stats[tool].failed
  {
    hide MirrorsTool, UnfailAll, BlockAll, OfTool;
    forall tool
      ensures MirrorsTool(UnfailAll(stats, log, ids), BlockAll(g, log, ids), tool)
      ensures tool in stats ==> CountIn(log, ids, tool) <= stats[tool].failed
    {
      assert MirrorsTool(stats, log, tool);
      MigrateMirrorsTool(g, stats, log, ids, tool);
    }
  }

  /** Migrating a second time finds nothing and changes nothing. */
  lemma MigrateTwice(g: Legacy, stats: Stats, log: Log)
    requires Encodable(g, log, Qualifying(g, log))
    ensures var once := BlockAll(g, log, Qualifying(g, log));
            Qualifying(g, once) == {} && BlockAll(g, once, {}) == once && UnfailAll(stats, once, {}) == stats
  {
    NothingBlocked(g, stats, BlockAll(g, log, Qualifying(g, log)));
  }

  // ---------------------------------------------------------------- counting in groups, one row after the other

  /** The figures that one row of the grouped query adds. */
  function GroupStat(count: nat, status: Status): Stat {
    Stat(count, if status == Completed then count else 0, if CountsAsFailed(status) then count else 0)
  }

  function StatOr(stats: Stats, tool: ToolName): Stat {
    if tool in stats then stats[tool] else Stat(0, 0, 0)
  }

  /** The counts with one row of the grouped query added; a blank name or an empty group adds nothing. */
  function AddGroup(deltas: Stats, name: ToolName, count: nat, status: Status): Stats {
    if name == BLANK || count == 0 then deltas
    else deltas[name := Plus(StatOr(deltas, name), GroupStat(count, status))]
  }

  lemma GroupTally(log: Log, ids: set<ID>, status: Status)
    requires forall id | id in ids :: id in log && log[id].status == status
    ensures Tally(log, ids) == GroupStat(|ids|, status)
  {
    assert CompletedOf(log, ids) == if status == Completed then ids else {};
    assert FailedOf(log, ids) == if CountsAsFailed(status) then ids else {};
  }

  lemma DeltasKeys(log: Log, ids: set<ID>)
    ensures Deltas(log, ids).Keys == Names(log, ids) - {BLANK}
  {
    hide Trimmed;
  }

  lemma UnderGroup(log: Log, done: set<ID>, ids: set<ID>, name: ToolName, tool: ToolName)
    requires forall id | id in ids :: id in log && Trimmed(log[id].tool) == name
    ensures Under(log, done + ids, tool) == Under(log, done, tool) + if tool == name then ids else {}
    ensures Under(log, done, tool) <= done
  {
    hide Trimmed;
  }

  /** Rows of one name and status. */
  predicate OneGroup(log: Log, ids: set<ID>, name: ToolName, status: Status) {
    ids != {} && forall id | id in ids :: id in log && Trimmed(log[id].tool) == name && log[id].status == status
  }

  /** What is counted under any name when a group is added. */
  lemma UnderTally(log: Log, done: set<ID>, ids: set<ID>, name: ToolName, status: Status, tool: ToolName)
    requires done * ids == {} && OneGroup(log, ids, name, status)
    ensures Tally(log, Under(log, done + ids, tool))
            == if tool == name then Plus(Tally(log, Under(log, done, tool)), GroupStat(|ids|, status))
               else Tally(log, Under(log, done, tool))
  {
    UnderGroup(log, done, ids, name, tool);
    if tool == name {
      GroupTally(log, ids, status);
      TallyUnion(log, Under(log, done, name), ids);
    }
  }

  lemma DeltasGroupAt(log: Log, done: set<ID>, ids: set<ID>, name: ToolName, status: Status, tool: ToolName)
    requires done * ids == {} && OneGroup(log, ids, name, status) && tool in Deltas(log, done + ids)
    ensures tool in AddGroup(Deltas(log, done), name, |ids|, status)
            && Deltas(log, done + ids)[tool] == AddGroup(Deltas(log, done), name, |ids|, status)[tool]
  {
    hide Trimmed, GroupStat, Deltas, Tally, Under, Names;
    DeltasKeys(log, done);
    DeltasKeys(log, done + ids);
    NamesGroup(log, done, ids, name);
    NoRowsUnder(log, done, tool);
    UnderTally(log, done, ids, name, status, tool);
    DeltaIs(log, done + ids, tool);
    if tool in Deltas(log, done) {
      DeltaIs(log, done, tool);
    }
  }

  lemma GroupKeys(log: Log, done: set<ID>, ids: set<ID>, name: ToolName, status: Status)
    requires OneGroup(log, ids, name, status)
    ensures Deltas(log, done + ids).Keys == AddGroup(Deltas(log, done), name, |ids|, status).Keys
  {
    DeltasKeys(log, done);
    DeltasKeys(log, done + ids);
    NamesGroup(log, done, ids, name);
    hide Trimmed, GroupStat, Deltas, Names, OneGroup;
    assert |ids| > 0;
  }

  lemma SameStats(a: Stats, b: Stats)
    requires a.Keys == b.Keys && forall tool | tool in a :: a[tool] == b[tool]
    ensures a == b
  {
  }

  /** Rows of one name and status add to the counts of that name alone, and nothing if the name is blank. */
  lemma DeltasGroup(log: Log, done: set<ID>, ids: set<ID>, name: ToolName, status: Status)
    requires done * ids == {} && OneGroup(log, ids, name, status)
    ensures Deltas(log, done + ids) == AddGroup(Deltas(log, done), name, |ids|, status)
  {
    hide *;
    GroupKeys(log, done, ids, name, status);
    forall tool | tool in Deltas(log, done + ids)
      ensures tool in AddGroup(Deltas(log, done), name, |ids|, status)
      ensures Deltas(log, done + ids)[tool] == AddGroup(Deltas(log, done), name, |ids|, status)[tool]
    {
      DeltasGroupAt(log, done, ids, name, status, tool);
    }
    SameStats(Deltas(log, done + ids), AddGroup(Deltas(log, done), name, |ids|, status));
  }

  lemma NamesGroup(log: Log, done: set<ID>, ids: set<ID>, name: ToolName)
    requires ids != {} && forall id | id in ids :: id in log && Trimmed(log[id].tool) == name
    ensures Names(log, done + ids) == Names(log, done) + {name}
  {
    hide Trimmed;
    var id :| id in ids;
    assert name in Names(log, done + ids);
  }

  lemma NoRowsUnder(log: Log, ids: set<ID>, tool: ToolName)
    ensures tool !in Names(log, ids) ==> Tally(log, Under(log, ids, tool)) == Stat(0, 0, 0)
  {
    if tool !in Names(log, ids) {
      assert Under(log, ids, tool) == {};
      assert CompletedOf(log, {}) == {} && FailedOf(log, {}) == {};
    }
  }

  /** Decreasing one more tool's figures. */
  lemma DecreaseOneMore(stats: Stats, deltas: Stats, tool: ToolName, d: Stat)
    requires tool !in deltas
    ensures Decrease(DecreaseAll(stats, deltas), tool, d) == DecreaseAll(stats, deltas[tool := d])
  {
  }

  /** Blocking one more row. */
  lemma BlockOneMore(g: Legacy, log: Log, ids: set<ID>, id: ID)
    requires id in log
    ensures BlockAll(g, log, ids)[id := Block(g, log[id])] == BlockAll(g, log, ids + {id})
  {
    hide Block;
  }

  function Unfail(stats: Stats, tool: ToolName): Stats {
    if tool in stats then stats[tool := stats[tool].(failed := Floor(stats[tool].failed - 1))] else stats
  }

  lemma CountOneMore(log: Log, ids: set<ID>, id: ID, tool: ToolName)
    requires id in log && id !in ids
    ensures CountIn(log, ids + {id}, tool) == CountIn(log, ids, tool) + if tool == log[id].tool then 1 else 0
  {
    if tool == log[id].tool {
      assert (ids + {id}) * OfTool(log, tool) == ids * OfTool(log, tool) + {id};
    } else {
      assert (ids + {id}) * OfTool(log, tool) == ids * OfTool(log, tool);
    }
  }

  lemma LessFailedOnce(s: Stat, n: nat)
    ensures LessFailed(s, n + 1) == LessFailed(s, n).(failed := Floor(LessFailed(s, n).failed - 1))
  {
  }

  lemma UnfailAt(stats: Stats, log: Log, ids: set<ID>, id: ID, tool: ToolName)
    requires id in log && id !in ids && tool in stats
    ensures tool in UnfailAll(stats, log, ids + {id}) && tool in Unfail(UnfailAll(stats, log, ids), log[id].tool)
    ensures UnfailAll(stats, log, ids + {id})[tool] == Unfail(UnfailAll(stats, log, ids), log[id].tool)[tool]
  {
    hide CountIn, LessFailed;
    CountOneMore(log, ids, id, tool);
    LessFailedOnce(stats[tool], CountIn(log, ids, tool));
  }

  lemma UnfailKeys(stats: Stats, log: Log, ids: set<ID>)
    ensures UnfailAll(stats, log, ids).Keys == stats.Keys
  {
  }

  lemma UnfailOneMore(stats: Stats, log: Log, ids: set<ID>, id: ID)
    requires id in log && id !in ids
    ensures UnfailAll(stats, log, ids + {id}) == Unfail(UnfailAll(stats, log, ids), log[id].tool)
  {
    hide CountIn, LessFailed;
    assert UnfailAll(stats, log, ids + {id}).Keys == Unfail(UnfailAll(stats, log, ids), log[id].tool).Keys;
    hide UnfailAll, Unfail;
    forall tool | tool in UnfailAll(stats, log, ids + {id})
      ensures UnfailAll(stats, log, ids + {id})[tool] == Unfail(UnfailAll(stats, log, ids), log[id].tool)[tool]
    {
      UnfailKeys(stats, log, ids + {id});
      UnfailAt(stats, log, ids, id, tool);
    }
    SameStats(UnfailAll(stats, log, ids + {id}), Unfail(UnfailAll(stats, log, ids), log[id].tool));
  }

  // ---------------------------------------------------------------- runs

  datatype Op = Finished(id: ID, execution: Execution) | Purged(cutoff: int) | Migrated(legacy: Legacy)

  datatype State = State(log: Log, stats: Stats)

  /** A finished execution is logged and counted; the migration runs through or changes nothing. */
  function Apply(s: State, op: Op): State {
    match op
    case Finished(id, e) =>
      if id in s.log then s
      else State(s.log[id := e], s.stats[e.tool := Plus(StatOr(s.stats, e.tool), GroupStat(1, e.status))])
    case Purged(cutoff) =>
      State(DeletedLog(s.log, Before(s.log, cutoff)), DecreaseAll(s.stats, Deltas(s.log, Before(s.log, cutoff))))
    case Migrated(g) =>
      if Encodable(g, s.log, Qualifying(g, s.log)) then
        State(BlockAll(g, s.log, Qualifying(g, s.log)), UnfailAll(s.stats, s.log, Qualifying(g, s.log)))
      else s
  }

  function Run(ops: seq<Op>): State {
    if ops == [] then State(map[], map[]) else Apply(Run(ops[..|ops| - 1]), ops[|ops| - 1])
  }

  predicate CleanNames(ops: seq<Op>) {
    forall i | 0 <= i < |ops| && ops[i].Finished? ::
      ops[i].execution.tool != BLANK && Trimmed(ops[i].execution.tool) == ops[i].execution.tool
  }

  lemma OfToolFinished(log: Log, id: ID, e: Execution, tool: ToolName)
    requires id !in log
    ensures OfTool(log[id := e], tool) == OfTool(log, tool) + if tool == e.tool then {id} else {}
  {
  }

  lemma TallyFinished(log: Log, id: ID, e: Execution, ids: set<ID>)
    requires id !in log && ids <= log.Keys
    ensures Tally(log[id := e], ids) == Tally(log, ids)
    ensures Tally(log[id := e], ids + {id}) == Plus(Tally(log, ids), GroupStat(1, e.status))
  {
    var later := log[id := e];
    SameTally(log, later, ids);
    TallyUnion(later, ids, {id});
    GroupTally(later, {id}, e.status);
    hide Tally, GroupStat;
    assert |{id}| == 1;
  }

  lemma CountedOther(log: Log, id: ID, e: Execution, tool: ToolName)
    requires id !in log && tool != e.tool
    ensures Counted(log[id := e], tool) == Counted(log, tool)
  {
    OfToolFinished(log, id, e, tool);
    assert OfTool(log, tool) <= log.Keys;
    hide Tally, OfTool;
    TallyFinished(log, id, e, OfTool(log, tool));
    assert OfTool(log, tool) + {} == OfTool(log, tool);
  }

  lemma CountedOwn(log: Log, id: ID, e: Execution)
    requires id !in log
    ensures Counted(log[id := e], e.tool)
            == Some(Plus(if Counted(log, e.tool).Some? then Counted(log, e.tool).value else Stat(0, 0, 0),
                         GroupStat(1, e.status)))
  {
    OfToolFinished(log, id, e, e.tool);
    assert OfTool(log, e.tool) <= log.Keys;
    hide Tally, OfTool, GroupStat;
    TallyFinished(log, id, e, OfTool(log, e.tool));
    NoTally(log);
  }

  lemma FinishMirrors(s: State, id: ID, e: Execution)
    requires Mirrors(s.stats, s.log) && id !in s.log
    ensures Mirrors(s.stats[e.tool := Plus(StatOr(s.stats, e.tool), GroupStat(1, e.status))], s.log[id := e])
  {
    hide Counted, Plus, GroupStat;
    var later := State(s.log[id := e], s.stats[e.tool := Plus(StatOr(s.stats, e.tool), GroupStat(1, e.status))]);
    forall tool: ToolName ensures MirrorsTool(later.stats, later.log, tool) {
      assert MirrorsTool(s.stats, s.log, tool);
      if tool == e.tool {
        CountedOwn(s.log, id, e);
      } else {
        CountedOther(s.log, id, e, tool);
      }
    }
  }

  lemma NoTally(log: Log)
    ensures Tally(log, {}) == Stat(0, 0, 0)
  {
    assert CompletedOf(log, {}) == {} && FailedOf(log, {}) == {};
  }

  ghost predicate Sound(s: State) {
    Mirrors(s.stats, s.log) && Named(s.log, s.log.Keys)
  }

  lemma ApplySound(s: State, op: Op)
    requires Sound(s)
    requires op.Finished? ==> op.execution.tool != BLANK && Trimmed(op.execution.tool) == op.execution.tool
    ensures Sound(Apply(s, op))
  {
    hide Trimmed, Mirrors, DecreaseAll, Deltas, UnfailAll, Plus, GroupStat, StatOr;
    match op
    case Finished(id, e) =>
      if id !in s.log {
        FinishMirrors(s, id, e);
      }
    case Purged(cutoff) => DeleteMirrorsIff(s.stats, s.log, Before(s.log, cutoff));
    case Migrated(g) =>
      if Encodable(g, s.log, Qualifying(g, s.log)) {
        MigrateMirrors(g, s.stats, s.log, Qualifying(g, s.log));
      }
  }

  /**
   * After any run of executions with clean tool names, purges with any cutoffs and migrations, each tool's figures are
   * the counts in the log.
   */
  lemma {:induction false} RunMirrors(ops: seq<Op>)
    requires CleanNames(ops)
    ensures Mirrors(Run(ops).stats, Run(ops).log) && Sound(Run(ops))
  {
    if ops == [] {
      forall tool ensures MirrorsTool(map[], map[], tool) {
      }
    } else {
      hide Trimmed, Mirrors, Apply;
      RunMirrors(ops[..|ops| - 1]);
      ApplySound(Run(ops[..|ops| - 1]), ops[|ops| - 1]);
    }
  }

  // ---------------------------------------------------------------- the operations

  class Monitor {
    var log: Log
    var stats: Stats

    method UpdateToolStats(tool: ToolName, d: Stat)
      modifies this`stats
      ensures stats == old(stats)[tool := Plus(StatOr(old(stats), tool), d)]
    {
      if tool in stats {
        var s := stats[tool];
        stats := stats[tool := Stat(s.total + d.total, s.success + d.success, s.failed + d.failed)];
      } else {
        stats := stats[tool := d];
      }
    }

    method DecreaseToolStats(tool: ToolName, d: Stat)
      modifies this`stats
      ensures stats == Decrease(old(stats), tool, d)
    {
      if tool in stats {
        var s := stats[tool];
        stats := stats[tool := Stat(if s.total - d.total < 0 then 0 else s.total - d.total,
                                    if s.success - d.success < 0 then 0 else s.success - d.success,
                                    if s.failed - d.failed < 0 then 0 else s.failed - d.failed)];
        if stats[tool].total == 0 {
          stats := stats - {tool};
        }
      }
    }

    method CountGroup(deltas: Stats, toolName: ToolName, status: Status, count: nat) returns (r: Stats)
      ensures r == AddGroup(deltas, toolName, count, status)
    {
      if toolName == BLANK || count <= 0 {
        return deltas;
      }
      var delta := StatOr(deltas, toolName);
      delta := delta.(total := delta.total + count);
      match status {
        case Failed => delta := delta.(failed := delta.failed + count);
        case HardTimeout => delta := delta.(failed := delta.failed + count);
        case Orphaned => delta := delta.(failed := delta.failed + count);
        case Completed => delta := delta.(success := delta.success + count);
        case _ =>
      }
      r := deltas[toolName := delta];
    }

    /** Sums up the groups of name and status among some rows. */
    method SumGroups(ids: set<ID>) returns (deltas: Stats)
      requires ids <= log.Keys
      ensures deltas == Deltas(log, ids)
    {
      hide Deltas, Trimmed, AddGroup;
      deltas := map[];
      var todo := set id | id in ids :: (log[id].tool, log[id].status);
      assert Ungrouped(log, ids, todo) == {};
      DeltasKeys(log, {});
      assert Names(log, {}) == {};
      while todo != {}
        invariant deltas == Deltas(log, Ungrouped(log, ids, todo))
        invariant forall group :: group in todo ==> Grouped(log, ids, group) != {}
      {
        var group :| group in todo;
        var rows := Grouped(log, ids, group);
        var rest := todo - {group};
        assert Ungrouped(log, ids, rest) == Ungrouped(log, ids, todo) + rows;
        DeltasGroup(log, Ungrouped(log, ids, todo), rows, Trimmed(group.0), group.1);
        deltas := CountGroup(deltas, Trimmed(group.0), group.1, |rows|);
        todo := rest;
      }
      assert Ungrouped(log, ids, {}) == ids;
    }

    method DecreaseEach(deltas: Stats)
      modifies this`stats
      ensures stats == DecreaseAll(old(stats), deltas)
    {
      var todo := deltas.Keys;
      ghost var done: Stats := map[];
      assert DecreaseAll(stats, done) == stats;
      while todo != {}
        invariant todo <= deltas.Keys && done == map tool | tool in deltas && tool !in todo :: deltas[tool]
        invariant stats == DecreaseAll(old(stats), done)
      {
        var tool :| tool in todo;
        DecreaseToolStats(tool, deltas[tool]);
        DecreaseOneMore(old(stats), done, tool, deltas[tool]);
        done := done[tool := deltas[tool]];
        todo := todo - {tool};
      }
      assert done == deltas;
    }

    method PurgeToolExecutionsBefore(cutoff: int) returns (deleted: nat)
      modifies this
      ensures log == DeletedLog(old(log), Before(old(log), cutoff))
      ensures stats == DecreaseAll(old(stats), Deltas(old(log), Before(old(log), cutoff)))
      ensures deleted == |Before(old(log), cutoff)|
    {
      var gone := Before(log, cutoff);
      var deltas := SumGroups(gone);
      log := map id | id in log && id !in gone :: log[id];
      deleted := |gone|;
      DecreaseEach(deltas);
    }

    /** Blocks the old refusals among the failed rows; if one result cannot be encoded, nothing changes. */
    method MigrateLegacyToolGuardBlocks(g: Legacy) returns (ok: bool)
      modifies this
      ensures ok == Encodable(g, old(log), Qualifying(g, old(log)))
      ensures ok ==> log == BlockAll(g, old(log), Qualifying(g, old(log)))
                     && stats == UnfailAll(old(stats), old(log), Qualifying(g, old(log)))
      ensures !ok ==> log == old(log) && stats == old(stats)
    {
      hide BlockAll, UnfailAll, Unfail, Encodable;
      var records := Qualifying(g, log);
      assert records <= log.Keys;
      hide Qualifying;
      var todo, newLog, newStats := records, log, stats;
      NothingBlocked(g, stats, log);
      assert records - todo == {};
      while todo != {}
        invariant log == old(log) && stats == old(stats)
        invariant todo <= records && Encodable(g, log, records - todo)
        invariant newLog == BlockAll(g, log, records - todo) && newStats == UnfailAll(stats, log, records - todo)
      {
        var id :| id in todo;
        var encoded := g.marked(log[id].error, log[id].result);
        EncodableOneMore(g, log, records - todo, id);
        EncodablePart(g, log, records, id);
        if encoded.None? {
          return false;
        }
        var rest := todo - {id};
        assert records - rest == (records - todo) + {id};
        BlockOneMore(g, log, records - todo, id);
        UnfailOneMore(stats, log, records - todo, id);
        newLog := newLog[id := log[id].(status := Blocked, result := encoded.value)];
        newStats := Unfail(newStats, log[id].tool);
        todo := rest;
      }
      assert records - {} == records;
      log, stats := newLog, newStats;
      ok := true;
    }
  }

  lemma EncodableOneMore(g: Legacy, log: Log, ids: set<ID>, id: ID)
    requires id in log && Encodable(g, log, ids)
    ensures Encodable(g, log, ids + {id}) <==> g.marked(log[id].error, log[id].result).Some?
  {
    assert id in ids + {id};
  }

  lemma EncodablePart(g: Legacy, log: Log, ids: set<ID>, id: ID)
    requires id in log && id in ids
    ensures Encodable(g, log, ids) ==> g.marked(log[id].error, log[id].result).Some?
  {
  }

  function Grouped(log: Log, ids: set<ID>, group: (ToolName, Status)): set<ID> {
    set id | id in ids && id in log && (log[id].tool, log[id].status) == group
  }

  /** The rows whose group has been read. */
  function Ungrouped(log: Log, ids: set<ID>, todo: set<(ToolName, Status)>): set<ID> {
    set id | id in ids && id in log && (log[id].tool, log[id].status) !in todo
  }

  lemma NothingBlocked(g: Legacy, stats: Stats, log: Log)
    ensures BlockAll(g, log, {}) == log && UnfailAll(stats, log, {}) == stats && Encodable(g, log, {})
  {
    assert forall tool :: {} * OfTool(log, tool) == {};
  }
}
