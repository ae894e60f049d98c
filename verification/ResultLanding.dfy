/**
 * Where each result lands, told without queues: by the entries there are, which of them have a result, and where the
 * last result of each ID went.
 */
module ResultLanding {
  import opened Base
  import opened ResultPairing
  import opened Text

  /** Trimmed names that are equal up to case; a blank name is no name. */
  predicate SameTool(entry: Entry, toolName: Label) {
    && entry.toolName.Label? && toolName.Label?
    && LowerAscii(TrimSpace(entry.toolName.text)) == LowerAscii(toolName.text)
  }

  predicate Waits(s: Summary, i: int)
    requires |s.entries| == |s.matched|
  {
    0 <= i < |s.entries| && !s.matched[i]
  }

  /** An entry without a result has the ID. */
  ghost predicate WaitsFor(s: Summary, id: Label)
    requires |s.entries| == |s.matched|
  {
    exists i :: Waits(s, i) && s.entries[i].toolCallID == id
  }

  ghost predicate WaitsNamed(s: Summary, toolName: Label)
    requires |s.entries| == |s.matched|
  {
    exists i :: Waits(s, i) && SameTool(s.entries[i], toolName)
  }

  ghost predicate SomeWaits(s: Summary)
    requires |s.entries| == |s.matched|
  {
    exists i :: Waits(s, i)
  }

  /**
   * The result goes to entry `i`, or to none for -1: to the earliest waiting call of its ID; else to where the last
   * result of the ID went; else to the earliest waiting call of its tool; else, if it has an ID, to the earliest
   * waiting call.
   */
  ghost predicate LandsOn(s: Summary, id: Label, toolName: Label, i: int)
    requires |s.entries| == |s.matched|
  {
    if id != Blank && WaitsFor(s, id) then
      && Waits(s, i) && s.entries[i].toolCallID == id
      && forall j | 0 <= j < i :: Waits(s, j) ==> s.entries[j].toolCallID != id
    else if id != Blank && id in s.last then i == s.last[id]
    else if WaitsNamed(s, toolName) then
      && Waits(s, i) && SameTool(s.entries[i], toolName)
      && forall j | 0 <= j < i :: Waits(s, j) ==> !SameTool(s.entries[j], toolName)
    else if id != Blank && SomeWaits(s) then Waits(s, i) && forall j | 0 <= j < i :: !Waits(s, j)
    else i == -1
  }

  /** What an entry shows once the result has landed on it. */
  predicate Shows(before: Entry, e: Event, after: Entry)
    requires e.Result?
  {
    && after.detailID == before.detailID && after.resultDetailID == e.detailID && after.executionID == e.executionID
    && after.toolName == (if before.toolName == Blank then e.toolName else before.toolName)
    && after.toolCallID == (if before.toolCallID == Blank then e.toolCallID else before.toolCallID)
    && (e.status != Blank ==> after.status == e.status) && (e.status == Blank ==> after.status == Label("completed"))
  }

  /** The result stands on the entry it lands on, or becomes an entry of its own; no other entry changes. */
  ghost predicate ResultTold(s: Summary, e: Event, t: Summary)
    requires |s.entries| == |s.matched| && |t.entries| == |t.matched| && e.Result?
  {
    exists i :: LandsOn(s, e.toolCallID, e.toolName, i)
      && if i >= 0 then
           && i < |s.entries| == |t.entries| && t.matched == s.matched[i := true]
           && Shows(s.entries[i], e, t.entries[i]) && t.entries == s.entries[i := t.entries[i]]
           && (e.toolCallID != Blank ==> t.last == s.last[e.toolCallID := i])
           && (e.toolCallID == Blank ==> t.last == s.last)
         else
           && t.entries == s.entries + [Entry(e.detailID, Blank, e.toolName, e.toolCallID, e.executionID, e.status)]
           && t.matched == s.matched + [true] && t.last == s.last
  }

  ghost predicate StepTold(s: Summary, e: Event, t: Summary, pending: Label)
    requires |s.entries| == |s.matched| && |t.entries| == |t.matched|
  {
    match e
    case Malformed => t.entries == s.entries && t.matched == s.matched && t.last == s.last
    case Call(detailID, toolName, id, _) =>
      && t.entries == s.entries + [Entry(detailID, Blank, toolName, id, Blank, pending)]
      && t.matched == s.matched + [false] && t.last == s.last
    case Result(_, _, _, _, _) => ResultTold(s, e, t)
  }

  // ---------------------------------------------------------------- the queues do that

  /** The head of an ID's queue, past matched slots, is the earliest waiting call of the ID. */
  lemma HeadIsEarliest(s: Summary, pending: Label, id: Label)
    requires |s.entries| == |s.matched| && Invariant(s, pending) && id != Blank
    ensures var free := Unmatched(Queue(s, id), s.matched);
            && (free != [] <==> WaitsFor(s, id))
            && (free != [] ==> && Waits(s, free[0]) && s.entries[free[0]].toolCallID == id
                               && forall j | 0 <= j < free[0] :: Waits(s, j) ==> s.entries[j].toolCallID != id)
  {
    var queue := Queue(s, id);
    var k := UnmatchedIsSuffix(queue, s.matched);
    forall j | Waits(s, j) && s.entries[j].toolCallID == id ensures k < |queue| && queue[k] <= j {
      assert j in Queue(s, s.entries[j].toolCallID);
      var p :| 0 <= p < |queue| && queue[p] == j;
      assert p >= k;
    }
  }

  lemma SlotLands(s: Summary, pending: Label, id: Label, toolName: Label)
    requires |s.entries| == |s.matched| && Invariant(s, pending)
    ensures LandsOn(s, id, toolName, Slot(s, id, toolName))
  {
    if id != Blank {
      HeadIsEarliest(s, pending, id);
    }
    NamedLands(s, toolName);
    FreeLands(s);
    hide Unmatched, Queue, Invariant, SameTool, NameFits, FirstFree, WaitsNamed, SomeWaits, WaitsFor;
  }

  /** The first free slot with the name is the earliest waiting call of the tool. */
  lemma NamedLands(s: Summary, toolName: Label)
    requires |s.entries| == |s.matched|
    ensures var i := if toolName != Blank then FirstFree(s.entries, s.matched, toolName, 0) else -1;
            && (i >= 0 <==> WaitsNamed(s, toolName))
            && (i >= 0 ==> && Waits(s, i) && SameTool(s.entries[i], toolName)
                           && forall j | 0 <= j < i :: Waits(s, j) ==> !SameTool(s.entries[j], toolName))
  {
    forall i | 0 <= i < |s.entries| ensures NameFits(s.entries[i], toolName) <==> SameTool(s.entries[i], toolName) {
    }
    hide NameFits, SameTool;
    if toolName == Blank {
      forall i | Waits(s, i) ensures !SameTool(s.entries[i], toolName) {
        BlankNamesNone(s.entries[i]);
      }
    }
  }

  lemma BlankNamesNone(entry: Entry)
    ensures !SameTool(entry, Blank)
  {
  }

  lemma FreeLands(s: Summary)
    requires |s.entries| == |s.matched|
    ensures var i := FirstFree(s.entries, s.matched, Blank, 0);
            && (i >= 0 <==> SomeWaits(s))
            && (i >= 0 ==> Waits(s, i) && forall j | 0 <= j < i :: !Waits(s, j))
  {
    var i := FirstFree(s.entries, s.matched, Blank, 0);
    assert i >= 0 ==> Waits(s, i);
  }

  /** Every event of every stream does exactly that. */
  lemma EveryStepTold(events: seq<Event>, e: Event, pending: Label)
    ensures StepTold(Run(events, pending), e, Run(events + [e], pending), pending)
  {
    var s := Run(events, pending);
    RunInvariant(events, pending);
    assert Run(events + [e], pending) == Step(s, e, pending) by {
      assert (events + [e])[..|events|] == events;
    }
    hide Invariant, LandsOn, QueuesAfter, Run, ResultTold;
    if e.Result? {
      StepLands(s, e, pending);
    }
  }

  lemma StepLands(s: Summary, e: Event, pending: Label)
    requires |s.entries| == |s.matched| && Invariant(s, pending) && e.Result?
    ensures ResultTold(s, e, Step(s, e, pending))
  {
    SlotLands(s, pending, e.toolCallID, e.toolName);
    var i := Slot(s, e.toolCallID, e.toolName);
    if 0 <= i < |s.entries| {
      FilledShows(s.entries[i], e);
    }
    hide Invariant, LandsOn, QueuesAfter, Slot, Filled, Shows;
  }

  lemma FilledShows(entry: Entry, e: Event)
    requires e.Result?
    ensures Shows(entry, e, Filled(entry, e))
  {
  }

  /** There is one such entry, or none. */
  lemma LandsOnOne(s: Summary, id: Label, toolName: Label, i: int, j: int)
    requires |s.entries| == |s.matched| && LandsOn(s, id, toolName, i) && LandsOn(s, id, toolName, j)
    ensures i == j
  {
    hide SameTool;
  }

  /** A lone waiting call takes a result of its tool. */
  lemma LoneCallLands(s: Summary, toolName: Label, i: int)
    requires |s.entries| == |s.matched| == 1 && !s.matched[0] && SameTool(s.entries[0], toolName)
    requires LandsOn(s, Blank, toolName, i)
    ensures i == 0
  {
    hide SameTool;
    assert Waits(s, 0);
  }

  /** A result without an ID joins the call of the same tool that waits. */
  lemma ResultWithoutID(events: seq<Event>, pending: Label)
    requires |events| == 2 && events[0].Call? && events[1].Result? && events[1].toolCallID == Blank
    requires var name := events[0].toolName; name.Label? && TrimSpace(name.text) == name.text
    requires events[1].toolName == events[0].toolName
    ensures var s := Run(events, pending);
            && |s.entries| == 1 && s.matched == [true] && s.entries[0].resultDetailID == events[1].detailID
            && s.entries[0].toolCallID == events[0].toolCallID
  {
    EveryStepTold([], events[0], pending);
    EveryStepTold([events[0]], events[1], pending);
    assert [] + [events[0]] == [events[0]] && [events[0]] + [events[1]] == events;
    var s, t := Run([events[0]], pending), Run(events, pending);
    var entry := s.entries[0];
    assert SameTool(entry, events[1].toolName);
    assert ResultTold(s, events[1], t);
    hide Run, SameTool, StepTold, LandsOn, Step;
    assert t.entries == [t.entries[0]] && Shows(entry, events[1], t.entries[0]) && t.matched == [true] by {
      var i :| LandsOn(s, Blank, events[1].toolName, i)
        && if i >= 0 then
             && i < |s.entries| == |t.entries| && t.matched == s.matched[i := true]
             && Shows(s.entries[i], events[1], t.entries[i]) && t.entries == s.entries[i := t.entries[i]]
           else
             |t.entries| == |s.entries| + 1;
      LoneCallLands(s, events[1].toolName, i);
    }
  }
}
