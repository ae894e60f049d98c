/**
 * The tool summary of a message: a stream of persisted call and result events is folded into
 * one entry a call, each result being attached to a call by ID, by tool name, or by position.
 */
module ResultPairing {
  import opened Base
  import opened Chat
  import opened Text

  /** A trimmed text field of a payload; missing, null and blank values are all `Blank`. */
  datatype Label = Blank | Label(text: string)

  datatype Event =
    | Malformed
    | Call(detailID: Label, toolName: Label, toolCallID: Label, executionID: Label)
    | Result(detailID: Label, toolName: Label, toolCallID: Label, executionID: Label, status: Label)

  datatype Entry = Entry(
    detailID: Label,
    resultDetailID: Label,
    toolName: Label,
    toolCallID: Label,
    executionID: Label,
    status: Label)

  datatype Summary = Summary(
    entries: seq<Entry>,
    matched: seq<bool>,
    queues: map<Label, seq<nat>>,
    last: map<Label, nat>,
    executionIDs: seq<Label>)

  const COMPLETED := Label("completed")
  const EMPTY := Summary([], [], map[], map[], [])

  // ---------------------------------------------------------------- specification

  /** An ID's queue from its first unmatched slot on. */
  function Unmatched(queue: seq<nat>, matched: seq<bool>): seq<nat> {
    if queue == [] || (queue[0] < |matched| && !matched[queue[0]]) then queue
    else Unmatched(queue[1..], matched)
  }

  predicate NameFits(entry: Entry, toolName: Label) {
    entry.toolName.Label? && toolName.Label? && EqualFold(TrimSpace(entry.toolName.text), toolName.text)
  }

  /** The first unmatched slot from `from` on, with the given tool name unless that is blank; or -1. */
  function FirstFree(entries: seq<Entry>, matched: seq<bool>, toolName: Label, from: nat): (i: int)
    requires |entries| == |matched| && from <= |entries|
    ensures -1 <= i < |matched|
    ensures i >= 0 ==> from <= i && !matched[i] && (toolName == Blank || NameFits(entries[i], toolName))
    ensures forall j | from <= j < (if i < 0 then |matched| else i) ::
              matched[j] || (toolName != Blank && !NameFits(entries[j], toolName))
    decreases |entries| - from
  {
    if from == |entries| then -1
    else if !matched[from] && (toolName == Blank || NameFits(entries[from], toolName)) then from
    else FirstFree(entries, matched, toolName, from + 1)
  }

  function Queue(s: Summary, id: Label): seq<nat> {
    if id in s.queues then s.queues[id] else []
  }

  /** The slot a result goes to, or -1. */
  function Slot(s: Summary, id: Label, toolName: Label): (i: int)
    requires |s.entries| == |s.matched|
  {
    var free := Unmatched(Queue(s, id), s.matched);
    if id != Blank && free != [] then free[0]
    else if id != Blank && id in s.last then s.last[id]
    else
      var named := if toolName != Blank then FirstFree(s.entries, s.matched, toolName, 0) else -1;
      if named >= 0 then named
      else if id != Blank then FirstFree(s.entries, s.matched, Blank, 0)
      else -1
  }

  /** Looking for a slot consumes the ID's queue up to the slot that was taken. */
  function QueuesAfter(s: Summary, id: Label): map<Label, seq<nat>> {
    if id == Blank then s.queues
    else
      var free := Unmatched(Queue(s, id), s.matched);
      s.queues[id := if free != [] then free[1..] else []]
  }

  function AddCall(s: Summary, e: Event, pending: Label): Summary
    requires e.Call?
  {
    s.(entries := s.entries + [Entry(e.detailID, Blank, e.toolName, e.toolCallID, Blank, pending)],
       matched := s.matched + [false],
       queues := if e.toolCallID == Blank then s.queues
                 else s.queues[e.toolCallID := Queue(s, e.toolCallID) + [|s.entries|]])
  }

  function Filled(entry: Entry, e: Event): Entry
    requires e.Result?
  {
    entry.(resultDetailID := e.detailID,
           toolName := if entry.toolName == Blank then e.toolName else entry.toolName,
           toolCallID := if entry.toolCallID == Blank then e.toolCallID else entry.toolCallID,
           executionID := e.executionID,
           status := if e.status != Blank then e.status else COMPLETED)
  }

  function AddResult(s: Summary, e: Event): Summary
    requires e.Result? && |s.entries| == |s.matched|
  {
    var i := Slot(s, e.toolCallID, e.toolName);
    var s' := s.(queues := QueuesAfter(s, e.toolCallID));
    if 0 <= i < |s.entries| then
      s'.(entries := s.entries[i := Filled(s.entries[i], e)],
          matched := s.matched[i := true],
          last := if e.toolCallID != Blank then s.last[e.toolCallID := i] else s.last)
    else
      s'.(entries := s.entries + [Entry(e.detailID, Blank, e.toolName, e.toolCallID, e.executionID, e.status)],
          matched := s.matched + [true])
  }

  function Remember(s: Summary, executionID: Label): Summary {
    if executionID == Blank || executionID in s.executionIDs then s
    else s.(executionIDs := s.executionIDs + [executionID])
  }

  function Step(s: Summary, e: Event, pending: Label): (r: Summary)
    requires |s.entries| == |s.matched|
    ensures |r.entries| == |r.matched|
  {
    match e
    case Malformed => s
    case Call(_, _, _, executionID) => Remember(AddCall(s, e, pending), executionID)
    case Result(_, _, _, executionID, _) => Remember(AddResult(s, e), executionID)
  }

  function Run(events: seq<Event>, pending: Label): (s: Summary)
    ensures |s.entries| == |s.matched|
  {
    if events == [] then EMPTY else Step(Run(events[..|events| - 1], pending), events[|events| - 1], pending)
  }

  // ---------------------------------------------------------------- the operations

  /** Drops the matched slots at the head of a queue. */
  method SkipMatched(queue: seq<nat>, matched: seq<bool>) returns (rest: seq<nat>)
    ensures rest == Unmatched(queue, matched)
  {
    rest := queue;
    while |rest| > 0 && !(rest[0] < |matched| && !matched[rest[0]])
      invariant Unmatched(rest, matched) == Unmatched(queue, matched)
    {
      rest := rest[1..];
    }
  }

  /** The first unmatched slot with the given tool name, unless that is blank. */
  method FindFree(entries: seq<Entry>, matched: seq<bool>, toolName: Label) returns (index: int)
    requires |entries| == |matched|
    ensures index == FirstFree(entries, matched, toolName, 0)
  {
    for i := 0 to |matched|
      invariant FirstFree(entries, matched, toolName, 0) == FirstFree(entries, matched, toolName, i)
    {
      if !matched[i] && (toolName == Blank || NameFits(entries[i], toolName)) {
        return i;
      }
    }
    index := -1;
  }

  /** Finds the slot of a result; the ID's queue loses the slots it looked at. */
  method MatchToolExecutionIndex(s: Summary, toolCallID: Label, toolName: Label)
    returns (index: int, queues: map<Label, seq<nat>>)
    requires |s.entries| == |s.matched|
    ensures index == Slot(s, toolCallID, toolName)
    ensures queues == QueuesAfter(s, toolCallID)
  {
    queues := s.queues;
    if toolCallID != Blank {
      var rest := SkipMatched(if toolCallID in queues then queues[toolCallID] else [], s.matched);
      if |rest| > 0 {
        return rest[0], queues[toolCallID := rest[1..]];
      }
      queues := queues[toolCallID := []];
      if toolCallID in s.last {
        return s.last[toolCallID], queues;
      }
    }
    if toolName != Blank {
      index := FindFree(s.entries, s.matched, toolName);
      if index >= 0 {
        return;
      }
    }
    if toolCallID != Blank {
      index := FindFree(s.entries, s.matched, Blank);
    } else {
      index := -1;
    }
  }

  /** The event loop of the summary. */
  method SummarizeEvents(events: seq<Event>, pending: Label) returns (summary: Summary)
    ensures summary == Run(events, pending)
  {
    summary := EMPTY;
    var seen: set<Label> := {};
    for n := 0 to |events|
      invariant summary == Run(events[..n], pending)
      invariant forall id :: id in seen <==> id in summary.executionIDs
    {
      var e := events[n];
      assert events[..n + 1][..n] == events[..n];
      if e.Malformed? {
        continue;
      }
      if e.Call? {
        var entry := Entry(e.detailID, Blank, e.toolName, e.toolCallID, Blank, pending);
        summary := summary.(entries := summary.entries + [entry],
                            matched := summary.matched + [false]);
        if e.toolCallID != Blank {
          var queue := if e.toolCallID in summary.queues then summary.queues[e.toolCallID] else [];
          summary := summary.(queues := summary.queues[e.toolCallID := queue + [|summary.entries| - 1]]);
        }
      } else {
        var i, queues := MatchToolExecutionIndex(summary, e.toolCallID, e.toolName);
        summary := summary.(queues := queues);
        if 0 <= i < |summary.entries| {
          summary := summary.(matched := summary.matched[i := true]);
          if e.toolCallID != Blank {
            summary := summary.(last := summary.last[e.toolCallID := i]);
          }
          summary := summary.(entries := summary.entries[i := Filled(summary.entries[i], e)]);
        } else {
          summary := summary.(entries := summary.entries
                                + [Entry(e.detailID, Blank, e.toolName, e.toolCallID, e.executionID, e.status)],
                              matched := summary.matched + [true]);
        }
      }
      if e.executionID != Blank && e.executionID !in seen {
        seen := seen + {e.executionID};
        summary := summary.(executionIDs := summary.executionIDs + [e.executionID]);
      }
    }
    assert events[..|events|] == events;
  }

  // ---------------------------------------------------------------- invariants of every run

  ghost predicate QueuesOrdered(s: Summary) {
    forall id, k, l | 0 <= k < l < |Queue(s, id)| :: Queue(s, id)[k] < Queue(s, id)[l]
  }

  ghost predicate QueuesOwn(s: Summary) {
    forall id, k | 0 <= k < |Queue(s, id)| ::
      id != Blank && Queue(s, id)[k] < |s.entries| && s.entries[Queue(s, id)[k]].toolCallID == id
  }

  /** An unmatched call with an ID waits in that ID's queue, untouched by any result. */
  ghost predicate UnmatchedWait(s: Summary, pending: Label)
    requires |s.entries| == |s.matched|
  {
    forall i | 0 <= i < |s.entries| && !s.matched[i] ::
      && (s.entries[i].toolCallID != Blank ==> i in Queue(s, s.entries[i].toolCallID))
      && s.entries[i].resultDetailID == Blank && s.entries[i].executionID == Blank && s.entries[i].status == pending
  }

  ghost predicate LastMatched(s: Summary)
    requires |s.entries| == |s.matched|
  {
    forall id | id in s.last :: id != Blank && s.last[id] < |s.matched| && s.matched[s.last[id]]
  }

  ghost predicate Distinct(ids: seq<Label>) {
    forall k, l | 0 <= k < l < |ids| :: ids[k] != ids[l]
  }

  ghost predicate Invariant(s: Summary, pending: Label)
    requires |s.entries| == |s.matched|
  {
    QueuesOrdered(s) && QueuesOwn(s) && UnmatchedWait(s, pending) && LastMatched(s)
    && Distinct(s.executionIDs) && Blank !in s.executionIDs
  }

  /** The rest of a queue is its suffix from the first unmatched slot. */
  lemma {:induction false} UnmatchedIsSuffix(queue: seq<nat>, matched: seq<bool>) returns (skipped: nat)
    ensures skipped <= |queue| && Unmatched(queue, matched) == queue[skipped..]
    ensures skipped < |queue| ==> queue[skipped] < |matched| && !matched[queue[skipped]]
    ensures forall k | 0 <= k < skipped :: queue[k] >= |matched| || matched[queue[k]]
  {
    skipped := 0;
    if queue != [] && !(queue[0] < |matched| && !matched[queue[0]]) {
      var rest := UnmatchedIsSuffix(queue[1..], matched);
      skipped := rest + 1;
    }
  }

  lemma QueueAfterCall(s: Summary, e: Event, pending: Label)
    requires e.Call?
    ensures forall x :: Queue(AddCall(s, e, pending), x)
                        == Queue(s, x) + if x == e.toolCallID && x != Blank then [|s.entries|] else []
  {
  }

  lemma QueueAfterResult(s: Summary, e: Event)
    requires e.Result? && |s.entries| == |s.matched|
    ensures forall x :: Queue(AddResult(s, e), x)
                        == if x != e.toolCallID || x == Blank then Queue(s, x)
                           else
                             var free := Unmatched(Queue(s, x), s.matched);
                             if free != [] then free[1..] else []
  {
  }

  lemma CallKeepsOrder(s: Summary, e: Event, pending: Label)
    requires e.Call? && QueuesOrdered(s) && QueuesOwn(s)
    ensures QueuesOrdered(AddCall(s, e, pending))
  {
    QueueAfterCall(s, e, pending);
    var t := AddCall(s, e, pending);
    forall x, k, l | 0 <= k < l < |Queue(t, x)| ensures Queue(t, x)[k] < Queue(t, x)[l] {
      assert Queue(s, x)[k] < |s.entries|;
      if l < |Queue(s, x)| {
        assert Queue(s, x)[k] < Queue(s, x)[l];
      }
    }
  }

  lemma CallKeepsOwners(s: Summary, e: Event, pending: Label)
    requires |s.entries| == |s.matched| && e.Call? && QueuesOwn(s)
    ensures QueuesOwn(AddCall(s, e, pending))
  {
    QueueAfterCall(s, e, pending);
    CallKeepsEntries(s, e, pending);
    var t := AddCall(s, e, pending);
    forall x, k | 0 <= k < |Queue(t, x)|
      ensures x != Blank && Queue(t, x)[k] < |t.entries| && t.entries[Queue(t, x)[k]].toolCallID == x
    {
      if k < |Queue(s, x)| {
        assert s.entries[Queue(s, x)[k]].toolCallID == x;
      }
    }
  }

  lemma CallKeepsWaiting(s: Summary, e: Event, pending: Label)
    requires |s.entries| == |s.matched| && e.Call?
    requires UnmatchedWait(s, pending) && LastMatched(s)
    ensures UnmatchedWait(AddCall(s, e, pending), pending) && LastMatched(AddCall(s, e, pending))
  {
    QueueAfterCall(s, e, pending);
    var t := AddCall(s, e, pending);
    forall i | 0 <= i < |t.entries| && !t.matched[i] && t.entries[i].toolCallID != Blank
      ensures i in Queue(t, t.entries[i].toolCallID)
    {
      if i < |s.entries| {
        assert i in Queue(s, s.entries[i].toolCallID);
      }
    }
  }

  /** A result never renames a slot that has an ID, and never frees a slot. */
  lemma ResultKeepsSlots(s: Summary, e: Event)
    requires |s.entries| == |s.matched| && e.Result?
    ensures |AddResult(s, e).entries| >= |s.entries|
    ensures forall i | 0 <= i < |s.entries| ::
              && (s.entries[i].toolCallID != Blank ==> AddResult(s, e).entries[i].toolCallID == s.entries[i].toolCallID)
              && (s.matched[i] ==> AddResult(s, e).matched[i])
              && (i != Slot(s, e.toolCallID, e.toolName)
                  ==> AddResult(s, e).entries[i] == s.entries[i] && AddResult(s, e).matched[i] == s.matched[i])
  {
  }

  /** A queue after a result is a suffix of the queue before. */
  lemma QueueShrinks(s: Summary, e: Event, x: Label) returns (skipped: nat)
    requires |s.entries| == |s.matched| && e.Result?
    ensures skipped <= |Queue(s, x)| && Queue(AddResult(s, e), x) == Queue(s, x)[skipped..]
  {
    QueueAfterResult(s, e);
    if x != e.toolCallID || x == Blank {
      skipped := 0;
    } else {
      skipped := UnmatchedIsSuffix(Queue(s, x), s.matched);
      skipped := if skipped < |Queue(s, x)| then skipped + 1 else skipped;
    }
  }

  lemma ResultKeepsOrder(s: Summary, e: Event)
    requires |s.entries| == |s.matched| && e.Result? && QueuesOrdered(s)
    ensures QueuesOrdered(AddResult(s, e))
  {
    var t := AddResult(s, e);
    forall x, k, l | 0 <= k < l < |Queue(t, x)| ensures Queue(t, x)[k] < Queue(t, x)[l] {
      var skipped := QueueShrinks(s, e, x);
      assert Queue(s, x)[skipped + k] < Queue(s, x)[skipped + l];
    }
  }

  lemma ResultKeepsOwners(s: Summary, e: Event)
    requires |s.entries| == |s.matched| && e.Result? && QueuesOwn(s)
    ensures QueuesOwn(AddResult(s, e))
  {
    ResultKeepsSlots(s, e);
    var t := AddResult(s, e);
    forall x, k | 0 <= k < |Queue(t, x)|
      ensures x != Blank && Queue(t, x)[k] < |t.entries| && t.entries[Queue(t, x)[k]].toolCallID == x
    {
      var skipped := QueueShrinks(s, e, x);
      assert Queue(t, x)[k] == Queue(s, x)[skipped + k];
      assert s.entries[Queue(s, x)[skipped + k]].toolCallID == x;
    }
  }

  /** Only matched slots leave a queue. */
  lemma WaitingIsFree(queue: seq<nat>, matched: seq<bool>, i: nat)
    requires i in queue && i < |matched| && !matched[i]
    ensures i in Unmatched(queue, matched)
  {
    var skipped := UnmatchedIsSuffix(queue, matched);
    var k :| 0 <= k < |queue| && queue[k] == i;
    assert queue[skipped..][k - skipped] == i;
  }

  lemma ResultKeepsLast(s: Summary, e: Event)
    requires |s.entries| == |s.matched| && e.Result? && LastMatched(s)
    ensures LastMatched(AddResult(s, e))
  {
    ResultKeepsSlots(s, e);
    var t := AddResult(s, e);
    forall id | id in t.last ensures id != Blank && t.last[id] < |t.matched| && t.matched[t.last[id]] {
      if id in s.last && t.last[id] == s.last[id] {
        assert s.matched[s.last[id]];
      }
    }
  }

  /** A slot still unmatched after a result is the one it was before. */
  lemma StillUnmatched(s: Summary, e: Event, i: nat)
    requires |s.entries| == |s.matched| && e.Result?
    requires i < |AddResult(s, e).entries| && !AddResult(s, e).matched[i]
    ensures i < |s.entries| && !s.matched[i] && AddResult(s, e).entries[i] == s.entries[i]
    ensures i != Slot(s, e.toolCallID, e.toolName)
  {
    ResultKeepsSlots(s, e);
  }

  /** A slot still unmatched after a result still waits in its queue. */
  lemma StillWaiting(s: Summary, e: Event, i: nat)
    requires |s.entries| == |s.matched| && e.Result?
    requires i < |s.entries| && !s.matched[i] && i != Slot(s, e.toolCallID, e.toolName)
    requires s.entries[i].toolCallID != Blank && i in Queue(s, s.entries[i].toolCallID)
    ensures i in Queue(AddResult(s, e), s.entries[i].toolCallID)
  {
    var x := s.entries[i].toolCallID;
    QueueAfterResult(s, e);
    if x == e.toolCallID {
      WaitingIsFree(Queue(s, x), s.matched, i);
      var free := Unmatched(Queue(s, x), s.matched);
      assert free[0] == Slot(s, e.toolCallID, e.toolName);
    }
  }

  lemma ResultKeepsWaiting(s: Summary, e: Event, pending: Label)
    requires |s.entries| == |s.matched| && e.Result? && UnmatchedWait(s, pending)
    ensures UnmatchedWait(AddResult(s, e), pending)
  {
    var t := AddResult(s, e);
    forall i | 0 <= i < |t.entries| && !t.matched[i]
      ensures i < |s.entries| && !s.matched[i] && t.entries[i] == s.entries[i]
      ensures t.entries[i].toolCallID != Blank ==> i in Queue(t, t.entries[i].toolCallID)
    {
      StillUnmatched(s, e, i);
      if t.entries[i].toolCallID != Blank {
        StillWaiting(s, e, i);
      }
    }
  }

  lemma StepKeepsInvariant(s: Summary, e: Event, pending: Label)
    requires |s.entries| == |s.matched| && Invariant(s, pending)
    ensures Invariant(Step(s, e, pending), pending)
  {
    match e
    case Malformed =>
    case Call(_, _, _, _) =>
      CallKeepsOrder(s, e, pending);
      CallKeepsOwners(s, e, pending);
      CallKeepsWaiting(s, e, pending);
      RememberKeepsInvariant(AddCall(s, e, pending), e.executionID, pending);
    case Result(_, _, _, _, _) =>
      ResultKeepsOrder(s, e);
      ResultKeepsOwners(s, e);
      ResultKeepsWaiting(s, e, pending);
      ResultKeepsLast(s, e);
      RememberKeepsInvariant(AddResult(s, e), e.executionID, pending);
  }

  lemma RememberKeepsInvariant(s: Summary, executionID: Label, pending: Label)
    requires |s.entries| == |s.matched| && Invariant(s, pending)
    ensures Invariant(Remember(s, executionID), pending)
  {
    var t := Remember(s, executionID);
    assert t.queues == s.queues && t.entries == s.entries && t.matched == s.matched && t.last == s.last;
    assert forall x :: Queue(t, x) == Queue(s, x);
    hide Queue, Remember;
    forall id, k | 0 <= k < |Queue(t, id)|
      ensures id != Blank && Queue(t, id)[k] < |t.entries| && t.entries[Queue(t, id)[k]].toolCallID == id
    {
      assert Queue(t, id) == Queue(s, id);
    }
  }

  /** Every reachable summary satisfies the invariant. */
  lemma {:induction false} RunInvariant(events: seq<Event>, pending: Label)
    ensures Invariant(Run(events, pending), pending)
  {
    if events != [] {
      var n := |events| - 1;
      RunInvariant(events[..n], pending);
      StepKeepsInvariant(Run(events[..n], pending), events[n], pending);
    }
  }

  // ---------------------------------------------------------------- accounting

  /** The result flips a slot from unmatched to matched. */
  predicate TakesFresh(s: Summary, e: Event)
    requires |s.entries| == |s.matched|
  {
    e.Result? && var i := Slot(s, e.toolCallID, e.toolName); 0 <= i < |s.matched| && !s.matched[i]
  }

  /** The result lands on a slot that another result took before. */
  predicate Overwrites(s: Summary, e: Event)
    requires |s.entries| == |s.matched|
  {
    e.Result? && var i := Slot(s, e.toolCallID, e.toolName); 0 <= i < |s.matched| && s.matched[i]
  }

  predicate FindsNone(s: Summary, e: Event)
    requires |s.entries| == |s.matched|
  {
    e.Result? && !(0 <= Slot(s, e.toolCallID, e.toolName) < |s.matched|)
  }

  function Free(matched: seq<bool>): nat {
    if matched == [] then 0
    else Free(matched[..|matched| - 1]) + if matched[|matched| - 1] then 0 else 1
  }

  lemma {:induction false} FreeAfterMatch(matched: seq<bool>, i: nat)
    requires i < |matched|
    ensures Free(matched[i := true]) == Free(matched) - if matched[i] then 0 else 1
  {
    var n := |matched| - 1;
    if i < n {
      FreeAfterMatch(matched[..n], i);
      assert matched[i := true][..n] == matched[..n][i := true];
    } else {
      assert matched[i := true][..n] == matched[..n];
    }
  }

  function Calls(events: seq<Event>): nat {
    if events == [] then 0
    else Calls(events[..|events| - 1]) + if events[|events| - 1].Call? then 1 else 0
  }

  function FreshResults(events: seq<Event>, pending: Label): nat {
    if events == [] then 0
    else
      var n := |events| - 1;
      FreshResults(events[..n], pending) + if TakesFresh(Run(events[..n], pending), events[n]) then 1 else 0
  }

  function OrphanResults(events: seq<Event>, pending: Label): nat {
    if events == [] then 0
    else
      var n := |events| - 1;
      OrphanResults(events[..n], pending) + if FindsNone(Run(events[..n], pending), events[n]) then 1 else 0
  }

  lemma FreeAppend(matched: seq<bool>, b: bool)
    ensures Free(matched + [b]) == Free(matched) + if b then 0 else 1
  {
    assert (matched + [b])[..|matched|] == matched;
  }

  lemma StepAccounting(s: Summary, e: Event, pending: Label)
    requires |s.entries| == |s.matched|
    ensures |Step(s, e, pending).entries| == |s.entries| + if e.Call? || FindsNone(s, e) then 1 else 0
    ensures Free(Step(s, e, pending).matched)
            == Free(s.matched) + (if e.Call? then 1 else 0) - if TakesFresh(s, e) then 1 else 0
  {
    match e
    case Malformed =>
    case Call(_, _, _, _) =>
      FreeAppend(s.matched, false);
    case Result(_, _, _, _, _) =>
      var i := Slot(s, e.toolCallID, e.toolName);
      if 0 <= i < |s.matched| {
        FreeAfterMatch(s.matched, i);
      } else {
        FreeAppend(s.matched, true);
      }
  }

  /** Entries are calls and results without a slot; each fresh result uses up one call. */
  lemma {:induction false} Accounting(events: seq<Event>, pending: Label)
    ensures |Run(events, pending).entries| == Calls(events) + OrphanResults(events, pending)
    ensures Free(Run(events, pending).matched) == Calls(events) - FreshResults(events, pending)
  {
    if events != [] {
      var n := |events| - 1;
      Accounting(events[..n], pending);
      StepAccounting(Run(events[..n], pending), events[n], pending);
    }
  }

  lemma StepKeepsMatched(s: Summary, e: Event, pending: Label, i: nat)
    requires |s.entries| == |s.matched| && i < |s.matched| && s.matched[i]
    ensures i < |Step(s, e, pending).matched| && Step(s, e, pending).matched[i]
  {
    if e.Result? {
      ResultKeepsSlots(s, e);
    }
  }

  /** The execution IDs collected are those the well-formed events carry. */
  lemma {:induction false} ExecutionIDsCollected(events: seq<Event>, pending: Label, id: Label)
    ensures id in Run(events, pending).executionIDs <==> id != Blank && Carries(events, id)
  {
    if events != [] {
      var n := |events| - 1;
      ExecutionIDsCollected(events[..n], pending, id);
      StepCollects(Run(events[..n], pending), events[n], pending, id);
    }
  }

  predicate Carries(events: seq<Event>, id: Label) {
    events != [] &&
    var n := |events| - 1;
    Carries(events[..n], id) || (!events[n].Malformed? && events[n].executionID == id)
  }

  lemma StepCollects(s: Summary, e: Event, pending: Label, id: Label)
    requires |s.entries| == |s.matched|
    ensures id in Step(s, e, pending).executionIDs
            <==> id in s.executionIDs || (id != Blank && !e.Malformed? && e.executionID == id)
  {
    match e
    case Malformed =>
    case Call(_, _, _, executionID) =>
      assert AddCall(s, e, pending).executionIDs == s.executionIDs;
    case Result(_, _, _, executionID, _) =>
      assert AddResult(s, e).executionIDs == s.executionIDs;
  }

  /** A slot, once matched, stays matched for the rest of the run. */
  lemma {:induction false} MatchedForGood(events: seq<Event>, more: seq<Event>, pending: Label, i: nat)
    requires i < |Run(events, pending).matched| && Run(events, pending).matched[i]
    ensures i < |Run(events + more, pending).matched| && Run(events + more, pending).matched[i]
  {
    if more == [] {
      assert events + more == events;
    } else {
      var n := |more| - 1;
      MatchedForGood(events, more[..n], pending, i);
      RunExtend(events + more[..n], more[n], pending);
      assert events + more == events + more[..n] + [more[n]];
      StepKeepsMatched(Run(events + more[..n], pending), more[n], pending, i);
    }
  }

  lemma RunExtend(events: seq<Event>, e: Event, pending: Label)
    ensures Run(events + [e], pending) == Step(Run(events, pending), e, pending)
  {
    assert (events + [e])[..|events|] == events;
  }

  /** An ID has free slots in its queue exactly when some unmatched call has it. */
  lemma FreeIff(s: Summary, pending: Label, id: Label)
    requires |s.entries| == |s.matched| && QueuesOwn(s) && UnmatchedWait(s, pending) && id != Blank
    ensures Unmatched(Queue(s, id), s.matched) != []
            <==> exists i :: 0 <= i < |s.entries| && !s.matched[i] && s.entries[i].toolCallID == id
  {
    var skipped := UnmatchedIsSuffix(Queue(s, id), s.matched);
    if skipped < |Queue(s, id)| {
      assert s.entries[Queue(s, id)[skipped]].toolCallID == id;
    }
    if i :| 0 <= i < |s.entries| && !s.matched[i] && s.entries[i].toolCallID == id {
      WaitingIsFree(Queue(s, id), s.matched, i);
    }
  }

  /** Unless the ID's last slot is taken again, a result goes to an unmatched slot or nowhere. */
  lemma SlotFresh(s: Summary, id: Label, toolName: Label)
    requires |s.entries| == |s.matched|
    requires Unmatched(Queue(s, id), s.matched) != [] || id !in s.last || id == Blank
    ensures var i := Slot(s, id, toolName); i < 0 || (i < |s.matched| && !s.matched[i])
  {
    var skipped := UnmatchedIsSuffix(Queue(s, id), s.matched);
  }

  lemma SlotAgain(s: Summary, id: Label, toolName: Label)
    requires |s.entries| == |s.matched|
    requires id != Blank && Unmatched(Queue(s, id), s.matched) == [] && id in s.last
    ensures Slot(s, id, toolName) == s.last[id]
  {
  }

  /**
   * A persisted call is meant to get at most one result. A result breaks this exactly when an earlier result
   * with its ID found a slot and no call with its ID is still unmatched.
   */
  lemma OverwritesIff(events: seq<Event>, pending: Label, e: Event)
    requires e.Result?
    ensures var s := Run(events, pending);
            Overwrites(s, e)
            <==> e.toolCallID != Blank && e.toolCallID in s.last
                 && !exists i :: 0 <= i < |s.entries| && !s.matched[i] && s.entries[i].toolCallID == e.toolCallID
  {
    RunInvariant(events, pending);
    OverwritesAt(Run(events, pending), pending, e);
  }

  lemma OverwritesAt(s: Summary, pending: Label, e: Event)
    requires |s.entries| == |s.matched| && QueuesOwn(s) && UnmatchedWait(s, pending) && LastMatched(s) && e.Result?
    ensures Overwrites(s, e)
            <==> e.toolCallID != Blank && e.toolCallID in s.last
                 && !exists i :: 0 <= i < |s.entries| && !s.matched[i] && s.entries[i].toolCallID == e.toolCallID
  {
    var id := e.toolCallID;
    if id == Blank {
      SlotFresh(s, id, e.toolName);
    } else {
      FreeIff(s, pending, id);
      if Unmatched(Queue(s, id), s.matched) != [] || id !in s.last {
        SlotFresh(s, id, e.toolName);
      } else {
        SlotAgain(s, id, e.toolName);
      }
    }
  }

  lemma RunThree(a: Event, b: Event, c: Event, pending: Label)
    ensures Run([a], pending) == Step(EMPTY, a, pending)
    ensures Run([a, b], pending) == Step(Step(EMPTY, a, pending), b, pending)
    ensures Run([a, b, c], pending) == Step(Step(Step(EMPTY, a, pending), b, pending), c, pending)
  {
    hide Step;
    assert [a][..0] == [] && [a, b][..1] == [a] && [a, b, c][..2] == [a, b];
  }

  /** A second result for a single call takes the place of the first one. */
  lemma SecondResultOverwrites(pending: Label, id: Label, tool: Label, call: Label, first: Label, second: Label)
    requires id != Blank
    ensures var events := [Call(call, tool, id, Blank), Result(first, tool, id, Blank, Blank),
                           Result(second, tool, id, Blank, Blank)];
            && Overwrites(Run(events[..2], pending), events[2])
            && |Run(events, pending).entries| == 1 && Run(events, pending).entries[0].resultDetailID == second
  {
    var a, b := Call(call, tool, id, Blank), Result(first, tool, id, Blank, Blank);
    var c := Result(second, tool, id, Blank, Blank);
    RunThree(a, b, c, pending);
    hide Run;
    assert [a, b, c][..2] == [a, b];
    var s1 := Step(EMPTY, a, pending);
    assert Queue(s1, id) == [0] && s1.matched == [false];
    SlotOne(s1, id, tool);
    var s2 := Step(s1, b, pending);
    assert s2.matched == [true] && id in s2.last && s2.last[id] == 0 && Queue(s2, id) == [];
    SlotAgain(s2, id, tool);
  }

  lemma SlotOne(s: Summary, id: Label, tool: Label)
    requires |s.entries| == 1 && s.matched == [false] && id != Blank && Queue(s, id) == [0]
    ensures Slot(s, id, tool) == 0 && Unmatched(Queue(s, id), s.matched) == [0]
  {
  }

  // ---------------------------------------------------------------- first in, first out

  /** The slots of the calls with this ID, in order, when no result opened an entry of its own. */
  function CallSlots(events: seq<Event>, id: Label): (slots: seq<nat>)
    ensures forall k | 0 <= k < |slots| :: slots[k] < Calls(events)
    ensures forall k, l | 0 <= k < l < |slots| :: slots[k] < slots[l]
  {
    if events == [] then []
    else
      var n := |events| - 1;
      CallSlots(events[..n], id) + if events[n].Call? && events[n].toolCallID == id then [Calls(events[..n])] else []
  }

  /** The detail IDs of the results with this ID, in order. */
  function ResultDetails(events: seq<Event>, id: Label): seq<Label> {
    if events == [] then []
    else
      var n := |events| - 1;
      ResultDetails(events[..n], id)
      + if events[n].Result? && events[n].toolCallID == id then [events[n].detailID] else []
  }

  /** Every result carries the ID of an earlier call that has no result yet. */
  predicate Disciplined(events: seq<Event>) {
    events == [] ||
    var n := |events| - 1;
    && Disciplined(events[..n])
    && (events[n].Result? ==>
          && events[n].toolCallID != Blank
          && |ResultDetails(events[..n], events[n].toolCallID)| < |CallSlots(events[..n], events[n].toolCallID)|)
  }

  /** Result k of `id` has landed on call k of `id`; the later calls wait in the queue. */
  ghost predicate InOrder(events: seq<Event>, s: Summary, id: Label)
    requires |s.entries| == |s.matched|
  {
    var slots, details := CallSlots(events, id), ResultDetails(events, id);
    && |s.entries| == Calls(events)
    && |details| <= |slots|
    && Queue(s, id) == slots[|details|..]
    && forall k | 0 <= k < |slots| :: CallAnswered(s, id, slots[k], k, details)
  }

  /** Call k of `id`, at this slot, has result k if there is one, and is unmatched otherwise. */
  ghost predicate CallAnswered(s: Summary, id: Label, slot: nat, k: nat, details: seq<Label>)
    requires |s.entries| == |s.matched| && slot < |s.entries|
  {
    && s.entries[slot].toolCallID == id
    && (s.matched[slot] <==> k < |details|)
    && (k < |details| ==> s.entries[slot].resultDetailID == details[k])
  }

  lemma {:induction false} DisciplinedPrefix(events: seq<Event>, n: nat)
    requires Disciplined(events) && n <= |events|
    ensures Disciplined(events[..n])
    decreases |events| - n
  {
    if n < |events| {
      DisciplinedPrefix(events, n + 1);
      assert events[..n + 1][..n] == events[..n];
    } else {
      assert events[..n] == events;
    }
  }

  /** In a disciplined run the k-th result of an ID lands on the k-th call of that ID, and stays there. */
  lemma {:induction false} ResultsLandInOrder(events: seq<Event>, pending: Label, id: Label)
    requires Disciplined(events) && id != Blank
    ensures InOrder(events, Run(events, pending), id)
    decreases |events|
  {
    if events != [] {
      var n := |events| - 1;
      var s, e := Run(events[..n], pending), events[n];
      ResultsLandInOrder(events[..n], pending, id);
      assert events == events[..n] + [e];
      match e
      case Malformed =>
        MalformedInOrder(events[..n], s, id);
      case Call(_, _, _, executionID) =>
        CallInOrder(events[..n], s, e, pending, id);
        RememberInOrder(events, AddCall(s, e, pending), executionID, id);
      case Result(_, _, _, executionID, _) =>
        ResultsLandInOrder(events[..n], pending, e.toolCallID);
        if id == e.toolCallID {
          OwnResultInOrder(events[..n], s, e);
        } else {
          OtherResultInOrder(events[..n], s, e, id);
        }
        RememberInOrder(events, AddResult(s, e), executionID, id);
    }
  }

  lemma Extend(events: seq<Event>, e: Event, id: Label)
    ensures Calls(events + [e]) == Calls(events) + if e.Call? then 1 else 0
    ensures CallSlots(events + [e], id)
            == CallSlots(events, id) + if e.Call? && e.toolCallID == id then [Calls(events)] else []
    ensures ResultDetails(events + [e], id)
            == ResultDetails(events, id) + if e.Result? && e.toolCallID == id then [e.detailID] else []
  {
    assert (events + [e])[..|events|] == events;
  }

  lemma RememberInOrder(events: seq<Event>, s: Summary, executionID: Label, id: Label)
    requires |s.entries| == |s.matched| && InOrder(events, s, id)
    ensures InOrder(events, Remember(s, executionID), id)
  {
  }

  lemma MalformedInOrder(events: seq<Event>, s: Summary, id: Label)
    requires |s.entries| == |s.matched| && InOrder(events, s, id)
    ensures InOrder(events + [Malformed], s, id)
  {
    Extend(events, Malformed, id);
  }

  lemma CallInOrder(events: seq<Event>, s: Summary, e: Event, pending: Label, id: Label)
    requires |s.entries| == |s.matched| && e.Call? && id != Blank && InOrder(events, s, id)
    ensures InOrder(events + [e], AddCall(s, e, pending), id)
  {
    Extend(events, e, id);
    var slots, details := CallSlots(events, id), ResultDetails(events, id);
    var t := AddCall(s, e, pending);
    CallKeepsEntries(s, e, pending);
    var slots' := CallSlots(events + [e], id);
    assert Queue(t, id) == slots'[|details|..] by {
      if e.toolCallID == id {
        assert (slots + [Calls(events)])[|details|..] == slots[|details|..] + [Calls(events)];
      }
    }
    forall k | 0 <= k < |slots'| ensures CallAnswered(t, id, slots'[k], k, details) {
      if k < |slots| {
        assert CallAnswered(s, id, slots[k], k, details);
      }
    }
  }

  lemma CallKeepsEntries(s: Summary, e: Event, pending: Label)
    requires |s.entries| == |s.matched| && e.Call?
    ensures var t := AddCall(s, e, pending);
            && |t.entries| == |t.matched| == |s.entries| + 1
            && t.entries[|s.entries|].toolCallID == e.toolCallID && !t.matched[|s.entries|]
            && forall i | 0 <= i < |s.entries| :: t.entries[i] == s.entries[i] && t.matched[i] == s.matched[i]
  {
  }

  /** The head of the ID's queue is the call this result answers. */
  lemma OwnSlot(events: seq<Event>, s: Summary, e: Event)
    requires |s.entries| == |s.matched| && e.Result? && e.toolCallID != Blank
    requires InOrder(events, s, e.toolCallID)
    requires |ResultDetails(events, e.toolCallID)| < |CallSlots(events, e.toolCallID)|
    ensures var k := |ResultDetails(events, e.toolCallID)|;
            && Unmatched(Queue(s, e.toolCallID), s.matched) == Queue(s, e.toolCallID)
            && Slot(s, e.toolCallID, e.toolName) == CallSlots(events, e.toolCallID)[k] < |s.entries|
            && s.entries[CallSlots(events, e.toolCallID)[k]].toolCallID == e.toolCallID
  {
    var slots, details := CallSlots(events, e.toolCallID), ResultDetails(events, e.toolCallID);
    assert Queue(s, e.toolCallID)[0] == slots[|details|];
    assert CallAnswered(s, e.toolCallID, slots[|details|], |details|, details);
  }

  lemma ResultFillsSlot(s: Summary, e: Event)
    requires |s.entries| == |s.matched| && e.Result?
    ensures |AddResult(s, e).entries| == |AddResult(s, e).matched|
    ensures var t, i := AddResult(s, e), Slot(s, e.toolCallID, e.toolName);
            0 <= i < |s.entries| ==>
              i < |t.entries| && t.matched[i] && t.entries[i].resultDetailID == e.detailID && |t.entries| == |s.entries|
  {
  }

  /** What `InOrder` says, about the lists of slots and results themselves. */
  ghost predicate Lined(s: Summary, id: Label, slots: seq<nat>, details: seq<Label>)
    requires |s.entries| == |s.matched|
  {
    && |details| <= |slots|
    && (forall k | 0 <= k < |slots| :: slots[k] < |s.entries|)
    && Queue(s, id) == slots[|details|..]
    && forall k | 0 <= k < |slots| && slots[k] < |s.entries| :: CallAnswered(s, id, slots[k], k, details)
  }

  lemma LinedIff(events: seq<Event>, s: Summary, id: Label)
    requires |s.entries| == |s.matched| && |s.entries| == Calls(events)
    ensures InOrder(events, s, id) <==> Lined(s, id, CallSlots(events, id), ResultDetails(events, id))
  {
    hide Queue, CallAnswered;
  }

  lemma OwnLined(s: Summary, e: Event, slots: seq<nat>, details: seq<Label>)
    requires |s.entries| == |s.matched| && e.Result? && e.toolCallID != Blank && |details| < |slots|
    requires Lined(s, e.toolCallID, slots, details) && forall k, l | 0 <= k < l < |slots| :: slots[k] < slots[l]
    requires Unmatched(Queue(s, e.toolCallID), s.matched) == Queue(s, e.toolCallID)
    requires Slot(s, e.toolCallID, e.toolName) == slots[|details|]
    ensures |AddResult(s, e).entries| == |s.entries|
    ensures Lined(AddResult(s, e), e.toolCallID, slots, details + [e.detailID])
  {
    hide AddResult, Slot, Unmatched, QueuesAfter, Filled;
    var id, t, later := e.toolCallID, AddResult(s, e), details + [e.detailID];
    QueueAfterResult(s, e);
    ResultKeepsSlots(s, e);
    ResultFillsSlot(s, e);
    assert Queue(t, id) == slots[|later|..] by {
      assert slots[|details|..][1..] == slots[|details| + 1..];
    }
    hide Queue;
    forall k | 0 <= k < |slots| && slots[k] < |t.entries| ensures CallAnswered(t, id, slots[k], k, later) {
      assert CallAnswered(s, id, slots[k], k, details);
      if k < |details| {
        assert slots[k] < slots[|details|];
      } else if |details| < k {
        assert slots[|details|] < slots[k];
      }
    }
  }

  lemma OwnResultInOrder(events: seq<Event>, s: Summary, e: Event)
    requires |s.entries| == |s.matched| && e.Result? && e.toolCallID != Blank
    requires InOrder(events, s, e.toolCallID)
    requires |ResultDetails(events, e.toolCallID)| < |CallSlots(events, e.toolCallID)|
    ensures InOrder(events + [e], AddResult(s, e), e.toolCallID)
  {
    var id := e.toolCallID;
    OwnSlot(events, s, e);
    LinedIff(events, s, id);
    Extend(events, e, id);
    hide AddResult, Slot, Unmatched, Lined, Queue, CallAnswered;
    OwnLined(s, e, CallSlots(events, id), ResultDetails(events, id));
    assert CallSlots(events, id) + [] == CallSlots(events, id);
    LinedIff(events + [e], AddResult(s, e), id);
  }

  lemma OtherLined(s: Summary, e: Event, id: Label, slots: seq<nat>, details: seq<Label>)
    requires |s.entries| == |s.matched| && e.Result? && id != Blank && id != e.toolCallID
    requires Lined(s, id, slots, details)
    requires var i := Slot(s, e.toolCallID, e.toolName); 0 <= i < |s.entries| && s.entries[i].toolCallID != id
    ensures |AddResult(s, e).entries| == |s.entries|
    ensures Lined(AddResult(s, e), id, slots, details)
  {
    hide AddResult, Slot, Unmatched, QueuesAfter, Filled;
    QueueAfterResult(s, e);
    ResultKeepsSlots(s, e);
    ResultFillsSlot(s, e);
    hide Queue;
    forall k | 0 <= k < |slots| && slots[k] < |s.entries|
      ensures CallAnswered(AddResult(s, e), id, slots[k], k, details)
    {
      assert CallAnswered(s, id, slots[k], k, details);
    }
  }

  lemma OtherResultInOrder(events: seq<Event>, s: Summary, e: Event, id: Label)
    requires |s.entries| == |s.matched| && e.Result? && e.toolCallID != Blank && id != Blank && id != e.toolCallID
    requires InOrder(events, s, id) && InOrder(events, s, e.toolCallID)
    requires |ResultDetails(events, e.toolCallID)| < |CallSlots(events, e.toolCallID)|
    ensures InOrder(events + [e], AddResult(s, e), id)
  {
    OwnSlot(events, s, e);
    LinedIff(events, s, id);
    Extend(events, e, id);
    hide AddResult, Slot, Unmatched, Lined, Queue, CallAnswered;
    OtherLined(s, e, id, CallSlots(events, id), ResultDetails(events, id));
    assert CallSlots(events, id) + [] == CallSlots(events, id);
    assert ResultDetails(events, id) + [] == ResultDetails(events, id);
    LinedIff(events + [e], AddResult(s, e), id);
  }
}
