/** What the repair of a history keeps, message by message and call by call, told by counting calls and results. */
module RepairShape {
  import opened Chat
  import opened HistoryRepair
  import opened Text

  predicate Assistant(m: ChatMessage) {
    LowerAscii(m.role) == "assistant"
  }

  predicate Tool(m: ChatMessage) {
    LowerAscii(m.role) == "tool"
  }

  /** Where one list of calls has the ID. */
  ghost function CallsIn(calls: seq<ToolCall>, id: string): set<int> {
    set k | 0 <= k < |calls| && calls[k].id == id
  }

  /** How often assistants call the ID. */
  ghost function CallTotal(msgs: seq<ChatMessage>, id: string): nat {
    if msgs == [] then 0
    else
      var m := msgs[|msgs| - 1];
      CallTotal(msgs[..|msgs| - 1], id) + if Assistant(m) then |CallsIn(m.toolCalls, id)| else 0
  }

  ghost function ResultsOf(msgs: seq<ChatMessage>, id: string): set<int> {
    set i | 0 <= i < |msgs| && Tool(msgs[i]) && msgs[i].toolCallID == id
  }

  /** An ID with more calls than results. */
  ghost predicate Unanswered(msgs: seq<ChatMessage>, id: string) {
    id != "" && |ResultsOf(msgs, id)| < CallTotal(msgs, id)
  }

  /** The elements that are kept, in order. */
  function Chosen<T>(xs: seq<T>, keep: seq<bool>): seq<T>
    requires |keep| == |xs|
  {
    if xs == [] then []
    else
      var n := |xs| - 1;
      Chosen(xs[..n], keep[..n]) + if keep[n] then [xs[n]] else []
  }

  // ---------------------------------------------------------------- counting

  lemma {:induction false} IdCountIs(calls: seq<ToolCall>, id: string)
    requires id != ""
    ensures IdCount(calls, id) == |CallsIn(calls, id)|
  {
    if calls != [] {
      var n := |calls| - 1;
      IdCountIs(calls[..n], id);
      assert CallsIn(calls, id) == CallsIn(calls[..n], id) + if calls[n].id == id then {n} else {};
    }
  }

  lemma {:induction false} CallCountIs(msgs: seq<ChatMessage>, id: string)
    requires id != ""
    ensures CallCount(msgs, id) == CallTotal(msgs, id)
  {
    if msgs != [] {
      var n := |msgs| - 1;
      CallCountIs(msgs[..n], id);
      IdCountIs(msgs[n].toolCalls, id);
      ToolIs(msgs[n]);
      hide CallsIn, Assistant, IsAssistant, IdCount;
    }
  }

  lemma {:induction false} ResultCountIs(msgs: seq<ChatMessage>, id: string)
    ensures ResultCount(msgs, id) == |ResultsOf(msgs, id)|
  {
    if msgs != [] {
      var n := |msgs| - 1;
      ResultCountIs(msgs[..n], id);
      ResultsOfLast(msgs, id);
      ToolIs(msgs[n]);
      hide ResultsOf, Tool, IsTool;
    }
  }

  lemma ResultsOfLast(msgs: seq<ChatMessage>, id: string)
    requires msgs != []
    ensures var n := |msgs| - 1;
            && n !in ResultsOf(msgs[..n], id)
            && ResultsOf(msgs, id)
               == ResultsOf(msgs[..n], id) + if Tool(msgs[n]) && msgs[n].toolCallID == id then {n} else {}
  {
    hide Tool;
    assert forall i | 0 <= i < |msgs| - 1 :: msgs[..|msgs| - 1][i] == msgs[i];
  }

  lemma UnansweredIsOpen(msgs: seq<ChatMessage>, id: string)
    ensures Unanswered(msgs, id) <==> id != "" && Open(msgs, id) > 0
  {
    if id != "" {
      CallCountIs(msgs, id);
      ResultCountIs(msgs, id);
    }
  }

  // ---------------------------------------------------------------- what is kept

  /** A message is kept unless it is a result whose ID has no unanswered call among the messages kept before it. */
  ghost predicate KeepTold(msgs: seq<ChatMessage>, keep: seq<bool>)
    requires |keep| == |msgs|
  {
    forall n | 0 <= n < |msgs| ::
      keep[n] <==> !Tool(msgs[n]) || Unanswered(Chosen(msgs[..n], keep[..n]), msgs[n].toolCallID)
  }

  lemma {:induction false} ForwardTold(msgs: seq<ChatMessage>) returns (keep: seq<bool>)
    ensures |keep| == |msgs| && KeepTold(msgs, keep) && Forward(msgs) == Chosen(msgs, keep)
  {
    hide Unanswered, Tool;
    if msgs == [] {
      keep := [];
    } else {
      var n := |msgs| - 1;
      var m := msgs[n];
      var before := ForwardTold(msgs[..n]);
      UnansweredIsOpen(Forward(msgs[..n]), m.toolCallID);
      ToolIs(m);
      keep := before + [!Tool(m) || Unanswered(Forward(msgs[..n]), m.toolCallID)];
      assert keep[..n] == before;
      ForwardStep(msgs);
      hide Open, IsTool, KeepTold, Forward;
      KeepStep(msgs, keep);
    }
  }

  lemma ForwardStep(msgs: seq<ChatMessage>)
    requires msgs != []
    ensures var before, m := Forward(msgs[..|msgs| - 1]), msgs[|msgs| - 1];
            Forward(msgs)
            == before + if !IsTool(m) || (m.toolCallID != "" && Open(before, m.toolCallID) > 0) then [m] else []
  {
    hide Open, IsTool;
  }

  lemma KeepStep(msgs: seq<ChatMessage>, keep: seq<bool>)
    requires |keep| == |msgs| > 0 && KeepTold(msgs[..|msgs| - 1], keep[..|msgs| - 1])
    requires var n := |msgs| - 1;
             keep[n] <==> !Tool(msgs[n]) || Unanswered(Chosen(msgs[..n], keep[..n]), msgs[n].toolCallID)
    ensures KeepTold(msgs, keep)
  {
    hide Unanswered, Tool, Chosen;
    var n := |msgs| - 1;
    forall k | 0 <= k < n
      ensures keep[k] <==> !Tool(msgs[k]) || Unanswered(Chosen(msgs[..k], keep[..k]), msgs[k].toolCallID)
    {
      assert msgs[..n][..k] == msgs[..k] && keep[..n][..k] == keep[..k] && keep[..n][k] == keep[k];
    }
  }

  lemma ToolIs(m: ChatMessage)
    ensures IsTool(m) <==> Tool(m)
    ensures IsAssistant(m) <==> Assistant(m)
  {
  }

  /** A call goes exactly if its ID is unanswered and no earlier call of the list has it. */
  ghost predicate StripTold(calls: seq<ToolCall>, kept: seq<ChatMessage>, keep: seq<bool>)
    requires |keep| == |calls|
  {
    forall k | 0 <= k < |calls| ::
      !keep[k] <==> Unanswered(kept, calls[k].id) && forall j | 0 <= j < k :: calls[j].id != calls[k].id
  }

  lemma NotCalledIff(calls: seq<ToolCall>, id: string)
    requires id != ""
    ensures IdCount(calls, id) == 0 <==> forall j | 0 <= j < |calls| :: calls[j].id != id
  {
    IdCountIs(calls, id);
    if j :| 0 <= j < |calls| && calls[j].id == id {
      assert j in CallsIn(calls, id);
    } else {
      assert CallsIn(calls, id) == {};
    }
  }

  lemma {:induction false} StripCallsTold(calls: seq<ToolCall>, kept: seq<ChatMessage>) returns (keep: seq<bool>)
    ensures |keep| == |calls| && StripTold(calls, kept, keep) && StripCalls(calls, kept) == Chosen(calls, keep)
  {
    hide Unanswered;
    if calls == [] {
      keep := [];
    } else {
      var n := |calls| - 1;
      var before := StripCallsTold(calls[..n], kept);
      UnansweredIsOpen(kept, calls[n].id);
      if calls[n].id != "" {
        NotCalledIff(calls[..n], calls[n].id);
      }
      assert forall j | 0 <= j < n :: calls[..n][j] == calls[j];
      keep := before + [!(Unanswered(kept, calls[n].id) && forall j | 0 <= j < n :: calls[j].id != calls[n].id)];
      assert keep[..n] == before;
      hide Open, IdCount, StripTold;
      StripStep(calls, kept, keep);
    }
  }

  lemma StripStep(calls: seq<ToolCall>, kept: seq<ChatMessage>, keep: seq<bool>)
    requires calls != [] && |keep| == |calls| && StripTold(calls[..|calls| - 1], kept, keep[..|calls| - 1])
    requires var n := |calls| - 1;
             !keep[n] <==> Unanswered(kept, calls[n].id) && forall j | 0 <= j < n :: calls[j].id != calls[n].id
    ensures StripTold(calls, kept, keep)
  {
    hide Unanswered;
    var n := |calls| - 1;
    assert forall j | 0 <= j < n :: calls[..n][j] == calls[j] && keep[..n][j] == keep[j];
  }

  /** The last assistant message with calls, if there is one. */
  ghost predicate LastCaller(msgs: seq<ChatMessage>, i: int) {
    && -1 <= i < |msgs| && (i >= 0 ==> Assistant(msgs[i]) && msgs[i].toolCalls != [])
    && forall j | i < j < |msgs| :: !(Assistant(msgs[j]) && msgs[j].toolCalls != [])
  }

  /**
   * The repair: results without an unanswered call in front of them go; then, from the last assistant message with
   * calls, the first call of each ID that is unanswered in all that was kept. Nothing else changes, and the flag says
   * whether anything did.
   */
  lemma RepairTold(msgs: seq<ChatMessage>) returns (keep: seq<bool>, i: int, stay: seq<bool>)
    ensures |keep| == |msgs| && KeepTold(msgs, keep)
    ensures var kept, out := Chosen(msgs, keep), Repair(msgs).1;
            && LastCaller(kept, i) && (i < 0 ==> out == kept)
            && (i >= 0 ==> && |stay| == |kept[i].toolCalls| && StripTold(kept[i].toolCalls, kept, stay)
                           && out == kept[i := kept[i].(toolCalls := Chosen(kept[i].toolCalls, stay))])
            && (Repair(msgs).0 <==> out != msgs)
  {
    hide Forward, StripTold, KeepTold, StripCalls, Chosen, LastCaller, LastCalling;
    keep := ForwardTold(msgs);
    var kept := Forward(msgs);
    i := LastCalling(kept);
    stay := [];
    LastCallerIs(kept);
    if i >= 0 {
      stay := StripCallsTold(kept[i].toolCalls, kept);
    }
  }

  lemma LastCallerIs(kept: seq<ChatMessage>)
    ensures LastCaller(kept, LastCalling(kept))
  {
    hide LastCalling;
  }
}
