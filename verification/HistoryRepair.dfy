/**
 * Repair of a restored chat history: tool results that answer no call are dropped, and
 * calls that nobody answered are stripped from the last assistant message that calls tools.
 */
module HistoryRepair {
  import opened Base
  import opened Chat
  import opened Text

  predicate IsAssistant(m: ChatMessage) {
    LowerAscii(m.role) == "assistant"
  }

  predicate IsTool(m: ChatMessage) {
    LowerAscii(m.role) == "tool"
  }

  /** How often `id` is called in one list of calls; a blank ID calls nothing. */
  function IdCount(calls: seq<ToolCall>, id: string): nat {
    if calls == [] || id == "" then 0
    else IdCount(calls[..|calls| - 1], id) + if calls[|calls| - 1].id == id then 1 else 0
  }

  function CallCount(msgs: seq<ChatMessage>, id: string): nat {
    if msgs == [] then 0
    else
      var m := msgs[|msgs| - 1];
      CallCount(msgs[..|msgs| - 1], id) + if IsAssistant(m) then IdCount(m.toolCalls, id) else 0
  }

  function ResultCount(msgs: seq<ChatMessage>, id: string): nat {
    if msgs == [] then 0
    else
      var m := msgs[|msgs| - 1];
      ResultCount(msgs[..|msgs| - 1], id) + if IsTool(m) && m.toolCallID == id then 1 else 0
  }

  /** Calls of `id` still waiting for a result. */
  function Open(msgs: seq<ChatMessage>, id: string): int {
    CallCount(msgs, id) - ResultCount(msgs, id)
  }

  /** No result ever comes before the call it answers. */
  ghost predicate Balanced(msgs: seq<ChatMessage>) {
    forall n, id | 0 <= n <= |msgs| :: Open(msgs[..n], id) >= 0
  }

  // ---------------------------------------------------------------- specification

  /** The forward pass: a tool message survives when it answers an open call. */
  function Forward(msgs: seq<ChatMessage>): (kept: seq<ChatMessage>)
    ensures |kept| <= |msgs|
  {
    if msgs == [] then []
    else
      var kept := Forward(msgs[..|msgs| - 1]);
      var m := msgs[|msgs| - 1];
      if IsTool(m) && (m.toolCallID == "" || Open(kept, m.toolCallID) <= 0) then kept else kept + [m]
  }

  /** The last assistant message that calls tools, or -1. */
  function LastCalling(msgs: seq<ChatMessage>): (i: int)
    ensures -1 <= i < |msgs|
    ensures i >= 0 ==> IsAssistant(msgs[i]) && msgs[i].toolCalls != []
    ensures forall j | i < j < |msgs| :: !(IsAssistant(msgs[j]) && msgs[j].toolCalls != [])
  {
    if msgs == [] then -1
    else if IsAssistant(msgs[|msgs| - 1]) && msgs[|msgs| - 1].toolCalls != [] then |msgs| - 1
    else LastCalling(msgs[..|msgs| - 1])
  }

  /** The first call of each open ID goes; everything else stays. */
  function StripCalls(calls: seq<ToolCall>, msgs: seq<ChatMessage>): (kept: seq<ToolCall>)
    ensures |kept| <= |calls|
    ensures |kept| == |calls| ==> kept == calls
  {
    if calls == [] then []
    else
      var rest, tc := calls[..|calls| - 1], calls[|calls| - 1];
      var kept := StripCalls(rest, msgs);
      if tc.id != "" && Open(msgs, tc.id) > 0 && IdCount(rest, tc.id) == 0 then kept else kept + [tc]
  }

  function Stripped(kept: seq<ChatMessage>): (r: seq<ChatMessage>)
    ensures |r| == |kept|
  {
    var i := LastCalling(kept);
    if i < 0 then kept else kept[i := kept[i].(toolCalls := StripCalls(kept[i].toolCalls, kept))]
  }

  /** What the repair leaves: the flag it returns and the list it stores. */
  function Repair(msgs: seq<ChatMessage>): (r: (bool, seq<ChatMessage>)) {
    var out := Stripped(Forward(msgs));
    (out != msgs, out)
  }

  // ---------------------------------------------------------------- the operation

  class History {
    var messages: seq<ChatMessage>

    constructor (msgs: seq<ChatMessage>)
      ensures messages == msgs
    {
      messages := msgs;
    }

    method RepairOrphanToolMessages() returns (removed: bool)
      modifies this
      ensures (removed, messages) == Repair(old(messages))
    {
      if |messages| == 0 {
        return false;
      }
      var cleaned, pending := ForwardPass(messages);
      removed := |cleaned| < |messages|;
      ForwardUnchanged(messages);
      if |pending| > 0 {
        var stripped := StripLast(cleaned, pending);
        removed := removed || stripped != cleaned;
        cleaned := stripped;
      } else {
        NothingOpenNothingStripped(cleaned);
      }
      if removed {
        messages := cleaned;
      }
    }
  }

  /** Keeps every message but the tool results that answer no pending call. */
  method ForwardPass(msgs: seq<ChatMessage>) returns (cleaned: seq<ChatMessage>, pending: map<string, nat>)
    ensures cleaned == Forward(msgs) && Represents(pending, cleaned)
  {
    cleaned, pending := [], map[];
    for n := 0 to |msgs|
      invariant cleaned == Forward(msgs[..n])
      invariant Represents(pending, cleaned)
    {
      var msg := msgs[n];
      assert msgs[..n + 1][..n] == msgs[..n];
      assert (cleaned + [msg])[..|cleaned|] == cleaned;
      if IsAssistant(msg) {
        pending := CountCalls(pending, msg, cleaned);
        cleaned := cleaned + [msg];
      } else if IsTool(msg) {
        var callID := msg.toolCallID;
        if callID != "" && callID in pending && pending[callID] > 0 {
          pending := if pending[callID] == 1 then pending - {callID} else pending[callID := pending[callID] - 1];
          cleaned := cleaned + [msg];
        }
      } else {
        cleaned := cleaned + [msg];
      }
    }
    assert msgs[..|msgs|] == msgs;
  }

  /** Scans back to the last assistant that calls tools and strips its pending calls. */
  method StripLast(kept: seq<ChatMessage>, pending: map<string, nat>) returns (cleaned: seq<ChatMessage>)
    requires Represents(pending, kept)
    ensures cleaned == Stripped(kept)
  {
    cleaned := kept;
    var i := |kept| - 1;
    while i >= 0
      invariant -1 <= i < |kept|
      invariant forall j | i < j < |kept| :: !(IsAssistant(kept[j]) && kept[j].toolCalls != [])
    {
      if IsAssistant(kept[i]) && |kept[i].toolCalls| > 0 {
        var valid := StripOpenCalls(kept[i].toolCalls, pending, kept);
        return kept[i := kept[i].(toolCalls := valid)];
      }
      i := i - 1;
    }
  }

  /** Adds one pending count for each call with an ID. */
  method CountCalls(pending: map<string, nat>, msg: ChatMessage, ghost cleaned: seq<ChatMessage>)
    returns (counted: map<string, nat>)
    requires IsAssistant(msg)
    requires Represents(pending, cleaned)
    ensures Represents(counted, cleaned + [msg])
  {
    counted := pending;
    for n := 0 to |msg.toolCalls|
      invariant Counts(counted, cleaned, msg.toolCalls[..n])
    {
      var tc := msg.toolCalls[n];
      assert msg.toolCalls[..n + 1][..n] == msg.toolCalls[..n];
      assert forall id :: IdCount(msg.toolCalls[..n + 1], id)
                          == IdCount(msg.toolCalls[..n], id) + if id != "" && tc.id == id then 1 else 0;
      if tc.id != "" {
        counted := counted[tc.id := (if tc.id in counted then counted[tc.id] else 0) + 1];
      }
    }
    assert msg.toolCalls[..|msg.toolCalls|] == msg.toolCalls;
    assert (cleaned + [msg])[..|cleaned|] == cleaned;
  }

  ghost predicate Counts(pending: map<string, nat>, msgs: seq<ChatMessage>, calls: seq<ToolCall>) {
    forall id ::
      var open := Open(msgs, id) + IdCount(calls, id);
      if id in pending then pending[id] > 0 && open == pending[id] && id != "" else open == 0
  }

  /** Drops the calls whose ID is still pending, each ID once. */
  method StripOpenCalls(calls: seq<ToolCall>, pending: map<string, nat>, ghost msgs: seq<ChatMessage>)
    returns (valid: seq<ToolCall>)
    requires Represents(pending, msgs)
    ensures valid == StripCalls(calls, msgs)
  {
    valid := [];
    var left := pending;
    for n := 0 to |calls|
      invariant valid == StripCalls(calls[..n], msgs)
      invariant forall id :: id in left <==> id in pending && IdCount(calls[..n], id) == 0
      invariant forall id | id in left :: left[id] > 0
    {
      var tc := calls[n];
      assert calls[..n + 1][..n] == calls[..n];
      if tc.id != "" && tc.id in left && left[tc.id] > 0 {
        left := left - {tc.id};
      } else {
        valid := valid + [tc];
      }
    }
    assert calls[..|calls|] == calls;
  }

  /** `pending` holds the positive open counts of `msgs`. */
  ghost predicate Represents(pending: map<string, nat>, msgs: seq<ChatMessage>) {
    forall id ::
      if id in pending then pending[id] > 0 && Open(msgs, id) == pending[id] && id != ""
      else Open(msgs, id) == 0
  }

  // ---------------------------------------------------------------- counting lemmas

  lemma {:induction false} ForwardUnchanged(msgs: seq<ChatMessage>)
    ensures |Forward(msgs)| == |msgs| ==> Forward(msgs) == msgs
  {
    if msgs != [] {
      ForwardUnchanged(msgs[..|msgs| - 1]);
    }
  }

  lemma {:induction false} NoBlankCall(msgs: seq<ChatMessage>)
    ensures CallCount(msgs, "") == 0
  {
    if msgs != [] {
      NoBlankCall(msgs[..|msgs| - 1]);
    }
  }

  lemma {:induction false} NothingOpenNothingStripped(msgs: seq<ChatMessage>)
    requires forall id :: Open(msgs, id) <= 0
    ensures Stripped(msgs) == msgs
  {
    var i := LastCalling(msgs);
    if i >= 0 {
      NothingToStrip(msgs[i].toolCalls, msgs);
    }
  }

  lemma {:induction false} NothingToStrip(calls: seq<ToolCall>, msgs: seq<ChatMessage>)
    requires forall id :: Open(msgs, id) <= 0
    ensures StripCalls(calls, msgs) == calls
  {
    if calls != [] {
      NothingToStrip(calls[..|calls| - 1], msgs);
    }
  }

  /** Replacing the calls of message `i` moves every later prefix's call count by the same amount. */
  lemma {:induction false} CountsAfterUpdate(msgs: seq<ChatMessage>, i: nat, calls: seq<ToolCall>, id: string)
    requires i < |msgs| && IsAssistant(msgs[i])
    ensures var changed := msgs[i := msgs[i].(toolCalls := calls)];
            && ResultCount(changed, id) == ResultCount(msgs, id)
            && CallCount(changed, id) == CallCount(msgs, id) - IdCount(msgs[i].toolCalls, id) + IdCount(calls, id)
  {
    var n := |msgs| - 1;
    var changed := msgs[i := msgs[i].(toolCalls := calls)];
    if i < n {
      assert changed[..n] == msgs[..n][i := msgs[i].(toolCalls := calls)];
      CountsAfterUpdate(msgs[..n], i, calls, id);
    } else {
      assert changed[..n] == msgs[..n];
    }
  }

  lemma {:induction false} StripCount(calls: seq<ToolCall>, msgs: seq<ChatMessage>, id: string)
    ensures IdCount(StripCalls(calls, msgs), id)
            == IdCount(calls, id) - if Open(msgs, id) > 0 && IdCount(calls, id) > 0 then 1 else 0
  {
    if calls != [] {
      var rest, tc := calls[..|calls| - 1], calls[|calls| - 1];
      StripCount(rest, msgs, id);
      var kept := StripCalls(rest, msgs);
      assert (kept + [tc])[..|kept|] == kept;
    }
  }

  /** After the last calling assistant an ID's open count can only fall. */
  lemma {:induction false} OpenFallsAfterLastCall(msgs: seq<ChatMessage>, n: nat, id: string)
    requires LastCalling(msgs) < n <= |msgs|
    ensures Open(msgs, id) <= Open(msgs[..n], id)
    decreases |msgs|
  {
    var last := |msgs| - 1;
    if n == |msgs| {
      assert msgs[..n] == msgs;
    } else {
      assert msgs[..last][..n] == msgs[..n];
      OpenFallsAfterLastCall(msgs[..last], n, id);
    }
  }

  // ---------------------------------------------------------------- main results

  /** The forward pass loses no call, and no ID has more results than calls after it. */
  lemma {:induction false} ForwardOpen(msgs: seq<ChatMessage>, id: string)
    ensures CallCount(Forward(msgs), id) == CallCount(msgs, id)
    ensures Open(Forward(msgs), id) >= 0
  {
    if msgs != [] {
      ForwardOpen(msgs[..|msgs| - 1], id);
      var kept, m := Forward(msgs[..|msgs| - 1]), msgs[|msgs| - 1];
      assert (kept + [m])[..|kept|] == kept;
    }
  }

  /** After the forward pass each result comes after the call it answers. */
  lemma {:induction false} ForwardBalanced(msgs: seq<ChatMessage>)
    ensures Balanced(Forward(msgs))
  {
    var out := Forward(msgs);
    if msgs != [] {
      ForwardBalanced(msgs[..|msgs| - 1]);
      var kept := Forward(msgs[..|msgs| - 1]);
      forall n, id | 0 <= n <= |out| ensures Open(out[..n], id) >= 0 {
        if n == |out| {
          assert out[..n] == out;
          ForwardOpen(msgs, id);
        } else {
          assert out[..n] == kept[..n] && Open(kept[..n], id) >= 0;
        }
      }
    }
  }

  /** One choice of the tool messages to keep; all other messages stay. */
  ghost function Select(msgs: seq<ChatMessage>, keep: seq<bool>): (r: seq<ChatMessage>)
    requires |keep| == |msgs|
  {
    if msgs == [] then []
    else
      var n := |msgs| - 1;
      Select(msgs[..n], keep[..n]) + if keep[n] || !IsTool(msgs[n]) then [msgs[n]] else []
  }

  lemma OneMoreMessage(msgs: seq<ChatMessage>, m: ChatMessage, id: string)
    ensures CallCount(msgs + [m], id) == CallCount(msgs, id) + if IsAssistant(m) then IdCount(m.toolCalls, id) else 0
  {
    assert (msgs + [m])[..|msgs|] == msgs;
  }

  lemma RolesDiffer(m: ChatMessage)
    ensures !(IsTool(m) && IsAssistant(m))
  {
    assert |"tool"| == 4 && |"assistant"| == 9;
  }

  lemma {:induction false} SelectKeepsCalls(msgs: seq<ChatMessage>, keep: seq<bool>, id: string)
    requires |keep| == |msgs|
    ensures CallCount(Select(msgs, keep), id) == CallCount(msgs, id)
  {
    hide CallCount, IdCount;
    if msgs != [] {
      var n := |msgs| - 1;
      SelectKeepsCalls(msgs[..n], keep[..n], id);
      var rest := Select(msgs[..n], keep[..n]);
      assert msgs == msgs[..n] + [msgs[n]] && rest + [] == rest;
      OneMoreMessage(msgs[..n], msgs[n], id);
      OneMoreMessage(rest, msgs[n], id);
      RolesDiffer(msgs[n]);
    }
  }

  lemma BalancedPrefix(msgs: seq<ChatMessage>, m: ChatMessage)
    requires Balanced(msgs + [m])
    ensures Balanced(msgs)
  {
    forall n, id | 0 <= n <= |msgs| ensures Open(msgs[..n], id) >= 0 {
      assert (msgs + [m])[..n] == msgs[..n] && Open((msgs + [m])[..n], id) >= 0;
    }
  }

  lemma BalancedOpen(msgs: seq<ChatMessage>, id: string)
    requires Balanced(msgs)
    ensures Open(msgs, id) >= 0
  {
    assert msgs[..|msgs|] == msgs && Open(msgs[..|msgs|], id) >= 0;
  }

  /** No balanced choice keeps more results of any ID than the forward pass does. */
  lemma {:induction false} ForwardMaximal(msgs: seq<ChatMessage>, keep: seq<bool>, id: string)
    requires |keep| == |msgs|
    requires Balanced(Select(msgs, keep))
    ensures ResultCount(Select(msgs, keep), id) <= ResultCount(Forward(msgs), id)
  {
    if msgs != [] {
      var n := |msgs| - 1;
      var rest, kept, m := Select(msgs[..n], keep[..n]), Forward(msgs[..n]), msgs[n];
      BalancedOpen(Select(msgs, keep), id);
      SelectKeepsCalls(msgs, keep, id);
      ForwardOpen(msgs, id);
      NoBlankCall(Select(msgs, keep));
      if keep[n] || !IsTool(m) {
        BalancedPrefix(rest, m);
      } else {
        assert rest + [] == rest;
      }
      ForwardMaximal(msgs[..n], keep[..n], id);
      assert (rest + [m])[..|rest|] == rest && (kept + [m])[..|kept|] == kept;
    }
  }

  /** Stripping keeps the history balanced: only calls that nobody answers go. */
  lemma {:induction false} StrippedBalanced(kept: seq<ChatMessage>)
    requires Balanced(kept)
    ensures Balanced(Stripped(kept))
    ensures forall id :: ResultCount(Stripped(kept), id) == ResultCount(kept, id)
  {
    var i := LastCalling(kept);
    if i >= 0 {
      var out := Stripped(kept);
      var calls := StripCalls(kept[i].toolCalls, kept);
      forall id ensures ResultCount(out, id) == ResultCount(kept, id) {
        CountsAfterUpdate(kept, i, calls, id);
      }
      forall n, id | 0 <= n <= |out| ensures Open(out[..n], id) >= 0 {
        assert Open(kept[..n], id) >= 0;
        if n <= i {
          assert out[..n] == kept[..n];
        } else {
          assert out[..n] == kept[..n][i := kept[i].(toolCalls := calls)];
          CountsAfterUpdate(kept[..n], i, calls, id);
          StripCount(kept[i].toolCalls, kept, id);
          OpenFallsAfterLastCall(kept, n, id);
        }
      }
    }
  }

  /** Whatever the repair returns, in every prefix of the history each result follows its call. */
  lemma RepairBalanced(msgs: seq<ChatMessage>)
    ensures Balanced(Repair(msgs).1)
    ensures !Repair(msgs).0 ==> Repair(msgs).1 == msgs
  {
    ForwardBalanced(msgs);
    StrippedBalanced(Forward(msgs));
  }

  /** What is left open once the repair is done. */
  lemma OpenAfterRepair(msgs: seq<ChatMessage>, id: string)
    ensures var kept := Forward(msgs);
            var i := LastCalling(kept);
            Open(Repair(msgs).1, id)
            == Open(kept, id)
               - if i >= 0 && Open(kept, id) > 0 && IdCount(kept[i].toolCalls, id) > 0 then 1 else 0
  {
    var kept := Forward(msgs);
    var i := LastCalling(kept);
    if i >= 0 {
      CountsAfterUpdate(kept, i, StripCalls(kept[i].toolCalls, kept), id);
      StripCount(kept[i].toolCalls, kept, id);
    }
  }

  /**
   * The repair is there so that no call stays without a result. It gets there exactly when each ID the
   * forward pass leaves open is open once and is called by the last assistant message that calls tools.
   */
  lemma EveryCallAnsweredIff(msgs: seq<ChatMessage>)
    ensures var kept := Forward(msgs);
            var i := LastCalling(kept);
            (forall id :: Open(Repair(msgs).1, id) == 0)
            <==> (forall id | Open(kept, id) > 0 ::
                    Open(kept, id) == 1 && i >= 0 && IdCount(kept[i].toolCalls, id) > 0)
  {
    var kept, out := Forward(msgs), Repair(msgs).1;
    forall id ensures Open(kept, id) >= 0 {
      ForwardOpen(msgs, id);
    }
    forall id
      ensures var i := LastCalling(kept);
              Open(out, id) == Open(kept, id)
                               - if i >= 0 && Open(kept, id) > 0 && IdCount(kept[i].toolCalls, id) > 0 then 1 else 0
    {
      OpenAfterRepair(msgs, id);
    }
  }

  function Calling(id: string): ChatMessage {
    ChatMessage("assistant", "", [ToolCall(id, "function", "scan", None)], "", "", "", false)
  }

  function Answering(id: string): ChatMessage {
    ChatMessage("tool", "", [], id, "", "", false)
  }

  lemma Roles(id: string)
    ensures IsAssistant(Calling(id)) && !IsTool(Calling(id)) && IsTool(Answering(id)) && !IsAssistant(Answering(id))
    ensures forall x :: IdCount(Calling(id).toolCalls, x) == if x == id != "" then 1 else 0
  {
    assert LowerAscii("assistant") == "assistant" && LowerAscii("tool") == "tool";
    assert Calling(id).toolCalls[..0] == [];
  }

  /** Open calls after one more message. */
  lemma Extend(msgs: seq<ChatMessage>, m: ChatMessage)
    ensures forall id ::
              CallCount(msgs + [m], id) == CallCount(msgs, id) + if IsAssistant(m) then IdCount(m.toolCalls, id) else 0
    ensures forall id ::
              ResultCount(msgs + [m], id) == ResultCount(msgs, id) + if IsTool(m) && m.toolCallID == id then 1 else 0
    ensures Forward(msgs) == msgs && (!IsTool(m) || (m.toolCallID != "" && Open(msgs, m.toolCallID) > 0))
            ==> Forward(msgs + [m]) == msgs + [m]
  {
    assert (msgs + [m])[..|msgs|] == msgs;
  }

  /** An unanswered call `a` of an earlier assistant message survives the repair, which reports nothing. */
  lemma EarlierCallStaysOpen(a: string, b: string)
    requires a != "" && b != "" && a != b
    ensures var msgs := [] + [Calling(a)] + [Calling(b)] + [Answering(b)];
            Repair(msgs) == (false, msgs) && Open(msgs, a) == 1
  {
    var msgs := [] + [Calling(a)] + [Calling(b)] + [Answering(b)];
    Roles(a);
    Roles(b);
    Extend([], Calling(a));
    Extend([] + [Calling(a)], Calling(b));
    Extend([] + [Calling(a)] + [Calling(b)], Answering(b));
    assert LastCalling(msgs) == 1;
    assert Calling(b).toolCalls[..0] == [];
    assert StripCalls(Calling(b).toolCalls, msgs) == Calling(b).toolCalls;
  }

  /** With distinct call IDs the last calling assistant keeps only blank-ID or answered calls. */
  lemma LastAssistantAnswered(msgs: seq<ChatMessage>, k: nat)
    requires forall id :: CallCount(msgs, id) <= 1
    requires LastCalling(Forward(msgs)) >= 0
    requires k < |Repair(msgs).1[LastCalling(Forward(msgs))].toolCalls|
    ensures var tc := Repair(msgs).1[LastCalling(Forward(msgs))].toolCalls[k];
            tc.id == "" || (Open(Repair(msgs).1, tc.id) == 0 && ResultCount(Repair(msgs).1, tc.id) == 1)
  {
    var kept, out := Forward(msgs), Repair(msgs).1;
    var i := LastCalling(kept);
    var id := out[i].toolCalls[k].id;
    if id != "" {
      ForwardOpen(msgs, id);
      IdOccurs(out[i].toolCalls, k);
      CountsAfterUpdate(kept, i, out[i].toolCalls, id);
      StripCount(kept[i].toolCalls, kept, id);
      AssistantCalls(out, i, id);
      assert CallCount(kept, id) <= 1;
    }
  }

  lemma {:induction false} IdOccurs(calls: seq<ToolCall>, k: nat)
    requires k < |calls| && calls[k].id != ""
    ensures IdCount(calls, calls[k].id) > 0
  {
    if k < |calls| - 1 {
      IdOccurs(calls[..|calls| - 1], k);
    }
  }

  lemma {:induction false} AssistantCalls(msgs: seq<ChatMessage>, i: nat, id: string)
    requires i < |msgs| && IsAssistant(msgs[i])
    ensures CallCount(msgs, id) >= IdCount(msgs[i].toolCalls, id)
  {
    if i < |msgs| - 1 {
      AssistantCalls(msgs[..|msgs| - 1], i, id);
    }
  }

  /** Everything but tool results and calls: what the repair may not touch. */
  function Rest(msgs: seq<ChatMessage>): seq<ChatMessage> {
    if msgs == [] then []
    else
      var m := msgs[|msgs| - 1];
      Rest(msgs[..|msgs| - 1]) + if IsTool(m) then [] else if IsAssistant(m) then [m.(toolCalls := [])] else [m]
  }

  lemma {:induction false} RestOfForward(msgs: seq<ChatMessage>)
    ensures Rest(Forward(msgs)) == Rest(msgs)
  {
    if msgs != [] {
      RestOfForward(msgs[..|msgs| - 1]);
      var kept, m := Forward(msgs[..|msgs| - 1]), msgs[|msgs| - 1];
      assert (kept + [m])[..|kept|] == kept;
    }
  }

  lemma {:induction false} RestAfterUpdate(msgs: seq<ChatMessage>, i: nat, calls: seq<ToolCall>)
    requires i < |msgs| && IsAssistant(msgs[i])
    ensures Rest(msgs[i := msgs[i].(toolCalls := calls)]) == Rest(msgs)
  {
    var n := |msgs| - 1;
    var changed := msgs[i := msgs[i].(toolCalls := calls)];
    if i < n {
      assert changed[..n] == msgs[..n][i := msgs[i].(toolCalls := calls)];
      RestAfterUpdate(msgs[..n], i, calls);
    } else {
      assert changed[..n] == msgs[..n];
    }
  }

  /** The repair changes neither the order nor the text of any other message. */
  lemma RepairKeepsRest(msgs: seq<ChatMessage>)
    ensures Rest(Repair(msgs).1) == Rest(msgs)
  {
    RestOfForward(msgs);
    var kept := Forward(msgs);
    var i := LastCalling(kept);
    if i >= 0 {
      RestAfterUpdate(kept, i, StripCalls(kept[i].toolCalls, kept));
    }
  }

  /** Tool results plus calls. */
  function Load(msgs: seq<ChatMessage>): nat {
    if msgs == [] then 0
    else
      var m := msgs[|msgs| - 1];
      Load(msgs[..|msgs| - 1]) + |m.toolCalls| + if IsTool(m) then 1 else 0
  }

  lemma {:induction false} LoadOfForward(msgs: seq<ChatMessage>)
    ensures Load(Forward(msgs)) <= Load(msgs)
    ensures Forward(msgs) != msgs ==> Load(Forward(msgs)) < Load(msgs)
  {
    if msgs != [] {
      LoadOfForward(msgs[..|msgs| - 1]);
      var kept, m := Forward(msgs[..|msgs| - 1]), msgs[|msgs| - 1];
      assert (kept + [m])[..|kept|] == kept;
    }
  }

  lemma {:induction false} LoadAfterUpdate(msgs: seq<ChatMessage>, i: nat, calls: seq<ToolCall>)
    requires i < |msgs|
    ensures Load(msgs[i := msgs[i].(toolCalls := calls)]) == Load(msgs) - |msgs[i].toolCalls| + |calls|
  {
    var n := |msgs| - 1;
    var changed := msgs[i := msgs[i].(toolCalls := calls)];
    if i < n {
      assert changed[..n] == msgs[..n][i := msgs[i].(toolCalls := calls)];
      LoadAfterUpdate(msgs[..n], i, calls);
    } else {
      assert changed[..n] == msgs[..n];
    }
  }

  /** A repair that reports a change leaves strictly fewer results and calls. */
  lemma RepairDecreases(msgs: seq<ChatMessage>)
    requires Repair(msgs).0
    ensures Load(Repair(msgs).1) < Load(msgs)
  {
    LoadOfForward(msgs);
    var kept := Forward(msgs);
    var i := LastCalling(kept);
    if i >= 0 {
      LoadAfterUpdate(kept, i, StripCalls(kept[i].toolCalls, kept));
    }
  }

  /** A list without calls of open IDs loses nothing, and any other list something. */
  lemma {:induction false} StripNothingIff(calls: seq<ToolCall>, msgs: seq<ChatMessage>)
    ensures StripCalls(calls, msgs) == calls <==> forall id | Open(msgs, id) > 0 :: IdCount(calls, id) == 0
  {
    if calls != [] {
      var rest, tc := calls[..|calls| - 1], calls[|calls| - 1];
      StripNothingIff(rest, msgs);
      assert calls == rest + [tc];
      if tc.id != "" {
        assert IdCount(calls, tc.id) > 0;
      }
    }
  }

  lemma {:induction false} BalancedIsKept(msgs: seq<ChatMessage>)
    requires Balanced(msgs)
    ensures Forward(msgs) == msgs
  {
    if msgs != [] {
      var rest, m := msgs[..|msgs| - 1], msgs[|msgs| - 1];
      assert msgs == rest + [m];
      BalancedPrefix(rest, m);
      BalancedIsKept(rest);
      BalancedOpen(msgs, m.toolCallID);
      NoBlankCall(msgs);
    }
  }

  /** Stripping takes every call: each has an open ID of its own. */
  predicate AllGo(calls: seq<ToolCall>, kept: seq<ChatMessage>) {
    forall k | 0 <= k < |calls| :: calls[k].id != "" && Open(kept, calls[k].id) > 0 && IdCount(calls, calls[k].id) == 1
  }

  lemma {:induction false} AllGoIff(calls: seq<ToolCall>, kept: seq<ChatMessage>)
    ensures StripCalls(calls, kept) == [] <==> AllGo(calls, kept)
  {
    if calls != [] {
      var n := |calls| - 1;
      var rest, last := calls[..n], calls[n];
      AllGoIff(rest, kept);
      AllGoStep(rest, last, kept);
      assert calls == rest + [last];
    }
  }

  lemma AllGoStep(rest: seq<ToolCall>, last: ToolCall, kept: seq<ChatMessage>)
    ensures AllGo(rest + [last], kept)
            <==> AllGo(rest, kept) && last.id != "" && Open(kept, last.id) > 0 && IdCount(rest, last.id) == 0
  {
    hide Open, IdCount;
    var calls, n := rest + [last], |rest|;
    if last.id != "" {
      OneMoreCall(rest, last, last.id);
    }
    assert forall k | 0 <= k < n :: calls[k] == rest[k];
    forall k | 0 <= k < n && rest[k].id != ""
      ensures IdCount(rest, rest[k].id) > 0
      ensures IdCount(calls, rest[k].id) == IdCount(rest, rest[k].id) + if last.id == rest[k].id then 1 else 0
    {
      IdOccurs(rest, k);
      OneMoreCall(rest, last, rest[k].id);
    }
    assert calls[n] == last;
  }

  lemma OneMoreCall(rest: seq<ToolCall>, last: ToolCall, id: string)
    requires id != ""
    ensures IdCount(rest + [last], id) == IdCount(rest, id) + if last.id == id then 1 else 0
  {
    assert (rest + [last])[..|rest|] == rest;
  }

  /** The assistant message that a second repair would strip, in what the forward pass of the first one keeps. */
  function ReachedNext(kept: seq<ChatMessage>): (j: int)
    ensures -1 <= j < |kept|
  {
    var i := LastCalling(kept);
    if i >= 0 && AllGo(kept[i].toolCalls, kept) then LastCalling(kept[..i]) else i
  }

  /** An ID that is still open and called there once the first repair has taken its call of the ID. */
  predicate LeftForSecond(kept: seq<ChatMessage>, id: string) {
    var i, j := LastCalling(kept), ReachedNext(kept);
    && j >= 0
    && Open(kept, id) > (if IdCount(kept[i].toolCalls, id) > 0 then 1 else 0)
    && IdCount(kept[j].toolCalls, id) > (if j == i then 1 else 0)
  }

  lemma {:induction false} LastCallingIs(msgs: seq<ChatMessage>, i: int)
    requires -1 <= i < |msgs| && (i >= 0 ==> IsAssistant(msgs[i]) && msgs[i].toolCalls != [])
    requires forall j | i < j < |msgs| :: !(IsAssistant(msgs[j]) && msgs[j].toolCalls != [])
    ensures LastCalling(msgs) == i
  {
  }

  /** Once the last calling message is stripped, the next one is the one before it if nothing is left of its calls. */
  lemma ReachedAfter(kept: seq<ChatMessage>)
    ensures LastCalling(Stripped(kept)) == ReachedNext(kept)
  {
    var i := LastCalling(kept);
    if i >= 0 {
      AllGoIff(kept[i].toolCalls, kept);
      hide StripCalls, AllGo, IsAssistant;
      LastCallingIs(Stripped(kept), ReachedNext(kept));
    }
  }

  /** A repaired history is not changed again exactly if the message reached next has no call of an open ID. */
  lemma SecondIdleIff(msgs: seq<ChatMessage>)
    ensures var once := Repair(msgs).1;
            var i := LastCalling(once);
            !Repair(once).0 <==> (i >= 0 ==> forall id | Open(once, id) > 0 :: IdCount(once[i].toolCalls, id) == 0)
  {
    var once := Repair(msgs).1;
    RepairBalanced(msgs);
    BalancedIsKept(once);
    var i := LastCalling(once);
    if i >= 0 {
      StripNothingIff(once[i].toolCalls, once);
      var calls := StripCalls(once[i].toolCalls, once);
      assert once[i := once[i].(toolCalls := calls)][i].toolCalls == calls;
    }
  }

  /**
   * One repair is enough exactly if no ID is left for a second one: open more often than the first repair takes it, and
   * called more often than that by the assistant message that is reached next.
   */
  lemma OneRepairIsEnoughIff(msgs: seq<ChatMessage>)
    ensures !Repair(Repair(msgs).1).0 <==> forall id :: !LeftForSecond(Forward(msgs), id)
  {
    var kept, once := Forward(msgs), Repair(msgs).1;
    var i, j := LastCalling(kept), ReachedNext(kept);
    SecondIdleIff(msgs);
    ReachedAfter(kept);
    if j >= 0 {
      forall id ensures LeftForSecond(kept, id) <==> Open(once, id) > 0 && IdCount(once[j].toolCalls, id) > 0 {
        OpenAfterRepair(msgs, id);
        StripCount(kept[i].toolCalls, kept, id);
      }
    }
  }


  function CallingTwice(id: string): ChatMessage {
    Calling(id).(toolCalls := Calling(id).toolCalls + Calling(id).toolCalls)
  }

  /** The same unanswered ID twice in the last calling message: the second repair takes the second call. */
  lemma TwiceNeedsTwo(id: string)
    requires id != ""
    ensures Repair([CallingTwice(id)]) == (true, [Calling(id)])
    ensures Repair([Calling(id)]).0
  {
    Roles(id);
    var call := Calling(id).toolCalls[0];
    assert Calling(id).toolCalls == [call] && [call][..0] == [];
    assert [call, call][..1] == [call] && CallingTwice(id).toolCalls == [call, call];
    Extend([], CallingTwice(id));
    Extend([], Calling(id));
    assert [] + [CallingTwice(id)] == [CallingTwice(id)] && [] + [Calling(id)] == [Calling(id)];
    assert IdCount([call], id) == 1 && IdCount([call, call], id) == 2;
    assert StripCalls([call], [CallingTwice(id)]) == [] && StripCalls([call], [Calling(id)]) == [];
    assert StripCalls([call, call], [CallingTwice(id)]) == [call];
    assert [CallingTwice(id)][0 := Calling(id)] == [Calling(id)];
  }

  /** With two calling messages that nobody answers, the second repair reaches the earlier one. */
  lemma SecondReachesEarlier(a: string, b: string)
    requires a != "" && b != "" && a != b
    ensures Repair(Repair([] + [Calling(a)] + [Calling(b)]).1).0
  {
    var kept := [] + [Calling(a)] + [Calling(b)];
    Roles(a);
    Roles(b);
    Extend([], Calling(a));
    Extend([] + [Calling(a)], Calling(b));
    OneRepairIsEnoughIff(kept);
    assert Open(kept, a) == 1 && Open(kept, b) == 1;
    hide IdCount, Open, IsAssistant, IsTool;
    assert kept[..1] == [] + [Calling(a)];
    LastCallingIs(kept, 1);
    LastCallingIs(kept[..1], 0);
    assert LeftForSecond(kept, a);
  }

  /** Repairing until nothing is reported ends, in a balanced history with the same other messages. */
  ghost function RepairUntilStable(msgs: seq<ChatMessage>): (r: seq<ChatMessage>)
    ensures !Repair(r).0 && Balanced(r) && Rest(r) == Rest(msgs)
    decreases Load(msgs)
  {
    RepairBalanced(msgs);
    RepairKeepsRest(msgs);
    if Repair(msgs).0 then
      RepairDecreases(msgs);
      RepairUntilStable(Repair(msgs).1)
    else msgs
  }
}
