/** Traces told by the roles and fields of their messages. */
module TraceShape {
  import opened Base
  import opened Chat
  import opened Text
  import opened Trace

  /** The role up to case. */
  predicate HasRole(role: string, name: string) {
    LowerAscii(role) == name
  }

  /** The messages but for those of the system. */
  function Spoken(msgs: seq<ChatMessage>): seq<ChatMessage> {
    if msgs == [] then []
    else if HasRole(msgs[0].role, "system") then Spoken(msgs[1..])
    else [msgs[0]] + Spoken(msgs[1..])
  }

  lemma RoleNames()
    ensures LowerAscii("user") == "user" && LowerAscii("system") == "system" && LowerAscii("tool") == "tool"
  {
  }

  lemma RolesTold(role: string)
    ensures IsUser(role) <==> HasRole(role, "user")
    ensures IsSystem(role) <==> HasRole(role, "system")
  {
    RoleNames();
    hide LowerAscii;
  }

  lemma {:induction false} SpokenAppend(msgs: seq<ChatMessage>, m: ChatMessage)
    ensures Spoken(msgs + [m]) == Spoken(msgs) + if HasRole(m.role, "system") then [] else [m]
  {
    hide HasRole;
    if msgs == [] {
      assert [] + [m] == [m] && [m][1..] == [];
    } else {
      SpokenAppend(msgs[1..], m);
      assert (msgs + [m])[1..] == msgs[1..] + [m];
    }
  }

  lemma {:induction false} SpokenTold(msgs: seq<ChatMessage>)
    ensures DropSystem(msgs) == Spoken(msgs)
  {
    hide HasRole, IsSystem;
    if msgs != [] {
      var n := |msgs| - 1;
      SpokenTold(msgs[..n]);
      RolesTold(msgs[n].role);
      SpokenAppend(msgs[..n], msgs[n]);
      assert msgs[..n] + [msgs[n]] == msgs;
    }
  }

  // ---------------------------------------------------------------- printing

  /** A text field that is left out if it is empty. */
  predicate TextField(o: Object, field: Field, text: string) {
    (field in o <==> text != "") && (field in o ==> o[field] == JString(text))
  }

  /** A tool call as it is printed: the arguments become a string of JSON. */
  predicate CallTold(c: Codec, call: ToolCall, j: Json) {
    && j.JObject? && j.fields.Keys == {CallID, Type, Function}
    && j.fields[CallID] == JString(call.id) && j.fields[Type] == JString(call.kind)
    && j.fields[Function].JObject?
    && var f := j.fields[Function].fields;
       && f.Keys == {Name, ArgumentsText} && f[Name] == JString(call.name)
       && (call.arguments.Some? ==> f[ArgumentsText] == JString(c.encode(JObject(call.arguments.value))))
       && (call.arguments.None? ==> f[ArgumentsText] == JString(""))
  }

  predicate MessageTold(c: Codec, m: ChatMessage, o: Object) {
    && Role in o && o[Role] == JString(m.role)
    && TextField(o, Content, m.content) && TextField(o, ReasoningContent, m.reasoningContent)
    && TextField(o, ToolCallID, m.toolCallID) && TextField(o, ToolName, m.toolName)
    && o.Keys <= {Role, Content, ReasoningContent, ToolCallID, ToolName, ToolCalls}
    && (ToolCalls in o <==> m.toolCalls != [])
    && (ToolCalls in o ==>
          && o[ToolCalls].JArray? && |o[ToolCalls].items| == |m.toolCalls|
          && forall i | 0 <= i < |m.toolCalls| :: CallTold(c, m.toolCalls[i], o[ToolCalls].items[i]))
  }

  lemma PrintedCall(c: Codec, call: ToolCall)
    ensures CallTold(c, call, PrintCall(c, call))
  {
  }

  lemma PrintedMessage(c: Codec, m: ChatMessage)
    ensures MessageTold(c, m, PrintMessage(c, m))
  {
    hide PrintCall, CallTold;
    forall i | 0 <= i < |m.toolCalls| ensures CallTold(c, m.toolCalls[i], PrintCalls(c, m.toolCalls)[i]) {
      PrintedCall(c, m.toolCalls[i]);
    }
  }

  /** What is printed of a history: one object for each message that is not the system's, field by field. */
  lemma PrintedTold(c: Codec, msgs: seq<ChatMessage>)
    ensures var items, spoken := PrintAll(c, DropSystem(msgs)), Spoken(msgs);
            && |items| == |spoken|
            && forall i | 0 <= i < |spoken| :: items[i].JObject? && MessageTold(c, spoken[i], items[i].fields)
  {
    SpokenTold(msgs);
    forall m: ChatMessage ensures MessageTold(c, m, PrintMessage(c, m)) {
      PrintedMessage(c, m);
    }
    hide PrintMessage, MessageTold;
  }

  // ---------------------------------------------------------------- the last turn

  /** The last user message and what follows it, but for the system; the whole list if there is no user message. */
  lemma LastTurnTold(msgs: seq<ChatMessage>, last: int)
    requires -1 <= last < |msgs| && (last >= 0 ==> HasRole(msgs[last].role, "user"))
    requires forall j | last < j < |msgs| :: !HasRole(msgs[j].role, "user")
    ensures LastTurn(msgs) == if last < 0 then msgs else Spoken(msgs[last..])
  {
    forall j | 0 <= j < |msgs| ensures IsUser(Roles(msgs)[j]) <==> HasRole(msgs[j].role, "user") {
      RolesTold(msgs[j].role);
    }
    hide IsUser, HasRole;
    LastUserIs(Roles(msgs), last);
    if last >= 0 {
      SpokenTold(msgs[last..]);
    }
  }

  // ---------------------------------------------------------------- parsing

  /** The object says which version of model-facing traces it is of. */
  predicate SaysVersion(o: Object) {
    && Extra in o && o[Extra].JObject? && TraceVersion in o[Extra].fields && o[Extra].fields[TraceVersion].JNumber?
  }

  /** Object `i` is the first that says a version, and that is at least 1. */
  ghost predicate Decides(raw: seq<Object>, i: nat) {
    && i < |raw| && SaysVersion(raw[i]) && raw[i][Extra].fields[TraceVersion].n >= 1
    && forall j | 0 <= j < i :: !SaysVersion(raw[j])
  }

  lemma {:induction false} ModelFacingTold(raw: seq<Object>)
    ensures ModelFacing(raw) <==> exists i: nat :: Decides(raw, i)
  {
    if raw != [] {
      ModelFacingTold(raw[1..]);
      if SaysVersion(raw[0]) {
        if raw[0][Extra].fields[TraceVersion].n >= 1 {
          assert Decides(raw, 0);
        }
      } else {
        if i: nat :| Decides(raw[1..], i) {
          assert forall j | 0 < j < i + 1 :: raw[j] == raw[1..][j - 1];
          assert Decides(raw, i + 1);
        }
        if i: nat :| Decides(raw, i) {
          assert forall j | 0 <= j < i - 1 :: raw[1..][j] == raw[j + 1];
          assert Decides(raw[1..], i - 1);
        }
      }
    }
  }

  /** The text of a field, empty if the field is missing or no text. */
  predicate Reads(o: Object, field: Field, text: string) {
    if field in o && o[field].JString? then o[field].s == text else text == ""
  }

  /** A tool's name is in its own field; for a message of role tool the field `name` stands in for it. */
  ghost predicate ToolNameTold(o: Object, role: string, toolName: string) {
    exists own, other ::
      && Reads(o, ToolName, own) && Reads(o, Name, other)
      && toolName == if TrimSpace(own) != "" then TrimSpace(own)
                     else if HasRole(role, "tool") then TrimSpace(other) else ""
  }

  /** A message is parsed if it has a role, field by field; blank reasoning is left out. */
  lemma ParsedTold(c: Codec, o: Object, modelFacing: bool)
    ensures var r := ParseMessage(c, o, modelFacing);
            if Role !in o || !o[Role].JString? || o[Role].s == "" then r == []
            else
              && |r| == 1 && Reads(o, Role, r[0].role) && Reads(o, Content, r[0].content)
              && Reads(o, ToolCallID, r[0].toolCallID) && ToolNameTold(o, r[0].role, r[0].toolName)
              && r[0].modelFacingTrace == modelFacing
              && exists reasoning :: Reads(o, ReasoningContent, reasoning)
                   && r[0].reasoningContent == if TrimSpace(reasoning) == "" then "" else reasoning
  {
    RoleNames();
    hide TrimSpace, LowerAscii, ParseCalls;
    assert Reads(o, ToolName, StringOr(o, ToolName)) && Reads(o, Name, StringOr(o, Name));
    assert Reads(o, ReasoningContent, StringOr(o, ReasoningContent));
  }
}
