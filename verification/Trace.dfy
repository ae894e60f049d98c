/**
 * Persisted traces: chat messages printed as a JSON array and parsed back, and the last user turn cut out of either
 * form.
 */
module Trace {
  import opened Base
  import opened Chat
  import opened Text

  /** The JSON library: `decode` is None for text that is not JSON. */
  datatype Codec = Codec(encode: Json -> string, decode: string -> Option<Json>)

  /** Encoded values decode to themselves and have no white space around them; the empty text is not JSON. */
  ghost predicate Faithful(c: Codec) {
    && c.decode("") == None
    && forall v :: c.decode(c.encode(v)) == Some(v) && TrimSpace(c.encode(v)) == c.encode(v) && c.encode(v) != ""
  }

  predicate IsUser(role: string) {
    EqualFold(role, "user")
  }

  predicate IsSystem(role: string) {
    EqualFold(role, "system")
  }

  // ---------------------------------------------------------------- printing

  function PrintCall(c: Codec, call: ToolCall): Json {
    JObject(map[
      CallID := JString(call.id),
      Type := JString(call.kind),
      Function := JObject(map[
        Name := JString(call.name),
        ArgumentsText := JString(if call.arguments.Some? then c.encode(JObject(call.arguments.value)) else "")])])
  }

  function PrintCalls(c: Codec, calls: seq<ToolCall>): seq<Json> {
    seq(|calls|, i requires 0 <= i < |calls| => PrintCall(c, calls[i]))
  }

  function Put(o: Object, field: Field, text: string): Object {
    if text == "" then o else o[field := JString(text)]
  }

  function PrintMessage(c: Codec, m: ChatMessage): Object {
    var o := map[Role := JString(m.role)];
    var o := Put(o, Content, m.content);
    var o := Put(o, ReasoningContent, m.reasoningContent);
    var o := Put(o, ToolCallID, m.toolCallID);
    var o := Put(o, ToolName, m.toolName);
    if m.toolCalls == [] then o else o[ToolCalls := JArray(PrintCalls(c, m.toolCalls))]
  }

  function DropSystem(msgs: seq<ChatMessage>): seq<ChatMessage> {
    if msgs == [] then []
    else
      var n := |msgs| - 1;
      DropSystem(msgs[..n]) + if IsSystem(msgs[n].role) then [] else [msgs[n]]
  }

  function PrintAll(c: Codec, msgs: seq<ChatMessage>): seq<Json> {
    seq(|msgs|, i requires 0 <= i < |msgs| => JObject(PrintMessage(c, msgs[i])))
  }

  method MessagesToTraceJSON(c: Codec, msgs: seq<ChatMessage>) returns (text: string)
    ensures text == c.encode(JArray(PrintAll(c, DropSystem(msgs))))
  {
    var filtered: seq<ChatMessage> := [];
    for n := 0 to |msgs|
      invariant filtered == DropSystem(msgs[..n])
    {
      assert msgs[..n + 1][..n] == msgs[..n];
      if IsSystem(msgs[n].role) {
        continue;
      }
      filtered := filtered + [msgs[n]];
    }
    assert msgs[..|msgs|] == msgs;
    text := c.encode(JArray(PrintAll(c, filtered)));
  }

  // ---------------------------------------------------------------- parsing

  function StringField(o: Object, field: Field): Option<string> {
    if field in o && o[field].JString? then Some(o[field].s) else None
  }

  function StringOr(o: Object, field: Field): string {
    var s := StringField(o, field);
    if s.Some? then s.value else ""
  }

  function ParseArguments(c: Codec, j: Json): Option<Object> {
    match j
    case JString(s) =>
      var decoded := c.decode(s);
      if decoded.Some? && decoded.value.JObject? then Some(decoded.value.fields) else None
    case JObject(fields) => Some(fields)
    case _ => None
  }

  /** A call without an ID is dropped. */
  function ParseCall(c: Codec, j: Json): seq<ToolCall> {
    if !j.JObject? then []
    else
      var o := j.fields;
      var f := if Function in o && o[Function].JObject? then o[Function].fields else map[];
      var call := ToolCall(StringOr(o, CallID), StringOr(o, Type), StringOr(f, Name),
                           if ArgumentsText in f then ParseArguments(c, f[ArgumentsText]) else None);
      if call.id == "" then [] else [call]
  }

  /** A loop that appends what each element contributes. */
  function FlatMap<A, B>(f: A -> seq<B>, xs: seq<A>): seq<B> {
    if xs == [] then [] else FlatMap(f, xs[..|xs| - 1]) + f(xs[|xs| - 1])
  }

  lemma FlatMapAppend<A, B>(f: A -> seq<B>, xs: seq<A>, x: A)
    ensures FlatMap(f, xs + [x]) == FlatMap(f, xs) + f(x)
    ensures FlatMap(f, [x]) == f(x)
  {
    assert (xs + [x])[..|xs|] == xs && [x][..0] == [];
  }

  lemma FlatMapNone<A, B>(f: A -> seq<B>)
    ensures FlatMap(f, []) == []
  {
  }

  lemma {:induction false} FlatMapConcat<A, B>(f: A -> seq<B>, a: seq<A>, b: seq<A>)
    ensures FlatMap(f, a + b) == FlatMap(f, a) + FlatMap(f, b)
  {
    FlatMapNone(f);
    hide FlatMap;
    if b == [] {
      assert a + b == a;
    } else {
      var n := |b| - 1;
      FlatMapConcat(f, a, b[..n]);
      FlatMapAppend(f, a + b[..n], b[n]);
      FlatMapAppend(f, b[..n], b[n]);
      assert b == b[..n] + [b[n]] && a + b == a + b[..n] + [b[n]];
    }
  }

  lemma {:induction false} FlatMapMember<A, B>(f: A -> seq<B>, xs: seq<A>, y: B) returns (x: A)
    requires y in FlatMap(f, xs)
    ensures x in xs && y in f(x)
  {
    var n := |xs| - 1;
    if y in f(xs[n]) {
      x := xs[n];
    } else {
      x := FlatMapMember(f, xs[..n], y);
    }
  }

  function CallParser(c: Codec): Json -> seq<ToolCall> {
    j => ParseCall(c, j)
  }

  function ParseCalls(c: Codec, items: seq<Json>): seq<ToolCall> {
    FlatMap(CallParser(c), items)
  }

  function ParseToolName(o: Object, role: string): string {
    if TrimSpace(StringOr(o, ToolName)) != "" then TrimSpace(StringOr(o, ToolName))
    else if EqualFold(role, "tool") then TrimSpace(StringOr(o, Name))
    else ""
  }

  /** A message without a role is dropped. */
  function ParseMessage(c: Codec, o: Object, modelFacing: bool): seq<ChatMessage> {
    var role := StringOr(o, Role);
    if role == "" then []
    else
      var reasoning := StringOr(o, ReasoningContent);
      [ChatMessage(
         role,
         StringOr(o, Content),
         if ToolCalls in o && o[ToolCalls].JArray? then ParseCalls(c, o[ToolCalls].items) else [],
         StringOr(o, ToolCallID),
         ParseToolName(o, role),
         if TrimSpace(reasoning) == "" then "" else reasoning,
         modelFacing)]
  }

  /** An array of objects; a null stands for an empty object, and a null array for an empty one. */
  function RawMessages(j: Json): Option<seq<Object>> {
    match j
    case JNull => Some([])
    case JArray(items) =>
      if forall i | 0 <= i < |items| :: items[i].JObject? || items[i].JNull? then Some(Objects(items)) else None
    case _ => None
  }

  function Objects(items: seq<Json>): (r: seq<Object>)
    ensures |r| == |items|
  {
    seq(|items|, i requires 0 <= i < |items| => if items[i].JObject? then items[i].fields else map[])
  }

  /** The first numeric version marker decides; it must be at least 1. */
  function ModelFacing(raw: seq<Object>): bool {
    if raw == [] then false
    else
      var o := raw[0];
      if Extra in o && o[Extra].JObject? && TraceVersion in o[Extra].fields && o[Extra].fields[TraceVersion].JNumber?
      then o[Extra].fields[TraceVersion].n >= 1
      else ModelFacing(raw[1..])
  }

  function Parser(c: Codec, modelFacing: bool): Object -> seq<ChatMessage> {
    o => ParseMessage(c, o, modelFacing)
  }

  function ParseAll(c: Codec, raw: seq<Object>, modelFacing: bool): seq<ChatMessage> {
    FlatMap(Parser(c, modelFacing), raw)
  }

  /** The objects of a persisted trace; None for text that is not such an array. */
  function RawTrace(c: Codec, text: string): Option<seq<Object>> {
    var trimmed := TrimSpace(text);
    if trimmed == "" then Some([])
    else
      var decoded := c.decode(trimmed);
      if decoded.None? then None else RawMessages(decoded.value)
  }

  function Parse(c: Codec, text: string): Option<seq<ChatMessage>> {
    var raw := RawTrace(c, text);
    if raw.None? then None else Some(ParseAll(c, raw.value, ModelFacing(raw.value)))
  }

  method ParseTraceMessages(c: Codec, text: string) returns (r: Option<seq<ChatMessage>>)
    ensures r == Parse(c, text)
  {
    var raw := RawTrace(c, text);
    if raw.None? {
      return None;
    }
    var modelFacing := ModelFacing(raw.value);
    var out: seq<ChatMessage> := [];
    for n := 0 to |raw.value|
      invariant out == ParseAll(c, raw.value[..n], modelFacing)
    {
      assert raw.value[..n + 1][..n] == raw.value[..n];
      var role := StringOr(raw.value[n], Role);
      if role == "" {
        continue;
      }
      var msg := ParseOne(c, raw.value[n], role, modelFacing);
      out := out + [msg];
    }
    assert raw.value[..|raw.value|] == raw.value;
    r := Some(out);
  }

  method ParseOne(c: Codec, o: Object, role: string, modelFacing: bool) returns (msg: ChatMessage)
    requires role == StringOr(o, Role) != ""
    ensures [msg] == ParseMessage(c, o, modelFacing)
  {
    var calls: seq<ToolCall> := [];
    if ToolCalls in o && o[ToolCalls].JArray? {
      var items := o[ToolCalls].items;
      for n := 0 to |items|
        invariant calls == ParseCalls(c, items[..n])
      {
        assert items[..n + 1][..n] == items[..n];
        calls := calls + ParseCall(c, items[n]);
      }
      assert items[..|items|] == items;
    }
    var reasoning := StringOr(o, ReasoningContent);
    msg := ChatMessage(role, StringOr(o, Content), calls, StringOr(o, ToolCallID), ParseToolName(o, role),
                       if TrimSpace(reasoning) == "" then "" else reasoning, modelFacing);
  }

  // ---------------------------------------------------------------- printing, then parsing

  /** What printing keeps of a message exactly. */
  predicate Printable(m: ChatMessage) {
    && m.role != ""
    && AllNamed(m.toolCalls)
    && (m.reasoningContent == "" || TrimSpace(m.reasoningContent) != "")
    && TrimSpace(m.toolName) == m.toolName
  }

  lemma CallBack(c: Codec, call: ToolCall)
    requires Faithful(c)
    ensures ParseCall(c, PrintCall(c, call)) == if call.id == "" then [] else [call]
  {
  }

  predicate AllNamed(calls: seq<ToolCall>) {
    forall i | 0 <= i < |calls| :: calls[i].id != ""
  }

  lemma CallsInit(c: Codec, calls: seq<ToolCall>)
    requires calls != []
    ensures var n := |calls| - 1;
            && calls == calls[..n] + [calls[n]]
            && PrintCalls(c, calls) == PrintCalls(c, calls[..n]) + [PrintCall(c, calls[n])]
            && (AllNamed(calls) <==> AllNamed(calls[..n]) && calls[n].id != "")
  {
    assert forall i | 0 <= i < |calls| - 1 :: calls[..|calls| - 1][i] == calls[i];
  }

  lemma {:induction false} CallsBack(c: Codec, calls: seq<ToolCall>)
    requires Faithful(c)
    ensures |ParseCalls(c, PrintCalls(c, calls))| <= |calls|
    ensures ParseCalls(c, PrintCalls(c, calls)) == calls <==> AllNamed(calls)
  {
    if calls != [] {
      var n := |calls| - 1;
      var printed, last := PrintCalls(c, calls[..n]), PrintCall(c, calls[n]);
      CallsBack(c, calls[..n]);
      CallsInit(c, calls);
      FlatMapAppend(CallParser(c), printed, last);
      CallBack(c, calls[n]);
      AppendEqual(ParseCalls(c, printed), CallParser(c)(last), calls[..n], calls[n]);
    }
  }

  lemma FieldsBack(c: Codec, m: ChatMessage)
    ensures var o := PrintMessage(c, m);
            && StringOr(o, Role) == m.role && StringOr(o, Content) == m.content
            && StringOr(o, ReasoningContent) == m.reasoningContent && StringOr(o, ToolCallID) == m.toolCallID
            && StringOr(o, ToolName) == m.toolName && StringOr(o, Name) == "" && Extra !in o
            && (ToolCalls in o <==> m.toolCalls != [])
            && (ToolCalls in o ==> o[ToolCalls] == JArray(PrintCalls(c, m.toolCalls)))
  {
  }

  /** A printed message parses to itself, runtime flag aside, exactly when it is printable. */
  lemma MessageBack(c: Codec, m: ChatMessage, modelFacing: bool)
    requires Faithful(c)
    ensures |ParseMessage(c, PrintMessage(c, m), modelFacing)| <= 1
    ensures ParseMessage(c, PrintMessage(c, m), modelFacing) == [m.(modelFacingTrace := modelFacing)] <==> Printable(m)
  {
    FieldsBack(c, m);
    CallsBack(c, m.toolCalls);
    BlankTrims();
  }

  function WithoutFlag(msgs: seq<ChatMessage>): seq<ChatMessage> {
    seq(|msgs|, i requires 0 <= i < |msgs| => msgs[i].(modelFacingTrace := false))
  }

  predicate AllPrintable(msgs: seq<ChatMessage>) {
    forall i | 0 <= i < |msgs| :: Printable(msgs[i])
  }

  lemma PrintInit(c: Codec, msgs: seq<ChatMessage>)
    requires msgs != []
    ensures var n := |msgs| - 1;
            && Objects(PrintAll(c, msgs)) == Objects(PrintAll(c, msgs[..n])) + [PrintMessage(c, msgs[n])]
            && WithoutFlag(msgs) == WithoutFlag(msgs[..n]) + [msgs[n].(modelFacingTrace := false)]
  {
  }

  lemma PrintableInit(msgs: seq<ChatMessage>)
    requires msgs != []
    ensures AllPrintable(msgs) <==> AllPrintable(msgs[..|msgs| - 1]) && Printable(msgs[|msgs| - 1])
  {
    assert forall i | 0 <= i < |msgs| - 1 :: msgs[..|msgs| - 1][i] == msgs[i];
  }

  lemma ParseAppend(c: Codec, raw: seq<Object>, o: Object, modelFacing: bool)
    ensures ParseAll(c, raw + [o], modelFacing) == ParseAll(c, raw, modelFacing) + ParseMessage(c, o, modelFacing)
    ensures ParseAll(c, [o], modelFacing) == ParseMessage(c, o, modelFacing)
  {
    FlatMapAppend(Parser(c, modelFacing), raw, o);
  }

  lemma {:induction false} MessagesBack(c: Codec, msgs: seq<ChatMessage>)
    requires Faithful(c)
    ensures |ParseAll(c, Objects(PrintAll(c, msgs)), false)| <= |msgs|
    ensures ParseAll(c, Objects(PrintAll(c, msgs)), false) == WithoutFlag(msgs) <==> AllPrintable(msgs)
  {
    if msgs != [] {
      var n := |msgs| - 1;
      MessagesBack(c, msgs[..n]);
      MessageBack(c, msgs[n], false);
      PrintInit(c, msgs);
      PrintableInit(msgs);
      ParseAppend(c, Objects(PrintAll(c, msgs[..n])), PrintMessage(c, msgs[n]), false);
      AppendEqual(ParseAll(c, Objects(PrintAll(c, msgs[..n])), false),
                  ParseMessage(c, PrintMessage(c, msgs[n]), false),
                  WithoutFlag(msgs[..n]), msgs[n].(modelFacingTrace := false));
    }
  }

  /** Two lists that may only be too short are equal piece by piece. */
  lemma AppendEqual<T>(a: seq<T>, b: seq<T>, x: seq<T>, y: T)
    requires |a| <= |x| && |b| <= 1
    ensures a + b == x + [y] <==> a == x && b == [y]
  {
    if a + b == x + [y] {
      assert |a| == |x| && |b| == 1;
      assert a == (a + b)[..|a|] && x == (x + [y])[..|x|];
      assert b[0] == (a + b)[|a|];
    }
  }

  lemma {:induction false} PrintedNotModelFacing(c: Codec, msgs: seq<ChatMessage>)
    ensures !ModelFacing(Objects(PrintAll(c, msgs)))
  {
    if msgs != [] {
      PrintedNotModelFacing(c, msgs[1..]);
      FieldsBack(c, msgs[0]);
      assert Objects(PrintAll(c, msgs))[1..] == Objects(PrintAll(c, msgs[1..]));
    }
  }

  /**
   * Printing a history and parsing the text gives back the history without its system messages and without the
   * runtime flag, exactly when every other message is printable.
   */
  lemma RoundTripIff(c: Codec, msgs: seq<ChatMessage>)
    requires Faithful(c)
    ensures Parse(c, c.encode(JArray(PrintAll(c, DropSystem(msgs))))) == Some(WithoutFlag(DropSystem(msgs)))
            <==> AllPrintable(DropSystem(msgs))
  {
    var kept := DropSystem(msgs);
    MessagesBack(c, kept);
    PrintedNotModelFacing(c, kept);
  }

  // ---------------------------------------------------------------- the last user turn

  /** The last position whose role is the user's, or -1. */
  function LastUser(roles: seq<string>): (i: int)
    ensures -1 <= i < |roles|
  {
    if roles == [] then -1
    else if IsUser(roles[|roles| - 1]) then |roles| - 1
    else LastUser(roles[..|roles| - 1])
  }

  lemma {:induction false} LastUserIs(roles: seq<string>, i: int)
    requires -1 <= i < |roles| && (i >= 0 ==> IsUser(roles[i]))
    requires forall j | i < j < |roles| :: !IsUser(roles[j])
    ensures LastUser(roles) == i
  {
    if roles != [] && i < |roles| - 1 {
      assert !IsUser(roles[|roles| - 1]);
      LastUserIs(roles[..|roles| - 1], i);
    }
  }

  function Roles(msgs: seq<ChatMessage>): (r: seq<string>)
    ensures |r| == |msgs|
  {
    seq(|msgs|, i requires 0 <= i < |msgs| => msgs[i].role)
  }

  function RawRoles(raw: seq<Object>): (r: seq<string>)
    ensures |r| == |raw|
  {
    seq(|raw|, i requires 0 <= i < |raw| => StringOr(raw[i], Role))
  }

  function LastTurn(msgs: seq<ChatMessage>): seq<ChatMessage> {
    var last := LastUser(Roles(msgs));
    if last < 0 then msgs else DropSystem(msgs[last..])
  }

  /** The JSON form is cut only when something comes before the last user message. */
  function LastTurnJSON(c: Codec, text: string): string {
    var trimmed := TrimSpace(text);
    var decoded := if trimmed == "" then None else c.decode(trimmed);
    if decoded.None? || RawMessages(decoded.value).None? then trimmed
    else
      var last := LastUser(RawRoles(RawMessages(decoded.value).value));
      if last <= 0 then trimmed else c.encode(JArray(decoded.value.items[last..]))
  }

  method ExtractLastUserTurnMessages(msgs: seq<ChatMessage>) returns (out: seq<ChatMessage>)
    ensures out == LastTurn(msgs)
  {
    var lastUser := -1;
    for i := 0 to |msgs|
      invariant -1 <= lastUser < i
      invariant lastUser >= 0 ==> IsUser(msgs[lastUser].role)
      invariant forall j | lastUser < j < i :: !IsUser(msgs[j].role)
    {
      if IsUser(msgs[i].role) {
        lastUser := i;
      }
    }
    LastUserIs(Roles(msgs), lastUser);
    if lastUser < 0 {
      return msgs;
    }
    var trimmed := msgs[lastUser..];
    out := [];
    for n := 0 to |trimmed|
      invariant out == DropSystem(trimmed[..n])
    {
      assert trimmed[..n + 1][..n] == trimmed[..n];
      if IsSystem(trimmed[n].role) {
        continue;
      }
      out := out + [trimmed[n]];
    }
    assert trimmed[..|trimmed|] == trimmed;
  }

  method ExtractLastUserTurnTraceJSON(c: Codec, text: string) returns (r: string)
    ensures r == LastTurnJSON(c, text)
  {
    r := TrimSpace(text);
    if r == "" {
      return;
    }
    var decoded := c.decode(r);
    if decoded.None? {
      return;
    }
    var raw := RawMessages(decoded.value);
    if raw.None? {
      return;
    }
    var lastUser := -1;
    for i := 0 to |raw.value|
      invariant -1 <= lastUser < i
      invariant lastUser >= 0 ==> IsUser(StringOr(raw.value[lastUser], Role))
      invariant forall j | lastUser < j < i :: !IsUser(StringOr(raw.value[j], Role))
    {
      if IsUser(StringOr(raw.value[i], Role)) {
        lastUser := i;
      }
    }
    LastUserIs(RawRoles(raw.value), lastUser);
    if lastUser > 0 {
      r := c.encode(JArray(decoded.value.items[lastUser..]));
    }
  }

  lemma {:induction false} LastUserIsLast(roles: seq<string>)
    ensures LastUser(roles) >= 0 ==> IsUser(roles[LastUser(roles)])
    ensures forall j | LastUser(roles) < j < |roles| :: !IsUser(roles[j])
  {
    if roles != [] && !IsUser(roles[|roles| - 1]) {
      LastUserIsLast(roles[..|roles| - 1]);
    }
  }

  lemma {:induction false} DropSystemKeeps(msgs: seq<ChatMessage>, from: nat)
    requires forall j | from <= j < |msgs| :: !IsUser(msgs[j].role)
    ensures forall j | 0 <= j < |DropSystem(msgs)| :: !IsSystem(DropSystem(msgs)[j].role)
    ensures from == 0 ==> forall j | 0 <= j < |DropSystem(msgs)| :: !IsUser(DropSystem(msgs)[j].role)
  {
    if msgs != [] {
      if from == 0 {
        DropSystemKeeps(msgs[..|msgs| - 1], 0);
      } else {
        DropSystemKeeps(msgs[..|msgs| - 1], |msgs| - 1);
      }
    }
  }

  lemma Regroup<T>(a: seq<T>, b: seq<T>, c: seq<T>)
    ensures a + b + c == a + (b + c)
  {
  }

  lemma DropSystemAppend(msgs: seq<ChatMessage>, m: ChatMessage)
    ensures DropSystem(msgs + [m]) == DropSystem(msgs) + if IsSystem(m.role) then [] else [m]
  {
    assert (msgs + [m])[..|msgs|] == msgs;
  }

  lemma {:induction false} DropSystemConcat(a: seq<ChatMessage>, b: seq<ChatMessage>)
    ensures DropSystem(a + b) == DropSystem(a) + DropSystem(b)
  {
    assert DropSystem([]) == [];
    hide DropSystem, IsSystem;
    if b == [] {
      assert a + b == a;
    } else {
      var n := |b| - 1;
      DropSystemConcat(a, b[..n]);
      assert b == b[..n] + [b[n]] && a + b == a + b[..n] + [b[n]];
      DropSystemAppend(a + b[..n], b[n]);
      DropSystemAppend(b[..n], b[n]);
      Regroup(DropSystem(a), DropSystem(b[..n]), if IsSystem(b[n].role) then [] else [b[n]]);
    }
  }

  lemma {:induction false} DropSystemStable(msgs: seq<ChatMessage>)
    requires forall j | 0 <= j < |msgs| :: !IsSystem(msgs[j].role)
    ensures DropSystem(msgs) == msgs
  {
    if msgs != [] {
      DropSystemStable(msgs[..|msgs| - 1]);
    }
  }

  lemma UserIsNotSystem(role: string)
    ensures !(IsUser(role) && IsSystem(role))
  {
    assert LowerAscii("user") != LowerAscii("system") by {
      assert |LowerAscii("user")| == 4 && |LowerAscii("system")| == 6;
    }
  }

  /** The last turn starts with its only user message, holds no system message, and is its own last turn. */
  lemma LastTurnShape(msgs: seq<ChatMessage>)
    requires LastUser(Roles(msgs)) >= 0
    ensures var turn := LastTurn(msgs);
            && turn != [] && IsUser(turn[0].role)
            && (forall j | 0 < j < |turn| :: !IsUser(turn[j].role))
            && (forall j | 0 <= j < |turn| :: !IsSystem(turn[j].role))
            && LastTurn(turn) == turn
  {
    hide LastUser, IsUser, IsSystem;
    var last := LastUser(Roles(msgs));
    var user, rest := msgs[last], msgs[last + 1..];
    LastUserIsLast(Roles(msgs));
    assert Roles(msgs)[last] == user.role;
    forall j | 0 <= j < |rest| ensures !IsUser(rest[j].role) {
      assert Roles(msgs)[last + 1 + j] == rest[j].role;
    }
    UserIsNotSystem(user.role);
    DropSystemConcat([user], rest);
    assert msgs[last..] == [user] + rest;
    assert [user][..0] == [] && DropSystem([user]) == [user];
    DropSystemKeeps(rest, 0);
    var turn := [user] + DropSystem(rest);
    assert LastTurn(msgs) == turn;
    LastUserIs(Roles(turn), 0);
    DropSystemStable(turn);
    assert turn[0..] == turn;
  }

  // ---------------------------------------------------------------- cutting before or after parsing

  lemma ParseConcat(c: Codec, a: seq<Object>, b: seq<Object>, modelFacing: bool)
    ensures ParseAll(c, a + b, modelFacing) == ParseAll(c, a, modelFacing) + ParseAll(c, b, modelFacing)
  {
    FlatMapConcat(Parser(c, modelFacing), a, b);
  }

  lemma ParsedRole(c: Codec, o: Object, modelFacing: bool)
    ensures var r := ParseMessage(c, o, modelFacing);
            if StringOr(o, Role) == "" then r == [] else |r| == 1 && r[0].role == StringOr(o, Role)
  {
  }

  lemma NoUserParsed(c: Codec, raw: seq<Object>, modelFacing: bool)
    requires forall o | o in raw :: !IsUser(StringOr(o, Role))
    ensures forall m | m in ParseAll(c, raw, modelFacing) :: !IsUser(m.role)
  {
    forall m | m in ParseAll(c, raw, modelFacing) ensures !IsUser(m.role) {
      var o := FlatMapMember(Parser(c, modelFacing), raw, m);
      ParsedRole(c, o, modelFacing);
    }
  }

  lemma BlankIsNotUser()
    ensures !IsUser("")
  {
    assert |LowerAscii("")| == 0 && |LowerAscii("user")| == 4;
  }

  /** One user message with messages of others behind it: it is the last one. */
  lemma LastUserAt(front: seq<ChatMessage>, user: ChatMessage, back: seq<ChatMessage>)
    requires IsUser(user.role) && forall m | m in back :: !IsUser(m.role)
    ensures LastUser(Roles(front + ([user] + back))) == |front|
    ensures (front + ([user] + back))[|front|..] == [user] + back
  {
    LastUserIs(Roles(front + ([user] + back)), |front|);
  }

  lemma SplitAtUser(raw: seq<Object>, last: nat)
    requires LastUser(RawRoles(raw)) == last
    ensures raw == raw[..last] + raw[last..] && raw[last..] == [raw[last]] + raw[last + 1..]
    ensures IsUser(StringOr(raw[last], Role))
    ensures forall o | o in raw[last + 1..] :: !IsUser(StringOr(o, Role))
  {
    LastUserIsLast(RawRoles(raw));
    assert RawRoles(raw)[last] == StringOr(raw[last], Role);
    forall o | o in raw[last + 1..] ensures !IsUser(StringOr(o, Role)) {
      var j :| last < j < |raw| && raw[j] == o;
      assert RawRoles(raw)[j] == StringOr(o, Role);
    }
  }

  lemma NoUserAtAll(c: Codec, raw: seq<Object>, modelFacing: bool)
    requires LastUser(RawRoles(raw)) < 0
    ensures LastUser(Roles(ParseAll(c, raw, modelFacing))) == -1
  {
    LastUserIsLast(RawRoles(raw));
    forall o | o in raw ensures !IsUser(StringOr(o, Role)) {
      var j :| 0 <= j < |raw| && raw[j] == o;
      assert RawRoles(raw)[j] == StringOr(o, Role);
    }
    NoUserParsed(c, raw, modelFacing);
    LastUserIs(Roles(ParseAll(c, raw, modelFacing)), -1);
  }

  /** The last user message of the parsed trace is the parsed last user object. */
  lemma LastUserParsed(c: Codec, raw: seq<Object>, last: nat, modelFacing: bool)
    requires LastUser(RawRoles(raw)) == last
    ensures var msgs := ParseAll(c, raw, modelFacing);
            var i := LastUser(Roles(msgs));
            i >= 0 && msgs[i..] == ParseAll(c, raw[last..], modelFacing)
  {
    var user, after := raw[last], raw[last + 1..];
    SplitAtUser(raw, last);
    BlankIsNotUser();
    ParsedRole(c, user, modelFacing);
    var front, back := ParseAll(c, raw[..last], modelFacing), ParseAll(c, after, modelFacing);
    var message := ParseMessage(c, user, modelFacing)[0];
    NoUserParsed(c, after, modelFacing);
    ParseConcat(c, raw[..last], raw[last..], modelFacing);
    ParseConcat(c, [user], after, modelFacing);
    ParseAppend(c, [], user, modelFacing);
    LastUserAt(front, message, back);
  }

  lemma {:induction false} FlagOnly(c: Codec, raw: seq<Object>, a: bool, b: bool)
    ensures WithoutFlag(ParseAll(c, raw, a)) == WithoutFlag(ParseAll(c, raw, b))
  {
    if raw != [] {
      var n := |raw| - 1;
      FlagOnly(c, raw[..n], a, b);
      WithoutFlagConcat(ParseAll(c, raw[..n], a), ParseMessage(c, raw[n], a));
      WithoutFlagConcat(ParseAll(c, raw[..n], b), ParseMessage(c, raw[n], b));
    }
  }

  lemma WithoutFlagConcat(a: seq<ChatMessage>, b: seq<ChatMessage>)
    ensures WithoutFlag(a + b) == WithoutFlag(a) + WithoutFlag(b)
  {
  }

  lemma {:induction false} DropSystemFlag(msgs: seq<ChatMessage>)
    ensures WithoutFlag(DropSystem(msgs)) == DropSystem(WithoutFlag(msgs))
  {
    if msgs != [] {
      var n := |msgs| - 1;
      DropSystemFlag(msgs[..n]);
      assert WithoutFlag(msgs)[..n] == WithoutFlag(msgs[..n]);
      WithoutFlagConcat(DropSystem(msgs[..n]), [msgs[n]]);
    }
  }

  /** What the cut JSON form parses to: the objects from the last user object on. */
  lemma CutTraceParses(c: Codec, text: string)
    requires Faithful(c) && RawTrace(c, text).Some?
    ensures var raw := RawTrace(c, text).value;
            var last := LastUser(RawRoles(raw));
            RawTrace(c, LastTurnJSON(c, text)) == Some(if last <= 0 then raw else raw[last..])
  {
    var trimmed := TrimSpace(text);
    var raw := RawTrace(c, text).value;
    var last := LastUser(RawRoles(raw));
    hide TrimSpace, LastUser, RawRoles;
    if last <= 0 {
      TrimTwice(text);
    } else {
      var items := c.decode(trimmed).value.items;
      assert Objects(items[last..]) == Objects(items)[last..];
    }
  }

  /**
   * Cutting the JSON form to the last user turn and parsing it gives, system messages and the runtime flag aside,
   * the last user turn of the parsed trace - exactly when the trace has a user message or no system message.
   */
  lemma CutCommutesIff(c: Codec, text: string)
    requires Faithful(c) && RawTrace(c, text).Some?
    ensures Parse(c, LastTurnJSON(c, text)).Some? && Parse(c, text).Some?
    ensures var msgs := Parse(c, text).value;
            DropSystem(WithoutFlag(Parse(c, LastTurnJSON(c, text)).value)) == WithoutFlag(LastTurn(msgs))
            <==> LastUser(Roles(msgs)) >= 0 || forall i | 0 <= i < |msgs| :: !IsSystem(msgs[i].role)
  {
    hide RawTrace, LastUser, RawRoles, ModelFacing, ParseAll, DropSystem, IsSystem, LastTurnJSON;
    var raw := RawTrace(c, text).value;
    var last := LastUser(RawRoles(raw));
    var flag := ModelFacing(raw);
    var msgs := ParseAll(c, raw, flag);
    CutTraceParses(c, text);
    if last < 0 {
      NoUserAtAll(c, raw, flag);
      NothingDroppedIff(WithoutFlag(msgs));
      assert forall i | 0 <= i < |msgs| :: WithoutFlag(msgs)[i].role == msgs[i].role;
    } else {
      LastUserParsed(c, raw, last, flag);
      assert last == 0 ==> raw[last..] == raw;
      CutParsed(c, raw[last..], flag);
    }
  }

  lemma CutParsed(c: Codec, cut: seq<Object>, flag: bool)
    ensures DropSystem(WithoutFlag(ParseAll(c, cut, ModelFacing(cut))))
            == WithoutFlag(DropSystem(ParseAll(c, cut, flag)))
  {
    FlagOnly(c, cut, flag, ModelFacing(cut));
    DropSystemFlag(ParseAll(c, cut, flag));
  }

  lemma {:induction false} NothingDroppedIff(msgs: seq<ChatMessage>)
    ensures |DropSystem(msgs)| <= |msgs|
    ensures DropSystem(msgs) == msgs <==> forall i | 0 <= i < |msgs| :: !IsSystem(msgs[i].role)
  {
    assert DropSystem([]) == [];
    hide DropSystem, IsSystem;
    if msgs != [] {
      var n := |msgs| - 1;
      var rest, m := msgs[..n], msgs[n];
      NothingDroppedIff(rest);
      assert msgs == rest + [m];
      DropSystemAppend(rest, m);
      AppendEqual(DropSystem(rest), if IsSystem(m.role) then [] else [m], rest, m);
    }
  }
}
