/** The chat message that the agent keeps in memory and in persisted traces. */
module Chat {
  import opened Base
  import opened Text

  /** The field names that traces use, in the order of the constructors below. */
  const FIELD_NAMES := [
    "role", "content", "reasoning_content", "tool_calls", "tool_call_id", "tool_name", "name",
    "id", "type", "function", "arguments", "extra", "hosttrace_model_facing_trace_version"]

  type OtherName = name: string | name !in FIELD_NAMES witness "other"

  /** Numbers that JSON libraries keep exactly. */
  type Whole = n: int | -0x20_0000_0000_0000 <= n <= 0x20_0000_0000_0000

  /** One constructor for each name above; every other name is `Other`. */
  datatype Field =
    | Role | Content | ReasoningContent | ToolCalls | ToolCallID | ToolName | Name
    | CallID | Type | Function | ArgumentsText | Extra | TraceVersion
    | Other(name: OtherName)

  datatype Json =
    | JNull
    | JBool(b: bool)
    | JNumber(n: Whole)
    | JString(s: string)
    | JArray(items: seq<Json>)
    | JObject(fields: Object)

  type Object = map<Field, Json>

  datatype ToolCall = ToolCall(id: string, kind: string, name: string, arguments: Option<Object>)

  datatype ChatMessage = ChatMessage(
    role: string,
    content: string,
    toolCalls: seq<ToolCall>,
    toolCallID: string,
    toolName: string,
    reasoningContent: string,
    modelFacingTrace: bool)

  predicate EqualFold(a: string, b: string) {
    LowerAscii(a) == LowerAscii(b)
  }
}
