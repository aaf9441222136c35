/** Conversation messages and tool calls. */
module Messages {
  import opened Utf8

  datatype Option<+T> = None | Some(value: T)

  datatype Role = System | User | Assistant | Tool

  /** A JSON value; two numbers are the same only if they are written the same way. */
  datatype Json =
    | Null
    | Bool(b: bool)
    | Integer(i: int)
    | Float(f: real)
    | String(s: seq<byte>)
    | Array(items: seq<Json>)
    | Object(fields: map<string, Json>)

  datatype ToolCall = ToolCall(id: Option<string>, name: string, arguments: Json)

  datatype Message = Message(
    role: Role,
    content: seq<byte>,
    toolCallId: Option<string>,
    toolCalls: Option<seq<ToolCall>>)

  datatype ToolMetadata = ToolMetadata(name: string, description: string, inputSchema: Json)

  datatype AgentError =
    | LLMError(message: seq<byte>)
    | ValidationError(message: seq<byte>)
    | OtherError(message: seq<byte>)

  datatype Result<+T> = Ok(value: T) | Err(error: AgentError)

  /** A message that neither calls a tool nor answers a call. */
  function Plain(role: Role, content: seq<byte>): Message {
    Message(role, content, None, None)
  }

  /** The ids among some tool calls, in order; a call may have none. */
  function Ids(calls: seq<ToolCall>): seq<string> {
    if calls == [] then []
    else (if calls[0].id.Some? then [calls[0].id.value] else []) + Ids(calls[1..])
  }

  /** The ids of the calls an assistant message makes; other messages make none that count. */
  function CallIds(m: Message): seq<string> {
    if m.role == Assistant && m.toolCalls.Some? then Ids(m.toolCalls.value) else []
  }

  /** `m` is a tool result for the call `id`. */
  predicate Answers(m: Message, id: string) {
    m.role == Tool && m.toolCallId == Some(id)
  }

  /** A number in decimal digits, as Rust formats it. */
  function Decimal(n: nat): seq<byte> {
    if n < 10 then [(0x30 + n) as byte] else Decimal(n / 10) + [(0x30 + n % 10) as byte]
  }

  /** The number that some decimal digits stand for. */
  function ValueOf(digits: seq<byte>): int {
    if digits == [] then 0 else ValueOf(digits[..|digits| - 1]) * 10 + (digits[|digits| - 1] as int - 0x30)
  }

  /** A number can be read back from its digits. */
  lemma {:induction false} DecimalCanBeRead(n: nat)
    ensures ValueOf(Decimal(n)) == n && Decimal(n) != []
    ensures forall d :: d in Decimal(n) ==> 0x30 <= d <= 0x39
  {
    if n >= 10 {
      DecimalCanBeRead(n / 10);
      assert Decimal(n)[..|Decimal(n)| - 1] == Decimal(n / 10);
    } else {
      assert Decimal(n)[..0] == [];
    }
  }
}
