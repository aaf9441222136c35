/** The LLM wrapper that validates messages before each call and tries to recover when a call fails. */
module AutoRecovery {
  import opened Messages
  import opened MessageValidation
  import opened Sorting
  import opened Utf8

  // ---- The base LLM ----

  datatype Request = Request(messages: seq<Message>, tools: Option<seq<ToolMetadata>>)

  datatype Response = Response(content: Option<seq<byte>>, toolCalls: Option<seq<ToolCall>>)

  /** What the base LLM replies to the last request of a log. Any function: any sequence of replies
      and errors is possible. */
  type Oracle = seq<Request> -> Result<Response>

  /** The requests made so far, and the reply to the caller. */
  datatype Outcome = Outcome(log: seq<Request>, reply: Result<Response>)

  class BaseLLM {
    const oracle: Oracle
    var log: seq<Request>

    constructor (oracle: Oracle)
      ensures this.oracle == oracle && log == []
    {
      this.oracle := oracle;
      log := [];
    }

    method Generate(messages: seq<Message>, tools: Option<seq<ToolMetadata>>) returns (reply: Result<Response>)
      modifies this
      ensures Outcome(log, reply) == Called(oracle, old(log), Request(messages, tools))
    {
      log := log + [Request(messages, tools)];
      reply := oracle(log);
    }
  }

  function Called(oracle: Oracle, log: seq<Request>, request: Request): Outcome {
    Outcome(log + [request], oracle(log + [request]))
  }

  // ---- Kinds of errors ----

  predicate Contains(s: seq<byte>, pattern: seq<byte>) {
    exists i :: 0 <= i <= |s| && MatchesAt(s, pattern, i)
  }

  predicate IsToolCallsValidationError(e: AgentError) {
    && e.LLMError?
    && Contains(e.message, Ascii("tool_calls"))
    && Contains(e.message, Ascii("must be followed by tool messages"))
    && Contains(e.message, Ascii("tool_call_id"))
  }

  predicate IsRecoverable400Error(e: AgentError) {
    && e.LLMError?
    && (|| Contains(e.message, Ascii("400 Bad Request"))
        || Contains(e.message, Ascii("invalid_request_error"))
        || IsToolCallsValidationError(e))
  }

  // ---- Recovering from unanswered tool calls ----

  function InterruptedResult(id: string): Message {
    Message(Tool, Ascii("[Tool execution was interrupted - continuing conversation]"), Some(id), None)
  }

  datatype Insertion = Insertion(index: nat, message: Message)

  /** The first of `ids` that is among `missing`. */
  function FirstMissing(ids: seq<string>, missing: seq<string>): Option<string> {
    if ids == [] then None
    else if ids[0] in missing then Some(ids[0])
    else FirstMissing(ids[1..], missing)
  }

  /** The first place at or after `i` that does not hold a tool message. */
  function AfterResults(ms: seq<Message>, i: nat): (k: nat)
    requires i <= |ms|
    ensures i <= k <= |ms|
    ensures forall j :: i <= j < k ==> ms[j].role == Tool
    ensures k < |ms| ==> ms[k].role != Tool
    decreases |ms| - i
  {
    if i < |ms| && ms[i].role == Tool then AfterResults(ms, i + 1) else i
  }

  /** One interrupted result for each assistant message up to `n` that made a missing call, after the
      results it already has. */
  function Insertions(ms: seq<Message>, missing: seq<string>, n: nat): (r: seq<Insertion>)
    requires n <= |ms|
    ensures forall k :: 0 <= k < |r| ==> r[k].index <= |ms|
  {
    if n == 0 then []
    else
      var id := FirstMissing(CallIds(ms[n - 1]), missing);
      Insertions(ms, missing, n - 1)
      + (if id.Some? then [Insertion(AfterResults(ms, n), InterruptedResult(id.value))] else [])
  }

  predicate LaterInsertionFirst(a: Insertion, b: Insertion) {
    a.index >= b.index
  }

  predicate Fits(ms: seq<Message>, insertions: seq<Insertion>) {
    forall k :: 0 <= k < |insertions| ==> insertions[k].index <= |ms|
  }

  function InsertAt(ms: seq<Message>, insertion: Insertion): seq<Message>
    requires insertion.index <= |ms|
  {
    ms[..insertion.index] + [insertion.message] + ms[insertion.index..]
  }

  function Inserted(ms: seq<Message>, insertions: seq<Insertion>): seq<Message>
    requires Fits(ms, insertions)
    decreases |insertions|
  {
    if insertions == [] then ms else Inserted(InsertAt(ms, insertions[0]), insertions[1..])
  }

  function SortedInsertions(ms: seq<Message>, missing: seq<string>): (r: seq<Insertion>)
    ensures Fits(ms, r)
  {
    var insertions := Insertions(ms, missing, |ms|);
    SortPermutes(insertions, LaterInsertionFirst);
    var sorted := Sort(insertions, LaterInsertionFirst);
    assert forall k :: 0 <= k < |sorted| ==> sorted[k] in sorted;
    sorted
  }

  /** The messages with an interrupted result put in for each missing call. */
  function WithInterruptedResults(ms: seq<Message>, missing: seq<string>): seq<Message> {
    Inserted(ms, SortedInsertions(ms, missing))
  }

  // ---- The fallbacks for other errors ----

  /** A message without anything to do with tools. */
  function WithoutTools(m: Message): Message {
    match m.role
    case Assistant => m.(toolCalls := None)
    case Tool => m.(role := System, content := Ascii("Previous result: ") + m.content, toolCallId := None)
    case _ => m
  }

  function AllWithoutTools(ms: seq<Message>): seq<Message> {
    seq(|ms|, i requires 0 <= i < |ms| => WithoutTools(ms[i]))
  }

  function OnlyConversation(ms: seq<Message>): seq<Message> {
    if ms == [] then []
    else
      (if ms[0].role == User || ms[0].role == Assistant then [WithoutTools(ms[0])] else [])
      + OnlyConversation(ms[1..])
  }

  function LastUser(ms: seq<Message>): Option<Message> {
    if ms == [] then None
    else if ms[|ms| - 1].role == User then Some(ms[|ms| - 1])
    else LastUser(ms[..|ms| - 1])
  }

  /** What is sent in the first, second and third fallback; nothing is sent after that. */
  function FallbackMessages(ms: seq<Message>, attempt: nat): Option<seq<Message>> {
    match attempt
    case 1 => Some(AllWithoutTools(ms))
    case 2 => Some(OnlyConversation(ms))
    case 3 => Some([if LastUser(ms).Some? then LastUser(ms).value
                    else Plain(User, Ascii("Please continue our conversation."))])
    case _ => None
  }

  function Exhausted(): AgentError {
    LLMError(Ascii("All recovery attempts failed. Please clear the conversation memory and try again."))
  }

  // ---- The retry loop ----

  datatype Settings = Settings(validator: MessageValidator, maxRetries: nat, extractIds: seq<byte> -> seq<string>) {

    function RecoveredFromToolCalls(ms: seq<Message>, message: seq<byte>): Result<seq<Message>> {
      Validated(validator.autoFix, WithInterruptedResults(ms, extractIds(message)))
    }

    /** What is sent again after a recoverable error. */
    function RecoveredMessages(ms: seq<Message>, error: AgentError): Result<seq<Message>> {
      if IsToolCallsValidationError(error) then RecoveredFromToolCalls(ms, error.message)
      else if IsRecoverable400Error(error) then Validated(validator.autoFix, ms)
      else Err(error)
    }

    function Recovery(oracle: Oracle, log: seq<Request>, ms: seq<Message>, tools: Option<seq<ToolMetadata>>,
                      error: AgentError): Outcome {
      match RecoveredMessages(ms, error)
      case Err(e) => Outcome(log, Err(e))
      case Ok(recovered) => Called(oracle, log, Request(recovered, tools))
    }

    function Fallback(oracle: Oracle, log: seq<Request>, ms: seq<Message>, attempt: nat): Outcome {
      match FallbackMessages(ms, attempt)
      case Some(messages) => Called(oracle, log, Request(messages, None))
      case None => Outcome(log, Err(Exhausted()))
    }

    function Attempt(oracle: Oracle, log: seq<Request>, ms: seq<Message>, tools: Option<seq<ToolMetadata>>,
                     error: AgentError, attempt: nat): Outcome {
      if IsRecoverable400Error(error) then Recovery(oracle, log, ms, tools, error)
      else Fallback(oracle, log, ms, attempt)
    }

    /** The attempts from number `attempt` on, after the first call failed with `error`. */
    function Retried(oracle: Oracle, log: seq<Request>, ms: seq<Message>, tools: Option<seq<ToolMetadata>>,
                     error: AgentError, attempt: nat): Outcome
      decreases maxRetries + 1 - attempt
    {
      if attempt > maxRetries then Outcome(log, Err(error))
      else
        var tried := Attempt(oracle, log, ms, tools, error, attempt);
        if tried.reply.Ok? || attempt == maxRetries then tried
        else Retried(oracle, tried.log, ms, tools, error, attempt + 1)
    }

    /** What is sent first: the validated messages, or the messages as they are if they are refused. */
    function FirstMessages(ms: seq<Message>): seq<Message> {
      match Validated(validator.autoFix, ms)
      case Ok(validated) => validated
      case Err(_) => ms
    }

    function Generated(oracle: Oracle, log: seq<Request>, ms: seq<Message>, tools: Option<seq<ToolMetadata>>): Outcome {
      var validated := FirstMessages(ms);
      var first := Called(oracle, log, Request(validated, tools));
      if first.reply.Ok? then first
      else Retried(oracle, first.log, validated, tools, first.reply.error, 1)
    }
  }

  class AutoRecoveryLLM {
    const inner: BaseLLM
    const settings: Settings
    /** The requests this wrapper was given. */
    ghost var requests: seq<Request>

    constructor (inner: BaseLLM, settings: Settings)
      ensures this.inner == inner && this.settings == settings && requests == []
    {
      this.inner := inner;
      this.settings := settings;
      requests := [];
    }

    method RecoverFromToolCallsError(messages: seq<Message>, errorMsg: seq<byte>) returns (r: Result<seq<Message>>)
      ensures r == settings.RecoveredFromToolCalls(messages, errorMsg)
    {
      var missing := settings.extractIds(errorMsg);
      var recovered := messages;
      if missing != [] {
        var insertions := FindInsertions(messages, missing);
        var sorted := Sort(insertions, LaterInsertionFirst);
        assert sorted == SortedInsertions(messages, missing);
        recovered := ApplyInsertions(messages, sorted);
      } else {
        NothingMissing(messages);
      }
      r := settings.validator.ValidateAndFix(recovered);
    }

    method AttemptRecovery(messages: seq<Message>, tools: Option<seq<ToolMetadata>>, error: AgentError)
      returns (reply: Result<Response>)
      modifies inner
      ensures Outcome(inner.log, reply) == settings.Recovery(inner.oracle, old(inner.log), messages, tools, error)
    {
      var recovered;
      if IsToolCallsValidationError(error) {
        recovered := RecoverFromToolCallsError(messages, error.message);
      } else if IsRecoverable400Error(error) {
        recovered := settings.validator.ValidateAndFix(messages);
      } else {
        return Err(error);
      }
      if recovered.Err? {
        return Err(recovered.error);
      }
      reply := inner.Generate(recovered.value, tools);
    }

    method ProgressiveFallback(messages: seq<Message>, attempt: nat) returns (reply: Result<Response>)
      modifies inner
      ensures Outcome(inner.log, reply) == settings.Fallback(inner.oracle, old(inner.log), messages, attempt)
    {
      match attempt {
        case 1 =>
          reply := inner.Generate(AllWithoutTools(messages), None);
        case 2 =>
          reply := inner.Generate(OnlyConversation(messages), None);
        case 3 =>
          var last := LastUser(messages);
          if last.Some? {
            reply := inner.Generate([last.value], None);
          } else {
            reply := inner.Generate([Plain(User, Ascii("Please continue our conversation."))], None);
          }
        case _ =>
          reply := Err(Exhausted());
      }
    }

    method Generate(messages: seq<Message>, tools: Option<seq<ToolMetadata>>) returns (reply: Result<Response>)
      modifies this`requests, inner
      ensures requests == old(requests) + [Request(messages, tools)]
      ensures Outcome(inner.log, reply) == settings.Generated(inner.oracle, old(inner.log), messages, tools)
    {
      hide IsRecoverable400Error, Settings.Recovery, Settings.Fallback, Validated;
      requests := requests + [Request(messages, tools)];
      var validated := settings.validator.ValidateAndFix(messages);
      var first := if validated.Ok? then validated.value else messages;
      reply := inner.Generate(first, tools);
      if reply.Ok? {
        return;
      }
      var error := reply.error;
      var attempt := 1;
      while attempt <= settings.maxRetries
        invariant 1 <= attempt <= settings.maxRetries + 1
        invariant settings.Retried(inner.oracle, inner.log, first, tools, error, attempt)
                  == settings.Generated(inner.oracle, old(inner.log), messages, tools)
        invariant requests == old(requests) + [Request(messages, tools)]
        decreases settings.maxRetries + 1 - attempt
      {
        if IsRecoverable400Error(error) {
          reply := AttemptRecovery(first, tools, error);
        } else {
          reply := ProgressiveFallback(first, attempt);
        }
        if reply.Ok? || attempt == settings.maxRetries {
          return;
        }
        attempt := attempt + 1;
      }
      reply := Err(error);
    }
  }

  lemma {:induction false} NoneMissing(ids: seq<string>)
    ensures FirstMissing(ids, []) == None
  {
    if ids != [] {
      NoneMissing(ids[1..]);
    }
  }

  lemma {:induction false} NoInsertions(ms: seq<Message>, n: nat)
    requires n <= |ms|
    ensures Insertions(ms, [], n) == []
  {
    hide AfterResults, CallIds, FirstMissing;
    if n > 0 {
      NoInsertions(ms, n - 1);
      NoneMissing(CallIds(ms[n - 1]));
    }
  }

  lemma NothingMissing(ms: seq<Message>)
    ensures WithInterruptedResults(ms, []) == ms
  {
    NoInsertions(ms, |ms|);
  }

  method FindMissingCall(calls: seq<ToolCall>, missing: seq<string>) returns (id: Option<string>)
    ensures id == FirstMissing(Ids(calls), missing)
  {
    for c := 0 to |calls|
      invariant FirstMissing(Ids(calls[c..]), missing) == FirstMissing(Ids(calls), missing)
    {
      assert calls[c..][1..] == calls[c + 1..];
      if calls[c].id.Some? {
        assert Ids(calls[c..])[1..] == Ids(calls[c + 1..]);
        assert Ids(calls[c..])[0] == calls[c].id.value;
        if calls[c].id.value in missing {
          return calls[c].id;
        }
      } else {
        assert Ids(calls[c..]) == Ids(calls[c + 1..]);
      }
    }
    id := None;
  }

  method SkipResults(messages: seq<Message>, from: nat) returns (insertIndex: nat)
    requires from <= |messages|
    ensures insertIndex == AfterResults(messages, from)
  {
    insertIndex := from;
    while insertIndex < |messages| && messages[insertIndex].role == Tool
      invariant from <= insertIndex <= |messages|
      invariant AfterResults(messages, from) == AfterResults(messages, insertIndex)
    {
      insertIndex := insertIndex + 1;
    }
  }

  /** For each assistant message, its first missing call and where the result goes. */
  method FindInsertions(messages: seq<Message>, missing: seq<string>) returns (insertions: seq<Insertion>)
    ensures insertions == Insertions(messages, missing, |messages|)
  {
    insertions := [];
    for i := 0 to |messages|
      invariant insertions == Insertions(messages, missing, i)
    {
      hide Ids, FirstMissing, AfterResults;
      var id := None;
      if messages[i].role == Assistant && messages[i].toolCalls.Some? {
        id := FindMissingCall(messages[i].toolCalls.value, missing);
      } else {
        NoIds(missing);
      }
      if id.Some? {
        var insertIndex := SkipResults(messages, i + 1);
        insertions := insertions + [Insertion(insertIndex, InterruptedResult(id.value))];
      }
    }
  }

  lemma NoIds(missing: seq<string>)
    ensures FirstMissing([], missing) == None
  {
  }

  method ApplyInsertions(messages: seq<Message>, sorted: seq<Insertion>) returns (ms: seq<Message>)
    requires Fits(messages, sorted)
    ensures ms == Inserted(messages, sorted)
  {
    ms := messages;
    for k := 0 to |sorted|
      invariant Fits(ms, sorted[k..])
      invariant Inserted(ms, sorted[k..]) == Inserted(messages, sorted)
    {
      assert sorted[k..][1..] == sorted[k + 1..];
      ms := ms[..sorted[k].index] + [sorted[k].message] + ms[sorted[k].index..];
    }
  }
}
