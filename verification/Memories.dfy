/** Conversation memories: a sliding window, and a summary with a buffer of recent messages. */
module Memories {
  import opened AutoRecovery
  import opened Messages
  import opened Utf8

  // ---- The context given to the LLM ----

  /** An assistant message that has a list of tool calls, even an empty one. */
  predicate CallsTools(m: Message) {
    m.role == Assistant && m.toolCalls.Some?
  }

  function NotResults(ms: seq<Message>): seq<Message> {
    if ms == [] then []
    else NotResults(ms[..|ms| - 1]) + (if ms[|ms| - 1].role == Tool then [] else [ms[|ms| - 1]])
  }

  /** The last of the first `n` messages that calls tools. */
  function LastCaller(ms: seq<Message>, n: nat): (r: Option<nat>)
    requires n <= |ms|
    ensures r.Some? ==> r.value < n && CallsTools(ms[r.value]) && forall j :: r.value < j < n ==> !CallsTools(ms[j])
    ensures r == None ==> forall j :: 0 <= j < n ==> !CallsTools(ms[j])
  {
    if n == 0 then None else if CallsTools(ms[n - 1]) then Some(n - 1) else LastCaller(ms, n - 1)
  }

  /** Everything, without the tool results before the last message that calls tools. */
  function ContextOf(ms: seq<Message>): seq<Message> {
    match LastCaller(ms, |ms|)
    case None => ms
    case Some(i) => NotResults(ms[..i]) + ms[i..]
  }

  method BuildContext(messages: seq<Message>) returns (context: seq<Message>)
    ensures context == ContextOf(messages)
  {
    hide NotResults;
    var last := FindLastCaller(messages);
    if last == None {
      return messages;
    }
    context := [];
    NoResults();
    for k := 0 to last.value
      invariant context == NotResults(messages[..k])
    {
      NotResultsStep(messages, k);
      if messages[k].role != Tool {
        context := context + [messages[k]];
      }
    }
    ghost var before := context;
    for k := last.value to |messages|
      invariant context == before + messages[last.value..k]
    {
      context := context + [messages[k]];
    }
    assert messages[last.value..|messages|] == messages[last.value..];
  }

  lemma NoResults()
    ensures NotResults([]) == []
  {
  }

  lemma NotResultsStep(ms: seq<Message>, k: nat)
    requires k < |ms|
    ensures NotResults(ms[..k + 1]) == NotResults(ms[..k]) + (if ms[k].role == Tool then [] else [ms[k]])
  {
    assert ms[..k + 1][..k] == ms[..k];
  }

  method FindLastCaller(messages: seq<Message>) returns (last: Option<nat>)
    ensures last == LastCaller(messages, |messages|)
  {
    last := None;
    var i := |messages|;
    while i > 0
      invariant 0 <= i <= |messages|
      invariant LastCaller(messages, i) == LastCaller(messages, |messages|)
      decreases i
    {
      i := i - 1;
      if messages[i].role == Assistant && messages[i].toolCalls.Some? {
        last := Some(i);
        break;
      }
    }
  }

  // ---- The sliding window ----

  /** The window after one more message: the oldest leaves first if there is no room. */
  function Slid(maxMessages: nat, ms: seq<Message>, m: Message): seq<Message> {
    (if |ms| >= maxMessages && ms != [] then ms[1..] else ms) + [m]
  }

  class SlidingWindowMemory {
    const maxMessages: nat
    var messages: seq<Message>

    constructor (maxMessages: nat)
      ensures this.maxMessages == maxMessages && messages == []
    {
      this.maxMessages := maxMessages;
      messages := [];
    }

    method AddMessage(message: Message)
      modifies this
      ensures messages == Slid(maxMessages, old(messages), message)
    {
      if |messages| >= maxMessages {
        messages := if messages == [] then messages else messages[1..];
      }
      messages := messages + [message];
    }

    method GetContext() returns (context: seq<Message>)
      ensures context == ContextOf(messages)
    {
      context := BuildContext(messages);
    }

    method Clear()
      modifies this
      ensures messages == []
    {
      messages := [];
    }
  }

  // ---- The summary buffer ----

  function CountTokens(ms: seq<Message>): nat {
    if ms == [] then 0 else CountTokens(ms[..|ms| - 1]) + |ms[|ms| - 1].content| / 4
  }

  /** The summary, the messages still held, those taken out so far, in batches, and the requests to the
      LLM. */
  datatype Buffer = Buffer(summary: seq<byte>, messages: seq<Message>, batches: seq<seq<Message>>, log: seq<Request>)

  /** The text of a reply; empty if it has none. */
  function TextOf(response: Response): seq<byte> {
    if response.content.Some? then response.content.value else []
  }

  /** How a summary is asked for: any text made from the old summary and the new messages. */
  datatype Policy = Policy(maxTokenLimit: nat, prompt: (seq<byte>, seq<Message>) -> seq<byte>) {

    function SummaryRequest(summary: seq<byte>, batch: seq<Message>): Request {
      Request([Plain(System, prompt(summary, batch))], None)
    }

    /** The buffer after its older half is summarised, if it holds too many tokens. */
    function Pruned(oracle: Oracle, b: Buffer): (Buffer, Result<()>) {
      var half := |b.messages| / 2;
      var batch := b.messages[..half];
      if CountTokens(b.messages) <= maxTokenLimit || half == 0 then (b, Ok(()))
      else
        var asked := Called(oracle, b.log, SummaryRequest(b.summary, batch));
        var pruned := b.(messages := b.messages[half..], batches := b.batches + [batch], log := asked.log);
        match asked.reply
        case Err(e) => (pruned, Err(e))
        case Ok(response) => (pruned.(summary := TextOf(response)), Ok(()))
    }

    function Added(oracle: Oracle, b: Buffer, m: Message): (Buffer, Result<()>) {
      Pruned(oracle, b.(messages := b.messages + [m]))
    }
  }

  class ConversationSummaryBufferMemory {
    const llm: BaseLLM
    const policy: Policy
    var movingSummaryBuffer: seq<byte>
    var messages: seq<Message>
    ghost var batches: seq<seq<Message>>

    constructor (llm: BaseLLM, policy: Policy)
      ensures this.llm == llm && this.policy == policy
      ensures movingSummaryBuffer == [] && messages == [] && batches == []
    {
      this.llm := llm;
      this.policy := policy;
      movingSummaryBuffer, messages, batches := [], [], [];
    }

    ghost function Current(): Buffer
      reads this, llm
    {
      Buffer(movingSummaryBuffer, messages, batches, llm.log)
    }

    method Tokens() returns (count: nat)
      ensures count == CountTokens(messages)
    {
      count := 0;
      for i := 0 to |messages|
        invariant count == CountTokens(messages[..i])
      {
        assert messages[..i + 1][..i] == messages[..i];
        count := count + |messages[i].content| / 4;
      }
      assert messages[..|messages|] == messages;
    }

    method Prune() returns (r: Result<()>)
      modifies this, llm
      ensures (Current(), r) == policy.Pruned(llm.oracle, old(Current()))
    {
      hide CountTokens;
      var tokens := Tokens();
      if tokens <= policy.maxTokenLimit || messages == [] {
        return Ok(());
      }
      var toSummarize := |messages| / 2;
      var pruned: seq<Message> := [];
      for i := 0 to toSummarize
        invariant pruned == old(messages)[..i] && messages == old(messages)[i..]
        invariant Current() == old(Current()).(messages := messages)
      {
        pruned := pruned + [messages[0]];
        messages := messages[1..];
      }
      if pruned == [] {
        return Ok(());
      }
      var request := policy.SummaryRequest(movingSummaryBuffer, pruned);
      var reply := llm.Generate(request.messages, request.tools);
      batches := batches + [pruned];
      if reply.Err? {
        return Err(reply.error);
      }
      movingSummaryBuffer := TextOf(reply.value);
      r := Ok(());
    }

    method AddMessage(message: Message) returns (r: Result<()>)
      modifies this, llm
      ensures (Current(), r) == policy.Added(llm.oracle, old(Current()), message)
    {
      messages := messages + [message];
      r := Prune();
    }

    method GetContext() returns (context: seq<Message>)
      ensures context == (if movingSummaryBuffer == [] then [] else [Plain(System, movingSummaryBuffer)])
              + ContextOf(messages)
    {
      var recent := BuildContext(messages);
      context := if movingSummaryBuffer == [] then recent else [Plain(System, movingSummaryBuffer)] + recent;
      assert context == (if movingSummaryBuffer == [] then [] else [Plain(System, movingSummaryBuffer)]) + recent;
    }

    method Clear()
      modifies this
      ensures movingSummaryBuffer == [] && messages == [] && batches == old(batches)
    {
      movingSummaryBuffer, messages := [], [];
    }
  }
}
