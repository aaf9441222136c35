/** The LLM wrapper that shortens the conversation when the LLM reports that it is too long. */
module ContextTruncation {
  import opened AutoRecovery
  import opened Messages
  import opened Utf8

  /** ASCII letters in lower case. */
  function Lower(s: seq<byte>): seq<byte> {
    seq(|s|, i requires 0 <= i < |s| => if 0x41 <= s[i] <= 0x5A then s[i] + 0x20 else s[i])
  }

  predicate IsContextOrRateLimitError(e: AgentError) {
    e.LLMError? &&
    var m := Lower(e.message);
    || Contains(m, Ascii("429"))
    || Contains(m, Ascii("413"))
    || Contains(m, Ascii("rate limit"))
    || Contains(m, Ascii("too many requests"))
    || Contains(m, Ascii("payload too large"))
    || Contains(m, Ascii("request too large"))
    || Contains(m, Ascii("context length"))
    || Contains(m, Ascii("token limit"))
    || Contains(m, Ascii("maximum context"))
    || Contains(m, Ascii("context window"))
  }

  /** An error as it is shown to the user. */
  function Display(e: AgentError): seq<byte> {
    match e
    case LLMError(m) => Ascii("LLM interaction failed: ") + m
    case ValidationError(m) => Ascii("Validation error: ") + m
    case OtherError(m) => m
  }

  function FailedAfter(attempts: nat, e: AgentError): AgentError {
    LLMError(Ascii("Failed after ") + Decimal(attempts) + Ascii(" attempts with context truncation: ") + Display(e))
  }

  /** Rust's `ceil`. */
  function Ceiling(x: real): (n: int)
    ensures n as real - 1.0 < x <= n as real
  {
    -((-x).Floor)
  }

  function SummaryInstructions(content: seq<byte>): seq<byte> {
    Ascii("Summarize the following content concisely. Focus on the key results and main points. ")
    + Ascii("Do not omit important identifiers, names, or numbers. ")
    + Ascii("The summary should be significantly shorter than the original. ")
    + Ascii("\n\nCONTENT:\n") + content + Ascii("\n\nSUMMARY:")
  }

  function SummaryPrompt(content: seq<byte>): seq<Message> {
    [Plain(System, SummaryInstructions(content))]
  }

  /** The content that replaces a long one, given the LLM's reply. */
  function SummaryOf(reply: Result<Response>): seq<byte> {
    match reply
    case Ok(response) =>
      Ascii("[Content summarized to fit context]:\n")
      + (if response.content.Some? then response.content.value
          else Ascii("Content was too long and summarization failed."))
    case Err(_) => Ascii("[Content was too long and summarization failed. Please check logs.]")
  }

  function TruncationNotice(removed: nat): Message {
    Plain(System, Ascii("[Context truncated: ") + Decimal(removed) + Ascii(" messages removed to fit within limits]"))
  }

  /** The leading system message, if there is one. */
  function Lead(ms: seq<Message>): (lead: seq<Message>)
    ensures |lead| <= |ms| && |lead| <= 1
  {
    if ms != [] && ms[0].role == System then [ms[0]] else []
  }

  /** The last messages once `removed` are taken away, but never none of them. */
  function MostRecent(rest: seq<Message>, removed: nat): seq<Message> {
    if removed < |rest| then rest[removed..]
    else if rest == [] then []
    else [rest[|rest| - 1]]
  }

  /** How many of `count` messages are to be removed. */
  function Removals(count: nat, factor: real): nat
    requires factor >= 0.0
  {
    assert count as real * factor >= 0.0;
    Ceiling(count as real * factor)
  }

  /** The least number that is at least the given part of them; some, unless there are none. */
  lemma RemovalsRound(count: nat, factor: real)
    requires factor >= 0.0
    ensures Removals(count, factor) as real - 1.0 < count as real * factor <= Removals(count, factor) as real
    ensures factor > 0.0 ==> (Removals(count, factor) > 0 <==> count > 0)
  {
    assert count > 0 && factor > 0.0 ==> count as real * factor > 0.0;
  }

  /** The leading system message, a notice, and the most recent messages. */
  function Truncated(ms: seq<Message>, factor: real): seq<Message>
    requires factor >= 0.0
  {
    var lead := Lead(ms);
    var removed := Removals(|ms| - |lead|, factor);
    WithNotice(lead, removed, MostRecent(ms[|lead|..], removed))
  }

  function WithNotice(lead: seq<Message>, removed: nat, recent: seq<Message>): seq<Message> {
    lead + (if removed > 0 then [TruncationNotice(removed)] else []) + recent
  }

  /** What both LLMs were asked so far: the base LLM, and the recovering wrapper around it. */
  datatype Logs = Logs(base: seq<Request>, inner: seq<Request>)

  datatype Limits = Limits(maxRetries: nat, minMessages: nat, summarizationThreshold: nat) {

    function Asked(s: Settings, oracle: Oracle, logs: Logs, request: Request): (r: (Logs, Result<Response>)) {
      var o := s.Generated(oracle, logs.base, request.messages, request.tools);
      (Logs(o.log, logs.inner + [request]), o.reply)
    }

    predicate IsLong(content: seq<byte>) {
      |content| / 4 > summarizationThreshold
    }

    /** The messages with those before `n` summarised if they are long tool results. */
    function Summarised(s: Settings, oracle: Oracle, logs: Logs, ms: seq<Message>, n: nat): (r: (Logs, seq<Message>))
      requires n <= |ms|
      ensures |r.1| == |ms|
    {
      hide SummaryPrompt, SummaryOf, Settings.Generated;
      if n == 0 then (logs, ms)
      else
        var (before, done) := Summarised(s, oracle, logs, ms, n - 1);
        if ms[n - 1].role == Tool && IsLong(ms[n - 1].content) then
          var (after, reply) := Asked(s, oracle, before, Request(SummaryPrompt(ms[n - 1].content), None));
          if |SummaryOf(reply)| < |ms[n - 1].content| then
            (after, done[n - 1 := ms[n - 1].(content := SummaryOf(reply))])
          else
            (after, done)
        else (before, done)
    }

    function Shrunk(s: Settings, oracle: Oracle, logs: Logs, ms: seq<Message>, factor: real): (Logs, seq<Message>)
      requires factor >= 0.0
    {
      if |ms| <= minMessages then (logs, ms)
      else
        var (after, done) := Summarised(s, oracle, logs, ms, |ms|);
        (after, Truncated(done, factor))
    }

    function NextFactor(factor: real): real {
      if factor + 0.1 <= 0.8 then factor + 0.1 else 0.8
    }

    /** The attempts from number `attempt` on. */
    function Retrying(s: Settings, oracle: Oracle, logs: Logs, ms: seq<Message>, tools: Option<seq<ToolMetadata>>,
                      factor: real, attempt: nat): (Logs, Result<Response>)
      requires factor >= 0.0 && attempt <= maxRetries
      decreases maxRetries - attempt
    {
      var (asked, reply) := Asked(s, oracle, logs, Request(ms, tools));
      if reply.Ok? || !IsContextOrRateLimitError(reply.error) then (asked, reply)
      else if attempt == maxRetries then (asked, Err(FailedAfter(maxRetries + 1, reply.error)))
      else
        var (after, shorter) := Shrunk(s, oracle, asked, ms, factor);
        if |shorter| <= minMessages then (after, Err(FailedAfter(attempt + 1, reply.error)))
        else Retrying(s, oracle, after, shorter, tools, NextFactor(factor), attempt + 1)
    }
  }

  class ContextTruncatingLLM {
    const inner: AutoRecoveryLLM
    const limits: Limits
    const truncationRatio: real

    /** The ratio is clamped between 0.1 and 0.9, and at least one message is always kept. */
    constructor (inner: AutoRecoveryLLM, limits: Limits, ratio: real)
      ensures this.inner == inner
      ensures truncationRatio == if ratio < 0.1 then 0.1 else if ratio > 0.9 then 0.9 else ratio
      ensures this.limits == limits.(minMessages := if limits.minMessages == 0 then 1 else limits.minMessages)
    {
      this.inner := inner;
      this.limits := limits.(minMessages := if limits.minMessages == 0 then 1 else limits.minMessages);
      truncationRatio := if ratio < 0.1 then 0.1 else if ratio > 0.9 then 0.9 else ratio;
    }

    ghost function CurrentLogs(): Logs
      reads inner, inner.inner
    {
      Logs(inner.inner.log, inner.requests)
    }

    method SummarizeMessageContent(content: seq<byte>) returns (summary: seq<byte>)
      modifies inner`requests, inner.inner
      ensures !limits.IsLong(content) ==> summary == content && CurrentLogs() == old(CurrentLogs())
      ensures limits.IsLong(content) ==>
                var (logs, reply) := limits.Asked(inner.settings, inner.inner.oracle, old(CurrentLogs()),
                    Request(SummaryPrompt(content), None));
                CurrentLogs() == logs && summary == SummaryOf(reply)
    {
      hide SummaryPrompt, SummaryOf, Settings.Generated;
      if |content| / 4 <= limits.summarizationThreshold {
        return content;
      }
      var reply := inner.Generate(SummaryPrompt(content), None);
      summary := SummaryOf(reply);
    }

    method TruncateMessages(messages: seq<Message>, factor: real) returns (ms: seq<Message>)
      requires factor >= 0.0
      modifies inner`requests, inner.inner
      ensures (CurrentLogs(), ms)
              == limits.Shrunk(inner.settings, inner.inner.oracle, old(CurrentLogs()), messages, factor)
    {
      hide SummaryPrompt, SummaryOf, Truncated, Limits.Asked;
      if |messages| <= limits.minMessages {
        return messages;
      }
      var processed := messages;
      for i := 0 to |messages|
        invariant |processed| == |messages| && processed[i..] == messages[i..]
        invariant (CurrentLogs(), processed)
                == limits.Summarised(inner.settings, inner.inner.oracle, old(CurrentLogs()), messages, i)
      {
        var message := processed[i];
        assert message == processed[i..][0] == messages[i];
        if message.role == Tool {
          var summary := SummarizeMessageContent(message.content);
          if |summary| < |message.content| {
            processed := processed[i := message.(content := summary)];
          }
        }
      }
      ms := Truncate(processed, factor);
    }

    method Generate(messages: seq<Message>, tools: Option<seq<ToolMetadata>>) returns (reply: Result<Response>)
      requires truncationRatio >= 0.0
      modifies inner`requests, inner.inner
      ensures (CurrentLogs(), reply)
              == limits.Retrying(inner.settings, inner.inner.oracle, old(CurrentLogs()), messages, tools,
                  truncationRatio, 0)
    {
      hide FailedAfter, IsContextOrRateLimitError, Limits.Shrunk, Settings.Generated;
      var current := messages;
      var factor := truncationRatio;
      var attempt := 0;
      while attempt <= limits.maxRetries
        invariant attempt <= limits.maxRetries && factor >= 0.0
        invariant limits.Retrying(inner.settings, inner.inner.oracle, CurrentLogs(), current, tools, factor, attempt)
                  == limits.Retrying(inner.settings, inner.inner.oracle, old(CurrentLogs()), messages, tools,
                      truncationRatio, 0)
        decreases limits.maxRetries - attempt
      {
        reply := inner.Generate(current, tools);
        if reply.Ok? || !IsContextOrRateLimitError(reply.error) {
          return;
        }
        if attempt == limits.maxRetries {
          return Err(FailedAfter(limits.maxRetries + 1, reply.error));
        }
        current := TruncateMessages(current, factor);
        factor := if factor + 0.1 <= 0.8 then factor + 0.1 else 0.8;
        if |current| <= limits.minMessages {
          return Err(FailedAfter(attempt + 1, reply.error));
        }
        attempt := attempt + 1;
      }
    }
  }

  /** Keep the leading system message and the most recent messages, and say what was removed. */
  method Truncate(processed: seq<Message>, factor: real) returns (result: seq<Message>)
    requires factor >= 0.0
    ensures result == Truncated(processed, factor)
  {
    hide TruncationNotice, Removals;
    result := [];
    var remaining := processed;
    var hasSystemMessage := remaining != [] && remaining[0].role == System;
    if hasSystemMessage {
      result := [remaining[0]];
      remaining := remaining[1..];
    }
    ghost var lead := result;
    assert lead == Lead(processed) && remaining == processed[|lead|..];
    var toRemove := Removals(|remaining|, factor);
    var toKeep := if |remaining| > toRemove then |remaining| - toRemove else 0;
    var recent := [];
    if toKeep == 0 {
      if remaining != [] {
        recent := [remaining[|remaining| - 1]];
      }
    } else {
      recent := remaining[|remaining| - toKeep..];
    }
    assert recent == MostRecent(remaining, toRemove);
    hide MostRecent, Lead;
    assert Truncated(processed, factor) == WithNotice(lead, toRemove, recent);
    hide Truncated;
    result := result + recent;
    if toRemove > 0 {
      var at := if hasSystemMessage then 1 else 0;
      assert result[..at] == lead && result[at..] == recent;
      result := result[..at] + [TruncationNotice(toRemove)] + result[at..];
    }
  }
}
