/** Detecting and repairing message sequences in which tool calls are not answered, or tool results
    answer no call. */
module MessageValidation {
  import opened Messages
  import opened Sorting
  import opened Utf8

  // ---- What an issue is ----

  /** Some tool result at or after `from` answers `id`, with no user message before it. */
  predicate AnsweredFrom(ms: seq<Message>, from: nat, id: string)
    requires from <= |ms|
    decreases |ms| - from
  {
    from < |ms| && ms[from].role != User && (Answers(ms[from], id) || AnsweredFrom(ms, from + 1, id))
  }

  /** Those of `ids` that are not answered from `from` on. */
  function NotAnswered(ids: seq<string>, ms: seq<Message>, from: nat): seq<string>
    requires from <= |ms|
  {
    if ids == [] then []
    else (if AnsweredFrom(ms, from, ids[0]) then [] else [ids[0]]) + NotAnswered(ids[1..], ms, from)
  }

  /** The call ids of message `i` that nothing answers before the next user message. */
  function Unanswered(ms: seq<Message>, i: nat): seq<string>
    requires i < |ms|
  {
    NotAnswered(CallIds(ms[i]), ms, i + 1)
  }

  /** Some assistant message, anywhere in the list, makes the call `id`. */
  predicate Available(ms: seq<Message>, id: string) {
    exists i :: 0 <= i < |ms| && id in CallIds(ms[i])
  }

  /** A tool result for a call that no assistant message makes. */
  predicate Unmatched(ms: seq<Message>, i: nat)
    requires i < |ms|
  {
    ms[i].role == Tool && ms[i].toolCallId.Some? && !Available(ms, ms[i].toolCallId.value)
  }

  predicate IssueFree(ms: seq<Message>) {
    forall i :: 0 <= i < |ms| ==> Unanswered(ms, i) == [] && !Unmatched(ms, i)
  }

  // ---- Finding the issues ----

  datatype Issue =
    | OrphanedToolCalls(messageIndex: nat, toolCallIds: seq<string>)
    | OrphanedToolResponse(messageIndex: nat, toolCallId: string)

  /** The assistant messages from `i` on that have unanswered calls, in order. */
  function OrphanedCallsFrom(ms: seq<Message>, i: nat): seq<Issue>
    requires i <= |ms|
    decreases |ms| - i
  {
    if i == |ms| then []
    else
      (if Unanswered(ms, i) == [] then [] else [OrphanedToolCalls(i, Unanswered(ms, i))])
      + OrphanedCallsFrom(ms, i + 1)
  }

  /** The unmatched results from `i` on, in order. */
  function OrphanedResponsesFrom(ms: seq<Message>, i: nat): seq<Issue>
    requires i <= |ms|
    decreases |ms| - i
  {
    if i == |ms| then []
    else
      (if Unmatched(ms, i) then [OrphanedToolResponse(i, ms[i].toolCallId.value)] else [])
      + OrphanedResponsesFrom(ms, i + 1)
  }

  function Issues(ms: seq<Message>): seq<Issue> {
    OrphanedCallsFrom(ms, 0) + OrphanedResponsesFrom(ms, 0)
  }

  /** What the pending calls come to, once the messages from `from` on are read. */
  function Settled(pending: seq<Issue>, ms: seq<Message>, from: nat): seq<Issue>
    requires from <= |ms|
  {
    if pending == [] then []
    else
      (match pending[0]
       case OrphanedToolCalls(i, ids) =>
         (if NotAnswered(ids, ms, from) == [] then [] else [OrphanedToolCalls(i, NotAnswered(ids, ms, from))])
       case OrphanedToolResponse(_, _) => [])
      + Settled(pending[1..], ms, from)
  }

  /** Pending calls: none with nothing left to wait for. */
  predicate ArePending(pending: seq<Issue>) {
    forall p :: p in pending ==> p.OrphanedToolCalls? && p.toolCallIds != []
  }

  function WithoutId(ids: seq<string>, id: string): seq<string> {
    if ids == [] then []
    else (if ids[0] == id then [] else [ids[0]]) + WithoutId(ids[1..], id)
  }

  /** The pending calls once `id` is answered; entries with nothing left are dropped. */
  function AfterAnswer(pending: seq<Issue>, id: string): (r: seq<Issue>)
    requires ArePending(pending)
    ensures ArePending(r)
  {
    if pending == [] then []
    else
      var left := WithoutId(pending[0].toolCallIds, id);
      (if left == [] then [] else [OrphanedToolCalls(pending[0].messageIndex, left)]) + AfterAnswer(pending[1..], id)
  }

  lemma {:induction false} NotAnsweredBeforeUser(ids: seq<string>, ms: seq<Message>, from: nat)
    requires from < |ms| && ms[from].role == User
    ensures NotAnswered(ids, ms, from) == ids
  {
    if ids != [] {
      NotAnsweredBeforeUser(ids[1..], ms, from);
    }
  }

  /** Message `from` is a tool result that names its call. */
  predicate IsResult(ms: seq<Message>, from: nat)
    requires from < |ms|
  {
    ms[from].role == Tool && ms[from].toolCallId.Some?
  }

  lemma {:induction false} NotAnsweredAfterResult(ids: seq<string>, ms: seq<Message>, from: nat)
    requires from < |ms| && IsResult(ms, from)
    ensures NotAnswered(ids, ms, from) == NotAnswered(WithoutId(ids, ms[from].toolCallId.value), ms, from + 1)
  {
    if ids != [] {
      var id := ms[from].toolCallId.value;
      NotAnsweredAfterResult(ids[1..], ms, from);
      if ids[0] == id {
        assert WithoutId(ids, id) == WithoutId(ids[1..], id);
      } else {
        assert WithoutId(ids, id)[1..] == WithoutId(ids[1..], id);
      }
    }
  }

  lemma {:induction false} NotAnsweredPassing(ids: seq<string>, ms: seq<Message>, from: nat)
    requires from < |ms| && ms[from].role != User && !IsResult(ms, from)
    ensures NotAnswered(ids, ms, from) == NotAnswered(ids, ms, from + 1)
  {
    if ids != [] {
      NotAnsweredPassing(ids[1..], ms, from);
    }
  }

  lemma {:induction false} NotAnsweredAtEnd(ids: seq<string>, ms: seq<Message>)
    ensures NotAnswered(ids, ms, |ms|) == ids
  {
    if ids != [] {
      NotAnsweredAtEnd(ids[1..], ms);
    }
  }

  lemma {:induction false} SettledAsIs(pending: seq<Issue>, ms: seq<Message>, from: nat)
    requires ArePending(pending) && from <= |ms| && (from == |ms| || ms[from].role == User)
    ensures Settled(pending, ms, from) == pending
  {
    if pending != [] {
      SettledAsIs(pending[1..], ms, from);
      if from == |ms| {
        NotAnsweredAtEnd(pending[0].toolCallIds, ms);
      } else {
        NotAnsweredBeforeUser(pending[0].toolCallIds, ms, from);
      }
    }
  }

  lemma {:induction false} SettledAfterResult(pending: seq<Issue>, ms: seq<Message>, from: nat)
    requires ArePending(pending) && from < |ms| && IsResult(ms, from)
    ensures Settled(pending, ms, from) == Settled(AfterAnswer(pending, ms[from].toolCallId.value), ms, from + 1)
  {
    hide AnsweredFrom, NotAnswered;
    if pending != [] {
      var id := ms[from].toolCallId.value;
      var left := WithoutId(pending[0].toolCallIds, id);
      SettledAfterResult(pending[1..], ms, from);
      NotAnsweredAfterResult(pending[0].toolCallIds, ms, from);
      if left == [] {
        NotAnsweredNone(ms, from + 1);
        assert AfterAnswer(pending, id) == AfterAnswer(pending[1..], id);
      } else {
        assert AfterAnswer(pending, id)[1..] == AfterAnswer(pending[1..], id);
      }
    }
  }

  lemma NotAnsweredNone(ms: seq<Message>, from: nat)
    requires from <= |ms|
    ensures NotAnswered([], ms, from) == []
  {
  }

  lemma {:induction false} SettledPassing(pending: seq<Issue>, ms: seq<Message>, from: nat)
    requires from < |ms| && ms[from].role != User && !IsResult(ms, from)
    ensures Settled(pending, ms, from) == Settled(pending, ms, from + 1)
  {
    if pending != [] {
      SettledPassing(pending[1..], ms, from);
      if pending[0].OrphanedToolCalls? {
        NotAnsweredPassing(pending[0].toolCallIds, ms, from);
      }
    }
  }

  lemma {:induction false} SettledAppend(pending: seq<Issue>, last: Issue, ms: seq<Message>, from: nat)
    requires from <= |ms|
    ensures Settled(pending + [last], ms, from) == Settled(pending, ms, from) + Settled([last], ms, from)
  {
    if pending == [] {
      assert pending + [last] == [last];
    } else {
      SettledAppend(pending[1..], last, ms, from);
      assert (pending + [last])[1..] == pending[1..] + [last];
    }
  }

  /** The calls found orphaned, then those still pending, after one more message. */
  function Read(pending: seq<Issue>, ms: seq<Message>, i: nat): (r: (seq<Issue>, seq<Issue>))
    requires ArePending(pending) && i < |ms|
    ensures ArePending(r.1)
  {
    if CallIds(ms[i]) != [] then ([], pending + [OrphanedToolCalls(i, CallIds(ms[i]))])
    else if IsResult(ms, i) then ([], AfterAnswer(pending, ms[i].toolCallId.value))
    else if ms[i].role == User then (pending, [])
    else ([], pending)
  }

  lemma ReadKeepsTheCount(pending: seq<Issue>, ms: seq<Message>, i: nat)
    requires ArePending(pending) && i < |ms|
    ensures var (orphaned, pending') := Read(pending, ms, i);
            Settled(pending, ms, i) + OrphanedCallsFrom(ms, i)
            == orphaned + Settled(pending', ms, i + 1) + OrphanedCallsFrom(ms, i + 1)
  {
    hide AnsweredFrom, NotAnswered, AfterAnswer, Settled, OrphanedCallsFrom;
    CountUnfold(ms, i);
    if ms[i].role == User {
      SettledAsIs(pending, ms, i);
      SettledNone(ms, i + 1);
    } else if IsResult(ms, i) {
      SettledAfterResult(pending, ms, i);
    } else {
      SettledPassing(pending, ms, i);
      SettledAppend(pending, OrphanedToolCalls(i, CallIds(ms[i])), ms, i + 1);
    }
  }

  lemma SettledNone(ms: seq<Message>, from: nat)
    requires from <= |ms|
    ensures Settled([], ms, from) == []
  {
  }

  /** The calls of message `i` are pending once it is read. */
  lemma CountUnfold(ms: seq<Message>, i: nat)
    requires i < |ms|
    ensures OrphanedCallsFrom(ms, i)
            == (if CallIds(ms[i]) == [] then [] else Settled([OrphanedToolCalls(i, CallIds(ms[i]))], ms, i + 1))
                + OrphanedCallsFrom(ms, i + 1)
  {
    hide NotAnswered;
    NotAnsweredNone(ms, i + 1);
    var pending := [OrphanedToolCalls(i, CallIds(ms[i]))];
    assert pending[1..] == [];
  }

  /** One round of the loop over the messages. */
  method ReadMessage(pending: seq<Issue>, messages: seq<Message>, i: nat)
    returns (found: seq<Issue>, pending': seq<Issue>)
    requires ArePending(pending) && i < |messages|
    ensures (found, pending') == Read(pending, messages, i)
  {
    var message := messages[i];
    found, pending' := [], pending;
    match message.role {
      case Assistant =>
        if message.toolCalls.Some? {
          var ids := Ids(message.toolCalls.value);
          if ids != [] {
            pending' := pending' + [OrphanedToolCalls(i, ids)];
          }
        }
      case Tool =>
        if message.toolCallId.Some? {
          pending' := AfterAnswer(pending', message.toolCallId.value);
        }
      case User =>
        found, pending' := pending', [];
      case System =>
    }
  }

  /** What is found and what is pending before message `i` account for every orphaned call. */
  predicate OnTrack(orphaned: seq<Issue>, pending: seq<Issue>, ms: seq<Message>, i: nat)
    requires i <= |ms|
  {
    ArePending(pending) && orphaned + Settled(pending, ms, i) + OrphanedCallsFrom(ms, i) == OrphanedCallsFrom(ms, 0)
  }

  lemma OnTrackStep(orphaned: seq<Issue>, pending: seq<Issue>, ms: seq<Message>, i: nat)
    requires i < |ms| && OnTrack(orphaned, pending, ms, i)
    ensures OnTrack(orphaned + Read(pending, ms, i).0, Read(pending, ms, i).1, ms, i + 1)
  {
    hide Settled, OrphanedCallsFrom, Read;
    ReadKeepsTheCount(pending, ms, i);
    var (found, pending') := Read(pending, ms, i);
    var a, b := Settled(pending', ms, i + 1), OrphanedCallsFrom(ms, i + 1);
    assert orphaned + Settled(pending, ms, i) + OrphanedCallsFrom(ms, i)
        == orphaned + (Settled(pending, ms, i) + OrphanedCallsFrom(ms, i));
    assert orphaned + (found + a + b) == orphaned + found + a + b;
  }

  lemma OnTrackAtEnd(orphaned: seq<Issue>, pending: seq<Issue>, ms: seq<Message>)
    requires OnTrack(orphaned, pending, ms, |ms|)
    ensures orphaned + pending == OrphanedCallsFrom(ms, 0)
  {
    SettledAsIs(pending, ms, |ms|);
  }

  method FindOrphanedToolCalls(messages: seq<Message>) returns (orphaned: seq<Issue>)
    ensures orphaned == OrphanedCallsFrom(messages, 0)
  {
    orphaned := [];
    var pending: seq<Issue> := [];
    assert OnTrack(orphaned, pending, messages, 0);
    for i := 0 to |messages|
      invariant ArePending(pending)
      invariant OnTrack(orphaned, pending, messages, i)
    {
      hide *;
      OnTrackStep(orphaned, pending, messages, i);
      var found;
      found, pending := ReadMessage(pending, messages, i);
      orphaned := orphaned + found;
    }
    OnTrackAtEnd(orphaned, pending, messages);
    orphaned := orphaned + pending;
  }

  method CollectAvailableIds(messages: seq<Message>) returns (available: set<string>)
    ensures forall id :: id in available <==> Available(messages, id)
  {
    available := {};
    for i := 0 to |messages|
      invariant forall id :: id in available <==> exists j :: 0 <= j < i && id in CallIds(messages[j])
    {
      if messages[i].role == Assistant && messages[i].toolCalls.Some? {
        available := available + (set id | id in Ids(messages[i].toolCalls.value));
      }
    }
  }

  method FindOrphanedToolResponses(messages: seq<Message>) returns (orphaned: seq<Issue>)
    ensures orphaned == OrphanedResponsesFrom(messages, 0)
  {
    hide Available;
    var available := CollectAvailableIds(messages);
    orphaned := [];
    for i := 0 to |messages|
      invariant orphaned + OrphanedResponsesFrom(messages, i) == OrphanedResponsesFrom(messages, 0)
    {
      var message := messages[i];
      if message.role == Tool && message.toolCallId.Some? && message.toolCallId.value !in available {
        orphaned := orphaned + [OrphanedToolResponse(i, message.toolCallId.value)];
      }
    }
  }

  method DetectIssues(messages: seq<Message>) returns (issues: seq<Issue>)
    ensures issues == Issues(messages)
  {
    var calls := FindOrphanedToolCalls(messages);
    var responses := FindOrphanedToolResponses(messages);
    issues := calls + responses;
  }

  // ---- Each message has at most one issue, and each issue is listed once ----

  /** The issue of message `i`, if it has one. */
  function IssueAt(ms: seq<Message>, i: nat): Option<Issue>
    requires i < |ms|
  {
    if Unanswered(ms, i) != [] then Some(OrphanedToolCalls(i, Unanswered(ms, i)))
    else if Unmatched(ms, i) then Some(OrphanedToolResponse(i, ms[i].toolCallId.value))
    else None
  }

  predicate Listed(ms: seq<Message>, issue: Issue) {
    issue.messageIndex < |ms| && IssueAt(ms, issue.messageIndex) == Some(issue)
  }

  lemma {:induction false} OrphanedCallsAreIssues(ms: seq<Message>, i: nat)
    requires i <= |ms|
    ensures Unique(OrphanedCallsFrom(ms, i))
    ensures forall issue :: issue in OrphanedCallsFrom(ms, i) <==>
              issue.OrphanedToolCalls? && i <= issue.messageIndex && Listed(ms, issue)
    decreases |ms| - i
  {
    hide Unanswered, Unmatched, Listed;
    if i < |ms| {
      OrphanedCallsAreIssues(ms, i + 1);
    }
    forall issue: Issue
      ensures issue in OrphanedCallsFrom(ms, i)
              <==> issue.OrphanedToolCalls? && i <= issue.messageIndex && Listed(ms, issue)
    {
      ListedCalls(ms, issue);
    }
  }

  lemma ListedCalls(ms: seq<Message>, issue: Issue)
    ensures issue.OrphanedToolCalls? && Listed(ms, issue) <==>
              issue.messageIndex < |ms| && Unanswered(ms, issue.messageIndex) != []
              && issue == OrphanedToolCalls(issue.messageIndex, Unanswered(ms, issue.messageIndex))
  {
    hide Unanswered, Unmatched;
  }

  lemma {:induction false} OrphanedResponsesAreIssues(ms: seq<Message>, i: nat)
    requires i <= |ms|
    ensures Unique(OrphanedResponsesFrom(ms, i))
    ensures forall issue :: issue in OrphanedResponsesFrom(ms, i) <==>
              issue.OrphanedToolResponse? && i <= issue.messageIndex && Listed(ms, issue)
    decreases |ms| - i
  {
    hide Available;
    if i < |ms| {
      OrphanedResponsesAreIssues(ms, i + 1);
      assert IsResult(ms, i) ==> Unanswered(ms, i) == [];
    }
  }

  lemma IssuesAreTheIssues(ms: seq<Message>)
    ensures Unique(Issues(ms))
    ensures forall issue :: issue in Issues(ms) <==> Listed(ms, issue)
  {
    hide Unanswered, Unmatched, IssueAt;
    OrphanedCallsAreIssues(ms, 0);
    OrphanedResponsesAreIssues(ms, 0);
    var calls, responses := OrphanedCallsFrom(ms, 0), OrphanedResponsesFrom(ms, 0);
    forall i, j | 0 <= i < |calls| && 0 <= j < |responses|
      ensures calls[i] != responses[j]
    {
      assert calls[i] in calls && responses[j] in responses;
    }
  }

  /** Nothing is reported exactly when every call is answered in time and every result has its call. */
  lemma NoIssuesIffIssueFree(ms: seq<Message>)
    ensures Issues(ms) == [] <==> IssueFree(ms)
  {
    hide Unanswered, Unmatched, Issues;
    IssuesAreTheIssues(ms);
    if Issues(ms) != [] {
      assert Issues(ms)[0] in Issues(ms);
    }
    if !IssueFree(ms) {
      var i :| 0 <= i < |ms| && (Unanswered(ms, i) != [] || Unmatched(ms, i));
      assert IssueAt(ms, i).value in Issues(ms);
    }
  }

  // ---- Repairing ----

  /** Content cut to `maxLen` bytes, on a character boundary, with an ellipsis. */
  function Shortened(s: seq<byte>, maxLen: nat): seq<byte>
    requires maxLen >= 5
  {
    if |s| <= maxLen then s else s[..Floor(s, maxLen - 5)] + Ascii(" ...")
  }

  method TruncateWithEllipsis(s: seq<byte>, maxLen: nat) returns (r: seq<byte>)
    requires maxLen >= 5
    ensures r == Shortened(s, maxLen)
  {
    if |s| <= maxLen {
      return s;
    }
    var end := RetreatToBoundary(s, maxLen - 5, 0);
    r := s[..end] + Ascii(" ...");
  }

  /** A shortened string is still one, fits, and keeps all but the last few bytes that fit. */
  lemma ShortenedFits(s: seq<byte>, maxLen: nat)
    requires WellFormed(s) && maxLen >= 5
    ensures WellFormed(Shortened(s, maxLen)) && |Shortened(s, maxLen)| <= maxLen
    ensures |s| > maxLen ==>
            maxLen - 8 <= |Shortened(s, maxLen)| - 4 && Shortened(s, maxLen)[..|Shortened(s, maxLen)| - 4] <= s
  {
    hide WellFormed, Floor;
    if |s| > maxLen {
      var end := Floor(s, maxLen - 5);
      FloorIsNear(s, maxLen - 5);
      CutAtBoundary(s, end);
      ConcatIsWellFormed(s[..end], Ascii(" ..."));
      assert (s[..end] + Ascii(" ..."))[..end] == s[..end];
    }
  }

  /** The result given for a call that was never answered. */
  function SyntheticResult(id: string): Message {
    Message(Tool, Ascii("[Tool execution was interrupted or failed - continuing conversation]"), Some(id), None)
  }

  function SyntheticResults(ids: seq<string>): (rs: seq<Message>)
    ensures |rs| == |ids|
  {
    seq(|ids|, k requires 0 <= k < |ids| => SyntheticResult(ids[k]))
  }

  /** What becomes of a result that answers no call. */
  function Converted(m: Message): Message {
    Plain(System, Ascii("Previous tool result: ") + Shortened(m.content, 2000))
  }

  /** What stands for message `i` in the repaired list. */
  function Piece(ms: seq<Message>, i: nat): seq<Message>
    requires i < |ms|
  {
    if Unmatched(ms, i) then [Converted(ms[i])] else [ms[i]] + SyntheticResults(Unanswered(ms, i))
  }

  function RepairedFrom(ms: seq<Message>, i: nat): seq<Message>
    requires i <= |ms|
    decreases |ms| - i
  {
    if i == |ms| then [] else Piece(ms, i) + RepairedFrom(ms, i + 1)
  }

  function Repaired(ms: seq<Message>): seq<Message> {
    RepairedFrom(ms, 0)
  }

  function InvalidIndex<T>(): Result<T> {
    Err(ValidationError(Ascii("Invalid message index in validation issue")))
  }

  /** The list with one issue fixed in place. */
  function Fixed(ms: seq<Message>, issue: Issue): Result<seq<Message>> {
    var i := issue.messageIndex;
    if i >= |ms| then InvalidIndex()
    else match issue
      case OrphanedToolCalls(_, ids) => Ok(ms[..i + 1] + SyntheticResults(ids) + ms[i + 1..])
      case OrphanedToolResponse(_, _) => Ok(ms[i := Converted(ms[i])])
  }

  function AllFixed(ms: seq<Message>, issues: seq<Issue>): Result<seq<Message>>
    decreases |issues|
  {
    if issues == [] then Ok(ms)
    else match Fixed(ms, issues[0])
      case Err(e) => Err(e)
      case Ok(ms') => AllFixed(ms', issues[1..])
  }

  method FixOrphanedToolCalls(messages: seq<Message>, issue: Issue) returns (r: Result<seq<Message>>)
    requires issue.OrphanedToolCalls?
    ensures r == Fixed(messages, issue)
  {
    if issue.messageIndex >= |messages| {
      return InvalidIndex();
    }
    var ids := issue.toolCallIds;
    var insertIndex := issue.messageIndex + 1;
    var fixed := messages;
    for i := 0 to |ids|
      invariant fixed == messages[..insertIndex] + SyntheticResults(ids)[..i] + messages[insertIndex..]
    {
      fixed := fixed[..insertIndex + i] + [SyntheticResult(ids[i])] + fixed[insertIndex + i..];
    }
    assert SyntheticResults(ids)[..|ids|] == SyntheticResults(ids);
    r := Ok(fixed);
  }

  method FixOrphanedToolResponse(messages: seq<Message>, issue: Issue) returns (r: Result<seq<Message>>)
    requires issue.OrphanedToolResponse?
    ensures r == Fixed(messages, issue)
  {
    if issue.messageIndex >= |messages| {
      return InvalidIndex();
    }
    var truncated := TruncateWithEllipsis(messages[issue.messageIndex].content, 2000);
    r := Ok(messages[issue.messageIndex := Plain(System, Ascii("Previous tool result: ") + truncated)]);
  }

  predicate LaterFirst(a: Issue, b: Issue) {
    a.messageIndex >= b.messageIndex
  }

  method FixIssues(messages: seq<Message>, issues: seq<Issue>) returns (r: Result<seq<Message>>)
    ensures r == AllFixed(messages, Sort(issues, LaterFirst))
  {
    var sorted := Sort(issues, LaterFirst);
    var fixed := messages;
    for k := 0 to |sorted|
      invariant AllFixed(fixed, sorted[k..]) == AllFixed(messages, sorted)
    {
      var step;
      match sorted[k] {
        case OrphanedToolCalls(_, _) => step := FixOrphanedToolCalls(fixed, sorted[k]);
        case OrphanedToolResponse(_, _) => step := FixOrphanedToolResponse(fixed, sorted[k]);
      }
      if step.Err? {
        return step;
      }
      fixed := step.value;
      assert sorted[k..][1..] == sorted[k + 1..];
    }
    r := Ok(fixed);
  }

  /** What validating a list comes to. */
  function Validated(autoFix: bool, ms: seq<Message>): Result<seq<Message>> {
    if Issues(ms) == [] then Ok(ms)
    else if autoFix then AllFixed(ms, Sort(Issues(ms), LaterFirst))
    else Err(ValidationError(Ascii("Message validation failed")))
  }

  datatype MessageValidator = MessageValidator(autoFix: bool) {

    /** Validate a list of messages, and repair it if asked to. */
    method ValidateAndFix(messages: seq<Message>) returns (r: Result<seq<Message>>)
      ensures r == Validated(autoFix, messages)
    {
      var issues := DetectIssues(messages);
      if issues == [] {
        return Ok(messages);
      }
      if autoFix {
        r := FixIssues(messages, issues);
      } else {
        r := Err(ValidationError(Ascii("Message validation failed")));
      }
    }
  }
}
