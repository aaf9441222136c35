/** What the truncating wrapper around the recovering wrapper promises about every run, whatever the
    base LLM replies. */
module StackLaws {
  import opened AutoRecovery
  import opened ContextTruncation
  import opened Messages
  import opened MessageValidation
  import opened RecoveryLaws
  import opened RepairLaws
  import opened Utf8

  // ---- What one call of the inner LLM, and a row of them, does to the logs ----

  /** The logs only grow; the base LLM got at most `1 + retries` requests for each one the wrapper
      was asked, and none of them has an issue exactly if repair is automatic or none of these had. */
  predicate Grown(s: Settings, logs: Logs, logs': Logs) {
    && logs.base <= logs'.base && logs.inner <= logs'.inner
    && |logs'.base| - |logs.base| <= (1 + s.maxRetries) * (|logs'.inner| - |logs.inner|)
    && (AllIssueFree(logs'.base[|logs.base|..]) <==> s.validator.autoFix || AllIssueFree(logs'.inner[|logs.inner|..]))
  }

  lemma GrownNot(s: Settings, logs: Logs)
    ensures Grown(s, logs, logs)
  {
  }

  lemma GrownTwice(s: Settings, a: Logs, b: Logs, c: Logs)
    requires Grown(s, a, b) && Grown(s, b, c)
    ensures Grown(s, a, c)
  {
    hide AllIssueFree;
    assert c.base[|a.base|..] == b.base[|a.base|..] + c.base[|b.base|..];
    assert c.inner[|a.inner|..] == b.inner[|a.inner|..] + c.inner[|b.inner|..];
    AllIssueFreeConcat(b.base[|a.base|..], c.base[|b.base|..]);
    AllIssueFreeConcat(b.inner[|a.inner|..], c.inner[|b.inner|..]);
    var m, x, y := 1 + s.maxRetries, |b.inner| - |a.inner|, |c.inner| - |b.inner|;
    Distributes(m, x, y);
    assert |c.base| - |a.base| <= m * x + m * y;
  }

  lemma Distributes(m: int, x: int, y: int)
    ensures m * x + m * y == m * (x + y)
  {
  }

  lemma AllIssueFreeConcat(a: seq<Request>, b: seq<Request>)
    ensures AllIssueFree(a + b) <==> AllIssueFree(a) && AllIssueFree(b)
  {
    hide IssueFree;
    if AllIssueFree(a + b) {
      assert forall i :: 0 <= i < |a| ==> a[i] == (a + b)[i];
      assert forall i :: 0 <= i < |b| ==> b[i] == (a + b)[|a| + i];
    }
  }

  lemma AskedGrows(l: Limits, s: Settings, oracle: Oracle, logs: Logs, request: Request)
    ensures var logs' := l.Asked(s, oracle, logs, request).0;
            Grown(s, logs, logs') && logs'.inner == logs.inner + [request]
  {
    hide IssueFree, Settings.Generated;
    GenerateIsSafe(s, oracle, logs.base, request.messages, request.tools);
    assert (logs.inner + [request])[|logs.inner|..] == [request];
    assert AllIssueFree([request]) <==> IssueFree([request][0].messages);
  }

  // ---- Summarising long results ----

  /** `b` is `a`, or a tool result with shorter content. */
  predicate Shortens(a: Message, b: Message) {
    b == a || (a.role == Tool && b == a.(content := b.content) && |b.content| < |a.content|)
  }

  predicate AllShorten(ms: seq<Message>, ms': seq<Message>) {
    |ms| == |ms'| && forall i :: 0 <= i < |ms| ==> Shortens(ms[i], ms'[i])
  }

  function CountTools(ms: seq<Message>): nat {
    if ms == [] then 0 else CountTools(ms[..|ms| - 1]) + (if ms[|ms| - 1].role == Tool then 1 else 0)
  }

  /** A request for a summary of some content. */
  ghost predicate AsksForSummary(request: Request) {
    exists content :: request == Request(SummaryPrompt(content), None)
  }

  ghost predicate AllAskForSummary(requests: seq<Request>) {
    forall k :: 0 <= k < |requests| ==> AsksForSummary(requests[k])
  }

  lemma SummaryPromptAsks(content: seq<byte>)
    ensures AsksForSummary(Request(SummaryPrompt(content), None))
  {
    hide SummaryPrompt;
  }

  /** Summarising shortens tool results and touches nothing else, asks only for summaries, and at most
      once for each tool result. */
  lemma {:induction false} SummarisedShortens(l: Limits, s: Settings, oracle: Oracle, logs: Logs, ms: seq<Message>,
                                              n: nat)
    requires n <= |ms|
    ensures var (logs', done) := l.Summarised(s, oracle, logs, ms, n);
            && AllShorten(ms, done) && done[n..] == ms[n..]
            && Grown(s, logs, logs')
            && |logs'.inner| <= |logs.inner| + CountTools(ms[..n])
            && AllAskForSummary(logs'.inner[|logs.inner|..])
  {
    hide SummaryPrompt, SummaryOf, Settings.Generated, AllIssueFree, AsksForSummary, Limits.Asked;
    if n == 0 {
      GrownNot(s, logs);
    } else {
      SummarisedShortens(l, s, oracle, logs, ms, n - 1);
      var (before, done) := l.Summarised(s, oracle, logs, ms, n - 1);
      assert ms[..n][..n - 1] == ms[..n - 1];
      assert done[n - 1] == done[n - 1..][0] == ms[n - 1];
      if ms[n - 1].role == Tool && l.IsLong(ms[n - 1].content) {
        var request := Request(SummaryPrompt(ms[n - 1].content), None);
        SummaryPromptAsks(ms[n - 1].content);
        AskedGrows(l, s, oracle, before, request);
        GrownTwice(s, logs, before, l.Asked(s, oracle, before, request).0);
        AskedMore(logs.inner, before.inner, request);
      }
    }
  }

  lemma AskedMore(before: seq<Request>, after: seq<Request>, request: Request)
    requires before <= after && AllAskForSummary(after[|before|..]) && AsksForSummary(request)
    ensures AllAskForSummary((after + [request])[|before|..])
  {
    hide AsksForSummary;
    assert (after + [request])[|before|..] == after[|before|..] + [request];
  }

  lemma {:induction false} ShortenedCount(ms: seq<Message>, ms': seq<Message>)
    requires AllShorten(ms, ms')
    ensures CountTools(ms) == CountTools(ms')
  {
    if ms != [] {
      ShortenedCount(ms[..|ms| - 1], ms'[..|ms| - 1]);
    }
  }

  // ---- What truncation leaves of the original list ----

  ghost predicate IsNotice(m: Message) {
    exists removed: nat :: m == TruncationNotice(removed)
  }

  lemma NoticesAreNotices(removed: nat)
    ensures IsNotice(TruncationNotice(removed)) && TruncationNotice(removed).role == System
  {
    hide Decimal;
  }

  /** `current` is the leading system message of `original`, `n` truncation notices, and everything
      from message `k` of `original` on, in order, with some tool results shortened. */
  ghost predicate Keeps(original: seq<Message>, current: seq<Message>, n: nat, k: nat) {
    var lead := |Lead(original)|;
    && lead <= k <= |original| && |current| == lead + n + |original| - k
    && (forall i :: 0 <= i < lead ==> current[i] == original[i])
    && (forall i :: lead <= i < lead + n ==> IsNotice(current[i]) && current[i].role == System)
    && (forall i :: lead + n <= i < |current| ==> Shortens(original[i - lead - n + k], current[i]))
  }

  /** What every round preserves: at most two notices, one if there is a leading system message, and
      the newest message is still there. */
  ghost predicate Shape(original: seq<Message>, current: seq<Message>, n: nat, k: nat) {
    var lead := |Lead(original)|;
    && Keeps(original, current, n, k)
    && n + lead <= 2
    && (n == 0 ==> k == lead)
    && (lead < |original| ==> k < |original|)
    && (lead == |original| ==> n == 0)
  }

  lemma ShapeAtFirst(ms: seq<Message>)
    ensures Shape(ms, ms, 0, |Lead(ms)|)
  {
  }

  lemma ShortenedKeepsShape(original: seq<Message>, ms: seq<Message>, ms': seq<Message>, n: nat, k: nat)
    requires Shape(original, ms, n, k) && AllShorten(ms, ms')
    ensures Shape(original, ms', n, k)
  {
    hide IsNotice;
    var lead := |Lead(original)|;
    forall i | 0 <= i < |ms|
      ensures i < lead + n ==> ms'[i] == ms[i]
      ensures i >= lead + n ==> Shortens(original[i - lead - n + k], ms'[i])
    {
      assert Shortens(ms[i], ms'[i]);
    }
  }

  /** One truncation keeps the leading system message and a suffix of the rest with the newest message
      in it, behind one notice. */
  lemma TruncatedParts(ms: seq<Message>, factor: real) returns (drop: nat)
    requires factor > 0.0 && |Lead(ms)| < |ms|
    ensures |Lead(ms)| <= drop < |ms| && (drop == |ms| - 1 || drop > |Lead(ms)|)
    ensures exists removed: nat ::
              removed > 0 && Truncated(ms, factor) == Lead(ms) + [TruncationNotice(removed)] + ms[drop..]
  {
    hide TruncationNotice, Removals;
    var lead := |Lead(ms)|;
    var removed := Removals(|ms| - lead, factor);
    assert removed > 0 by { RemovalsRound(|ms| - lead, factor); }
    drop := if removed < |ms| - lead then lead + removed else |ms| - 1;
    assert MostRecent(ms[lead..], removed) == ms[drop..];
    assert Truncated(ms, factor) == Lead(ms) + [TruncationNotice(removed)] + ms[drop..];
  }

  /** How many of `n` messages are kept when `c` are to go: at least one, if there is one. */
  function Kept(n: nat, c: nat): nat {
    if n == 0 then 0 else if n > c then n - c else 1
  }

  lemma MostRecentIsKept(rest: seq<Message>, c: nat)
    requires rest == [] ==> c == 0
    ensures MostRecent(rest, c) == rest[|rest| - Kept(|rest|, c)..]
  {
  }

  /** `c` is the part `factor` of `n`, rounded up. */
  predicate IsPart(c: nat, n: nat, factor: real) {
    n as real * factor <= c as real < n as real * factor + 1.0
  }

  lemma RemovalsIsPart(n: nat, factor: real)
    requires factor >= 0.0
    ensures IsPart(Removals(n, factor), n, factor)
  {
    RemovalsRound(n, factor);
  }

  /** The truncated list when `c` messages are to go. */
  lemma TruncatedBy(ms: seq<Message>, factor: real, c: nat)
    requires factor >= 0.0 && c == Removals(|ms| - |Lead(ms)|, factor) && (|ms| == |Lead(ms)| ==> c == 0)
    ensures Truncated(ms, factor)
            == Lead(ms) + (if c > 0 then [TruncationNotice(c)] else []) + ms[|ms| - Kept(|ms| - |Lead(ms)|, c)..]
  {
    hide TruncationNotice, Removals, MostRecent, Kept, Lead;
    var front := |Lead(ms)|;
    MostRecentIsKept(ms[front..], c);
    KeptIsSome(|ms| - front, c);
    assert ms[front..][|ms| - front - Kept(|ms| - front, c)..] == ms[|ms| - Kept(|ms| - front, c)..];
  }

  /** One truncation, exactly. Of the `n` messages after the leading system message the part `factor`,
      rounded up, is to go, and the notice says that number; as many of the last are kept as that
      leaves, but at least one. */
  lemma TruncatedExactly(ms: seq<Message>, factor: real) returns (c: nat)
    requires factor >= 0.0
    ensures var front := if ms != [] && ms[0].role == System then 1 else 0;
            var n := |ms| - front;
            && IsPart(c, n, factor)
            && Truncated(ms, factor)
               == ms[..front] + (if c > 0 then [TruncationNotice(c)] else []) + ms[|ms| - Kept(n, c)..]
  {
    hide TruncationNotice, Removals, Truncated, Kept, IsPart;
    c := Removals(|ms| - |Lead(ms)|, factor);
    RemovalsIsPart(|ms| - |Lead(ms)|, factor);
    NoneToRemove(factor);
    TruncatedBy(ms, factor, c);
    assert Lead(ms) == ms[..|Lead(ms)|];
  }

  lemma NoneToRemove(factor: real)
    requires factor >= 0.0
    ensures Removals(0, factor) == 0
  {
  }

  lemma KeptIsSome(n: nat, c: nat)
    ensures Kept(n, c) <= n
  {
  }

  /** So a list gets shorter exactly if at least two messages are to go and there are at least three. */
  lemma TruncationShortensIff(ms: seq<Message>, factor: real) returns (c: nat)
    requires factor >= 0.0
    ensures var n := if ms != [] && ms[0].role == System then |ms| - 1 else |ms|;
            IsPart(c, n, factor) && (|Truncated(ms, factor)| < |ms| <==> c >= 2 && n >= 3)
  {
    hide Truncated, TruncationNotice, IsPart, Kept;
    var n := if ms != [] && ms[0].role == System then |ms| - 1 else |ms|;
    c := TruncatedExactly(ms, factor);
    KeptIsSome(n, c);
    TruncatedSize(|ms| - n, n, c);
  }

  lemma TruncatedSize(front: nat, n: nat, c: nat)
    ensures front + (if c > 0 then 1 else 0) + Kept(n, c) < front + n <==> c >= 2 && n >= 3
  {
  }

  /** One truncation never makes the list longer, except to three messages. */
  lemma TruncatedLength(ms: seq<Message>, factor: real)
    requires factor > 0.0
    ensures |Truncated(ms, factor)| <= |ms| || |Truncated(ms, factor)| == |Lead(ms)| + 2
  {
    hide TruncationNotice, Removals;
    if |Lead(ms)| < |ms| {
      var drop := TruncatedParts(ms, factor);
    } else {
      RemovalsRound(0, factor);
    }
  }

  /** A list of this shape has a leading system message as soon as the original has one or there is a
      notice. */
  lemma LeadOfShape(original: seq<Message>, ms: seq<Message>, n: nat, k: nat)
    requires Shape(original, ms, n, k)
    ensures |Lead(ms)| == (if |Lead(original)| == 0 && n == 0 then 0 else 1)
  {
    hide IsNotice;
    if |Lead(original)| == 0 && n == 0 && ms != [] {
      assert Shortens(original[0], ms[0]);
    }
  }

  lemma DroppedKeeps(original: seq<Message>, ms: seq<Message>, n: nat, k: nat, drop: nat, notice: Message)
    requires Keeps(original, ms, n, k) && IsNotice(notice) && notice.role == System
    requires |Lead(original)| <= |Lead(ms)| <= |Lead(original)| + n <= drop <= |ms|
    ensures Keeps(original, Lead(ms) + [notice] + ms[drop..], |Lead(ms)| - |Lead(original)| + 1,
            drop - |Lead(original)| - n + k)
  {
    hide IsNotice;
    var lead := |Lead(original)|;
    var current := Lead(ms) + [notice] + ms[drop..];
    forall i | |Lead(ms)| + 1 <= i < |current|
      ensures Shortens(original[i - |Lead(ms)| - 1 + drop - lead - n + k], current[i])
    {
      assert current[i] == ms[i - |Lead(ms)| - 1 + drop];
    }
  }

  lemma TruncatedKeepsShape(original: seq<Message>, ms: seq<Message>, factor: real, n: nat, k: nat)
    returns (n': nat, k': nat)
    requires factor > 0.0 && Shape(original, ms, n, k)
    ensures Shape(original, Truncated(ms, factor), n', k') && k <= k'
  {
    hide TruncationNotice, IsNotice, Truncated, Lead;
    LeadOfShape(original, ms, n, k);
    if |Lead(ms)| == |ms| {
      NothingToTruncate(ms, factor);
      n', k' := n, k;
    } else {
      var drop := TruncatedParts(ms, factor);
      var removed: nat :| removed > 0 && Truncated(ms, factor) == Lead(ms) + [TruncationNotice(removed)] + ms[drop..];
      NoticesAreNotices(removed);
      DroppedKeeps(original, ms, n, k, drop, TruncationNotice(removed));
      n', k' := |Lead(ms)| - |Lead(original)| + 1, drop - |Lead(original)| - n + k;
    }
  }

  lemma NothingToTruncate(ms: seq<Message>, factor: real)
    requires factor > 0.0 && |Lead(ms)| == |ms|
    ensures Truncated(ms, factor) == ms
  {
    hide TruncationNotice, Removals;
    RemovalsRound(0, factor);
  }

  lemma {:induction false} CountToolsConcat(a: seq<Message>, b: seq<Message>)
    ensures CountTools(a + b) == CountTools(a) + CountTools(b)
    decreases |b|
  {
    if b == [] {
      assert a + b == a;
    } else {
      CountToolsConcat(a, b[..|b| - 1]);
      assert (a + b)[..|a + b| - 1] == a + b[..|b| - 1];
    }
  }

  /** Truncation adds no tool message. */
  lemma TruncatedCount(ms: seq<Message>, factor: real)
    requires factor > 0.0
    ensures CountTools(Truncated(ms, factor)) <= CountTools(ms)
  {
    hide TruncationNotice, Truncated, IsNotice, CountTools, Lead;
    if |Lead(ms)| == |ms| {
      NothingToTruncate(ms, factor);
    } else {
      var drop := TruncatedParts(ms, factor);
      var removed: nat :| removed > 0 && Truncated(ms, factor) == Lead(ms) + [TruncationNotice(removed)] + ms[drop..];
      NoticesAreNotices(removed);
      CountToolsConcat(Lead(ms) + [TruncationNotice(removed)], ms[drop..]);
      CountToolsConcat(ms[..drop], ms[drop..]);
      assert ms[..drop] + ms[drop..] == ms;
      NoToolsInFront(ms, TruncationNotice(removed));
    }
  }

  lemma NoToolsInFront(ms: seq<Message>, notice: Message)
    requires notice.role == System
    ensures CountTools(Lead(ms) + [notice]) == 0
  {
    hide CountTools;
    CountToolsConcat(Lead(ms), [notice]);
    CountToolsOne(notice);
    if Lead(ms) != [] {
      CountToolsOne(ms[0]);
    } else {
      assert [] + [notice] == [notice];
    }
  }

  lemma CountToolsOne(m: Message)
    ensures CountTools([m]) == if m.role == Tool then 1 else 0
  {
  }

  // ---- Which results are summarised ----

  /** The places among the first `n` of the tool results with more than the threshold of tokens. */
  function LongPlaces(l: Limits, ms: seq<Message>, n: nat): set<nat>
    requires n <= |ms|
  {
    set i: nat | i < n && ms[i].role == Tool && |ms[i].content| / 4 > l.summarizationThreshold
  }

  lemma LongPlacesStep(l: Limits, ms: seq<Message>, n: nat)
    requires n < |ms|
    ensures var long := ms[n].role == Tool && |ms[n].content| / 4 > l.summarizationThreshold;
            && LongPlaces(l, ms, n + 1) == (if long then LongPlaces(l, ms, n) + {n} else LongPlaces(l, ms, n))
            && |LongPlaces(l, ms, n + 1)| == |LongPlaces(l, ms, n)| + (if long then 1 else 0)
  {
    var places := LongPlaces(l, ms, n);
    var long := ms[n].role == Tool && |ms[n].content| / 4 > l.summarizationThreshold;
    assert LongPlaces(l, ms, n + 1) == if long then places + {n} else places;
  }

  /** `b` is `a`, or has the summary in a reply for its content if that is shorter. */
  ghost predicate IsSummaryOf(a: Message, b: Message) {
    exists reply: Result<Response> ::
      b == if |SummaryOf(reply)| < |a.content| then a.(content := SummaryOf(reply)) else a
  }

  /** One request for each long place, in order, for just its content. */
  ghost predicate AsksForEach(l: Limits, ms: seq<Message>, n: nat, requests: seq<Request>)
    requires n <= |ms|
  {
    && |requests| == |LongPlaces(l, ms, n)|
    && forall i :: i in LongPlaces(l, ms, n) ==>
         |LongPlaces(l, ms, i)| < |requests|
             && requests[|LongPlaces(l, ms, i)|] == Request(SummaryPrompt(ms[i].content), None)
  }

  /** The long results among the first `n` have their summaries, and everything else is left alone. */
  ghost predicate HasSummaries(l: Limits, ms: seq<Message>, n: nat, done: seq<Message>)
    requires n <= |ms|
  {
    |done| == |ms| &&
    forall i :: 0 <= i < |ms| ==> if i in LongPlaces(l, ms, n) then IsSummaryOf(ms[i], done[i]) else done[i] == ms[i]
  }

  lemma AsksForOneMore(l: Limits, ms: seq<Message>, n: nat, requests: seq<Request>)
    requires n < |ms| && AsksForEach(l, ms, n, requests)
    ensures if ms[n].role == Tool && |ms[n].content| / 4 > l.summarizationThreshold
            then AsksForEach(l, ms, n + 1, requests + [Request(SummaryPrompt(ms[n].content), None)])
            else AsksForEach(l, ms, n + 1, requests)
  {
    hide SummaryPrompt;
    LongPlacesStep(l, ms, n);
    LongPlacesBelow(l, ms, n);
  }

  lemma LongPlacesBelow(l: Limits, ms: seq<Message>, n: nat)
    requires n <= |ms|
    ensures forall i :: i in LongPlaces(l, ms, n) ==> i < n
  {
  }

  lemma HasOneMoreSummary(l: Limits, ms: seq<Message>, n: nat, done: seq<Message>, done': seq<Message>)
    requires n < |ms| && HasSummaries(l, ms, n, done) && |done'| == |ms| && done' == done[n := done'[n]]
    requires var long := ms[n].role == Tool && |ms[n].content| / 4 > l.summarizationThreshold;
             if long then IsSummaryOf(ms[n], done'[n]) else done'[n] == ms[n]
    ensures HasSummaries(l, ms, n + 1, done')
  {
    hide IsSummaryOf;
    LongPlacesStep(l, ms, n);
    LongPlacesBelow(l, ms, n);
  }

  lemma NoLongPlaces(l: Limits, ms: seq<Message>)
    ensures AsksForEach(l, ms, 0, []) && HasSummaries(l, ms, 0, ms)
  {
    assert LongPlaces(l, ms, 0) == {};
  }

  /** Exactly the long tool results are summarised: one request for each, in order, for just its content;
      everything else is left alone. */
  lemma {:induction false} SummarisedExactly(l: Limits, s: Settings, oracle: Oracle, logs: Logs, ms: seq<Message>,
                                             n: nat)
    requires n <= |ms|
    ensures var (logs', done) := l.Summarised(s, oracle, logs, ms, n);
            && logs.inner <= logs'.inner && AsksForEach(l, ms, n, logs'.inner[|logs.inner|..])
            && HasSummaries(l, ms, n, done)
  {
    hide SummaryPrompt, SummaryOf, Settings.Generated, IsSummaryOf, AsksForEach, HasSummaries;
    if n == 0 {
      NoLongPlaces(l, ms);
      assert logs.inner[|logs.inner|..] == [];
    } else {
      SummarisedExactly(l, s, oracle, logs, ms, n - 1);
      var (before, done) := l.Summarised(s, oracle, logs, ms, n - 1);
      var (after, done') := l.Summarised(s, oracle, logs, ms, n);
      AsksForOneMore(l, ms, n - 1, before.inner[|logs.inner|..]);
      UntouchedYet(l, ms, n - 1, done);
      if ms[n - 1].role == Tool && l.IsLong(ms[n - 1].content) {
        var request := Request(SummaryPrompt(ms[n - 1].content), None);
        RepliesAreSummaries(ms[n - 1], l.Asked(s, oracle, before, request).1);
        assert after.inner[|logs.inner|..] == before.inner[|logs.inner|..] + [request];
      }
      HasOneMoreSummary(l, ms, n - 1, done, done');
    }
  }

  lemma UntouchedYet(l: Limits, ms: seq<Message>, n: nat, done: seq<Message>)
    requires n < |ms| && HasSummaries(l, ms, n, done)
    ensures |done| == |ms| && done[n] == ms[n] && done == done[n := ms[n]]
  {
    hide IsSummaryOf;
    LongPlacesBelow(l, ms, n);
  }

  lemma RepliesAreSummaries(m: Message, reply: Result<Response>)
    ensures IsSummaryOf(m, if |SummaryOf(reply)| < |m.content| then m.(content := SummaryOf(reply)) else m)
  {
    hide SummaryOf;
  }

  // ---- Whole runs ----

  /** A request for the conversation: the caller's tools, and what is left of the caller's messages. */
  ghost predicate Continues(original: Request, request: Request) {
    && request.tools == original.tools
    && (|request.messages| <= |original.messages| || |request.messages| <= 3)
    && (exists n: nat, k: nat :: Shape(original.messages, request.messages, n, k))
  }

  ghost predicate AllContinueOrSummarise(original: Request, requests: seq<Request>) {
    forall i :: 0 <= i < |requests| ==> Continues(original, requests[i]) || AsksForSummary(requests[i])
  }

  /** One round of shortening, from the logs before to the logs after. */
  lemma ShrunkIsSafe(l: Limits, s: Settings, oracle: Oracle, logs: Logs, original: Request, ms: seq<Message>,
                     factor: real)
    requires factor > 0.0 && Continues(original, Request(ms, original.tools))
    ensures var (logs', shorter) := l.Shrunk(s, oracle, logs, ms, factor);
            && Grown(s, logs, logs')
            && |logs'.inner| <= |logs.inner| + CountTools(ms) && CountTools(shorter) <= CountTools(ms)
            && AllAskForSummary(logs'.inner[|logs.inner|..])
            && Continues(original, Request(shorter, original.tools))
  {
    hide AllIssueFree, Limits.Summarised, Truncated, AsksForSummary, Shape, CountTools, Lead;
    if |ms| <= l.minMessages {
      GrownNot(s, logs);
    } else {
      SummarisedShortens(l, s, oracle, logs, ms, |ms|);
      assert ms[..|ms|] == ms;
      var done := l.Summarised(s, oracle, logs, ms, |ms|).1;
      ShortenedCount(ms, done);
      TruncatedCount(done, factor);
      TruncatedLength(done, factor);
      var n: nat, k: nat :| Shape(original.messages, ms, n, k);
      ShortenedKeepsShape(original.messages, ms, done, n, k);
      var n', k' := TruncatedKeepsShape(original.messages, done, factor, n, k);
    }
  }

  /** A stretch of a run: the logs grow as they should, by at most `budget` requests to the recovering
      wrapper, each of which continues the conversation or asks for a summary. */
  ghost predicate SafeStretch(s: Settings, original: Request, logs: Logs, logs': Logs, budget: nat) {
    && Grown(s, logs, logs')
    && |logs'.inner| <= |logs.inner| + budget
    && AllContinueOrSummarise(original, logs'.inner[|logs.inner|..])
  }

  lemma SafeTwice(s: Settings, original: Request, a: Logs, b: Logs, c: Logs, x: nat, y: nat)
    requires SafeStretch(s, original, a, b, x) && SafeStretch(s, original, b, c, y)
    ensures SafeStretch(s, original, a, c, x + y)
  {
    hide AllIssueFree, Continues, AsksForSummary;
    GrownTwice(s, a, b, c);
    assert c.inner[|a.inner|..] == b.inner[|a.inner|..] + c.inner[|b.inner|..];
  }

  lemma AskedIsSafe(l: Limits, s: Settings, oracle: Oracle, logs: Logs, original: Request, ms: seq<Message>)
    requires Continues(original, Request(ms, original.tools))
    ensures SafeStretch(s, original, logs, l.Asked(s, oracle, logs, Request(ms, original.tools)).0, 1)
  {
    hide AllIssueFree, Continues, AsksForSummary, Limits.Asked;
    AskedGrows(l, s, oracle, logs, Request(ms, original.tools));
  }

  /** How many requests the attempts from `attempt` on may make of the recovering wrapper: one each, and
      one for each tool message in each round of shortening between them. */
  function Budget(rounds: nat, tools: nat): nat {
    rounds + 1 + rounds * tools
  }

  lemma BudgetStep(rounds: nat, tools: nat, fewer: nat)
    requires fewer <= tools
    ensures 1 + tools + Budget(rounds, fewer) <= Budget(rounds + 1, tools)
  {
    assert rounds * fewer <= rounds * tools;
    assert (rounds + 1) * tools == rounds * tools + tools;
  }

  lemma SafeWithin(s: Settings, original: Request, a: Logs, b: Logs, x: nat, y: nat)
    requires SafeStretch(s, original, a, b, x) && x <= y
    ensures SafeStretch(s, original, a, b, y)
  {
  }

  lemma {:induction false} RetryingIsSafe(l: Limits, s: Settings, oracle: Oracle, logs: Logs, original: Request,
                                          ms: seq<Message>, factor: real, attempt: nat)
    requires factor > 0.0 && attempt <= l.maxRetries && Continues(original, Request(ms, original.tools))
    ensures SafeStretch(s, original, logs, l.Retrying(s, oracle, logs, ms, original.tools, factor, attempt).0,
                        Budget(l.maxRetries - attempt, CountTools(ms)))
    decreases l.maxRetries - attempt
  {
    hide SafeStretch, Grown, AllAskForSummary, Budget, Limits.Shrunk, Limits.Asked, Continues, CountTools,
         IsContextOrRateLimitError, FailedAfter;
    var (asked, reply) := l.Asked(s, oracle, logs, Request(ms, original.tools));
    AskedIsSafe(l, s, oracle, logs, original, ms);
    AtLeastOne(l.maxRetries - attempt, CountTools(ms));
    if reply.Err? && IsContextOrRateLimitError(reply.error) && attempt < l.maxRetries {
      var rounds := l.maxRetries - attempt - 1;
      ShrunkIsSafe(l, s, oracle, asked, original, ms, factor);
      var (after, shorter) := l.Shrunk(s, oracle, asked, ms, factor);
      ShrunkStretch(s, original, asked, after, CountTools(ms));
      SafeTwice(s, original, logs, asked, after, 1, CountTools(ms));
      BudgetStep(rounds, CountTools(ms), CountTools(shorter));
      if |shorter| > l.minMessages {
        RetryingIsSafe(l, s, oracle, after, original, shorter, l.NextFactor(factor), attempt + 1);
        var logs' := l.Retrying(s, oracle, after, shorter, original.tools, l.NextFactor(factor), attempt + 1).0;
        SafeTwice(s, original, logs, after, logs', 1 + CountTools(ms), Budget(rounds, CountTools(shorter)));
        SafeWithin(s, original, logs, logs', 1 + CountTools(ms) + Budget(rounds, CountTools(shorter)),
                   Budget(rounds + 1, CountTools(ms)));
      } else {
        SafeWithin(s, original, logs, after, 1 + CountTools(ms), Budget(rounds + 1, CountTools(ms)));
      }
    } else {
      SafeWithin(s, original, logs, asked, 1, Budget(l.maxRetries - attempt, CountTools(ms)));
    }
  }

  lemma AtLeastOne(rounds: nat, tools: nat)
    ensures Budget(rounds, tools) >= 1
  {
  }

  lemma ShrunkStretch(s: Settings, original: Request, logs: Logs, logs': Logs, tools: nat)
    requires Grown(s, logs, logs') && |logs'.inner| <= |logs.inner| + tools
    requires AllAskForSummary(logs'.inner[|logs.inner|..])
    ensures SafeStretch(s, original, logs, logs', tools)
  {
    hide AllIssueFree, Continues, AsksForSummary;
  }

  // ---- Which lists are safe without automatic repair ----

  /** The lists that are sent, one for each attempt from number `attempt` on, as long as every attempt
      reports that the list is too long; up to the contents of tool results. */
  function Conversations(l: Limits, ms: seq<Message>, factor: real, attempt: nat): seq<seq<Message>>
    requires factor >= 0.0 && attempt <= l.maxRetries
    decreases l.maxRetries - attempt
  {
    [ms] + (if attempt < l.maxRetries && |ms| > l.minMessages && |Truncated(ms, factor)| > l.minMessages
            then Conversations(l, Truncated(ms, factor), l.NextFactor(factor), attempt + 1) else [])
  }

  predicate AllFree(lists: seq<seq<Message>>) {
    forall i :: 0 <= i < |lists| ==> IssueFree(lists[i])
  }

  /** The same messages but for their contents. */
  predicate SameButContents(a: seq<Message>, b: seq<Message>) {
    |a| == |b| && forall i :: 0 <= i < |a| ==> a[i].(content := b[i].content) == b[i]
  }

  lemma {:induction false} SameAnswers(a: seq<Message>, b: seq<Message>, from: nat, id: string)
    requires SameButContents(a, b) && from <= |a|
    ensures AnsweredFrom(a, from, id) == AnsweredFrom(b, from, id)
    decreases |a| - from
  {
    if from < |a| {
      assert a[from].(content := b[from].content) == b[from];
      SameAnswers(a, b, from + 1, id);
    }
  }

  lemma {:induction false} SameNotAnswered(ids: seq<string>, a: seq<Message>, b: seq<Message>, from: nat)
    requires SameButContents(a, b) && from <= |a|
    ensures NotAnswered(ids, a, from) == NotAnswered(ids, b, from)
  {
    hide AnsweredFrom;
    if ids != [] {
      SameAnswers(a, b, from, ids[0]);
      SameNotAnswered(ids[1..], a, b, from);
    }
  }

  /** Contents make no issues. */
  lemma SameIssues(a: seq<Message>, b: seq<Message>)
    requires SameButContents(a, b)
    ensures IssueFree(a) <==> IssueFree(b)
  {
    hide NotAnswered;
    assert forall i :: 0 <= i < |a| ==> CallIds(a[i]) == CallIds(b[i]) by {
      forall i | 0 <= i < |a|
        ensures CallIds(a[i]) == CallIds(b[i])
      {
        assert a[i].(content := b[i].content) == b[i];
      }
    }
    forall i | 0 <= i < |a|
      ensures Unanswered(a, i) == Unanswered(b, i) && Unmatched(a, i) == Unmatched(b, i)
    {
      assert a[i].(content := b[i].content) == b[i];
      SameNotAnswered(CallIds(a[i]), a, b, i + 1);
    }
  }

  lemma SameLead(a: seq<Message>, b: seq<Message>)
    requires SameButContents(a, b)
    ensures |Lead(a)| == |Lead(b)| && SameButContents(Lead(a), Lead(b))
  {
    assert a != [] ==> a[0].(content := b[0].content) == b[0];
  }

  lemma SameConcat(a: seq<Message>, b: seq<Message>, c: seq<Message>, d: seq<Message>)
    requires SameButContents(a, b) && SameButContents(c, d)
    ensures SameButContents(a + c, b + d)
  {
  }

  lemma SameTruncation(a: seq<Message>, b: seq<Message>, factor: real)
    requires SameButContents(a, b) && factor >= 0.0
    ensures SameButContents(Truncated(a, factor), Truncated(b, factor))
  {
    hide TruncationNotice, Removals, Lead, MostRecent;
    SameLead(a, b);
    var lead := |Lead(a)|;
    var removed := Removals(|a| - lead, factor);
    var notice := if removed > 0 then [TruncationNotice(removed)] else [];
    assert SameButContents(notice, notice);
    SamePart(a, b, lead, |a|);
    assert a[lead..|a|] == a[lead..] && b[lead..|a|] == b[lead..];
    SameRecent(a[lead..], b[lead..], removed);
    hide SameButContents;
    SameConcat(Lead(a), Lead(b), notice, notice);
    SameConcat(Lead(a) + notice, Lead(b) + notice, MostRecent(a[lead..], removed), MostRecent(b[lead..], removed));
  }

  lemma SamePart(a: seq<Message>, b: seq<Message>, lo: nat, hi: nat)
    requires SameButContents(a, b) && lo <= hi <= |a|
    ensures SameButContents(a[lo..hi], b[lo..hi])
  {
    forall i | 0 <= i < hi - lo
      ensures a[lo..hi][i].(content := b[lo..hi][i].content) == b[lo..hi][i]
    {
      assert a[lo + i].(content := b[lo + i].content) == b[lo + i];
    }
  }

  lemma SameRecent(a: seq<Message>, b: seq<Message>, removed: nat)
    requires SameButContents(a, b)
    ensures SameButContents(MostRecent(a, removed), MostRecent(b, removed))
  {
    if removed < |a| {
      SamePart(a, b, removed, |a|);
      assert a[removed..|a|] == a[removed..] && b[removed..|a|] == b[removed..];
    }
  }

  /** The same lists but for contents. */
  predicate AllSameButContents(a: seq<seq<Message>>, b: seq<seq<Message>>) {
    |a| == |b| && forall i :: 0 <= i < |a| ==> SameButContents(a[i], b[i])
  }

  lemma {:induction false} SameConversations(l: Limits, a: seq<Message>, b: seq<Message>, factor: real, attempt: nat)
    requires SameButContents(a, b) && factor >= 0.0 && attempt <= l.maxRetries
    ensures AllSameButContents(Conversations(l, a, factor, attempt), Conversations(l, b, factor, attempt))
    ensures AllFree(Conversations(l, a, factor, attempt)) <==> AllFree(Conversations(l, b, factor, attempt))
    decreases l.maxRetries - attempt
  {
    hide IssueFree, Truncated, SameButContents;
    SameLength(a, b);
    SameTruncation(a, b, factor);
    SameLength(Truncated(a, factor), Truncated(b, factor));
    if attempt < l.maxRetries && |a| > l.minMessages && |Truncated(a, factor)| > l.minMessages {
      SameConversations(l, Truncated(a, factor), Truncated(b, factor), l.NextFactor(factor), attempt + 1);
    }
    SameFree(Conversations(l, a, factor, attempt), Conversations(l, b, factor, attempt));
  }

  lemma SameLength(a: seq<Message>, b: seq<Message>)
    requires SameButContents(a, b)
    ensures |a| == |b|
  {
  }

  lemma SameFree(a: seq<seq<Message>>, b: seq<seq<Message>>)
    requires AllSameButContents(a, b)
    ensures AllFree(a) <==> AllFree(b)
  {
    hide IssueFree, SameButContents;
    forall i | 0 <= i < |a|
      ensures IssueFree(a[i]) <==> IssueFree(b[i])
    {
      SameIssues(a[i], b[i]);
    }
  }

  lemma FreeFirst(l: Limits, ms: seq<Message>, factor: real, attempt: nat)
    requires factor >= 0.0 && attempt <= l.maxRetries
    ensures AllFree(Conversations(l, ms, factor, attempt)) <==>
              && IssueFree(ms)
              && (attempt < l.maxRetries && |ms| > l.minMessages && |Truncated(ms, factor)| > l.minMessages ==>
                    AllFree(Conversations(l, Truncated(ms, factor), l.NextFactor(factor), attempt + 1)))
  {
    hide IssueFree, Truncated;
    var all := Conversations(l, ms, factor, attempt);
    if attempt < l.maxRetries && |ms| > l.minMessages && |Truncated(ms, factor)| > l.minMessages {
      var rest := Conversations(l, Truncated(ms, factor), l.NextFactor(factor), attempt + 1);
      assert all == [ms] + rest;
      assert all[0] == ms;
      forall i | 0 <= i < |rest|
        ensures AllFree(all) ==> IssueFree(rest[i])
      {
        assert all[i + 1] == rest[i];
      }
    } else {
      assert all == [ms] && all[0] == ms;
    }
  }

  /** Shortening tool results first makes no difference. */
  lemma ShortenedConversations(l: Limits, ms: seq<Message>, done: seq<Message>, factor: real, attempt: nat)
    requires AllShorten(ms, done) && factor >= 0.0 && attempt <= l.maxRetries
    ensures |Truncated(done, factor)| == |Truncated(ms, factor)|
    ensures AllFree(Conversations(l, Truncated(done, factor), l.NextFactor(factor), attempt))
            <==> AllFree(Conversations(l, Truncated(ms, factor), l.NextFactor(factor), attempt))
    ensures AllSameButContents(Conversations(l, Truncated(ms, factor), l.NextFactor(factor), attempt),
                               Conversations(l, Truncated(done, factor), l.NextFactor(factor), attempt))
  {
    hide Truncated, AllFree, AllSameButContents, Conversations;
    forall i | 0 <= i < |ms|
      ensures ms[i].(content := done[i].content) == done[i]
    {
      assert Shortens(ms[i], done[i]);
    }
    SameTruncation(ms, done, factor);
    SameConversations(l, Truncated(ms, factor), Truncated(done, factor), l.NextFactor(factor), attempt);
  }

  lemma SummariesAreFree(requests: seq<Request>)
    requires AllAskForSummary(requests)
    ensures AllIssueFree(requests)
  {
    hide SummaryPrompt, IssueFree;
    forall k | 0 <= k < |requests|
      ensures IssueFree(requests[k].messages)
    {
      assert AsksForSummary(requests[k]);
      var content :| requests[k] == Request(SummaryPrompt(content), None);
      SummaryPromptIsFree(content);
    }
  }

  lemma SummaryPromptIsFree(content: seq<byte>)
    ensures IssueFree(SummaryPrompt(content))
  {
    hide IssueFree, SummaryInstructions;
    NoCallsNoIssues(SummaryPrompt(content));
  }

  lemma FreeTwice(a: seq<Request>, b: seq<Request>, c: seq<Request>)
    requires a <= b <= c
    ensures AllIssueFree(c[|a|..]) <==> AllIssueFree(b[|a|..]) && AllIssueFree(c[|b|..])
  {
    hide AllIssueFree;
    assert c[|a|..] == b[|a|..] + c[|b|..];
    AllIssueFreeConcat(b[|a|..], c[|b|..]);
  }

  lemma FreeOnce(requests: seq<Request>, request: Request)
    ensures AllIssueFree((requests + [request])[|requests|..]) <==> IssueFree(request.messages)
  {
    hide IssueFree;
    assert (requests + [request])[|requests|..] == [request];
    assert [request][0] == request;
  }

  /** If none of these lists has an issue, no request to the recovering wrapper has one. */
  lemma {:induction false} FreeConversationsStayFree(l: Limits, s: Settings, oracle: Oracle, logs: Logs,
                                                     ms: seq<Message>, tools: Option<seq<ToolMetadata>>, factor: real,
                                                     attempt: nat)
    requires factor > 0.0 && attempt <= l.maxRetries && AllFree(Conversations(l, ms, factor, attempt))
    ensures var logs' := l.Retrying(s, oracle, logs, ms, tools, factor, attempt).0;
            logs.inner <= logs'.inner && AllIssueFree(logs'.inner[|logs.inner|..])
    decreases l.maxRetries - attempt
  {
    hide AllFree, IssueFree, Truncated, AllAskForSummary, Grown, Limits.Asked, Limits.Summarised,
         IsContextOrRateLimitError, FailedAfter, CountTools, AllShorten, AllIssueFree, Conversations;
    FreeFirst(l, ms, factor, attempt);
    var request := Request(ms, tools);
    var (asked, reply) := l.Asked(s, oracle, logs, request);
    AskedGrows(l, s, oracle, logs, request);
    FreeOnce(logs.inner, request);
    if reply.Err? && IsContextOrRateLimitError(reply.error) && attempt < l.maxRetries && |ms| > l.minMessages {
      SummarisedShortens(l, s, oracle, asked, ms, |ms|);
      var (after, done) := l.Summarised(s, oracle, asked, ms, |ms|);
      GrownIsPrefix(s, asked, after);
      SummariesAreFree(after.inner[|asked.inner|..]);
      FreeTwice(logs.inner, asked.inner, after.inner);
      ShortenedConversations(l, ms, done, factor, attempt + 1);
      if |Truncated(done, factor)| > l.minMessages {
        FreeConversationsStayFree(l, s, oracle, after, Truncated(done, factor), tools, l.NextFactor(factor),
            attempt + 1);
        FreeTwice(logs.inner, after.inner, l.Retrying(s, oracle, logs, ms, tools, factor, attempt).0.inner);
      }
    }
  }

  lemma FreeMeansFree(s: Settings, logs: Logs, asked: Logs)
    requires Grown(s, logs, asked) && !s.validator.autoFix
    ensures AllIssueFree(asked.base[|logs.base|..]) <==> AllIssueFree(asked.inner[|logs.inner|..])
  {
    hide AllIssueFree;
  }

  lemma GrownIsPrefix(s: Settings, a: Logs, b: Logs)
    requires Grown(s, a, b)
    ensures a.base <= b.base && a.inner <= b.inner
  {
  }

  // ---- What is sent, in which order, and how short it gets ----

  /** The part of the messages to remove in round `k`: a tenth more each time, but no more than 0.8 from
      the second round on. */
  function FactorAt(ratio: real, k: nat): (factor: real)
    ensures ratio >= 0.0 ==> factor >= 0.0
  {
    if k == 0 || ratio + 0.1 * k as real <= 0.8 then ratio + 0.1 * k as real else 0.8
  }

  /** List `k + 1` is list `k` truncated by the factor of its round, and both are long enough. */
  predicate IsRound(l: Limits, ratio: real, attempt: nat, lists: seq<seq<Message>>, k: int)
    requires ratio >= 0.0 && 0 <= k < |lists| - 1
  {
    lists[k + 1] == Truncated(lists[k], FactorAt(ratio, attempt + k)) && |lists[k]| > l.minMessages
        && |lists[k + 1]| > l.minMessages
  }

  /** The lists that are sent, by round; they end only where the retries do or the next would be too
      short. */
  lemma {:induction false} ConversationRounds(l: Limits, ms: seq<Message>, ratio: real, attempt: nat)
    requires ratio >= 0.0 && attempt <= l.maxRetries
    ensures var lists := Conversations(l, ms, FactorAt(ratio, attempt), attempt);
            && 1 <= |lists| <= l.maxRetries - attempt + 1 && lists[0] == ms
            && (forall k :: 0 <= k < |lists| - 1 ==> IsRound(l, ratio, attempt, lists, k))
            && (|lists| <= l.maxRetries - attempt ==>
                  var last := lists[|lists| - 1];
                  |last| <= l.minMessages || |Truncated(last, FactorAt(ratio, attempt + |lists| - 1))| <= l.minMessages)
    decreases l.maxRetries - attempt
  {
    hide Truncated, IsRound;
    var factor := FactorAt(ratio, attempt);
    var next := Truncated(ms, factor);
    if attempt < l.maxRetries && |ms| > l.minMessages && |next| > l.minMessages {
      NextFactorAt(l, ratio, attempt);
      hide FactorAt;
      ConversationRounds(l, next, ratio, attempt + 1);
      var lists, rest := Conversations(l, ms, factor, attempt),
          Conversations(l, next, FactorAt(ratio, attempt + 1), attempt + 1);
      assert lists == [ms] + rest;
      forall k | 0 <= k < |lists| - 1
        ensures IsRound(l, ratio, attempt, lists, k)
      {
        RoundOfLonger(l, ratio, attempt, ms, rest, k);
      }
    }
  }

  lemma NextFactorAt(l: Limits, ratio: real, k: nat)
    ensures l.NextFactor(FactorAt(ratio, k)) == FactorAt(ratio, k + 1)
    ensures ratio >= 0.0 ==> FactorAt(ratio, k) >= 0.0
  {
  }

  lemma RoundOfLonger(l: Limits, ratio: real, attempt: nat, ms: seq<Message>, rest: seq<seq<Message>>, k: int)
    requires ratio >= 0.0 && 0 <= k < |rest| && FactorAt(ratio, attempt) >= 0.0
    requires if k == 0 then rest[0] == Truncated(ms, FactorAt(ratio, attempt)) && |ms| > l.minMessages
            && |rest[0]| > l.minMessages
             else IsRound(l, ratio, attempt + 1, rest, k - 1)
    ensures IsRound(l, ratio, attempt, [ms] + rest, k)
  {
    hide Truncated, FactorAt;
    assert attempt + 1 + (k - 1) == attempt + k;
  }

  /** The requests are for the lists, one after the other from the first on, as far as they go, each
      followed by requests for summaries only. */
  ghost predicate SendsInTurn(requests: seq<Request>, tools: Option<seq<ToolMetadata>>, lists: seq<seq<Message>>)
    decreases |lists|
  {
    requests == [] ||
    (lists != [] && requests[0].tools == tools && SameButContents(lists[0], requests[0].messages)
     && exists k :: 1 <= k <= |requests| && AllAskForSummary(requests[1..k])
         && SendsInTurn(requests[k..], tools, lists[1..]))
  }

  lemma SameTransitive(a: seq<Message>, b: seq<Message>, c: seq<Message>)
    requires SameButContents(a, b) && SameButContents(a, c)
    ensures SameButContents(b, c)
  {
    forall i | 0 <= i < |b|
      ensures b[i].(content := c[i].content) == c[i]
    {
      assert a[i].(content := b[i].content) == b[i] && a[i].(content := c[i].content) == c[i];
    }
  }

  lemma {:induction false} SameInTurn(requests: seq<Request>, tools: Option<seq<ToolMetadata>>, a: seq<seq<Message>>,
                                      b: seq<seq<Message>>)
    requires AllSameButContents(a, b) && SendsInTurn(requests, tools, a)
    ensures SendsInTurn(requests, tools, b)
    decreases |a|
  {
    hide SameButContents, AllAskForSummary;
    if requests != [] {
      var k :| 1 <= k <= |requests| && AllAskForSummary(requests[1..k]) && SendsInTurn(requests[k..], tools, a[1..]);
      assert SameButContents(a[0], b[0]);
      SameTransitive(a[0], b[0], requests[0].messages);
      assert forall i :: 0 <= i < |a[1..]| ==> a[1..][i] == a[i + 1] && b[1..][i] == b[i + 1];
      SameInTurn(requests[k..], tools, a[1..], b[1..]);
    }
  }

  lemma FirstInTurn(request: Request, summaries: seq<Request>, rest: seq<Request>, lists: seq<seq<Message>>)
    requires lists != [] && request.messages == lists[0] && AllAskForSummary(summaries)
    requires SendsInTurn(rest, request.tools, lists[1..])
    ensures SendsInTurn([request] + summaries + rest, request.tools, lists)
  {
    hide AllAskForSummary, SendsInTurn;
    var all := [request] + summaries + rest;
    assert all[1..1 + |summaries|] == summaries && all[1 + |summaries|..] == rest;
    InTurnUnfold(all, request.tools, lists, 1 + |summaries|);
  }

  lemma InTurnUnfold(requests: seq<Request>, tools: Option<seq<ToolMetadata>>, lists: seq<seq<Message>>, k: nat)
    requires requests != [] && lists != [] && requests[0].tools == tools && requests[0].messages == lists[0]
    requires 1 <= k <= |requests| && AllAskForSummary(requests[1..k]) && SendsInTurn(requests[k..], tools, lists[1..])
    ensures SendsInTurn(requests, tools, lists)
  {
  }

  lemma NothingInTurn(tools: Option<seq<ToolMetadata>>, lists: seq<seq<Message>>)
    ensures SendsInTurn([], tools, lists) && AllAskForSummary([])
  {
  }

  /** Every run sends the lists in turn, and nothing else but requests for summaries in between. */
  lemma {:induction false} RetryingSendsInTurn(l: Limits, s: Settings, oracle: Oracle, logs: Logs, ms: seq<Message>,
                                               tools: Option<seq<ToolMetadata>>, factor: real, attempt: nat)
    requires factor > 0.0 && attempt <= l.maxRetries
    ensures var logs' := l.Retrying(s, oracle, logs, ms, tools, factor, attempt).0;
            && logs.inner < logs'.inner
            && SendsInTurn(logs'.inner[|logs.inner|..], tools, Conversations(l, ms, factor, attempt))
    decreases l.maxRetries - attempt
  {
    hide Truncated, AllAskForSummary, Grown, Limits.Asked, Limits.Summarised, IsContextOrRateLimitError, FailedAfter,
         CountTools, AllShorten, SendsInTurn, AllSameButContents, AllFree;
    var request, lists := Request(ms, tools), Conversations(l, ms, factor, attempt);
    var (asked, reply) := l.Asked(s, oracle, logs, request);
    AskedGrows(l, s, oracle, logs, request);
    var logs' := l.Retrying(s, oracle, logs, ms, tools, factor, attempt).0;
    NothingInTurn(tools, lists[1..]);
    if reply.Err? && IsContextOrRateLimitError(reply.error) && attempt < l.maxRetries && |ms| > l.minMessages {
      SummarisedShortens(l, s, oracle, asked, ms, |ms|);
      var (after, done) := l.Summarised(s, oracle, asked, ms, |ms|);
      GrownIsPrefix(s, asked, after);
      var summaries := after.inner[|asked.inner|..];
      ShortenedConversations(l, ms, done, factor, attempt + 1);
      if |Truncated(done, factor)| > l.minMessages {
        RetryingSendsInTurn(l, s, oracle, after, Truncated(done, factor), tools, l.NextFactor(factor), attempt + 1);
        var rest := logs'.inner[|after.inner|..];
        AllSameBack(Conversations(l, Truncated(ms, factor), l.NextFactor(factor), attempt + 1),
                    Conversations(l, Truncated(done, factor), l.NextFactor(factor), attempt + 1));
        SameInTurn(rest, tools, Conversations(l, Truncated(done, factor), l.NextFactor(factor), attempt + 1),
            lists[1..]);
        FirstInTurn(request, summaries, rest, lists);
        assert logs'.inner[|logs.inner|..] == [request] + summaries + rest;
      } else {
        FirstInTurn(request, summaries, [], lists);
        assert logs'.inner[|logs.inner|..] == [request] + summaries + [];
      }
    } else {
      FirstInTurn(request, [], [], lists);
      assert logs'.inner[|logs.inner|..] == [request] + [] + [];
    }
  }

  lemma AllSameBack(a: seq<seq<Message>>, b: seq<seq<Message>>)
    requires AllSameButContents(a, b)
    ensures AllSameButContents(b, a)
  {
    forall i | 0 <= i < |a|
      ensures SameButContents(b[i], a[i])
    {
      assert SameButContents(a[i], b[i]);
      SameTransitive(a[i], b[i], a[i]);
    }
  }

  /** The caller gets the base LLM's own answer, the one to the last request of all; and an attempt that
      succeeds, or fails for another reason than length or rate, is the last one. */
  lemma {:induction false} RetryingIsHonest(l: Limits, s: Settings, oracle: Oracle, logs: Logs, ms: seq<Message>,
                                            tools: Option<seq<ToolMetadata>>, factor: real, attempt: nat)
    requires factor >= 0.0 && attempt <= l.maxRetries
    ensures var (logs', reply) := l.Retrying(s, oracle, logs, ms, tools, factor, attempt);
            var (asked, first) := l.Asked(s, oracle, logs, Request(ms, tools));
            && (reply.Ok? ==> logs'.base != [] && reply == oracle(logs'.base))
            && (first.Ok? || !IsContextOrRateLimitError(first.error) ==> logs' == asked && reply == first)
    decreases l.maxRetries - attempt
  {
    hide IsContextOrRateLimitError, Settings.Generated, Truncated, Limits.Summarised;
    GenerateIsHonest(s, oracle, logs.base, ms, tools);
    GenerateIsSafe(s, oracle, logs.base, ms, tools);
    var (asked, first) := l.Asked(s, oracle, logs, Request(ms, tools));
    if first.Err? && IsContextOrRateLimitError(first.error) && attempt < l.maxRetries {
      var (after, shorter) := l.Shrunk(s, oracle, asked, ms, factor);
      if |shorter| > l.minMessages {
        NextFactorIsPositive(l, factor);
        RetryingIsHonest(l, s, oracle, after, shorter, tools, l.NextFactor(factor), attempt + 1);
      }
    }
  }

  lemma NextFactorIsPositive(l: Limits, factor: real)
    requires factor >= 0.0
    ensures l.NextFactor(factor) >= 0.0
  {
  }

  // ---- A base LLM that shows every issue ----

  /** An error that both wrappers try to recover from. */
  function TooLongError(): AgentError {
    LLMError(Ascii("429") + Ascii("400 Bad Request"))
  }

  function TooLong(): Oracle {
    (log: seq<Request>) => Err(TooLongError())
  }

  lemma TooLongIsContextError()
    ensures IsContextOrRateLimitError(TooLongError())
  {
    assert MatchesAt(Lower(TooLongError().message), Ascii("429"), 0);
  }

  lemma TooLongIsRecoverable()
    ensures IsRecoverable400Error(TooLongError())
  {
    var code, status: seq<byte> := Ascii("429"), Ascii("400 Bad Request");
    assert MatchesAt(code + status, status, 3);
  }

  lemma {:induction false} TooLongStays(s: Settings, log: seq<Request>, ms: seq<Message>,
                                        tools: Option<seq<ToolMetadata>>, attempt: nat)
    requires !s.validator.autoFix && IssueFree(ms)
    ensures s.Retried(TooLong(), log, ms, tools, TooLongError(), attempt).reply == Err(TooLongError())
    decreases s.maxRetries + 1 - attempt
  {
    hide IssueFree, Validated, TooLongError, IsToolCallsValidationError, IsRecoverable400Error,
         WithInterruptedResults;
    if attempt <= s.maxRetries {
      TooLongIsRecoverable();
      RecoveryKeepsIssueFree(s, ms, TooLongError().message);
      WithoutAutoFix(ms);
      var tried := s.Attempt(TooLong(), log, ms, tools, TooLongError(), attempt);
      assert tried.reply == Err(TooLongError());
      TooLongStays(s, tried.log, ms, tools, attempt + 1);
    }
  }

  lemma TooLongIsReported(l: Limits, s: Settings, logs: Logs, ms: seq<Message>, tools: Option<seq<ToolMetadata>>)
    requires !s.validator.autoFix && IssueFree(ms)
    ensures l.Asked(s, TooLong(), logs, Request(ms, tools)).1 == Err(TooLongError())
  {
    hide IssueFree, Validated, TooLongError, Settings.Retried;
    WithoutAutoFix(ms);
    TooLongStays(s, logs.base + [Request(ms, tools)], ms, tools, 1);
  }

  /** It brings every issue to light: a run with it sends no issue only if none of these lists has one. */
  lemma {:induction false} TooLongShowsIssues(l: Limits, s: Settings, logs: Logs, ms: seq<Message>,
                                              tools: Option<seq<ToolMetadata>>, factor: real, attempt: nat)
    requires factor > 0.0 && attempt <= l.maxRetries && !s.validator.autoFix
    requires var logs' := l.Retrying(s, TooLong(), logs, ms, tools, factor, attempt).0;
             logs.base <= logs'.base && AllIssueFree(logs'.base[|logs.base|..])
    ensures AllFree(Conversations(l, ms, factor, attempt))
    decreases l.maxRetries - attempt
  {
    hide AllFree, IssueFree, Truncated, AllIssueFree, AllAskForSummary, Limits.Asked, Limits.Summarised,
         Limits.Retrying, Conversations, IsContextOrRateLimitError, FailedAfter, CountTools, AllShorten, TooLong,
         TooLongError;
    var logs' := l.Retrying(s, TooLong(), logs, ms, tools, factor, attempt).0;
    var (asked, reply) := l.Asked(s, TooLong(), logs, Request(ms, tools));
    AskedGrows(l, s, TooLong(), logs, Request(ms, tools));
    FirstIsSent(l, s, TooLong(), logs, ms, tools, factor, attempt);
    TooLongIsReported(l, s, logs, ms, tools);
    TooLongIsContextError();
    FreeFirst(l, ms, factor, attempt);
    if attempt < l.maxRetries && |ms| > l.minMessages && |Truncated(ms, factor)| > l.minMessages {
      SummarisedShortens(l, s, TooLong(), asked, ms, |ms|);
      var (after, done) := l.Summarised(s, TooLong(), asked, ms, |ms|);
      ShortenedConversations(l, ms, done, factor, attempt + 1);
      RetryingGoesOn(l, s, TooLong(), logs, ms, tools, factor, attempt,
                     asked, reply, after, Truncated(done, factor), l.NextFactor(factor));
      RetryingGrows(l, s, TooLong(), after, Truncated(done, factor), tools, l.NextFactor(factor), attempt + 1);
      FreeTwice(logs.base, after.base, logs'.base);
      TooLongShowsIssues(l, s, after, Truncated(done, factor), tools, l.NextFactor(factor), attempt + 1);
    }
  }

  lemma RetryingGrows(l: Limits, s: Settings, oracle: Oracle, logs: Logs, ms: seq<Message>,
                      tools: Option<seq<ToolMetadata>>, factor: real, attempt: nat)
    requires factor > 0.0 && attempt <= l.maxRetries
    ensures Grown(s, logs, l.Retrying(s, oracle, logs, ms, tools, factor, attempt).0)
  {
    hide Limits.Retrying, Grown, AllContinueOrSummarise, Shape;
    ShapeAtFirst(ms);
    RetryingIsSafe(l, s, oracle, logs, Request(ms, tools), ms, factor, attempt);
  }

  /** If no request to the base LLM has an issue, the list of the first attempt has none. */
  lemma FirstIsSent(l: Limits, s: Settings, oracle: Oracle, logs: Logs, ms: seq<Message>,
                    tools: Option<seq<ToolMetadata>>, factor: real, attempt: nat)
    requires factor > 0.0 && attempt <= l.maxRetries && !s.validator.autoFix
    requires var logs' := l.Retrying(s, oracle, logs, ms, tools, factor, attempt).0;
             logs.base <= logs'.base && AllIssueFree(logs'.base[|logs.base|..])
    ensures IssueFree(ms)
  {
    hide IssueFree, Truncated, Limits.Asked, Limits.Summarised, IsContextOrRateLimitError, FailedAfter,
         AllIssueFree, AllAskForSummary, AllShorten, CountTools, Grown;
    var request := Request(ms, tools);
    var (asked, reply) := l.Asked(s, oracle, logs, request);
    AskedGrows(l, s, oracle, logs, request);
    var logs' := l.Retrying(s, oracle, logs, ms, tools, factor, attempt).0;
    if reply.Err? && IsContextOrRateLimitError(reply.error) && attempt < l.maxRetries && |ms| > l.minMessages {
      SummarisedShortens(l, s, oracle, asked, ms, |ms|);
      var (after, done) := l.Summarised(s, oracle, asked, ms, |ms|);
      GrownIsPrefix(s, asked, after);
      if |Truncated(done, factor)| > l.minMessages {
        RetryingGrows(l, s, oracle, after, Truncated(done, factor), tools, l.NextFactor(factor), attempt + 1);
        GrownIsPrefix(s, after, logs');
      }
    }
    GrownIsPrefix(s, logs, asked);
    FreeTwice(logs.base, asked.base, logs'.base);
    FreeOnce(logs.inner, request);
    FreeMeansFree(s, logs, asked);
  }

  /** After a list that is too long, the attempts go on with the truncated one. */
  lemma RetryingGoesOn(l: Limits, s: Settings, oracle: Oracle, logs: Logs, ms: seq<Message>,
                       tools: Option<seq<ToolMetadata>>, factor: real, attempt: nat,
                       asked: Logs, reply: Result<Response>, after: Logs, shorter: seq<Message>, next: real)
    requires factor > 0.0 && attempt < l.maxRetries && next == l.NextFactor(factor) && next >= 0.0
    requires l.Asked(s, oracle, logs, Request(ms, tools)) == (asked, reply)
    requires reply.Err? && IsContextOrRateLimitError(reply.error)
    requires l.Shrunk(s, oracle, asked, ms, factor) == (after, shorter) && |shorter| > l.minMessages
    ensures l.Retrying(s, oracle, logs, ms, tools, factor, attempt)
            == l.Retrying(s, oracle, after, shorter, tools, next, attempt + 1)
  {
    hide Limits.Asked, Limits.Shrunk, IsContextOrRateLimitError, FailedAfter;
  }

  // ---- The main results ----

  /** In this run no request to the base LLM has an issue. */
  ghost predicate SendsNoIssue(l: Limits, s: Settings, oracle: Oracle, logs: Logs, ms: seq<Message>,
                               tools: Option<seq<ToolMetadata>>, ratio: real)
    requires ratio >= 0.0
  {
    var logs' := l.Retrying(s, oracle, logs, ms, tools, ratio, 0).0;
    logs.base <= logs'.base && AllIssueFree(logs'.base[|logs.base|..])
  }

  /** Which lists are safe with the whole stack, exactly: whatever the base LLM replies, no request to it
      has an issue, if and only if repair is automatic or none of the lists that the list can be cut
      down to has an issue. */
  lemma StackIsSafeIff(l: Limits, s: Settings, ms: seq<Message>, tools: Option<seq<ToolMetadata>>, ratio: real)
    requires ratio > 0.0
    ensures (forall oracle: Oracle, logs: Logs :: SendsNoIssue(l, s, oracle, logs, ms, tools, ratio))
            <==> s.validator.autoFix || AllFree(Conversations(l, ms, ratio, 0))
  {
    hide AllIssueFree, AllFree, Limits.Retrying, Conversations, CountTools, AllContinueOrSummarise;
    if s.validator.autoFix || AllFree(Conversations(l, ms, ratio, 0)) {
      forall oracle: Oracle, logs: Logs
        ensures SendsNoIssue(l, s, oracle, logs, ms, tools, ratio)
      {
        StackIsSafe(l, s, oracle, logs, ms, tools, ratio);
      }
    } else if SendsNoIssue(l, s, TooLong(), Logs([], []), ms, tools, ratio) {
      TooLongShowsIssues(l, s, Logs([], []), ms, tools, ratio, 0);
    }
  }

  /** Every run of the whole stack, for any base LLM, any messages and any positive ratio. No request
      that reaches the base LLM has an issue if repair is automatic, or none of the lists that the
      messages can be cut down to has one. Every request to the
      recovering wrapper asks for a summary, or carries the caller's tools and the caller's messages
      without some of the older ones. With R retries and T tool messages there are at most
      R + 1 + R * T of these, and the base LLM gets at most one more than its retries for each. */
  lemma StackIsSafe(l: Limits, s: Settings, oracle: Oracle, logs: Logs, ms: seq<Message>,
                    tools: Option<seq<ToolMetadata>>, ratio: real)
    requires ratio > 0.0
    ensures var logs' := l.Retrying(s, oracle, logs, ms, tools, ratio, 0).0;
            && logs.base <= logs'.base && logs.inner <= logs'.inner
            && (s.validator.autoFix || AllFree(Conversations(l, ms, ratio, 0))
                ==> AllIssueFree(logs'.base[|logs.base|..]))
            && AllContinueOrSummarise(Request(ms, tools), logs'.inner[|logs.inner|..])
            && |logs'.inner| - |logs.inner| <= l.maxRetries + 1 + l.maxRetries * CountTools(ms)
            && |logs'.base| - |logs.base| <= (1 + s.maxRetries) * (l.maxRetries + 1 + l.maxRetries * CountTools(ms))
  {
    hide AllIssueFree, AllContinueOrSummarise, Limits.Retrying, CountTools, AllFree, Conversations;
    var original := Request(ms, tools);
    ShapeAtFirst(ms);
    assert Continues(original, Request(ms, original.tools));
    RetryingIsSafe(l, s, oracle, logs, original, ms, ratio, 0);
    var logs' := l.Retrying(s, oracle, logs, ms, tools, ratio, 0).0;
    var asked, budget := |logs'.inner| - |logs.inner|, Budget(l.maxRetries, CountTools(ms));
    if AllFree(Conversations(l, ms, ratio, 0)) {
      FreeConversationsStayFree(l, s, oracle, logs, ms, tools, ratio, 0);
    }
    assert asked <= budget;
    assert (1 + s.maxRetries) * asked <= (1 + s.maxRetries) * budget;
  }
}
