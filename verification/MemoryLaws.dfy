/** What the memories promise: which messages they keep, in which order, and what becomes of them on
    their way to the LLM. */
module MemoryLaws {
  import opened AutoRecovery
  import opened Memories
  import opened Messages
  import opened MessageValidation
  import opened RepairLaws
  import opened Sequences
  import opened Utf8

  // ---- The context ----

  /** A tool result with a message that calls tools somewhere after it. */
  predicate IsOldResult(ms: seq<Message>, i: nat)
    requires i < |ms|
  {
    ms[i].role == Tool && exists j :: i < j < |ms| && CallsTools(ms[j])
  }

  /** The first `n` messages without the old results. */
  function WithoutOldResults(ms: seq<Message>, n: nat): seq<Message>
    requires n <= |ms|
  {
    if n == 0 then [] else WithoutOldResults(ms, n - 1) + (if IsOldResult(ms, n - 1) then [] else [ms[n - 1]])
  }

  lemma {:induction false} NothingOld(ms: seq<Message>, lo: nat, n: nat)
    requires lo <= n <= |ms| && forall i :: lo <= i < n ==> !IsOldResult(ms, i)
    ensures WithoutOldResults(ms, n) == WithoutOldResults(ms, lo) + ms[lo..n]
    decreases n
  {
    if lo < n {
      NothingOld(ms, lo, n - 1);
      assert ms[lo..n] == ms[lo..n - 1] + [ms[n - 1]];
    }
  }

  lemma {:induction false} ResultsAreOld(ms: seq<Message>, last: nat, n: nat)
    requires n <= last < |ms| && CallsTools(ms[last])
    ensures WithoutOldResults(ms, n) == NotResults(ms[..n])
  {
    if n > 0 {
      ResultsAreOld(ms, last, n - 1);
      assert ms[..n][..n - 1] == ms[..n - 1];
    }
  }

  lemma NoneOldFrom(ms: seq<Message>, lo: nat)
    requires forall j :: lo < j < |ms| ==> !CallsTools(ms[j])
    ensures forall i :: lo <= i < |ms| ==> !IsOldResult(ms, i)
  {
    hide CallsTools;
  }

  lemma NothingBeforeNothing(ms: seq<Message>)
    ensures WithoutOldResults(ms, 0) == []
  {
  }

  /** The context omits the tool results that precede a message that calls tools, and nothing else. */
  lemma ContextOmitsOnlyOldResults(ms: seq<Message>)
    ensures ContextOf(ms) == WithoutOldResults(ms, |ms|)
  {
    hide IsOldResult, WithoutOldResults, NotResults, CallsTools;
    NothingBeforeNothing(ms);
    match LastCaller(ms, |ms|) {
      case None =>
        NoneOldFrom(ms, 0);
        NothingOld(ms, 0, |ms|);
        assert ms[0..|ms|] == ms;
      case Some(i) =>
        ResultsAreOld(ms, i, i);
        NoneOldFrom(ms, i);
        NothingOld(ms, i, |ms|);
        assert ms[i..|ms|] == ms[i..];
    }
  }

  // ---- The window ----

  function WindowAfter(maxMessages: nat, added: seq<Message>): seq<Message> {
    if added == [] then [] else Slid(maxMessages, WindowAfter(maxMessages, added[..|added| - 1]), added[|added| - 1])
  }

  /** The window holds exactly the last messages, at least one even if it should hold none. */
  lemma {:induction false} WindowHoldsTheLast(maxMessages: nat, added: seq<Message>)
    ensures var room := if maxMessages == 0 then 1 else maxMessages;
            WindowAfter(maxMessages, added) == if |added| <= room then added else added[|added| - room..]
  {
    if added != [] {
      WindowHoldsTheLast(maxMessages, added[..|added| - 1]);
      assert added == added[..|added| - 1] + [added[|added| - 1]];
    }
  }

  // ---- The summary buffer ----

  function BufferAfter(policy: Policy, oracle: Oracle, log: seq<Request>, added: seq<Message>): Buffer {
    if added == [] then Buffer([], [], [], log)
    else policy.Added(oracle, BufferAfter(policy, oracle, log, added[..|added| - 1]), added[|added| - 1]).0
  }

  predicate NoneEmpty(batches: seq<seq<Message>>) {
    forall i :: 0 <= i < |batches| ==> batches[i] != []
  }

  lemma AddedAccounts(policy: Policy, oracle: Oracle, b: Buffer, m: Message)
    requires NoneEmpty(b.batches)
    ensures var b' := policy.Added(oracle, b, m).0;
            Flatten(b'.batches) + b'.messages == Flatten(b.batches) + b.messages + [m] && NoneEmpty(b'.batches)
  {
    hide Flatten, CountTokens;
    var ms := b.messages + [m];
    var half := |ms| / 2;
    assert ms == ms[..half] + ms[half..];
    FlattenAppend(b.batches, ms[..half]);
    assert Flatten(b.batches) + ms[..half] + ms[half..] == Flatten(b.batches) + b.messages + [m];
    assert Flatten(b.batches) + ms == Flatten(b.batches) + b.messages + [m];
  }

  lemma NothingTaken()
    ensures Flatten<Message>([]) == [] && NoneEmpty([])
  {
  }

  /** Every message ever added is accounted for, in order: in a batch taken out, or still there. */
  lemma {:induction false} EveryMessageIsAccountedFor(policy: Policy, oracle: Oracle, log: seq<Request>,
      added: seq<Message>)
    ensures var b := BufferAfter(policy, oracle, log, added);
            Flatten(b.batches) + b.messages == added && NoneEmpty(b.batches)
  {
    hide Policy.Added, NoneEmpty, Flatten;
    if added == [] {
      NothingTaken();
    } else {
      var n := |added| - 1;
      EveryMessageIsAccountedFor(policy, oracle, log, added[..n]);
      AddedAccounts(policy, oracle, BufferAfter(policy, oracle, log, added[..n]), added[n]);
      assert added == added[..n] + [added[n]];
    }
  }

  /** Tokens add up: a message has a quarter as many as its content has bytes, rounded down. */
  lemma {:induction false} TokensAddUp(a: seq<Message>, m: Message, b: seq<Message>)
    ensures CountTokens([]) == 0 && CountTokens([m]) == |m.content| / 4
    ensures CountTokens(a + b) == CountTokens(a) + CountTokens(b)
    decreases |b|
  {
    assert [m][..0] == [];
    if b == [] {
      assert a + b == a;
    } else {
      TokensAddUp(a, m, b[..|b| - 1]);
      assert (a + b)[..|a + b| - 1] == a + b[..|b| - 1];
    }
  }

  /** When the buffer is pruned, and by how much: exactly if it then holds more tokens than the limit and
      at least two messages, by its older half, rounded down. */
  lemma PrunedIff(policy: Policy, oracle: Oracle, b: Buffer, m: Message)
    ensures var (b', r) := policy.Added(oracle, b, m);
            var ms := b.messages + [m];
            if CountTokens(b.messages) + |m.content| / 4 > policy.maxTokenLimit && |ms| >= 2 then
              && b'.batches == b.batches + [ms[..|ms| / 2]] && b'.messages == ms[|ms| / 2..]
              && |b'.log| == |b.log| + 1 && (r.Err? <==> oracle(b'.log).Err?)
            else b' == b.(messages := ms) && r == Ok(())
  {
    TokensAddUp(b.messages, m, [m]);
    hide CountTokens, Policy.SummaryRequest, TextOf;
  }

  // ---- The chain of summaries ----

  /** The reply to request number `i` since the log was `start` long. */
  function ReplyTo(oracle: Oracle, log: seq<Request>, start: nat, i: nat): Result<Response>
    requires start + i < |log|
  {
    oracle(log[..start + i + 1])
  }

  /** The text of the last of the first `n` replies that is a success; empty if none is. */
  function LastSummary(oracle: Oracle, log: seq<Request>, start: nat, n: nat): seq<byte>
    requires start + n <= |log|
  {
    if n == 0 then []
    else
      match ReplyTo(oracle, log, start, n - 1)
      case Ok(response) => TextOf(response)
      case Err(_) => LastSummary(oracle, log, start, n - 1)
  }

  lemma {:induction false} LastSummaryOfPrefix(oracle: Oracle, log: seq<Request>, longer: seq<Request>, start: nat,
                                               n: nat)
    requires start + n <= |log| && log <= longer
    ensures LastSummary(oracle, longer, start, n) == LastSummary(oracle, log, start, n)
  {
    if n > 0 {
      LastSummaryOfPrefix(oracle, log, longer, start, n - 1);
      assert longer[..start + n] == log[..start + n];
    }
  }

  /** There is one request for each batch, in order, each made from exactly that batch and the text of
      the last success before it; and the summary is the text of the last success of all. */
  predicate IsChain(policy: Policy, oracle: Oracle, log: seq<Request>, b: Buffer) {
    && log <= b.log && |b.log| == |log| + |b.batches|
    && (forall i :: 0 <= i < |b.batches| ==>
          b.log[|log| + i] == policy.SummaryRequest(LastSummary(oracle, b.log, |log|, i), b.batches[i]))
    && b.summary == LastSummary(oracle, b.log, |log|, |b.batches|)
  }

  /** What adding a message does, apart from the messages still held. */
  lemma AddedAsks(policy: Policy, oracle: Oracle, b: Buffer, m: Message)
    ensures var b' := policy.Added(oracle, b, m).0;
            || (b'.batches == b.batches && b'.log == b.log && b'.summary == b.summary)
            || (exists batch ::
                  && b'.batches == b.batches + [batch]
                  && b'.log == b.log + [policy.SummaryRequest(b.summary, batch)]
                  && b'.summary == if oracle(b'.log).Ok? then TextOf(oracle(b'.log).value) else b.summary)
  {
    hide CountTokens;
  }

  lemma ChainGrows(policy: Policy, oracle: Oracle, log: seq<Request>, b: Buffer, b': Buffer, batch: seq<Message>)
    requires IsChain(policy, oracle, log, b)
    requires b'.batches == b.batches + [batch] && b'.log == b.log + [policy.SummaryRequest(b.summary, batch)]
    requires b'.summary == if oracle(b'.log).Ok? then TextOf(oracle(b'.log).value) else b.summary
    ensures IsChain(policy, oracle, log, b')
  {
    hide Policy.SummaryRequest;
    var n := |b.batches|;
    forall i | 0 <= i <= n
      ensures LastSummary(oracle, b'.log, |log|, i) == LastSummary(oracle, b.log, |log|, i)
    {
      LastSummaryOfPrefix(oracle, b.log, b'.log, |log|, i);
    }
    assert b'.log[..|log| + n + 1] == b'.log;
  }

  /** Every batch is summarised exactly once, and every request carries the summary so far. */
  lemma {:induction false} EachBatchIsSummarisedOnce(policy: Policy, oracle: Oracle, log: seq<Request>,
      added: seq<Message>)
    ensures IsChain(policy, oracle, log, BufferAfter(policy, oracle, log, added))
  {
    hide IsChain, Policy.Added, Policy.SummaryRequest, TextOf;
    if added == [] {
      NoChain(policy, oracle, log);
    } else {
      var n := |added| - 1;
      EachBatchIsSummarisedOnce(policy, oracle, log, added[..n]);
      var b, b' := BufferAfter(policy, oracle, log, added[..n]), BufferAfter(policy, oracle, log, added);
      AddedAsks(policy, oracle, b, added[n]);
      if b'.batches == b.batches && b'.log == b.log && b'.summary == b.summary {
        SameChain(policy, oracle, log, b, b');
      } else {
        var batch :|
          && b'.batches == b.batches + [batch]
          && b'.log == b.log + [policy.SummaryRequest(b.summary, batch)]
          && b'.summary == if oracle(b'.log).Ok? then TextOf(oracle(b'.log).value) else b.summary;
        ChainGrows(policy, oracle, log, b, b', batch);
      }
    }
  }

  lemma NoChain(policy: Policy, oracle: Oracle, log: seq<Request>)
    ensures IsChain(policy, oracle, log, Buffer([], [], [], log))
  {
  }

  lemma SameChain(policy: Policy, oracle: Oracle, log: seq<Request>, b: Buffer, b': Buffer)
    requires IsChain(policy, oracle, log, b) && b'.batches == b.batches && b'.log == b.log && b'.summary == b.summary
    ensures IsChain(policy, oracle, log, b')
  {
  }

  // ---- What the summary still stands for ----

  predicate HasText(reply: Result<Response>) {
    reply.Ok? && TextOf(reply.value) != []
  }

  /** Batch `i` is still in the chain after `n` summaries: its own succeeded, and from then on every
      success had some text, for one without replaces the summary by nothing. */
  predicate IsKept(oracle: Oracle, log: seq<Request>, start: nat, n: nat, i: nat)
    requires i < n && start + n <= |log|
  {
    && ReplyTo(oracle, log, start, i).Ok?
    && (forall j :: i <= j < n && ReplyTo(oracle, log, start, j).Ok? ==> HasText(ReplyTo(oracle, log, start, j)))
  }

  /** The messages of those of the first `k` batches that are kept. */
  function KeptOf(oracle: Oracle, log: seq<Request>, start: nat, batches: seq<seq<Message>>, k: nat): seq<Message>
    requires k <= |batches| && start + |batches| <= |log|
  {
    if k == 0 then []
    else
      KeptOf(oracle, log, start, batches, k - 1)
          + (if IsKept(oracle, log, start, |batches|, k - 1) then batches[k - 1] else [])
  }

  lemma {:induction false} KeptLength(oracle: Oracle, log: seq<Request>, start: nat, batches: seq<seq<Message>>, k: nat)
    requires k <= |batches| && start + |batches| <= |log| && NoneEmpty(batches)
    ensures var kept, all := KeptOf(oracle, log, start, batches, k), Flatten(batches[..k]);
            && |kept| <= |all|
            && (|kept| == |all| <==> forall i :: 0 <= i < k ==> IsKept(oracle, log, start, |batches|, i))
            && (|kept| == |all| ==> kept == all)
            && (kept == [] <==> forall i :: 0 <= i < k ==> !IsKept(oracle, log, start, |batches|, i))
  {
    hide IsKept, Flatten;
    if k == 0 {
      NothingTaken();
    } else {
      KeptLength(oracle, log, start, batches, k - 1);
      FlattenAppend(batches[..k - 1], batches[k - 1]);
      assert batches[..k] == batches[..k - 1] + [batches[k - 1]];
    }
  }

  /** What is kept of everything a buffer took out, in a run that started with `log`. */
  function KeptBy(oracle: Oracle, log: seq<Request>, b: Buffer): seq<Message>
    requires |b.log| == |log| + |b.batches|
  {
    KeptOf(oracle, b.log, |log|, b.batches, |b.batches|)
  }

  lemma AllKeptIffAllHaveText(oracle: Oracle, log: seq<Request>, start: nat, n: nat)
    requires start + n <= |log|
    ensures (forall i :: 0 <= i < n ==> IsKept(oracle, log, start, n, i))
            <==> forall i :: 0 <= i < n ==> HasText(ReplyTo(oracle, log, start, i))
  {
    hide ReplyTo, HasText;
    if forall i :: 0 <= i < n ==> IsKept(oracle, log, start, n, i) {
      forall i | 0 <= i < n
        ensures HasText(ReplyTo(oracle, log, start, i))
      {
        assert IsKept(oracle, log, start, n, i);
      }
    } else {
      var i :| 0 <= i < n && !IsKept(oracle, log, start, n, i);
      if ReplyTo(oracle, log, start, i).Ok? {
        var j :| i <= j < n && ReplyTo(oracle, log, start, j).Ok? && !HasText(ReplyTo(oracle, log, start, j));
      } else {
        FailureHasNoText(ReplyTo(oracle, log, start, i));
      }
    }
  }

  lemma FailureHasNoText(reply: Result<Response>)
    ensures reply.Err? ==> !HasText(reply)
  {
  }

  /** The memory keeps the conversation, as what its summary still stands for followed by what it still
      holds, exactly if every reply to a request for a summary was a success with some text. */
  lemma KeepsEverythingIffEverySummaryHasText(policy: Policy, oracle: Oracle, log: seq<Request>, added: seq<Message>)
    ensures var b := BufferAfter(policy, oracle, log, added);
            && |b.log| == |log| + |b.batches|
            && (KeptBy(oracle, log, b) + b.messages == added
                <==> forall i :: 0 <= i < |b.batches| ==> HasText(ReplyTo(oracle, b.log, |log|, i)))
  {
    hide BufferAfter, KeptOf, IsKept, HasText, ReplyTo, Flatten, NoneEmpty;
    EveryMessageIsAccountedFor(policy, oracle, log, added);
    EachBatchIsSummarisedOnce(policy, oracle, log, added);
    var b := BufferAfter(policy, oracle, log, added);
    KeptLength(oracle, b.log, |log|, b.batches, |b.batches|);
    assert b.batches[..|b.batches|] == b.batches;
    AllKeptIffAllHaveText(oracle, b.log, |log|, |b.batches|);
  }

  lemma {:induction false} SummaryIffSomeKept(oracle: Oracle, log: seq<Request>, start: nat, n: nat)
    requires start + n <= |log|
    ensures LastSummary(oracle, log, start, n) != [] <==> exists i :: 0 <= i < n && IsKept(oracle, log, start, n, i)
  {
    if n > 0 {
      SummaryIffSomeKept(oracle, log, start, n - 1);
      var last := ReplyTo(oracle, log, start, n - 1);
      if last.Err? {
        FailureKeeps(oracle, log, start, n - 1, n);
      } else if HasText(last) {
        assert IsKept(oracle, log, start, n, n - 1);
      } else {
        assert forall i :: 0 <= i < n ==> !IsKept(oracle, log, start, n, i);
      }
    }
  }

  /** A failure changes nothing about the batches before its own. */
  lemma FailureKeeps(oracle: Oracle, log: seq<Request>, start: nat, m: nat, n: nat)
    requires n == m + 1 && start + n <= |log| && ReplyTo(oracle, log, start, m).Err?
    ensures (exists i :: 0 <= i < m && IsKept(oracle, log, start, m, i))
            <==> exists i :: 0 <= i < n && IsKept(oracle, log, start, n, i)
  {
    forall i | 0 <= i < n
      ensures IsKept(oracle, log, start, n, i) <==> i < m && IsKept(oracle, log, start, m, i)
    {
    }
    if exists i :: 0 <= i < m && IsKept(oracle, log, start, m, i) {
      var i :| 0 <= i < m && IsKept(oracle, log, start, m, i);
      assert IsKept(oracle, log, start, n, i);
    }
  }

  /** The summary is empty exactly if nothing is kept. */
  lemma SummaryIsEmptyIffNothingKept(policy: Policy, oracle: Oracle, log: seq<Request>, added: seq<Message>)
    ensures var b := BufferAfter(policy, oracle, log, added);
            |b.log| == |log| + |b.batches| && (b.summary == [] <==> KeptBy(oracle, log, b) == [])
  {
    hide BufferAfter, KeptOf, IsKept, LastSummary, Flatten, NoneEmpty;
    EveryMessageIsAccountedFor(policy, oracle, log, added);
    EachBatchIsSummarisedOnce(policy, oracle, log, added);
    var b := BufferAfter(policy, oracle, log, added);
    KeptLength(oracle, b.log, |log|, b.batches, |b.batches|);
    SummaryIffSomeKept(oracle, b.log, |log|, |b.batches|);
  }

  /** A success without content is enough to lose everything: if every reply is one, nothing that was
      taken out is kept, though no request ever fails. */
  lemma EmptyRepliesLoseEverything(policy: Policy, oracle: Oracle, log: seq<Request>, added: seq<Message>)
    requires forall l :: oracle(l) == Ok(Response(None, None))
    ensures var b := BufferAfter(policy, oracle, log, added);
            && |b.log| == |log| + |b.batches| && b.summary == [] && KeptBy(oracle, log, b) == []
            && (forall i :: 0 <= i < |b.batches| ==> ReplyTo(oracle, b.log, |log|, i).Ok?)
  {
    hide BufferAfter, KeptBy;
    EachBatchIsSummarisedOnce(policy, oracle, log, added);
    SummaryIsEmptyIffNothingKept(policy, oracle, log, added);
  }

  // ---- From the agent's memory to the LLM ----

  /** The agent stores assistant messages without their tool calls. Then the whole memory is the
      context, and validation turns each tool result that names its call into a system message: the
      LLM sees what tools returned only in that form. */
  lemma StoredResultsReachTheLLMAsSystemMessages(ms: seq<Message>)
    requires forall m :: m in ms && m.role == Assistant ==> m.toolCalls == None
    ensures ContextOf(ms) == ms
    ensures Validated(true, ContextOf(ms)) == Ok(Repaired(ms)) && |Repaired(ms)| == |ms|
    ensures forall i :: 0 <= i < |ms| ==>
              Repaired(ms)[i] == if ms[i].role == Tool && ms[i].toolCallId.Some? then Converted(ms[i]) else ms[i]
  {
    hide Repaired, Validated, ContextOf, Unanswered, Unmatched, Converted;
    AutoFixAlwaysSucceeds(ms);
    RepairConserves(ms);
    NothingIsCalled(ms);
    PositionsAreUnmoved(ms, |ms|);
    forall i | 0 <= i < |ms|
      ensures Repaired(ms)[i] == if ms[i].role == Tool && ms[i].toolCallId.Some? then Converted(ms[i]) else ms[i]
    {
      PositionsAreUnmoved(ms, i);
    }
  }

  lemma NothingIsCalled(ms: seq<Message>)
    requires forall m :: m in ms && m.role == Assistant ==> m.toolCalls == None
    ensures ContextOf(ms) == ms
    ensures forall i :: 0 <= i < |ms| ==> Unanswered(ms, i) == []
    ensures forall i :: 0 <= i < |ms| ==> (Unmatched(ms, i) <==> ms[i].role == Tool && ms[i].toolCallId.Some?)
  {
    hide AnsweredFrom;
    forall i | 0 <= i < |ms|
      ensures CallIds(ms[i]) == [] && !CallsTools(ms[i])
    {
      assert ms[i] in ms;
    }
    assert LastCaller(ms, |ms|) == None;
  }

  lemma {:induction false} PositionsAreUnmoved(ms: seq<Message>, i: nat)
    requires i <= |ms| && forall k :: 0 <= k < |ms| ==> Unanswered(ms, k) == []
    ensures Position(ms, i) == i
  {
    if i > 0 {
      PositionsAreUnmoved(ms, i - 1);
    }
  }
}
