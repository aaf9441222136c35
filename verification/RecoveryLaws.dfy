/** What the recovering wrapper promises about every run, whatever the base LLM replies. */
module RecoveryLaws {
  import opened AutoRecovery
  import opened Messages
  import opened MessageValidation
  import opened RepairLaws
  import opened Sequences
  import opened Sorting
  import opened Utf8

  predicate AllIssueFree(requests: seq<Request>) {
    forall k :: 0 <= k < |requests| ==> IssueFree(requests[k].messages)
  }

  // ---- Putting in interrupted results ----

  lemma {:induction false} AnsweredDespiteInsertion(ms: seq<Message>, insertion: Insertion, from: nat, id: string)
    requires from <= insertion.index <= |ms| && insertion.message.role != User && AnsweredFrom(ms, from, id)
    ensures AnsweredFrom(InsertAt(ms, insertion), from, id)
    decreases insertion.index - from
  {
    var grown := InsertAt(ms, insertion);
    if from == insertion.index {
      assert grown == (ms[..from] + [insertion.message]) + ms[from..] && ms == ms[..from] + ms[from..];
      AnsweredInSuffix(ms[..from] + [insertion.message], ms[from..], 0, id);
      AnsweredInSuffix(ms[..from], ms[from..], 0, id);
      AnsweredBeyond(grown, from, from + 1, id);
    } else {
      assert grown[from] == ms[from];
      if !Answers(ms[from], id) {
        AnsweredDespiteInsertion(ms, insertion, from + 1, id);
      }
    }
  }

  lemma AnsweredAfterInsertion(ms: seq<Message>, insertion: Insertion, from: nat, id: string)
    requires insertion.index <= from <= |ms| && AnsweredFrom(ms, from, id)
    ensures AnsweredFrom(InsertAt(ms, insertion), from + 1, id)
  {
    var k := insertion.index;
    assert InsertAt(ms, insertion) == (ms[..k] + [insertion.message]) + ms[k..] && ms == ms[..k] + ms[k..];
    AnsweredInSuffix(ms[..k] + [insertion.message], ms[k..], from - k, id);
    AnsweredInSuffix(ms[..k], ms[k..], from - k, id);
  }

  lemma AvailableAfterInsertion(ms: seq<Message>, insertion: Insertion, id: string)
    requires insertion.index <= |ms| && Available(ms, id)
    ensures Available(InsertAt(ms, insertion), id)
  {
    var i :| 0 <= i < |ms| && id in CallIds(ms[i]);
    var grown := InsertAt(ms, insertion);
    assert ms[i] == grown[if i < insertion.index then i else i + 1];
  }

  /** A result that can be put anywhere: it is for a call that some message makes. */
  predicate IsResultFor(ms: seq<Message>, m: Message) {
    m.role == Tool && m.toolCallId.Some? && Available(ms, m.toolCallId.value)
  }

  lemma InsertionKeepsAnswers(ms: seq<Message>, insertion: Insertion, j: nat)
    requires insertion.index <= |ms| && IssueFree(ms) && IsResultFor(ms, insertion.message)
    requires j < |ms| + 1
    ensures Unanswered(InsertAt(ms, insertion), j) == []
  {
    hide AnsweredFrom, NotAnswered, Available;
    var grown, k := InsertAt(ms, insertion), insertion.index;
    NotAnsweredMembers(CallIds(grown[j]), grown, j + 1);
    if j != k {
      var i := if j < k then j else j - 1;
      assert grown[j] == ms[i] && Unanswered(ms, i) == [];
      NotAnsweredMembers(CallIds(ms[i]), ms, i + 1);
      forall id | id in CallIds(ms[i])
        ensures AnsweredFrom(grown, j + 1, id)
      {
        if j < k {
          AnsweredDespiteInsertion(ms, insertion, i + 1, id);
        } else {
          AnsweredAfterInsertion(ms, insertion, i + 1, id);
        }
      }
    }
  }

  /** Wherever such a result is put, it brings no issue. */
  lemma InsertionKeepsIssueFree(ms: seq<Message>, insertion: Insertion)
    requires insertion.index <= |ms| && IssueFree(ms) && IsResultFor(ms, insertion.message)
    ensures IssueFree(InsertAt(ms, insertion))
  {
    hide Unanswered, Available;
    var grown, k := InsertAt(ms, insertion), insertion.index;
    forall j | 0 <= j < |grown|
      ensures Unanswered(grown, j) == [] && !Unmatched(grown, j)
    {
      InsertionKeepsAnswers(ms, insertion, j);
      var m := grown[j];
      assert j != k ==> m == ms[if j < k then j else j - 1];
      if m.role == Tool && m.toolCallId.Some? {
        assert j != k ==> !Unmatched(ms, if j < k then j else j - 1);
        AvailableAfterInsertion(ms, insertion, m.toolCallId.value);
      }
    }
  }

  lemma {:induction false} InsertionsKeepIssueFree(ms: seq<Message>, insertions: seq<Insertion>)
    requires Fits(ms, insertions) && IssueFree(ms)
    requires forall k :: 0 <= k < |insertions| ==> IsResultFor(ms, insertions[k].message)
    ensures IssueFree(Inserted(ms, insertions))
    decreases |insertions|
  {
    hide IssueFree, Available, InsertAt;
    if insertions != [] {
      InsertionKeepsIssueFree(ms, insertions[0]);
      InsertAtGrows(ms, insertions[0]);
      var grown := InsertAt(ms, insertions[0]);
      forall k | 0 <= k < |insertions[1..]|
        ensures IsResultFor(grown, insertions[1..][k].message)
      {
        AvailableAfterInsertion(ms, insertions[0], insertions[1 + k].message.toolCallId.value);
      }
      InsertionsKeepIssueFree(grown, insertions[1..]);
    }
  }

  lemma InsertAtGrows(ms: seq<Message>, insertion: Insertion)
    requires insertion.index <= |ms|
    ensures |InsertAt(ms, insertion)| == |ms| + 1
    ensures Subsequence(ms, InsertAt(ms, insertion))
  {
    var k := insertion.index;
    SubsequenceOfItself(ms[..k]);
    SubsequenceOfItself(ms[k..]);
    SubsequencePadded(ms[..k], [], ms[..k], [insertion.message]);
    assert [] + ms[..k] + [insertion.message] == ms[..k] + [insertion.message];
    SubsequenceConcat(ms[..k], ms[..k] + [insertion.message], ms[k..], ms[k..]);
    assert ms[..k] + ms[k..] == ms;
  }

  lemma {:induction false} InsertedGrows(ms: seq<Message>, insertions: seq<Insertion>)
    requires Fits(ms, insertions)
    ensures |Inserted(ms, insertions)| == |ms| + |insertions|
    ensures Subsequence(ms, Inserted(ms, insertions))
    decreases |insertions|
  {
    hide Subsequence, InsertAt;
    if insertions == [] {
      SubsequenceOfItself(ms);
    } else {
      InsertAtGrows(ms, insertions[0]);
      var grown := InsertAt(ms, insertions[0]);
      InsertedGrows(grown, insertions[1..]);
      SubsequenceIsTransitive(ms, grown, Inserted(grown, insertions[1..]));
    }
  }

  /** The first of `ids` that is missing. */
  predicate IsFirstMissing(ids: seq<string>, missing: seq<string>, id: string) {
    exists k :: 0 <= k < |ids| && ids[k] == id && id in missing && forall j :: 0 <= j < k ==> ids[j] !in missing
  }

  lemma {:induction false} FirstMissingIsFirst(ids: seq<string>, missing: seq<string>)
    ensures FirstMissing(ids, missing).Some? <==> exists id :: id in ids && id in missing
    ensures FirstMissing(ids, missing).Some? ==> IsFirstMissing(ids, missing, FirstMissing(ids, missing).value)
  {
    if ids != [] {
      FirstMissingIsFirst(ids[1..], missing);
      assert forall id :: id in ids <==> id == ids[0] || id in ids[1..];
      if ids[0] !in missing && FirstMissing(ids[1..], missing).Some? {
        var id := FirstMissing(ids[1..], missing).value;
        var k :| 0 <= k < |ids[1..]| && ids[1..][k] == id && id in missing
          && forall j :: 0 <= j < k ==> ids[1..][j] !in missing;
        assert ids[k + 1] == id;
        forall j | 0 <= j < k + 1
          ensures ids[j] !in missing
        {
          assert j > 0 ==> ids[j] == ids[1..][j - 1];
        }
      }
    }
  }

  /** An insertion answers the first missing call of some assistant message `i`, and stands directly
      after the tool messages that follow it. */
  predicate IsPlaced(ms: seq<Message>, missing: seq<string>, insertion: Insertion, i: nat) {
    && i < insertion.index <= |ms|
    && insertion.message.role == Tool && insertion.message.toolCallId.Some?
    && IsFirstMissing(CallIds(ms[i]), missing, insertion.message.toolCallId.value)
    && (forall j :: i < j < insertion.index ==> ms[j].role == Tool)
    && (insertion.index < |ms| ==> ms[insertion.index].role != Tool)
  }

  predicate IsPlacedAmong(ms: seq<Message>, missing: seq<string>, insertion: Insertion, n: nat)
    requires n <= |ms|
  {
    exists i :: 0 <= i < n && IsPlaced(ms, missing, insertion, i)
  }

  /** The last insertion answers message `n - 1`, if that made a missing call. */
  lemma LastInsertion(ms: seq<Message>, missing: seq<string>, n: nat)
    requires 0 < n <= |ms|
    ensures var before, r := Insertions(ms, missing, n - 1), Insertions(ms, missing, n);
            if exists id :: id in CallIds(ms[n - 1]) && id in missing
            then |r| == |before| + 1 && r[..|before|] == before && IsPlaced(ms, missing, r[|before|], n - 1)
            else r == before
  {
    hide CallIds;
    FirstMissingIsFirst(CallIds(ms[n - 1]), missing);
  }

  /** Every insertion is placed so. */
  lemma {:induction false} InsertionsArePlaced(ms: seq<Message>, missing: seq<string>, n: nat)
    requires n <= |ms|
    ensures forall k :: 0 <= k < |Insertions(ms, missing, n)| ==>
            IsPlacedAmong(ms, missing, Insertions(ms, missing, n)[k], n)
  {
    hide IsPlaced, CallIds;
    if n > 0 {
      InsertionsArePlaced(ms, missing, n - 1);
      LastInsertion(ms, missing, n);
      var before, r := Insertions(ms, missing, n - 1), Insertions(ms, missing, n);
      forall k | 0 <= k < |r|
        ensures IsPlacedAmong(ms, missing, r[k], n)
      {
        if k < |before| {
          assert r[k] == before[k];
          assert IsPlacedAmong(ms, missing, before[k], n - 1);
        }
      }
    }
  }

  /** Every message that made a missing call gets a result. */
  lemma {:induction false} MissingCallsGetResults(ms: seq<Message>, missing: seq<string>, n: nat, i: nat)
    requires i < n <= |ms| && exists id :: id in CallIds(ms[i]) && id in missing
    ensures exists k :: 0 <= k < |Insertions(ms, missing, n)| && IsPlaced(ms, missing, Insertions(ms, missing, n)[k], i)
    decreases n
  {
    hide IsPlaced, CallIds;
    LastInsertion(ms, missing, n);
    var before, r := Insertions(ms, missing, n - 1), Insertions(ms, missing, n);
    if i < n - 1 {
      MissingCallsGetResults(ms, missing, n - 1, i);
      var k :| 0 <= k < |before| && IsPlaced(ms, missing, before[k], i);
      assert r[k] == before[k];
    }
  }

  lemma SortedInsertionsAreResults(ms: seq<Message>, missing: seq<string>)
    ensures forall k :: 0 <= k < |SortedInsertions(ms, missing)| ==>
            IsResultFor(ms, SortedInsertions(ms, missing)[k].message)
  {
    hide Sort, Insertions;
    var r, sorted := Insertions(ms, missing, |ms|), SortedInsertions(ms, missing);
    InsertionsArePlaced(ms, missing, |ms|);
    SortPermutes(r, LaterInsertionFirst);
    forall k | 0 <= k < |sorted|
      ensures IsResultFor(ms, sorted[k].message)
    {
      assert sorted[k] in sorted;
      var j :| 0 <= j < |r| && r[j] == sorted[k];
      assert IsPlacedAmong(ms, missing, r[j], |ms|);
    }
  }

  // ---- Where everything is after recovery ----

  predicate StrictlyDescending(insertions: seq<Insertion>) {
    forall a, b :: 0 <= a < b < |insertions| ==> insertions[a].index > insertions[b].index
  }

  predicate Ascending(insertions: seq<Insertion>, last: nat) {
    && (forall a, b :: 0 <= a < b < |insertions| ==> insertions[a].index < insertions[b].index)
    && (forall a :: 0 <= a < |insertions| ==> insertions[a].index <= last)
  }

  /** Each message that made a missing call has its insertion before the next such message. */
  lemma {:induction false} InsertionsAscend(ms: seq<Message>, missing: seq<string>, n: nat)
    requires n <= |ms|
    ensures var r := Insertions(ms, missing, n);
            Ascending(r, AfterResults(ms, n))
  {
    hide CallIds, FirstMissing, AfterResults;
    if n > 0 {
      InsertionsAscend(ms, missing, n - 1);
      NoCallsByTools(ms[n - 1], missing);
      AfterResultsStep(ms, n - 1);
      var id := FirstMissing(CallIds(ms[n - 1]), missing);
      var before, r := Insertions(ms, missing, n - 1), Insertions(ms, missing, n);
      if id.Some? {
        assert r == before + [Insertion(AfterResults(ms, n), InterruptedResult(id.value))];
        assert AfterResults(ms, n - 1) == n - 1;
        assert forall a :: 0 <= a < |before| ==> r[a] == before[a] && before[a].index <= n - 1;
        assert AfterResults(ms, n) >= n;
      } else {
        assert r == before;
        assert AfterResults(ms, n - 1) <= AfterResults(ms, n);
      }
    }
  }

  lemma AfterResultsStep(ms: seq<Message>, i: nat)
    requires i < |ms|
    ensures AfterResults(ms, i) == if ms[i].role == Tool then AfterResults(ms, i + 1) else i
  {
  }

  lemma NoCallsByTools(m: Message, missing: seq<string>)
    ensures FirstMissing(CallIds(m), missing).Some? ==> m.role != Tool
  {
    assert FirstMissing([], missing) == None;
  }

  lemma LaterInsertionFirstIsAPreorder()
    ensures TotalPreorder(LaterInsertionFirst)
  {
  }

  lemma SortedInsertionsDescend(ms: seq<Message>, missing: seq<string>)
    ensures StrictlyDescending(SortedInsertions(ms, missing))
    ensures forall x :: x in SortedInsertions(ms, missing) <==> x in Insertions(ms, missing, |ms|)
    ensures |SortedInsertions(ms, missing)| == |Insertions(ms, missing, |ms|)|
  {
    hide Sort, Insertions;
    var r := Insertions(ms, missing, |ms|);
    InsertionsAscend(ms, missing, |ms|);
    LaterInsertionFirstIsAPreorder();
    SortSorts(r, LaterInsertionFirst);
    SortPermutes(r, LaterInsertionFirst);
    SortKeepsUnique(r, LaterInsertionFirst);
    var sorted := SortedInsertions(ms, missing);
    forall a, b | 0 <= a < b < |sorted|
      ensures sorted[a].index > sorted[b].index
    {
      assert LaterInsertionFirst(sorted[a], sorted[b]);
      assert sorted[a] in sorted && sorted[b] in sorted;
      var i :| 0 <= i < |r| && r[i] == sorted[a];
      var j :| 0 <= j < |r| && r[j] == sorted[b];
      assert sorted[a] != sorted[b];
    }
  }

  /** How many of the insertions go before or at place `i`. */
  function UpTo(insertions: seq<Insertion>, i: nat): nat {
    if insertions == [] then 0 else (if insertions[0].index <= i then 1 else 0) + UpTo(insertions[1..], i)
  }

  lemma {:induction false} UpToAll(insertions: seq<Insertion>, i: nat)
    requires forall k :: 0 <= k < |insertions| ==> insertions[k].index <= i
    ensures UpTo(insertions, i) == |insertions|
  {
    if insertions != [] {
      UpToAll(insertions[1..], i);
    }
  }

  lemma {:induction false} UpToAtMost(insertions: seq<Insertion>, i: nat)
    ensures UpTo(insertions, i) <= |insertions|
  {
    if insertions != [] {
      UpToAtMost(insertions[1..], i);
    }
  }

  /** Each of the insertions, the last one first, comes after the insertions that are before it. */
  predicate InsertionsAt(d: seq<Insertion>, r: seq<Message>) {
    forall k :: 0 <= k < |d| ==> d[k].index + (|d| - 1 - k) < |r| && r[d[k].index + (|d| - 1 - k)] == d[k].message
  }

  /** Each message comes after the messages and the insertions that are before it. */
  predicate MessagesAt(ms: seq<Message>, d: seq<Insertion>, r: seq<Message>) {
    forall i :: 0 <= i < |ms| ==> UpTo(d, i) <= |d| && i + UpTo(d, i) < |r| && r[i + UpTo(d, i)] == ms[i]
  }

  /** Inserted last first, everything comes where it belongs. */
  lemma {:induction false} InsertedPlaces(ms: seq<Message>, d: seq<Insertion>)
    requires Fits(ms, d) && StrictlyDescending(d)
    ensures var r := Inserted(ms, d);
            |r| == |ms| + |d| && InsertionsAt(d, r) && MessagesAt(ms, d, r)
    decreases |d|
  {
    hide Inserted, InsertAt, StrictlyDescending, Fits, InsertionsAt, MessagesAt;
    if d == [] {
      NothingInserted(ms);
    } else {
      FirstGoesLast(ms, d);
      InsertedPlaces(InsertAt(ms, d[0]), d[1..]);
      OneMoreInsertion(InsertAt(ms, d[0]), d, Inserted(ms, d));
      MessagesMakeRoom(ms, InsertAt(ms, d[0]), d, Inserted(ms, d));
    }
  }

  lemma NothingInserted(ms: seq<Message>)
    ensures Fits(ms, []) && Inserted(ms, []) == ms && InsertionsAt([], ms) && MessagesAt(ms, [], ms)
  {
    hide UpTo;
    NoneUpTo();
  }

  lemma OneMoreInsertion(grown: seq<Message>, d: seq<Insertion>, r: seq<Message>)
    requires d != [] && InsertionsAt(d[1..], r) && MessagesAt(grown, d[1..], r)
    requires d[0].index < |grown| && grown[d[0].index] == d[0].message
    requires forall k :: 0 <= k < |d[1..]| ==> d[1..][k].index < d[0].index
    ensures InsertionsAt(d, r)
  {
    hide UpTo;
    UpToAll(d[1..], d[0].index);
    forall k | 0 <= k < |d|
      ensures d[k].index + (|d| - 1 - k) < |r| && r[d[k].index + (|d| - 1 - k)] == d[k].message
    {
      if k > 0 {
        assert d[k] == d[1..][k - 1];
      }
    }
  }

  lemma MessagesMakeRoom(ms: seq<Message>, grown: seq<Message>, d: seq<Insertion>, r: seq<Message>)
    requires d != [] && MessagesAt(grown, d[1..], r) && |grown| == |ms| + 1
    requires forall k :: 0 <= k < |d[1..]| ==> d[1..][k].index < d[0].index
    requires forall i :: 0 <= i < |ms| ==> grown[if i < d[0].index then i else i + 1] == ms[i]
    ensures MessagesAt(ms, d, r)
  {
    hide UpTo;
    forall i | 0 <= i < |ms|
      ensures UpTo(d, i) <= |d| && i + UpTo(d, i) < |r| && r[i + UpTo(d, i)] == ms[i]
    {
      UpToFirst(d, i);
      UpToAtMost(d[1..], i);
      if i >= d[0].index {
        UpToAll(d[1..], i);
        UpToAll(d[1..], i + 1);
        assert grown[i + 1] == ms[i];
      } else {
        assert grown[i] == ms[i];
      }
    }
  }

  /** What putting in the first of some descending insertions leaves to do. */
  lemma FirstGoesLast(ms: seq<Message>, insertions: seq<Insertion>)
    requires insertions != [] && Fits(ms, insertions) && StrictlyDescending(insertions)
    ensures insertions[0].index <= |ms|
    ensures var first, rest, grown := insertions[0], insertions[1..], InsertAt(ms, insertions[0]);
            && Fits(grown, rest) && StrictlyDescending(rest) && Inserted(ms, insertions) == Inserted(grown, rest)
            && (forall k :: 0 <= k < |rest| ==> rest[k].index < first.index)
            && |grown| == |ms| + 1 && grown[first.index] == first.message
            && (forall i :: 0 <= i < |ms| ==> grown[if i < first.index then i else i + 1] == ms[i])
  {
    InsertAtPlaces(ms, insertions[0]);
    hide InsertAt;
    assert forall k :: 0 <= k < |insertions[1..]| ==> insertions[1..][k] == insertions[k + 1];
  }

  lemma InsertAtPlaces(ms: seq<Message>, insertion: Insertion)
    requires insertion.index <= |ms|
    ensures var grown := InsertAt(ms, insertion);
            && |grown| == |ms| + 1 && grown[insertion.index] == insertion.message
            && (forall i :: 0 <= i < |ms| ==> grown[if i < insertion.index then i else i + 1] == ms[i])
  {
  }

  lemma NoneUpTo()
    ensures forall i :: UpTo([], i) == 0
  {
  }

  lemma UpToFirst(insertions: seq<Insertion>, i: nat)
    requires insertions != []
    ensures UpTo(insertions, i) == (if insertions[0].index <= i then 1 else 0) + UpTo(insertions[1..], i)
  {
  }

  /** The recovered list, place by place: nothing but the messages, in order, and the insertions, each
      directly before the message that its index names. */
  lemma RecoveryPlaces(ms: seq<Message>, missing: seq<string>)
    ensures var d, r := SortedInsertions(ms, missing), WithInterruptedResults(ms, missing);
            && StrictlyDescending(d) && (forall x :: x in d <==> x in Insertions(ms, missing, |ms|))
            && |r| == |ms| + |d|
            && InsertionsAt(d, r) && MessagesAt(ms, d, r)
  {
    hide Inserted, Insertions, UpTo, Sort;
    SortedInsertionsDescend(ms, missing);
    InsertedPlaces(ms, SortedInsertions(ms, missing));
  }

  /** Recovering a list without issues brings none, so the validation that follows has nothing to do:
      with or without automatic repair it accepts the list as it is, and no message is lost. */
  lemma RecoveryKeepsIssueFree(s: Settings, ms: seq<Message>, message: seq<byte>)
    requires IssueFree(ms)
    ensures var grown := WithInterruptedResults(ms, s.extractIds(message));
            && IssueFree(grown) && Subsequence(ms, grown)
            && s.RecoveredFromToolCalls(ms, message) == Ok(grown)
  {
    hide Inserted, Subsequence, IssueFree, SortedInsertions;
    var missing := s.extractIds(message);
    SortedInsertionsAreResults(ms, missing);
    InsertionsKeepIssueFree(ms, SortedInsertions(ms, missing));
    InsertedGrows(ms, SortedInsertions(ms, missing));
    NoIssuesIffIssueFree(WithInterruptedResults(ms, missing));
  }

  // ---- The fallbacks ----

  lemma NoCallsNoIssues(ms: seq<Message>)
    requires forall j :: 0 <= j < |ms| ==> CallIds(ms[j]) == [] && (ms[j].role == Tool ==> ms[j].toolCallId == None)
    ensures IssueFree(ms)
  {
  }

  lemma {:induction false} OnlyConversationIsClean(ms: seq<Message>)
    ensures forall m :: m in OnlyConversation(ms) ==> CallIds(m) == [] && m.role != Tool
  {
    if ms != [] {
      OnlyConversationIsClean(ms[1..]);
    }
  }

  lemma {:induction false} LastUserIsUser(ms: seq<Message>)
    ensures LastUser(ms).Some? ==> LastUser(ms).value.role == User && LastUser(ms).value in ms
    ensures LastUser(ms) == None ==> forall m :: m in ms ==> m.role != User
  {
    if ms != [] && ms[|ms| - 1].role != User {
      LastUserIsUser(ms[..|ms| - 1]);
      assert ms == ms[..|ms| - 1] + [ms[|ms| - 1]];
    }
  }

  /** Whatever the messages, no fallback sends a list with issues. */
  lemma FallbackIsIssueFree(ms: seq<Message>, attempt: nat)
    requires FallbackMessages(ms, attempt).Some?
    ensures IssueFree(FallbackMessages(ms, attempt).value)
  {
    hide IssueFree;
    OnlyConversationIsClean(ms);
    LastUserIsUser(ms);
    NoCallsNoIssues(FallbackMessages(ms, attempt).value);
  }

  /** `b` is what the first fallback makes of `a`. */
  predicate IsStripped(a: Message, b: Message) {
    match a.role
    case Assistant => b == a.(toolCalls := None)
    case Tool => b == Message(System, Ascii("Previous result: ") + a.content, None, a.toolCalls)
    case _ => b == a
  }

  /** The places of the user's and the assistant's messages among the first `n`. */
  function TalkPlaces(ms: seq<Message>, n: nat): set<nat>
    requires n <= |ms|
  {
    set i: nat | i < n && (ms[i].role == User || ms[i].role == Assistant)
  }

  predicate IsLastUser(ms: seq<Message>, i: int) {
    0 <= i < |ms| && ms[i].role == User && forall j :: i < j < |ms| ==> ms[j].role != User
  }

  /** What fallback `k` sends, by position: everything, without tool calls and with results as system
      messages; the user's and the assistant's messages only; the user's last message only, or a generic
      one if there is none. */
  ghost predicate IsFallback(ms: seq<Message>, k: nat, sent: seq<Message>) {
    match k
    case 1 => |sent| == |ms| && forall i :: 0 <= i < |ms| ==> IsStripped(ms[i], sent[i])
    case 2 =>
      && |sent| == |TalkPlaces(ms, |ms|)|
      && (forall i :: i in TalkPlaces(ms, |ms|) ==>
            |TalkPlaces(ms, i)| < |sent| && IsStripped(ms[i], sent[|TalkPlaces(ms, i)|]))
    case 3 =>
      || (exists i :: IsLastUser(ms, i) && sent == [ms[i]])
      || ((forall i :: 0 <= i < |ms| ==> ms[i].role != User)
          && sent == [Message(User, Ascii("Please continue our conversation."), None, None)])
    case _ => false
  }

  lemma {:induction false} OnlyConversationConcat(a: seq<Message>, b: seq<Message>)
    ensures OnlyConversation(a + b) == OnlyConversation(a) + OnlyConversation(b)
  {
    hide OnlyConversation;
    OnlyConversationUnfold(a);
    if a == [] {
      assert a + b == b;
    } else {
      OnlyConversationConcat(a[1..], b);
      OnlyConversationUnfold(a + b);
      assert (a + b)[1..] == a[1..] + b;
    }
  }

  lemma OnlyConversationUnfold(ms: seq<Message>)
    ensures OnlyConversation(ms) ==
            if ms == [] then []
            else
              (if ms[0].role == User || ms[0].role == Assistant then [WithoutTools(ms[0])] else [])
              + OnlyConversation(ms[1..])
  {
  }

  lemma NoTalk(ms: seq<Message>)
    ensures TalkPlaces(ms, 0) == {}
  {
  }

  lemma TalkPlacesStep(ms: seq<Message>, n: nat)
    requires n < |ms|
    ensures |TalkPlaces(ms, n + 1)|
            == |TalkPlaces(ms, n)| + (if ms[n].role == User || ms[n].role == Assistant then 1 else 0)
  {
    var places := TalkPlaces(ms, n);
    assert TalkPlaces(ms, n + 1) == if ms[n].role == User || ms[n].role == Assistant then places + {n} else places;
  }

  lemma OnlyConversationOne(m: Message)
    ensures |OnlyConversation([m])| == if m.role == User || m.role == Assistant then 1 else 0
  {
    assert [m][1..] == [];
  }

  lemma {:induction false} OnlyConversationLength(ms: seq<Message>, n: nat)
    requires n <= |ms|
    ensures |OnlyConversation(ms[..n])| == |TalkPlaces(ms, n)|
  {
    hide WithoutTools, OnlyConversation, TalkPlaces;
    OnlyConversationUnfold([]);
    NoTalk(ms);
    if n > 0 {
      OnlyConversationLength(ms, n - 1);
      OnlyConversationConcat(ms[..n - 1], [ms[n - 1]]);
      assert ms[..n] == ms[..n - 1] + [ms[n - 1]];
      OnlyConversationOne(ms[n - 1]);
      TalkPlacesStep(ms, n - 1);
    }
  }

  lemma OnlyConversationAt(ms: seq<Message>, i: nat)
    requires i in TalkPlaces(ms, |ms|)
    ensures |TalkPlaces(ms, i)| < |OnlyConversation(ms)|
    ensures IsStripped(ms[i], OnlyConversation(ms)[|TalkPlaces(ms, i)|])
  {
    OnlyConversationConcat(ms[..i], ms[i..]);
    assert ms == ms[..i] + ms[i..];
    OnlyConversationLength(ms, i);
    assert OnlyConversation(ms[i..])[0] == WithoutTools(ms[i]);
  }

  lemma {:induction false} LastUserIsLast(ms: seq<Message>)
    ensures LastUser(ms).Some? ==> exists i :: IsLastUser(ms, i) && LastUser(ms).value == ms[i]
    ensures LastUser(ms) == None ==> forall i :: 0 <= i < |ms| ==> ms[i].role != User
  {
    if ms != [] {
      var n := |ms| - 1;
      if ms[n].role == User {
        assert IsLastUser(ms, n);
      } else {
        LastUserIsLast(ms[..n]);
        if LastUser(ms).Some? {
          var i :| IsLastUser(ms[..n], i) && LastUser(ms).value == ms[..n][i];
          assert IsLastUser(ms, i);
        }
      }
    }
  }

  /** Each fallback sends just that; and there are three. */
  lemma FallbacksAreAsSaid(ms: seq<Message>, k: nat)
    ensures FallbackMessages(ms, k).Some? <==> 1 <= k <= 3
    ensures 1 <= k <= 3 ==> IsFallback(ms, k, FallbackMessages(ms, k).value)
  {
    hide OnlyConversation, LastUser;
    if k == 2 {
      OnlyConversationLength(ms, |ms|);
      assert ms[..|ms|] == ms;
      forall i | i in TalkPlaces(ms, |ms|)
        ensures |TalkPlaces(ms, i)| < |OnlyConversation(ms)|
        ensures IsStripped(ms[i], OnlyConversation(ms)[|TalkPlaces(ms, i)|])
      {
        OnlyConversationAt(ms, i);
      }
    } else if k == 3 {
      LastUserIsLast(ms);
    }
  }

  // ---- Whole runs of `Generate` ----

  /** What validation accepts has no issues, with or without automatic repair. */
  lemma ValidatedIsIssueFree(autoFix: bool, ms: seq<Message>)
    requires Validated(autoFix, ms).Ok?
    ensures IssueFree(Validated(autoFix, ms).value)
  {
    hide Validated, Repaired, IssueFree;
    if autoFix {
      AutoFixAlwaysSucceeds(ms);
      RepairIsComplete(ms);
    } else {
      WithoutAutoFix(ms);
    }
  }

  lemma RecoveredIsIssueFree(s: Settings, ms: seq<Message>, error: AgentError)
    requires s.RecoveredMessages(ms, error).Ok?
    ensures IssueFree(s.RecoveredMessages(ms, error).value)
  {
    hide Validated, IssueFree, WithInterruptedResults, IsToolCallsValidationError, IsRecoverable400Error;
    if IsToolCallsValidationError(error) {
      ValidatedIsIssueFree(s.validator.autoFix, WithInterruptedResults(ms, s.extractIds(error.message)));
    } else if IsRecoverable400Error(error) {
      ValidatedIsIssueFree(s.validator.autoFix, ms);
    }
  }

  /** One attempt adds at most one request to the log, and never one with issues. */
  lemma AttemptIsSafe(s: Settings, oracle: Oracle, log: seq<Request>, ms: seq<Message>,
                      tools: Option<seq<ToolMetadata>>, error: AgentError, attempt: nat)
    ensures var log' := s.Attempt(oracle, log, ms, tools, error, attempt).log;
            log <= log' && |log'| <= |log| + 1 && AllIssueFree(log'[|log|..])
  {
    hide IssueFree, IsRecoverable400Error, Settings.RecoveredMessages, FallbackMessages, Exhausted;
    if IsRecoverable400Error(error) {
      if s.RecoveredMessages(ms, error).Ok? {
        RecoveredIsIssueFree(s, ms, error);
      }
    } else if FallbackMessages(ms, attempt).Some? {
      FallbackIsIssueFree(ms, attempt);
    }
  }

  lemma {:induction false} RetriedIsSafe(s: Settings, oracle: Oracle, log: seq<Request>, ms: seq<Message>,
                                         tools: Option<seq<ToolMetadata>>, error: AgentError, attempt: nat)
    requires attempt <= s.maxRetries + 1
    ensures var log' := s.Retried(oracle, log, ms, tools, error, attempt).log;
            log <= log' && |log'| <= |log| + (s.maxRetries + 1 - attempt) && AllIssueFree(log'[|log|..])
    decreases s.maxRetries + 1 - attempt
  {
    hide IssueFree, Settings.Attempt;
    if attempt <= s.maxRetries {
      AttemptIsSafe(s, oracle, log, ms, tools, error, attempt);
      var tried := s.Attempt(oracle, log, ms, tools, error, attempt);
      if !(tried.reply.Ok? || attempt == s.maxRetries) {
        RetriedIsSafe(s, oracle, tried.log, ms, tools, error, attempt + 1);
        var log' := s.Retried(oracle, tried.log, ms, tools, error, attempt + 1).log;
        assert log'[|log|..] == tried.log[|log|..] + log'[|tried.log|..];
      }
    }
  }

  /** Safety of a run, whatever the base LLM replies: no request it receives has an issue exactly if
      repair is automatic or the caller's list had none, for only the first request is not validated;
      and it receives at least one and at most one more than the retries allow. */
  lemma GenerateIsSafe(s: Settings, oracle: Oracle, log: seq<Request>, ms: seq<Message>,
                       tools: Option<seq<ToolMetadata>>)
    ensures var log' := s.Generated(oracle, log, ms, tools).log;
            && log < log' && |log'| <= |log| + 1 + s.maxRetries
            && (AllIssueFree(log'[|log|..]) <==> s.validator.autoFix || IssueFree(ms))
            && AllIssueFree(log'[|log| + 1..])
  {
    hide IssueFree, Validated, Settings.Retried, Repaired;
    FirstIsIssueFree(s, ms);
    var first := Called(oracle, log, Request(s.FirstMessages(ms), tools));
    var log' := s.Generated(oracle, log, ms, tools).log;
    if first.reply.Err? {
      RetriedIsSafe(s, oracle, first.log, s.FirstMessages(ms), tools, first.reply.error, 1);
      assert log'[|log|..] == first.log[|log|..] + log'[|first.log|..];
    }
    assert log'[|log|..][0] == Request(s.FirstMessages(ms), tools);
  }

  lemma FirstIsIssueFree(s: Settings, ms: seq<Message>)
    ensures IssueFree(s.FirstMessages(ms)) <==> s.validator.autoFix || IssueFree(ms)
  {
    hide Validated, Repaired, IssueFree;
    if s.validator.autoFix {
      AutoFixAlwaysSucceeds(ms);
      RepairIsComplete(ms);
    } else {
      WithoutAutoFix(ms);
    }
  }

  // ---- What is sent, request by request ----

  /** Retry number `k` after `error`: what was recovered, with the same tools and with results put in for
      the calls that the error names, if it is about such; or fallback `k`, without any tools. */
  ghost predicate IsRetry(s: Settings, ms: seq<Message>, tools: Option<seq<ToolMetadata>>, error: AgentError, k: nat,
                          request: Request) {
    if IsRecoverable400Error(error) then
      && request.tools == tools
      && Ok(request.messages) == Validated(s.validator.autoFix,
           if IsToolCallsValidationError(error) then WithInterruptedResults(ms, s.extractIds(error.message)) else ms)
    else
      request.tools == None && IsFallback(ms, k, request.messages)
  }

  lemma {:induction false} RetriesAreAsSaid(s: Settings, oracle: Oracle, log: seq<Request>, ms: seq<Message>,
                                            tools: Option<seq<ToolMetadata>>, error: AgentError, attempt: nat)
    requires attempt >= 1
    ensures var log' := s.Retried(oracle, log, ms, tools, error, attempt).log;
            && log <= log'
            && forall i :: |log| <= i < |log'| ==> IsRetry(s, ms, tools, error, attempt + (i - |log|), log'[i])
    ensures attempt > 3 && !IsRecoverable400Error(error) ==>
            s.Retried(oracle, log, ms, tools, error, attempt).log == log
    decreases s.maxRetries + 1 - attempt
  {
    hide IsToolCallsValidationError, FallbackMessages, IsFallback, Exhausted, WithInterruptedResults, Validated;
    if attempt <= s.maxRetries {
      var tried := s.Attempt(oracle, log, ms, tools, error, attempt);
      FallbacksAreAsSaid(ms, attempt);
      if !(tried.reply.Ok? || attempt == s.maxRetries) {
        RetriesAreAsSaid(s, oracle, tried.log, ms, tools, error, attempt + 1);
        NothingRecovered(s, oracle, log, ms, tools, error, attempt);
      }
    }
  }

  lemma NothingRecovered(s: Settings, oracle: Oracle, log: seq<Request>, ms: seq<Message>,
                         tools: Option<seq<ToolMetadata>>, error: AgentError, attempt: nat)
    ensures IsRecoverable400Error(error) && s.RecoveredMessages(ms, error).Err? ==>
              s.Retried(oracle, log, ms, tools, error, attempt).log == log
    decreases s.maxRetries + 1 - attempt
  {
    hide IsRecoverable400Error, Settings.RecoveredMessages;
    if attempt < s.maxRetries {
      NothingRecovered(s, oracle, log, ms, tools, error, attempt + 1);
    }
  }

  /** Every request of a run: first the repaired list, or the list as it is without automatic repair,
      with the caller's tools; then the retries in order. */
  lemma RequestsAreAsSaid(s: Settings, oracle: Oracle, log: seq<Request>, ms: seq<Message>,
                          tools: Option<seq<ToolMetadata>>)
    ensures var log' := s.Generated(oracle, log, ms, tools).log;
            var validated := if s.validator.autoFix then Repaired(ms) else ms;
            && |log| < |log'| && log <= log' && log'[|log|] == Request(validated, tools)
            && (|log'| > |log| + 1 ==>
                  && oracle(log + [Request(validated, tools)]).Err?
                  && var error := oracle(log + [Request(validated, tools)]).error;
                     forall i :: |log| < i < |log'| ==> IsRetry(s, validated, tools, error, i - |log|, log'[i]))
  {
    hide Validated, Repaired, IsRetry, Settings.Retried;
    AutoFixAlwaysSucceeds(ms);
    WithoutAutoFix(ms);
    var first := Called(oracle, log, Request(s.FirstMessages(ms), tools));
    if first.reply.Err? {
      RetriesAreAsSaid(s, oracle, first.log, s.FirstMessages(ms), tools, first.reply.error, 1);
    }
  }

  // ---- What the reply means ----

  /** Every base call between the two logs failed. */
  predicate AllFailed(oracle: Oracle, log: seq<Request>, log': seq<Request>) {
    forall k :: |log| < k <= |log'| ==> oracle(log'[..k]).Err?
  }

  /** A success is the reply to the last request, and everything before it failed; an error means
      that everything failed. */
  predicate ReplyIsHonest(oracle: Oracle, log: seq<Request>, o: Outcome) {
    && log <= o.log
    && (o.reply.Ok? ==> o.log != log && o.reply == oracle(o.log) && AllFailed(oracle, log, o.log[..|o.log| - 1]))
    && (o.reply.Err? ==> AllFailed(oracle, log, o.log))
  }

  lemma AttemptIsHonest(s: Settings, oracle: Oracle, log: seq<Request>, ms: seq<Message>,
                        tools: Option<seq<ToolMetadata>>, error: AgentError, attempt: nat)
    ensures ReplyIsHonest(oracle, log, s.Attempt(oracle, log, ms, tools, error, attempt))
  {
    hide IsRecoverable400Error, Settings.RecoveredMessages, FallbackMessages, Exhausted;
    var o := s.Attempt(oracle, log, ms, tools, error, attempt);
    assert o.log != log ==> o.log[..|o.log| - 1] == log && o.log[..|o.log|] == o.log;
  }

  lemma HonestThenHonest(oracle: Oracle, log: seq<Request>, failed: Outcome, o: Outcome)
    requires ReplyIsHonest(oracle, log, failed) && failed.reply.Err? && ReplyIsHonest(oracle, failed.log, o)
    ensures ReplyIsHonest(oracle, log, o)
  {
    var last := if o.reply.Ok? then o.log[..|o.log| - 1] else o.log;
    assert failed.log <= last;
    forall k | |log| < k <= |last|
      ensures oracle(last[..k]).Err?
    {
      if k <= |failed.log| {
        assert last[..k] == failed.log[..k];
      }
    }
  }

  lemma {:induction false} RetriedIsHonest(s: Settings, oracle: Oracle, log: seq<Request>, ms: seq<Message>,
                                           tools: Option<seq<ToolMetadata>>, error: AgentError, attempt: nat)
    ensures ReplyIsHonest(oracle, log, s.Retried(oracle, log, ms, tools, error, attempt))
    decreases s.maxRetries + 1 - attempt
  {
    hide Settings.Attempt, ReplyIsHonest;
    if attempt > s.maxRetries {
      NoCallsIsHonest(oracle, log, error);
    } else {
      AttemptIsHonest(s, oracle, log, ms, tools, error, attempt);
      var tried := s.Attempt(oracle, log, ms, tools, error, attempt);
      if !(tried.reply.Ok? || attempt == s.maxRetries) {
        RetriedIsHonest(s, oracle, tried.log, ms, tools, error, attempt + 1);
        HonestThenHonest(oracle, log, tried, s.Retried(oracle, tried.log, ms, tools, error, attempt + 1));
      }
    }
  }

  lemma NoCallsIsHonest(oracle: Oracle, log: seq<Request>, error: AgentError)
    ensures ReplyIsHonest(oracle, log, Outcome(log, Err(error)))
  {
  }

  /** The caller gets an answer as soon as the base LLM gives one, and an error only if every request
      sent failed. */
  lemma GenerateIsHonest(s: Settings, oracle: Oracle, log: seq<Request>, ms: seq<Message>,
                         tools: Option<seq<ToolMetadata>>)
    ensures ReplyIsHonest(oracle, log, s.Generated(oracle, log, ms, tools))
  {
    hide Settings.Retried, Settings.FirstMessages;
    var validated := s.FirstMessages(ms);
    var first := Called(oracle, log, Request(validated, tools));
    assert first.log[..|first.log| - 1] == log && first.log[..|first.log|] == first.log;
    if first.reply.Err? {
      RetriedIsHonest(s, oracle, first.log, validated, tools, first.reply.error, 1);
      HonestThenHonest(oracle, log, first, s.Retried(oracle, first.log, validated, tools, first.reply.error, 1));
    }
  }

  /** How many requests one attempt sends: always one after a recoverable error, and one for each of
      the three fallbacks after any other. */
  function SentAt(error: AgentError, attempt: nat): nat {
    if IsRecoverable400Error(error) || 1 <= attempt <= 3 then 1 else 0
  }

  function SentFrom(error: AgentError, attempt: nat, maxRetries: nat): nat
    decreases maxRetries + 1 - attempt
  {
    if attempt > maxRetries then 0 else SentAt(error, attempt) + SentFrom(error, attempt + 1, maxRetries)
  }

  lemma {:induction false} RetriedSendsAll(s: Settings, oracle: Oracle, log: seq<Request>, ms: seq<Message>,
                                           tools: Option<seq<ToolMetadata>>, error: AgentError, attempt: nat)
    requires s.validator.autoFix && s.Retried(oracle, log, ms, tools, error, attempt).reply.Err?
    ensures |s.Retried(oracle, log, ms, tools, error, attempt).log| == |log| + SentFrom(error, attempt, s.maxRetries)
    decreases s.maxRetries + 1 - attempt
  {
    hide Settings.Attempt, SentAt;
    if attempt <= s.maxRetries {
      AttemptSends(s, oracle, log, ms, tools, error, attempt);
      var tried := s.Attempt(oracle, log, ms, tools, error, attempt);
      if attempt < s.maxRetries {
        RetriedSendsAll(s, oracle, tried.log, ms, tools, error, attempt + 1);
      }
    }
  }

  lemma RecoverySucceeds(s: Settings, ms: seq<Message>, error: AgentError)
    requires s.validator.autoFix && IsRecoverable400Error(error)
    ensures s.RecoveredMessages(ms, error).Ok?
  {
    hide Validated, Contains, WithInterruptedResults, Ascii;
    AutoFixAlwaysSucceeds(ms);
    AutoFixAlwaysSucceeds(WithInterruptedResults(ms, s.extractIds(error.message)));
  }

  lemma AttemptSends(s: Settings, oracle: Oracle, log: seq<Request>, ms: seq<Message>,
                     tools: Option<seq<ToolMetadata>>, error: AgentError, attempt: nat)
    requires s.validator.autoFix
    ensures |s.Attempt(oracle, log, ms, tools, error, attempt).log| == |log| + SentAt(error, attempt)
  {
    hide Settings.RecoveredMessages, IsRecoverable400Error, Exhausted, AllWithoutTools, OnlyConversation, LastUser,
         Ascii;
    if IsRecoverable400Error(error) {
      RecoverySucceeds(s, ms, error);
    }
  }

  lemma {:induction false} SentInAll(error: AgentError, attempt: nat, maxRetries: nat)
    requires 1 <= attempt <= maxRetries + 1
    ensures SentFrom(error, attempt, maxRetries) ==
            if IsRecoverable400Error(error) then maxRetries + 1 - attempt
            else if attempt > 3 then 0
            else (if maxRetries < 3 then maxRetries else 3) + 1 - attempt
    decreases maxRetries + 1 - attempt
  {
    hide IsRecoverable400Error;
    if attempt <= maxRetries {
      SentInAll(error, attempt + 1, maxRetries);
    }
  }

  /** Giving up takes every retry: with automatic repair, an error is returned only after the first
      request and one more for each retry, or for each of the fallbacks if the first error was not
      recoverable. */
  lemma GivingUpTakesEveryRetry(s: Settings, oracle: Oracle, log: seq<Request>, ms: seq<Message>,
                                tools: Option<seq<ToolMetadata>>)
    requires s.validator.autoFix && s.Generated(oracle, log, ms, tools).reply.Err?
    ensures var first := Called(oracle, log, Request(s.FirstMessages(ms), tools));
            && first.reply.Err?
            && |s.Generated(oracle, log, ms, tools).log| == |log| + 1 +
                 (if IsRecoverable400Error(first.reply.error) || s.maxRetries < 3 then s.maxRetries else 3)
  {
    hide Settings.Retried, Settings.FirstMessages, IsRecoverable400Error;
    var first := Called(oracle, log, Request(s.FirstMessages(ms), tools));
    RetriedSendsAll(s, oracle, first.log, s.FirstMessages(ms), tools, first.reply.error, 1);
    SentInAll(first.reply.error, 1, s.maxRetries);
  }
}
