/** What repairing a message list promises: it always succeeds, leaves no issue, changes nothing that
    needs no repair, and keeps the conversation. */
module RepairLaws {
  import opened Messages
  import opened MessageValidation
  import opened Sorting
  import opened Utf8

  // ---- Fixing issue by issue, last first, is repairing message by message ----

  lemma PieceWithoutIssue(ms: seq<Message>, i: nat)
    requires i < |ms| && IssueAt(ms, i) == None
    ensures Piece(ms, i) == [ms[i]]
  {
    hide Unanswered, Unmatched;
    assert SyntheticResults([]) == [];
  }

  lemma {:induction false} NothingToRepair(ms: seq<Message>, lo: nat, hi: nat)
    requires lo <= hi <= |ms|
    requires forall i :: lo <= i < hi ==> IssueAt(ms, i) == None
    ensures RepairedFrom(ms, lo) == ms[lo..hi] + RepairedFrom(ms, hi)
    decreases hi - lo
  {
    hide IssueAt, Piece, RepairedFrom;
    if lo < hi {
      NothingToRepair(ms, lo + 1, hi);
      PieceWithoutIssue(ms, lo);
      RepairedFromUnfold(ms, lo);
      assert ms[lo..hi] == [ms[lo]] + ms[lo + 1..hi];
    }
  }

  /** Fixing the issue of message `i`, when everything after it is repaired already. */
  lemma FixedOnce(ms: seq<Message>, i: nat)
    requires i < |ms| && IssueAt(ms, i).Some?
    ensures Fixed(ms[..i + 1] + RepairedFrom(ms, i + 1), IssueAt(ms, i).value) == Ok(ms[..i] + RepairedFrom(ms, i))
  {
    hide Unanswered, Unmatched, RepairedFrom, Converted, SyntheticResult;
    var rest := RepairedFrom(ms, i + 1);
    OnlyToolsAreUnmatched(ms, i);
    RepairedFromUnfold(ms, i);
    FixedAt(ms, i, rest, IssueAt(ms, i).value, Piece(ms, i));
  }

  lemma FixedAt(ms: seq<Message>, i: nat, rest: seq<Message>, issue: Issue, piece: seq<Message>)
    requires i < |ms| && issue.messageIndex == i
    requires piece == if issue.OrphanedToolCalls? then [ms[i]] + SyntheticResults(issue.toolCallIds)
            else [Converted(ms[i])]
    ensures Fixed(ms[..i + 1] + rest, issue) == Ok(ms[..i] + (piece + rest))
  {
    hide Converted, SyntheticResults;
    var before := ms[..i + 1] + rest;
    assert before[..i + 1] == ms[..i + 1] && before[i + 1..] == rest && before[i] == ms[i];
    if issue.OrphanedToolCalls? {
      assert ms[..i + 1] + SyntheticResults(issue.toolCallIds) + rest == ms[..i] + (piece + rest);
    } else {
      assert before[i := Converted(ms[i])] == ms[..i] + (piece + rest);
    }
  }

  lemma RepairedFromUnfold(ms: seq<Message>, i: nat)
    requires i < |ms|
    ensures RepairedFrom(ms, i) == Piece(ms, i) + RepairedFrom(ms, i + 1)
  {
  }

  lemma OnlyToolsAreUnmatched(ms: seq<Message>, i: nat)
    requires i < |ms|
    ensures Unmatched(ms, i) ==> ms[i].role == Tool && Unanswered(ms, i) == []
  {
  }

  predicate Descending(issues: seq<Issue>, bound: nat) {
    && (forall a, b :: 0 <= a < b < |issues| ==> issues[a].messageIndex > issues[b].messageIndex)
    && (forall a :: 0 <= a < |issues| ==> issues[a].messageIndex < bound)
  }

  lemma {:induction false} FixedInDescendingOrder(ms: seq<Message>, issues: seq<Issue>, bound: nat)
    requires bound <= |ms| && Descending(issues, bound)
    requires forall issue :: issue in issues <==> issue.messageIndex < bound && Listed(ms, issue)
    ensures AllFixed(ms[..bound] + RepairedFrom(ms, bound), issues) == Ok(Repaired(ms))
    decreases |issues|
  {
    hide IssueAt, RepairedFrom, Fixed, Listed, Descending;
    if issues == [] {
      NothingAbove(ms, issues, 0, bound);
      assert ms[..0] + RepairedFrom(ms, 0) == Repaired(ms);
    } else {
      var i := issues[0].messageIndex;
      FirstOfDescending(ms, issues, bound);
      NothingAbove(ms, issues, i + 1, bound);
      FixedOnce(ms, i);
      RestOfDescending(ms, issues, bound);
      FixedInDescendingOrder(ms, issues[1..], i);
    }
  }

  lemma FirstOfDescending(ms: seq<Message>, issues: seq<Issue>, bound: nat)
    requires bound <= |ms| && issues != [] && Descending(issues, bound)
    requires forall issue :: issue in issues <==> issue.messageIndex < bound && Listed(ms, issue)
    ensures issues[0].messageIndex < bound && IssueAt(ms, issues[0].messageIndex) == Some(issues[0])
    ensures forall k :: 0 <= k < |issues| ==> issues[k].messageIndex <= issues[0].messageIndex
  {
    hide IssueAt;
    assert issues[0] in issues;
  }

  /** Where no issue is, nothing needs repair. */
  lemma NothingAbove(ms: seq<Message>, issues: seq<Issue>, lo: nat, bound: nat)
    requires lo <= bound <= |ms| && forall k :: 0 <= k < |issues| ==> issues[k].messageIndex < lo
    requires forall issue :: issue in issues <==> issue.messageIndex < bound && Listed(ms, issue)
    ensures ms[..bound] + RepairedFrom(ms, bound) == ms[..lo] + RepairedFrom(ms, lo)
  {
    hide IssueAt, RepairedFrom, Listed;
    forall i | lo <= i < bound
      ensures IssueAt(ms, i) == None
    {
      IssueAtIsListed(ms, i);
    }
    NothingToRepair(ms, lo, bound);
    assert ms[..bound] == ms[..lo] + ms[lo..bound];
  }

  lemma IssueAtIsListed(ms: seq<Message>, i: nat)
    requires i < |ms|
    ensures IssueAt(ms, i).Some? ==> IssueAt(ms, i).value.messageIndex == i && Listed(ms, IssueAt(ms, i).value)
  {
    hide Unanswered, Unmatched;
  }

  lemma RestOfDescending(ms: seq<Message>, issues: seq<Issue>, bound: nat)
    requires bound <= |ms| && Descending(issues, bound) && issues != []
    requires forall issue :: issue in issues <==> issue.messageIndex < bound && Listed(ms, issue)
    ensures Descending(issues[1..], issues[0].messageIndex)
    ensures forall issue :: issue in issues[1..] <==> issue.messageIndex < issues[0].messageIndex && Listed(ms, issue)
  {
    hide Listed;
    forall issue | issue in issues[1..]
      ensures issue.messageIndex < issues[0].messageIndex && Listed(ms, issue)
    {
      var k :| 1 <= k < |issues| && issues[k] == issue;
      assert issues[k] in issues;
    }
    forall issue: Issue | issue.messageIndex < issues[0].messageIndex && Listed(ms, issue)
      ensures issue in issues[1..]
    {
      assert issues[0] in issues;
      assert issue in issues;
    }
  }

  lemma LaterFirstIsAPreorder()
    ensures TotalPreorder(LaterFirst)
  {
  }

  /** Sorted by index with the last first, the issues are strictly descending. */
  lemma SortedIssuesDescend(ms: seq<Message>)
    ensures Descending(Sort(Issues(ms), LaterFirst), |ms|)
    ensures forall issue :: issue in Sort(Issues(ms), LaterFirst) <==> issue.messageIndex < |ms| && Listed(ms, issue)
  {
    hide Issues, IssueAt, Sort;
    LaterFirstIsAPreorder();
    IssuesAreTheIssues(ms);
    SortSorts(Issues(ms), LaterFirst);
    SortPermutes(Issues(ms), LaterFirst);
    SortKeepsUnique(Issues(ms), LaterFirst);
    var sorted := Sort(Issues(ms), LaterFirst);
    forall a | 0 <= a < |sorted|
      ensures sorted[a].messageIndex < |ms|
    {
      assert sorted[a] in sorted;
    }
    forall a, b | 0 <= a < b < |sorted|
      ensures sorted[a].messageIndex > sorted[b].messageIndex
    {
      assert LaterFirst(sorted[a], sorted[b]);
      assert sorted[a] in sorted && sorted[b] in sorted;
    }
  }

  /** Repair never fails: its index errors cannot happen, and it yields the repaired list. */
  lemma RepairSucceeds(ms: seq<Message>)
    ensures AllFixed(ms, Sort(Issues(ms), LaterFirst)) == Ok(Repaired(ms))
  {
    hide Issues, IssueAt, Sort, AllFixed, Repaired;
    SortedIssuesDescend(ms);
    FixedInDescendingOrder(ms, Sort(Issues(ms), LaterFirst), |ms|);
    assert ms[..|ms|] + RepairedFrom(ms, |ms|) == ms;
  }

  /** A list without issues is its own repair. */
  lemma IssueFreeIsUnchanged(ms: seq<Message>)
    requires IssueFree(ms)
    ensures Repaired(ms) == ms
  {
    NothingToRepair(ms, 0, |ms|);
    assert ms[0..|ms|] + RepairedFrom(ms, |ms|) == ms;
  }

  // ---- The repaired list has no issues ----

  /** Whether a call is answered depends only on what follows. */
  lemma {:induction false} AnsweredInSuffix(before: seq<Message>, ms: seq<Message>, from: nat, id: string)
    requires from <= |ms|
    ensures AnsweredFrom(before + ms, |before| + from, id) == AnsweredFrom(ms, from, id)
    decreases |ms| - from
  {
    if from < |ms| {
      AnsweredInSuffix(before, ms, from + 1, id);
    }
  }

  /** Messages that are not the user's may come in between. */
  lemma {:induction false} AnsweredBeyond(ms: seq<Message>, from: nat, later: nat, id: string)
    requires from <= later <= |ms| && AnsweredFrom(ms, later, id)
    requires forall k :: from <= k < later ==> ms[k].role != User
    ensures AnsweredFrom(ms, from, id)
    decreases later - from
  {
    if from < later {
      AnsweredBeyond(ms, from + 1, later, id);
    }
  }

  lemma {:induction false} NotAnsweredMembers(ids: seq<string>, ms: seq<Message>, from: nat)
    requires from <= |ms|
    ensures forall id :: id in NotAnswered(ids, ms, from) <==> id in ids && !AnsweredFrom(ms, from, id)
    ensures NotAnswered(ids, ms, from) == [] <==> forall id :: id in ids ==> AnsweredFrom(ms, from, id)
  {
    if ids != [] {
      NotAnsweredMembers(ids[1..], ms, from);
      assert forall id :: id in ids <==> id == ids[0] || id in ids[1..];
    }
  }

  lemma PieceShape(ms: seq<Message>, i: nat)
    requires i < |ms|
    ensures Piece(ms, i) != []
    ensures Unmatched(ms, i) ==> Piece(ms, i) == [Converted(ms[i])] && Unanswered(ms, i) == []
    ensures !Unmatched(ms, i) ==> Piece(ms, i)[0] == ms[i] && |Piece(ms, i)| == 1 + |Unanswered(ms, i)|
    ensures CallIds(Piece(ms, i)[0]) == CallIds(ms[i])
    ensures forall k :: 0 <= k < |Unanswered(ms, i)| ==> Piece(ms, i)[1 + k] == SyntheticResult(Unanswered(ms, i)[k])
    ensures forall k :: 0 < k < |Piece(ms, i)| ==> Piece(ms, i)[k].role == Tool && CallIds(Piece(ms, i)[k]) == []
    ensures Piece(ms, i)[0].role == User <==> ms[i].role == User
  {
    hide Unanswered, Unmatched, SyntheticResults;
    OnlyToolsAreUnmatched(ms, i);
    SyntheticResultsShape(Unanswered(ms, i));
  }

  lemma SyntheticResultsShape(ids: seq<string>)
    ensures |SyntheticResults(ids)| == |ids|
    ensures forall k :: 0 <= k < |ids| ==>
              SyntheticResults(ids)[k] == SyntheticResult(ids[k]) && SyntheticResults(ids)[k].role == Tool
                  && CallIds(SyntheticResults(ids)[k]) == []
  {
  }

  /** A call answered in the original is still answered in the repaired list. */
  lemma {:induction false} AnswersAreKept(ms: seq<Message>, i: nat, id: string)
    requires i <= |ms| && AnsweredFrom(ms, i, id) && Available(ms, id)
    ensures AnsweredFrom(RepairedFrom(ms, i), 0, id)
    decreases |ms| - i
  {
    hide Available, Piece;
    var repaired := RepairedFrom(ms, i);
    var piece := Piece(ms, i);
    PieceShape(ms, i);
    if Answers(ms[i], id) {
      assert repaired[0] == piece[0] == ms[i];
    } else {
      AnswersAreKept(ms, i + 1, id);
      AnsweredInSuffix(piece, RepairedFrom(ms, i + 1), 0, id);
      assert forall k :: 0 <= k < |piece| ==> repaired[k] == piece[k];
      AnsweredBeyond(repaired, 0, |piece|, id);
    }
  }

  predicate AllAnswered(ms: seq<Message>) {
    forall j, id :: 0 <= j < |ms| && id in CallIds(ms[j]) ==> AnsweredFrom(ms, j + 1, id)
  }

  lemma AnsweredAtOnce(ms: seq<Message>, i: nat, id: string)
    requires i < |ms| && Answers(ms[i], id)
    ensures AnsweredFrom(ms, i, id)
  {
  }

  lemma CallsOfPieceAreAnswered(ms: seq<Message>, i: nat, id: string)
    requires i < |ms| && id in CallIds(ms[i])
    ensures AnsweredFrom(RepairedFrom(ms, i), 1, id)
  {
    hide Piece, CallIds, Unmatched, AnsweredFrom, NotAnswered;
    var repaired, piece, rest := RepairedFrom(ms, i), Piece(ms, i), RepairedFrom(ms, i + 1);
    PieceShape(ms, i);
    assert forall k :: 0 <= k < |piece| ==> repaired[k] == piece[k];
    NotAnsweredMembers(CallIds(ms[i]), ms, i + 1);
    if AnsweredFrom(ms, i + 1, id) {
      assert Available(ms, id);
      AnswersAreKept(ms, i + 1, id);
      AnsweredInSuffix(piece, rest, 0, id);
      AnsweredBeyond(repaired, 1, |piece|, id);
    } else {
      var k :| 0 <= k < |Unanswered(ms, i)| && Unanswered(ms, i)[k] == id;
      AnsweredAtOnce(repaired, 1 + k, id);
      AnsweredBeyond(repaired, 1, 1 + k, id);
    }
  }

  lemma AllAnsweredAppend(piece: seq<Message>, rest: seq<Message>)
    requires AllAnswered(rest) && piece != []
    requires forall id :: id in CallIds(piece[0]) ==> AnsweredFrom(piece + rest, 1, id)
    requires forall k :: 0 < k < |piece| ==> CallIds(piece[k]) == []
    ensures AllAnswered(piece + rest)
  {
    hide AnsweredFrom, CallIds;
    forall j, id | |piece| <= j < |piece + rest| && id in CallIds((piece + rest)[j])
      ensures AnsweredFrom(piece + rest, j + 1, id)
    {
      assert (piece + rest)[j] == rest[j - |piece|];
      AnsweredInSuffix(piece, rest, j - |piece| + 1, id);
    }
  }

  lemma {:induction false} RepairedIsAnswered(ms: seq<Message>, i: nat)
    requires i <= |ms|
    ensures AllAnswered(RepairedFrom(ms, i))
    decreases |ms| - i
  {
    hide Piece, AnsweredFrom, CallIds, AllAnswered;
    if i < |ms| {
      RepairedIsAnswered(ms, i + 1);
      PieceShape(ms, i);
      forall id | id in CallIds(ms[i])
        ensures AnsweredFrom(RepairedFrom(ms, i), 1, id)
      {
        CallsOfPieceAreAnswered(ms, i, id);
      }
      AllAnsweredAppend(Piece(ms, i), RepairedFrom(ms, i + 1));
    } else {
      NothingIsAnswered();
    }
  }

  lemma NothingIsAnswered()
    ensures AllAnswered([])
  {
  }

  // ---- Where each message goes ----

  /** The place of message `i` in the repaired list: the messages and inserted results before it. */
  function Position(ms: seq<Message>, i: nat): nat
    requires i <= |ms|
  {
    if i == 0 then 0 else Position(ms, i - 1) + 1 + |Unanswered(ms, i - 1)|
  }

  lemma {:induction false} PositionSplits(ms: seq<Message>, i: nat)
    requires i <= |ms|
    ensures Position(ms, i) <= |Repaired(ms)| && Repaired(ms)[Position(ms, i)..] == RepairedFrom(ms, i)
  {
    hide Piece, Unanswered, Unmatched, RepairedFrom, CallIds;
    if i > 0 {
      PositionSplits(ms, i - 1);
      PieceShape(ms, i - 1);
      RepairedFromUnfold(ms, i - 1);
      var repaired, p, piece := Repaired(ms), Position(ms, i - 1), Piece(ms, i - 1);
      assert RepairedFrom(ms, i - 1)[|piece|..] == RepairedFrom(ms, i);
      assert repaired[p..][|piece|..] == repaired[p + |piece|..];
    }
  }

  /** Repair keeps the conversation: every message keeps its place in the order, unchanged unless it
      is an unmatched result, which becomes a system message; directly after each message stand one
      synthetic result for each of its unanswered calls; and that is all there is. */
  lemma RepairConserves(ms: seq<Message>)
    ensures |Repaired(ms)| == Position(ms, |ms|)
    ensures forall i :: 0 <= i < |ms| ==>
              && Position(ms, i) + |Unanswered(ms, i)| < |Repaired(ms)|
              && Repaired(ms)[Position(ms, i)] == (if Unmatched(ms, i) then Converted(ms[i]) else ms[i])
    ensures forall i, k :: 0 <= i < |ms| && 0 <= k < |Unanswered(ms, i)| ==>
              Repaired(ms)[Position(ms, i) + 1 + k] == SyntheticResult(Unanswered(ms, i)[k])
  {
    hide Piece, Unanswered, Unmatched, Repaired;
    PositionSplits(ms, |ms|);
    forall i | 0 <= i < |ms|
      ensures Position(ms, i) + |Unanswered(ms, i)| < |Repaired(ms)|
      ensures Repaired(ms)[Position(ms, i)] == (if Unmatched(ms, i) then Converted(ms[i]) else ms[i])
      ensures forall k :: 0 <= k < |Unanswered(ms, i)| ==>
                Repaired(ms)[Position(ms, i) + 1 + k] == SyntheticResult(Unanswered(ms, i)[k])
    {
      PieceInPlace(ms, i);
    }
  }

  lemma PieceInPlace(ms: seq<Message>, i: nat)
    requires i < |ms|
    ensures Position(ms, i) + |Unanswered(ms, i)| < |Repaired(ms)|
    ensures Repaired(ms)[Position(ms, i)] == (if Unmatched(ms, i) then Converted(ms[i]) else ms[i])
    ensures forall k :: 0 <= k < |Unanswered(ms, i)| ==>
              Repaired(ms)[Position(ms, i) + 1 + k] == SyntheticResult(Unanswered(ms, i)[k])
  {
    hide Piece, Unanswered, Unmatched, Repaired, RepairedFrom, Position;
    PositionSplits(ms, i);
    PieceShape(ms, i);
    RepairedFromUnfold(ms, i);
    var suffix, piece := RepairedFrom(ms, i), Piece(ms, i);
    assert forall k :: 0 <= k < |piece| ==> suffix[k] == piece[k];
    assert forall k :: 0 <= k < |suffix| ==> suffix[k] == Repaired(ms)[Position(ms, i) + k];
  }

  /** What becomes of an unmatched result: a system message with the same content, or with all but its end
      if that is longer than 2000 bytes. */
  lemma ConvertedKeepsContent(m: Message)
    requires WellFormed(m.content)
    ensures var c, intro := Converted(m), Ascii("Previous tool result: ");
            && c.role == System && c.toolCallId == None && c.toolCalls == None && WellFormed(c.content)
            && (|m.content| <= 2000 ==> c.content == intro + m.content)
            && (|m.content| > 2000 ==>
                  exists n: nat :: 1992 <= n <= 1995 && n <= |m.content|
                      && c.content == intro + (m.content[..n] + Ascii(" ...")))
  {
    hide WellFormed;
    ShortenedFits(m.content, 2000);
    ConcatIsWellFormed(Ascii("Previous tool result: "), Shortened(m.content, 2000));
    if |m.content| > 2000 {
      FloorIsNear(m.content, 1995);
      var n := Floor(m.content, 1995);
      assert Shortened(m.content, 2000) == m.content[..n] + Ascii(" ...");
    }
  }

  // ---- Completeness and idempotence ----

  lemma {:induction false} FromSomePiece(ms: seq<Message>, i: nat, m: Message) returns (k: nat)
    requires i <= |ms| && m in RepairedFrom(ms, i)
    ensures k < |ms| && m in Piece(ms, k)
    decreases |ms| - i
  {
    hide Piece;
    if m in Piece(ms, i) {
      k := i;
    } else {
      k := FromSomePiece(ms, i + 1, m);
    }
  }

  /** Every call that is made is still made after repair. */
  lemma CallsAreKept(ms: seq<Message>, id: string)
    requires Available(ms, id)
    ensures Available(Repaired(ms), id)
  {
    hide Repaired, Unanswered;
    RepairConserves(ms);
    var i :| 0 <= i < |ms| && id in CallIds(ms[i]);
    assert Repaired(ms)[Position(ms, i)] == ms[i];
  }

  lemma RepairedIsMatched(ms: seq<Message>, j: nat)
    requires j < |Repaired(ms)|
    ensures !Unmatched(Repaired(ms), j)
  {
    hide Repaired, Available, NotAnswered;
    var m := Repaired(ms)[j];
    assert m in RepairedFrom(ms, 0) by { assert Repaired(ms) == RepairedFrom(ms, 0) by { RepairedUnfold(ms); } }
    var k := FromSomePiece(ms, 0, m);
    if m.role == Tool && m.toolCallId.Some? {
      var id := m.toolCallId.value;
      assert Available(ms, id) by {
        PieceResultsAreAvailable(ms, k, m);
      }
      CallsAreKept(ms, id);
    }
  }

  lemma RepairedUnfold(ms: seq<Message>)
    ensures Repaired(ms) == RepairedFrom(ms, 0)
  {
  }

  lemma PieceResultsAreAvailable(ms: seq<Message>, k: nat, m: Message)
    requires k < |ms| && m in Piece(ms, k) && m.role == Tool && m.toolCallId.Some?
    ensures Available(ms, m.toolCallId.value)
  {
    hide NotAnswered, AnsweredFrom;
    NotAnsweredMembers(CallIds(ms[k]), ms, k + 1);
  }

  /** Repair is complete: the repaired list has no issues left. */
  lemma RepairIsComplete(ms: seq<Message>)
    ensures IssueFree(Repaired(ms))
  {
    hide Repaired, Unmatched, AnsweredFrom, NotAnswered;
    var repaired := Repaired(ms);
    RepairedUnfold(ms);
    RepairedIsAnswered(ms, 0);
    forall j | 0 <= j < |repaired|
      ensures Unanswered(repaired, j) == [] && !Unmatched(repaired, j)
    {
      NotAnsweredMembers(CallIds(repaired[j]), repaired, j + 1);
      RepairedIsMatched(ms, j);
    }
  }

  /** With automatic repair, validation always succeeds, with a list that has no issues, that a second
      run leaves alone, and that is the original exactly if that had no issues. */
  lemma AutoFixAlwaysSucceeds(ms: seq<Message>)
    ensures Validated(true, ms) == Ok(Repaired(ms))
    ensures Issues(Repaired(ms)) == [] && Validated(true, Repaired(ms)) == Ok(Repaired(ms))
    ensures Repaired(ms) == ms <==> IssueFree(ms)
  {
    hide Repaired, Issues, AllFixed, IssueFree;
    RepairSucceeds(ms);
    RepairIsComplete(ms);
    NoIssuesIffIssueFree(ms);
    NoIssuesIffIssueFree(Repaired(ms));
    if IssueFree(ms) {
      IssueFreeIsUnchanged(ms);
    }
  }

  /** Without it, exactly the lists without issues are accepted, unchanged. */
  lemma WithoutAutoFix(ms: seq<Message>)
    ensures Validated(false, ms).Ok? <==> IssueFree(ms)
    ensures IssueFree(ms) ==> Validated(false, ms) == Ok(ms)
  {
    hide Issues, IssueFree;
    NoIssuesIffIssueFree(ms);
  }
}
