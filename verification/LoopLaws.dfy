/** What the loop detector promises over whole runs of calls since it was last cleared. */
module LoopLaws {
  import opened LoopDetection
  import opened Messages
  import opened Similarity

  // ---- The naive recount ----

  function Occurrences(records: seq<Record>, signature: nat): nat {
    if records == [] then 0
    else
      Occurrences(records[..|records| - 1], signature)
      + (if records[|records| - 1].signature == signature then 1 else 0)
  }

  /** The counts are the multiplicities of the signatures in the window, with no zero entries. */
  ghost predicate CountsAgree(t: Tracker) {
    forall s: nat :: CountOf(t.counts, s) == Occurrences(t.history, s) && (s in t.counts ==> t.counts[s] > 0)
  }

  lemma {:induction false} OccurrencesConcat(a: seq<Record>, b: seq<Record>, signature: nat)
    ensures Occurrences(a + b, signature) == Occurrences(a, signature) + Occurrences(b, signature)
    decreases |b|
  {
    if b == [] {
      assert a + b == a;
    } else {
      OccurrencesConcat(a, b[..|b| - 1], signature);
      assert (a + b)[..|a + b| - 1] == a + b[..|b| - 1];
    }
  }

  lemma OccurrencesOne(record: Record, signature: nat)
    ensures Occurrences([record], signature) == if record.signature == signature then 1 else 0
  {
    assert [record][..0] == [];
  }

  /** With a window of at least one call, one more call keeps the counts in agreement. */
  lemma PushKeepsCounts(window: nat, t: Tracker, record: Record)
    requires window >= 1 && |t.history| <= window && CountsAgree(t)
    ensures CountsAgree(Pushed(window, t, record)) && |Pushed(window, t, record).history| <= window
  {
    var t' := Pushed(window, t, record);
    forall s: nat
      ensures CountOf(t'.counts, s) == Occurrences(t'.history, s) && (s in t'.counts ==> t'.counts[s] > 0)
    {
      OccurrencesConcat(t.history, [record], s);
      OccurrencesOne(record, s);
      if |t.history| == window {
        var first := t.history[0];
        assert t.history + [record] == [first] + t'.history;
        OccurrencesConcat([first], t'.history, s);
        OccurrencesOne(first, s);
        assert CountOf(t.counts, first.signature) == Occurrences(t.history, first.signature);
        FirstIsCounted(t.history);
      }
    }
  }

  lemma FirstIsCounted(history: seq<Record>)
    requires history != []
    ensures Occurrences(history, history[0].signature) >= 1
  {
    assert history == [history[0]] + history[1..];
    OccurrencesConcat([history[0]], history[1..], history[0].signature);
    OccurrencesOne(history[0], history[0].signature);
  }

  // ---- Runs ----

  /** The tracker after some calls, from clear. */
  function TrackerAfter(window: nat, calls: seq<Record>): Tracker {
    if calls == [] then Tracker([], map[])
    else Pushed(window, TrackerAfter(window, calls[..|calls| - 1]), calls[|calls| - 1])
  }

  lemma {:induction false} HistoryIsRecent(window: nat, calls: seq<Record>)
    ensures TrackerAfter(window, calls).history == LastCalls(calls, window)
  {
    hide Incremented, Decremented;
    if calls != [] {
      var n := |calls| - 1;
      HistoryIsRecent(window, calls[..n]);
      assert calls == calls[..n] + [calls[n]];
    }
  }

  /** After any run the window holds exactly the last calls, and the incremental counts are what
      counting them again would give. */
  lemma {:induction false} RunsAgree(window: nat, calls: seq<Record>)
    requires window >= 1
    ensures TrackerAfter(window, calls).history == LastCalls(calls, window)
    ensures CountsAgree(TrackerAfter(window, calls))
  {
    hide CountsAgree, Pushed;
    HistoryIsRecent(window, calls);
    if calls == [] {
      NothingAgrees();
    } else {
      var n := |calls| - 1;
      RunsAgree(window, calls[..n]);
      PushKeepsCounts(window, TrackerAfter(window, calls[..n]), calls[n]);
    }
  }

  lemma NothingAgrees()
    ensures CountsAgree(Tracker([], map[]))
  {
  }

  /** An empty window forgets each call at once but still counts it: the counts agree after every run
      exactly if the window holds at least one call. */
  lemma CountsAgreeExactlyWithAWindow(window: nat)
    ensures (forall calls :: CountsAgree(TrackerAfter(window, calls))) <==> window >= 1
  {
    if window >= 1 {
      forall calls
        ensures CountsAgree(TrackerAfter(window, calls))
      {
        RunsAgree(window, calls);
      }
    } else {
      var record := Record("tool", Null, 0, 0, 7);
      assert [record][..0] == [];
      assert TrackerAfter(0, [record]) == Pushed(0, Tracker([], map[]), record);
      assert TrackerAfter(0, [record]).history == [];
      assert CountOf(TrackerAfter(0, [record]).counts, 7) == 1;
      assert Occurrences([], 7) == 0;
    }
  }

  // ---- Reports ----

  /** What the detector reports on the last of some calls. */
  ghost function Reported(config: LoopDetectionConfig, calls: seq<Record>): LoopPattern
    requires calls != []
  {
    Detected(config, TrackerAfter(config.windowSize, calls), calls[|calls| - 1])
  }

  lemma {:induction false} FirstWithIsOldest(history: seq<Record>, signature: nat)
    ensures FirstWith(history, signature).Some? <==> Occurrences(history, signature) > 0
    ensures FirstWith(history, signature).Some? ==>
              exists i :: 0 <= i < |history| && history[i] == FirstWith(history, signature).value
                && history[i].signature == signature && forall j :: 0 <= j < i ==> history[j].signature != signature
  {
    if history != [] {
      var rest := history[1..];
      FirstWithIsOldest(rest, signature);
      assert history == [history[0]] + rest;
      OccurrencesConcat([history[0]], rest, signature);
      OccurrencesOne(history[0], signature);
      if history[0].signature != signature && FirstWith(rest, signature).Some? {
        var i :| 0 <= i < |rest| && rest[i] == FirstWith(rest, signature).value
          && rest[i].signature == signature && forall j :: 0 <= j < i ==> rest[j].signature != signature;
        assert history[i + 1] == rest[i];
        forall j | 0 <= j < i + 1
          ensures history[j].signature != signature
        {
          assert j > 0 ==> history[j] == rest[j - 1];
        }
      }
    }
  }

  /** The oldest call of the window with this signature has this step. */
  ghost predicate IsOldest(window: seq<Record>, signature: nat, stepIndex: nat) {
    exists i :: 0 <= i < |window| && window[i].signature == signature && window[i].stepIndex == stepIndex
      && forall j :: 0 <= j < i ==> window[j].signature != signature
  }

  lemma ExactMatchIffCounted(config: LoopDetectionConfig, t: Tracker, latest: Record)
    requires CountsAgree(t) && Occurrences(t.history, latest.signature) >= 1
    ensures var count := Occurrences(t.history, latest.signature);
            if count >= config.exactThreshold then
              exists step :: IsOldest(t.history, latest.signature, step)
                && ExactMatch(config, t, latest) == Some(ExactLoop(latest.toolName, count, step))
            else ExactMatch(config, t, latest) == None
  {
    FirstWithIsOldest(t.history, latest.signature);
    assert CountOf(t.counts, latest.signature) == Occurrences(t.history, latest.signature);
    var first := FirstWith(t.history, latest.signature).value;
    assert IsOldest(t.history, latest.signature, first.stepIndex);
  }

  lemma OnlyExactMatchesAreExact(config: LoopDetectionConfig, t: Tracker, latest: Record)
    ensures Detected(config, t, latest).ExactLoop? <==> ExactMatch(config, t, latest).Some?
    ensures ExactMatch(config, t, latest).Some? ==> Detected(config, t, latest) == ExactMatch(config, t, latest).value
  {
    hide SimilarCalls, CountSameTool, FirstWith;
  }

  /** An exact loop is reported if and only if the newest signature occurs at least as often as the
      threshold says among the last calls; with that very count, and the step of the oldest of them. */
  lemma ExactLoopIffRepeated(config: LoopDetectionConfig, calls: seq<Record>)
    requires config.windowSize >= 1 && calls != []
    ensures var window, latest := LastCalls(calls, config.windowSize), calls[|calls| - 1];
            var count := Occurrences(window, latest.signature);
            && (Reported(config, calls).ExactLoop? <==> count >= config.exactThreshold)
            && (Reported(config, calls).ExactLoop? ==>
                  && Reported(config, calls).toolName == latest.toolName
                  && Reported(config, calls).count == count
                  && IsOldest(window, latest.signature, Reported(config, calls).firstOccurrence))
  {
    hide Detected, ExactMatch, IsOldest, CountsAgree, Occurrences, TrackerAfter;
    var t := TrackerAfter(config.windowSize, calls);
    var latest := calls[|calls| - 1];
    RunsAgree(config.windowSize, calls);
    LastIsRecent(calls, config.windowSize);
    ExactMatchIffCounted(config, t, latest);
    OnlyExactMatchesAreExact(config, t, latest);
  }

  lemma LastIsRecent(calls: seq<Record>, window: nat)
    requires window >= 1 && calls != []
    ensures Occurrences(LastCalls(calls, window), calls[|calls| - 1].signature) >= 1
  {
    var recent, n := LastCalls(calls, window), |LastCalls(calls, window)| - 1;
    assert recent[n] == calls[|calls| - 1];
  }

  lemma {:induction false} SimilarCallsAreSimilar(records: seq<Record>, latest: Record)
    ensures forall c :: c in SimilarCalls(records, latest) ==> 0.7 <= c.score <= 1.0
  {
    hide Score;
    if records != [] {
      SimilarCallsAreSimilar(records[..|records| - 1], latest);
      ScoreIsFair(records[|records| - 1].arguments, latest.arguments);
    }
  }

  lemma {:induction false} TotalScoreBounds(calls: seq<SimilarCall>)
    requires forall c :: c in calls ==> 0.7 <= c.score <= 1.0
    ensures 0.7 * |calls| as real <= TotalScore(calls) <= |calls| as real
  {
    if calls != [] {
      TotalScoreBounds(calls[..|calls| - 1]);
    }
  }

  /** Every similar loop is reported with a score between 0.7 and 1, whatever the window. */
  lemma SimilarLoopScore(config: LoopDetectionConfig, t: Tracker, latest: Record)
    requires Detected(config, t, latest).SimilarLoop?
    ensures 0.7 <= Detected(config, t, latest).score <= 1.0
  {
    hide CountSameTool, SimilarCalls;
    var calls := SimilarCalls(LastCalls(t.history, config.windowSize), latest);
    SimilarCallsAreSimilar(LastCalls(t.history, config.windowSize), latest);
    TotalScoreBounds(calls);
    if calls != [] {
      var total, n := TotalScore(calls), |calls| as real;
      assert total / n * n == total;
      AverageBounds(total, n, total / n);
    }
  }

  lemma AverageBounds(total: real, n: real, average: real)
    requires n > 0.0 && average * n == total && 0.7 * n <= total <= n
    ensures 0.7 <= average <= 1.0
  {
    assert average > 1.0 ==> average * n > n;
    assert average < 0.7 ==> average * n < 0.7 * n;
  }

  lemma {:induction false} EarliestStepIsLeast(calls: seq<SimilarCall>, default: nat)
    requires calls != []
    ensures forall c :: c in calls ==> EarliestStep(calls, default) <= c.stepIndex
    ensures exists c :: c in calls && c.stepIndex == EarliestStep(calls, default)
  {
    if |calls| > 1 {
      EarliestStepIsLeast(calls[1..], default);
      assert forall c :: c in calls <==> c == calls[0] || c in calls[1..];
      var c :| c in calls[1..] && c.stepIndex == EarliestStep(calls[1..], default);
      assert c in calls && calls[0] in calls;
    } else {
      assert calls[0] in calls;
    }
  }

  // ---- Similar and suspicious loops, exactly ----

  /** The places in the window of calls of the same tool at another step with arguments at least 0.7
      alike. */
  ghost function SimilarPlaces(window: seq<Record>, latest: Record): set<nat> {
    set i: nat | i < |window| && window[i].toolName == latest.toolName && window[i].stepIndex != latest.stepIndex
      && Score(window[i].arguments, latest.arguments) >= 0.7
  }

  /** The summed scores at some places, from the first on. */
  ghost function SumOfScores(window: seq<Record>, latest: Record, places: set<nat>, n: nat): real
    requires n <= |window|
  {
    if n == 0 then 0.0
    else
      SumOfScores(window, latest, places, n - 1)
      + (if n - 1 in places then Score(window[n - 1].arguments, latest.arguments) else 0.0)
  }

  lemma {:induction false} SumOfScoresLocal(window: seq<Record>, latest: Record, places: set<nat>,
                                            shorter: seq<Record>, fewer: set<nat>, n: nat)
    requires n <= |shorter| && shorter <= window
    requires forall i: nat :: i < n ==> (i in places <==> i in fewer)
    ensures SumOfScores(window, latest, places, n) == SumOfScores(shorter, latest, fewer, n)
  {
    hide Score;
    if n > 0 {
      SumOfScoresLocal(window, latest, places, shorter, fewer, n - 1);
    }
  }

  lemma TotalScoreCons(first: SimilarCall, rest: seq<SimilarCall>)
    ensures TotalScore([first] + rest) == first.score + TotalScore(rest)
  {
    TotalScoreConcat([first], rest);
    assert TotalScore([first]) == TotalScore([]) + first.score by { assert [first][..0] == []; }
  }

  lemma {:induction false} TotalScoreConcat(a: seq<SimilarCall>, b: seq<SimilarCall>)
    ensures TotalScore(a + b) == TotalScore(a) + TotalScore(b)
    decreases |b|
  {
    if b == [] {
      assert a + b == a;
    } else {
      TotalScoreConcat(a, b[..|b| - 1]);
      assert (a + b)[..|a + b| - 1] == a + b[..|b| - 1];
    }
  }

  predicate HasStep(calls: seq<SimilarCall>, step: nat) {
    exists c :: c in calls && c.stepIndex == step
  }

  predicate HasStepAt(window: seq<Record>, places: set<nat>, step: nat) {
    exists i :: i in places && i < |window| && window[i].stepIndex == step
  }

  lemma HasStepCons(first: SimilarCall, rest: seq<SimilarCall>, step: nat)
    ensures HasStep([first] + rest, step) <==> first.stepIndex == step || HasStep(rest, step)
  {
    var calls := [first] + rest;
    assert first in calls;
    if c :| c in rest && c.stepIndex == step {
      assert c in calls;
    }
  }

  lemma HasStepAtMore(window: seq<Record>, places: set<nat>, n: nat, step: nat)
    requires n < |window| && forall i :: i in places ==> i < n
    ensures HasStepAt(window, places + {n}, step)
            <==> window[n].stepIndex == step || HasStepAt(window[..n], places, step)
  {
    var more := places + {n};
    assert n in more;
    if i :| i in places && i < n && window[..n][i].stepIndex == step {
      assert i in more && window[i].stepIndex == step;
    }
  }

  lemma PlacesOfLonger(window: seq<Record>, latest: Record)
    requires window != []
    ensures var n := |window| - 1;
            var places, fewer := SimilarPlaces(window, latest), SimilarPlaces(window[..n], latest);
            && places == (if IsSimilar(window[n], latest) then fewer + {n} else fewer)
            && (forall i :: i in fewer ==> i < n)
  {
    hide Score;
  }

  /** What is collected is what the places hold. */
  lemma {:induction false} CollectedAreSimilar(window: seq<Record>, latest: Record)
    ensures var calls, places := SimilarCalls(window, latest), SimilarPlaces(window, latest);
            && |calls| == |places|
            && TotalScore(calls) == SumOfScores(window, latest, places, |window|)
  {
    hide Score, SimilarPlaces, IsSimilar;
    if window == [] {
      NoPlaces(latest);
    } else {
      var n := |window| - 1;
      var before, last := window[..n], window[n];
      CollectedAreSimilar(before, latest);
      PlacesOfLonger(window, latest);
      var rest := SimilarCalls(before, latest);
      SumOfScoresLocal(window, latest, SimilarPlaces(window, latest), before, SimilarPlaces(before, latest), n);
      if IsSimilar(last, latest) {
        TotalScoreCons(SimilarCall(last.stepIndex, Score(last.arguments, latest.arguments)), rest);
      } else {
        assert [] + rest == rest;
      }
    }
  }

  lemma NoPlaces(latest: Record)
    ensures SimilarPlaces([], latest) == {}
  {
  }

  lemma {:induction false} CollectedSteps(window: seq<Record>, latest: Record, step: nat)
    ensures HasStep(SimilarCalls(window, latest), step) <==> HasStepAt(window, SimilarPlaces(window, latest), step)
  {
    hide Score, SimilarPlaces, IsSimilar, HasStep, HasStepAt;
    if window == [] {
      NoSteps(latest, step);
    } else {
      var n := |window| - 1;
      var before, last := window[..n], window[n];
      CollectedSteps(before, latest, step);
      PlacesOfLonger(window, latest);
      var rest := SimilarCalls(before, latest);
      if IsSimilar(last, latest) {
        HasStepCons(SimilarCall(last.stepIndex, Score(last.arguments, latest.arguments)), rest, step);
        HasStepAtMore(window, SimilarPlaces(before, latest), n, step);
      } else {
        assert [] + rest == rest;
        HasStepAtPrefix(window, SimilarPlaces(before, latest), n, step);
      }
    }
  }

  lemma NoSteps(latest: Record, step: nat)
    ensures !HasStep(SimilarCalls([], latest), step) && !HasStepAt([], SimilarPlaces([], latest), step)
  {
  }

  lemma HasStepAtPrefix(window: seq<Record>, places: set<nat>, n: nat, step: nat)
    requires n <= |window| && forall i :: i in places ==> i < n
    ensures HasStepAt(window, places, step) <==> HasStepAt(window[..n], places, step)
  {
    if i :| i in places && i < n && window[..n][i].stepIndex == step {
      assert window[i].stepIndex == step;
    }
  }

  lemma EarliestPlace(window: seq<Record>, latest: Record)
    ensures var first, places := EarliestStep(SimilarCalls(window, latest), latest.stepIndex),
            SimilarPlaces(window, latest);
            && (SimilarCalls(window, latest) == [] ==> first == latest.stepIndex)
            && (SimilarCalls(window, latest) != [] ==>
                  HasStepAt(window, places, first) && forall step :: HasStepAt(window, places, step) ==> first <= step)
  {
    hide SimilarPlaces, SimilarCalls, HasStepAt;
    var calls := SimilarCalls(window, latest);
    if calls != [] {
      EarliestStepIsLeast(calls, latest.stepIndex);
      CollectedSteps(window, latest, EarliestStep(calls, latest.stepIndex));
      forall step | HasStepAt(window, SimilarPlaces(window, latest), step)
        ensures EarliestStep(calls, latest.stepIndex) <= step
      {
        CollectedSteps(window, latest, step);
      }
    }
  }

  /** A similar loop is reported if and only if there is no exact one and the last calls hold at least
      one less similar ones than the threshold says; with that number and the newest call as the count,
      their mean score, and the least of their steps. */
  lemma SimilarLoopIff(config: LoopDetectionConfig, calls: seq<Record>)
    requires config.windowSize >= 1 && calls != []
    ensures var window, latest := LastCalls(calls, config.windowSize), calls[|calls| - 1];
            var places, report := SimilarPlaces(window, latest), Reported(config, calls);
            && (report.SimilarLoop? <==>
                  Occurrences(window, latest.signature) < config.exactThreshold
                      && |places| + 1 >= config.similarThreshold)
            && (report.SimilarLoop? ==>
                  && report.toolName == latest.toolName && report.count == |places| + 1
                  && (places == {} ==> report.score == 1.0 && report.firstOccurrence == latest.stepIndex)
                  && (places != {} ==>
                        && report.score * |places| as real == SumOfScores(window, latest, places, |window|)
                        && (exists i :: i in places && i < |window| && window[i].stepIndex == report.firstOccurrence)
                        && (forall i :: i in places && i < |window| ==> report.firstOccurrence <= window[i].stepIndex)))
  {
    hide ExactMatch, Occurrences, TrackerAfter, SimilarCalls, SimilarPlaces, SumOfScores, TotalScore, Suspicious,
         EarliestStep;
    hide IsOldest, CountsAgree;
    var t, latest := TrackerAfter(config.windowSize, calls), calls[|calls| - 1];
    var window := LastCalls(calls, config.windowSize);
    ExactLoopIffRepeated(config, calls);
    OnlyExactMatchesAreExact(config, t, latest);
    SuspiciousKind(config, t, latest);
    HistoryIsRecent(config.windowSize, calls);
    assert LastCalls(t.history, config.windowSize) == window;
    CollectedAreSimilar(window, latest);
    EarliestPlace(window, latest);
    var similar, places := SimilarCalls(window, latest), SimilarPlaces(window, latest);
    if similar != [] {
      MeanTimesCount(TotalScore(similar), |similar| as real);
      forall i | i in places && i < |window|
        ensures EarliestStep(similar, latest.stepIndex) <= window[i].stepIndex
      {
        assert HasStepAt(window, places, window[i].stepIndex);
      }
    }
  }

  lemma SuspiciousKind(config: LoopDetectionConfig, t: Tracker, latest: Record)
    ensures Suspicious(config, t, latest).Some? ==> Suspicious(config, t, latest).value.SuspiciousPattern?
  {
    hide CountSameTool;
  }

  lemma MeanTimesCount(total: real, count: real)
    requires count > 0.0
    ensures total / count * count == total
  {
  }

  /** The places of calls of a tool since some time. */
  function PlacesOf(records: seq<Record>, toolName: string, since: int): set<nat> {
    set i: nat | i < |records| && records[i].toolName == toolName && records[i].timestamp >= since
  }

  lemma {:induction false} SameToolIsCounted(records: seq<Record>, toolName: string, since: int)
    ensures CountSameTool(records, toolName, since) == |PlacesOf(records, toolName, since)|
  {
    if records != [] {
      var n := |records| - 1;
      SameToolIsCounted(records[..n], toolName, since);
      var places, fewer := PlacesOf(records, toolName, since), PlacesOf(records[..n], toolName, since);
      assert places == if records[n].toolName == toolName && records[n].timestamp >= since then fewer + {n} else fewer;
    }
  }

  /** A suspicious pattern is reported if and only if there is neither an exact nor a similar loop, and
      the tool was called at least three times among the last five calls, or within the time window. */
  lemma SuspiciousIff(config: LoopDetectionConfig, calls: seq<Record>)
    requires config.windowSize >= 1 && calls != []
    ensures var window, latest, report := LastCalls(calls, config.windowSize), calls[|calls| - 1],
            Reported(config, calls);
            var frequent := |PlacesOf(LastCalls(window, 5), latest.toolName, 0)|;
            var rapid := |PlacesOf(window, latest.toolName, latest.timestamp - config.timeWindowSeconds)|;
            && (report.SuspiciousPattern?
                <==> !report.ExactLoop? && !report.SimilarLoop? && (frequent >= 3 || rapid >= 3))
            && (report.SuspiciousPattern? ==> report.count == if frequent >= 3 then frequent else rapid)
            && (report.NoLoop? <==> !report.ExactLoop? && !report.SimilarLoop? && !report.SuspiciousPattern?)
  {
    hide Occurrences, TrackerAfter, SimilarCalls, CountSameTool, PlacesOf, FirstWith, SimilarPattern;
    var t, latest := TrackerAfter(config.windowSize, calls), calls[|calls| - 1];
    RunsAgree(config.windowSize, calls);
    SimilarPatternKind(config, latest, SimilarCalls(LastCalls(t.history, config.windowSize), latest));
    SameToolIsCounted(LastCalls(t.history, 5), latest.toolName, 0);
    SameToolIsCounted(t.history, latest.toolName, latest.timestamp - config.timeWindowSeconds);
  }

  lemma SimilarPatternKind(config: LoopDetectionConfig, latest: Record, calls: seq<SimilarCall>)
    ensures SimilarPattern(config, latest, calls).Some? ==> SimilarPattern(config, latest, calls).value.SimilarLoop?
  {
    hide TotalScore, EarliestStep;
  }

  // ---- The guard ----

  /** Call number `i` of a run is let through: it is not reported as a loop. */
  ghost predicate LetThrough(config: LoopDetectionConfig, calls: seq<Record>, i: nat)
    requires i < |calls|
  {
    !IsProblematic(Reported(config, calls[..i + 1]))
  }

  /** How many of the calls from `lo` up to `hi` have this signature and are let through. */
  ghost function CountLetThrough(config: LoopDetectionConfig, calls: seq<Record>, signature: nat, lo: nat, hi: nat): nat
    requires lo <= hi <= |calls|
    decreases hi
  {
    if lo == hi then 0
    else
      CountLetThrough(config, calls, signature, lo, hi - 1)
      + (if calls[hi - 1].signature == signature && LetThrough(config, calls, hi - 1) then 1 else 0)
  }

  lemma {:induction false} LetThroughOccur(config: LoopDetectionConfig, calls: seq<Record>, signature: nat, lo: nat,
                                           hi: nat)
    requires lo <= hi <= |calls|
    ensures CountLetThrough(config, calls, signature, lo, hi) <= Occurrences(calls[lo..hi], signature)
    decreases hi
  {
    hide LetThrough;
    if lo < hi {
      LetThroughOccur(config, calls, signature, lo, hi - 1);
      assert calls[lo..hi][..hi - lo - 1] == calls[lo..hi - 1];
    }
  }

  /** A call that is let through has fewer than the threshold of its signature in its window. */
  lemma LetThroughIsRare(config: LoopDetectionConfig, calls: seq<Record>, i: nat)
    requires config.windowSize >= 1 && i < |calls| && LetThrough(config, calls, i)
    ensures Occurrences(LastCalls(calls[..i + 1], config.windowSize), calls[i].signature) < config.exactThreshold
  {
    hide Reported, Occurrences, LastCalls;
    ExactLoopIffRepeated(config, calls[..i + 1]);
  }

  /** The guard: among any calls that fit into one window, fewer than the threshold with the same
      signature are let through; and none at all if the threshold is 0. */
  lemma {:induction false} GuardHolds(config: LoopDetectionConfig, calls: seq<Record>, signature: nat, lo: nat, hi: nat)
    requires config.windowSize >= 1 && lo <= hi <= |calls| && hi - lo <= config.windowSize
    ensures CountLetThrough(config, calls, signature, lo, hi) < config.exactThreshold
            || (config.exactThreshold == 0 && CountLetThrough(config, calls, signature, lo, hi) == 0)
    decreases hi
  {
    hide LetThrough, Occurrences;
    if lo < hi {
      GuardHolds(config, calls, signature, lo, hi - 1);
      if calls[hi - 1].signature == signature && LetThrough(config, calls, hi - 1) {
        LetThroughIsRare(config, calls, hi - 1);
        LetThroughOccur(config, calls, signature, lo, hi);
        var recent := LastCalls(calls[..hi], config.windowSize);
        var before := |recent| - (hi - lo);
        assert recent == recent[..before] + calls[lo..hi];
        OccurrencesConcat(recent[..before], calls[lo..hi], signature);
      }
    }
  }
}
