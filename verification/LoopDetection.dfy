/** Detecting tool calls that repeat: exact counts over a sliding window of calls, then similar
    arguments, then merely suspicious patterns. */
module LoopDetection {
  import opened Messages
  import opened Similarity

  datatype Record = Record(toolName: string, arguments: Json, timestamp: nat, stepIndex: nat, signature: nat)

  datatype LoopDetectionConfig = LoopDetectionConfig(
    windowSize: nat, exactThreshold: nat, similarThreshold: nat, timeWindowSeconds: nat)

  datatype LoopPattern =
    | ExactLoop(toolName: string, count: nat, firstOccurrence: nat)
    | SimilarLoop(toolName: string, count: nat, score: real, firstOccurrence: nat)
    | SuspiciousPattern(toolName: string, count: nat, kind: string)
    | NoLoop

  predicate IsProblematic(p: LoopPattern) {
    p.ExactLoop? || p.SimilarLoop?
  }

  /** The calls in the window, oldest first, and how often each signature was counted. */
  datatype Tracker = Tracker(history: seq<Record>, counts: map<nat, nat>)

  function CountOf(counts: map<nat, nat>, signature: nat): nat {
    if signature in counts then counts[signature] else 0
  }

  /** One less, and no entry once nothing is left. */
  function Decremented(counts: map<nat, nat>, signature: nat): map<nat, nat> {
    if signature !in counts then counts
    else if counts[signature] <= 1 then counts - {signature}
    else counts[signature := counts[signature] - 1]
  }

  function Incremented(counts: map<nat, nat>, signature: nat): map<nat, nat> {
    counts[signature := CountOf(counts, signature) + 1]
  }

  /** The tracker after one more call. */
  function Pushed(window: nat, t: Tracker, record: Record): Tracker {
    var history := t.history + [record];
    if |history| > window then
      Tracker(history[1..], Incremented(Decremented(t.counts, history[0].signature), record.signature))
    else
      Tracker(history, Incremented(t.counts, record.signature))
  }

  // ---- Exact matches ----

  /** The oldest record with a signature. */
  function FirstWith(history: seq<Record>, signature: nat): Option<Record> {
    if history == [] then None
    else if history[0].signature == signature then Some(history[0])
    else FirstWith(history[1..], signature)
  }

  function ExactMatch(config: LoopDetectionConfig, t: Tracker, latest: Record): Option<LoopPattern> {
    var count := CountOf(t.counts, latest.signature);
    if count >= config.exactThreshold then
      var first := FirstWith(t.history, latest.signature);
      Some(ExactLoop(latest.toolName, count, if first.Some? then first.value.stepIndex else latest.stepIndex))
    else None
  }

  // ---- Similar arguments ----

  /** The step of an earlier call, and how similar its arguments are. */
  datatype SimilarCall = SimilarCall(stepIndex: nat, score: real)

  function LastCalls(history: seq<Record>, n: nat): seq<Record> {
    if |history| <= n then history else history[|history| - n..]
  }

  ghost predicate IsSimilar(record: Record, latest: Record) {
    record.toolName == latest.toolName && record.stepIndex != latest.stepIndex
    && Score(record.arguments, latest.arguments) >= 0.7
  }

  /** The similar calls among some records, newest first. */
  ghost function SimilarCalls(records: seq<Record>, latest: Record): seq<SimilarCall> {
    if records == [] then []
    else
      (if IsSimilar(records[|records| - 1], latest)
       then [SimilarCall(records[|records| - 1].stepIndex, Score(records[|records| - 1].arguments, latest.arguments))]
       else [])
      + SimilarCalls(records[..|records| - 1], latest)
  }

  function TotalScore(calls: seq<SimilarCall>): real {
    if calls == [] then 0.0 else TotalScore(calls[..|calls| - 1]) + calls[|calls| - 1].score
  }

  function EarliestStep(calls: seq<SimilarCall>, default: nat): nat {
    if calls == [] then default
    else if |calls| == 1 then calls[0].stepIndex
    else
      var rest := EarliestStep(calls[1..], default);
      if calls[0].stepIndex <= rest then calls[0].stepIndex else rest
  }

  function SimilarPattern(config: LoopDetectionConfig, latest: Record, calls: seq<SimilarCall>): Option<LoopPattern> {
    if |calls| + 1 >= config.similarThreshold then
      Some(SimilarLoop(latest.toolName, |calls| + 1,
                       if calls == [] then 1.0 else TotalScore(calls) / |calls| as real,
                       EarliestStep(calls, latest.stepIndex)))
    else None
  }

  // ---- Suspicious patterns ----

  function CountSameTool(records: seq<Record>, toolName: string, since: int): nat {
    if records == [] then 0
    else
      CountSameTool(records[..|records| - 1], toolName, since)
      + (if records[|records| - 1].toolName == toolName && records[|records| - 1].timestamp >= since then 1 else 0)
  }

  function Suspicious(config: LoopDetectionConfig, t: Tracker, latest: Record): Option<LoopPattern> {
    var frequent := CountSameTool(LastCalls(t.history, 5), latest.toolName, 0);
    var rapid := CountSameTool(t.history, latest.toolName, latest.timestamp - config.timeWindowSeconds);
    if frequent >= 3 then Some(SuspiciousPattern(latest.toolName, frequent, "frequent_same_tool"))
    else if rapid >= 3 then Some(SuspiciousPattern(latest.toolName, rapid, "rapid_fire"))
    else None
  }

  /** What a tracker that has just been given `latest` reports. */
  ghost function Detected(config: LoopDetectionConfig, t: Tracker, latest: Record): LoopPattern {
    match ExactMatch(config, t, latest)
    case Some(exact) => exact
    case None =>
      match SimilarPattern(config, latest, SimilarCalls(LastCalls(t.history, config.windowSize), latest))
      case Some(similar) => similar
      case None =>
        match Suspicious(config, t, latest)
        case Some(suspicious) => suspicious
        case None => NoLoop
  }

  lemma SimilarCallsStep(records: seq<Record>, latest: Record, i: nat, calls: seq<SimilarCall>)
    requires i < |records|
    ensures calls + SimilarCalls(records[..i + 1], latest)
            == (if IsSimilar(records[i], latest)
                then calls + [SimilarCall(records[i].stepIndex, Score(records[i].arguments, latest.arguments))]
                else calls) + SimilarCalls(records[..i], latest)
  {
    hide Score, IsSimilar;
    assert records[..i + 1][..i] == records[..i];
  }

  /** Collect the calls of the same tool with similar arguments, from the newest back. */
  method CollectSimilarCalls(records: seq<Record>, latest: Record) returns (similarCalls: seq<SimilarCall>, total: real)
    ensures similarCalls == SimilarCalls(records, latest) && total == TotalScore(similarCalls)
  {
    hide Score, SimilarCalls;
    similarCalls, total := [], 0.0;
    var i := |records|;
    assert records[..i] == records;
    while i > 0
      invariant 0 <= i <= |records|
      invariant similarCalls + SimilarCalls(records[..i], latest) == SimilarCalls(records, latest)
      invariant total == TotalScore(similarCalls)
      decreases i
    {
      i := i - 1;
      SimilarCallsStep(records, latest, i, similarCalls);
      if records[i].toolName == latest.toolName && records[i].stepIndex != latest.stepIndex {
        var similarity := CalculateArgumentSimilarity(records[i].arguments, latest.arguments);
        if similarity >= 0.7 {
          similarCalls := similarCalls + [SimilarCall(records[i].stepIndex, similarity)];
          total := total + similarity;
        }
      }
    }
    NoSimilarCalls(latest);
  }

  lemma NoSimilarCalls(latest: Record)
    ensures SimilarCalls([], latest) == []
  {
  }

  class PatternDetector {
    const config: LoopDetectionConfig
    /** Any function: two calls with the same signature are taken to be the same call. */
    const signatureOf: (string, Json) -> nat
    var callHistory: seq<Record>
    var exactMatchCounts: map<nat, nat>

    constructor (config: LoopDetectionConfig, signatureOf: (string, Json) -> nat)
      ensures this.config == config && this.signatureOf == signatureOf && Current() == Tracker([], map[])
    {
      this.config := config;
      this.signatureOf := signatureOf;
      callHistory := [];
      exactMatchCounts := map[];
    }

    ghost function Current(): Tracker
      reads this
    {
      Tracker(callHistory, exactMatchCounts)
    }

    function NewRecord(toolName: string, arguments: Json, stepIndex: nat, now: nat): Record {
      Record(toolName, arguments, now, stepIndex, signatureOf(toolName, arguments))
    }

    /** Add a call to the window and say whether it repeats. */
    method AddToolCall(toolName: string, arguments: Json, stepIndex: nat, now: nat) returns (pattern: LoopPattern)
      modifies this
      ensures var record := NewRecord(toolName, arguments, stepIndex, now);
              Current() == Pushed(config.windowSize, old(Current()), record)
                  && pattern == Detected(config, Current(), record)
    {
      hide Detected;
      var record := NewRecord(toolName, arguments, stepIndex, now);
      callHistory := callHistory + [record];
      if |callHistory| > config.windowSize {
        var removed := callHistory[0];
        callHistory := callHistory[1..];
        if removed.signature in exactMatchCounts {
          var left := if exactMatchCounts[removed.signature] > 0 then exactMatchCounts[removed.signature] - 1 else 0;
          exactMatchCounts := exactMatchCounts[removed.signature := left];
          if left == 0 {
            exactMatchCounts := exactMatchCounts - {removed.signature};
          }
        }
      }
      if record.signature !in exactMatchCounts {
        exactMatchCounts := exactMatchCounts[record.signature := 0];
      }
      exactMatchCounts := exactMatchCounts[record.signature := exactMatchCounts[record.signature] + 1];
      assert Current() == Pushed(config.windowSize, old(Current()), record);
      pattern := DetectPatterns(record);
    }

    method DetectPatterns(latest: Record) returns (pattern: LoopPattern)
      ensures pattern == Detected(config, Current(), latest)
    {
      var exact := ExactMatch(config, Tracker(callHistory, exactMatchCounts), latest);
      if exact.Some? {
        return exact.value;
      }
      var similar := DetectSimilarPatterns(latest);
      if similar.Some? {
        return similar.value;
      }
      var suspicious := Suspicious(config, Tracker(callHistory, exactMatchCounts), latest);
      pattern := if suspicious.Some? then suspicious.value else NoLoop;
    }

    method DetectSimilarPatterns(latest: Record) returns (pattern: Option<LoopPattern>)
      ensures pattern == SimilarPattern(config, latest, SimilarCalls(LastCalls(callHistory, config.windowSize), latest))
    {
      var similarCalls, total := CollectSimilarCalls(LastCalls(callHistory, config.windowSize), latest);
      if |similarCalls| + 1 >= config.similarThreshold {
        var average := if similarCalls == [] then 1.0 else total / |similarCalls| as real;
        pattern := Some(SimilarLoop(latest.toolName, |similarCalls| + 1, average,
            EarliestStep(similarCalls, latest.stepIndex)));
      } else {
        pattern := None;
      }
    }

    method Clear()
      modifies this
      ensures Current() == Tracker([], map[])
    {
      callHistory := [];
      exactMatchCounts := map[];
    }
  }
}
