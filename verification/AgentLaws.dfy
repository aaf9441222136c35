/** What the agent's tool executor promises over whole runs: which calls reach a tool at all. */
module AgentLaws {
  import opened AgentTools
  import opened Authorization
  import opened LoopDetection
  import opened LoopLaws
  import opened Messages
  import opened Utf8

  /** A tool call with its step and what the world does, or a change of the agent's settings. */
  datatype AgentEvent =
    | ToolCalled(call: ToolCall, step: nat, env: Env)
    | ConfigSet(mode: AuthorizationMode, rag: bool)
    | RagEnabled
    | RagDisabled
    | HandlerSet(present: bool)
    | ApprovalReset
    | LoopsCleared

  function RecordOf(signatureOf: (string, Json) -> nat, e: AgentEvent): Record
    requires e.ToolCalled?
  {
    Record(e.call.name, e.call.arguments, e.env.now, e.step, signatureOf(e.call.name, e.call.arguments))
  }

  ghost function Next(setup: Setup, signatureOf: (string, Json) -> nat, s: AgentState, e: AgentEvent): AgentState {
    match e
    case ToolCalled(call, _, env) => Executed(setup, s, call, RecordOf(signatureOf, e), env).0
    case ConfigSet(mode, rag) => s.(mode := mode, enableRag := rag)
    case RagEnabled => s.(enableRag := true, hasRag := true)
    case RagDisabled => s.(enableRag := false, hasRag := false)
    case HandlerSet(present) => s.(hasHandler := present)
    case ApprovalReset => s.(allApproved := false, log := s.log + [Reset])
    case LoopsCleared => s.(tracker := Tracker([], map[]), calls := [], dispatched := {})
  }

  ghost function After(setup: Setup, signatureOf: (string, Json) -> nat, s: AgentState,
                       events: seq<AgentEvent>): AgentState {
    if events == [] then s
    else Next(setup, signatureOf, After(setup, signatureOf, s, events[..|events| - 1]), events[|events| - 1])
  }

  // ---- What the log says ----

  /** How many executions of `tool` at the end of the log failed, one after the other. */
  function TrailingFailures(log: seq<LogEntry>, tool: string): nat {
    if log == [] then 0
    else
      var before := TrailingFailures(log[..|log| - 1], tool);
      match log[|log| - 1]
      case Ran(t, ok, _) => if t != tool then before else if ok then 0 else before + 1
      case _ => before
  }

  function CountRuns(log: seq<LogEntry>, tool: string): nat {
    if log == [] then 0
    else CountRuns(log[..|log| - 1], tool) + (if log[|log| - 1].Ran? && log[|log| - 1].tool == tool then 1 else 0)
  }

  /** The handler answered "All" and the approval was not reset since. */
  predicate AllGiven(log: seq<LogEntry>) {
    log != [] &&
    match log[|log| - 1]
    case Asked(_, All) => true
    case Reset => false
    case _ => AllGiven(log[..|log| - 1])
  }

  /** What an execution needs: the breaker not tripped, and a permission. */
  predicate Permitted(before: seq<LogEntry>, tool: string, mode: AuthorizationMode) {
    && TrailingFailures(before, tool) < MAX_CONSECUTIVE_FAILURES
    && (|| mode == AllowAll
        || (mode == AskUser && AllGiven(before))
        || (mode == AskUser && before != [] && before[|before| - 1] == Asked(tool, Yes)))
  }

  /** Every execution in the log was permitted when it happened. */
  predicate AllPermitted(log: seq<LogEntry>) {
    forall i :: 0 <= i < |log| && log[i].Ran? ==> Permitted(log[..i], log[i].tool, log[i].mode)
  }

  lemma AppendPermitted(log: seq<LogEntry>, entry: LogEntry)
    requires AllPermitted(log) && (entry.Ran? ==> Permitted(log, entry.tool, entry.mode))
    ensures AllPermitted(log + [entry])
  {
    hide Permitted;
    var log' := log + [entry];
    forall i | 0 <= i < |log'| && log'[i].Ran?
      ensures Permitted(log'[..i], log'[i].tool, log'[i].mode)
    {
      if i < |log| {
        assert log'[..i] == log[..i];
      } else {
        assert log'[..i] == log;
      }
    }
  }

  // ---- The invariant ----

  ghost predicate CountersMatch(failures: map<string, nat>, log: seq<LogEntry>) {
    forall tool :: FailuresOf(failures, tool) == TrailingFailures(log, tool) <= MAX_CONSECUTIVE_FAILURES
  }

  /** The counters, the log and the standing approval fit together. */
  ghost predicate Sound(failures: map<string, nat>, log: seq<LogEntry>, allApproved: bool) {
    CountersMatch(failures, log) && AllPermitted(log) && (allApproved <==> AllGiven(log))
  }

  ghost predicate GuardInv(setup: Setup, s: AgentState) {
    && s.tracker == TrackerAfter(setup.loops.windowSize, s.calls)
    && forall i: nat :: i in s.dispatched <==> i < |s.calls| && LetThrough(setup.loops, s.calls, i)
  }

  ghost predicate Inv(setup: Setup, s: AgentState) {
    Sound(s.failures, s.log, s.allApproved) && GuardInv(setup, s)
  }

  lemma AppendCounts(log: seq<LogEntry>, entry: LogEntry, tool: string)
    ensures TrailingFailures(log + [entry], tool) ==
            if entry.Ran? && entry.tool == tool then (if entry.ok then 0 else TrailingFailures(log, tool) + 1)
            else TrailingFailures(log, tool)
    ensures CountRuns(log + [entry], tool) == CountRuns(log, tool) + (if entry.Ran? && entry.tool == tool then 1 else 0)
    ensures AllGiven(log + [entry])
            == if entry.Asked? && entry.answer == All then true else if entry == Reset then false else AllGiven(log)
  {
    assert (log + [entry])[..|log|] == log;
  }

  /** When the gate opens: in allow mode, and in ask mode under an "All" that stands, or if there is a
      handler and it says yes now. */
  predicate LetsIn(log: seq<LogEntry>, mode: AuthorizationMode, hasHandler: bool, reply: Option<Answer>) {
    || mode == AllowAll
    || (mode == AskUser && AllGiven(log))
    || (mode == AskUser && hasHandler && (reply == Some(Yes) || reply == Some(All)))
  }

  /** Asking adds no failure, no execution and no reset to the log. */
  lemma AskingCounts(log: seq<LogEntry>, tool: string, answer: Answer)
    ensures forall t :: TrailingFailures(log + [Asked(tool, answer)], t) == TrailingFailures(log, t)
    ensures forall t :: CountRuns(log + [Asked(tool, answer)], t) == CountRuns(log, t)
    ensures AllGiven(log + [Asked(tool, answer)]) <==> answer == All || AllGiven(log)
    ensures AllPermitted(log) ==> AllPermitted(log + [Asked(tool, answer)])
  {
    hide AllPermitted, TrailingFailures, CountRuns, AllGiven;
    var entry := Asked(tool, answer);
    if AllPermitted(log) {
      AppendPermitted(log, entry);
    }
    forall t
      ensures TrailingFailures(log + [entry], t) == TrailingFailures(log, t)
      ensures CountRuns(log + [entry], t) == CountRuns(log, t)
    {
      AppendCounts(log, entry, t);
    }
    AppendCounts(log, entry, tool);
  }

  /** What the gate adds to the log, and why it opens. */
  lemma GateIsHonest(s: AgentState, tool: string, reply: Option<Answer>)
    requires Sound(s.failures, s.log, s.allApproved)
    ensures var (s', open) := Gate(s, tool, reply);
            && Sound(s'.failures, s'.log, s'.allApproved)
            && s' == s.(allApproved := s'.allApproved, log := s'.log)
            && (forall t :: CountRuns(s'.log, t) == CountRuns(s.log, t))
            && (open && TrailingFailures(s.log, tool) < MAX_CONSECUTIVE_FAILURES ==> Permitted(s'.log, tool, s'.mode))
            && (open <==> LetsIn(s.log, s.mode, s.hasHandler, reply))
            && (forall t :: TrailingFailures(s'.log, t) == TrailingFailures(s.log, t)) && s.log <= s'.log
  {
    hide AllPermitted, CountRuns, TrailingFailures, AllGiven;
    if reply.Some? {
      AskingCounts(s.log, tool, reply.value);
    }
  }

  lemma RunIsCounted(s: AgentState, tool: string, ok: bool)
    requires Sound(s.failures, s.log, s.allApproved)
    requires Permitted(s.log, tool, s.mode)
    ensures var s' := AfterRun(s, tool, ok);
            Sound(s'.failures, s'.log, s'.allApproved)
  {
    hide AllPermitted, AllGiven;
    var entry := Ran(tool, ok, s.mode);
    var s' := AfterRun(s, tool, ok);
    AppendPermitted(s.log, entry);
    forall t
      ensures FailuresOf(s'.failures, t) == TrailingFailures(s'.log, t) <= MAX_CONSECUTIVE_FAILURES
    {
      AppendCounts(s.log, entry, t);
      assert FailuresOf(s.failures, t) == TrailingFailures(s.log, t);
    }
    AppendCounts(s.log, entry, tool);
  }

  /** Recording an observation changes nothing else. */
  lemma RecordingIsHarmless(s: AgentState, o: Observation, intake: Intake)
    ensures var s' := Recorded(s, o, intake).0;
            && s'.failures == s.failures && s'.log == s.log && s'.allApproved == s.allApproved
            && s'.tracker == s.tracker && s'.calls == s.calls && s'.dispatched == s.dispatched && s'.mode == s.mode
  {
  }

  lemma CounterOf(s: AgentState, tool: string)
    requires Sound(s.failures, s.log, s.allApproved)
    ensures FailuresOf(s.failures, tool) == TrailingFailures(s.log, tool) <= MAX_CONSECUTIVE_FAILURES
  {
  }

  /** What a gated call does, apart from recording the observation. */
  lemma GatedCases(setup: Setup, s: AgentState, kind: Kind, call: ToolCall, env: Env)
    ensures var s' := Gated(setup, s, kind, call, env).0;
            var (asked, open) := Gate(s, call.name, env.reply);
            var runs := open && FailuresOf(s.failures, call.name) < MAX_CONSECUTIVE_FAILURES
                && IsAvailable(setup, s.enableRag && s.hasRag, kind, call.name);
            var stops := FailuresOf(s.failures, call.name) >= MAX_CONSECUTIVE_FAILURES
                || !IsAvailable(setup, s.enableRag && s.hasRag, kind, call.name);
            var core := if runs then AfterRun(asked, call.name, env.outcome.Ok?) else if stops then s else asked;
            && s'.failures == core.failures && s'.log == core.log && s'.allApproved == core.allApproved
            && s'.tracker == core.tracker && s'.calls == core.calls && s'.dispatched == core.dispatched
            && s'.mode == core.mode
  {
    hide Recorded, Gate, AfterRun, IsAvailable;
    var tool := call.name;
    var (asked, open) := Gate(s, tool, env.reply);
    var ran := AfterRun(asked, tool, env.outcome.Ok?);
    RecordingIsHarmless(s, Observation(call.id, setup.wording(Skipped(tool, FailuresOf(s.failures, tool))), false),
        env.intake);
    RecordingIsHarmless(s, Observation(call.id, setup.wording(Missing(tool)), false), env.intake);
    RecordingIsHarmless(asked, Observation(call.id, setup.wording(Denied(tool)), false), env.intake);
    if env.outcome.Ok? {
      RecordingIsHarmless(ran, Observation(call.id, env.outcome.value, true), env.intake);
    } else {
      RecordingIsHarmless(ran, Observation(call.id, setup.wording(Failure(tool, env.outcome.error.message)), false),
          env.intake);
    }
  }

  /** A gated call keeps the counters and the log as they should be. */
  lemma GatedKeepsInv(setup: Setup, s: AgentState, kind: Kind, call: ToolCall, env: Env)
    requires Sound(s.failures, s.log, s.allApproved)
    ensures var s' := Gated(setup, s, kind, call, env).0;
            && Sound(s'.failures, s'.log, s'.allApproved)
            && s'.tracker == s.tracker && s'.calls == s.calls && s'.dispatched == s.dispatched
  {
    hide Sound, Permitted, Gated, Gate, IsAvailable;
    GatedCases(setup, s, kind, call, env);
    GateIsHonest(s, call.name, env.reply);
    CounterOf(s, call.name);
    var (asked, open) := Gate(s, call.name, env.reply);
    if open && FailuresOf(s.failures, call.name) < MAX_CONSECUTIVE_FAILURES {
      RunIsCounted(asked, call.name, env.outcome.Ok?);
    }
  }

  lemma MoreCallsLetThrough(config: LoopDetectionConfig, calls: seq<Record>, record: Record, i: nat)
    requires i < |calls|
    ensures LetThrough(config, calls + [record], i) == LetThrough(config, calls, i)
  {
    assert (calls + [record])[..i + 1] == calls[..i + 1];
  }

  /** Passing on just the calls on which the detector reports no loop keeps the guard. */
  lemma TrackedKeepsGuard(setup: Setup, s: AgentState, record: Record)
    requires GuardInv(setup, s)
    ensures var tracked := Tracked(setup, s, record);
            var loops := IsProblematic(Detected(setup.loops, tracked.tracker, record));
            GuardInv(setup, if loops then tracked else Dispatched(tracked))
  {
    hide LetThrough, Detected;
    var calls := s.calls + [record];
    assert calls[..|s.calls|] == s.calls && calls[..|s.calls| + 1] == calls;
    assert TrackerAfter(setup.loops.windowSize, calls) == Pushed(setup.loops.windowSize, s.tracker, record);
    forall i: nat | i < |s.calls|
      ensures LetThrough(setup.loops, calls, i) == LetThrough(setup.loops, s.calls, i)
    {
      MoreCallsLetThrough(setup.loops, s.calls, record, i);
    }
    LetThroughIfNoLoop(setup.loops, calls);
  }

  lemma LetThroughIfNoLoop(config: LoopDetectionConfig, calls: seq<Record>)
    requires calls != []
    ensures LetThrough(config, calls, |calls| - 1)
            == !IsProblematic(Detected(config, TrackerAfter(config.windowSize, calls), calls[|calls| - 1]))
  {
    hide Detected, TrackerAfter;
    assert calls[..|calls| - 1 + 1] == calls;
  }

  lemma NextKeepsInv(setup: Setup, signatureOf: (string, Json) -> nat, s: AgentState, e: AgentEvent)
    requires Inv(setup, s)
    ensures Inv(setup, Next(setup, signatureOf, s, e))
  {
    hide Sound, Detected, LetThrough, TrackerAfter, Executed;
    match e {
      case ToolCalled(call, _, env) =>
        ExecutedKeepsInv(setup, s, call, RecordOf(signatureOf, e), env);
      case ApprovalReset =>
        ResetKeepsSound(s.failures, s.log, s.allApproved);
      case LoopsCleared =>
        NothingTracked(setup.loops.windowSize);
      case _ =>
    }
  }

  lemma NothingTracked(window: nat)
    ensures TrackerAfter(window, []) == Tracker([], map[])
  {
  }

  lemma ResetKeepsSound(failures: map<string, nat>, log: seq<LogEntry>, allApproved: bool)
    requires Sound(failures, log, allApproved)
    ensures Sound(failures, log + [Reset], false)
  {
    hide AllPermitted, AllGiven;
    AppendPermitted(log, Reset);
    AppendCounts(log, Reset, "");
    forall tool
      ensures TrailingFailures(log + [Reset], tool) == TrailingFailures(log, tool)
    {
      AppendCounts(log, Reset, tool);
    }
  }

  lemma ControlledIsHarmless(setup: Setup, s: AgentState, call: ToolCall, env: Env)
    ensures var s' := Controlled(setup, s, call, env).0;
            && s'.failures == s.failures && s'.log == s.log && s'.allApproved == s.allApproved
            && s'.tracker == s.tracker && s'.calls == s.calls && s'.dispatched == s.dispatched && s'.mode == s.mode
  {
    hide Recorded;
    if env.outcome.Ok? {
      RecordingIsHarmless(s, Observation(call.id, env.outcome.value, true), env.intake);
    } else {
      RecordingIsHarmless(s,
          Observation(call.id, setup.wording(Failure(call.name, env.outcome.error.message)), false), env.intake);
    }
  }

  lemma ExecutedKeepsInv(setup: Setup, s: AgentState, call: ToolCall, record: Record, env: Env)
    requires Inv(setup, s)
    ensures Inv(setup, Executed(setup, s, call, record, env).0)
  {
    hide Sound, Detected, LetThrough, TrackerAfter, Gated, Controlled, KindOf;
    var tracked := Tracked(setup, s, record);
    TrackedKeepsGuard(setup, s, record);
    GatedKeepsInv(setup, Dispatched(tracked), KindOf(call.name), call, env);
    ControlledIsHarmless(setup, Dispatched(tracked), call, env);
  }

  lemma FreshInv(setup: Setup, mode: AuthorizationMode, rag: bool, hasHandler: bool)
    ensures Inv(setup, Fresh(mode, rag, hasHandler))
  {
  }

  lemma {:induction false} RunsKeepInv(setup: Setup, signatureOf: (string, Json) -> nat, s: AgentState,
                                       events: seq<AgentEvent>)
    requires Inv(setup, s)
    ensures Inv(setup, After(setup, signatureOf, s, events))
  {
    hide Inv, Next;
    if events != [] {
      RunsKeepInv(setup, signatureOf, s, events[..|events| - 1]);
      NextKeepsInv(setup, signatureOf, After(setup, signatureOf, s, events[..|events| - 1]), events[|events| - 1]);
    }
  }

  // ---- The main results ----

  /** Breaker and gate over whole runs: each tool's counter is the number of its executions that failed
      since one last succeeded, and never more than two; and every execution of a code, RAG or generic
      tool happened with the breaker not tripped, and either in allow mode, or in ask mode under an
      "All" that still stood, or directly after the handler said "Yes" to that tool. */
  lemma BreakerAndGateHold(setup: Setup, signatureOf: (string, Json) -> nat, mode: AuthorizationMode, rag: bool,
                           hasHandler: bool, events: seq<AgentEvent>)
    ensures var s := After(setup, signatureOf, Fresh(mode, rag, hasHandler), events);
            && (forall tool :: FailuresOf(s.failures, tool) == TrailingFailures(s.log, tool) <= 2)
            && AllPermitted(s.log)
  {
    hide AllPermitted, TrailingFailures, After;
    FreshInv(setup, mode, rag, hasHandler);
    RunsKeepInv(setup, signatureOf, Fresh(mode, rag, hasHandler), events);
  }

  lemma GatedWhenTripped(setup: Setup, s: AgentState, kind: Kind, call: ToolCall, env: Env, tool: string)
    requires Sound(s.failures, s.log, s.allApproved)
    requires TrailingFailures(s.log, tool) == MAX_CONSECUTIVE_FAILURES
    ensures TrailingFailures(Gated(setup, s, kind, call, env).0.log, tool) == MAX_CONSECUTIVE_FAILURES
    ensures CountRuns(Gated(setup, s, kind, call, env).0.log, tool) == CountRuns(s.log, tool)
  {
    hide Sound, Permitted, Gated, Gate, IsAvailable, TrailingFailures, CountRuns;
    GatedCases(setup, s, kind, call, env);
    GateIsHonest(s, call.name, env.reply);
    CounterOf(s, call.name);
    CounterOf(s, tool);
    var (asked, open) := Gate(s, call.name, env.reply);
    CounterOf(asked, tool);
    AppendCounts(asked.log, Ran(call.name, env.outcome.Ok?, asked.mode), tool);
  }

  /** A tool that failed twice in a row is never executed again, whatever happens. */
  lemma {:induction false} TrippedForGood(setup: Setup, signatureOf: (string, Json) -> nat, s: AgentState,
                                          events: seq<AgentEvent>, tool: string)
    requires Inv(setup, s) && TrailingFailures(s.log, tool) == MAX_CONSECUTIVE_FAILURES
    ensures var s' := After(setup, signatureOf, s, events);
            && TrailingFailures(s'.log, tool) == MAX_CONSECUTIVE_FAILURES
            && CountRuns(s'.log, tool) == CountRuns(s.log, tool)
  {
    if events != [] {
      hide Inv, Next, TrailingFailures, CountRuns;
      var before := After(setup, signatureOf, s, events[..|events| - 1]);
      RunsKeepInv(setup, signatureOf, s, events[..|events| - 1]);
      TrippedForGood(setup, signatureOf, s, events[..|events| - 1], tool);
      StaysTripped(setup, signatureOf, before, events[|events| - 1], tool);
    }
  }

  lemma StaysTripped(setup: Setup, signatureOf: (string, Json) -> nat, s: AgentState, e: AgentEvent, tool: string)
    requires Inv(setup, s) && TrailingFailures(s.log, tool) == MAX_CONSECUTIVE_FAILURES
    ensures var s' := Next(setup, signatureOf, s, e);
            && TrailingFailures(s'.log, tool) == MAX_CONSECUTIVE_FAILURES
            && CountRuns(s'.log, tool) == CountRuns(s.log, tool)
  {
    hide Sound, Detected, GuardInv, TrailingFailures, CountRuns, Gated, Controlled, KindOf;
    match e {
      case ToolCalled(call, _, env) =>
        var tracked := Tracked(setup, s, RecordOf(signatureOf, e));
        GatedWhenTripped(setup, Dispatched(tracked), KindOf(call.name), call, env, tool);
        ControlledIsHarmless(setup, Dispatched(tracked), call, env);
      case ApprovalReset =>
        AppendCounts(s.log, Reset, tool);
      case _ =>
    }
  }

  /** How many of the calls from `lo` up to `hi` have this signature and were dispatched. */
  function CountDispatched(dispatched: set<nat>, calls: seq<Record>, signature: nat, lo: nat, hi: nat): nat
    requires lo <= hi <= |calls|
    decreases hi
  {
    if lo == hi then 0
    else
      CountDispatched(dispatched, calls, signature, lo, hi - 1)
      + (if calls[hi - 1].signature == signature && hi - 1 in dispatched then 1 else 0)
  }

  lemma {:induction false} DispatchedAreLetThrough(config: LoopDetectionConfig, dispatched: set<nat>,
                                                   calls: seq<Record>, signature: nat, lo: nat, hi: nat)
    requires lo <= hi <= |calls|
    requires forall i: nat :: i in dispatched <==> i < |calls| && LetThrough(config, calls, i)
    ensures CountDispatched(dispatched, calls, signature, lo, hi) == CountLetThrough(config, calls, signature, lo, hi)
    decreases hi
  {
    hide LetThrough;
    if lo < hi {
      DispatchedAreLetThrough(config, dispatched, calls, signature, lo, hi - 1);
    }
  }

  /** The loop guard end to end: since the detector was last cleared, the calls dispatched to any
      executor, gated or not, are exactly those on which it reported no loop; so among any consecutive
      calls that fit into its window, fewer than the exact-match threshold with the same signature are
      dispatched, and none if the threshold is 0. */
  lemma LoopGuardHolds(setup: Setup, signatureOf: (string, Json) -> nat, mode: AuthorizationMode, rag: bool,
                       hasHandler: bool, events: seq<AgentEvent>, signature: nat, lo: nat, hi: nat)
    requires var s := After(setup, signatureOf, Fresh(mode, rag, hasHandler), events);
             setup.loops.windowSize >= 1 && lo <= hi <= |s.calls| && hi - lo <= setup.loops.windowSize
    ensures var s := After(setup, signatureOf, Fresh(mode, rag, hasHandler), events);
            var count := CountDispatched(s.dispatched, s.calls, signature, lo, hi);
            && (forall i: nat :: i in s.dispatched <==> i < |s.calls| && LetThrough(setup.loops, s.calls, i))
            && (count < setup.loops.exactThreshold || (setup.loops.exactThreshold == 0 && count == 0))
  {
    hide Sound, After, LetThrough, CountDispatched;
    var s := After(setup, signatureOf, Fresh(mode, rag, hasHandler), events);
    FreshInv(setup, mode, rag, hasHandler);
    RunsKeepInv(setup, signatureOf, Fresh(mode, rag, hasHandler), events);
    DispatchedAreLetThrough(setup.loops, s.dispatched, s.calls, signature, lo, hi);
    GuardHolds(setup.loops, s.calls, signature, lo, hi);
  }

  /** A call is either dispatched or terminated. A reported loop is the end of it: nothing is executed,
      asked, recorded or counted. */
  lemma LoopsAreTerminated(setup: Setup, s: AgentState, call: ToolCall, record: Record, env: Env)
    ensures var (s', r) := Executed(setup, s, call, record, env);
            && (r.Terminated?
                <==> IsProblematic(Detected(setup.loops, Pushed(setup.loops.windowSize, s.tracker, record), record)))
            && s'.dispatched == (if r.Terminated? then s.dispatched else s.dispatched + {|s.calls|})
            && (r.Terminated? ==>
                  && s' == Tracked(setup, s, record) && IsProblematic(r.pattern)
                  && s'.log == s.log && s'.memory == s.memory && s'.failures == s.failures)
  {
    hide Detected, Pushed, Gated, Controlled, KindOf;
    var going := Dispatched(Tracked(setup, s, record));
    GatedCases(setup, going, KindOf(call.name), call, env);
    NeverTerminated(setup, going, KindOf(call.name), call, env);
    ControlledIsHarmless(setup, going, call, env);
  }

  lemma NeverTerminated(setup: Setup, s: AgentState, kind: Kind, call: ToolCall, env: Env)
    ensures !Gated(setup, s, kind, call, env).1.Terminated? && !Controlled(setup, s, call, env).1.Terminated?
  {
    hide Gate, AfterRun, AfterObservation, IsAvailable;
  }

  /** Which calls are terminated, counted among the last calls before and including it: those whose
      signature occurs as often as the exact-match threshold says, and those with so many similar calls
      as the other threshold says. */
  lemma TerminatedIff(setup: Setup, s: AgentState, call: ToolCall, record: Record, env: Env)
    requires Inv(setup, s) && setup.loops.windowSize >= 1
    ensures var window := LastCalls(s.calls + [record], setup.loops.windowSize);
            Executed(setup, s, call, record, env).1.Terminated? <==>
              || Occurrences(window, record.signature) >= setup.loops.exactThreshold
              || |SimilarPlaces(window, record)| + 1 >= setup.loops.similarThreshold
  {
    hide Sound, Detected, LetThrough, TrackerAfter, Executed, Occurrences, SimilarPlaces, Pushed;
    var calls := s.calls + [record];
    LoopsAreTerminated(setup, s, call, record, env);
    ExactLoopIffRepeated(setup.loops, calls);
    SimilarLoopIff(setup.loops, calls);
    TrackedOne(setup, s, record);
  }

  lemma TrackedOne(setup: Setup, s: AgentState, record: Record)
    requires GuardInv(setup, s)
    ensures TrackerAfter(setup.loops.windowSize, s.calls + [record])
            == Pushed(setup.loops.windowSize, s.tracker, record)
  {
    hide Pushed, LetThrough;
    assert (s.calls + [record])[..|s.calls|] == s.calls;
  }

  // ---- Every call, not only the logged ones ----

  /** A call of a tool that is not the control plane's may run. */
  predicate MayRun(setup: Setup, s: AgentState, call: ToolCall, env: Env) {
    && TrailingFailures(s.log, call.name) < 2
    && (if call.name == "execute_code" then setup.hasExecutor
        else if call.name == "rag_search" then s.enableRag && s.hasRag
        else call.name in setup.tools)
    && LetsIn(s.log, s.mode, s.hasHandler, env.reply)
  }

  /** The caller is told this, and so is the memory, as far as it takes it. */
  predicate Tells(s: AgentState, s': AgentState, r: ToolResult, call: ToolCall, env: Env, content: seq<byte>,
                  success: bool) {
    && r == (if env.intake.fails then MemoryFailed else Observed(Observation(call.id, content, success)))
    && s'.memory == s.memory + (if env.intake.stores then [Message(Tool, content, call.id, None)] else [])
  }

  /** The call ended without the tool being run, and the caller is told that it failed. */
  ghost predicate IsRefused(s: AgentState, s': AgentState, r: ToolResult, call: ToolCall, env: Env) {
    && s.log <= s'.log && (forall tool :: CountRuns(s'.log, tool) == CountRuns(s.log, tool))
    && exists content :: Tells(s, s', r, call, env, content, false)
  }

  /** The tool was run, once and with permission, and the caller is told what came of it. */
  ghost predicate IsRun(s: AgentState, s': AgentState, r: ToolResult, call: ToolCall, env: Env) {
    && s.log < s'.log
    && s'.log[|s'.log| - 1] == Ran(call.name, env.outcome.Ok?, s.mode)
    && Permitted(s'.log[..|s'.log| - 1], call.name, s.mode)
    && (forall tool :: CountRuns(s'.log, tool) == CountRuns(s.log, tool) + (if tool == call.name then 1 else 0))
    && (if env.outcome.Ok? then Tells(s, s', r, call, env, env.outcome.value, true)
        else exists content :: Tells(s, s', r, call, env, content, false))
  }

  lemma RecordingTells(s: AgentState, o: Observation, call: ToolCall, env: Env)
    requires o.toolCallId == call.id
    ensures var (s', r) := Recorded(s, o, env.intake);
            Tells(s, s', r, call, env, o.content, o.success) && s'.log == s.log
  {
  }

  lemma GatedIsRunOrRefused(setup: Setup, s: AgentState, kind: Kind, call: ToolCall, env: Env)
    requires Sound(s.failures, s.log, s.allApproved)
    ensures var (s', r) := Gated(setup, s, kind, call, env);
            var may := TrailingFailures(s.log, call.name) < 2
                && IsAvailable(setup, s.enableRag && s.hasRag, kind, call.name)
                && LetsIn(s.log, s.mode, s.hasHandler, env.reply);
            if may then IsRun(s, s', r, call, env) else IsRefused(s, s', r, call, env)
  {
    hide Recorded, Gate, IsAvailable, Permitted, LetsIn, Sound, Tells, AfterRun, CountRuns, TrailingFailures;
    var tool := call.name;
    var (asked, open) := Gate(s, tool, env.reply);
    GateIsHonest(s, tool, env.reply);
    CounterOf(s, tool);
    if FailuresOf(s.failures, tool) >= MAX_CONSECUTIVE_FAILURES {
      RecordingTells(s, Observation(call.id, setup.wording(Skipped(tool, FailuresOf(s.failures, tool))), false), call,
          env);
    } else if !IsAvailable(setup, s.enableRag && s.hasRag, kind, tool) {
      RecordingTells(s, Observation(call.id, setup.wording(Missing(tool)), false), call, env);
    } else if !open {
      var o := Observation(call.id, setup.wording(Denied(tool)), false);
      RecordingTells(asked, o, call, env);
      TellsFromMemory(s, asked, Recorded(asked, o, env.intake).0, Recorded(asked, o, env.intake).1, call, env,
          o.content, false);
    } else {
      var ran := AfterRun(asked, tool, env.outcome.Ok?);
      AfterRunLogs(asked, tool, env.outcome.Ok?);
      var o := if env.outcome.Ok? then Observation(call.id, env.outcome.value, true)
        else Observation(call.id, setup.wording(Failure(tool, env.outcome.error.message)), false);
      RecordingTells(ran, o, call, env);
      TellsFromMemory(s, ran, Recorded(ran, o, env.intake).0, Recorded(ran, o, env.intake).1, call, env, o.content,
          o.success);
    }
  }

  lemma TellsFromMemory(s: AgentState, mid: AgentState, s': AgentState, r: ToolResult, call: ToolCall, env: Env,
                        content: seq<byte>, success: bool)
    requires Tells(mid, s', r, call, env, content, success) && mid.memory == s.memory
    ensures Tells(s, s', r, call, env, content, success)
  {
  }

  lemma AfterRunLogs(s: AgentState, tool: string, ok: bool)
    ensures var s' := AfterRun(s, tool, ok);
            && s'.log == s.log + [Ran(tool, ok, s.mode)] && s'.memory == s.memory
            && forall t :: CountRuns(s'.log, t) == CountRuns(s.log, t) + (if t == tool then 1 else 0)
  {
    forall t
      ensures CountRuns(AfterRun(s, tool, ok).log, t) == CountRuns(s.log, t) + (if t == tool then 1 else 0)
    {
      AppendCounts(s.log, Ran(tool, ok, s.mode), t);
    }
  }

  /** Every call that is not terminated, by its name. A call of the two control tools is run whatever the
      mode, the breaker and the approvals, and changes none of them. A call of any other tool is run if and
      only if it may be, and refused otherwise. */
  lemma EveryCallIsAccountedFor(setup: Setup, s: AgentState, call: ToolCall, record: Record, env: Env)
    requires Sound(s.failures, s.log, s.allApproved) && !Executed(setup, s, call, record, env).1.Terminated?
    ensures var (s', r) := Executed(setup, s, call, record, env);
            if call.name == "assistant_done" || call.name == "report_progress" then
              && s'.failures == s.failures && s'.log == s.log && s'.allApproved == s.allApproved
              && (if env.outcome.Ok? then Tells(s, s', r, call, env, env.outcome.value, true)
                  else exists content :: Tells(s, s', r, call, env, content, false))
            else if MayRun(setup, s, call, env) then IsRun(s, s', r, call, env)
            else IsRefused(s, s', r, call, env)
  {
    hide Detected, Pushed, Gated, Recorded, IsRun, IsRefused, Tells, Sound, LetsIn, TrailingFailures;
    var going := Dispatched(Tracked(setup, s, record));
    if call.name == "assistant_done" || call.name == "report_progress" {
      ControlledIsHarmless(setup, going, call, env);
      var o := if env.outcome.Ok? then Observation(call.id, env.outcome.value, true)
        else Observation(call.id, setup.wording(Failure(call.name, env.outcome.error.message)), false);
      RecordingTells(going, o, call, env);
      TellsFromMemory(s, going, Recorded(going, o, env.intake).0, Recorded(going, o, env.intake).1, call, env,
          o.content, o.success);
    } else {
      var (s', r) := Gated(setup, going, KindOf(call.name), call, env);
      GatedIsRunOrRefused(setup, going, KindOf(call.name), call, env);
      SameTold(s, going, s', r, call, env);
    }
  }

  lemma SameTold(s: AgentState, going: AgentState, s': AgentState, r: ToolResult, call: ToolCall, env: Env)
    requires going.log == s.log && going.memory == s.memory && going.mode == s.mode
    ensures IsRun(going, s', r, call, env) ==> IsRun(s, s', r, call, env)
    ensures IsRefused(going, s', r, call, env) ==> IsRefused(s, s', r, call, env)
  {
    hide Permitted, CountRuns;
    assert forall content, success :: Tells(going, s', r, call, env, content, success) ==>
        Tells(s, s', r, call, env, content, success);
  }

  /** The same in every run: whatever happened before, no call of a code, RAG or generic tool gets around
      the breaker and the gate, and none that may run is held back. */
  lemma EveryCallOfARunIsAccountedFor(setup: Setup, signatureOf: (string, Json) -> nat, mode: AuthorizationMode,
                                      rag: bool, hasHandler: bool, events: seq<AgentEvent>, k: nat)
    requires k < |events| && events[k].ToolCalled?
    ensures var s := After(setup, signatureOf, Fresh(mode, rag, hasHandler), events[..k]);
            var (call, env) := (events[k].call, events[k].env);
            var (s', r) := Executed(setup, s, call, RecordOf(signatureOf, events[k]), env);
            && After(setup, signatureOf, Fresh(mode, rag, hasHandler), events[..k + 1]) == s'
            && (!r.Terminated? && call.name != "assistant_done" && call.name != "report_progress" ==>
                  if MayRun(setup, s, call, env) then IsRun(s, s', r, call, env) else IsRefused(s, s', r, call, env))
  {
    hide MayRun, IsRun, IsRefused, Executed, GuardInv, Sound;
    var s := After(setup, signatureOf, Fresh(mode, rag, hasHandler), events[..k]);
    FreshInv(setup, mode, rag, hasHandler);
    RunsKeepInv(setup, signatureOf, Fresh(mode, rag, hasHandler), events[..k]);
    assert events[..k + 1][..k] == events[..k];
    if !Executed(setup, s, events[k].call, RecordOf(signatureOf, events[k]), events[k].env).1.Terminated? {
      EveryCallIsAccountedFor(setup, s, events[k].call, RecordOf(signatureOf, events[k]), events[k].env);
    }
  }

  // ---- Repeated errors ----

  /** How many of the observations at the end are failures with the content of the last. */
  function TrailingSame(os: seq<Observation>): nat {
    if os == [] || os[|os| - 1].success then 0
    else if |os| > 1 && !os[|os| - 2].success && os[|os| - 2].content == os[|os| - 1].content
    then TrailingSame(os[..|os| - 1]) + 1
    else 1
  }

  function AfterObservations(s: AgentState, os: seq<Observation>): AgentState {
    if os == [] then s else AfterObservation(AfterObservations(s, os[..|os| - 1]), os[|os| - 1], false)
  }

  /** The error counter is the number of times in a row that the last observation failed with the same
      content. */
  lemma {:induction false} ErrorsAreCounted(s: AgentState, os: seq<Observation>)
    requires s.lastError == None && s.errorCount == 0
    ensures AfterObservations(s, os).errorCount == TrailingSame(os)
    ensures AfterObservations(s, os).lastError
            == if os == [] || os[|os| - 1].success then None else Some(os[|os| - 1].content)
  {
    if os != [] {
      ErrorsAreCounted(s, os[..|os| - 1]);
    }
  }
}
