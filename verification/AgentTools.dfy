/** How the agent executes tool calls: behind the loop guard, a circuit breaker for each tool, and an
    authorization gate. */
module AgentTools {
  import opened Authorization
  import opened LoopDetection
  import opened Messages
  import opened Utf8

  datatype AuthorizationMode = AskUser | AllowAll | DenyAll

  /** The tools that go through the breaker and the gate, and those of the control plane, which do not. */
  datatype Kind = Code | Rag | Generic | ControlPlane

  function KindOf(name: string): Kind {
    if name == "assistant_done" || name == "report_progress" then ControlPlane
    else if name == "execute_code" then Code
    else if name == "rag_search" then Rag
    else Generic
  }

  /** What a failed observation says; the wording is up to the agent. */
  datatype Notice =
    | Skipped(tool: string, failures: nat)
    | Missing(tool: string)
    | Denied(tool: string)
    | Failure(tool: string, message: seq<byte>)

  /** What the memory does with a message: it may store it and fail all the same, when it cannot make
      room, as a summary buffer does. */
  datatype Intake = Intake(stores: bool, fails: bool)

  /** What the world does while one call is executed: the handler's reply (none if it fails), the tool's
      outcome, what the memory does with the observation, and the time. */
  datatype Env = Env(reply: Option<Answer>, outcome: Result<seq<byte>>, intake: Intake, now: nat)

  datatype Observation = Observation(toolCallId: Option<string>, content: seq<byte>, success: bool)

  datatype ToolResult =
    | Observed(observation: Observation)
    | Terminated(pattern: LoopPattern)
    | MemoryFailed

  /** What happened, in order: the handler's answers, executions of gated tools with the mode at the
      time, and resets of the approval. */
  datatype LogEntry =
    | Asked(tool: string, answer: Answer)
    | Ran(tool: string, ok: bool, mode: AuthorizationMode)
    | Reset

  datatype Setup = Setup(
    tools: set<string>, hasExecutor: bool, loops: LoopDetectionConfig, wording: Notice -> seq<byte>)

  datatype AgentState = AgentState(
    mode: AuthorizationMode, enableRag: bool,   // the configuration
    hasRag: bool, hasHandler: bool, allApproved: bool,
    failures: map<string, nat>,
    lastError: Option<seq<byte>>, errorCount: nat,
    memory: seq<Message>,
    log: seq<LogEntry>,
    tracker: Tracker,
    calls: seq<Record>,     // since the loop detector was last cleared
    dispatched: set<nat>)   // which of them went on to one of the executors

  const MAX_CONSECUTIVE_FAILURES: nat := 2

  function FailuresOf(failures: map<string, nat>, tool: string): nat {
    if tool in failures then failures[tool] else 0
  }

  /** The executor of this kind has what it needs to run the tool. */
  predicate IsAvailable(setup: Setup, rag: bool, kind: Kind, name: string) {
    match kind
    case Code => setup.hasExecutor
    case Rag => rag
    case Generic => name in setup.tools
    case ControlPlane => true
  }

  /** The state after an observation is recorded. */
  function AfterObservation(s: AgentState, o: Observation, stores: bool): AgentState {
    var counted :=
      if o.success then s.(lastError := None, errorCount := 0)
      else if s.lastError == Some(o.content) then s.(errorCount := s.errorCount + 1)
      else s.(lastError := Some(o.content), errorCount := 1);
    if stores then counted.(memory := s.memory + [Message(Tool, o.content, o.toolCallId, None)]) else counted
  }

  function Recorded(s: AgentState, o: Observation, intake: Intake): (AgentState, ToolResult) {
    (AfterObservation(s, o, intake.stores), if intake.fails then MemoryFailed else Observed(o))
  }

  /** The state after the gate was asked about `tool`, and whether it lets it through. */
  function Gate(s: AgentState, tool: string, reply: Option<Answer>): (AgentState, bool) {
    match s.mode
    case AllowAll => (s, true)
    case DenyAll => (s, false)
    case AskUser =>
      if s.allApproved then (s, true)
      else if !s.hasHandler || reply == None then (s, false)
      else
        (s.(allApproved := reply == Some(All), log := s.log + [Asked(tool, reply.value)]), reply != Some(No))
  }

  /** The state after a gated tool was executed. */
  function AfterRun(s: AgentState, tool: string, ok: bool): AgentState {
    s.(failures := if ok then s.failures - {tool} else s.failures[tool := FailuresOf(s.failures, tool) + 1],
       log := s.log + [Ran(tool, ok, s.mode)])
  }

  /** A call of a gated tool: the breaker, then whether the tool exists, then the gate, then the tool. */
  function Gated(setup: Setup, s: AgentState, kind: Kind, call: ToolCall, env: Env): (AgentState, ToolResult) {
    var tool := call.name;
    if FailuresOf(s.failures, tool) >= MAX_CONSECUTIVE_FAILURES then
      Recorded(s, Observation(call.id, setup.wording(Skipped(tool, FailuresOf(s.failures, tool))), false), env.intake)
    else if !IsAvailable(setup, s.enableRag && s.hasRag, kind, tool) then
      Recorded(s, Observation(call.id, setup.wording(Missing(tool)), false), env.intake)
    else
      var (asked, authorized) := Gate(s, tool, env.reply);
      if !authorized then
        Recorded(asked, Observation(call.id, setup.wording(Denied(tool)), false), env.intake)
      else
        match env.outcome
        case Ok(content) =>
          Recorded(AfterRun(asked, tool, true), Observation(call.id, content, true), env.intake)
        case Err(e) =>
          Recorded(AfterRun(asked, tool, false), Observation(call.id, setup.wording(Failure(tool, e.message)), false),
              env.intake)
  }

  /** A control-plane call: neither counted nor gated. */
  function Controlled(setup: Setup, s: AgentState, call: ToolCall, env: Env): (AgentState, ToolResult) {
    match env.outcome
    case Ok(content) => Recorded(s, Observation(call.id, content, true), env.intake)
    case Err(e) => Recorded(s, Observation(call.id, setup.wording(Failure(call.name, e.message)), false), env.intake)
  }

  /** The state after the loop detector was given a call. */
  function Tracked(setup: Setup, s: AgentState, record: Record): AgentState {
    s.(tracker := Pushed(setup.loops.windowSize, s.tracker, record), calls := s.calls + [record])
  }

  /** The state after the newest call is passed on to an executor. */
  function Dispatched(s: AgentState): AgentState {
    if s.calls == [] then s else s.(dispatched := s.dispatched + {|s.calls| - 1})
  }

  /** A tool call, from the loop guard on. */
  ghost function Executed(setup: Setup, s: AgentState, call: ToolCall, record: Record,
                          env: Env): (AgentState, ToolResult) {
    var tracked := Tracked(setup, s, record);
    var pattern := Detected(setup.loops, tracked.tracker, record);
    if IsProblematic(pattern) then (tracked, Terminated(pattern))
    else if KindOf(call.name) == ControlPlane then Controlled(setup, Dispatched(tracked), call, env)
    else Gated(setup, Dispatched(tracked), KindOf(call.name), call, env)
  }

  class Agent {
    const setup: Setup
    const loopDetector: PatternDetector
    var authorizationMode: AuthorizationMode
    var enableRag: bool
    var hasRagSystem: bool
    var hasAuthorizationHandler: bool
    var allToolsApproved: bool
    var consecutiveToolFailures: map<string, nat>
    var lastToolError: Option<seq<byte>>
    var consecutiveErrorCount: nat
    var memory: seq<Message>
    ghost var log: seq<LogEntry>
    ghost var calls: seq<Record>
    ghost var dispatched: set<nat>

    constructor (setup: Setup, mode: AuthorizationMode, rag: bool, hasHandler: bool, signatureOf: (string, Json) -> nat)
      ensures this.setup == setup && fresh(loopDetector) && loopDetector.config == setup.loops
      ensures Current() == Fresh(mode, rag, hasHandler)
    {
      this.setup := setup;
      loopDetector := new PatternDetector(setup.loops, signatureOf);
      authorizationMode, enableRag, hasRagSystem := mode, rag, false;
      hasAuthorizationHandler, allToolsApproved := hasHandler, false;
      consecutiveToolFailures, lastToolError, consecutiveErrorCount := map[], None, 0;
      memory, log, calls, dispatched := [], [], [], {};
    }

    ghost function Current(): AgentState
      reads this, loopDetector
    {
      AgentState(authorizationMode, enableRag, hasRagSystem, hasAuthorizationHandler, allToolsApproved,
                 consecutiveToolFailures, lastToolError, consecutiveErrorCount, memory, log,
                 loopDetector.Current(), calls, dispatched)
    }

    method SetAuthorizationHandler(present: bool)
      modifies this
      ensures Current() == old(Current()).(hasHandler := present)
    {
      hasAuthorizationHandler := present;
    }

    method SetConfig(mode: AuthorizationMode, rag: bool)
      modifies this
      ensures Current() == old(Current()).(mode := mode, enableRag := rag)
    {
      authorizationMode, enableRag := mode, rag;
    }

    method EnableRag()
      modifies this
      ensures Current() == old(Current()).(enableRag := true, hasRag := true)
    {
      enableRag, hasRagSystem := true, true;
    }

    method DisableRag()
      modifies this
      ensures Current() == old(Current()).(enableRag := false, hasRag := false)
    {
      enableRag, hasRagSystem := false, false;
    }

    method ResetAuthorizationState()
      modifies this
      ensures Current() == old(Current()).(allApproved := false, log := old(log) + [Reset])
    {
      allToolsApproved := false;
      log := log + [Reset];
    }

    method ClearLoopDetector()
      modifies this, loopDetector
      ensures Current() == old(Current()).(tracker := Tracker([], map[]), calls := [], dispatched := {})
    {
      loopDetector.Clear();
      calls, dispatched := [], {};
    }

    method CheckToolAuthorization(tool: string, reply: Option<Answer>) returns (authorized: bool)
      modifies this
      ensures (Current(), authorized) == Gate(old(Current()), tool, reply)
    {
      match authorizationMode {
        case AllowAll => authorized := true;
        case DenyAll => authorized := false;
        case AskUser =>
          if allToolsApproved {
            return true;
          }
          if !hasAuthorizationHandler || reply == None {
            return false;
          }
          log := log + [Asked(tool, reply.value)];
          match reply.value {
            case Yes => authorized := true;
            case No => authorized := false;
            case All =>
              allToolsApproved := true;
              authorized := true;
          }
      }
    }

    method AddToolObservation(id: Option<string>, content: seq<byte>, success: bool, intake: Intake)
      returns (r: ToolResult)
      modifies this
      ensures (Current(), r) == Recorded(old(Current()), Observation(id, content, success), intake)
    {
      if !success {
        if lastToolError == Some(content) {
          consecutiveErrorCount := consecutiveErrorCount + 1;
        } else {
          lastToolError, consecutiveErrorCount := Some(content), 1;
        }
      } else {
        lastToolError, consecutiveErrorCount := None, 0;
      }
      if intake.stores {
        memory := memory + [Message(Tool, content, id, None)];
      }
      if intake.fails {
        return MemoryFailed;
      }
      r := Observed(Observation(id, content, success));
    }

    /** The code, RAG and generic executors, which differ only in which tools they run. */
    method ExecuteGatedTool(kind: Kind, call: ToolCall, env: Env) returns (r: ToolResult)
      modifies this
      ensures (Current(), r) == Gated(setup, old(Current()), kind, call, env)
    {
      hide Recorded, Gate, AfterRun, IsAvailable;
      var tool := call.name;
      if tool in consecutiveToolFailures && consecutiveToolFailures[tool] >= MAX_CONSECUTIVE_FAILURES {
        r := AddToolObservation(call.id, setup.wording(Skipped(tool, consecutiveToolFailures[tool])), false,
            env.intake);
        return;
      }
      if !IsAvailable(setup, enableRag && hasRagSystem, kind, tool) {
        r := AddToolObservation(call.id, setup.wording(Missing(tool)), false, env.intake);
        return;
      }
      var authorized := CheckToolAuthorization(tool, env.reply);
      if !authorized {
        r := AddToolObservation(call.id, setup.wording(Denied(tool)), false, env.intake);
        return;
      }
      CountOutcome(tool, env.outcome.Ok?);
      match env.outcome {
        case Ok(content) =>
          r := AddToolObservation(call.id, content, true, env.intake);
        case Err(e) =>
          r := AddToolObservation(call.id, setup.wording(Failure(tool, e.message)), false, env.intake);
      }
    }

    /** A success clears the tool's counter, a failure adds to it. */
    method CountOutcome(tool: string, ok: bool)
      modifies this
      ensures Current() == AfterRun(old(Current()), tool, ok)
    {
      log := log + [Ran(tool, ok, authorizationMode)];
      if ok {
        consecutiveToolFailures := consecutiveToolFailures - {tool};
      } else {
        var failures := if tool in consecutiveToolFailures then consecutiveToolFailures[tool] else 0;
        consecutiveToolFailures := consecutiveToolFailures[tool := failures + 1];
      }
    }

    method ExecuteControlPlaneTool(call: ToolCall, env: Env) returns (r: ToolResult)
      modifies this
      ensures (Current(), r) == Controlled(setup, old(Current()), call, env)
    {
      match env.outcome {
        case Ok(content) => r := AddToolObservation(call.id, content, true, env.intake);
        case Err(e) => r := AddToolObservation(call.id, setup.wording(Failure(call.name, e.message)), false,
            env.intake);
      }
    }

    /** A reported loop ends the run at once; any other pattern would be executed as a generic tool. */
    method HandleLoopDetection(pattern: LoopPattern, call: ToolCall, env: Env) returns (r: ToolResult)
      modifies this
      ensures IsProblematic(pattern) ==> Current() == old(Current()) && r == Terminated(pattern)
      ensures !IsProblematic(pattern) ==> (Current(), r) == Gated(setup, old(Current()), Generic, call, env)
    {
      match pattern {
        case ExactLoop(_, _, _) => r := Terminated(pattern);
        case SimilarLoop(_, _, _, _) => r := Terminated(pattern);
        case _ => r := ExecuteGatedTool(Generic, call, env);
      }
    }

    method ExecuteTool(call: ToolCall, stepNum: nat, env: Env) returns (r: ToolResult)
      requires loopDetector.config == setup.loops
      modifies this, loopDetector
      ensures var record := loopDetector.NewRecord(call.name, call.arguments, stepNum, env.now);
              (Current(), r) == Executed(setup, old(Current()), call, record, env)
    {
      hide Detected, Pushed, Gated, Controlled, KindOf;
      var pattern := loopDetector.AddToolCall(call.name, call.arguments, stepNum, env.now);
      calls := calls + [loopDetector.NewRecord(call.name, call.arguments, stepNum, env.now)];
      if IsProblematic(pattern) {
        r := HandleLoopDetection(pattern, call, env);
        return;
      }
      dispatched := dispatched + {|calls| - 1};
      if KindOf(call.name) == ControlPlane {
        r := ExecuteControlPlaneTool(call, env);
      } else {
        r := ExecuteGatedTool(KindOf(call.name), call, env);
      }
    }
  }

  function Fresh(mode: AuthorizationMode, rag: bool, hasHandler: bool): AgentState {
    AgentState(mode, rag, false, hasHandler, false, map[], None, 0, [], [], Tracker([], map[]), [], {})
  }
}
