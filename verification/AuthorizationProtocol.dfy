/** Every interleaving of authorization requests with the client's responses, cancellations,
    clean-ups and configuration changes, and what holds in all of them. */
module AuthorizationProtocol {
  import opened Authorization
  import opened Messages

  datatype Verdict = Answered(answer: Answer) | ChannelClosed

  /** How far a request has got. */
  datatype Phase =
    | Deciding(id: string)                                   // to be asked about; nothing stored yet
    | Registered(id: string)                                 // stored; the timeout is not read yet
    | Waiting(id: string, deadline: nat)
    | TimedOut(id: string)                                   // gave up waiting; its entry is to be removed
    | Broken(id: string)                                     // its channel was closed; likewise
    | SawAll(id: string)                                     // told "All"; the configuration is to be read
    | Widening(id: string, read: AuthorizationConfig)                     // and written back as always-allow
    | Returned(id: string, verdict: Verdict, asked: bool)

  datatype Event =
    | Start(r: nat, id: string)
    | Register(r: nat)
    | BeginWait(r: nat)
    | Receive(r: nat)
    | TimeOut(r: nat)
    | CleanUp(r: nat)
    | ReadConfig(r: nat)
    | WriteConfig(r: nat)
    | Respond(id: string, response: UiResponse)
    | Cancel(id: string)
    | CleanUpExpired(timeout: nat)
    | ChangeConfig(config: AuthorizationConfig)
    | Tick(elapsed: nat)

  /** An event, and the configuration when it happened. */
  datatype Entry = Entry(event: Event, config: AuthorizationConfig)

  datatype State = State(shared: Shared, clock: nat, requests: map<nat, Phase>, log: seq<Entry>)

  function Init(config: AuthorizationConfig): State {
    State(Shared(config, map[], map[]), 0, map[], [])
  }

  function ChannelOf(s: Shared, r: nat): Channel {
    if r in s.channels then s.channels[r] else Empty
  }

  predicate Allows(config: AuthorizationConfig) {
    !config.enabled || config.mode == AlwaysAllow
  }

  /** The events of a request happen in its own order; everything else may happen at any time. */
  predicate Enabled(s: State, e: Event) {
    match e
    case Start(r, _) => r !in s.requests
    case Register(r) => r in s.requests && s.requests[r].Deciding?
    case BeginWait(r) => r in s.requests && s.requests[r].Registered?
    case Receive(r) => r in s.requests && s.requests[r].Waiting? && ChannelOf(s.shared, r) != Empty
    case TimeOut(r) =>
      r in s.requests && s.requests[r].Waiting? && ChannelOf(s.shared, r) == Empty && s.clock >= s.requests[r].deadline
    case CleanUp(r) => r in s.requests && (s.requests[r].TimedOut? || s.requests[r].Broken?)
    case ReadConfig(r) => r in s.requests && s.requests[r].SawAll?
    case WriteConfig(r) => r in s.requests && s.requests[r].Widening?
    case _ => true
  }

  function FirstPhase(config: AuthorizationConfig, id: string): Phase {
    if Allows(config) then Returned(id, Answered(Yes), false)
    else if config.mode == AlwaysDeny then Returned(id, Answered(No), false)
    else Deciding(id)
  }

  function AfterReceipt(id: string, channel: Channel): Phase {
    match channel
    case Sent(All) => SawAll(id)
    case Sent(answer) => Returned(id, Answered(answer), true)
    case _ => Broken(id)
  }

  function MovedTo(s: State, r: nat, phase: Phase): State {
    s.(requests := s.requests[r := phase])
  }

  /** The effect of an event, before it is logged. */
  function Effect(s: State, e: Event): State
    requires Enabled(s, e)
  {
    match e
    case Start(r, id) => MovedTo(s, r, FirstPhase(s.shared.config, id))
    case Register(r) =>
      MovedTo(s, r, Registered(s.requests[r].id)).(shared := Stored(s.shared, s.requests[r].id, r, s.clock))
    case BeginWait(r) =>
      var timeout := if s.shared.config.timeoutSeconds.Some? then s.shared.config.timeoutSeconds.value else 30;
      MovedTo(s, r, Waiting(s.requests[r].id, s.clock + timeout))
    case Receive(r) => MovedTo(s, r, AfterReceipt(s.requests[r].id, ChannelOf(s.shared, r)))
    case TimeOut(r) => MovedTo(s, r, TimedOut(s.requests[r].id))
    case CleanUp(r) =>
      var verdict := if s.requests[r].TimedOut? then Answered(No) else ChannelClosed;
      MovedTo(s, r, Returned(s.requests[r].id, verdict, true)).(shared := Dropped(s.shared, s.requests[r].id))
    case ReadConfig(r) => MovedTo(s, r, Widening(s.requests[r].id, s.shared.config))
    case WriteConfig(r) =>
      MovedTo(s, r, Returned(s.requests[r].id, Answered(All), true)).(
        shared := s.shared.(config := s.requests[r].read.(mode := AlwaysAllow)))
    case Respond(id, response) => s.(shared := Delivered(s.shared, id, AnswerOf(response)))
    case Cancel(id) => s.(shared := Delivered(s.shared, id, No))
    case CleanUpExpired(timeout) => s.(shared := AllDenied(s.shared, ExpiredIds(s.shared, s.clock, timeout)))
    case ChangeConfig(config) => s.(shared := s.shared.(config := config))
    case Tick(elapsed) => s.(clock := s.clock + elapsed)
  }

  function Next(s: State, e: Event): State
    requires Enabled(s, e)
  {
    Effect(s, e).(log := s.log + [Entry(e, s.shared.config)])
  }

  /** The client is to be asked: neither is everything let through nor everything denied. */
  predicate Asks(config: AuthorizationConfig) {
    config.enabled && config.mode == Ask
  }

  /** The request still depends on what the map holds under its id: it is about to store its entry, or
      nothing was sent to it yet, or it is about to remove its entry. */
  predicate Exposed(s: State, r: nat)
    requires r in s.requests
  {
    match s.requests[r]
    case Deciding(_) => true
    case Registered(_) => ChannelOf(s.shared, r) == Empty
    case Waiting(_, _) => ChannelOf(s.shared, r) == Empty
    case TimedOut(_) => true
    case _ => false
  }

  /** A request can start under this id: it will not be asked about, or no exposed request has the id. */
  predicate IsFree(s: State, id: string) {
    Asks(s.shared.config) ==> forall r :: r in s.requests && s.requests[r].id == id ==> !Exposed(s, r)
  }

  predicate Proper(s: State, e: Event) {
    Enabled(s, e) && (e.Start? ==> IsFree(s, e.id))
  }

  /** Where a run leads in which requests start only under free ids, if it is one. */
  function Run(s: State, events: seq<Event>): Option<State> {
    if events == [] then Some(s)
    else
      match Run(s, events[..|events| - 1])
      case None => None
      case Some(t) => if Proper(t, events[|events| - 1]) then Some(Next(t, events[|events| - 1])) else None
  }

  // ---- The invariant ----

  predicate MayOwn(p: Phase) {
    p.Registered? || p.Waiting? || p.TimedOut?
  }

  predicate Owns(s: Shared, id: string, r: nat) {
    id in s.pending && s.pending[id].owner == r
  }

  /** Each request that waits has its unused sender in the map, or exactly one answer in its channel;
      no channel is ever closed on a request. */
  predicate RequestOk(s: State, r: nat)
    requires r in s.requests
  {
    match s.requests[r]
    case Registered(id) =>
      (ChannelOf(s.shared, r) == Empty && Owns(s.shared, id, r)) || ChannelOf(s.shared, r).Sent?
    case Waiting(id, _) =>
      (ChannelOf(s.shared, r) == Empty && Owns(s.shared, id, r)) || ChannelOf(s.shared, r).Sent?
    case TimedOut(id) => Owns(s.shared, id, r) || id !in s.shared.pending
    case Deciding(id) => id !in s.shared.pending
    case Broken(_) => false
    case Returned(_, verdict, _) => verdict.Answered?
    case _ => true
  }

  /** Each entry belongs to a request with its id that was sent nothing yet: none outlives its request. */
  predicate EntryOk(s: State, id: string)
    requires id in s.shared.pending
  {
    var r := s.shared.pending[id].owner;
    r in s.requests && MayOwn(s.requests[r]) && s.requests[r].id == id && ChannelOf(s.shared, r) == Empty
  }

  /** No two exposed requests share an id. */
  predicate IdsDistinct(s: State) {
    forall r, q :: r in s.requests && q in s.requests && r != q && Exposed(s, r) && Exposed(s, q) ==>
      s.requests[r].id != s.requests[q].id
  }

  predicate Inv(s: State) {
    && (forall r :: r in s.requests ==> RequestOk(s, r))
    && (forall id :: id in s.shared.pending ==> EntryOk(s, id))
    && IdsDistinct(s)
  }

  lemma DeliveryKeepsInv(s: State, s': State, id: string, answer: Answer)
    requires Inv(s) && s'.requests == s.requests && s'.shared == Delivered(s.shared, id, answer)
    ensures Inv(s')
  {
    forall r | r in s'.requests
      ensures RequestOk(s', r)
    {
      assert RequestOk(s, r);
      if id in s.shared.pending && s.shared.pending[id].owner != r {
        assert EntryOk(s, id);
      }
    }
    forall k | k in s'.shared.pending
      ensures EntryOk(s', k)
    {
      assert EntryOk(s, k);
    }
  }

  /** If no other request is exposed than before, ids stay distinct. */
  lemma FewerExposed(s: State, s': State)
    requires IdsDistinct(s)
    requires forall r :: r in s'.requests && Exposed(s', r) ==>
              r in s.requests && Exposed(s, r) && s'.requests[r].id == s.requests[r].id
    ensures IdsDistinct(s')
  {
    hide Exposed;
  }

  lemma DenialsKeepInv(s: State, s': State, ids: set<string>)
    requires Inv(s) && s'.requests == s.requests && s'.shared == AllDenied(s.shared, ids)
    ensures Inv(s')
  {
    hide IdsDistinct;
    assert forall r :: r in s'.requests && Exposed(s', r) ==> Exposed(s, r);
    FewerExposed(s, s');
    forall r | r in s'.requests
      ensures RequestOk(s', r)
    {
      assert RequestOk(s, r);
      if r in Owners(s.shared, ids) {
        var id :| id in ids && id in s.shared.pending && s.shared.pending[id].owner == r;
        assert EntryOk(s, id);
      } else {
        assert forall id :: id in ids && id in s.shared.pending ==> s.shared.pending[id].owner != r;
      }
    }
    forall k | k in s'.shared.pending
      ensures EntryOk(s', k)
    {
      assert EntryOk(s, k);
    }
  }

  lemma RegisterKeepsInv(s: State, r: nat)
    requires Inv(s) && Enabled(s, Register(r))
    ensures Inv(Next(s, Register(r)))
  {
    var s' := Next(s, Register(r));
    assert RequestOk(s, r);
    forall q | q in s'.requests
      ensures RequestOk(s', q)
    {
      assert RequestOk(s, q);
    }
    forall k | k in s'.shared.pending
      ensures EntryOk(s', k)
    {
      if k != s.requests[r].id {
        assert EntryOk(s, k);
      }
    }
  }

  lemma CleanUpKeepsInv(s: State, r: nat)
    requires Inv(s) && Enabled(s, CleanUp(r))
    ensures Inv(Next(s, CleanUp(r)))
  {
    var s' := Next(s, CleanUp(r));
    assert RequestOk(s, r);
    forall q | q in s'.requests
      ensures RequestOk(s', q)
    {
      assert RequestOk(s, q);
    }
    forall k | k in s'.shared.pending
      ensures EntryOk(s', k)
    {
      assert EntryOk(s, k);
    }
  }

  /** One request moves on, and the map and the channels stay as they are. */
  lemma OneMoves(s: State, s': State, r: nat)
    requires Inv(s) && r in s.requests && r in s'.requests && s'.requests == s.requests[r := s'.requests[r]]
    requires s'.requests[r].id == s.requests[r].id
    requires s'.shared.pending == s.shared.pending && s'.shared.channels == s.shared.channels
    requires RequestOk(s', r) && (Exposed(s', r) ==> Exposed(s, r))
    requires Owns(s.shared, s.requests[r].id, r) ==> MayOwn(s'.requests[r])
    ensures Inv(s')
  {
    hide IdsDistinct;
    FewerExposed(s, s');
    forall q | q in s'.requests
      ensures RequestOk(s', q)
    {
      assert RequestOk(s, q);
    }
    forall k | k in s'.shared.pending
      ensures EntryOk(s', k)
    {
      assert EntryOk(s, k);
    }
  }

  lemma MoveKeepsInv(s: State, e: Event)
    requires Inv(s) && Proper(s, e)
    requires e.BeginWait? || e.Receive? || e.TimeOut? || e.ReadConfig? || e.WriteConfig?
    ensures Inv(Next(s, e))
  {
    var r := e.r;
    assert RequestOk(s, r) && (Owns(s.shared, s.requests[r].id, r) ==> EntryOk(s, s.requests[r].id));
    hide Inv;
    OneMoves(s, Next(s, e), r);
  }

  lemma StartKeepsInv(s: State, r: nat, id: string)
    requires Inv(s) && Proper(s, Start(r, id))
    ensures Inv(Next(s, Start(r, id)))
  {
    var s' := Next(s, Start(r, id));
    forall q | q in s'.requests
      ensures RequestOk(s', q)
    {
      if q in s.requests {
        assert RequestOk(s, q);
      } else if id in s.shared.pending {
        assert EntryOk(s, id);
      }
    }
    forall k | k in s'.shared.pending
      ensures EntryOk(s', k)
    {
      assert EntryOk(s, k);
    }
  }

  lemma NextKeepsInv(s: State, e: Event)
    requires Inv(s) && Proper(s, e)
    ensures Inv(Next(s, e))
  {
    match e
    case Start(r, id) => StartKeepsInv(s, r, id);
    case Register(r) => RegisterKeepsInv(s, r);
    case CleanUp(r) => CleanUpKeepsInv(s, r);
    case Respond(id, response) => DeliveryKeepsInv(s, Next(s, e), id, AnswerOf(response));
    case Cancel(id) => DeliveryKeepsInv(s, Next(s, e), id, No);
    case CleanUpExpired(timeout) => DenialsKeepInv(s, Next(s, e), ExpiredIds(s.shared, s.clock, timeout));
    case ChangeConfig(_) => UnmovedKeepsInv(s, Next(s, e));
    case Tick(_) => UnmovedKeepsInv(s, Next(s, e));
    case _ => MoveKeepsInv(s, e);
  }

  lemma UnmovedKeepsInv(s: State, s': State)
    requires Inv(s) && s'.requests == s.requests
    requires s'.shared.pending == s.shared.pending && s'.shared.channels == s.shared.channels
    ensures Inv(s')
  {
    forall q | q in s'.requests
      ensures RequestOk(s', q)
    {
      assert RequestOk(s, q);
    }
    forall k | k in s'.shared.pending
      ensures EntryOk(s', k)
    {
      assert EntryOk(s, k);
    }
  }

  /** The invariant holds after every run in which requests start under free ids. */
  lemma {:induction false} RunsKeepInv(s: State, events: seq<Event>)
    requires Inv(s) && Run(s, events).Some?
    ensures Inv(Run(s, events).value)
  {
    hide Inv, Proper, Next;
    if events != [] {
      RunsKeepInv(s, events[..|events| - 1]);
      NextKeepsInv(Run(s, events[..|events| - 1]).value, events[|events| - 1]);
    }
  }

  lemma InitInv(config: AuthorizationConfig)
    ensures Inv(Init(config))
  {
  }

  // ---- Where a permission comes from ----

  /** After `r` was registered, the client gave this answer for its id. */
  ghost predicate Approved(log: seq<Entry>, r: nat, id: string, answer: Answer) {
    exists i, j :: 0 <= i < j < |log| && log[i].event == Register(r)
      && log[j].event.Respond? && log[j].event.id == id && AnswerOf(log[j].event.response) == answer
  }

  /** When `r` started, the configuration let every tool through. */
  ghost predicate AllowedAtStart(log: seq<Entry>, r: nat, id: string) {
    exists i :: 0 <= i < |log| && log[i].event == Start(r, id) && Allows(log[i].config)
  }

  ghost predicate WasRegistered(log: seq<Entry>, r: nat) {
    exists i :: 0 <= i < |log| && log[i].event == Register(r)
  }

  /** Any permission on its way to `r`, or given to it, is backed by the log. */
  ghost predicate Backed(s: State, r: nat)
    requires r in s.requests
  {
    match s.requests[r]
    case Registered(id) => WasRegistered(s.log, r) && AnswerBacked(s, r, id)
    case Waiting(id, _) => WasRegistered(s.log, r) && AnswerBacked(s, r, id)
    case SawAll(id) => Approved(s.log, r, id, All)
    case Widening(id, _) => Approved(s.log, r, id, All)
    case Returned(id, Answered(answer), asked) =>
      answer != No ==> if asked then Approved(s.log, r, id, answer) else answer == Yes && AllowedAtStart(s.log, r, id)
    case _ => true
  }

  ghost predicate AnswerBacked(s: State, r: nat, id: string) {
    ChannelOf(s.shared, r).Sent? && ChannelOf(s.shared, r).answer != No ==>
      Approved(s.log, r, id, ChannelOf(s.shared, r).answer)
  }

  /** What the log once backed, it backs for good. */
  lemma LogGrows(log: seq<Entry>, entry: Entry, r: nat, id: string)
    ensures forall answer :: Approved(log, r, id, answer) ==> Approved(log + [entry], r, id, answer)
    ensures AllowedAtStart(log, r, id) ==> AllowedAtStart(log + [entry], r, id)
    ensures WasRegistered(log, r) ==> WasRegistered(log + [entry], r)
  {
    var log' := log + [entry];
    forall answer | Approved(log, r, id, answer)
      ensures Approved(log', r, id, answer)
    {
      var i, j :| 0 <= i < j < |log| && log[i].event == Register(r)
        && log[j].event.Respond? && log[j].event.id == id && AnswerOf(log[j].event.response) == answer;
      assert log'[i] == log[i] && log'[j] == log[j];
    }
    if AllowedAtStart(log, r, id) {
      var i :| 0 <= i < |log| && log[i].event == Start(r, id) && Allows(log[i].config);
      assert log'[i] == log[i];
    }
    if WasRegistered(log, r) {
      var i :| 0 <= i < |log| && log[i].event == Register(r);
      assert log'[i] == log[i];
    }
  }

  /** A response to `id` backs the answer for whoever was registered under it. */
  lemma ResponseBacks(log: seq<Entry>, r: nat, id: string, response: UiResponse, config: AuthorizationConfig)
    requires WasRegistered(log, r)
    ensures Approved(log + [Entry(Respond(id, response), config)], r, id, AnswerOf(response))
  {
    var i :| 0 <= i < |log| && log[i].event == Register(r);
    var log' := log + [Entry(Respond(id, response), config)];
    assert log'[i] == log[i] && log'[|log|].event == Respond(id, response);
  }

  /** How an event changes one request's channel: only a response or a denial for its own id puts an
      answer there. */
  lemma ChannelStep(s: State, e: Event, r: nat)
    requires Inv(s) && Proper(s, e) && r in s.requests && (s.requests[r].Registered? || s.requests[r].Waiting?)
    ensures var before, after := ChannelOf(s.shared, r), ChannelOf(Next(s, e).shared, r);
            after == before || after == Sent(No)
            || (e.Respond? && e.id == s.requests[r].id && after == Sent(AnswerOf(e.response)))
  {
    assert RequestOk(s, r);
    if e.Respond? && e.id in s.shared.pending {
      assert EntryOk(s, e.id);
    } else if e.CleanUp? {
      assert RequestOk(s, e.r);
    } else if e.Register? {
      assert RequestOk(s, e.r);
    }
  }

  lemma NextKeepsBacked(s: State, e: Event, r: nat)
    requires Inv(s) && Proper(s, e) && (r in s.requests ==> Backed(s, r)) && r in Next(s, e).requests
    ensures Backed(Next(s, e), r)
  {
    hide Inv, Approved, AllowedAtStart, WasRegistered, Effect;
    var s' := Next(s, e);
    LogGrows(s.log, Entry(e, s.shared.config), r, s'.requests[r].id);
    PhaseStep(s, e, r);
    if r in s.requests {
      if s.requests[r].Registered? || s.requests[r].Waiting? {
        ChannelStep(s, e, r);
        if e.Respond? && e.id == s.requests[r].id {
          ResponseBacks(s.log, r, e.id, e.response, s.shared.config);
        }
      } else if e == Register(r) {
        RegisteredNow(s, r);
      }
    } else {
      StartedNow(s, e, r);
    }
  }

  /** How an event moves one request: not at all, or by one step of its own. */
  lemma PhaseStep(s: State, e: Event, r: nat)
    requires Inv(s) && Proper(s, e) && r in Next(s, e).requests
    ensures var s' := Next(s, e);
            if r !in s.requests then exists id :: e == Start(r, id) && s'.requests[r] == FirstPhase(s.shared.config, id)
            else
              || s'.requests[r] == s.requests[r]
              || (e == Register(r) && s.requests[r].Deciding? && s'.requests[r] == Registered(s.requests[r].id))
              || (e == BeginWait(r) && s.requests[r].Registered? && s'.requests[r].Waiting?
                  && s'.requests[r].id == s.requests[r].id
                  && s'.shared == s.shared)
              || (e == Receive(r) && s.requests[r].Waiting? && ChannelOf(s.shared, r).Sent?
                  && s'.requests[r] == AfterReceipt(s.requests[r].id, ChannelOf(s.shared, r)))
              || (e == ReadConfig(r) && s.requests[r].SawAll? && s'.requests[r].Widening?
                  && s'.requests[r].id == s.requests[r].id)
              || (e == WriteConfig(r) && s.requests[r].Widening?
                  && s'.requests[r] == Returned(s.requests[r].id, Answered(All), true))
              || (s'.requests[r].TimedOut? && s'.requests[r].id == s.requests[r].id)
              || (s'.requests[r] == Returned(s.requests[r].id, Answered(No), true))
  {
    if r in s.requests {
      assert RequestOk(s, r);
    }
  }

  lemma RegisteredNow(s: State, r: nat)
    requires Enabled(s, Register(r))
    ensures WasRegistered(Next(s, Register(r)).log, r) && ChannelOf(Next(s, Register(r)).shared, r) == Empty
  {
    assert Next(s, Register(r)).log[|s.log|].event == Register(r);
  }

  lemma StartedNow(s: State, e: Event, r: nat)
    requires Enabled(s, e) && r !in s.requests && r in Next(s, e).requests
    ensures e.Start? && e.r == r
    ensures Allows(s.shared.config) ==> AllowedAtStart(Next(s, e).log, r, e.id)
  {
    assert Next(s, e).log[|s.log|] == Entry(e, s.shared.config);
  }

  lemma {:induction false} RunsKeepBacked(config: AuthorizationConfig, events: seq<Event>, r: nat)
    requires Run(Init(config), events).Some? && r in Run(Init(config), events).value.requests
    ensures Backed(Run(Init(config), events).value, r)
  {
    hide Inv, Backed, Proper, Next;
    if events != [] {
      var s := Run(Init(config), events[..|events| - 1]).value;
      InitInv(config);
      RunsKeepInv(Init(config), events[..|events| - 1]);
      if r in s.requests {
        RunsKeepBacked(config, events[..|events| - 1], r);
      }
      NextKeepsBacked(s, events[|events| - 1], r);
    }
  }

  // ---- The main results ----

  /** In every interleaving in which requests start under free ids: a request that waits has its
      unused sender in the map or exactly one answer in its channel; no channel is ever closed on a
      request, so none fails; a request that returned has left no entry behind; and a request is let
      through only if the configuration allowed everything when it started, or the client, after it
      was registered, gave just that answer for just that id. */
  lemma ProtocolIsSafe(config: AuthorizationConfig, events: seq<Event>, r: nat)
    requires Run(Init(config), events).Some? && r in Run(Init(config), events).value.requests
    ensures var s := Run(Init(config), events).value;
            && !s.requests[r].Broken?
            && (s.requests[r].Waiting? ==>
                  || (ChannelOf(s.shared, r) == Empty && Owns(s.shared, s.requests[r].id, r))
                  || (ChannelOf(s.shared, r).Sent? && forall id :: !Owns(s.shared, id, r)))
            && (s.requests[r].Returned? ==>
                  && s.requests[r].verdict.Answered?
                  && (forall id :: !Owns(s.shared, id, r))
                  && (s.requests[r].verdict.answer != No ==>
                        if s.requests[r].asked then Approved(s.log, r, s.requests[r].id, s.requests[r].verdict.answer)
                        else AllowedAtStart(s.log, r, s.requests[r].id)))
  {
    hide Approved, AllowedAtStart, WasRegistered;
    var s := Run(Init(config), events).value;
    InitInv(config);
    RunsKeepInv(Init(config), events);
    RunsKeepBacked(config, events, r);
    assert RequestOk(s, r);
    forall id
      ensures s.requests[r].Returned? || ChannelOf(s.shared, r).Sent? ==> !Owns(s.shared, id, r)
    {
      assert id in s.shared.pending ==> EntryOk(s, id);
    }
  }

  /** A waiting request never waits for ever: either its answer can be received, or it gives up once
      enough time has passed. */
  lemma WaitingCanEnd(s: State, r: nat)
    requires Inv(s) && r in s.requests && s.requests[r].Waiting?
    ensures Enabled(s, Receive(r)) || Enabled(Next(s, Tick(s.requests[r].deadline)), TimeOut(r))
  {
    assert RequestOk(s, r);
  }

  // ---- What a request returns, and when ----

  /** What the configuration decides at once: with authorization disabled or in always-allow mode it is
      "Yes", in always-deny mode "No"; only otherwise is the client asked. */
  lemma StartDecides(s: State, r: nat, id: string)
    requires r !in s.requests
    ensures var started, config := Next(s, Start(r, id)).requests[r], s.shared.config;
            && (!config.enabled || config.mode == AlwaysAllow ==> started == Returned(id, Answered(Yes), false))
            && (config.enabled && config.mode == AlwaysDeny ==> started == Returned(id, Answered(No), false))
            && (config.enabled && config.mode == Ask ==> started == Deciding(id))
  {
  }

  /** The request is on its way to return this answer. */
  predicate IsToReturn(s: State, r: nat, id: string, answer: Answer) {
    r in s.requests &&
    match s.requests[r]
    case Registered(i) => i == id && ChannelOf(s.shared, r) == Sent(answer)
    case Waiting(i, _) => i == id && ChannelOf(s.shared, r) == Sent(answer)
    case SawAll(i) => i == id && answer == All
    case Widening(i, _) => i == id && answer == All
    case Returned(i, verdict, _) => i == id && verdict == Answered(answer)
    case _ => false
  }

  /** An answer once sent is not replaced: nobody else holds the sender. */
  lemma SentStaysSent(s: State, e: Event, r: nat, id: string, answer: Answer)
    requires Inv(s) && Proper(s, e) && IsToReturn(s, r, id, answer)
    ensures IsToReturn(Next(s, e), r, id, answer)
  {
    hide IdsDistinct;
    assert RequestOk(s, r);
    match e
    case Respond(k, _) => assert k in s.shared.pending ==> EntryOk(s, k);
    case Cancel(k) => assert k in s.shared.pending ==> EntryOk(s, k);
    case CleanUpExpired(timeout) =>
      if ChannelOf(s.shared, r) != Empty {
        OthersAreDenied(s, ExpiredIds(s.shared, s.clock, timeout), r);
      }
    case Register(q) => assert RequestOk(s, q);
    case CleanUp(q) =>
      assert RequestOk(s, q)
        && (s.requests[q].id in s.shared.pending ==> EntryOk(s, s.requests[q].id));
    case _ =>
  }

  lemma OthersAreDenied(s: State, ids: set<string>, r: nat)
    requires Inv(s) && ChannelOf(s.shared, r) != Empty
    ensures ChannelOf(AllDenied(s.shared, ids), r) == ChannelOf(s.shared, r)
  {
    hide IdsDistinct;
    forall id | id in ids && id in s.shared.pending
      ensures s.shared.pending[id].owner != r
    {
      assert EntryOk(s, id);
    }
  }

  lemma {:induction false} SentIsReturned(s: State, events: seq<Event>, r: nat, id: string, answer: Answer)
    requires Inv(s) && IsToReturn(s, r, id, answer) && Run(s, events).Some?
    ensures IsToReturn(Run(s, events).value, r, id, answer)
  {
    hide Inv, Proper, Next, IsToReturn;
    if events != [] {
      var n := |events| - 1;
      SentIsReturned(s, events[..n], r, id, answer);
      RunsKeepInv(s, events[..n]);
      SentStaysSent(Run(s, events[..n]).value, events[n], r, id, answer);
    }
  }

  /** What the client means: approving is "Yes", denying and cancelling are "No", approving and allowing
      from now on is "All". */
  function AnswerTo(e: Event): Answer
    requires e.Respond? || e.Cancel?
  {
    if e.Cancel? then No
    else
      match e.response
      case Approve => Yes
      case Deny => No
      case ApproveAndAllow => All
  }

  /** The client is heard: when it responds to a request that was sent nothing yet, or cancels it, then in
      every run that follows the request returns that very answer, if it returns. */
  lemma ResponseIsReturned(s: State, r: nat, id: string, e: Event, events: seq<Event>)
    requires Inv(s) && r in s.requests && (s.requests[r].Registered? || s.requests[r].Waiting?)
            && s.requests[r].id == id
    requires ChannelOf(s.shared, r) == Empty && (e == Cancel(id) || (e.Respond? && e.id == id))
    requires Run(Next(s, e), events).Some?
    ensures var t := Run(Next(s, e), events).value;
            var answer := AnswerTo(e);
            r in t.requests && (t.requests[r].Returned? ==> t.requests[r].verdict == Answered(answer))
  {
    var answer := AnswerTo(e);
    assert RequestOk(s, r);
    assert IsToReturn(Next(s, e), r, id, answer);
    NextKeepsInv(s, e);
    SentIsReturned(Next(s, e), events, r, id, answer);
  }

  /** The request waits until this time, or is past waiting, or the time has come. */
  predicate IsPatient(t: State, r: nat, deadline: nat) {
    && r in t.requests && !t.requests[r].Deciding? && !t.requests[r].Registered?
    && (t.requests[r].Waiting? ==> t.requests[r].deadline == deadline)
    && (t.requests[r].TimedOut? ==> t.clock >= deadline)
  }

  lemma StaysPatient(t: State, e: Event, r: nat, deadline: nat)
    requires IsPatient(t, r, deadline) && Enabled(t, e)
    ensures IsPatient(Next(t, e), r, deadline)
  {
  }

  /** No request gives up early: once it waits, it times out only when the configured timeout has passed,
      or thirty seconds if none is configured. */
  lemma {:induction false} NoEarlyTimeout(s: State, r: nat, events: seq<Event>)
    requires Enabled(s, BeginWait(r)) && Steps(Next(s, BeginWait(r)), events).Some?
    ensures var t, c := Steps(Next(s, BeginWait(r)), events).value, s.shared.config;
            var timeout := if c.timeoutSeconds.Some? then c.timeoutSeconds.value else 30;
            IsPatient(t, r, s.clock + timeout)
  {
    hide Enabled, IsPatient;
    var timeout := if s.shared.config.timeoutSeconds.Some? then s.shared.config.timeoutSeconds.value else 30;
    if events == [] {
      BeginsPatient(s, r);
    } else {
      var n := |events| - 1;
      NoEarlyTimeout(s, r, events[..n]);
      StaysPatient(Steps(Next(s, BeginWait(r)), events[..n]).value, events[n], r, s.clock + timeout);
    }
  }

  lemma BeginsPatient(s: State, r: nat)
    requires Enabled(s, BeginWait(r))
    ensures var c := s.shared.config;
            IsPatient(Next(s, BeginWait(r)), r, s.clock + if c.timeoutSeconds.Some? then c.timeoutSeconds.value else 30)
  {
  }

  // ---- Which ids two requests may share ----

  /** `r` is in the phase `p`. */
  predicate At(s: State, r: nat, p: Phase) {
    r in s.requests && s.requests[r] == p
  }

  predicate NoneBroken(s: State) {
    forall r :: r in s.requests ==> !s.requests[r].Broken?
  }

  lemma RunMore(s: State, events: seq<Event>, e: Event)
    requires Run(s, events).Some? && Proper(Run(s, events).value, e)
    ensures Run(s, events + [e]) == Some(Next(Run(s, events).value, e))
  {
    assert (events + [e])[..|events|] == events;
  }

  /** A run after which a request of this id is broken. */
  predicate Breaks(s: State, events: seq<Event>, r: nat, id: string) {
    Run(s, events).Some? && At(Run(s, events).value, r, Broken(id))
  }

  /** A request whose channel is closed under it breaks as soon as it looks. */
  lemma ClosedBreaks(s: State, events: seq<Event>, r: nat, id: string) returns (longer: seq<Event>)
    requires Run(s, events).Some?
    requires var t := Run(s, events).value;
             && r in t.requests && (t.requests[r].Registered? || t.requests[r].Waiting?) && t.requests[r].id == id
             && ChannelOf(t.shared, r) == Closed
    ensures Breaks(s, longer, r, id)
  {
    hide Run;
    longer := events;
    if Run(s, longer).value.requests[r].Registered? {
      RunMore(s, longer, BeginWait(r));
      longer := longer + [BeginWait(r)];
    }
    RunMore(s, longer, Receive(r));
    longer := longer + [Receive(r)];
  }

  /** A request that registers under the id of one that was sent nothing closes its channel. */
  lemma RegisteringBreaks(s: State, events: seq<Event>, r: nat, q: nat, id: string) returns (longer: seq<Event>)
    requires Run(s, events).Some?
    requires var t := Run(s, events).value;
             && r in t.requests && (t.requests[r].Registered? || t.requests[r].Waiting?) && t.requests[r].id == id
             && Owns(t.shared, id, r) && At(t, q, Deciding(id)) && r != q
    ensures Breaks(s, longer, r, id)
  {
    hide Run;
    RunMore(s, events, Register(q));
    longer := ClosedBreaks(s, events + [Register(q)], r, id);
  }

  /** A request that cleans up after a timeout closes the channel of one that registered under its id. */
  lemma CleaningUpBreaks(s: State, r: nat, q: nat, id: string) returns (events: seq<Event>)
    requires At(s, r, TimedOut(id)) && At(s, q, Deciding(id)) && r != q
    ensures Breaks(s, events, q, id)
  {
    RunMore(s, [], Register(q));
    events := [] + [Register(q)];
    hide Run;
    RunMore(s, events, CleanUp(r));
    events := events + [CleanUp(r)];
    events := ClosedBreaks(s, events, q, id);
  }

  /** Starting under an id that is not free can break a request. */
  lemma UnfreeStartBreaks(s: State, r: nat, q: nat, id: string) returns (events: seq<Event>, victim: nat)
    requires Inv(s) && q !in s.requests && Asks(s.shared.config)
    requires r in s.requests && s.requests[r].id == id && Exposed(s, r)
    ensures Breaks(Next(s, Start(q, id)), events, victim, id)
  {
    hide Inv;
    var s' := Next(s, Start(q, id));
    assert RequestOk(s, r) by { RequestsAreOk(s, r); }
    assert At(s', q, Deciding(id)) && s'.requests[r] == s.requests[r] && s'.shared == s.shared;
    victim := r;
    match s.requests[r]
    case TimedOut(_) =>
      victim := q;
      events := CleaningUpBreaks(s', r, q, id);
    case Deciding(_) =>
      RunMore(s', [], Register(r));
      hide Run;
      events := RegisteringBreaks(s', [] + [Register(r)], r, q, id);
    case _ =>
      events := RegisteringBreaks(s', [], r, q, id);
  }

  lemma RequestsAreOk(s: State, r: nat)
    requires Inv(s) && r in s.requests
    ensures RequestOk(s, r)
  {
  }

  /** The rule on ids is exact. In any state that the rule leads to: a request can start under an id,
      and no request will ever break whatever follows by the rule, if and only if the id is free. */
  lemma FreeIdsAreExact(s: State, q: nat, id: string)
    requires Inv(s) && q !in s.requests
    ensures IsFree(s, id)
            <==> forall events :: Run(Next(s, Start(q, id)), events).Some? ==>
                   NoneBroken(Run(Next(s, Start(q, id)), events).value)
  {
    hide Inv, Run, Next;
    var s' := Next(s, Start(q, id));
    if IsFree(s, id) {
      NextKeepsInv(s, Start(q, id));
      forall events | Run(s', events).Some?
        ensures NoneBroken(Run(s', events).value)
      {
        RunsKeepInv(s', events);
        InvMeansNoneBroken(Run(s', events).value);
      }
    } else {
      var r :| r in s.requests && s.requests[r].id == id && Exposed(s, r);
      var events, victim := UnfreeStartBreaks(s, r, q, id);
      assert !NoneBroken(Run(s', events).value);
    }
  }

  lemma InvMeansNoneBroken(s: State)
    requires Inv(s)
    ensures NoneBroken(s)
  {
    forall r | r in s.requests
      ensures !s.requests[r].Broken?
    {
      assert RequestOk(s, r);
    }
  }

  // ---- What happens when a request takes the id of one that waits ----

  /** The state after `e`, if it can happen now; the state as it is if not. */
  function Then(s: State, e: Event): State {
    if Enabled(s, e) then Next(s, e) else s
  }

  /** The second of two requests that share an id takes over the entry, and closes the first one's
      channel. */
  lemma EntryIsTakenOver(s: State, r: nat, q: nat, id: string, deadline: nat)
    requires At(s, r, Waiting(id, deadline)) && Owns(s.shared, id, r) && ChannelOf(s.shared, r) == Empty
    requires q !in s.requests && s.shared.config.enabled && s.shared.config.mode == Ask
    ensures var s' := Then(Then(s, Start(q, id)), Register(q));
            && At(s', r, Waiting(id, deadline)) && At(s', q, Registered(id))
            && ChannelOf(s'.shared, r) == Closed && Owns(s'.shared, id, q)
  {
    var s1 := Then(s, Start(q, id));
    assert At(s1, q, Deciding(id)) && s1.shared == s.shared;
  }

  /** A request whose channel is closed fails, and its clean-up removes the entry that now belongs to
      the other. */
  lemma CleanUpClosesTheOther(s: State, r: nat, q: nat, id: string, deadline: nat)
    requires At(s, r, Waiting(id, deadline)) && At(s, q, Registered(id))
    requires ChannelOf(s.shared, r) == Closed && Owns(s.shared, id, q)
    ensures var s' := Then(Then(s, Receive(r)), CleanUp(r));
            && At(s', r, Returned(id, ChannelClosed, true)) && At(s', q, Registered(id))
            && ChannelOf(s'.shared, q) == Closed
  {
    var s1 := Then(s, Receive(r));
    assert At(s1, r, Broken(id)) && s1.shared == s.shared && At(s1, q, Registered(id));
  }

  lemma ClosedIsBroken(s: State, q: nat, id: string)
    requires At(s, q, Registered(id)) && ChannelOf(s.shared, q) == Closed
    ensures At(Then(Then(s, BeginWait(q)), Receive(q)), q, Broken(id))
  {
    var s1 := Then(s, BeginWait(q));
    assert s1.requests[q].Waiting? && s1.requests[q].id == id && s1.shared == s.shared;
  }

  /** Breaking the rule can break two requests: when a second one starts under the id of one that is
      still waiting, the first finds its channel closed and fails, and cleaning up after it closes the
      second one's channel as well. */
  lemma SharedIdBreaksBoth(s: State, r: nat, q: nat)
    requires Inv(s) && r in s.requests && s.requests[r].Waiting? && ChannelOf(s.shared, r) == Empty
    requires q !in s.requests && s.shared.config.enabled && s.shared.config.mode == Ask
    ensures var id := s.requests[r].id;
            var s2 := Then(Then(s, Start(q, id)), Register(q));
            var s4 := Then(Then(s2, Receive(r)), CleanUp(r));
            var s6 := Then(Then(s4, BeginWait(q)), Receive(q));
            && ChannelOf(s2.shared, r) == Closed
            && At(s4, r, Returned(id, ChannelClosed, true)) && ChannelOf(s4.shared, q) == Closed
            && At(s6, q, Broken(id))
  {
    hide Then;
    assert RequestOk(s, r);
    var id, deadline := s.requests[r].id, s.requests[r].deadline;
    EntryIsTakenOver(s, r, q, id, deadline);
    var s2 := Then(Then(s, Start(q, id)), Register(q));
    CleanUpClosesTheOther(s2, r, q, id, deadline);
    ClosedIsBroken(Then(Then(s2, Receive(r)), CleanUp(r)), q, id);
  }

  // ---- Which configuration changes are lost ----

  /** Where events lead if each can happen, under whatever ids requests start. */
  function Steps(s: State, events: seq<Event>): Option<State> {
    if events == [] then Some(s)
    else
      match Steps(s, events[..|events| - 1])
      case None => None
      case Some(t) => if Enabled(t, events[|events| - 1]) then Some(Next(t, events[|events| - 1])) else None
  }

  /** `a` is `c`, or `c` with the mode widened to always-allow. */
  predicate Agrees(a: AuthorizationConfig, c: AuthorizationConfig) {
    a == c || a == c.(mode := AlwaysAllow)
  }

  /** The requests about to write back a configuration that they have read already. */
  function Stale(s: State): set<nat> {
    set r | r in s.requests && s.requests[r].Widening?
  }

  predicate Unchanged(events: seq<Event>) {
    forall i :: 0 <= i < |events| ==> !events[i].ChangeConfig?
  }

  /** None of these requests writes back. */
  predicate NoneWrites(events: seq<Event>, requests: set<nat>) {
    forall r :: r in requests ==> WriteConfig(r) !in events
  }

  /** What holds after a change to `c` until one of the requests in `stale` writes back. */
  ghost predicate IsInForce(t: State, c: AuthorizationConfig, s: State) {
    && Agrees(t.shared.config, c)
    && (forall r :: r in Stale(t) && r !in Stale(s) ==> Agrees(t.requests[r].read, c))
    && (forall r :: r in Stale(s) ==> r in t.requests && t.requests[r] == s.requests[r])
  }

  lemma StaysInForce(t: State, c: AuthorizationConfig, s: State, e: Event)
    requires IsInForce(t, c, s) && Enabled(t, e) && !e.ChangeConfig?
    requires forall r :: r in Stale(s) ==> e != WriteConfig(r)
    ensures IsInForce(Next(t, e), c, s)
  {
  }

  /** A change stays in force, up to widening, until the next change or until a request writes back
      what it had read before the change. */
  lemma {:induction false} ChangeStaysInForce(s: State, c: AuthorizationConfig, events: seq<Event>)
    requires Steps(Next(s, ChangeConfig(c)), events).Some? && Unchanged(events) && NoneWrites(events, Stale(s))
    ensures IsInForce(Steps(Next(s, ChangeConfig(c)), events).value, c, s)
  {
    hide IsInForce, Stale;
    if events == [] {
      InForceAtOnce(s, c);
    } else {
      var before, e := events[..|events| - 1], events[|events| - 1];
      ChangeStaysInForce(s, c, before);
      assert e in events;
      StaysInForce(Steps(Next(s, ChangeConfig(c)), before).value, c, s, e);
    }
  }

  lemma InForceAtOnce(s: State, c: AuthorizationConfig)
    ensures IsInForce(Next(s, ChangeConfig(c)), c, s)
  {
  }

  /** The first such request to write back can do so at any time, and replaces the change by what it
      had read. */
  lemma StaleWriteReplaces(s: State, c: AuthorizationConfig, events: seq<Event>, r: nat)
    requires Steps(Next(s, ChangeConfig(c)), events).Some? && Unchanged(events) && NoneWrites(events, Stale(s))
            && r in Stale(s)
    ensures var after := Steps(Next(s, ChangeConfig(c)), events + [WriteConfig(r)]);
            after.Some? && after.value.shared.config == s.requests[r].read.(mode := AlwaysAllow)
  {
    hide Agrees;
    ChangeStaysInForce(s, c, events);
    assert (events + [WriteConfig(r)])[..|events|] == events;
  }

  /** The configuration agrees, and so does whatever may be written back. */
  ghost predicate CanOnlyAgree(t: State, c: AuthorizationConfig) {
    Agrees(t.shared.config, c) && forall r :: r in Stale(t) ==> Agrees(t.requests[r].read.(mode := AlwaysAllow), c)
  }

  lemma StillCanOnlyAgree(t: State, c: AuthorizationConfig, e: Event)
    requires CanOnlyAgree(t, c) && Enabled(t, e) && !e.ChangeConfig?
    ensures CanOnlyAgree(Next(t, e), c)
  {
  }

  lemma {:induction false} AlwaysAgrees(t: State, c: AuthorizationConfig, events: seq<Event>)
    requires CanOnlyAgree(t, c) && Steps(t, events).Some? && Unchanged(events)
    ensures CanOnlyAgree(Steps(t, events).value, c)
  {
    hide CanOnlyAgree, Enabled;
    if events != [] {
      AlwaysAgrees(t, c, events[..|events| - 1]);
      StillCanOnlyAgree(Steps(t, events[..|events| - 1]).value, c, events[|events| - 1]);
    }
  }

  /** Everything in a change to `c` but the mode survives in every run up to the next change, and the mode
      can only be widened, if and only if every request that was about to write back at the time had read
      a configuration that differs from `c` in the mode at most; so surely if there was none. */
  lemma ChangeSurvivesIff(s: State, c: AuthorizationConfig)
    ensures (forall events :: Unchanged(events) && Steps(Next(s, ChangeConfig(c)), events).Some? ==>
               Agrees(Steps(Next(s, ChangeConfig(c)), events).value.shared.config, c))
            <==> forall r :: r in Stale(s) ==> s.requests[r].read.(mode := c.mode) == c
  {
    hide Steps;
    var s' := Next(s, ChangeConfig(c));
    if forall r :: r in Stale(s) ==> s.requests[r].read.(mode := c.mode) == c {
      ReadsAgree(s, c);
      forall events | Unchanged(events) && Steps(s', events).Some?
        ensures Agrees(Steps(s', events).value.shared.config, c)
      {
        AlwaysAgrees(s', c, events);
      }
    } else {
      var r :| r in Stale(s) && s.requests[r].read.(mode := c.mode) != c;
      NoSteps(s');
      StaleWriteReplaces(s, c, [], r);
      assert [] + [WriteConfig(r)] == [WriteConfig(r)];
      assert Unchanged([WriteConfig(r)]);
    }
  }

  lemma NoSteps(s: State)
    ensures Steps(s, []) == Some(s)
  {
  }

  lemma ReadsAgree(s: State, c: AuthorizationConfig)
    requires forall r :: r in Stale(s) ==> s.requests[r].read.(mode := c.mode) == c
    ensures CanOnlyAgree(Next(s, ChangeConfig(c)), c)
  {
    var s' := Next(s, ChangeConfig(c));
    forall r | r in Stale(s')
      ensures Agrees(s'.requests[r].read.(mode := AlwaysAllow), c)
    {
      assert r in Stale(s);
    }
  }

  // ---- When the mode, and all of a change, is kept ----

  /** "All" was sent to the request, and has not widened the mode yet. */
  predicate ToldAll(s: State, r: nat)
    requires r in s.requests
  {
    match s.requests[r]
    case Registered(_) => ChannelOf(s.shared, r) == Sent(All)
    case Waiting(_, _) => ChannelOf(s.shared, r) == Sent(All)
    case SawAll(_) => true
    case Widening(_, _) => true
    case _ => false
  }

  predicate NoneToldAll(s: State) {
    forall r :: r in s.requests ==> !ToldAll(s, r)
  }

  /** Nobody changes the configuration, and the client answers nobody with "All". */
  predicate IsQuiet(e: Event) {
    !e.ChangeConfig? && !(e.Respond? && e.response == ApproveAndAllow)
  }

  predicate AllQuiet(events: seq<Event>) {
    forall i :: 0 <= i < |events| ==> IsQuiet(events[i])
  }

  lemma StepsMore(s: State, events: seq<Event>, e: Event)
    requires Steps(s, events).Some? && Enabled(Steps(s, events).value, e)
    ensures Steps(s, events + [e]) == Some(Next(Steps(s, events).value, e))
  {
    assert (events + [e])[..|events|] == events;
  }

  /** If nobody was told "All", a quiet event tells nobody, and leaves the configuration alone. */
  lemma QuietTellsNobody(s: State, e: Event)
    requires NoneToldAll(s) && Enabled(s, e) && IsQuiet(e)
    ensures NoneToldAll(Next(s, e)) && Next(s, e).shared.config == s.shared.config
  {
  }

  lemma {:induction false} QuietRunsTellNobody(s: State, events: seq<Event>)
    requires NoneToldAll(s) && Steps(s, events).Some? && AllQuiet(events)
    ensures NoneToldAll(Steps(s, events).value) && Steps(s, events).value.shared.config == s.shared.config
  {
    hide NoneToldAll, Enabled, Next, IsQuiet;
    if events != [] {
      var n := |events| - 1;
      QuietRunsTellNobody(s, events[..n]);
      QuietTellsNobody(Steps(s, events[..n]).value, events[n]);
    }
  }

  /** Always-allow is never narrowed but by a change. */
  lemma {:induction false} AllowStays(s: State, events: seq<Event>)
    requires s.shared.config.mode == AlwaysAllow && Steps(s, events).Some? && AllQuiet(events)
    ensures Steps(s, events).value.shared.config.mode == AlwaysAllow
  {
    hide Enabled;
    if events != [] {
      var n := |events| - 1;
      AllowStays(s, events[..n]);
      assert IsQuiet(events[n]);
    }
  }

  /** Where a quiet run leads, if it is one. */
  predicate Reaches(s: State, events: seq<Event>, t: State) {
    Steps(s, events) == Some(t) && AllQuiet(events)
  }

  lemma ReachesMore(s: State, events: seq<Event>, t: State, e: Event)
    requires Reaches(s, events, t) && Enabled(t, e) && IsQuiet(e)
    ensures Reaches(s, events + [e], Next(t, e))
  {
    hide Steps, Enabled;
    StepsMore(s, events, e);
  }

  /** A request that was told "All" can widen the mode with nobody else doing anything. */
  lemma ToldAllCanWiden(s: State, r: nat) returns (events: seq<Event>, t: State)
    requires r in s.requests && ToldAll(s, r)
    ensures Reaches(s, events, t) && t.shared.config.mode == AlwaysAllow
  {
    events, t := [], s;
    hide Reaches;
    assert Reaches(s, events, t) by { NoEvents(s); }
    if t.requests[r].Registered? {
      ReachesMore(s, events, t, BeginWait(r));
      events, t := events + [BeginWait(r)], Next(t, BeginWait(r));
    }
    if t.requests[r].Waiting? {
      ReachesMore(s, events, t, Receive(r));
      events, t := events + [Receive(r)], Next(t, Receive(r));
    }
    if t.requests[r].SawAll? {
      ReachesMore(s, events, t, ReadConfig(r));
      events, t := events + [ReadConfig(r)], Next(t, ReadConfig(r));
    }
    ReachesMore(s, events, t, WriteConfig(r));
    events, t := events + [WriteConfig(r)], Next(t, WriteConfig(r));
  }

  lemma NoEvents(s: State)
    ensures Reaches(s, [], s)
  {
  }

  lemma ChangeTellsNobody(s: State, c: AuthorizationConfig)
    ensures var s' := Next(s, ChangeConfig(c));
            && s'.requests == s.requests && s'.shared.config == c
            && (NoneToldAll(s') <==> NoneToldAll(s)) && Stale(s') == Stale(s)
  {
    var s' := Next(s, ChangeConfig(c));
    assert forall r :: r in s.requests ==> (ToldAll(s', r) <==> ToldAll(s, r));
  }

  /** The mode set by a change is kept in every quiet run, if and only if it is always-allow or no
      request was told "All" before; so a change to always-deny or ask needs more than that no request is
      about to write back. */
  lemma ModeIsKeptIff(s: State, c: AuthorizationConfig)
    ensures (forall events, t :: Reaches(Next(s, ChangeConfig(c)), events, t) ==> t.shared.config.mode == c.mode)
            <==> c.mode == AlwaysAllow || NoneToldAll(s)
  {
    hide Steps, Next, AllQuiet, ToldAll;
    var s' := Next(s, ChangeConfig(c));
    ChangeTellsNobody(s, c);
    if c.mode == AlwaysAllow || NoneToldAll(s) {
      forall events, t | Reaches(s', events, t)
        ensures t.shared.config.mode == c.mode
      {
        if c.mode == AlwaysAllow {
          AllowStays(s', events);
        } else {
          QuietRunsTellNobody(s', events);
        }
      }
    } else {
      var r :| r in s'.requests && ToldAll(s', r);
      var events, t := ToldAllCanWiden(s', r);
    }
  }

  /** All of a change is kept in every quiet run, if and only if no request was told "All" before, or it
      sets always-allow and whatever may be written back is, so widened, the same. */
  lemma ChangeIsKeptIff(s: State, c: AuthorizationConfig)
    ensures (forall events, t :: Reaches(Next(s, ChangeConfig(c)), events, t) ==> t.shared.config == c)
            <==> || NoneToldAll(s)
                 || (c.mode == AlwaysAllow && forall r :: r in Stale(s) ==> s.requests[r].read.(mode := c.mode) == c)
  {
    hide Steps, Next, ToldAll, NoneToldAll, Reaches;
    var s' := Next(s, ChangeConfig(c));
    ChangeTellsNobody(s, c);
    ModeIsKeptIff(s, c);
    if NoneToldAll(s) {
      forall events, t | Reaches(s', events, t)
        ensures t.shared.config == c
      {
        ReachedBySteps(s', events, t);
        QuietRunsTellNobody(s', events);
      }
    } else if c.mode == AlwaysAllow && forall r :: r in Stale(s) ==> s.requests[r].read.(mode := c.mode) == c {
      ReadsAgree(s, c);
      forall events, t | Reaches(s', events, t)
        ensures t.shared.config == c
      {
        ReachedBySteps(s', events, t);
        AlwaysAgrees(s', c, events);
      }
    } else if c.mode == AlwaysAllow {
      var r :| r in Stale(s) && s.requests[r].read.(mode := c.mode) != c;
      StaleWriteIsQuiet(s, c, r);
    }
  }

  lemma ReachedBySteps(s: State, events: seq<Event>, t: State)
    requires Reaches(s, events, t)
    ensures Steps(s, events) == Some(t) && AllQuiet(events) && Unchanged(events)
  {
    hide Steps;
  }

  lemma StaleWriteIsQuiet(s: State, c: AuthorizationConfig, r: nat)
    requires r in Stale(s)
    ensures exists events, t :: Reaches(Next(s, ChangeConfig(c)), events, t)
              && t.shared.config == s.requests[r].read.(mode := AlwaysAllow)
  {
    hide Reaches;
    var s' := Next(s, ChangeConfig(c));
    NoEvents(s');
    ReachesMore(s', [], s', WriteConfig(r));
    var events, t := [] + [WriteConfig(r)], Next(s', WriteConfig(r));
    assert Reaches(s', events, t);
  }

  /** A change that denies everything, made when a request has been told "All" but none is about to write
      back, can still end as always-allow. */
  lemma DenyIsLost(config: AuthorizationConfig, id: string)
    returns (before: seq<Event>, s: State, events: seq<Event>, t: State)
    requires Asks(config)
    ensures Run(Init(config), before) == Some(s) && Stale(s) == {}
    ensures Reaches(Next(s, ChangeConfig(config.(mode := AlwaysDeny))), events, t)
            && t.shared.config.mode == AlwaysAllow
  {
    var start := Init(config);
    before, s := [], start;
    RunMore(start, before, Start(0, id));
    before, s := before + [Start(0, id)], Next(s, Start(0, id));
    RunMore(start, before, Register(0));
    before, s := before + [Register(0)], Next(s, Register(0));
    RunMore(start, before, Respond(id, ApproveAndAllow));
    before, s := before + [Respond(id, ApproveAndAllow)], Next(s, Respond(id, ApproveAndAllow));
    var deny := config.(mode := AlwaysDeny);
    assert s.requests == map[0 := Registered(id)] && ToldAll(s, 0);
    events, t := ToldAllCanWiden(Next(s, ChangeConfig(deny)), 0);
  }
}
