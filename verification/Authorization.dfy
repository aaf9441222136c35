/** The polling authorization handler: a map of pending requests shared between the agent, which waits
    for answers on one-shot channels, and a client that approves, denies, cancels and cleans up. */
module Authorization {
  import opened Messages

  datatype Mode = AlwaysAllow | AlwaysDeny | Ask

  datatype AuthorizationConfig = AuthorizationConfig(
    mode: Mode, enabled: bool, promptMessage: Option<string>, timeoutSeconds: Option<nat>)

  datatype Answer = Yes | No | All

  datatype UiResponse = Approve | Deny | ApproveAndAllow

  /** A one-shot channel: nothing sent yet, one answer sent, or the sender dropped without sending. */
  datatype Channel = Empty | Sent(answer: Answer) | Closed

  /** A pending request: who holds the receiving end of its channel, and since when it waits. */
  datatype Pending = Pending(owner: nat, createdAt: nat)

  datatype Shared = Shared(config: AuthorizationConfig, pending: map<string, Pending>, channels: map<nat, Channel>)

  function AnswerOf(response: UiResponse): Answer {
    match response
    case Approve => Yes
    case Deny => No
    case ApproveAndAllow => All
  }

  // ---- What each locked section does to the shared state ----

  /** The sender of `id`'s channel is taken out of the map and used. */
  function Delivered(s: Shared, id: string, answer: Answer): Shared {
    if id in s.pending then
      s.(pending := s.pending - {id}, channels := s.channels[s.pending[id].owner := Sent(answer)])
    else s
  }

  /** The sender of `id`'s channel, if there is one, is dropped unused. */
  function Dropped(s: Shared, id: string): Shared {
    if id in s.pending then
      s.(pending := s.pending - {id}, channels := s.channels[s.pending[id].owner := Closed])
    else s
  }

  /** A new channel is opened and its sender put into the map; a sender that was there is dropped. */
  function Stored(s: Shared, id: string, owner: nat, now: nat): Shared {
    var s' := Dropped(s, id);
    s'.(pending := s'.pending[id := Pending(owner, now)], channels := s'.channels[owner := Empty])
  }

  predicate IsExpired(p: Pending, now: nat, timeout: nat) {
    now - p.createdAt > timeout
  }

  function ExpiredIds(s: Shared, now: nat, timeout: nat): set<string> {
    set id | id in s.pending && IsExpired(s.pending[id], now, timeout)
  }

  /** The owners of some pending requests. */
  function Owners(s: Shared, ids: set<string>): set<nat> {
    set id | id in ids && id in s.pending :: s.pending[id].owner
  }

  /** All of `ids` are answered "No" and removed. */
  function AllDenied(s: Shared, ids: set<string>): Shared {
    s.(pending := s.pending - ids,
       channels := s.channels + (map owner | owner in Owners(s, ids) :: Sent(No)))
  }

  /** What a clean-up does: it removes exactly the entries older than the timeout, and answers "No" to
      their owners and to nobody else. */
  lemma ExpiredAreDenied(s: Shared, now: nat, timeout: nat)
    ensures var s' := AllDenied(s, ExpiredIds(s, now, timeout));
            && s'.config == s.config
            && (forall id :: id in s'.pending <==> id in s.pending && now <= s.pending[id].createdAt + timeout)
            && (forall id :: id in s'.pending ==> s'.pending[id] == s.pending[id])
            && (forall id :: id in s.pending && now > s.pending[id].createdAt + timeout ==>
                  s.pending[id].owner in s'.channels && s'.channels[s.pending[id].owner] == Sent(No))
            && (forall r :: r in s'.channels && !(r in s.channels && s'.channels[r] == s.channels[r]) ==>
                  exists id :: id in s.pending && s.pending[id].owner == r && now > s.pending[id].createdAt + timeout)
  {
    var ids := ExpiredIds(s, now, timeout);
    forall id | id in s.pending && now > s.pending[id].createdAt + timeout
      ensures s.pending[id].owner in Owners(s, ids)
    {
      assert id in ids;
    }
  }

  lemma DenyOneMore(s: Shared, ids: set<string>, id: string)
    requires id in s.pending && id !in ids
    ensures Delivered(AllDenied(s, ids), id, No) == AllDenied(s, ids + {id})
  {
    assert Owners(s, ids + {id}) == Owners(s, ids) + {s.pending[id].owner};
    assert s.pending - ids - {id} == s.pending - (ids + {id});
  }

  lemma DenyNone(s: Shared)
    ensures AllDenied(s, {}) == s
  {
    assert s.pending - {} == s.pending;
    assert Owners(s, {}) == {};
  }

  class PollingAuthorizationHandler {
    var config: AuthorizationConfig
    var pending: map<string, Pending>
    var channels: map<nat, Channel>

    constructor ()
      ensures Current() == Shared(AuthorizationConfig(Ask, true, None, Some(30)), map[], map[])
    {
      config := AuthorizationConfig(Ask, true, None, Some(30));
      pending := map[];
      channels := map[];
    }

    ghost function Current(): Shared
      reads this
    {
      Shared(config, pending, channels)
    }

    method GetTimeoutDuration() returns (timeout: Option<nat>)
      ensures timeout == config.timeoutSeconds
    {
      timeout := config.timeoutSeconds;
    }

    method SetConfig(newConfig: AuthorizationConfig)
      modifies this
      ensures Current() == old(Current()).(config := newConfig)
    {
      config := newConfig;
    }

    method HandleResponse(id: string, response: UiResponse) returns (found: bool)
      modifies this
      ensures found == (id in old(pending))
      ensures Current() == Delivered(old(Current()), id, AnswerOf(response))
    {
      found := id in pending;
      if found {
        var owner := pending[id].owner;
        pending := pending - {id};
        channels := channels[owner := Sent(AnswerOf(response))];
      }
    }

    method CancelAuthorization(id: string) returns (found: bool)
      modifies this
      ensures found == (id in old(pending))
      ensures Current() == Delivered(old(Current()), id, No)
    {
      found := id in pending;
      if found {
        var owner := pending[id].owner;
        pending := pending - {id};
        channels := channels[owner := Sent(No)];
      }
    }

    /** Put a new request into the map, with a new channel to `owner`. */
    method StorePending(id: string, owner: nat, now: nat)
      modifies this
      ensures Current() == Stored(old(Current()), id, owner, now)
    {
      CleanupPendingRequest(id);
      pending := pending[id := Pending(owner, now)];
      channels := channels[owner := Empty];
    }

    method CleanupPendingRequest(id: string)
      modifies this
      ensures Current() == Dropped(old(Current()), id)
    {
      if id in pending {
        var owner := pending[id].owner;
        pending := pending - {id};
        channels := channels[owner := Closed];
      }
    }

    method CleanupExpiredRequests(now: nat)
      modifies this
      ensures config.timeoutSeconds == None ==> Current() == old(Current())
      ensures config.timeoutSeconds.Some? ==>
                Current() == AllDenied(old(Current()), ExpiredIds(old(Current()), now, config.timeoutSeconds.value))
    {
      var timeout := GetTimeoutDuration();
      if timeout == None {
        return;
      }
      ghost var before := Current();
      var left := set id | id in pending && IsExpired(pending[id], now, timeout.value);
      ghost var done: set<string> := {};
      DenyNone(before);
      assert left == ExpiredIds(before, now, timeout.value);
      while left != {}
        invariant left !! done && left + done == ExpiredIds(before, now, timeout.value)
        invariant Current() == AllDenied(before, done)
        decreases left
      {
        hide AllDenied, Delivered;
        var id :| id in left;
        DenyOneMore(before, done, id);
        var _ := CancelAuthorization(id);
        left, done := left - {id}, done + {id};
      }
      assert done == ExpiredIds(before, now, timeout.value);
    }
  }
}
