/** Control sessions: at most one is active, it expires by the runtime's own clock, and a newer one replaces it. */
module ControlSessions {
  import opened Common
  import opened CommandContract

  const DEFAULT_TTL_S := 30.0

  datatype Session = Session(id: nat, expiresAt: real)

  /** `issued` counts the sessions handed out: their ids are fresh. */
  datatype Sessions = Sessions(active: Option<Session>, issued: nat)

  function Expiry(now: real, ttl: Option<real>): real {
    now + if ttl.Some? && ttl.value != 0.0 then ttl.value else DEFAULT_TTL_S
  }

  function AcquireSpec(s: Sessions, now: real, ttl: Option<real>): Sessions {
    Sessions(Some(Session(s.issued, Expiry(now, ttl))), s.issued + 1)
  }

  function RequireActiveSpec(s: Sessions, id: nat, now: real): (Sessions, Option<Error>) {
    if s.active.None? || s.active.value.id != id then (s, Some(ControlSessionInvalid))
    else if s.active.value.expiresAt <= now then (s.(active := None), Some(ControlSessionExpired))
    else (s, None)
  }

  function ValidateSpec(s: Sessions, id: Option<nat>, now: real): (Sessions, Option<Error>) {
    if id.None? then (s, Some(ControlSessionRequired)) else RequireActiveSpec(s, id.value, now)
  }

  function RenewSpec(s: Sessions, id: nat, now: real, ttl: Option<real>): (Sessions, Option<Error>) {
    var (t, e) := RequireActiveSpec(s, id, now);
    if e.None? then (t.(active := Some(Session(id, Expiry(now, ttl)))), None) else (t, e)
  }

  function ReleaseSpec(s: Sessions, id: nat): Sessions {
    if s.active.Some? && s.active.value.id == id then s.(active := None) else s
  }

  class ControlSession {
    const id: nat
    var expiresAt: real

    constructor (id: nat, expiresAt: real)
      ensures this.id == id && this.expiresAt == expiresAt
    {
      this.id, this.expiresAt := id, expiresAt;
    }
  }

  class ControlSessionManager {
    var active: ControlSession?
    var issued: nat

    function View(): Sessions
      reads this, active
    {
      Sessions(if active == null then None else Some(Session(active.id, active.expiresAt)), issued)
    }

    constructor ()
      ensures View() == Sessions(None, 0)
    {
      active, issued := null, 0;
    }

    method Acquire(now: real, ttl: Option<real>) returns (session: ControlSession)
      modifies this
      ensures fresh(session) && active == session
      ensures View() == AcquireSpec(old(View()), now, ttl)
    {
      session := new ControlSession(issued, now + if ttl.Some? && ttl.value != 0.0 then ttl.value else DEFAULT_TTL_S);
      issued := issued + 1;
      active := session;
    }

    method RequireActive(id: nat, now: real) returns (e: Option<Error>)
      modifies this`active
      ensures (View(), e) == RequireActiveSpec(old(View()), id, now)
      ensures active == null || active == old(active)
    {
      if active == null || active.id != id {
        return Some(ControlSessionInvalid);
      }
      if now >= active.expiresAt {
        active := null;
        return Some(ControlSessionExpired);
      }
      e := None;
    }

    method Validate(id: Option<nat>, now: real) returns (e: Option<Error>)
      modifies this`active
      ensures (View(), e) == ValidateSpec(old(View()), id, now)
      ensures active == null || active == old(active)
    {
      if id.None? {
        return Some(ControlSessionRequired);
      }
      e := RequireActive(id.value, now);
    }

    /** Renewal moves the expiry of the session object its holders already have. */
    method Renew(id: nat, now: real, ttl: Option<real>) returns (e: Option<Error>)
      modifies this`active, active
      ensures (View(), e) == RenewSpec(old(View()), id, now, ttl)
      ensures e.None? ==> active == old(active)
    {
      e := RequireActive(id, now);
      if e.None? {
        active.expiresAt := now + if ttl.Some? && ttl.value != 0.0 then ttl.value else DEFAULT_TTL_S;
      }
    }

    method Release(id: nat)
      modifies this`active
      ensures View() == ReleaseSpec(old(View()), id)
    {
      if active != null && active.id == id {
        active := null;
      }
    }
  }

  // ---- any sequence of calls ----

  datatype Call =
    | Acquired(ttl: Option<real>)
    | Validated(claimed: Option<nat>)
    | Renewed(id: nat, ttl: Option<real>)
    | Released(id: nat)

  function CallSpec(s: Sessions, call: Call, now: real): Sessions {
    match call
    case Acquired(ttl) => AcquireSpec(s, now, ttl)
    case Validated(id) => ValidateSpec(s, id, now).0
    case Renewed(id, ttl) => RenewSpec(s, id, now, ttl).0
    case Released(id) => ReleaseSpec(s, id)
  }

  function AfterCalls(s: Sessions, calls: seq<(real, Call)>): Sessions
    decreases |calls|
  {
    if calls == [] then s else AfterCalls(CallSpec(s, calls[0].1, calls[0].0), calls[1..])
  }

  predicate Holds(s: Sessions, id: nat) {
    s.active.Some? && s.active.value.id == id
  }

  ghost predicate IdsAreIssued(s: Sessions) {
    s.active.Some? ==> s.active.value.id < s.issued
  }

  /** A session that was handed out and is no longer active, by replacement, release or expiry, never comes back. */
  lemma {:induction false} SessionsDoNotReturn(s: Sessions, calls: seq<(real, Call)>, id: nat)
    requires IdsAreIssued(s) && id < s.issued && !Holds(s, id)
    ensures !Holds(AfterCalls(s, calls), id)
    decreases |calls|
  {
    if calls != [] {
      SessionsDoNotReturn(CallSpec(s, calls[0].1, calls[0].0), calls[1..], id);
    }
  }

  /** `validate` succeeds exactly for the active session before its expiry, and then changes nothing. */
  lemma ValidExactlyWhenActive(s: Sessions, id: Option<nat>, now: real)
    ensures ValidateSpec(s, id, now).1.None? <==>
        s.active.Some? && id == Some(s.active.value.id) && now < s.active.value.expiresAt
    ensures ValidateSpec(s, id, now).1.None? ==> ValidateSpec(s, id, now).0 == s
  {
  }

  // ---- how long a session lasts ----

  /** The call may end the session or move its expiry. */
  predicate Concerns(call: Call, id: nat) {
    match call
    case Acquired(_) => true
    case Validated(_) => false
    case Renewed(other, _) => other == id
    case Released(other) => other == id
  }

  ghost predicate LeaveAlone(calls: seq<(real, Call)>, id: nat, t: real) {
    forall i :: 0 <= i < |calls| ==> calls[i].0 <= t && !Concerns(calls[i].1, id)
  }

  lemma {:induction false} LastsUntilExpiry(s: Sessions, calls: seq<(real, Call)>, id: nat, expiry: real, t: real)
    requires s.active == Some(Session(id, expiry)) || (!Holds(s, id) && expiry <= t && IdsAreIssued(s) && id < s.issued)
    requires IdsAreIssued(s) && LeaveAlone(calls, id, t)
    ensures ValidateSpec(AfterCalls(s, calls), Some(id), t).1.None? <==> t < expiry
    decreases |calls|
  {
    if calls != [] {
      assert !Concerns(calls[0].1, id) && calls[0].0 <= t;
      forall i | 0 <= i < |calls[1..]| ensures calls[1..][i].0 <= t && !Concerns(calls[1..][i].1, id) {
        assert calls[1..][i] == calls[i + 1];
      }
      LastsUntilExpiry(CallSpec(s, calls[0].1, calls[0].0), calls[1..], id, expiry, t);
    }
  }

  /** A session is valid for the time asked for, or 30 s when none or zero was, from its acquisition or its last
      renewal on, whatever other sessions are tried, renewed or released meanwhile. */
  lemma ValidForItsTime(s: Sessions, now: real, ttl: Option<real>, calls: seq<(real, Call)>, t: real)
    requires IdsAreIssued(s) && LeaveAlone(calls, s.issued, t)
    ensures var life := if ttl == None || ttl == Some(0.0) then 30.0 else ttl.value;
      ValidateSpec(AfterCalls(AcquireSpec(s, now, ttl), calls), Some(s.issued), t).1.None? <==> t < now + life
  {
    LastsUntilExpiry(AcquireSpec(s, now, ttl), calls, s.issued, Expiry(now, ttl), t);
  }

  /** Renewal succeeds exactly for a session that is valid, and starts its time anew. */
  lemma RenewedForItsTime(s: Sessions, id: nat, now: real, ttl: Option<real>, calls: seq<(real, Call)>, t: real)
    requires IdsAreIssued(s) && LeaveAlone(calls, id, t)
    ensures RenewSpec(s, id, now, ttl).1 == ValidateSpec(s, Some(id), now).1
    ensures var life := if ttl == None || ttl == Some(0.0) then 30.0 else ttl.value;
      ValidateSpec(s, Some(id), now).1.None? ==>
        (ValidateSpec(AfterCalls(RenewSpec(s, id, now, ttl).0, calls), Some(id), t).1.None? <==> t < now + life)
  {
    if ValidateSpec(s, Some(id), now).1.None? {
      LastsUntilExpiry(RenewSpec(s, id, now, ttl).0, calls, id, Expiry(now, ttl), t);
    }
  }

  /** A released session is invalid for ever, and the release of any other changes nothing. */
  lemma ReleasedForGood(s: Sessions, id: nat, calls: seq<(real, Call)>, t: real)
    requires IdsAreIssued(s) && id < s.issued
    ensures ValidateSpec(AfterCalls(ReleaseSpec(s, id), calls), Some(id), t).1 == Some(ControlSessionInvalid)
    ensures forall other :: !Holds(s, other) ==> ReleaseSpec(s, other) == s
  {
    SessionsDoNotReturn(ReleaseSpec(s, id), calls, id);
  }
}
