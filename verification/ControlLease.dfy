/**
  The human handoff lease of one browser session: a token-guarded state machine
  whose lease expires both lazily (at the start of every call) and through a timer.

  The class below has the source's fields and methods.  Each method is proved
  against a function on the abstract `State`; the lemmas at the end are about
  whole runs of those functions.
 */
module ControlLease {
  import opened Wrappers

  datatype Actor = AgentActor | UserActor | SystemActor | UnknownActor
  datatype Owner = AgentOwned | UserOwned | Unowned
  datatype ControlState = AgentControlled | UserControlled | Inactive
  datatype HandoffState = NoHandoff | Pending | Active | Released | Expired
  datatype ErrorCode = ManualTakeoverActive | HumanHandoffExpired | InvalidState | InvalidArgument

  /** A token digest.  Hashing is injective, and no token hashes to the all-zero buffer. */
  datatype Digest = Zeroed | Sha256(token: string)

  datatype Lease = Lease(generation: nat, digest: Digest, issuedAt: int, expiresAt: int, activatedAt: Option<int>)

  /** The clock readings one synchronous call may make, in the order it makes them. */
  datatype Clock = Clock(check: int, expire: int, stamp: int, act: int) {
    ghost predicate Nondecreasing() { check <= expire <= stamp <= act }
  }

  datatype Config = Config(ttlMs: int, maxTtlMs: int) {
    ghost predicate Valid() { 0 < ttlMs <= maxTtlMs <= MAX_DURATION }
  }

  const MAX_DURATION := 2_147_000_000
  const MAX_REASON_LENGTH := 200

  datatype State = State(
    control: ControlState, handoff: HandoffState, owner: Owner, lease: Option<Lease>,
    timer: Option<nat>, nextGeneration: nat,
    releasedAt: Option<int>, expiredAt: Option<int>,
    lastIssuedAt: Option<int>, lastActivatedAt: Option<int>, lastExpiresAt: Option<int>)

  const INITIAL := State(AgentControlled, NoHandoff, AgentOwned, None, None, 0, None, None, None, None, None)

  datatype Status = Status(
    control: ControlState, owner: Owner, handoff: HandoffState,
    hardStop: bool, agentWriteAllowed: bool, userControlActive: bool, leaseActive: bool,
    issuedAt: Option<int>, activatedAt: Option<int>, expiresAt: Option<int>,
    releasedAt: Option<int>, expiredAt: Option<int>)

  datatype Response =
    | Returned(status: Status)
    | Granted(status: Status, leaseToken: string)
    | Permitted
    | Flag(expired: bool)
    | Threw(code: ErrorCode)

  datatype Call =
    | GetStatus
    | RequestHandoff(handoffActor: Option<Actor>, reason: Option<string>, ttl: Option<int>, newToken: string)
    | Takeover(actor: Option<Actor>, token: string, confirmed: bool)
    | Release(actor: Option<Actor>, token: string, confirmed: bool)
    | Resume(resumeActor: Option<Actor>)
    | RecoverExpired(actor: Option<Actor>, confirmed: bool)
    | AssertAgentControl
    | AssertUserControl(token: string)
    | ExpireIfDue
    | Dispose

  // ---------------------------------------------------------------- validation

  predicate ControlCharacter(c: char) { c <= '\U{1f}' || c == '\U{7f}' }

  predicate TokenShape(token: string) {
    |token| > 0 && forall i :: 0 <= i < |token| ==> !ControlCharacter(token[i])
  }

  predicate ReasonAllowed(reason: Option<string>) {
    reason.Some? ==>
      && |reason.value| <= MAX_REASON_LENGTH
      && forall i :: 0 <= i < |reason.value| ==>
        !ControlCharacter(reason.value[i]) || reason.value[i] in {'\t', '\n', '\r'}
  }

  function ActorOr(actor: Option<Actor>, fallback: Actor): Actor {
    if actor.None? then fallback else actor.value
  }

  predicate Matches(s: State, token: string) {
    s.lease.Some? && |token| > 0 && s.lease.value.digest == Sha256(token)
  }

  predicate TokenAccepted(s: State, token: string) { TokenShape(token) && Matches(s, token) }

  // ---------------------------------------------------------------- abstract machine

  predicate Running(s: State) { s.handoff == Pending || s.handoff == Active }

  predicate Due(s: State, now: int) { s.lease.Some? && Running(s) && s.lease.value.expiresAt <= now }

  /** The effect of the expiry callback of one generation. */
  function Expiry(s: State, generation: nat, now: int, stamp: int): State {
    if s.lease.None? || s.lease.value.generation != generation || s.handoff == Expired then s
    else if s.lease.value.expiresAt > now then s.(timer := Some(generation))
    else s.(lease := Some(s.lease.value.(digest := Zeroed)), control := Inactive, owner := Unowned,
            handoff := Expired, timer := None, expiredAt := Some(stamp), releasedAt := None)
  }

  /** The lazy check that precedes every call but `dispose`. */
  function Settle(s: State, c: Clock): State {
    if Due(s, c.check) then Expiry(s, s.lease.value.generation, c.expire, c.stamp) else s
  }

  function StatusOf(s: State): Status {
    var allowed := s.control == AgentControlled && s.handoff == NoHandoff && s.owner == AgentOwned;
    var kept := s.lease.None? && s.handoff == Expired;
    Status(s.control, s.owner, s.handoff, !allowed, allowed,
           s.control == UserControlled && s.handoff == Active && s.owner == UserOwned,
           s.lease.Some? && Running(s),
           if s.lease.Some? then Some(s.lease.value.issuedAt) else if kept then s.lastIssuedAt else None,
           if s.lease.Some? then s.lease.value.activatedAt else if kept then s.lastActivatedAt else None,
           if s.lease.Some? then Some(s.lease.value.expiresAt) else if kept then s.lastExpiresAt else None,
           s.releasedAt, s.expiredAt)
  }

  predicate HandoffBlocked(s: State) {
    Running(s) || s.control == UserControlled || s.handoff == Released
  }

  /** A new pending lease of `ttl` milliseconds, whose token is kept only as a digest. */
  function Issued(s: State, ttl: int, token: string, now: int): State {
    var g := s.nextGeneration + 1;
    s.(lease := Some(Lease(g, Sha256(token), now, now + ttl, None)),
       nextGeneration := g, control := Inactive, owner := Unowned, handoff := Pending,
       lastIssuedAt := Some(now), lastActivatedAt := None, lastExpiresAt := Some(now + ttl),
       releasedAt := None, expiredAt := None, timer := Some(g))
  }

  function HandoffResult(cfg: Config, s: State, call: Call, c: Clock): (State, Response)
    requires call.RequestHandoff?
  {
    var actor := ActorOr(call.handoffActor, AgentActor);
    var ttl := if call.ttl.None? then cfg.ttlMs else call.ttl.value;
    if actor == UnknownActor then (s, Threw(InvalidArgument))
    else if actor != AgentActor then (s, Threw(InvalidState))
    else if !ReasonAllowed(call.reason) then (s, Threw(InvalidArgument))
    else if s.handoff == Active || s.control == UserControlled then (s, Threw(ManualTakeoverActive))
    else if HandoffBlocked(s) then (s, Threw(InvalidState))
    else if !(0 < ttl <= MAX_DURATION) || ttl > cfg.maxTtlMs || !TokenShape(call.newToken) then
      (s, Threw(InvalidArgument))
    else
      var next := Issued(s, ttl, call.newToken, c.act);
      (next, Granted(StatusOf(next), call.newToken))
  }

  /** The checks `takeover`, `release` and `recoverExpired` make before looking at the state. */
  function UserCheck(actor: Option<Actor>, confirmed: bool): Option<ErrorCode> {
    if ActorOr(actor, UserActor) == UnknownActor || !confirmed then Some(InvalidArgument)
    else if ActorOr(actor, UserActor) != UserActor then Some(InvalidState)
    else None
  }

  function TakeoverResult(s: State, call: Call, c: Clock): (State, Response)
    requires call.Takeover?
  {
    var refused := UserCheck(call.actor, call.confirmed);
    if refused.Some? then (s, Threw(refused.value))
    else if s.handoff == Expired then (s, Threw(HumanHandoffExpired))
    else if s.handoff == NoHandoff || s.handoff == Released then (s, Threw(InvalidState))
    else if s.handoff == Active then
      (s, if Matches(s, call.token) then Returned(StatusOf(s)) else Threw(ManualTakeoverActive))
    else if !TokenAccepted(s, call.token) then (s, Threw(InvalidArgument))
    else
      var next := s.(lease := Some(s.lease.value.(activatedAt := Some(c.act))), lastActivatedAt := Some(c.act),
                     control := UserControlled, owner := UserOwned, handoff := Active);
      (next, Returned(StatusOf(next)))
  }

  function ReleaseResult(s: State, call: Call, c: Clock): (State, Response)
    requires call.Release?
  {
    var refused := UserCheck(call.actor, call.confirmed);
    if refused.Some? then (s, Threw(refused.value))
    else if s.handoff == Expired then (s, Threw(HumanHandoffExpired))
    else if s.handoff != Active then (s, Threw(InvalidState))
    else if !TokenAccepted(s, call.token) then (s, Threw(InvalidArgument))
    else
      var next := s.(lease := None, timer := None, control := Inactive, owner := Unowned, handoff := Released,
                     releasedAt := Some(c.act), expiredAt := None);
      (next, Returned(StatusOf(next)))
  }

  function ResumeResult(s: State, call: Call): (State, Response)
    requires call.Resume?
  {
    var actor := ActorOr(call.resumeActor, AgentActor);
    if actor == UnknownActor then (s, Threw(InvalidArgument))
    else if actor != AgentActor then (s, Threw(InvalidState))
    else if s.handoff == Active || s.control == UserControlled then (s, Threw(ManualTakeoverActive))
    else if s.handoff == Expired then (s, Threw(HumanHandoffExpired))
    else if s.handoff == Pending then (s, Threw(InvalidState))
    else if s.handoff == NoHandoff then
      (s, if s.control == AgentControlled then Returned(StatusOf(s)) else Threw(InvalidState))
    else
      var next := s.(control := AgentControlled, owner := AgentOwned, handoff := NoHandoff,
                     releasedAt := None, expiredAt := None);
      (next, Returned(StatusOf(next)))
  }

  function RecoverResult(s: State, call: Call, c: Clock): (State, Response)
    requires call.RecoverExpired?
  {
    var refused := UserCheck(call.actor, call.confirmed);
    if refused.Some? then (s, Threw(refused.value))
    else if s.handoff != Expired then (s, Threw(InvalidState))
    else
      var next := s.(control := Inactive, owner := Unowned, handoff := Released, lease := None,
                     releasedAt := Some(c.act), expiredAt := None);
      (next, Returned(StatusOf(next)))
  }

  function AgentCheck(s: State): Response {
    if s.handoff == Expired then Threw(HumanHandoffExpired)
    else if s.handoff == Active || s.control == UserControlled then Threw(ManualTakeoverActive)
    else if s.handoff != NoHandoff || s.control != AgentControlled then Threw(InvalidState)
    else Permitted
  }

  function UserControlCheck(s: State, token: string): Response {
    if s.handoff == Expired then Threw(HumanHandoffExpired)
    else if s.handoff != Active || s.control != UserControlled then Threw(InvalidState)
    else if !TokenAccepted(s, token) then Threw(InvalidArgument)
    else Permitted
  }

  function Disposed(s: State, c: Clock): State {
    s.(timer := None, lease := None, control := Inactive, owner := Unowned, handoff := Expired,
       expiredAt := Some(c.act))
  }

  /** What a call does once the lazy expiry check is behind it. */
  function Act(cfg: Config, s: State, call: Call, c: Clock): (State, Response) {
    match call
    case GetStatus => (s, Returned(StatusOf(s)))
    case RequestHandoff(_, _, _, _) => HandoffResult(cfg, s, call, c)
    case Takeover(_, _, _) => TakeoverResult(s, call, c)
    case Release(_, _, _) => ReleaseResult(s, call, c)
    case Resume(_) => ResumeResult(s, call)
    case RecoverExpired(_, _) => RecoverResult(s, call, c)
    case AssertAgentControl => (s, AgentCheck(s))
    case AssertUserControl(token) => (s, UserControlCheck(s, token))
    case ExpireIfDue => (s, Flag(false))
    case Dispose => (Disposed(s, c), Permitted)
  }

  function Invoked(cfg: Config, s: State, call: Call, c: Clock): (State, Response) {
    if call.Dispose? then Act(cfg, s, call, c)
    else if call.ExpireIfDue? then (Settle(s, c), Flag(Due(s, c.check)))
    else Act(cfg, Settle(s, c), call, c)
  }

  // ---------------------------------------------------------------- the manager

  /** The source's lease manager, field by field. */
  class ControlLeaseManager {
    const cfg: Config
    var controlState: ControlState
    var handoffState: HandoffState
    var owner: Owner
    var currentLease: Option<Lease>
    var expiryTimer: Option<nat>
    var nextGeneration: nat
    var releasedAt: Option<int>
    var expiredAt: Option<int>
    var lastIssuedAt: Option<int>
    var lastActivatedAt: Option<int>
    var lastExpiresAt: Option<int>

    ghost function View(): State
      reads this
    {
      State(controlState, handoffState, owner, currentLease, expiryTimer, nextGeneration,
            releasedAt, expiredAt, lastIssuedAt, lastActivatedAt, lastExpiresAt)
    }

    predicate MatchesToken(token: string)
      reads this
      ensures MatchesToken(token) == Matches(View(), token)
    {
      currentLease.Some? && |token| > 0 && currentLease.value.digest == Sha256(token)
    }

    constructor (cfg: Config)
      requires cfg.Valid()
      ensures this.cfg == cfg && View() == INITIAL
    {
      this.cfg := cfg;
      controlState, handoffState, owner := AgentControlled, NoHandoff, AgentOwned;
      currentLease, expiryTimer, nextGeneration := None, None, 0;
      releasedAt, expiredAt := None, None;
      lastIssuedAt, lastActivatedAt, lastExpiresAt := None, None, None;
    }

    method ReadStatus() returns (status: Status)
      ensures status == StatusOf(View())
    {
      var allowed := controlState == AgentControlled && handoffState == NoHandoff && owner == AgentOwned;
      var userActive := controlState == UserControlled && handoffState == Active && owner == UserOwned;
      var leaseActive := currentLease.Some? && (handoffState == Pending || handoffState == Active);
      var issued, activated, expires := None, None, None;
      if currentLease.Some? {
        issued, activated := Some(currentLease.value.issuedAt), currentLease.value.activatedAt;
        expires := Some(currentLease.value.expiresAt);
      } else if handoffState == Expired {
        issued, activated, expires := lastIssuedAt, lastActivatedAt, lastExpiresAt;
      }
      status := Status(controlState, owner, handoffState, !allowed, allowed, userActive, leaseActive,
                       issued, activated, expires, releasedAt, expiredAt);
    }

    method ExpireLease(generation: nat, now: int, stamp: int)
      modifies this
      ensures View() == Expiry(old(View()), generation, now, stamp)
    {
      if currentLease.None? || currentLease.value.generation != generation || handoffState == Expired { return; }
      if currentLease.value.expiresAt - now > 0 {
        expiryTimer := Some(generation);
        return;
      }
      expiryTimer := None;
      currentLease := Some(currentLease.value.(digest := Zeroed));
      controlState, owner, handoffState := Inactive, Unowned, Expired;
      expiredAt := Some(stamp);
      releasedAt := None;
    }

    method ExpireIfDue(c: Clock) returns (expired: bool)
      modifies this
      ensures View() == Settle(old(View()), c) && expired == Due(old(View()), c.check)
    {
      if currentLease.None? || (handoffState != Pending && handoffState != Active) { return false; }
      if c.check < currentLease.value.expiresAt { return false; }
      ExpireLease(currentLease.value.generation, c.expire, c.stamp);
      return true;
    }

    method RequestHandoff(actor: Option<Actor>, reason: Option<string>, ttl: Option<int>, newToken: string, c: Clock)
      returns (r: Response)
      modifies this
      ensures (View(), r) == Invoked(cfg, old(View()), Call.RequestHandoff(actor, reason, ttl, newToken), c)
    {
      var _ := ExpireIfDue(c);
      var who := ActorOr(actor, AgentActor);
      if who == UnknownActor { return Threw(InvalidArgument); }
      if who != AgentActor { return Threw(InvalidState); }
      if !ReasonAllowed(reason) { return Threw(InvalidArgument); }
      if handoffState == Active || controlState == UserControlled { return Threw(ManualTakeoverActive); }
      if handoffState == Pending || handoffState == Released { return Threw(InvalidState); }
      var ttlMs := if ttl.None? then cfg.ttlMs else ttl.value;
      if ttlMs <= 0 || ttlMs > MAX_DURATION || ttlMs > cfg.maxTtlMs { return Threw(InvalidArgument); }
      if !TokenShape(newToken) { return Threw(InvalidArgument); }
      r := Issue(ttlMs, newToken, c.act);
    }

    method Issue(ttlMs: int, newToken: string, issuedAt: int) returns (r: Response)
      modifies this
      ensures View() == Issued(old(View()), ttlMs, newToken, issuedAt) && r == Granted(StatusOf(View()), newToken)
    {
      nextGeneration := nextGeneration + 1;
      var expiresAt := issuedAt + ttlMs;
      currentLease := Some(Lease(nextGeneration, Sha256(newToken), issuedAt, expiresAt, None));
      lastIssuedAt, lastActivatedAt, lastExpiresAt := Some(issuedAt), None, Some(expiresAt);
      controlState, owner, handoffState := Inactive, Unowned, Pending;
      releasedAt, expiredAt := None, None;
      expiryTimer := Some(nextGeneration);
      var status := ReadStatus();
      r := Granted(status, newToken);
    }

    method Takeover(actor: Option<Actor>, token: string, confirmed: bool, c: Clock) returns (r: Response)
      modifies this
      ensures (View(), r) == Invoked(cfg, old(View()), Call.Takeover(actor, token, confirmed), c)
    {
      var _ := ExpireIfDue(c);
      var who := ActorOr(actor, UserActor);
      if who == UnknownActor || !confirmed { return Threw(InvalidArgument); }
      if who != UserActor { return Threw(InvalidState); }
      if handoffState == Expired { return Threw(HumanHandoffExpired); }
      if handoffState == NoHandoff || handoffState == Released { return Threw(InvalidState); }
      if handoffState == Active {
        if !MatchesToken(token) { return Threw(ManualTakeoverActive); }
      } else {
        if !TokenShape(token) || !MatchesToken(token) { return Threw(InvalidArgument); }
        currentLease := Some(currentLease.value.(activatedAt := Some(c.act)));
        lastActivatedAt := Some(c.act);
        controlState, owner, handoffState := UserControlled, UserOwned, Active;
      }
      var status := ReadStatus();
      r := Returned(status);
    }

    method Release(actor: Option<Actor>, token: string, confirmed: bool, c: Clock) returns (r: Response)
      modifies this
      ensures (View(), r) == Invoked(cfg, old(View()), Call.Release(actor, token, confirmed), c)
    {
      var _ := ExpireIfDue(c);
      var who := ActorOr(actor, UserActor);
      if who == UnknownActor || !confirmed { return Threw(InvalidArgument); }
      if who != UserActor { return Threw(InvalidState); }
      if handoffState == Expired { return Threw(HumanHandoffExpired); }
      if handoffState != Active { return Threw(InvalidState); }
      if !TokenShape(token) || !MatchesToken(token) { return Threw(InvalidArgument); }
      expiryTimer := None;
      currentLease := None;
      controlState, owner, handoffState := Inactive, Unowned, Released;
      releasedAt, expiredAt := Some(c.act), None;
      var status := ReadStatus();
      r := Returned(status);
    }

    method Resume(actor: Option<Actor>, c: Clock) returns (r: Response)
      modifies this
      ensures (View(), r) == Invoked(cfg, old(View()), Call.Resume(actor), c)
    {
      var _ := ExpireIfDue(c);
      var who := ActorOr(actor, AgentActor);
      if who == UnknownActor { return Threw(InvalidArgument); }
      if who != AgentActor { return Threw(InvalidState); }
      if handoffState == Active || controlState == UserControlled { return Threw(ManualTakeoverActive); }
      if handoffState == Expired { return Threw(HumanHandoffExpired); }
      if handoffState == Pending { return Threw(InvalidState); }
      if handoffState == NoHandoff {
        if controlState != AgentControlled { return Threw(InvalidState); }
      } else {
        controlState, owner, handoffState := AgentControlled, AgentOwned, NoHandoff;
        releasedAt, expiredAt := None, None;
      }
      var status := ReadStatus();
      r := Returned(status);
    }

    method RecoverExpired(actor: Option<Actor>, confirmed: bool, c: Clock) returns (r: Response)
      modifies this
      ensures (View(), r) == Invoked(cfg, old(View()), Call.RecoverExpired(actor, confirmed), c)
    {
      var _ := ExpireIfDue(c);
      var who := ActorOr(actor, UserActor);
      if who == UnknownActor || !confirmed { return Threw(InvalidArgument); }
      if who != UserActor { return Threw(InvalidState); }
      if handoffState != Expired { return Threw(InvalidState); }
      controlState, owner, handoffState := Inactive, Unowned, Released;
      currentLease := None;
      releasedAt, expiredAt := Some(c.act), None;
      var status := ReadStatus();
      r := Returned(status);
    }

    method AssertAgentControl(c: Clock) returns (r: Response)
      modifies this
      ensures (View(), r) == Invoked(cfg, old(View()), Call.AssertAgentControl, c)
    {
      var _ := ExpireIfDue(c);
      if handoffState == Expired { return Threw(HumanHandoffExpired); }
      if handoffState == Active || controlState == UserControlled { return Threw(ManualTakeoverActive); }
      if handoffState != NoHandoff || controlState != AgentControlled { return Threw(InvalidState); }
      return Permitted;
    }

    method AssertUserControl(token: string, c: Clock) returns (r: Response)
      modifies this
      ensures (View(), r) == Invoked(cfg, old(View()), Call.AssertUserControl(token), c)
    {
      var _ := ExpireIfDue(c);
      if handoffState == Expired { return Threw(HumanHandoffExpired); }
      if handoffState != Active || controlState != UserControlled { return Threw(InvalidState); }
      if !TokenShape(token) || !MatchesToken(token) { return Threw(InvalidArgument); }
      return Permitted;
    }

    method Dispose(c: Clock)
      modifies this
      ensures View() == Invoked(cfg, old(View()), Call.Dispose, c).0
    {
      expiryTimer := None;
      currentLease := None;
      controlState, owner, handoffState := Inactive, Unowned, Expired;
      expiredAt := Some(c.act);
    }
  }
}
