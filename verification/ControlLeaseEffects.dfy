/**
  What every call of a lease manager answers and leaves behind, by the state the handoff is in, and
  whose token counts: the one that the granting call returned.
 */
module ControlLeaseEffects {
  import opened Wrappers
  import opened ControlLease
  import opened ControlLeaseRuns

  // ---------------------------------------------------------------- answers by state

  /** The lease has run out by the time the call looks at the clock. */
  predicate Overdue(s: State, c: Clock) {
    s.handoff in {Pending, Active} && s.lease.Some? && s.lease.value.expiresAt <= c.check
  }

  /** The state a call finds once what is overdue has expired. */
  function Found(s: State, c: Clock): HandoffState { if Overdue(s, c) then Expired else s.handoff }

  /** At most 200 characters, and no control characters but line breaks and tabs. */
  predicate PrintableReason(reason: string) {
    |reason| <= 200 && forall c :: c in reason ==> (c as int >= 32 && c as int != 127) || c as int in {9, 10, 13}
  }

  /** A token is not empty and holds no control characters. */
  predicate PrintableToken(token: string) {
    token != "" && forall c :: c in token ==> c as int >= 32 && c as int != 127
  }

  /** A call nobody in this role may make, or without the user's confirmation. */
  function CallerRefusal(call: Call): Option<ErrorCode> {
    match call
    case RequestHandoff(actor, reason, _, _) =>
      if actor == Some(UnknownActor) then Some(InvalidArgument)
      else if actor in {Some(UserActor), Some(SystemActor)} then Some(InvalidState)
      else if reason.Some? && !PrintableReason(reason.value) then Some(InvalidArgument) else None
    case Takeover(actor, _, confirmed) => UserRefusal(actor, confirmed)
    case Release(actor, _, confirmed) => UserRefusal(actor, confirmed)
    case RecoverExpired(actor, confirmed) => UserRefusal(actor, confirmed)
    case Resume(actor) =>
      if actor == Some(UnknownActor) then Some(InvalidArgument)
      else if actor in {Some(UserActor), Some(SystemActor)} then Some(InvalidState) else None
    case _ => None
  }

  function UserRefusal(actor: Option<Actor>, confirmed: bool): Option<ErrorCode> {
    if !confirmed || actor == Some(UnknownActor) then Some(InvalidArgument)
    else if actor in {Some(AgentActor), Some(SystemActor)} then Some(InvalidState) else None
  }

  /** The error each state has for a call that its caller may make; `fits` says that token or duration are right. */
  function StateRefusal(h: HandoffState, call: Call, fits: bool): Option<ErrorCode> {
    match h
    case NoHandoff =>
      if call.RequestHandoff? then (if fits then None else Some(InvalidArgument))
      else if call.GetStatus? || call.Resume? || call.AssertAgentControl? then None
      else Some(InvalidState)
    case Pending =>
      if call.GetStatus? || (call.Takeover? && fits) then None
      else if call.Takeover? then Some(InvalidArgument) else Some(InvalidState)
    case Active =>
      if call.GetStatus? || ((call.Takeover? || call.Release? || call.AssertUserControl?) && fits) then None
      else if call.Release? || call.AssertUserControl? then Some(InvalidArgument)
      else if call.RecoverExpired? then Some(InvalidState) else Some(ManualTakeoverActive)
    case Released => if call.GetStatus? || call.Resume? then None else Some(InvalidState)
    case Expired =>
      if call.RequestHandoff? then (if fits then None else Some(InvalidArgument))
      else if call.GetStatus? || call.RecoverExpired? then None else Some(HumanHandoffExpired)
  }

  /** The token is that of the lease, or the duration and the new token are acceptable. */
  predicate Fits(cfg: Config, s: State, call: Call) {
    match call
    case RequestHandoff(_, _, ttl, newToken) =>
      && PrintableToken(newToken)
      && (ttl.Some? ==> 0 < ttl.value <= Min(cfg.maxTtlMs, 2_147_000_000))
      && (ttl.None? ==> 0 < cfg.ttlMs <= Min(cfg.maxTtlMs, 2_147_000_000))
    case Takeover(_, token, _) => IsLeaseToken(s, token)
    case Release(_, token, _) => IsLeaseToken(s, token)
    case AssertUserControl(token) => IsLeaseToken(s, token)
    case _ => true
  }

  predicate IsLeaseToken(s: State, token: string) {
    s.lease.Some? && s.lease.value.digest == Sha256(token)
  }

  function Min(a: int, b: int): int { if a < b then a else b }

  function Expected(cfg: Config, s: State, call: Call, c: Clock): Option<ErrorCode> {
    if CallerRefusal(call).Some? then CallerRefusal(call) else StateRefusal(Found(s, c), call, Fits(cfg, s, call))
  }

  /** The tokens of running leases are well formed. */
  ghost predicate TokensAreShaped(s: State) {
    s.handoff in {Pending, Active} ==> LiveLease(s) && TokenShape(s.lease.value.digest.token)
  }

  lemma StepKeepsShape(cfg: Config, s: State, e: Event)
    requires Coherent(s) && TokensAreShaped(s)
    ensures TokensAreShaped(Step(cfg, s, e))
  {
  }

  lemma {:induction false} ReachableTokensAreShaped(cfg: Config, es: seq<Event>, n: nat)
    requires n <= |es|
    ensures TokensAreShaped(StateAt(cfg, es, n))
  {
    if n > 0 {
      ReachableTokensAreShaped(cfg, es, n - 1);
      ReachableIsCoherent(cfg, es, n - 1);
      StepKeepsShape(cfg, StateAt(cfg, es, n - 1), es[n - 1]);
    }
  }

  /** The state after a call that was refused: what was overdue has expired, and nothing else has happened. */
  ghost predicate OnlyExpired(s: State, t: State, c: Clock) {
    if Overdue(s, c) then
      t == s.(handoff := Expired, control := Inactive, owner := Unowned, timer := None, releasedAt := None,
              expiredAt := Some(c.stamp), lease := Some(s.lease.value.(digest := Zeroed)))
    else t == s
  }

  /** What a call leaves behind that was not refused. */
  ghost predicate Done(cfg: Config, s: State, call: Call, c: Clock, t: State) {
    match call
    case RequestHandoff(_, _, ttl, newToken) =>
      var deadline := c.act + if ttl.Some? then ttl.value else cfg.ttlMs;
      && t.handoff == Pending && t.nextGeneration == s.nextGeneration + 1 && t.timer == Some(t.nextGeneration)
      && t.lease == Some(Lease(t.nextGeneration, Sha256(newToken), c.act, deadline, None))
      && t.lastIssuedAt == Some(c.act) && t.lastExpiresAt == Some(deadline)
      && t.lastActivatedAt.None? && t.releasedAt.None? && t.expiredAt.None?
    case Takeover(_, _, _) =>
      if s.handoff == Active then t == s
      else
        s.lease.Some? &&
        t == s.(handoff := Active, control := UserControlled, owner := UserOwned,
                lease := Some(s.lease.value.(activatedAt := Some(c.act))), lastActivatedAt := Some(c.act))
    case Release(_, _, _) =>
      t == s.(handoff := Released, control := Inactive, owner := Unowned, lease := None, timer := None,
              releasedAt := Some(c.act), expiredAt := None)
    case Resume(_) =>
      if s.handoff == NoHandoff then t == s
      else t == s.(handoff := NoHandoff, control := AgentControlled, owner := AgentOwned,
                   releasedAt := None, expiredAt := None)
    case RecoverExpired(_, _) =>
      && t.handoff == Released && t.control == Inactive && t.owner == Unowned && t.lease.None?
      && t.releasedAt == Some(c.act) && t.expiredAt.None? && t.nextGeneration == s.nextGeneration
    case _ => OnlyExpired(s, t, c)
  }

  /** What a call that was not refused hands back. */
  predicate Answer(call: Call, t: State, r: Response) {
    match call
    case RequestHandoff(_, _, _, newToken) => r == Granted(StatusOf(t), newToken)
    case AssertAgentControl => r == Permitted
    case AssertUserControl(_) => r == Permitted
    case _ => r == Returned(StatusOf(t))
  }

  lemma TokensPrint(token: string)
    ensures TokenShape(token) <==> PrintableToken(token)
  {
    if i :| 0 <= i < |token| && ControlCharacter(token[i]) { assert token[i] in token; }
  }

  lemma ReasonsPrint(reason: string)
    ensures ReasonAllowed(Some(reason)) <==> PrintableReason(reason)
  {
    if i :| 0 <= i < |reason| && ControlCharacter(reason[i]) && reason[i] !in {'\t', '\n', '\r'} {
      assert reason[i] in reason;
    }
  }

  lemma CallAnswers(cfg: Config, s: State, call: Call, c: Clock)
    requires Coherent(s) && TokensAreShaped(s) && c.Nondecreasing() && !call.ExpireIfDue? && !call.Dispose?
    ensures var (t, r) := Invoked(cfg, s, call, c);
      if Expected(cfg, s, call, c).Some? then r == Threw(Expected(cfg, s, call, c).value) && OnlyExpired(s, t, c)
      else Answer(call, t, r) && Done(cfg, s, call, c, t)
  {
    assert Overdue(s, c) == Due(s, c.check);
    if call.RequestHandoff? {
      TokensPrint(call.newToken);
      if call.reason.Some? { ReasonsPrint(call.reason.value); }
    }
    match call case _ =>
  }

  /** Every call in every run: the error its caller, the state and its token ask for, or the effect and the answer. */
  lemma CallsAnswerByState(cfg: Config, es: seq<Event>, n: nat)
    requires n < |es| && es[n].Invoke? && es[n].clock.Nondecreasing()
    requires !es[n].call.ExpireIfDue? && !es[n].call.Dispose?
    ensures var s, t, r := StateAt(cfg, es, n), StateAt(cfg, es, n + 1), ResponseAt(cfg, es, n);
      var call, c := es[n].call, es[n].clock;
      if Expected(cfg, s, call, c).Some? then r == Threw(Expected(cfg, s, call, c).value) && OnlyExpired(s, t, c)
      else Answer(call, t, r) && Done(cfg, s, call, c, t)
  {
    ReachableIsCoherent(cfg, es, n);
    ReachableTokensAreShaped(cfg, es, n);
    CallAnswers(cfg, StateAt(cfg, es, n), es[n].call, es[n].clock);
  }

  /** `expireIfDue` and `dispose`. */
  lemma ExpiryCallsAnswer(cfg: Config, es: seq<Event>, n: nat)
    requires n < |es| && es[n].Invoke? && es[n].clock.Nondecreasing()
    ensures var s, t, c := StateAt(cfg, es, n), StateAt(cfg, es, n + 1), es[n].clock;
      && (es[n].call.ExpireIfDue? ==> ResponseAt(cfg, es, n) == Flag(Overdue(s, c)) && OnlyExpired(s, t, c))
      && (es[n].call.Dispose? ==>
            t == s.(handoff := Expired, control := Inactive, owner := Unowned, lease := None, timer := None,
                    expiredAt := Some(c.act)))
  {
  }

  // ---------------------------------------------------------------- the granted token decides

  /** The grant of event `h` is the last one, and its lease is pending or active when event `n` comes. */
  ghost predicate GrantStands(tr: seq<Entry>, h: nat, n: nat, token: string, deadline: int) {
    && h < n < |tr| && Grants(tr[h], token, deadline) && tr[n].before.handoff in {Pending, Active}
    && forall k :: h < k < n ==> !Granting(tr[k])
  }

  lemma {:induction false} StandingLease(tr: seq<Entry>, h: nat, n: nat, token: string, deadline: int)
    requires Chained(tr) && h < n < |tr| && Grants(tr[h], token, deadline) && forall k :: h < k < n ==> !Granting(tr[k])
    ensures var s := tr[n].before;
      s.handoff in {Pending, Active} ==> IsLeaseToken(s, token) && s.lease.value.expiresAt == deadline
    decreases n
  {
    assert Accounted(tr[n - 1]);
    if n > h + 1 { StandingLease(tr, h, n - 1, token, deadline); }
  }

  /** Who may do what with the token `tok` while the lease of `token` stands: only the granted one counts. */
  ghost predicate OnlyTokenCounts(s: State, call: Call, t: State, r: Response, token: string) {
    var refused := Threw(if s.handoff == Active && call.Takeover? then ManualTakeoverActive else InvalidArgument);
    match call
    case Takeover(_, tok, _) =>
      && (r == Returned(StatusOf(t)) <==> tok == token) && (tok != token ==> r == refused && t == s)
      && (tok == token ==> t.handoff == Active && t.control == UserControlled && t.owner == UserOwned)
      && (s.handoff == Active ==> t == s)
    case Release(_, tok, _) =>
      && (r == Returned(StatusOf(t)) <==> s.handoff == Active && tok == token)
      && (s.handoff == Active && tok == token ==> t.handoff == Released && t.lease.None?)
      && (s.handoff == Active && tok != token ==> r == refused && t == s)
      && (s.handoff == Pending ==> r == Threw(InvalidState) && t == s)
    case AssertUserControl(tok) =>
      && (r == Permitted <==> s.handoff == Active && tok == token) && t == s
      && (s.handoff == Active && tok != token ==> r == refused)
      && (s.handoff == Pending ==> r == Threw(InvalidState))
    case _ => true
  }

  /** The role and the confirmation these calls need. */
  predicate ConfirmedByUser(call: Call) {
    match call
    case Takeover(actor, _, confirmed) => confirmed && actor in {None, Some(UserActor)}
    case Release(actor, _, confirmed) => confirmed && actor in {None, Some(UserActor)}
    case AssertUserControl(_) => true
    case _ => false
  }

  /**
    While the lease of a grant is pending or active and not overdue, a confirmed user takes over,
    releases and writes exactly with the token the granting call returned; any other token is
    refused and changes nothing.
   */
  lemma GrantedTokenDecides(cfg: Config, es: seq<Event>, h: nat, n: nat, token: string, deadline: int)
    requires ReadsNondecreasing(es) && GrantStands(Trace(cfg, es), h, n, token, deadline)
    requires es[n].Invoke? && ConfirmedByUser(es[n].call) && es[n].clock.check < deadline
    ensures OnlyTokenCounts(StateAt(cfg, es, n), es[n].call, StateAt(cfg, es, n + 1), ResponseAt(cfg, es, n), token)
  {
    TraceIsChained(cfg, es);
    StandingLease(Trace(cfg, es), h, n, token, deadline);
    assert Trace(cfg, es)[n].before == StateAt(cfg, es, n);
    CallsAnswerByState(cfg, es, n);
  }

  // ---------------------------------------------------------------- timers

  /** A running lease always has the timer of its own generation armed. */
  predicate TimerIsArmed(s: State) {
    && (s.handoff in {Pending, Active} ==> s.lease.Some? && s.timer == Some(s.lease.value.generation))
    && (s.lease.Some? ==> s.lease.value.generation <= s.nextGeneration)
  }

  lemma StepKeepsTimer(cfg: Config, s: State, e: Event)
    requires Coherent(s) && TimerIsArmed(s)
    ensures TimerIsArmed(Step(cfg, s, e))
  {
  }

  lemma {:induction false} RunningLeaseHasTimer(cfg: Config, es: seq<Event>, n: nat)
    requires n <= |es|
    ensures TimerIsArmed(StateAt(cfg, es, n))
  {
    if n > 0 {
      RunningLeaseHasTimer(cfg, es, n - 1);
      ReachableIsCoherent(cfg, es, n - 1);
      StepKeepsTimer(cfg, StateAt(cfg, es, n - 1), es[n - 1]);
    }
  }

  /** A timer callback expires the running lease of its own generation exactly when that is due, and else arms again. */
  lemma TimerExpiresWhatIsDue(cfg: Config, es: seq<Event>, n: nat)
    requires n < |es| && es[n].TimerFires? && StateAt(cfg, es, n).handoff in {Pending, Active}
    ensures var s, t, c := StateAt(cfg, es, n), StateAt(cfg, es, n + 1), es[n].clock;
      && s.lease.Some?
      && (t.handoff == Expired <==> s.lease.value.generation == es[n].generation && s.lease.value.expiresAt <= c.expire)
      && (t.handoff == Expired ==> t.expiredAt == Some(c.stamp) && t.timer.None? && t.releasedAt.None?)
      && (t.handoff != Expired ==> t == s)
  {
    ReachableIsCoherent(cfg, es, n);
    RunningLeaseHasTimer(cfg, es, n);
  }

  // ---------------------------------------------------------------- the status

  /** What a status shows of a reachable state. */
  ghost predicate ShowsState(s: State, st: Status) {
    && st.control == s.control && st.owner == s.owner && st.handoff == s.handoff
    && st.agentWriteAllowed == (s.handoff == NoHandoff) && st.hardStop == (s.handoff != NoHandoff)
    && st.userControlActive == (s.handoff == Active) && st.leaseActive == (s.handoff in {Pending, Active})
    && st.releasedAt == s.releasedAt && st.expiredAt == s.expiredAt
    && match s.handoff
       case NoHandoff => st.issuedAt.None? && st.activatedAt.None? && st.expiresAt.None?
       case Released => st.issuedAt.None? && st.activatedAt.None? && st.expiresAt.None?
       case _ => st.issuedAt == s.lastIssuedAt && st.activatedAt == s.lastActivatedAt && st.expiresAt == s.lastExpiresAt
  }

  /** The times kept beside the lease are those of the lease. */
  predicate TimesAreKept(s: State) {
    s.lease.Some? ==>
      && s.lastIssuedAt == Some(s.lease.value.issuedAt) && s.lastExpiresAt == Some(s.lease.value.expiresAt)
      && s.lastActivatedAt == s.lease.value.activatedAt
  }

  lemma StepKeepsTimes(cfg: Config, s: State, e: Event)
    requires Coherent(s) && TimesAreKept(s)
    ensures TimesAreKept(Step(cfg, s, e))
  {
  }

  lemma {:induction false} StatusShowsTheState(cfg: Config, es: seq<Event>, n: nat)
    requires n <= |es|
    ensures TimesAreKept(StateAt(cfg, es, n)) && ShowsState(StateAt(cfg, es, n), StatusOf(StateAt(cfg, es, n)))
  {
    ReachableIsCoherent(cfg, es, n);
    if n > 0 {
      StatusShowsTheState(cfg, es, n - 1);
      ReachableIsCoherent(cfg, es, n - 1);
      StepKeepsTimes(cfg, StateAt(cfg, es, n - 1), es[n - 1]);
    }
  }
}
