/**
  The health of one account: a state machine with exponential backoff.

  A clock reading is an integer; a reading that is no safe nonnegative integer stands for
  every value the source refuses.
 */
module AccountHealthStates {
  import opened Arithmetic
  import opened Wrappers

  const MAX_SAFE_INTEGER := 9007199254740991
  const MAX_REASON_LENGTH := 1024
  const BASE_RETRY_DELAY_MS := 300000
  const MAX_RETRY_DELAY_MS := 86400000

  datatype Health = Healthy | LoginExpired | ChallengeRequired | ProxyUnhealthy | Quarantined | Disabled

  datatype Snapshot = Snapshot(state: Health, reason: Option<string>, lastUpdated: int, failureCount: int,
                               nextRetry: Option<int>)

  datatype Error =
    | ReasonTooLong
    | BadTimestamp
    | BadFailureCount
    | BrokenInvariant
    | NotAFailure(target: Health)
    | InvalidTransition(origin: Health, target: Health)
    | Unreadable
    | WriteFailed

  predicate Failing(h: Health) { h.LoginExpired? || h.ChallengeRequired? || h.ProxyUnhealthy? }

  predicate Closed(h: Health) { h.Quarantined? || h.Disabled? }

  /** `VALID_TRANSITIONS`; staying where one is needs no entry. */
  predicate ValidTransition(origin: Health, target: Health) {
    match origin
    case Healthy => !target.Healthy?
    case Quarantined => target.Healthy? || target.Disabled?
    case Disabled => target.Healthy?
    case _ => target != origin
  }

  predicate SafeTime(t: int) { 0 <= t <= MAX_SAFE_INTEGER }

  /** The delay after the given number of failures, with the exponent capped as in the source. */
  function Delay(count: int): int
    requires count >= 1
  {
    Min(BASE_RETRY_DELAY_MS * Pow2(Min(count - 1, 30)), MAX_RETRY_DELAY_MS)
  }

  // ---------------------------------------------------------------- operations

  datatype Op =
    | RecordFailure(target: Health, reason: Option<string>, now: int)
    | Quarantine(reason: Option<string>, now: int)
    | Disable(reason: Option<string>, now: int)
    | Recover(reason: Option<string>, now: int)

  function Target(op: Op): Health {
    match op
    case RecordFailure(target, _, _) => target
    case Quarantine(_, _) => Quarantined
    case Disable(_, _) => Disabled
    case Recover(_, _) => Healthy
  }

  /** Why `applyTransition` refuses, if it does. */
  function TransitionRefusal(s: Snapshot, target: Health, reason: Option<string>, now: int): Option<Error> {
    if reason.Some? && |reason.value| > MAX_REASON_LENGTH then Some(ReasonTooLong)
    else if !SafeTime(now) then Some(BadTimestamp)
    else if s.state != target && !ValidTransition(s.state, target) then Some(InvalidTransition(s.state, target))
    else None
  }

  function Refusal(s: Snapshot, op: Op): Option<Error> {
    if op.RecordFailure? && !Failing(op.target) then Some(NotAFailure(op.target))
    else TransitionRefusal(s, Target(op), op.reason, op.now)
  }

  /** The snapshot after a transition that was not refused; only the failing states record a failure. */
  function Transition(s: Snapshot, target: Health, reason: Option<string>, now: int): Snapshot
    requires s.failureCount >= 0
  {
    var same, failure := s.state == target, Failing(target);
    Snapshot(
      target,
      if same && reason.None? then s.reason else reason,
      now,
      if failure then s.failureCount + 1 else if target.Healthy? && !same then 0 else s.failureCount,
      if failure then Some(now + Delay(s.failureCount + 1)) else if same then s.nextRetry else None)
  }

  function After(s: Snapshot, op: Op): Snapshot
    requires s.failureCount >= 0
  {
    if Refusal(s, op).None? then Transition(s, Target(op), op.reason, op.now) else s
  }

  /** What the constructor accepts as an initial snapshot. */
  function Construct(s: Snapshot): Result<Snapshot, Error> {
    if !(0 <= s.failureCount <= MAX_SAFE_INTEGER) then Failure(BadFailureCount)
    else if s.nextRetry.Some? && !SafeTime(s.nextRetry.value) then Failure(BadTimestamp)
    else if
      || (s.state.Healthy? && (s.failureCount != 0 || s.nextRetry.Some?))
      || (Closed(s.state) && s.nextRetry.Some?)
    then Failure(BrokenInvariant)
    else if s.reason.Some? && |s.reason.value| > MAX_REASON_LENGTH then Failure(ReasonTooLong)
    else if !SafeTime(s.lastUpdated) then Failure(BadTimestamp)
    else Success(s)
  }

  function FreshAt(now: int): Snapshot { Snapshot(Healthy, None, now, 0, None) }

  predicate Eligible(s: Snapshot, now: int) {
    s.state.Healthy? || (!Closed(s.state) && (s.nextRetry.None? || now >= s.nextRetry.value))
  }

  // ---------------------------------------------------------------- the account

  class AccountHealth {
    var state: Health
    var reason: Option<string>
    var lastUpdated: int
    var failureCount: int
    var nextRetryAvailableAt: Option<int>

    ghost function View(): Snapshot
      reads this
    {
      Snapshot(state, reason, lastUpdated, failureCount, nextRetryAvailableAt)
    }

    constructor (now: int)
      requires SafeTime(now)
      ensures View() == FreshAt(now)
    {
      state, reason, lastUpdated, failureCount, nextRetryAvailableAt := Healthy, None, now, 0, None;
    }

    constructor FromSnapshot(s: Snapshot)
      requires Construct(s).Success?
      ensures View() == s
    {
      state, reason, lastUpdated := s.state, s.reason, s.lastUpdated;
      failureCount, nextRetryAvailableAt := s.failureCount, s.nextRetry;
    }

    method GetSnapshot() returns (s: Snapshot)
      ensures s == View()
    {
      s := Snapshot(state, reason, lastUpdated, failureCount, nextRetryAvailableAt);
    }

    method IsRetryEligible(now: int) returns (eligible: bool)
      ensures eligible == Eligible(View(), now)
    {
      if state.Healthy? { return true; }
      if state.Disabled? || state.Quarantined? { return false; }
      if nextRetryAvailableAt.Some? { return now >= nextRetryAvailableAt.value; }
      return true;
    }

    method Perform(op: Op) returns (refusal: Option<Error>)
      requires failureCount >= 0
      modifies this
      ensures refusal == Refusal(old(View()), op)
      ensures View() == After(old(View()), op)
    {
      match op
      case RecordFailure(target, r, now) =>
        if !Failing(target) { return Some(NotAFailure(target)); }
        refusal := ApplyTransition(target, r, now, true);
      case Quarantine(r, now) => refusal := ApplyTransition(Quarantined, r, now, false);
      case Disable(r, now) => refusal := ApplyTransition(Disabled, r, now, false);
      case Recover(r, now) => refusal := ApplyTransition(Healthy, r, now, false);
    }

    method ApplyTransition(newState: Health, r: Option<string>, now: int, isFailure: bool)
      returns (refusal: Option<Error>)
      requires failureCount >= 0
      requires isFailure <==> Failing(newState)
      modifies this
      ensures refusal == TransitionRefusal(old(View()), newState, r, now)
      ensures View() == if refusal.Some? then old(View()) else Transition(old(View()), newState, r, now)
    {
      if r.Some? && |r.value| > MAX_REASON_LENGTH { return Some(ReasonTooLong); }
      if !SafeTime(now) { return Some(BadTimestamp); }
      if state == newState {
        if isFailure { RecordBackoff(now); }
        if r.Some? { reason := r; }
        lastUpdated := now;
        return None;
      }
      if !ValidTransition(state, newState) { return Some(InvalidTransition(state, newState)); }
      state := newState;
      reason := r;
      lastUpdated := now;
      if newState.Healthy? {
        failureCount := 0;
        nextRetryAvailableAt := None;
      } else if isFailure {
        RecordBackoff(now);
      } else if newState.Disabled? || newState.Quarantined? {
        nextRetryAvailableAt := None;
      }
      return None;
    }

    method RecordBackoff(now: int)
      requires failureCount >= 0
      modifies this`failureCount, this`nextRetryAvailableAt
      ensures failureCount == old(failureCount) + 1
      ensures nextRetryAvailableAt == Some(now + Delay(failureCount))
    {
      failureCount := failureCount + 1;
      var exponent := Min(failureCount - 1, 30);
      nextRetryAvailableAt := Some(now + Min(BASE_RETRY_DELAY_MS * Pow2(exponent), MAX_RETRY_DELAY_MS));
    }
  }

  // ---------------------------------------------------------------- every run of a fresh account

  function StateAt(start: int, ops: seq<Op>, n: nat): (s: Snapshot)
    requires n <= |ops|
    ensures s.failureCount >= 0
  {
    if n == 0 then FreshAt(start) else After(StateAt(start, ops, n - 1), ops[n - 1])
  }

  predicate Accepted(start: int, ops: seq<Op>, i: nat)
    requires i < |ops|
  {
    Refusal(StateAt(start, ops, i), ops[i]).None?
  }

  /** The operations among the first `n` that were accepted, in order. */
  function History(start: int, ops: seq<Op>, n: nat): seq<Op>
    requires n <= |ops|
  {
    if n == 0 then []
    else History(start, ops, n - 1) + if Accepted(start, ops, n - 1) then [ops[n - 1]] else []
  }

  /** How many of the operations are failures. */
  function Failures(h: seq<Op>): nat {
    if h == [] then 0 else Failures(h[..|h| - 1]) + if h[|h| - 1].RecordFailure? then 1 else 0
  }

  /** The operations after the last recovery. */
  function SinceRecovery(h: seq<Op>): seq<Op> {
    if h == [] || h[|h| - 1].Recover? then [] else SinceRecovery(h[..|h| - 1]) + [h[|h| - 1]]
  }

  lemma {:induction false} SinceRecoveryIsTheSuffix(h: seq<Op>)
    ensures var k := |h| - |SinceRecovery(h)|;
            && 0 <= k && SinceRecovery(h) == h[k..]
            && (forall i :: k <= i < |h| ==> !h[i].Recover?)
            && (k > 0 ==> h[k - 1].Recover?)
  {
    if h != [] && !h[|h| - 1].Recover? {
      var g := h[..|h| - 1];
      SinceRecoveryIsTheSuffix(g);
      var k := |g| - |SinceRecovery(g)|;
      assert h[k..] == g[k..] + [h[|h| - 1]];
    }
  }

  /** The cap on the exponent never shows: the delay is the plain doubling, up to a day. */
  lemma DelayIsPlainDoubling(count: int)
    requires count >= 1
    ensures Delay(count) == Min(BASE_RETRY_DELAY_MS * Pow2(count - 1), MAX_RETRY_DELAY_MS)
    ensures BASE_RETRY_DELAY_MS <= Delay(count) <= MAX_RETRY_DELAY_MS
    ensures Delay(count) == MAX_RETRY_DELAY_MS <==> count >= 10
  {
    assert Pow2(8) == 256 && Pow2(9) == 512;
    if count - 1 >= 9 {
      Pow2Grows(9, count - 1);
      Pow2Grows(9, Min(count - 1, 30));
    } else {
      Pow2Grows(count - 1, 8);
    }
  }

  /** What the fields of every reachable snapshot owe to each other. */
  predicate Consistent(s: Snapshot) {
    && (Failing(s.state) ==> s.failureCount >= 1 && s.nextRetry == Some(s.lastUpdated + Delay(s.failureCount)))
    && (!Failing(s.state) ==> s.nextRetry.None?)
    && (s.state.Healthy? ==> s.failureCount == 0)
  }

  lemma OpKeepsConsistent(s: Snapshot, op: Op)
    requires s.failureCount >= 0 && Consistent(s)
    ensures Consistent(After(s, op))
  {
  }

  lemma {:induction false} ReachableIsConsistent(start: int, ops: seq<Op>, n: nat)
    requires n <= |ops|
    ensures Consistent(StateAt(start, ops, n))
  {
    if n > 0 {
      ReachableIsConsistent(start, ops, n - 1);
      OpKeepsConsistent(StateAt(start, ops, n - 1), ops[n - 1]);
    }
  }

  lemma OpCounts(s: Snapshot, op: Op)
    requires s.failureCount >= 0 && Consistent(s) && Refusal(s, op).None?
    ensures var t := After(s, op);
            && t.state == Target(op) && t.lastUpdated == op.now
            && t.failureCount ==
               if op.RecordFailure? then s.failureCount + 1 else if op.Recover? then 0 else s.failureCount
  {
  }

  /** The account is a function of the accepted operations: it counts the failures since the last recovery. */
  lemma {:induction false} StateMatchesHistory(start: int, ops: seq<Op>, n: nat)
    requires n <= |ops|
    ensures var s, h := StateAt(start, ops, n), History(start, ops, n);
            && s.failureCount == Failures(SinceRecovery(h))
            && s.state == (if h == [] then Healthy else Target(h[|h| - 1]))
            && s.lastUpdated == (if h == [] then start else h[|h| - 1].now)
  {
    if n > 0 {
      StateMatchesHistory(start, ops, n - 1);
      var g, op, h := History(start, ops, n - 1), ops[n - 1], History(start, ops, n);
      if Accepted(start, ops, n - 1) {
        ReachableIsConsistent(start, ops, n - 1);
        OpCounts(StateAt(start, ops, n - 1), op);
        SinceRecoveryGrows(g, op);
        assert h == g + [op];
      } else {
        assert h == g;
      }
    }
  }

  lemma SinceRecoveryGrows(g: seq<Op>, op: Op)
    ensures Failures(SinceRecovery(g + [op])) ==
            if op.Recover? then 0
            else Failures(SinceRecovery(g)) + if op.RecordFailure? then 1 else 0
  {
    assert (g + [op])[..|g|] == g;
    var since := SinceRecovery(g);
    assert (since + [op])[..|since|] == since;
  }

  /** In a failing state the next retry comes a capped power of two after the last update. */
  lemma BackoffDoubles(start: int, ops: seq<Op>, n: nat, now: int)
    requires n <= |ops| && Failing(StateAt(start, ops, n).state)
    ensures var s := StateAt(start, ops, n);
            && s.failureCount >= 1
            && (Eligible(s, now) <==>
                now >= s.lastUpdated + Min(BASE_RETRY_DELAY_MS * Pow2(s.failureCount - 1), MAX_RETRY_DELAY_MS))
  {
    ReachableIsConsistent(start, ops, n);
    DelayIsPlainDoubling(StateAt(start, ops, n).failureCount);
  }

  /** Once quarantined or disabled, an account stays ineligible until a recovery is accepted. */
  lemma {:induction false} ClosedUntilRecovered(start: int, ops: seq<Op>, i: nat, n: nat, now: int)
    requires i <= n <= |ops| && Closed(StateAt(start, ops, i).state)
    requires forall j :: i <= j < n && Accepted(start, ops, j) ==> !ops[j].Recover?
    ensures var s := StateAt(start, ops, n);
            Closed(s.state) && !Eligible(s, now) && s.failureCount == StateAt(start, ops, i).failureCount
  {
    if i < n {
      ClosedUntilRecovered(start, ops, i, n - 1, now);
      assert Accepted(start, ops, n - 1) ==> !ops[n - 1].Recover?;
    }
  }

  /** Recovery is accepted from every state, whenever clock and reason are acceptable. */
  lemma RecoveryAlwaysWorks(start: int, ops: seq<Op>, i: nat, now: int)
    requires i < |ops| && ops[i].Recover? && SafeTime(ops[i].now)
    requires ops[i].reason.Some? ==> |ops[i].reason.value| <= MAX_REASON_LENGTH
    ensures Accepted(start, ops, i) && Eligible(StateAt(start, ops, i + 1), now)
  {
  }

  lemma {:induction false} ReasonsStayShort(start: int, ops: seq<Op>, n: nat)
    requires n <= |ops| && SafeTime(start)
    ensures var s := StateAt(start, ops, n);
            && (s.reason.Some? ==> |s.reason.value| <= MAX_REASON_LENGTH)
            && SafeTime(s.lastUpdated)
  {
    if n > 0 { ReasonsStayShort(start, ops, n - 1); }
  }

  /** A reachable snapshot survives the constructor exactly as long as its numbers are safe integers. */
  lemma SnapshotRoundTrip(start: int, ops: seq<Op>, n: nat)
    requires n <= |ops| && SafeTime(start)
    ensures var s := StateAt(start, ops, n);
            Construct(s) == Success(s) <==>
            s.failureCount <= MAX_SAFE_INTEGER && (s.nextRetry.Some? ==> s.nextRetry.value <= MAX_SAFE_INTEGER)
  {
    ReachableIsConsistent(start, ops, n);
    ReasonsStayShort(start, ops, n);
    var s := StateAt(start, ops, n);
    if Failing(s.state) { DelayIsPlainDoubling(s.failureCount); }
  }

  // ---------------------------------------------------------------- exactly when an operation is refused

  /** A closed account only recovers; a quarantined one may still be disabled or quarantined again. */
  predicate ShutOut(state: Health, op: Op) {
    || (state == Disabled && (op.Quarantine? || op.RecordFailure?))
    || (state == Quarantined && op.RecordFailure?)
  }

  /** What the account answers an operation, by its state: the first bad argument, or that it is closed. */
  function Answer(state: Health, op: Op): Option<Error> {
    if op.RecordFailure? && op.target in {Healthy, Quarantined, Disabled} then Some(NotAFailure(op.target))
    else if op.reason.Some? && |op.reason.value| > 1024 then Some(ReasonTooLong)
    else if op.now < 0 || op.now > 9007199254740991 then Some(BadTimestamp)
    else if ShutOut(state, op) then Some(InvalidTransition(state, Target(op)))
    else None
  }

  /** With proper arguments an operation is refused exactly while the account is closed to it, changing nothing. */
  lemma RefusedExactlyWhenShutOut(start: int, ops: seq<Op>, i: nat)
    requires i < |ops|
    ensures var s, t := StateAt(start, ops, i), StateAt(start, ops, i + 1);
            && Refusal(s, ops[i]) == Answer(s.state, ops[i])
            && (Answer(s.state, ops[i]).Some? ==> t == s)
            && (Answer(s.state, ops[i]).None? ==> t.state == Target(ops[i]) && t.lastUpdated == ops[i].now)
  {
  }

  /** The reason last given; a change of state without one forgets it, the same state again keeps it. */
  function LastReason(h: seq<Op>): Option<string> {
    if h == [] then None
    else
      var g, op := h[..|h| - 1], h[|h| - 1];
      var before := if g == [] then Healthy else Target(g[|g| - 1]);
      if op.reason.None? && Target(op) == before then LastReason(g) else op.reason
  }

  lemma {:induction false} ReasonMatchesHistory(start: int, ops: seq<Op>, n: nat)
    requires n <= |ops|
    ensures StateAt(start, ops, n).reason == LastReason(History(start, ops, n))
  {
    if n > 0 {
      ReasonMatchesHistory(start, ops, n - 1);
      StateMatchesHistory(start, ops, n - 1);
      var g := History(start, ops, n - 1);
      if Accepted(start, ops, n - 1) { assert (g + [ops[n - 1]])[..|g|] == g; } else { assert g + [] == g; }
    }
  }

  /** When an account may be tried, by its state: a failing one from its retry time on. */
  lemma EligibleByState(start: int, ops: seq<Op>, n: nat, now: int)
    requires n <= |ops|
    ensures var s := StateAt(start, ops, n);
            Eligible(s, now) <==>
            match s.state
            case Healthy => true
            case Quarantined => false
            case Disabled => false
            case _ => s.nextRetry.Some? && s.nextRetry.value <= now
  {
    ReachableIsConsistent(start, ops, n);
  }

  /** What the constructor answers: the first part of the snapshot that is wrong, or the snapshot as it is. */
  lemma ConstructorAnswers(s: Snapshot)
    ensures var healthyOrClosed := s.state in {Healthy, Quarantined, Disabled};
            Construct(s) ==
              if s.failureCount < 0 || s.failureCount > 9007199254740991 then Failure(BadFailureCount)
              else if s.nextRetry.Some? && (s.nextRetry.value < 0 || s.nextRetry.value > 9007199254740991) then
                Failure(BadTimestamp)
              else if (s.state == Healthy && s.failureCount != 0) || (healthyOrClosed && s.nextRetry.Some?) then
                Failure(BrokenInvariant)
              else if s.reason.Some? && |s.reason.value| > 1024 then Failure(ReasonTooLong)
              else if s.lastUpdated < 0 || s.lastUpdated > 9007199254740991 then Failure(BadTimestamp)
              else Success(s)
  {
  }
}
