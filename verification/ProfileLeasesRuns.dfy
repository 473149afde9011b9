/**
  What holds in every state that starts, stops, renewals and lapses can reach together.
 */
module ProfileLeasesRuns {
  import opened Wrappers
  import opened ProfileLeases

  function StateAt(es: seq<Event>, n: nat): State
    requires n <= |es|
  {
    if n == 0 then INITIAL else Step(StateAt(es, n - 1), es[n - 1])
  }

  predicate Live(s: State, id: SessionId) { id in s.sessions && id in s.active }

  predicate GrantedTo(s: State, id: SessionId, l: Lease) {
    l.token in s.grants && s.grants[l.token] == Grant(id, l.key)
  }

  // ---------------------------------------------------------------- one session

  predicate Known(s: State, id: SessionId) {
    || id in s.starts || id in s.sessions || id in s.keyOf || id in s.active || id in s.armed || id in s.renewals
    || id in s.stops || id in s.losses
  }

  /** A start that has not got its lease yet has left no other trace. */
  predicate StartIsAlone(s: State, id: SessionId) {
    id in s.starts && (s.starts[id].Acquiring? || s.starts[id].Granted? || s.starts[id].Denied?)
    ==>
      && id !in s.sessions && id !in s.active && id !in s.keyOf && id !in s.armed && id !in s.renewals
      && id !in s.stops && id !in s.losses
  }

  predicate Failing(s: State, id: SessionId) { id in s.starts && s.starts[id].CleaningUp? }

  /** Where the manager may remember a lease, and what must be under way when it does not. */
  predicate OwnershipIsTracked(s: State, id: SessionId) {
    && (id in s.active ==> id in s.sessions || Failing(s, id))
    && (id in s.active ==> id in s.keyOf && s.keyOf[id] == s.active[id].lease.key)
    && (id in s.keyOf ==> id in s.sessions || Failing(s, id))
    && (id in s.sessions && id in s.keyOf && id !in s.active ==> id in s.losses || id in s.stops)
  }

  /** One timer or one request per lease, and the request is about the entry that is stored. */
  predicate OneRenewal(s: State, id: SessionId) {
    && (id in s.armed ==> id in s.active && id !in s.renewals)
    && (id in s.renewals && id in s.active ==> s.active[id] == s.renewals[id].owned)
  }

  /** Every lease in the manager's hands was granted to that very session. */
  predicate LeasesAreOwn(s: State, id: SessionId) {
    && (id in s.active ==> GrantedTo(s, id, s.active[id].lease))
    && (id in s.renewals ==> GrantedTo(s, id, s.renewals[id].owned.lease))
    && (id in s.starts && s.starts[id].Granted? ==> GrantedTo(s, id, s.starts[id].lease))
  }

  /** A live session's lease is held, or it lapsed; nobody is about to release it. */
  predicate LeaseStands(s: State, id: SessionId) {
    && (Live(s, id) ==> s.active[id].lease !in s.releases)
    && (Live(s, id) ==> Holds(s, s.active[id].lease) || s.active[id].lease.token in s.lapsed)
    && (id in s.starts && s.starts[id].Granted? ==> s.starts[id].lease !in s.releases)
    && (id in s.starts && s.starts[id].Granted? ==>
        Holds(s, s.starts[id].lease) || s.starts[id].lease.token in s.lapsed)
    && (id in s.renewals && s.renewals[id].phase.Lost? ==> !Holds(s, s.renewals[id].owned.lease))
  }

  /** What the manager's own tables keep, whatever the lease manager does. */
  predicate Tracked(s: State, id: SessionId) {
    && (Known(s, id) ==> id < s.nextSession)
    && StartIsAlone(s, id) && OwnershipIsTracked(s, id) && OneRenewal(s, id)
  }

  // ---------------------------------------------------------------- one key

  /** Whoever got the token still knows it, or its release is on the way. */
  predicate Covered(s: State, key: Key) {
    key in s.held && s.held[key] in s.grants ==>
      var l := Lease(key, s.held[key]);
      var id := s.grants[l.token].id;
      || (id in s.active && s.active[id].lease == l)
      || (id in s.starts && s.starts[id] == Granted(l))
      || l in s.releases
  }

  predicate KeyOk(s: State, key: Key) {
    && (key in s.held ==> s.held[key] < s.nextToken)
    && (key in s.held && s.held[key] in s.grants ==> s.grants[s.held[key]].key == key && s.held[key] !in s.lapsed)
    && Covered(s, key)
  }

  predicate TokenOk(s: State, t: Token) { t in s.grants || t in s.lapsed ==> t < s.nextToken }

  predicate ReleaseOk(s: State, l: Lease) {
    l in s.releases ==> l.token in s.grants && s.grants[l.token].key == l.key
  }

  predicate SessionOk(s: State, id: SessionId) { Tracked(s, id) && LeasesAreOwn(s, id) && LeaseStands(s, id) }

  ghost predicate Inv(s: State) {
    && (forall id :: SessionOk(s, id))
    && (forall key :: KeyOk(s, key))
    && (forall t :: TokenOk(s, t))
    && (forall l :: ReleaseOk(s, l))
  }

  // ---------------------------------------------------------------- every step keeps it

  predicate IsReturn(e: Event) { e.AcquireReturns? || e.CleanupReturns? || e.StopReturns? || e.RenewReturns? }

  predicate IsRenewal(e: Event) { e.TimerFires? || e.RenewEffect? || e.LossReported? }

  lemma RenewalKeepsTracked(s: State, e: Event, i: SessionId)
    requires Tracked(s, i) && IsRenewal(e)
    ensures Tracked(Step(s, e), i)
  {
  }

  predicate IsStarting(e: Event) { e.CallStart? || e.AcquireEffect? || e.AcquireFails? || e.LaunchReturns? }

  lemma StartingKeepsTracked(s: State, e: Event, i: SessionId)
    requires Tracked(s, i) && IsStarting(e)
    ensures Tracked(Step(s, e), i)
  {
  }

  lemma OtherKeepsTracked(s: State, e: Event, i: SessionId)
    requires Tracked(s, i) && !IsReturn(e) && !IsRenewal(e) && !IsStarting(e)
    ensures Tracked(Step(s, e), i)
  {
  }

  lemma RenewalKeepsOwn(s: State, e: Event, i: SessionId)
    requires Tracked(s, i) && LeasesAreOwn(s, i) && TokenOk(s, s.nextToken) && IsRenewal(e)
    ensures LeasesAreOwn(Step(s, e), i)
  {
  }

  lemma OtherKeepsOwn(s: State, e: Event, i: SessionId)
    requires Tracked(s, i) && LeasesAreOwn(s, i) && TokenOk(s, s.nextToken) && !IsReturn(e) && !IsRenewal(e)
    ensures LeasesAreOwn(Step(s, e), i)
  {
  }

  lemma AcquireReturnKeepsTables(s: State, id: SessionId, i: SessionId)
    requires Tracked(s, i) && LeasesAreOwn(s, i)
    ensures Tracked(AcquireReturn(s, id), i) && LeasesAreOwn(AcquireReturn(s, id), i)
  {
  }

  lemma CleanupReturnKeepsTables(s: State, id: SessionId, i: SessionId)
    requires Tracked(s, i) && LeasesAreOwn(s, i)
    ensures Tracked(CleanupReturn(s, id), i) && LeasesAreOwn(CleanupReturn(s, id), i)
  {
  }

  lemma RenewReturnKeepsTables(s: State, id: SessionId, i: SessionId)
    requires Tracked(s, i) && LeasesAreOwn(s, i)
    ensures Tracked(RenewReturn(s, id), i) && LeasesAreOwn(RenewReturn(s, id), i)
  {
  }

  lemma StopReturnKeepsTables(s: State, id: SessionId, i: SessionId)
    requires Tracked(s, i) && LeasesAreOwn(s, i)
    ensures Tracked(StopReturn(s, id), i) && LeasesAreOwn(StopReturn(s, id), i)
  {
  }

  lemma StartCallKeepsLeases(s: State, profile: Option<Key>, i: SessionId, k: Key)
    requires Inv(s)
    ensures LeaseStands(StartCall(s, profile), i) && KeyOk(StartCall(s, profile), k)
  {
    assert SessionOk(s, i) && KeyOk(s, k);
    assert SessionOk(s, s.nextSession);
  }

  lemma AcquireStepKeepsStands(s: State, id: SessionId, i: SessionId)
    requires Inv(s)
    ensures LeaseStands(AcquireStep(s, id), i)
  {
    assert SessionOk(s, i);
    assert TokenOk(s, s.nextToken);
    if id in s.starts && s.starts[id].Acquiring? { assert ReleaseOk(s, Lease(s.starts[id].key, s.nextToken)); }
  }

  lemma AcquireStepKeepsKey(s: State, id: SessionId, k: Key)
    requires Inv(s)
    ensures KeyOk(AcquireStep(s, id), k)
  {
    assert KeyOk(s, k);
    assert TokenOk(s, s.nextToken);
  }

  lemma AcquireFailureKeepsLeases(s: State, id: SessionId, i: SessionId, k: Key)
    requires Inv(s)
    ensures LeaseStands(AcquireFailure(s, id), i) && KeyOk(AcquireFailure(s, id), k)
  {
    assert SessionOk(s, i) && KeyOk(s, k);
  }

  lemma AcquireReturnKeepsStands(s: State, id: SessionId, i: SessionId)
    requires Inv(s)
    ensures LeaseStands(AcquireReturn(s, id), i)
  {
    assert SessionOk(s, i);
  }

  lemma AcquireReturnKeepsKey(s: State, id: SessionId, k: Key)
    requires Inv(s)
    ensures KeyOk(AcquireReturn(s, id), k)
  {
    assert KeyOk(s, k);
    assert SessionOk(s, id);
  }

  lemma LaunchReturnKeepsLeases(s: State, id: SessionId, ok: bool, i: SessionId, k: Key)
    requires Inv(s)
    ensures LeaseStands(LaunchReturn(s, id, ok), i) && KeyOk(LaunchReturn(s, id, ok), k)
  {
    assert SessionOk(s, i) && KeyOk(s, k);
  }

  lemma CleanupReturnKeepsLeases(s: State, id: SessionId, i: SessionId, k: Key)
    requires Inv(s)
    ensures LeaseStands(CleanupReturn(s, id), i) && KeyOk(CleanupReturn(s, id), k)
  {
    assert SessionOk(s, i) && KeyOk(s, k);
    assert SessionOk(s, id);
  }

  lemma StopCallKeepsLeases(s: State, id: SessionId, i: SessionId, k: Key)
    requires Inv(s)
    ensures LeaseStands(StopCall(s, id), i) && KeyOk(StopCall(s, id), k)
  {
    assert SessionOk(s, i) && KeyOk(s, k);
  }

  lemma StopReturnKeepsStands(s: State, id: SessionId, i: SessionId)
    requires Inv(s)
    ensures LeaseStands(StopReturn(s, id), i)
  {
    assert SessionOk(s, i);
    assert SessionOk(s, id);
  }

  lemma StopReturnKeepsKey(s: State, id: SessionId, k: Key)
    requires Inv(s)
    ensures KeyOk(StopReturn(s, id), k)
  {
    assert KeyOk(s, k);
  }

  lemma TimerStepKeepsLeases(s: State, id: SessionId, i: SessionId, k: Key)
    requires Inv(s)
    ensures LeaseStands(TimerStep(s, id), i) && KeyOk(TimerStep(s, id), k)
  {
    assert SessionOk(s, i) && KeyOk(s, k);
  }

  lemma RenewStepKeepsLeases(s: State, id: SessionId, i: SessionId, k: Key)
    requires Inv(s)
    ensures LeaseStands(RenewStep(s, id), i) && KeyOk(RenewStep(s, id), k)
  {
    assert SessionOk(s, i) && KeyOk(s, k);
  }

  lemma RenewReturnKeepsStands(s: State, id: SessionId, i: SessionId)
    requires Inv(s)
    ensures LeaseStands(RenewReturn(s, id), i)
  {
    assert SessionOk(s, i) && SessionOk(s, id);
  }

  lemma RenewReturnKeepsKey(s: State, id: SessionId, k: Key)
    requires Inv(s)
    ensures KeyOk(RenewReturn(s, id), k)
  {
    assert KeyOk(s, k) && SessionOk(s, id);
  }

  lemma LossStepKeepsLeases(s: State, id: SessionId, i: SessionId, k: Key)
    requires Inv(s)
    ensures LeaseStands(LossStep(s, id), i) && KeyOk(LossStep(s, id), k)
  {
    assert SessionOk(s, i) && KeyOk(s, k);
  }

  lemma ReleaseStepKeepsStands(s: State, l: Lease, i: SessionId)
    requires Inv(s)
    ensures LeaseStands(ReleaseStep(s, l), i)
  {
    assert SessionOk(s, i);
  }

  lemma ReleaseStepKeepsKey(s: State, l: Lease, k: Key)
    requires Inv(s)
    ensures KeyOk(ReleaseStep(s, l), k)
  {
    assert KeyOk(s, k);
  }

  lemma LapseStepKeepsLeases(s: State, key: Key, i: SessionId, k: Key)
    requires Inv(s)
    ensures LeaseStands(LapseStep(s, key), i) && KeyOk(LapseStep(s, key), k)
  {
    assert SessionOk(s, i) && KeyOk(s, k);
    assert KeyOk(s, key);
  }

  lemma ForeignAcquireStepKeepsLeases(s: State, key: Key, i: SessionId, k: Key)
    requires Inv(s)
    ensures LeaseStands(ForeignAcquireStep(s, key), i) && KeyOk(ForeignAcquireStep(s, key), k)
  {
    assert SessionOk(s, i) && KeyOk(s, k);
    assert TokenOk(s, s.nextToken);
  }

  lemma ForeignReleaseStepKeepsLeases(s: State, key: Key, i: SessionId, k: Key)
    requires Inv(s)
    ensures LeaseStands(ForeignReleaseStep(s, key), i) && KeyOk(ForeignReleaseStep(s, key), k)
  {
    assert SessionOk(s, i) && KeyOk(s, k);
  }

  lemma StepKeepsTables(s: State, e: Event, i: SessionId)
    requires Inv(s)
    ensures Tracked(Step(s, e), i) && LeasesAreOwn(Step(s, e), i)
  {
    assert SessionOk(s, i) && TokenOk(s, s.nextToken);
    if e.AcquireReturns? {
      AcquireReturnKeepsTables(s, e.id, i);
    } else if e.CleanupReturns? {
      CleanupReturnKeepsTables(s, e.id, i);
    } else if e.StopReturns? {
      StopReturnKeepsTables(s, e.id, i);
    } else if e.RenewReturns? {
      RenewReturnKeepsTables(s, e.id, i);
    } else if IsRenewal(e) {
      RenewalKeepsTracked(s, e, i);
      RenewalKeepsOwn(s, e, i);
    } else if IsStarting(e) {
      StartingKeepsTracked(s, e, i);
      OtherKeepsOwn(s, e, i);
    } else {
      OtherKeepsTracked(s, e, i);
      OtherKeepsOwn(s, e, i);
    }
  }

  lemma StepKeepsLeases(s: State, e: Event, i: SessionId, k: Key)
    requires Inv(s)
    ensures LeaseStands(Step(s, e), i) && KeyOk(Step(s, e), k)
  {
    match e
    case CallStart(profile) => StartCallKeepsLeases(s, profile, i, k);
    case AcquireEffect(id) =>
      AcquireStepKeepsStands(s, id, i);
      AcquireStepKeepsKey(s, id, k);
    case AcquireFails(id) => AcquireFailureKeepsLeases(s, id, i, k);
    case AcquireReturns(id) =>
      AcquireReturnKeepsStands(s, id, i);
      AcquireReturnKeepsKey(s, id, k);
    case LaunchReturns(id, ok) => LaunchReturnKeepsLeases(s, id, ok, i, k);
    case CleanupReturns(id) => CleanupReturnKeepsLeases(s, id, i, k);
    case CallStop(id) => StopCallKeepsLeases(s, id, i, k);
    case StopReturns(id) =>
      StopReturnKeepsStands(s, id, i);
      StopReturnKeepsKey(s, id, k);
    case TimerFires(id) => TimerStepKeepsLeases(s, id, i, k);
    case RenewEffect(id) => RenewStepKeepsLeases(s, id, i, k);
    case RenewReturns(id) =>
      RenewReturnKeepsStands(s, id, i);
      RenewReturnKeepsKey(s, id, k);
    case LossReported(id) => LossStepKeepsLeases(s, id, i, k);
    case ReleaseEffect(l) =>
      ReleaseStepKeepsStands(s, l, i);
      ReleaseStepKeepsKey(s, l, k);
    case Lapse(key) => LapseStepKeepsLeases(s, key, i, k);
    case ForeignAcquire(key) => ForeignAcquireStepKeepsLeases(s, key, i, k);
    case ForeignRelease(key) => ForeignReleaseStepKeepsLeases(s, key, i, k);
  }

  lemma StepKeepsTokens(s: State, e: Event, t: Token)
    requires Inv(s)
    ensures TokenOk(Step(s, e), t)
  {
    assert TokenOk(s, t);
    if e.Lapse? { assert KeyOk(s, e.key); }
  }

  lemma StepKeepsReleases(s: State, e: Event, l: Lease)
    requires Inv(s)
    ensures ReleaseOk(Step(s, e), l)
  {
    assert ReleaseOk(s, l) && TokenOk(s, s.nextToken);
    if e.CleanupReturns? || e.StopReturns? || e.RenewReturns? { assert SessionOk(s, e.id); }
  }

  lemma StepKeepsInv(s: State, e: Event)
    requires Inv(s)
    ensures Inv(Step(s, e))
  {
    var t := Step(s, e);
    forall i ensures SessionOk(t, i) {
      StepKeepsTables(s, e, i);
      StepKeepsLeases(s, e, i, Key("", ""));
    }
    forall k ensures KeyOk(t, k) { StepKeepsLeases(s, e, 0, k); }
    forall n ensures TokenOk(t, n) { StepKeepsTokens(s, e, n); }
    forall l ensures ReleaseOk(t, l) { StepKeepsReleases(s, e, l); }
  }

  lemma {:induction false} ReachableInv(es: seq<Event>, n: nat)
    requires n <= |es|
    ensures Inv(StateAt(es, n))
  {
    if n > 0 {
      ReachableInv(es, n - 1);
      StepKeepsInv(StateAt(es, n - 1), es[n - 1]);
    }
  }

  // ---------------------------------------------------------------- what a caller sees

  /** No start, stop or loss of this session is under way, and no release of its leases. */
  ghost predicate Settled(s: State, id: SessionId) {
    && id !in s.starts && id !in s.stops && id !in s.losses
    && forall l :: l in s.releases && l.token in s.grants ==> s.grants[l.token].id != id
  }

  /** The session acquired the token that holds this key. */
  predicate HoldsFor(s: State, key: Key, id: SessionId) {
    key in s.held && s.held[key] in s.grants && s.grants[s.held[key]].id == id
  }

  /** A stopped or failed session leaves no profile leased, even with a renewal still in flight. */
  lemma DepartedSessionsHoldNothing(es: seq<Event>, n: nat, id: SessionId, key: Key)
    requires n <= |es|
    requires Settled(StateAt(es, n), id) && id !in StateAt(es, n).sessions
    ensures !HoldsFor(StateAt(es, n), key, id)
  {
    var s := StateAt(es, n);
    ReachableInv(es, n);
    assert KeyOk(s, key) && SessionOk(s, id);
  }

  /**
    A live session owns a lease exactly when it is persistent, and it holds exactly its own key
    until that lease lapses.
   */
  lemma LiveSessionsHoldTheirProfile(es: seq<Event>, n: nat, id: SessionId, key: Key)
    requires n <= |es|
    requires Settled(StateAt(es, n), id) && id in StateAt(es, n).sessions
    ensures var s := StateAt(es, n);
            && (id in s.keyOf <==> id in s.active)
            && (HoldsFor(s, key, id) <==>
                id in s.active && key == s.keyOf[id] && s.active[id].lease.token !in s.lapsed)
  {
    var s := StateAt(es, n);
    ReachableInv(es, n);
    assert KeyOk(s, key) && SessionOk(s, id);
  }

  ghost predicate Quiescent(s: State) { forall id :: Settled(s, id) }

  /** A live persistent session with this key whose lease did not lapse. */
  predicate LiveOwner(s: State, id: SessionId, key: Key) {
    && id in s.sessions && id in s.keyOf && s.keyOf[id] == key
    && id in s.active && s.active[id].lease.token !in s.lapsed
  }

  /** The keys this manager has leased are exactly those of its live persistent sessions whose leases did not lapse. */
  lemma QuiescentHoldsExactlyItsLeases(es: seq<Event>, n: nat, key: Key)
    requires n <= |es| && Quiescent(StateAt(es, n))
    ensures var s := StateAt(es, n);
            && s.active.Keys == s.keyOf.Keys <= s.sessions
            && (key in s.held && s.held[key] in s.grants <==> exists id :: LiveOwner(s, id, key))
            && (forall id :: HoldsFor(s, key, id) <==> LiveOwner(s, id, key))
  {
    var s := StateAt(es, n);
    ReachableInv(es, n);
    forall id ensures (id in s.active <==> id in s.keyOf) && (id in s.active ==> id in s.sessions) {
      assert SessionOk(s, id) && Settled(s, id);
    }
    forall id ensures HoldsFor(s, key, id) <==> LiveOwner(s, id, key) {
      assert Settled(s, id);
      if id in s.sessions {
        LiveSessionsHoldTheirProfile(es, n, id, key);
      } else {
        DepartedSessionsHoldNothing(es, n, id, key);
      }
    }
    if key in s.held && s.held[key] in s.grants { assert HoldsFor(s, key, s.grants[s.held[key]].id); }
  }

  /** Two live sessions share a profile only after one of them lost its lease to a lapse. */
  lemma NoTwoLiveOwners(es: seq<Event>, n: nat, a: SessionId, b: SessionId)
    requires n <= |es| && a != b
    requires Live(StateAt(es, n), a) && Live(StateAt(es, n), b)
    requires StateAt(es, n).active[a].lease.key == StateAt(es, n).active[b].lease.key
    ensures var s := StateAt(es, n);
            s.active[a].lease.token in s.lapsed || s.active[b].lease.token in s.lapsed
  {
    var s := StateAt(es, n);
    ReachableInv(es, n);
    assert SessionOk(s, a) && SessionOk(s, b);
  }

  /** A lease is renewed through one request at a time: no timer fires while one is in flight. */
  lemma OneRenewalInFlight(es: seq<Event>, n: nat, id: SessionId)
    requires n <= |es| && id in StateAt(es, n).renewals
    ensures TimerStep(StateAt(es, n), id) == StateAt(es, n)
  {
    ReachableInv(es, n);
    assert SessionOk(StateAt(es, n), id);
  }
}
