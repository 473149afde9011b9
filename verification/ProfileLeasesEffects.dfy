/**
  What every event does to each table of the session manager and of the lease manager, and that a
  live session never stops renewing its lease.
 */
module ProfileLeasesEffects {
  import opened Wrappers
  import opened ProfileLeases
  import opened ProfileLeasesRuns

  // ---------------------------------------------------------------- renewal goes on

  /** A live session's next renewal is scheduled or under way. */
  predicate KeepsRenewing(s: State, id: SessionId) { Live(s, id) ==> id in s.armed || id in s.renewals }

  lemma ReturnKeepsRenewing(s: State, e: Event, id: SessionId)
    requires KeepsRenewing(s, id) && OneRenewal(s, id) && OwnershipIsTracked(s, id) && IsReturn(e)
    ensures KeepsRenewing(Step(s, e), id)
  {
  }

  lemma OtherKeepsRenewing(s: State, e: Event, id: SessionId)
    requires KeepsRenewing(s, id) && Tracked(s, id) && !IsReturn(e)
    ensures KeepsRenewing(Step(s, e), id)
  {
    assert s.nextSession !in s.active || id != s.nextSession;
  }

  lemma StepKeepsRenewing(s: State, e: Event, id: SessionId)
    requires KeepsRenewing(s, id) && Inv(s)
    ensures KeepsRenewing(Step(s, e), id)
  {
    assert SessionOk(s, id);
    if IsReturn(e) { ReturnKeepsRenewing(s, e, id); } else { OtherKeepsRenewing(s, e, id); }
  }

  lemma {:induction false} ReachableKeepsRenewing(es: seq<Event>, n: nat, id: SessionId)
    requires n <= |es|
    ensures KeepsRenewing(StateAt(es, n), id)
  {
    if n > 0 {
      ReachableKeepsRenewing(es, n - 1, id);
      ReachableInv(es, n - 1);
      StepKeepsRenewing(StateAt(es, n - 1), es[n - 1], id);
    }
  }

  /** In every run a live session that owns a lease has either its renewal timer armed or one renewal in flight. */
  lemma LiveSessionsKeepRenewing(es: seq<Event>, n: nat, id: SessionId)
    requires n <= |es| && Live(StateAt(es, n), id)
    ensures var s := StateAt(es, n);
      && (id in s.armed <==> id !in s.renewals)
      && (id in s.renewals ==> s.renewals[id].owned == s.active[id])
  {
    ReachableKeepsRenewing(es, n, id);
    ReachableInv(es, n);
    assert SessionOk(StateAt(es, n), id);
  }

  // ---------------------------------------------------------------- one session's entries

  function PhaseOf(s: State, id: SessionId): Option<StartPhase> {
    if id in s.starts then Some(s.starts[id]) else None
  }

  function LeaseOf(s: State, id: SessionId): Option<Lease> {
    if id in s.active then Some(s.active[id].lease) else None
  }

  function RenewalOf(s: State, id: SessionId): Option<RenewPhase> {
    if id in s.renewals then Some(s.renewals[id].phase) else None
  }

  function HeldBy(s: State, key: Key): Option<Token> { if key in s.held then Some(s.held[key]) else None }

  /** The next step of a start, by the phase it is in. */
  function NextStart(en: Entry, id: SessionId): Option<StartPhase> {
    var e, s := en.event, en.before;
    if e.CallStart? && id == s.nextSession then
      Some(if e.profile.Some? then Acquiring(e.profile.value) else Launching)
    else match PhaseOf(s, id)
      case Some(Acquiring(key)) =>
        if e == AcquireEffect(id) then Some(if key in s.held then Denied else Granted(Lease(key, s.nextToken)))
        else if e == AcquireFails(id) then Some(Denied) else PhaseOf(s, id)
      case Some(Granted(_)) => if e == AcquireReturns(id) then Some(Launching) else PhaseOf(s, id)
      case Some(Denied) => if e == AcquireReturns(id) then None else PhaseOf(s, id)
      case Some(Launching) =>
        if e == LaunchReturns(id, true) then None
        else if e == LaunchReturns(id, false) then Some(CleaningUp) else PhaseOf(s, id)
      case Some(CleaningUp) => if e == CleanupReturns(id) then None else PhaseOf(s, id)
      case None => None
  }

  /** A start without a profile registers its session at once, the others once their lease has arrived. */
  predicate Registers(en: Entry, id: SessionId) {
    || (en.event == CallStart(None) && id == en.before.nextSession)
    || (en.event == AcquireReturns(id) && PhaseOf(en.before, id).Some? && PhaseOf(en.before, id).value.Granted?)
  }

  /** A session goes when a stop of it is done or its launch fails. */
  predicate Deregisters(en: Entry, id: SessionId) {
    || (en.event == StopReturns(id) && id in en.before.stops)
    || (en.event == LaunchReturns(id, false) && PhaseOf(en.before, id) == Some(Launching))
  }

  /** A stopped or cleaned-up session gives its lease up. */
  predicate GivesUp(en: Entry, id: SessionId) {
    || (en.event == StopReturns(id) && id in en.before.stops)
    || (en.event == CleanupReturns(id) && PhaseOf(en.before, id) == Some(CleaningUp))
  }

  predicate Loses(en: Entry, id: SessionId) {
    en.event == RenewReturns(id) && RenewalOf(en.before, id) == Some(Lost) && id in en.before.active
  }

  /** A confirmed renewal is kept for a live session only. */
  predicate Renews(en: Entry, id: SessionId) {
    en.event == RenewReturns(id) && RenewalOf(en.before, id) == Some(Confirmed) && Live(en.before, id)
  }

  predicate Granting(en: Entry, id: SessionId) {
    en.event == AcquireReturns(id) && PhaseOf(en.before, id).Some? && PhaseOf(en.before, id).value.Granted?
  }

  predicate StartMoves(en: Entry, id: SessionId) { PhaseOf(en.after, id) == NextStart(en, id) }

  predicate TableMoves(en: Entry, id: SessionId) {
    id in en.after.sessions <==> Registers(en, id) || (id in en.before.sessions && !Deregisters(en, id))
  }

  predicate LeaseMoves(en: Entry, id: SessionId) {
    LeaseOf(en.after, id) ==
      if Granting(en, id) then Some(en.before.starts[id].lease)
      else if GivesUp(en, id) || Loses(en, id) then None
      else LeaseOf(en.before, id)
  }

  predicate TimerMoves(en: Entry, id: SessionId) {
    id in en.after.armed <==>
      Granting(en, id) || Renews(en, id)
      || (id in en.before.armed && en.event != TimerFires(id) && !GivesUp(en, id) && !Loses(en, id))
  }

  predicate RenewalMoves(en: Entry, id: SessionId) {
    var e, s := en.event, en.before;
    RenewalOf(en.after, id) ==
      if e == TimerFires(id) && id in s.armed then Some(Sent)
      else if e == RenewEffect(id) && RenewalOf(s, id) == Some(Sent) then
        Some(if Holds(s, s.renewals[id].owned.lease) then Confirmed else Lost)
      else if e == RenewReturns(id) && RenewalOf(s, id) != Some(Sent) then None
      else RenewalOf(s, id)
  }

  /** A loss is reported once, and stops the session; a stop call reaches a registered session. */
  predicate StopMoves(en: Entry, id: SessionId) {
    var e, s, u := en.event, en.before, en.after;
    var reported := e == LossReported(id) && id in s.losses;
    && u.losses[id] == s.losses[id] + (if Loses(en, id) then 1 else 0) - (if reported then 1 else 0)
    && u.stops[id] == s.stops[id] + (if (e == CallStop(id) || reported) && id in s.sessions then 1 else 0)
                      - (if e == StopReturns(id) && id in s.stops then 1 else 0)
  }

  datatype Entry = Entry(event: Event, before: State, after: State)

  function EntryAt(es: seq<Event>, n: nat): Entry
    requires n < |es|
  {
    Entry(es[n], StateAt(es, n), StateAt(es, n + 1))
  }

  ghost predicate SessionMoves(en: Entry, id: SessionId) {
    StartMoves(en, id) && TableMoves(en, id) && LeaseMoves(en, id) && TimerMoves(en, id) && RenewalMoves(en, id)
  }

  lemma StartCallMoves(s: State, profile: Option<Key>, id: SessionId)
    requires OneRenewal(s, id)
    ensures SessionMoves(Entry(CallStart(profile), s, StartCall(s, profile)), id)
  {
  }

  lemma AcquireStepMoves(s: State, x: SessionId, id: SessionId)
    requires OneRenewal(s, id)
    ensures SessionMoves(Entry(AcquireEffect(x), s, AcquireStep(s, x)), id)
  {
  }

  lemma AcquireFailureMoves(s: State, x: SessionId, id: SessionId)
    requires OneRenewal(s, id)
    ensures SessionMoves(Entry(AcquireFails(x), s, AcquireFailure(s, x)), id)
  {
  }

  lemma AcquireReturnMoves(s: State, x: SessionId, id: SessionId)
    requires OneRenewal(s, id)
    ensures SessionMoves(Entry(AcquireReturns(x), s, AcquireReturn(s, x)), id)
  {
  }

  lemma LaunchReturnMoves(s: State, x: SessionId, ok: bool, id: SessionId)
    requires OneRenewal(s, id)
    ensures SessionMoves(Entry(LaunchReturns(x, ok), s, LaunchReturn(s, x, ok)), id)
  {
  }

  lemma CleanupReturnMoves(s: State, x: SessionId, id: SessionId)
    requires OneRenewal(s, id)
    ensures SessionMoves(Entry(CleanupReturns(x), s, CleanupReturn(s, x)), id)
  {
  }

  lemma StopCallMoves(s: State, x: SessionId, id: SessionId)
    requires OneRenewal(s, id)
    ensures SessionMoves(Entry(CallStop(x), s, StopCall(s, x)), id)
  {
  }

  /** The entries of `id` stay as they are. */
  predicate Untouched(s: State, u: State, id: SessionId) {
    && PhaseOf(u, id) == PhaseOf(s, id) && (id in u.sessions <==> id in s.sessions) && LeaseOf(u, id) == LeaseOf(s, id)
    && (id in u.armed <==> id in s.armed) && RenewalOf(u, id) == RenewalOf(s, id)
  }

  lemma UntouchedMoves(s: State, e: Event, u: State, id: SessionId)
    requires (e.StopReturns? || e.RenewReturns?) && e.id != id && Untouched(s, u, id)
    ensures SessionMoves(Entry(e, s, u), id)
  {
  }

  lemma OtherStopTouchesNothing(s: State, x: SessionId, id: SessionId)
    requires x != id
    ensures Untouched(s, StopReturn(s, x), id)
  {
    ReleaseTouchesNothing(
      s.(stops := s.stops - multiset{x}, sessions := s.sessions - {x}, keyOf := s.keyOf - {x}), x, id);
  }

  lemma ReleaseTouchesNothing(s: State, x: SessionId, id: SessionId)
    requires x != id
    ensures Untouched(s, ReleaseProfile(s, x), id)
  {
  }

  lemma OtherRenewalTouchesNothing(s: State, x: SessionId, id: SessionId)
    requires x != id
    ensures Untouched(s, RenewReturn(s, x), id)
  {
  }

  /** What giving up a lease leaves of a session's entries. */
  lemma ReleaseForgets(s: State, id: SessionId)
    requires OneRenewal(s, id)
    ensures var u := ReleaseProfile(s, id);
      && id !in u.active && id !in u.armed
      && u.starts == s.starts && u.sessions == s.sessions && u.renewals == s.renewals
  {
  }

  lemma OwnStopReturnMoves(s: State, id: SessionId)
    requires OneRenewal(s, id)
    ensures SessionMoves(Entry(StopReturns(id), s, StopReturn(s, id)), id)
  {
    if id in s.stops {
      ReleaseForgets(
        s.(stops := s.stops - multiset{id}, sessions := s.sessions - {id}, keyOf := s.keyOf - {id}), id);
    }
  }

  lemma TimerStepMoves(s: State, x: SessionId, id: SessionId)
    requires OneRenewal(s, id)
    ensures SessionMoves(Entry(TimerFires(x), s, TimerStep(s, x)), id)
  {
  }

  lemma RenewStepMoves(s: State, x: SessionId, id: SessionId)
    requires OneRenewal(s, id)
    ensures SessionMoves(Entry(RenewEffect(x), s, RenewStep(s, x)), id)
  {
  }

  lemma OwnRenewReturnMoves(s: State, id: SessionId)
    requires OneRenewal(s, id)
    ensures SessionMoves(Entry(RenewReturns(id), s, RenewReturn(s, id)), id)
  {
  }

  lemma OwnReturnMoves(s: State, e: Event, id: SessionId)
    requires OneRenewal(s, id) && (e == StopReturns(id) || e == RenewReturns(id))
    ensures SessionMoves(Entry(e, s, Step(s, e)), id)
  {
    if e.StopReturns? { OwnStopReturnMoves(s, id); } else { OwnRenewReturnMoves(s, id); }
  }

  lemma OtherReturnTouchesNothing(s: State, e: Event, id: SessionId)
    requires (e.StopReturns? || e.RenewReturns?) && e.id != id
    ensures Untouched(s, Step(s, e), id)
  {
    if e.StopReturns? { OtherStopTouchesNothing(s, e.id, id); } else { OtherRenewalTouchesNothing(s, e.id, id); }
  }

  lemma ReturnMoves(s: State, e: Event, id: SessionId)
    requires OneRenewal(s, id) && (e.StopReturns? || e.RenewReturns?)
    ensures SessionMoves(Entry(e, s, Step(s, e)), id)
  {
    if e.id == id {
      OwnReturnMoves(s, e, id);
    } else {
      OtherReturnTouchesNothing(s, e, id);
      UntouchedMoves(s, e, Step(s, e), id);
    }
  }

  lemma LossStepMoves(s: State, x: SessionId, id: SessionId)
    requires OneRenewal(s, id)
    ensures SessionMoves(Entry(LossReported(x), s, LossStep(s, x)), id)
  {
  }

  lemma ReleaseStepMoves(s: State, l: Lease, id: SessionId)
    ensures SessionMoves(Entry(ReleaseEffect(l), s, ReleaseStep(s, l)), id)
  {
  }

  lemma KeyEventMoves(s: State, e: Event, id: SessionId)
    requires e.Lapse? || e.ForeignAcquire? || e.ForeignRelease?
    ensures SessionMoves(Entry(e, s, Step(s, e)), id)
  {
  }

  lemma StartEventMoves(s: State, e: Event, id: SessionId)
    requires OneRenewal(s, id) && (IsStarting(e) || e.AcquireReturns? || e.CleanupReturns?)
    ensures SessionMoves(Entry(e, s, Step(s, e)), id)
  {
    match e
    case CallStart(profile) => StartCallMoves(s, profile, id);
    case AcquireEffect(x) => AcquireStepMoves(s, x, id);
    case AcquireFails(x) => AcquireFailureMoves(s, x, id);
    case AcquireReturns(x) => AcquireReturnMoves(s, x, id);
    case LaunchReturns(x, ok) => LaunchReturnMoves(s, x, ok, id);
    case CleanupReturns(x) => CleanupReturnMoves(s, x, id);
  }

  lemma LaterEventMoves(s: State, e: Event, id: SessionId)
    requires OneRenewal(s, id) && !IsStarting(e) && !e.AcquireReturns? && !e.CleanupReturns?
    ensures SessionMoves(Entry(e, s, Step(s, e)), id)
  {
    match e
    case CallStop(x) => StopCallMoves(s, x, id);
    case StopReturns(_) => ReturnMoves(s, e, id);
    case TimerFires(x) => TimerStepMoves(s, x, id);
    case RenewEffect(x) => RenewStepMoves(s, x, id);
    case RenewReturns(_) => ReturnMoves(s, e, id);
    case LossReported(x) => LossStepMoves(s, x, id);
    case ReleaseEffect(l) => ReleaseStepMoves(s, l, id);
    case _ => KeyEventMoves(s, e, id);
  }

  lemma RenewReturnMovesStops(s: State, x: SessionId, id: SessionId)
    requires OneRenewal(s, id)
    ensures StopMoves(Entry(RenewReturns(x), s, RenewReturn(s, x)), id)
  {
  }

  lemma StopReturnMovesStops(s: State, x: SessionId, id: SessionId)
    ensures StopMoves(Entry(StopReturns(x), s, StopReturn(s, x)), id)
  {
  }

  lemma LossStepMovesStops(s: State, x: SessionId, id: SessionId)
    ensures StopMoves(Entry(LossReported(x), s, LossStep(s, x)), id)
  {
  }

  lemma OtherEventMovesStops(s: State, e: Event, id: SessionId)
    requires !e.RenewReturns? && !e.StopReturns? && !e.LossReported?
    ensures StopMoves(Entry(e, s, Step(s, e)), id)
  {
    assert !e.CallStop? ==> Step(s, e).stops == s.stops && Step(s, e).losses == s.losses;
  }

  lemma StepMovesStops(s: State, e: Event, id: SessionId)
    requires OneRenewal(s, id)
    ensures StopMoves(Entry(e, s, Step(s, e)), id)
  {
    match e
    case RenewReturns(x) => RenewReturnMovesStops(s, x, id);
    case StopReturns(x) => StopReturnMovesStops(s, x, id);
    case LossReported(x) => LossStepMovesStops(s, x, id);
    case _ => OtherEventMovesStops(s, e, id);
  }

  /** Every stop and every reported loss of every run. */
  lemma StopsAreCarriedOut(es: seq<Event>, n: nat, id: SessionId)
    requires n < |es|
    ensures StopMoves(EntryAt(es, n), id)
  {
    var s, e := StateAt(es, n), es[n];
    ReachableInv(es, n);
    assert SessionOk(s, id) && EntryAt(es, n) == Entry(e, s, Step(s, e));
    StepMovesStops(s, e, id);
  }

  /** Every event of every run moves a session's entries just so. */
  lemma EntriesMoveByPhase(es: seq<Event>, n: nat, id: SessionId)
    requires n < |es|
    ensures SessionMoves(EntryAt(es, n), id)
  {
    var s, e := StateAt(es, n), es[n];
    ReachableInv(es, n);
    assert SessionOk(s, id) && EntryAt(es, n) == Entry(e, s, Step(s, e));
    if IsStarting(e) || e.AcquireReturns? || e.CleanupReturns? {
      StartEventMoves(s, e, id);
    } else {
      LaterEventMoves(s, e, id);
    }
  }

  // ---------------------------------------------------------------- the lease manager

  /** The leases one event gives back: those given up, and a renewal that comes too late for its session. */
  function GivenBack(en: Entry): multiset<Lease> {
    match en.event
    case StopReturns(id) =>
      if GivesUp(en, id) && id in en.before.active then multiset{en.before.active[id].lease} else multiset{}
    case CleanupReturns(id) =>
      if GivesUp(en, id) && id in en.before.active then multiset{en.before.active[id].lease} else multiset{}
    case RenewReturns(id) =>
      if RenewalOf(en.before, id) == Some(Confirmed) && !Live(en.before, id) then
        multiset{en.before.renewals[id].owned.lease}
      else multiset{}
    case _ => multiset{}
  }

  /** Who holds a key after an event. */
  function NextHolder(en: Entry, key: Key): Option<Token> {
    var s, h := en.before, HeldBy(en.before, key);
    match en.event
    case AcquireEffect(id) => if PhaseOf(s, id) == Some(Acquiring(key)) && h.None? then Some(s.nextToken) else h
    case ReleaseEffect(l) => if l in s.releases && l.key == key && h == Some(l.token) then None else h
    case Lapse(k) => if k == key then None else h
    case ForeignAcquire(k) => if k == key && h.None? then Some(s.nextToken) else h
    case ForeignRelease(k) => if k == key && h.Some? && h.value !in s.grants then None else h
    case _ => h
  }

  ghost predicate HolderMoves(en: Entry, key: Key) { HeldBy(en.after, key) == NextHolder(en, key) }

  ghost predicate ReleaseMoves(en: Entry) {
    var e, pending := en.event, en.before.releases;
    var done := if e.ReleaseEffect? && e.lease in pending then multiset{e.lease} else multiset{};
    en.after.releases == en.before.releases + GivenBack(en) - done
  }

  ghost predicate CounterMoves(en: Entry) {
    var e, s, u := en.event, en.before, en.after;
    && u.lapsed == s.lapsed + (if e.Lapse? && e.key in s.held then {s.held[e.key]} else {})
    && u.nextSession == s.nextSession + (if e.CallStart? then 1 else 0)
    && s.nextToken <= u.nextToken
  }

  lemma AcquireStepMovesHolder(s: State, x: SessionId, key: Key)
    ensures HolderMoves(Entry(AcquireEffect(x), s, AcquireStep(s, x)), key)
  {
  }

  lemma ReleaseStepMovesHolder(s: State, l: Lease, key: Key)
    ensures HolderMoves(Entry(ReleaseEffect(l), s, ReleaseStep(s, l)), key)
  {
  }

  lemma KeyEventMovesHolder(s: State, e: Event, key: Key)
    requires e.Lapse? || e.ForeignAcquire? || e.ForeignRelease?
    ensures HolderMoves(Entry(e, s, Step(s, e)), key)
  {
  }

  predicate TouchesKeys(e: Event) {
    e.AcquireEffect? || e.ReleaseEffect? || e.Lapse? || e.ForeignAcquire? || e.ForeignRelease?
  }

  lemma ReturnsKeepHolders(s: State, x: SessionId)
    ensures AcquireReturn(s, x).held == s.held && CleanupReturn(s, x).held == s.held
    ensures StopReturn(s, x).held == s.held && RenewReturn(s, x).held == s.held
  {
  }

  lemma StepsKeepHolders(s: State, x: SessionId, profile: Option<Key>, ok: bool)
    ensures StartCall(s, profile).held == s.held && AcquireFailure(s, x).held == s.held
    ensures LaunchReturn(s, x, ok).held == s.held && StopCall(s, x).held == s.held && LossStep(s, x).held == s.held
    ensures TimerStep(s, x).held == s.held && RenewStep(s, x).held == s.held
  {
  }

  lemma EventKeepsHolders(s: State, e: Event)
    requires !TouchesKeys(e)
    ensures Step(s, e).held == s.held
  {
    match e
    case CallStart(profile) => StepsKeepHolders(s, 0, profile, true);
    case LaunchReturns(x, ok) => StepsKeepHolders(s, x, None, ok);
    case AcquireReturns(x) => ReturnsKeepHolders(s, x);
    case CleanupReturns(x) => ReturnsKeepHolders(s, x);
    case StopReturns(x) => ReturnsKeepHolders(s, x);
    case RenewReturns(x) => ReturnsKeepHolders(s, x);
    case AcquireFails(x) => StepsKeepHolders(s, x, None, true);
    case CallStop(x) => StepsKeepHolders(s, x, None, true);
    case TimerFires(x) => StepsKeepHolders(s, x, None, true);
    case RenewEffect(x) => StepsKeepHolders(s, x, None, true);
    case LossReported(x) => StepsKeepHolders(s, x, None, true);
  }

  lemma OtherEventMovesHolder(s: State, e: Event, u: State, key: Key)
    requires !TouchesKeys(e) && u.held == s.held
    ensures HolderMoves(Entry(e, s, u), key)
  {
  }

  lemma RenewReturnMovesReleases(s: State, x: SessionId)
    requires OneRenewal(s, x)
    ensures ReleaseMoves(Entry(RenewReturns(x), s, RenewReturn(s, x)))
  {
  }

  lemma OtherReturnMovesReleases(s: State, e: Event)
    requires e.StopReturns? || e.CleanupReturns?
    ensures ReleaseMoves(Entry(e, s, Step(s, e)))
  {
  }

  lemma OtherEventMovesReleases(s: State, e: Event)
    requires !e.RenewReturns? && !e.StopReturns? && !e.CleanupReturns?
    ensures ReleaseMoves(Entry(e, s, Step(s, e)))
  {
    assert !e.ReleaseEffect? ==> Step(s, e).releases == s.releases;
  }

  lemma CountersMove(s: State, e: Event)
    ensures CounterMoves(Entry(e, s, Step(s, e)))
  {
  }

  /** Every event of every run moves the lease table and the releases on their way just so. */
  lemma LeaseTableMoves(es: seq<Event>, n: nat, key: Key)
    requires n < |es|
    ensures HolderMoves(EntryAt(es, n), key) && ReleaseMoves(EntryAt(es, n)) && CounterMoves(EntryAt(es, n))
  {
    var s, e := StateAt(es, n), es[n];
    ReachableInv(es, n);
    if IsReturn(e) { assert SessionOk(s, e.id); }
    assert EntryAt(es, n) == Entry(e, s, Step(s, e));
    CountersMove(s, e);
    if e.AcquireEffect? {
      AcquireStepMovesHolder(s, e.id, key);
    } else if e.ReleaseEffect? {
      ReleaseStepMovesHolder(s, e.lease, key);
    } else if e.Lapse? || e.ForeignAcquire? || e.ForeignRelease? {
      KeyEventMovesHolder(s, e, key);
    } else {
      EventKeepsHolders(s, e);
      OtherEventMovesHolder(s, e, Step(s, e), key);
    }
    if e.RenewReturns? {
      RenewReturnMovesReleases(s, e.id);
    } else if e.StopReturns? || e.CleanupReturns? {
      OtherReturnMovesReleases(s, e);
    } else {
      OtherEventMovesReleases(s, e);
    }
  }
}
