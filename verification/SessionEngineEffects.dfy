/**
  Which events of a run change what, told from the side of the outcome: for every session state the
  events that lead into it, for every action when it is aborted, moves on and settles, and how.
 */
module SessionEngineEffects {
  import opened Wrappers
  import opened SessionEngine
  import opened SessionEngineRuns

  // ---------------------------------------------------------------- the session state

  predicate Enters(en: Entry, target: SessionState) { en.after.state == target && en.before.state != target }

  /** The action in the slot, if it is in the given phase. */
  predicate Acts(en: Entry, phase: Phase) { en.before.slot.Some? && en.before.slot.value.phase == phase }

  predicate IsWrite(t: Task) { t.options.requireReady }

  /** An action for people that was let in during a pause, and so leaves it in place. */
  predicate KeepsThePause(en: Entry) {
    && en.before.slot.Some? && !IsWrite(en.before.slot.value.task) && en.before.slot.value.task.options.allowPaused
    && en.before.slot.value.prior in {PausedChallenge, HumanTakeover, UserControlled}
  }

  /** A challenge comes into sight while automation still has the session. */
  predicate Detects(en: Entry) {
    && en.before.state in {Starting, Ready, Busy, Errored}
    && ((en.event == ScanResult(true) && Acts(en, Scanning) && !KeepsThePause(en)) || en.event == BackgroundScan(true))
  }

  /** The body of an action for people puts the session into a state. */
  predicate BodyPuts(en: Entry, target: SessionState) {
    && en.event == BodySets(target) && Acts(en, Running)
    && !IsWrite(en.before.slot.value.task) && en.before.slot.value.task.options.allowPaused
  }

  predicate Stops(en: Entry) {
    && en.event.StopCall? && !en.before.stopping
    && (en.event.afterStart || en.before.state !in {Stopped, Starting})
  }

  predicate Starts(en: Entry) { en.event.StartCall? && en.before.state in {Busy, UserControlled, Stopped, Errored} }

  predicate AdmitsWrite(en: Entry) { TakesTurn(en) && Admitted(en.after) && IsWrite(en.after.slot.value.task) }

  predicate Launches(en: Entry) { en.event == StartLaunched(true) && en.before.starting > 0 }

  /** The active tab crashes, or a start fails: while it launches, or in the scan and audit after that. */
  predicate Breaks(en: Entry) {
    || en.event == Crash(true)
    || (en.event == StartLaunched(false) && en.before.starting > 0)
    || (en.event == StartDone(false) && en.before.concluding > 0)
  }

  /** A launch succeeds, an action for people says so, or a busy session gets its slot back. */
  predicate Readies(en: Entry) { Launches(en) || BodyPuts(en, Ready) || (Settles(en) && en.before.state == Busy) }

  /** For each state, the events that lead into it from another. */
  ghost predicate StateMoves(en: Entry) {
    var s := en.before;
    && (Enters(en, Starting) <==> Starts(en))
    && (Enters(en, Busy) <==> AdmitsWrite(en))
    && (Enters(en, PausedChallenge) <==> Detects(en) || (BodyPuts(en, PausedChallenge) && s.state != PausedChallenge))
    && (Enters(en, HumanTakeover) <==> BodyPuts(en, HumanTakeover) && s.state != HumanTakeover)
    && (Enters(en, UserControlled) <==> BodyPuts(en, UserControlled) && s.state != UserControlled)
    && (Enters(en, Stopping) <==> Stops(en) && s.state != Stopping)
    && (Enters(en, Stopped) <==> en.event == StopDone && s.stops > 0 && s.state != Stopped)
    && (Enters(en, Errored) <==> Breaks(en) && s.state != Errored)
    && (Enters(en, Ready) <==> Readies(en) && s.state != Ready)
  }

  lemma ActionStateMoves(maxQueue: nat, s: State, e: Event)
    requires Inv(maxQueue, s) && !IsSessionEvent(e)
    ensures StateMoves(Entry(e, s, Step(maxQueue, s, e)))
  {
  }

  lemma SessionStateMoves(maxQueue: nat, s: State, e: Event)
    requires Inv(maxQueue, s) && IsSessionEvent(e)
    ensures StateMoves(Entry(e, s, Step(maxQueue, s, e)))
  {
  }

  /** Every change of the session state in every run has its exact cause. */
  lemma StatesHaveTheirCauses(maxQueue: nat, es: seq<Event>, n: nat)
    requires n < |es|
    ensures StateMoves(Trace(maxQueue, es)[n])
  {
    var s := StateAt(maxQueue, es, n);
    ReachableInv(maxQueue, es, n);
    assert Trace(maxQueue, es)[n] == Entry(es[n], s, Step(maxQueue, s, es[n]));
    if IsSessionEvent(es[n]) {
      SessionStateMoves(maxQueue, s, es[n]);
    } else {
      ActionStateMoves(maxQueue, s, es[n]);
    }
  }

  /** Giving the slot back turns `BUSY` into `READY` and leaves every other state alone. */
  lemma SettlingRestoresReady(maxQueue: nat, es: seq<Event>, n: nat)
    requires n < |es| && Settles(Trace(maxQueue, es)[n])
    ensures var en := Trace(maxQueue, es)[n];
      && en.after.state == (if en.before.state == Busy then Ready else en.before.state)
      && en.after.depth == en.before.depth - 1 && en.after.activeAbort.None?
  {
    var s := StateAt(maxQueue, es, n);
    ReachableInv(maxQueue, es, n);
    assert Trace(maxQueue, es)[n] == Entry(es[n], s, Step(maxQueue, s, es[n]));
    if IsSessionEvent(es[n]) {
      SessionEventKeepsSlot(maxQueue, s, es[n]);
    } else {
      ActionSettles(maxQueue, s, es[n]);
    }
  }

  lemma SessionEventKeepsSlot(maxQueue: nat, s: State, e: Event)
    requires IsSessionEvent(e)
    ensures Step(maxQueue, s, e).slot.Some? == s.slot.Some?
  {
  }

  lemma ActionSettles(maxQueue: nat, s: State, e: Event)
    requires Inv(maxQueue, s) && !IsSessionEvent(e) && s.slot.Some? && Step(maxQueue, s, e).slot.None?
    ensures var u := Step(maxQueue, s, e);
      && u.state == (if s.state == Busy then Ready else s.state) && u.depth == s.depth - 1 && u.activeAbort.None?
  {
  }

  /** The bodies of stops and starts in flight, and whether a stop call still finds one. */
  ghost predicate FlightMoves(en: Entry) {
    var s, u := en.before, en.after;
    && u.stopping == (Stops(en) || (s.stopping && !Starts(en)))
    && u.stops == s.stops + (if Stops(en) then 1 else 0) - (if en.event.StopDone? && s.stops > 0 then 1 else 0)
    && u.starting == s.starting + (if Starts(en) then 1 else 0)
                     - (if en.event.StartLaunched? && s.starting > 0 then 1 else 0)
    && u.concluding == s.concluding + (if Launches(en) then 1 else 0)
                       - (if en.event.StartDone? && s.concluding > 0 then 1 else 0)
  }

  lemma FlightsAreCounted(maxQueue: nat, s: State, e: Event)
    ensures FlightMoves(Entry(e, s, Step(maxQueue, s, e)))
  {
    EveryStateIsListed(s.state);
  }

  lemma EveryStateIsListed(state: SessionState)
    ensures state !in {Ready, PausedChallenge, HumanTakeover, Starting, Stopping} ==>
              state in {Busy, UserControlled, Stopped, Errored}
  {
    match state case _ =>
  }

  // ---------------------------------------------------------------- submissions

  predicate ReservedByAnother(s: State, token: Option<nat>) { s.workflow.Some? && token != s.workflow }

  /** An action is refused at once for the first of three reasons, and otherwise joins the queue at the end as it is. */
  lemma SubmissionsAreAnswered(maxQueue: nat, es: seq<Event>, n: nat)
    requires n < |es| && es[n].Submit?
    ensures var en := Trace(maxQueue, es)[n];
      var s, u := en.before, en.after;
      var (reserved, hardStop) :=
        (ReservedByAnother(s, es[n].token), s.state == UserControlled && !es[n].options.allowUserControl);
      var full := CountAccepted(Trace(maxQueue, es), n) - CountSettled(Trace(maxQueue, es), n) == maxQueue;
      && Refusal(maxQueue, s, es[n].token, es[n].options) ==
           (if reserved then Some(SessionBusy) else if hardStop then Some(UserControlHardStop)
            else if full then Some(ResourceExhausted) else None)
      && (Accepts(en) <==> !reserved && !hardStop && !full)
      && u.queue == (if Accepts(en) then s.queue + [Task(s.nextId, es[n].token, es[n].options)] else s.queue)
  {
    var s := StateAt(maxQueue, es, n);
    QueueDepthIsExact(maxQueue, es, n);
    assert Trace(maxQueue, es)[n] == Entry(es[n], s, Step(maxQueue, s, es[n]));
  }

  /** An action in the queue or the slot is one that was submitted just so. */
  ghost predicate WasSubmitted(tr: seq<Entry>, n: nat, t: Task) {
    exists i :: 0 <= i < n <= |tr| && Accepts(tr[i]) && tr[i].before.nextId == t.id
                && tr[i].event == Submit(t.token, t.options)
  }

  lemma TaskFacts(maxQueue: nat, s: State, e: Event, t: Task)
    requires var u := Step(maxQueue, s, e); t in u.queue || (u.slot.Some? && u.slot.value.task == t)
    ensures var en := Entry(e, s, Step(maxQueue, s, e));
      || t in s.queue || (s.slot.Some? && s.slot.value.task == t)
      || (Accepts(en) && s.nextId == t.id && e == Submit(t.token, t.options))
  {
  }

  lemma {:induction false} ActionsAreTheSubmitted(maxQueue: nat, es: seq<Event>, n: nat, t: Task)
    requires n <= |es|
    requires var s := StateAt(maxQueue, es, n); t in s.queue || (s.slot.Some? && s.slot.value.task == t)
    ensures WasSubmitted(Trace(maxQueue, es), n, t)
  {
    if n > 0 {
      var s, e, tr := StateAt(maxQueue, es, n - 1), es[n - 1], Trace(maxQueue, es);
      TaskFacts(maxQueue, s, e, t);
      assert tr[n - 1] == Entry(e, s, Step(maxQueue, s, e));
      if t in s.queue || (s.slot.Some? && s.slot.value.task == t) {
        ActionsAreTheSubmitted(maxQueue, es, n - 1, t);
        var i :| 0 <= i < n - 1 && Accepts(tr[i]) && tr[i].before.nextId == t.id
                 && tr[i].event == Submit(t.token, t.options);
      }
    }
  }

  // ---------------------------------------------------------------- turns

  /** What an action meets at its turn, by the state the session is in. */
  function TurnAnswer(s: State, t: Task): Option<ErrorCode> {
    var write := t.options.requireReady;
    if t.id in s.cancelled then Some(if s.state == PausedChallenge then SessionPausedChallenge else ActionTimeout)
    else if ReservedByAnother(s, t.token) then Some(SessionBusy)
    else match s.state
      case Ready => None
      case Starting => if write then Some(InvalidState) else None
      case HumanTakeover => if write then Some(InvalidState) else None
      case PausedChallenge => if write || !t.options.allowPaused then Some(SessionPausedChallenge) else None
      case UserControlled => if write || !t.options.allowUserControl then Some(UserControlHardStop) else None
      case _ => Some(InvalidState)
  }

  /** The oldest action takes the free slot, and goes into the scan or fails with what its state answers. */
  lemma TurnsAreAnswered(maxQueue: nat, es: seq<Event>, n: nat)
    requires n < |es|
    ensures var en := Trace(maxQueue, es)[n];
      var s, u := en.before, en.after;
      && (TakesTurn(en) <==> es[n].Begin? && s.slot.None? && s.queue != [])
      && (TakesTurn(en) ==>
            var t := s.queue[0];
            && u.slot.value.task == t && u.queue == s.queue[1..] && u.slot.value.prior == s.state
            && u.slot.value.phase == (if TurnAnswer(s, t).Some? then Failing(TurnAnswer(s, t).value) else Scanning))
  {
    var s := StateAt(maxQueue, es, n);
    ReachableInv(maxQueue, es, n);
    assert Trace(maxQueue, es)[n] == Entry(es[n], s, Step(maxQueue, s, es[n]));
    if !es[n].Begin? {
      OnlyTurnsTakeTheSlot(maxQueue, s, es[n]);
    } else if s.slot.None? && s.queue != [] {
      TurnIsAnswered(maxQueue, s);
    }
  }

  lemma TurnIsAnswered(maxQueue: nat, s: State)
    requires Inv(maxQueue, s) && s.slot.None? && s.queue != []
    ensures var u, t := Step(maxQueue, s, Begin), s.queue[0];
      && u.slot.Some? && u.slot.value.task == t && u.queue == s.queue[1..] && u.slot.value.prior == s.state
      && u.slot.value.phase == (if TurnAnswer(s, t).Some? then Failing(TurnAnswer(s, t).value) else Scanning)
  {
  }

  lemma OnlyTurnsTakeTheSlot(maxQueue: nat, s: State, e: Event)
    requires !e.Begin?
    ensures s.slot.None? ==> Step(maxQueue, s, e).slot.None?
  {
  }

  // ---------------------------------------------------------------- aborts and phases

  /** The running action is aborted: by a challenge, a stop, a crash, its time limit or its caller. */
  predicate Aborts(en: Entry) {
    && en.before.slot.Some?
    && (|| Detects(en) || Stops(en) || en.event == Crash(true) || (en.event.Timeout? && Acts(en, Running))
        || en.event == Cancel(en.before.slot.value.task.id))
  }

  /** The code a failing action ends with. */
  function FailureCode(s: State, a: Slot, thrown: ErrorCode): ErrorCode {
    if !a.aborted then thrown else if s.state == PausedChallenge then SessionPausedChallenge else ActionTimeout
  }

  /** Where an action in a phase goes with an event; none means that it settles. */
  function NextPhase(en: Entry, a: Slot): Option<Phase> {
    match a.phase
    case Scanning => Some(if en.event.ScanResult? then Scanned else Scanning)
    case Scanned =>
      if en.event == ScanHooksDone(false) then Some(Failing(FailureCode(en.before, a, OperationFailed)))
      else if en.event != ScanHooksDone(true) then Some(Scanned)
      else if IsWrite(a.task) && en.before.state == PausedChallenge then Some(Failing(SessionPausedChallenge))
      else Some(Running)
    case Running =>
      if !en.event.BodyEnds? then Some(Running)
      else if en.event.ok && !a.aborted then None
      else Some(Failing(FailureCode(en.before, a, OperationFailed)))
    case Failing(code) => if en.event.AuditDone? then None else Some(a.phase)
  }

  ghost predicate ActionMoves(en: Entry) {
    var s, u := en.before, en.after;
    s.slot.Some? ==>
      && (u.slot.None? <==> NextPhase(en, s.slot.value).None?)
      && (u.slot.Some? ==>
            && u.slot.value.task == s.slot.value.task && u.slot.value.prior == s.slot.value.prior
            && (u.slot.value.aborted <==> s.slot.value.aborted || Aborts(en))
            && Some(u.slot.value.phase) == NextPhase(en, s.slot.value))
  }

  lemma PhaseEventMovesAction(maxQueue: nat, s: State, e: Event)
    requires Inv(maxQueue, s) && !IsSessionEvent(e)
    ensures ActionMoves(Entry(e, s, Step(maxQueue, s, e)))
  {
  }

  lemma SessionEventMovesAction(maxQueue: nat, s: State, e: Event)
    requires Inv(maxQueue, s) && IsSessionEvent(e)
    ensures ActionMoves(Entry(e, s, Step(maxQueue, s, e)))
  {
  }

  /** Every event takes the action in the slot where its phase says, and aborts it for the five reasons only. */
  lemma ActionsMoveByPhase(maxQueue: nat, es: seq<Event>, n: nat)
    requires n < |es|
    ensures ActionMoves(Trace(maxQueue, es)[n])
  {
    var s := StateAt(maxQueue, es, n);
    ReachableInv(maxQueue, es, n);
    assert Trace(maxQueue, es)[n] == Entry(es[n], s, Step(maxQueue, s, es[n]));
    if IsSessionEvent(es[n]) {
      SessionEventMovesAction(maxQueue, s, es[n]);
    } else {
      PhaseEventMovesAction(maxQueue, s, es[n]);
    }
  }

  // ---------------------------------------------------------------- an undisturbed write succeeds

  /** Events that neither disturb the action `id` nor touch the session state. */
  predicate Quiet(e: Event, id: nat) {
    match e
    case Submit(_, _) => true
    case Begin => true
    case ScanResult(pauses) => !pauses
    case ScanHooksDone(ok) => ok
    case BackgroundScan(pauses) => !pauses
    case BodySets(_) => true
    case AuditDone => true
    case Cancel(other) => other != id
    case Crash(active) => !active
    case StartDone(ok) => ok
    case WorkflowBegin => true
    case WorkflowEnd(_) => true
    case _ => false
  }

  function QuietPhase(phase: Phase, e: Event): Phase {
    if phase.Scanning? && e.ScanResult? then Scanned
    else if phase.Scanned? && e.ScanHooksDone? then Running
    else phase
  }

  /** How far an action has come that took its turn at `i`: a scan result comes first, then the callbacks. */
  function PhaseReached(es: seq<Event>, i: nat, n: nat): Phase
    requires i < n <= |es|
    decreases n
  {
    if n == i + 1 then Scanning else QuietPhase(PhaseReached(es, i, n - 1), es[n - 1])
  }

  ghost predicate QuietBetween(es: seq<Event>, i: nat, n: nat, id: nat) {
    forall k :: i < k < n <= |es| ==> Quiet(es[k], id)
  }

  /** The write `t` has the slot in a busy session, and nothing has aborted it. */
  predicate UnderWay(s: State, t: Task, phase: Phase) {
    s.state == Busy && s.slot.Some? && s.slot.value.task == t && !s.slot.value.aborted && s.slot.value.phase == phase
  }

  /** A quiet event leaves the write `t` under way. */
  ghost predicate StaysUnderWay(en: Entry, t: Task) {
    forall phase :: UnderWay(en.before, t, phase) && !phase.Failing? && IsWrite(t) && Quiet(en.event, t.id) ==>
      UnderWay(en.after, t, QuietPhase(phase, en.event))
  }

  lemma QuietStep(maxQueue: nat, s: State, e: Event, t: Task)
    requires Inv(maxQueue, s)
    ensures StaysUnderWay(Entry(e, s, Step(maxQueue, s, e)), t)
  {
  }

  lemma TraceStaysUnderWay(maxQueue: nat, es: seq<Event>, t: Task)
    ensures forall i :: 0 <= i < |es| ==> StaysUnderWay(Trace(maxQueue, es)[i], t)
  {
    forall i | 0 <= i < |es| ensures StaysUnderWay(Trace(maxQueue, es)[i], t) {
      var s := StateAt(maxQueue, es, i);
      ReachableInv(maxQueue, es, i);
      QuietStep(maxQueue, s, es[i], t);
      assert Trace(maxQueue, es)[i] == Entry(es[i], s, Step(maxQueue, s, es[i]));
    }
  }

  lemma PhaseReachedIsNoFailure(es: seq<Event>, i: nat, n: nat)
    requires i < n <= |es|
    ensures !PhaseReached(es, i, n).Failing?
    decreases n
  {
    if n > i + 1 { PhaseReachedIsNoFailure(es, i, n - 1); }
  }

  /** While nothing disturbs it, a write makes its way to its body. */
  lemma {:induction false} QuietWriteMovesOn(es: seq<Event>, tr: seq<Entry>, i: nat, n: nat, t: Task)
    requires i < n < |tr| == |es| && IsWrite(t) && (forall k :: 0 <= k < |tr| ==> tr[k].event == es[k])
    requires forall k :: 0 < k < |tr| ==> tr[k].before == tr[k - 1].after
    requires forall k :: 0 <= k < |tr| ==> StaysUnderWay(tr[k], t)
    requires UnderWay(tr[i].after, t, Scanning) && QuietBetween(es, i, n, t.id)
    ensures UnderWay(tr[n].before, t, PhaseReached(es, i, n))
    decreases n
  {
    if n > i + 1 {
      QuietWriteMovesOn(es, tr, i, n - 1, t);
      PhaseReachedIsNoFailure(es, i, n - 1);
      assert StaysUnderWay(tr[n - 1], t) && Quiet(es[n - 1], t.id);
      assert UnderWay(tr[n - 1].after, t, QuietPhase(PhaseReached(es, i, n - 1), es[n - 1]));
    }
  }

  lemma AdmittedWriteStarts(maxQueue: nat, s: State, e: Event)
    requires AdmitsWrite(Entry(e, s, Step(maxQueue, s, e)))
    ensures var u := Step(maxQueue, s, e); UnderWay(u, u.slot.value.task, Scanning)
  {
  }

  lemma AdmittedWriteIsUnderWay(maxQueue: nat, es: seq<Event>, i: nat)
    requires i < |es| && TakesTurn(Trace(maxQueue, es)[i])
    requires var en := Trace(maxQueue, es)[i];
      var t := en.after.slot.value.task;
      IsWrite(t) && en.before.state == Ready && t.id !in en.before.cancelled && !ReservedByAnother(en.before, t.token)
    ensures var en := Trace(maxQueue, es)[i]; UnderWay(en.after, en.after.slot.value.task, Scanning)
  {
    TurnsAreAnswered(maxQueue, es, i);
    var s := StateAt(maxQueue, es, i);
    assert Trace(maxQueue, es)[i] == Entry(es[i], s, Step(maxQueue, s, es[i]));
    AdmittedWriteStarts(maxQueue, s, es[i]);
  }

  /**
    A write that finds `READY` at its turn, not cancelled and not shut out by a workflow, resolves
    when its body ends well, if the scan and its callbacks came before and nothing disturbed it;
    and the session is `READY` again.
   */
  lemma UndisturbedWriteResolves(maxQueue: nat, es: seq<Event>, i: nat, n: nat)
    requires i < n < |es| && TakesTurn(Trace(maxQueue, es)[i])
    requires var en := Trace(maxQueue, es)[i];
      var t := en.after.slot.value.task;
      && IsWrite(t) && en.before.state == Ready && t.id !in en.before.cancelled
      && !ReservedByAnother(en.before, t.token) && QuietBetween(es, i, n, t.id)
    requires PhaseReached(es, i, n).Running? && es[n] == BodyEnds(true)
    ensures var en := Trace(maxQueue, es)[n];
      && Resolves(en) && en.before.slot.value.task == Trace(maxQueue, es)[i].after.slot.value.task
      && en.after.state == Ready
  {
    var tr := Trace(maxQueue, es);
    var t := tr[i].after.slot.value.task;
    AdmittedWriteIsUnderWay(maxQueue, es, i);
    TraceStaysUnderWay(maxQueue, es, t);
    TraceIsChained(maxQueue, es);
    QuietWriteMovesOn(es, tr, i, n, t);
    ActionsMoveByPhase(maxQueue, es, n);
    SettlingRestoresReady(maxQueue, es, n);
  }

  // ---------------------------------------------------------------- workflows and cancellations

  /** A workflow reserves a free session and its own end frees it; nothing else does, and no token comes twice. */
  ghost predicate ReservationMoves(en: Entry) {
    var s, u := en.before, en.after;
    && (s.workflow.None? ==>
          u.workflow == (if en.event.WorkflowBegin? then Some(s.nextToken) else None))
    && (s.workflow.Some? ==>
          u.workflow == (if en.event == WorkflowEnd(s.workflow.value) then None else s.workflow))
    && u.nextToken == s.nextToken + (if en.event.WorkflowBegin? && s.workflow.None? then 1 else 0)
    && u.cancelled == s.cancelled + (if en.event.Cancel? then {en.event.id} else {})
  }

  lemma ReservationsMove(maxQueue: nat, s: State, e: Event)
    ensures ReservationMoves(Entry(e, s, Step(maxQueue, s, e)))
  {
  }
}
