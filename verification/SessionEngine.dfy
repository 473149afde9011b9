/**
  The action engine of one browser session: a bounded serial queue whose running
  action can be aborted by a challenge pause, a stop, a crash of the active tab or a
  timeout, and which a workflow may reserve for itself.

  An action is cut at its awaits.  Each event is the code between two of them.
 */
module SessionEngine {
  import opened Wrappers

  datatype SessionState =
    Starting | Ready | Busy | PausedChallenge | HumanTakeover | UserControlled | Stopping | Stopped | Errored

  datatype ErrorCode =
    | SessionBusy | UserControlHardStop | ResourceExhausted | ActionTimeout
    | SessionPausedChallenge | InvalidState | OperationFailed

  datatype Options = Options(allowPaused: bool, allowUserControl: bool, requireReady: bool)

  /** A queued action; `token` is the workflow it was submitted from. */
  datatype Task = Task(id: nat, token: Option<nat>, options: Options)

  datatype Phase =
    | Scanning               // waiting for the challenge detector
    | Scanned                // waiting for the callbacks that follow a detection
    | Running                // the action body
    | Failing(code: ErrorCode)  // waiting for the failure audit record

  /** The action that owns the queue, with its abort controller. */
  datatype Slot = Slot(task: Task, prior: SessionState, aborted: bool, phase: Phase)

  /**
    `stopping` says that a stop promise is kept.  `stops` counts the stop bodies in flight,
    `starting` the start bodies that launch, and `concluding` those that have set `READY`.
   */
  datatype State = State(
    state: SessionState, queue: seq<Task>, slot: Option<Slot>, depth: int, activeAbort: Option<nat>,
    workflow: Option<nat>, nextToken: nat, nextId: nat, cancelled: set<nat>, stopping: bool, stops: nat,
    starting: nat, concluding: nat)

  const INITIAL := State(Stopped, [], None, 0, None, None, 0, 0, {}, false, 0, 0, 0)

  datatype Event =
    | Submit(token: Option<nat>, options: Options)
    | Begin
    | ScanResult(pauses: bool)
    | ScanHooksDone(ok: bool)
    | BackgroundScan(pauses: bool)
    | BodySets(target: SessionState)
    | BodyEnds(ok: bool)
    | AuditDone
    | Timeout
    | Cancel(id: nat)
    | Crash(active: bool)
    | StopCall(afterStart: bool)
    | StopDone
    | StartCall
    | StartLaunched(ok: bool)    // the context is up, or the launch failed
    | StartDone(ok: bool)        // the scan and the audit that follow
    | WorkflowBegin
    | WorkflowEnd(workflow: nat)

  // ---------------------------------------------------------------- steps

  /** Why `enqueue` refuses an action on the spot, if it does. */
  function Refusal(maxQueue: nat, s: State, token: Option<nat>, options: Options): Option<ErrorCode> {
    if s.workflow.Some? && token != s.workflow then Some(SessionBusy)
    else if s.state == UserControlled && !options.allowUserControl then Some(UserControlHardStop)
    else if s.depth >= maxQueue then Some(ResourceExhausted)
    else None
  }

  /** Why an action is refused at its turn, if it is. */
  function TurnRefusal(s: State, t: Task): Option<ErrorCode> {
    if t.id in s.cancelled then Some(ActionTimeout)
    else if s.workflow.Some? && t.token != s.workflow then Some(SessionBusy)
    else if s.state == UserControlled && !t.options.allowUserControl then Some(UserControlHardStop)
    else if t.options.requireReady && s.state != Ready then
      Some(if s.state == PausedChallenge then SessionPausedChallenge
           else if s.state == UserControlled then UserControlHardStop else InvalidState)
    else if !t.options.allowPaused && s.state == PausedChallenge then Some(SessionPausedChallenge)
    else if s.state in {Errored, Stopped, Stopping} then Some(InvalidState)
    else None
  }

  /** The code the caller sees: an abort outranks whatever was thrown. */
  function Mapped(state: SessionState, aborted: bool, thrown: ErrorCode): ErrorCode {
    if !aborted then thrown
    else if state == PausedChallenge then SessionPausedChallenge
    else ActionTimeout
  }

  function Abort(s: State): State {
    if s.activeAbort.Some? && s.slot.Some? && s.slot.value.task.id == s.activeAbort.value then
      s.(slot := Some(s.slot.value.(aborted := true)))
    else s
  }

  /** A detected challenge pauses the session unless a pause, a person or a stop already owns it. */
  function Pause(s: State): State {
    if s.state in {PausedChallenge, HumanTakeover, UserControlled, Stopping, Stopped} then s
    else Abort(s.(state := PausedChallenge))
  }

  predicate InPhase(s: State, p: Phase) { s.slot.Some? && s.slot.value.phase == p }

  function Enter(s: State, p: Phase): State
    requires s.slot.Some?
  {
    s.(slot := Some(s.slot.value.(phase := p)))
  }

  function Fail(s: State, thrown: ErrorCode): State
    requires s.slot.Some?
  {
    Enter(s, Failing(Mapped(s.state, s.slot.value.aborted, thrown)))
  }

  /** The `finally` block: the slot is given back and a write's `BUSY` becomes `READY`. */
  function Settled(s: State): State
    requires s.slot.Some?
  {
    var back := s.state == Busy && (s.slot.value.task.options.requireReady || s.slot.value.prior == Ready);
    s.(state := if back then Ready else s.state, slot := None, activeAbort := None, depth := s.depth - 1)
  }

  /** The turn of the action at the head of the queue. */
  function Begun(s: State): State
    requires s.queue != []
  {
    var t := s.queue[0];
    var refused := TurnRefusal(s, t);
    var aborted := t.id in s.cancelled;
    var u := s.(queue := s.queue[1..], activeAbort := Some(t.id));
    if refused.Some? then
      u.(slot := Some(Slot(t, s.state, aborted, Failing(Mapped(s.state, aborted, refused.value)))))
    else
      u.(slot := Some(Slot(t, s.state, aborted, Scanning)), state := if t.options.requireReady then Busy else s.state)
  }

  predicate KeepsPause(sl: Slot) {
    && sl.task.options.allowPaused && !sl.task.options.requireReady
    && sl.prior in {PausedChallenge, HumanTakeover, UserControlled}
  }

  /** Only an action for people (resume, takeover, handoff, reopen) sets the session state itself. */
  predicate MaySet(s: State, target: SessionState) {
    && InPhase(s, Running) && !s.slot.value.task.options.requireReady && s.slot.value.task.options.allowPaused
    && target in {Ready, PausedChallenge, HumanTakeover, UserControlled}
  }

  predicate StopTakesEffect(s: State, afterStart: bool) {
    !s.stopping && (afterStart || (s.state != Stopped && s.state != Starting))
  }

  function Step(maxQueue: nat, s: State, e: Event): State {
    match e
    case Submit(token, options) =>
      if Refusal(maxQueue, s, token, options).Some? then s
      else s.(queue := s.queue + [Task(s.nextId, token, options)], depth := s.depth + 1, nextId := s.nextId + 1)
    case Begin => if s.slot.None? && s.queue != [] then Begun(s) else s
    case ScanResult(pauses) =>
      if !InPhase(s, Scanning) then s
      else Enter(if pauses && !KeepsPause(s.slot.value) then Pause(s) else s, Scanned)
    case ScanHooksDone(ok) =>
      if !InPhase(s, Scanned) then s
      else if !ok then Fail(s, OperationFailed)
      else if s.slot.value.task.options.requireReady && s.state == PausedChallenge then Fail(s, SessionPausedChallenge)
      else Enter(s, Running)
    case BackgroundScan(pauses) => if pauses then Pause(s) else s
    case BodySets(target) => if MaySet(s, target) then s.(state := target) else s
    case BodyEnds(ok) =>
      if !InPhase(s, Running) then s
      else if ok && !s.slot.value.aborted then Settled(s)
      else Fail(s, if ok then ActionTimeout else OperationFailed)
    case AuditDone => if s.slot.Some? && s.slot.value.phase.Failing? then Settled(s) else s
    case Timeout => if InPhase(s, Running) then Abort(s) else s
    case Cancel(id) =>
      var u := s.(cancelled := s.cancelled + {id});
      if s.slot.Some? && s.slot.value.task.id == id then Abort(u) else u
    case Crash(active) => if active then Abort(s.(state := Errored)) else s
    case StopCall(afterStart) =>
      if StopTakesEffect(s, afterStart) then Abort(s.(state := Stopping, stopping := true, stops := s.stops + 1)) else s
    case StopDone => if s.stops > 0 then s.(state := Stopped, stops := s.stops - 1) else s
    case StartCall =>
      if s.state in {Ready, PausedChallenge, HumanTakeover, Starting, Stopping} then s
      else s.(state := Starting, stopping := false, starting := s.starting + 1)
    case StartLaunched(ok) =>
      if s.starting == 0 then s
      else s.(state := if ok then Ready else Errored, starting := s.starting - 1,
              concluding := if ok then s.concluding + 1 else s.concluding)
    case StartDone(ok) =>
      if s.concluding == 0 then s
      else s.(state := if ok then s.state else Errored, concluding := s.concluding - 1)
    case WorkflowBegin =>
      if s.workflow.Some? then s else s.(workflow := Some(s.nextToken), nextToken := s.nextToken + 1)
    case WorkflowEnd(token) => if s.workflow == Some(token) then s.(workflow := None) else s
  }

  // ---------------------------------------------------------------- the session object

  /** The engine's fields as the source keeps them; `queue` stands for the promise chain `queueTail`. */
  class BrowserSession {
    const maxQueue: nat
    var state: SessionState
    var queue: seq<Task>
    var slot: Option<Slot>
    var queueDepth: int
    var activeAbort: Option<nat>
    var activeWorkflowToken: Option<nat>
    var nextToken: nat
    var nextId: nat
    var cancelled: set<nat>
    var stopping: bool
    var stops: nat
    var starting: nat
    var concluding: nat

    ghost function View(): State
      reads this
    {
      State(state, queue, slot, queueDepth, activeAbort, activeWorkflowToken, nextToken, nextId, cancelled, stopping,
            stops, starting, concluding)
    }

    constructor (maxQueue: nat)
      ensures this.maxQueue == maxQueue && View() == INITIAL
    {
      this.maxQueue := maxQueue;
      state, queue, slot, queueDepth, activeAbort := Stopped, [], None, 0, None;
      activeWorkflowToken, nextToken, nextId, cancelled, stopping := None, 0, 0, {}, false;
      stops, starting, concluding := 0, 0, 0;
    }

    method Enqueue(token: Option<nat>, options: Options) returns (refused: Option<ErrorCode>)
      modifies this
      ensures View() == Step(maxQueue, old(View()), Submit(token, options))
      ensures refused == Refusal(maxQueue, old(View()), token, options)
    {
      if activeWorkflowToken.Some? && token != activeWorkflowToken { return Some(SessionBusy); }
      if state == UserControlled && !options.allowUserControl { return Some(UserControlHardStop); }
      if queueDepth >= maxQueue { return Some(ResourceExhausted); }
      queueDepth := queueDepth + 1;
      queue := queue + [Task(nextId, token, options)];
      nextId := nextId + 1;
      return None;
    }

    method AbortActive()
      modifies this`slot
      ensures View() == Abort(old(View()))
    {
      if activeAbort.Some? && slot.Some? && slot.value.task.id == activeAbort.value {
        slot := Some(slot.value.(aborted := true));
      }
    }

    method BeginNext()
      modifies this
      ensures View() == Step(maxQueue, old(View()), Begin)
    {
      if slot.Some? || queue == [] { return; }
      var t := queue[0];
      queue := queue[1..];
      var aborted := t.id in cancelled;
      activeAbort := Some(t.id);
      var prior := state;
      var thrown: Option<ErrorCode> := None;
      if aborted {
        thrown := Some(ActionTimeout);
      } else if activeWorkflowToken.Some? && t.token != activeWorkflowToken {
        thrown := Some(SessionBusy);
      } else if state == UserControlled && !t.options.allowUserControl {
        thrown := Some(UserControlHardStop);
      } else if t.options.requireReady && state != Ready {
        thrown := Some(if state == PausedChallenge then SessionPausedChallenge
                       else if state == UserControlled then UserControlHardStop else InvalidState);
      } else if !t.options.allowPaused && state == PausedChallenge {
        thrown := Some(SessionPausedChallenge);
      } else if state == Errored || state == Stopped || state == Stopping {
        thrown := Some(InvalidState);
      }
      if thrown.Some? {
        slot := Some(Slot(t, prior, aborted, Failing(Mapped(state, aborted, thrown.value))));
        return;
      }
      if t.options.requireReady { state := Busy; }
      slot := Some(Slot(t, prior, aborted, Scanning));
    }

    method EnterPause()
      modifies this`state, this`slot
      ensures View() == Pause(old(View()))
    {
      if state != PausedChallenge && state != HumanTakeover && state != UserControlled
         && state != Stopping && state != Stopped
      {
        state := PausedChallenge;
        AbortActive();
      }
    }

    method ScanArrives(pauses: bool)
      modifies this
      ensures View() == Step(maxQueue, old(View()), ScanResult(pauses))
    {
      if slot.None? || !slot.value.phase.Scanning? { return; }
      if pauses && !KeepsPause(slot.value) { EnterPause(); }
      slot := Some(slot.value.(phase := Scanned));
    }

    method AfterScan(ok: bool)
      modifies this
      ensures View() == Step(maxQueue, old(View()), ScanHooksDone(ok))
    {
      if slot.None? || !slot.value.phase.Scanned? { return; }
      if !ok {
        slot := Some(slot.value.(phase := Failing(Mapped(state, slot.value.aborted, OperationFailed))));
      } else if slot.value.task.options.requireReady && state == PausedChallenge {
        slot := Some(slot.value.(phase := Failing(Mapped(state, slot.value.aborted, SessionPausedChallenge))));
      } else {
        slot := Some(slot.value.(phase := Running));
      }
    }

    method PageScan(pauses: bool)
      modifies this
      ensures View() == Step(maxQueue, old(View()), BackgroundScan(pauses))
    {
      if pauses { EnterPause(); }
    }

    method SetState(target: SessionState)
      requires MaySet(View(), target)
      modifies this`state
      ensures View() == Step(maxQueue, old(View()), BodySets(target))
    {
      state := target;
    }

    method Finally()
      requires slot.Some?
      modifies this
      ensures View() == Settled(old(View()))
    {
      if slot.value.task.options.requireReady && state == Busy {
        state := Ready;
      } else if slot.value.prior == Ready && state == Busy {
        state := slot.value.prior;
      }
      activeAbort := None;
      queueDepth := queueDepth - 1;
      slot := None;
    }

    method EndBody(ok: bool)
      modifies this
      ensures View() == Step(maxQueue, old(View()), BodyEnds(ok))
    {
      if slot.None? || !slot.value.phase.Running? { return; }
      if ok && !slot.value.aborted {
        Finally();
      } else {
        var thrown := if ok then ActionTimeout else OperationFailed;
        slot := Some(slot.value.(phase := Failing(Mapped(state, slot.value.aborted, thrown))));
      }
    }

    method EndAudit()
      modifies this
      ensures View() == Step(maxQueue, old(View()), AuditDone)
    {
      if slot.Some? && slot.value.phase.Failing? { Finally(); }
    }

    method TimeOut()
      modifies this
      ensures View() == Step(maxQueue, old(View()), Timeout)
    {
      if slot.Some? && slot.value.phase.Running? { AbortActive(); }
    }

    method CancelAction(id: nat)
      modifies this
      ensures View() == Step(maxQueue, old(View()), Cancel(id))
    {
      cancelled := cancelled + {id};
      if slot.Some? && slot.value.task.id == id { AbortActive(); }
    }

    method PageCrashed(active: bool)
      modifies this
      ensures View() == Step(maxQueue, old(View()), Crash(active))
    {
      if active {
        state := Errored;
        AbortActive();
      }
    }

    method Stop(afterStart: bool)
      modifies this
      ensures View() == Step(maxQueue, old(View()), StopCall(afterStart))
    {
      if stopping || (!afterStart && (state == Stopped || state == Starting)) { return; }
      stopping, stops := true, stops + 1;
      state := Stopping;
      AbortActive();
    }

    method FinishStop()
      modifies this
      ensures View() == Step(maxQueue, old(View()), StopDone)
    {
      if stops > 0 { state, stops := Stopped, stops - 1; }
    }

    method Start()
      modifies this
      ensures View() == Step(maxQueue, old(View()), StartCall)
    {
      if state in {Ready, PausedChallenge, HumanTakeover, Starting, Stopping} { return; }
      state := Starting;
      stopping := false;
      starting := starting + 1;
    }

    method ContinueStart(ok: bool)
      modifies this
      ensures View() == Step(maxQueue, old(View()), StartLaunched(ok))
    {
      if starting == 0 { return; }
      starting := starting - 1;
      if ok {
        state, concluding := Ready, concluding + 1;
      } else {
        state := Errored;
      }
    }

    method FinishStart(ok: bool)
      modifies this
      ensures View() == Step(maxQueue, old(View()), StartDone(ok))
    {
      if concluding == 0 { return; }
      concluding := concluding - 1;
      if !ok { state := Errored; }
    }

    method BeginWorkflow() returns (token: Option<nat>)
      modifies this
      ensures View() == Step(maxQueue, old(View()), WorkflowBegin)
      ensures token == if old(activeWorkflowToken).Some? then None else Some(old(nextToken))
    {
      if activeWorkflowToken.Some? { return None; }
      token := Some(nextToken);
      activeWorkflowToken := token;
      nextToken := nextToken + 1;
    }

    method EndWorkflow(token: nat)
      modifies this
      ensures View() == Step(maxQueue, old(View()), WorkflowEnd(token))
    {
      if activeWorkflowToken == Some(token) { activeWorkflowToken := None; }
    }
  }
}
