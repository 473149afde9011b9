/** Whole runs of the action engine: serial order, queue accounting, aborted writes and workflow reservation. */
module SessionEngineRuns {
  import opened Wrappers
  import opened SessionEngine

  function StateAt(maxQueue: nat, es: seq<Event>, n: nat): State
    requires n <= |es|
  {
    if n == 0 then INITIAL else Step(maxQueue, StateAt(maxQueue, es, n - 1), es[n - 1])
  }

  /** One event of a run with the states around it. */
  datatype Entry = Entry(event: Event, before: State, after: State)

  function Trace(maxQueue: nat, es: seq<Event>): (tr: seq<Entry>)
    ensures |tr| == |es|
  {
    seq(|es|, i requires 0 <= i < |es| => Entry(es[i], StateAt(maxQueue, es, i), StateAt(maxQueue, es, i + 1)))
  }

  // ---------------------------------------------------------------- invariant

  ghost predicate QueueOrdered(s: State) {
    && (forall i, j :: 0 <= i < j < |s.queue| ==> s.queue[i].id < s.queue[j].id)
    && (forall i :: 0 <= i < |s.queue| ==> s.queue[i].id < s.nextId)
    && (s.slot.Some? ==> s.slot.value.task.id < s.nextId)
    && (s.slot.Some? ==> forall i :: 0 <= i < |s.queue| ==> s.slot.value.task.id < s.queue[i].id)
  }

  /** The count `queueDepth` is exact, and a running action's controller is the one that gets aborted. */
  ghost predicate Accounted(maxQueue: nat, s: State) {
    && s.depth == |s.queue| + (if s.slot.Some? then 1 else 0)
    && s.depth <= maxQueue
    && s.activeAbort == (if s.slot.Some? then Some(s.slot.value.task.id) else None)
  }

  /** The action in the slot passed the checks at its turn, and has not failed since. */
  predicate Admitted(s: State) { s.slot.Some? && !s.slot.value.phase.Failing? }

  predicate WriteOwnsSlot(s: State) { s.slot.Some? && s.slot.value.task.options.requireReady }

  ghost predicate Inv(maxQueue: nat, s: State) {
    && QueueOrdered(s) && Accounted(maxQueue, s)
    && (s.state == Busy ==> WriteOwnsSlot(s))
    && (s.workflow.Some? ==> s.workflow.value < s.nextToken)
  }

  lemma SubmitKeepsInv(maxQueue: nat, s: State, token: Option<nat>, options: Options)
    requires Inv(maxQueue, s)
    ensures Inv(maxQueue, Step(maxQueue, s, Submit(token, options)))
  {
  }

  lemma BeginKeepsInv(maxQueue: nat, s: State)
    requires Inv(maxQueue, s)
    ensures Inv(maxQueue, Step(maxQueue, s, Begin))
  {
    if s.slot.None? && s.queue != [] {
      assert forall i :: 0 <= i < |s.queue[1..]| ==> s.queue[1..][i] == s.queue[i + 1];
    }
  }

  lemma SlotChangeKeepsInv(maxQueue: nat, s: State, u: State)
    requires Inv(maxQueue, s) && u.queue == s.queue && u.nextId == s.nextId
    requires u.slot.Some? == s.slot.Some? && u.depth == s.depth && u.activeAbort == s.activeAbort
    requires s.slot.Some? ==> u.slot.value.task == s.slot.value.task
    requires u.state == Busy ==> s.state == Busy
    requires u.workflow.Some? ==> u.workflow.value < u.nextToken
    ensures Inv(maxQueue, u)
  {
  }

  lemma SettleKeepsInv(maxQueue: nat, s: State)
    requires Inv(maxQueue, s) && s.slot.Some?
    ensures Inv(maxQueue, Settled(s))
  {
  }

  lemma ActionStepKeepsInv(maxQueue: nat, s: State, e: Event)
    requires Inv(maxQueue, s)
    requires e.ScanResult? || e.ScanHooksDone? || e.BodyEnds? || e.AuditDone? || e.BodySets?
    ensures Inv(maxQueue, Step(maxQueue, s, e))
  {
    var u := Step(maxQueue, s, e);
    if s.slot.Some? && u.slot.None? {
      SettleKeepsInv(maxQueue, s);
    } else {
      SlotChangeKeepsInv(maxQueue, s, u);
    }
  }

  /** The events of the session at large: they neither take the slot nor give it back. */
  predicate IsSessionEvent(e: Event) {
    || e.BackgroundScan? || e.Timeout? || e.Cancel? || e.Crash? || e.StopCall? || e.StopDone?
    || e.StartCall? || e.StartLaunched? || e.StartDone? || e.WorkflowBegin? || e.WorkflowEnd?
  }

  lemma SessionStepKeepsInv(maxQueue: nat, s: State, e: Event)
    requires Inv(maxQueue, s) && IsSessionEvent(e)
    ensures Inv(maxQueue, Step(maxQueue, s, e))
  {
    SlotChangeKeepsInv(maxQueue, s, Step(maxQueue, s, e));
  }

  lemma StepKeepsInv(maxQueue: nat, s: State, e: Event)
    requires Inv(maxQueue, s)
    ensures Inv(maxQueue, Step(maxQueue, s, e))
  {
    if e.Submit? {
      SubmitKeepsInv(maxQueue, s, e.token, e.options);
    } else if e.Begin? {
      BeginKeepsInv(maxQueue, s);
    } else if e.ScanResult? || e.ScanHooksDone? || e.BodyEnds? || e.AuditDone? || e.BodySets? {
      ActionStepKeepsInv(maxQueue, s, e);
    } else {
      SessionStepKeepsInv(maxQueue, s, e);
    }
  }

  lemma {:induction false} ReachableInv(maxQueue: nat, es: seq<Event>, n: nat)
    requires n <= |es|
    ensures Inv(maxQueue, StateAt(maxQueue, es, n))
  {
    if n > 0 {
      ReachableInv(maxQueue, es, n - 1);
      StepKeepsInv(maxQueue, StateAt(maxQueue, es, n - 1), es[n - 1]);
    }
  }

  // ---------------------------------------------------------------- what one event can be

  predicate Accepts(en: Entry) { en.after.nextId != en.before.nextId }

  /** An action gives its slot back: its promise settles. */
  predicate Settles(en: Entry) { en.before.slot.Some? && en.after.slot.None? }

  predicate Resolves(en: Entry) { Settles(en) && en.event.BodyEnds? }

  predicate TakesTurn(en: Entry) { en.before.slot.None? && en.after.slot.Some? }

  predicate BodyStarts(en: Entry) { InPhase(en.before, Scanned) && InPhase(en.after, Running) }

  /** The events that must not happen to a write that succeeds. */
  predicate Disturbs(en: Entry) {
    || (en.after.state == PausedChallenge && en.before.state != PausedChallenge)
    || (en.event.StopCall? && StopTakesEffect(en.before, en.event.afterStart))
    || (en.event.Crash? && en.event.active)
    || (en.event.Timeout? && InPhase(en.before, Running))
    || (en.event.Cancel? && en.before.slot.Some? && en.before.slot.value.task.id == en.event.id)
  }

  /** The slot during one event: taken from the head of the queue, kept, or given back. */
  ghost predicate Grows(s: State, u: State) {
    s.queue <= u.queue && forall q :: |s.queue| <= q < |u.queue| ==> s.nextId <= u.queue[q].id
  }

  predicate PastScan(sl: Slot) { sl.phase.Running? || sl.phase.Failing? }

  ghost predicate SlotFacts(en: Entry) {
    var s, u := en.before, en.after;
    match (s.slot, u.slot)
    case (None, Some(b)) =>
      && en.event.Begin? && s.queue != [] && b.task == s.queue[0] && u.queue == s.queue[1..] && b.prior == s.state
      && (b.phase.Scanning? || b.phase.Failing?) && b.aborted == (b.task.id in s.cancelled)
      && (Admitted(u) ==> !b.aborted && TurnRefusal(s, b.task).None?)
    case (Some(a), Some(b)) =>
      && b.task == a.task && b.prior == a.prior && (a.aborted ==> b.aborted) && Grows(s, u)
      && (a.task.options.requireReady && Disturbs(en) ==> b.aborted)
      && (a.phase.Failing? ==> b.phase.Failing?)
      && (PastScan(a) ==> PastScan(b))
    case (Some(a), None) =>
      && s.queue == u.queue && PastScan(a)
      && (Resolves(en) ==> !a.aborted && a.phase.Running? && en.event.ok)
      && !BodyStarts(en)
    case (None, None) => Grows(s, u)
  }

  ghost predicate CountFacts(en: Entry) {
    && en.after.depth == en.before.depth + (if Accepts(en) then 1 else 0) - (if Settles(en) then 1 else 0)
    && en.before.nextId <= en.after.nextId
  }

  ghost predicate WorkflowFacts(en: Entry) {
    var s, u := en.before, en.after;
    && s.nextToken <= u.nextToken
    && (u.workflow.Some? ==> u.workflow == s.workflow || (u.workflow.value == s.nextToken && s.workflow.None?))
    && (s.workflow.Some? && u.workflow != s.workflow ==> u.workflow.None? && en.event == WorkflowEnd(s.workflow.value))
  }

  lemma BeginSlotFacts(maxQueue: nat, s: State)
    ensures SlotFacts(Entry(Begin, s, Step(maxQueue, s, Begin)))
  {
  }

  lemma SessionSlotFacts(maxQueue: nat, s: State, e: Event)
    requires Inv(maxQueue, s) && IsSessionEvent(e)
    ensures SlotFacts(Entry(e, s, Step(maxQueue, s, e)))
  {
  }

  lemma StepSlotFacts(maxQueue: nat, s: State, e: Event)
    requires Inv(maxQueue, s)
    ensures SlotFacts(Entry(e, s, Step(maxQueue, s, e)))
  {
    if e.Begin? {
      BeginSlotFacts(maxQueue, s);
    } else if IsSessionEvent(e) {
      SessionSlotFacts(maxQueue, s, e);
    }
  }

  lemma StepCountFacts(maxQueue: nat, s: State, e: Event)
    requires Inv(maxQueue, s)
    ensures CountFacts(Entry(e, s, Step(maxQueue, s, e))) && WorkflowFacts(Entry(e, s, Step(maxQueue, s, e)))
  {
  }

  ghost predicate Facts(maxQueue: nat, en: Entry) {
    Inv(maxQueue, en.before) && SlotFacts(en) && CountFacts(en) && WorkflowFacts(en)
  }

  ghost predicate Chained(maxQueue: nat, tr: seq<Entry>) {
    && (tr != [] ==> tr[0].before == INITIAL)
    && (forall i :: 0 < i < |tr| ==> tr[i].before == tr[i - 1].after)
    && (forall i :: 0 <= i < |tr| ==> Facts(maxQueue, tr[i]))
  }

  lemma StepFacts(maxQueue: nat, s: State, e: Event)
    requires Inv(maxQueue, s)
    ensures Facts(maxQueue, Entry(e, s, Step(maxQueue, s, e)))
  {
    StepSlotFacts(maxQueue, s, e);
    StepCountFacts(maxQueue, s, e);
  }

  lemma TraceIsChained(maxQueue: nat, es: seq<Event>)
    ensures Chained(maxQueue, Trace(maxQueue, es))
  {
    var tr := Trace(maxQueue, es);
    forall i | 0 <= i < |tr| ensures Facts(maxQueue, tr[i]) {
      ReachableInv(maxQueue, es, i);
      var s := StateAt(maxQueue, es, i);
      StepFacts(maxQueue, s, es[i]);
      assert tr[i] == Entry(es[i], s, Step(maxQueue, s, es[i]));
    }
  }

  // ---------------------------------------------------------------- starting again

  /** A session that was started, then began a write, and is started again meanwhile. */
  const RESTARTED: seq<Event> :=
    [StartCall, StartLaunched(true), Submit(None, Options(false, false, true)), Begin, StartCall]

  /** `start` is not refused while a write runs: the session leaves `BUSY` with the write still in the slot. */
  lemma StartLeavesBusy(maxQueue: nat)
    requires maxQueue > 0
    ensures StateAt(maxQueue, RESTARTED, 4).state == Busy
    ensures var s := StateAt(maxQueue, RESTARTED, 5); s.state == Starting && s.slot.Some?
  {
    var es := RESTARTED;
    assert StateAt(maxQueue, es, 0) == INITIAL && es[0] == StartCall;
    var s1 := StateAt(maxQueue, es, 1);
    assert s1 == Step(maxQueue, INITIAL, StartCall) && s1.starting == 1;
    var s2 := StateAt(maxQueue, es, 2);
    assert s2 == Step(maxQueue, s1, StartLaunched(true)) && s2.state == Ready;
    var s3 := StateAt(maxQueue, es, 3);
    assert s3 == Step(maxQueue, s2, es[2]) && s3.queue == [Task(0, None, Options(false, false, true))];
    assert StateAt(maxQueue, es, 4) == Step(maxQueue, s3, Begin);
  }

  // ---------------------------------------------------------------- queue accounting

  function CountAccepted(tr: seq<Entry>, n: nat): nat
    requires n <= |tr|
  {
    if n == 0 then 0 else CountAccepted(tr, n - 1) + if Accepts(tr[n - 1]) then 1 else 0
  }

  function CountSettled(tr: seq<Entry>, n: nat): nat
    requires n <= |tr|
  {
    if n == 0 then 0 else CountSettled(tr, n - 1) + if Settles(tr[n - 1]) then 1 else 0
  }

  lemma {:induction false} DepthCounts(maxQueue: nat, tr: seq<Entry>, n: nat)
    requires Chained(maxQueue, tr) && n < |tr|
    ensures tr[n].before.depth == CountAccepted(tr, n) - CountSettled(tr, n)
  {
    if n > 0 {
      DepthCounts(maxQueue, tr, n - 1);
      assert Facts(maxQueue, tr[n - 1]);
    }
  }

  /** `queueDepth` is the number of submitted but unsettled actions, and stays within its bound. */
  lemma QueueDepthIsExact(maxQueue: nat, es: seq<Event>, n: nat)
    requires n < |es|
    ensures var tr := Trace(maxQueue, es);
      && tr[n].before.depth == CountAccepted(tr, n) - CountSettled(tr, n)
      && 0 <= tr[n].before.depth <= maxQueue
  {
    TraceIsChained(maxQueue, es);
    DepthCounts(maxQueue, Trace(maxQueue, es), n);
    assert Facts(maxQueue, Trace(maxQueue, es)[n]);
  }

  /** `BUSY` is never left behind: it holds only while a write has the slot. */
  lemma BusyMeansWriteOwnsSlot(maxQueue: nat, es: seq<Event>, n: nat)
    requires n <= |es| && StateAt(maxQueue, es, n).state == Busy
    ensures WriteOwnsSlot(StateAt(maxQueue, es, n))
    ensures StateAt(maxQueue, es, n).activeAbort == Some(StateAt(maxQueue, es, n).slot.value.task.id)
  {
    ReachableInv(maxQueue, es, n);
  }

  // ---------------------------------------------------------------- serial order

  /** Whatever has or awaits the slot later is younger than an action that had it before. */
  ghost predicate Younger(s: State, a: Slot) {
    && a.task.id < s.nextId
    && (forall q :: 0 <= q < |s.queue| ==> a.task.id < s.queue[q].id)
    && (s.slot.Some? ==>
          a.task.id < s.slot.value.task.id || (s.slot.value.task == a.task && (PastScan(a) ==> PastScan(s.slot.value))))
  }

  lemma YoungerLasts(maxQueue: nat, en: Entry, a: Slot)
    requires Facts(maxQueue, en) && Younger(en.before, a)
    ensures Younger(en.after, a)
  {
    var s, u := en.before, en.after;
    if s.slot.None? && u.slot.Some? {
      assert forall q :: 0 <= q < |u.queue| ==> u.queue[q] == s.queue[q + 1];
    }
  }

  lemma {:induction false} LaterIsYounger(maxQueue: nat, tr: seq<Entry>, i: nat, n: nat)
    requires Chained(maxQueue, tr) && i < n < |tr| && tr[i].after.slot.Some?
    ensures Younger(tr[n].before, tr[i].after.slot.value)
    decreases n
  {
    assert Facts(maxQueue, tr[n]);
    assert tr[n].before == tr[n - 1].after;
    if n > i + 1 {
      LaterIsYounger(maxQueue, tr, i, n - 1);
      YoungerLasts(maxQueue, tr[n - 1], tr[i].after.slot.value);
    }
  }

  /** Until it settles, an action keeps the slot. */
  lemma {:induction false} SlotIsKept(maxQueue: nat, tr: seq<Entry>, i: nat, n: nat)
    requires Chained(maxQueue, tr) && i < n < |tr| && tr[i].after.slot.Some?
    requires forall k :: i < k < n ==> !Settles(tr[k])
    ensures tr[n].before.slot.Some? && tr[n].before.slot.value.task == tr[i].after.slot.value.task
    decreases n
  {
    assert Facts(maxQueue, tr[n - 1]);
    if n > i + 1 { SlotIsKept(maxQueue, tr, i, n - 1); }
  }

  /** Bodies start in submission order, and none starts before the one ahead of it has settled. */
  lemma BodiesRunInOrder(maxQueue: nat, es: seq<Event>, i: nat, j: nat)
    requires i < j < |es|
    requires BodyStarts(Trace(maxQueue, es)[i]) && BodyStarts(Trace(maxQueue, es)[j])
    ensures var tr := Trace(maxQueue, es);
      && tr[i].after.slot.value.task.id < tr[j].before.slot.value.task.id
      && exists k :: i < k < j && Settles(tr[k])
  {
    var tr := Trace(maxQueue, es);
    TraceIsChained(maxQueue, es);
    LaterIsYounger(maxQueue, tr, i, j);
    if forall k :: i < k < j ==> !Settles(tr[k]) { SlotIsKept(maxQueue, tr, i, j); }
  }

  // ---------------------------------------------------------------- a write that succeeds was not disturbed

  /** The write now in the slot took its turn at `i` in `READY`; unless aborted, nothing has disturbed it. */
  ghost predicate TurnAt(tr: seq<Entry>, i: int, n: nat) {
    && 0 <= i < n < |tr| && tr[n].before.slot.Some?
    && TakesTurn(tr[i]) && tr[i].after.slot.value.task == tr[n].before.slot.value.task
    && tr[i].before.state == tr[n].before.slot.value.prior
    && (Admitted(tr[n].before) ==> TurnRefusal(tr[i].before, tr[n].before.slot.value.task).None?)
    && (tr[n].before.slot.value.task.options.requireReady && !tr[n].before.slot.value.aborted ==>
          forall k :: i < k < n ==> !Disturbs(tr[k]))
  }

  lemma {:induction false} SlotHasTurn(maxQueue: nat, tr: seq<Entry>, n: nat)
    requires Chained(maxQueue, tr) && n < |tr| && tr[n].before.slot.Some?
    ensures exists i :: TurnAt(tr, i, n)
  {
    if n > 0 {
      assert Facts(maxQueue, tr[n - 1]);
      assert tr[n].before == tr[n - 1].after;
      if tr[n - 1].before.slot.Some? {
        SlotHasTurn(maxQueue, tr, n - 1);
        var i :| TurnAt(tr, i, n - 1);
        assert TurnAt(tr, i, n);
      } else {
        assert TurnAt(tr, n - 1, n);
      }
    }
  }

  /** A write that resolves found `READY` at its turn and met no pause, stop, crash, timeout or cancellation. */
  lemma ResolvedWriteWasUndisturbed(maxQueue: nat, es: seq<Event>, n: nat)
    requires n < |es| && Resolves(Trace(maxQueue, es)[n])
    requires Trace(maxQueue, es)[n].before.slot.value.task.options.requireReady
    ensures var tr := Trace(maxQueue, es);
      exists i :: 0 <= i < n && TakesTurn(tr[i])
        && tr[i].after.slot.value.task == tr[n].before.slot.value.task
        && tr[i].before.state == Ready
        && forall k :: i < k < n ==> !Disturbs(tr[k])
  {
    var tr := Trace(maxQueue, es);
    TraceIsChained(maxQueue, es);
    SlotHasTurn(maxQueue, tr, n);
    var i :| TurnAt(tr, i, n);
    assert Facts(maxQueue, tr[n]);
    assert 0 <= i < n && TakesTurn(tr[i]) && tr[i].before.state == Ready;
  }

  // ---------------------------------------------------------------- workflow reservation

  /** Tokens are issued once, so a workflow active at two moments was active all the time between. */
  lemma {:induction false} ReservationIsContinuous(maxQueue: nat, tr: seq<Entry>, i: nat, n: nat, w: nat)
    requires Chained(maxQueue, tr) && i <= n < |tr| && tr[i].before.workflow == Some(w)
    ensures w < tr[n].before.nextToken
    ensures tr[n].before.workflow == Some(w) <==> forall k :: i <= k < n ==> tr[k].after.workflow == Some(w)
    decreases n
  {
    assert Facts(maxQueue, tr[i]);
    if n > i {
      ReservationIsContinuous(maxQueue, tr, i, n - 1, w);
      assert Facts(maxQueue, tr[n - 1]);
      assert tr[n].before == tr[n - 1].after;
    }
  }

  /** At most one workflow is active: a second one begins only after the first has ended. */
  lemma OneWorkflowAtATime(maxQueue: nat, es: seq<Event>, i: nat, j: nat, w: nat, v: nat)
    requires i < j < |es| && w != v
    requires Trace(maxQueue, es)[i].before.workflow == Some(w) && Trace(maxQueue, es)[j].before.workflow == Some(v)
    ensures exists k :: i <= k < j && es[k] == WorkflowEnd(w)
  {
    var tr := Trace(maxQueue, es);
    TraceIsChained(maxQueue, es);
    ReservationEnds(maxQueue, tr, i, j, w);
    var k :| i <= k < j && tr[k].event == WorkflowEnd(w);
    assert es[k] == WorkflowEnd(w);
  }

  lemma {:induction false} ReservationEnds(maxQueue: nat, tr: seq<Entry>, i: nat, j: nat, w: nat)
    requires Chained(maxQueue, tr) && i <= j < |tr|
    requires tr[i].before.workflow == Some(w) && tr[j].before.workflow != Some(w)
    ensures exists k :: i <= k < j && tr[k].event == WorkflowEnd(w)
    decreases j
  {
    assert Facts(maxQueue, tr[j - 1]);
    assert tr[j].before == tr[j - 1].after;
    if tr[j - 1].before.workflow != Some(w) { ReservationEnds(maxQueue, tr, i, j - 1, w); }
  }

  /** Every action admitted while the reservation stands belongs to the workflow. */
  lemma {:induction false} AdmittedBelongs(maxQueue: nat, tr: seq<Entry>, i: nat, n: nat, w: nat)
    requires Chained(maxQueue, tr) && i < n < |tr|
    requires tr[i].before.workflow == Some(w) && TakesTurn(tr[i]) && Admitted(tr[i].after)
    requires tr[n].before.workflow == Some(w) && Admitted(tr[n].before)
    ensures tr[n].before.slot.value.task.token == Some(w)
    decreases n
  {
    assert tr[n].before == tr[n - 1].after;
    assert Facts(maxQueue, tr[n - 1]);
    ReservationIsContinuous(maxQueue, tr, i, n, w);
    ReservationIsContinuous(maxQueue, tr, i, n - 1, w);
    if n - 1 > i && tr[n - 1].before.slot.Some? {
      AdmittedBelongs(maxQueue, tr, i, n - 1, w);
    }
  }

  /**
    From the turn of a workflow's first step until the workflow ends, every action body that
    runs belongs to it, whatever was queued before the reservation.
   */
  lemma WorkflowOwnsTheQueue(maxQueue: nat, es: seq<Event>, i: nat, n: nat, w: nat)
    requires i < n < |es|
    requires var en := Trace(maxQueue, es)[i]; en.before.workflow == Some(w) && TakesTurn(en) && Admitted(en.after)
    requires Trace(maxQueue, es)[n].before.workflow == Some(w) && InPhase(Trace(maxQueue, es)[n].before, Running)
    ensures Trace(maxQueue, es)[n].before.slot.value.task.token == Some(w)
  {
    TraceIsChained(maxQueue, es);
    AdmittedBelongs(maxQueue, Trace(maxQueue, es), i, n, w);
  }
}
