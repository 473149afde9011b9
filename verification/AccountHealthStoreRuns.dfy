/**
  The queue of mutations serialises every interleaving of calls.
 */
module AccountHealthStoreRuns {
  import opened Wrappers
  import opened AccountHealthStates
  import opened AccountHealthStore

  function LaneAt(file: File, es: seq<Event>, n: nat): Lane
    requires n <= |es|
  {
    if n == 0 then Lane([], None, file) else Step(LaneAt(file, es, n - 1), es[n - 1])
  }

  /** How many calls, counted from the first, are done. */
  function Finished(calls: seq<Call>): (k: nat)
    ensures k <= |calls|
    ensures forall i :: 0 <= i < k ==> calls[i].phase.Done?
    ensures k < |calls| ==> !calls[k].phase.Done?
  {
    if calls == [] || !calls[0].phase.Done? then 0 else 1 + Finished(calls[1..])
  }

  /** The sequential meaning: the file after the first `n` calls, one after another, skipping those that failed. */
  function Replay(file: File, calls: seq<Call>, n: nat): File
    requires n <= |calls|
  {
    if n == 0 then file
    else
      var before := Replay(file, calls, n - 1);
      var c := calls[n - 1];
      if c.phase.Done? && c.phase.outcome.Success? && Effect(c.mutation, before).Success?
      then Stored(Effect(c.mutation, before).value)
      else before
  }

  /** A finished call did what it does on the file its predecessors left, or failed on the way. */
  predicate OutcomeOk(file: File, calls: seq<Call>, i: nat)
    requires i < |calls|
  {
    calls[i].phase.Done? ==>
      var outcome, effect := calls[i].phase.outcome, Effect(calls[i].mutation, Replay(file, calls, i));
      if outcome.Success? then effect == outcome
      else effect == outcome || outcome.error.Unreadable? || outcome.error.WriteFailed?
  }

  predicate CallOk(l: Lane, i: nat)
    requires i < |l.calls|
  {
    var k := Finished(l.calls);
    && (l.calls[i].phase.Done? <==> i < k)
    && (l.calls[i].released <==> i < k)
    && (i > k ==> l.calls[i].phase.Waiting?)
    && (l.calls[i].phase.Writing? ==> Effect(l.calls[i].mutation, l.file) == Success(l.calls[i].phase.content))
    && (if l.calls[i].prev.Some? then l.calls[i].prev.value == i - 1 else i <= k)
  }

  ghost predicate Inv(file: File, l: Lane) {
    var k := Finished(l.calls);
    && (forall i :: 0 <= i < |l.calls| ==> CallOk(l, i))
    && l.tail == (if k == |l.calls| then None else Some(|l.calls| - 1))
    && l.file == Replay(file, l.calls, k)
    && (forall i :: 0 <= i < |l.calls| ==> OutcomeOk(file, l.calls, i))
  }

  // ---------------------------------------------------------------- facts about the functions

  lemma {:induction false} FinishedIs(calls: seq<Call>, k: nat)
    requires k <= |calls|
    requires forall i :: 0 <= i < k ==> calls[i].phase.Done?
    requires k < |calls| ==> !calls[k].phase.Done?
    ensures Finished(calls) == k
  {
  }

  lemma {:induction false} ReplayReadsThePrefix(file: File, a: seq<Call>, b: seq<Call>, n: nat)
    requires n <= |a| && n <= |b| && a[..n] == b[..n]
    ensures Replay(file, a, n) == Replay(file, b, n)
  {
    if n > 0 {
      assert a[..n][n - 1] == a[n - 1] && b[..n][n - 1] == b[n - 1];
      assert a[..n - 1] == a[..n][..n - 1] && b[..n - 1] == b[..n][..n - 1];
      ReplayReadsThePrefix(file, a, b, n - 1);
    }
  }

  lemma {:induction false} SettledMeansFinished(file: File, l: Lane, c: nat)
    requires Inv(file, l) && c < |l.calls|
    ensures Settled(l.calls, c) <==> c < Finished(l.calls)
  {
    assert CallOk(l, c);
    if c < Finished(l.calls) && l.calls[c].prev.Some? { SettledMeansFinished(file, l, c - 1); }
  }

  // ---------------------------------------------------------------- every step keeps it

  lemma BeginKeeps(file: File, l: Lane, m: Mutation)
    requires Inv(file, l)
    ensures Inv(file, Step(l, Begin(m)))
  {
    var t := Step(l, Begin(m));
    var k := Finished(l.calls);
    assert forall i :: 0 <= i < |l.calls| ==> t.calls[i] == l.calls[i];
    FinishedIs(t.calls, k);
    forall i | 0 <= i < |t.calls| ensures CallOk(t, i) {
      if i < |l.calls| { assert CallOk(l, i); }
    }
    assert t.calls[..k] == l.calls[..k];
    ReplayReadsThePrefix(file, l.calls, t.calls, k);
    forall i | 0 <= i < |t.calls| ensures OutcomeOk(file, t.calls, i) {
      if i < |l.calls| {
        assert OutcomeOk(file, l.calls, i);
        assert t.calls[..i] == l.calls[..i];
        ReplayReadsThePrefix(file, l.calls, t.calls, i);
      }
    }
  }

  /** The running call moves on without finishing. */
  lemma AdvanceKeeps(file: File, l: Lane, c: nat, phase: Phase)
    requires Inv(file, l) && c == Finished(l.calls) < |l.calls|
    requires phase.Reading? || (phase.Writing? && Effect(l.calls[c].mutation, l.file) == Success(phase.content))
    ensures Inv(file, l.(calls := l.calls[c := l.calls[c].(phase := phase)]))
  {
    var t := l.(calls := l.calls[c := l.calls[c].(phase := phase)]);
    FinishedIs(t.calls, c);
    forall i | 0 <= i < |t.calls| ensures CallOk(t, i) { assert CallOk(l, i); }
    assert t.calls[..c] == l.calls[..c];
    ReplayReadsThePrefix(file, l.calls, t.calls, c);
    forall i | 0 <= i < |t.calls| ensures OutcomeOk(file, t.calls, i) {
      assert OutcomeOk(file, l.calls, i) && CallOk(l, i);
      if i < c {
        assert t.calls[..i] == l.calls[..i];
        ReplayReadsThePrefix(file, l.calls, t.calls, i);
      }
    }
  }

  /** The running call ends, and the file is what it must be. */
  lemma FinishKeeps(file: File, l: Lane, c: nat, outcome: Result<Snapshot, Error>, after: File)
    requires Inv(file, l) && c == Finished(l.calls) < |l.calls|
    requires var effect := Effect(l.calls[c].mutation, l.file);
             if outcome.Success? then effect == outcome && after == Stored(outcome.value)
             else after == l.file && (effect == outcome || outcome.error.Unreadable? || outcome.error.WriteFailed?)
    ensures Inv(file, Finish(l.(file := after), c, outcome))
  {
    var t := Finish(l.(file := after), c, outcome);
    forall i | 0 <= i < |t.calls| && i != c ensures t.calls[i] == l.calls[i] {}
    if c + 1 < |l.calls| { assert CallOk(l, c + 1); }
    FinishedIs(t.calls, c + 1);
    forall i | 0 <= i < |t.calls| ensures CallOk(t, i) { assert CallOk(l, i); }
    assert t.calls[..c] == l.calls[..c];
    ReplayReadsThePrefix(file, l.calls, t.calls, c);
    forall i | 0 <= i < |t.calls| ensures OutcomeOk(file, t.calls, i) {
      assert OutcomeOk(file, l.calls, i) && CallOk(l, i);
      if i <= c {
        assert t.calls[..i] == l.calls[..i];
        ReplayReadsThePrefix(file, l.calls, t.calls, i);
      }
    }
  }

  lemma ProceedKeeps(file: File, l: Lane, c: nat)
    requires Inv(file, l) && c == Finished(l.calls) < |l.calls|
    ensures Inv(file, Proceed(l, c, Effect(l.calls[c].mutation, l.file)))
  {
    match Effect(l.calls[c].mutation, l.file)
    case Failure(e) =>
      FinishKeeps(file, l, c, Failure(e), l.file);
      assert l.(file := l.file) == l;
    case Success(s) => AdvanceKeeps(file, l, c, Writing(s));
  }

  /** Only the first unfinished call can be running, and only it may start. */
  lemma OnlyTheFirstMoves(file: File, l: Lane, c: nat)
    requires Inv(file, l) && c < |l.calls|
    ensures MayStart(l, c) <==> c == Finished(l.calls) && l.calls[c].phase.Waiting?
    ensures l.calls[c].phase.Reading? || l.calls[c].phase.Writing? ==> c == Finished(l.calls)
  {
    assert CallOk(l, c);
    if l.calls[c].prev.Some? { SettledMeansFinished(file, l, c - 1); }
  }

  lemma StepKeepsInv(file: File, l: Lane, e: Event)
    requires Inv(file, l)
    ensures Inv(file, Step(l, e))
  {
    match e
    case Begin(m) => BeginKeeps(file, l, m);
    case Start(c) =>
      if c < |l.calls| {
        OnlyTheFirstMoves(file, l, c);
        if MayStart(l, c) && l.calls[c].mutation.Set? {
          ProceedKeeps(file, l, c);
        } else if MayStart(l, c) {
          AdvanceKeeps(file, l, c, Reading);
        }
      }
    case ReadReturns(c, ok) =>
      if c < |l.calls| && l.calls[c].phase.Reading? {
        OnlyTheFirstMoves(file, l, c);
        if ok {
          ProceedKeeps(file, l, c);
        } else {
          FinishKeeps(file, l, c, Failure(Unreadable), l.file);
          assert l.(file := l.file) == l;
        }
      }
    case WriteReturns(c, ok) =>
      if c < |l.calls| && l.calls[c].phase.Writing? {
        OnlyTheFirstMoves(file, l, c);
        assert CallOk(l, c);
        var s := l.calls[c].phase.content;
        if ok {
          FinishKeeps(file, l, c, Success(s), Stored(s));
        } else {
          FinishKeeps(file, l, c, Failure(WriteFailed), l.file);
          assert l.(file := l.file) == l;
        }
      }
  }

  lemma {:induction false} ReachableInv(file: File, es: seq<Event>, n: nat)
    requires n <= |es|
    ensures Inv(file, LaneAt(file, es, n))
  {
    if n > 0 {
      ReachableInv(file, es, n - 1);
      StepKeepsInv(file, LaneAt(file, es, n - 1), es[n - 1]);
    }
  }

  // ---------------------------------------------------------------- what callers get

  /**
    In every interleaving the file is what the finished calls leave when they run one after
    another in call order, and each call that succeeded returned what it computes there.
   */
  lemma MutationsAreSerial(file: File, es: seq<Event>, n: nat, i: nat)
    requires n <= |es| && i < |LaneAt(file, es, n).calls|
    ensures var l := LaneAt(file, es, n);
            && l.file == Replay(file, l.calls, Finished(l.calls))
            && (l.calls[i].phase.Done? <==> i < Finished(l.calls))
            && OutcomeOk(file, l.calls, i)
  {
    ReachableInv(file, es, n);
    assert CallOk(LaneAt(file, es, n), i);
  }

  /** A call that fails leaves the file alone, whatever event it fails in. */
  lemma FailureChangesNothing(file: File, es: seq<Event>, n: nat, i: nat)
    requires n < |es| && i < |LaneAt(file, es, n).calls|
    requires !LaneAt(file, es, n).calls[i].phase.Done?
    requires i < |LaneAt(file, es, n + 1).calls|
    requires var p := LaneAt(file, es, n + 1).calls[i].phase; p.Done? && p.outcome.Failure?
    ensures LaneAt(file, es, n + 1).file == LaneAt(file, es, n).file
  {
  }

  /** The event the first unfinished call is waiting for. */
  function Next(l: Lane): Event
    requires Finished(l.calls) < |l.calls|
  {
    var c := Finished(l.calls);
    if l.calls[c].phase.Waiting? then Start(c)
    else if l.calls[c].phase.Reading? then ReadReturns(c, true)
    else WriteReturns(c, true)
  }

  function Rank(p: Phase): nat {
    match p
    case Waiting => 3
    case Reading => 2
    case Writing(_) => 1
    case Done(_) => 0
  }

  /** Nobody is blocked: while a call is unfinished the first one can move, whatever happened to those before. */
  lemma NobodyIsBlocked(file: File, es: seq<Event>, n: nat)
    requires n <= |es| && Finished(LaneAt(file, es, n).calls) < |LaneAt(file, es, n).calls|
    ensures var l := LaneAt(file, es, n);
            var c := Finished(l.calls);
            var t := Step(l, Next(l));
            && |t.calls| == |l.calls|
            && Rank(t.calls[c].phase) < Rank(l.calls[c].phase)
  {
    ReachableInv(file, es, n);
    var l := LaneAt(file, es, n);
    OnlyTheFirstMoves(file, l, Finished(l.calls));
  }

  /** The queue map holds an entry for the profile exactly while a call is unfinished: the last one. */
  lemma QueueIsEmptyWhenIdle(file: File, es: seq<Event>, n: nat)
    requires n <= |es|
    ensures var l := LaneAt(file, es, n);
            && (l.tail.None? <==> forall i :: 0 <= i < |l.calls| ==> l.calls[i].phase.Done?)
            && (l.tail.Some? ==> l.tail.value == |l.calls| - 1)
  {
    ReachableInv(file, es, n);
  }

  // ---------------------------------------------------------------- one call, phase by phase

  /** What an update is given: nothing for a missing file, else the stored snapshot if the constructor takes it. */
  function GivenTo(file: File): Result<Option<Snapshot>, Error> {
    if file == Missing then Success(None)
    else if file == Corrupt then Failure(Unreadable)
    else if Construct(file.snapshot).Failure? then Failure(Construct(file.snapshot).error)
    else Success(Some(file.snapshot))
  }

  /** What a call writes, if it is well formed: a set the given snapshot, an update what it makes of the file. */
  function Written(m: Mutation, file: File): Result<Snapshot, Error> {
    if m.Set? then Construct(m.snapshot)
    else if GivenTo(file).Failure? then Failure(GivenTo(file).error)
    else if m.f(GivenTo(file).value).Failure? then Failure(m.f(GivenTo(file).value).error)
    else Construct(m.f(GivenTo(file).value).value)
  }

  lemma EffectIsWritten(m: Mutation, file: File)
    ensures Effect(m, file) == Written(m, file)
    ensures Effect(m, file).Success? ==> Construct(Effect(m, file).value) == Effect(m, file)
  {
    if file.Stored? { ConstructorAnswers(file.snapshot); }
    if m.Set? {
      ConstructorAnswers(m.snapshot);
    } else if GivenTo(file).Success? && m.f(GivenTo(file).value).Success? {
      ConstructorAnswers(m.f(GivenTo(file).value).value);
    }
  }

  /** Where a call goes with an event, by its phase; `first` says that all calls before it are done. */
  function NextPhase(call: Call, c: nat, e: Event, file: File, first: bool): Phase {
    var next := Written(call.mutation, file);
    var onward := if next.Success? then Writing(next.value) else Done(Failure(next.error));
    match call.phase
    case Waiting =>
      if e != Start(c) || !first then Waiting else if call.mutation.Set? then onward else Reading
    case Reading =>
      if e == ReadReturns(c, true) then onward
      else if e == ReadReturns(c, false) then Done(Failure(Unreadable)) else Reading
    case Writing(s) =>
      if e == WriteReturns(c, true) then Done(Success(s))
      else if e == WriteReturns(c, false) then Done(Failure(WriteFailed)) else Writing(s)
    case Done(outcome) => Done(outcome)
  }

  /** How one event moves the call `c`, and that only a finished write changes the file. */
  ghost predicate CallMoves(l: Lane, e: Event, m: Lane, c: nat)
    requires c < |l.calls|
  {
    var first := forall i :: 0 <= i < c ==> l.calls[i].phase.Done?;
    && c < |m.calls| && m.calls[c].mutation == l.calls[c].mutation
    && m.calls[c].phase == NextPhase(l.calls[c], c, e, l.file, first)
  }

  ghost predicate FileMoves(l: Lane, e: Event, m: Lane) {
    m.file ==
      if e.WriteReturns? && e.ok && e.c < |l.calls| && l.calls[e.c].phase.Writing? then
        Stored(l.calls[e.c].phase.content)
      else l.file
  }

  lemma StepMovesCall(l: Lane, e: Event, c: nat)
    requires c < |l.calls|
    requires MayStart(l, c) <==> l.calls[c].phase.Waiting? && forall i :: 0 <= i < c ==> l.calls[i].phase.Done?
    ensures CallMoves(l, e, Step(l, e), c)
  {
    EffectIsWritten(l.calls[c].mutation, l.file);
  }

  lemma StepMovesFile(l: Lane, e: Event)
    ensures FileMoves(l, e, Step(l, e))
  {
  }

  /** Every event of every run takes each call where its phase says, and only a finished write changes the file. */
  lemma CallsMoveByPhase(file: File, es: seq<Event>, n: nat, c: nat)
    requires n < |es| && c < |LaneAt(file, es, n).calls|
    ensures CallMoves(LaneAt(file, es, n), es[n], LaneAt(file, es, n + 1), c)
    ensures FileMoves(LaneAt(file, es, n), es[n], LaneAt(file, es, n + 1))
  {
    var l := LaneAt(file, es, n);
    ReachableInv(file, es, n);
    OnlyTheFirstMoves(file, l, c);
    forall i | Finished(l.calls) <= i < |l.calls| ensures !l.calls[i].phase.Done? { assert CallOk(l, i); }
    FirstIsFirstUnfinished(l.calls, c);
    StepMovesCall(l, es[n], c);
    StepMovesFile(l, es[n]);
  }

  lemma FirstIsFirstUnfinished(calls: seq<Call>, c: nat)
    requires c < |calls| && (forall i :: Finished(calls) <= i < |calls| ==> !calls[i].phase.Done?)
    ensures (forall i :: 0 <= i < c ==> calls[i].phase.Done?) <==> c <= Finished(calls)
  {
    if c > Finished(calls) { assert !calls[Finished(calls)].phase.Done?; }
  }

  // ---------------------------------------------------------------- many profiles

  /** The whole store after all events, whichever profiles they are of. */
  function StoreAfter(disk: map<Profile, File>, es: seq<ProfileEvent>): Store {
    if es == [] then Store(map[], map[], disk) else StoreStep(StoreAfter(disk, es[..|es| - 1]), es[|es| - 1])
  }

  function Own(es: seq<ProfileEvent>, p: Profile): seq<Event> {
    if es == [] then []
    else Own(es[..|es| - 1], p) + if es[|es| - 1].profile == p then [es[|es| - 1].event] else []
  }

  lemma {:induction false} RunsReadThePrefix(file: File, a: seq<Event>, b: seq<Event>, n: nat)
    requires n <= |a| && n <= |b| && a[..n] == b[..n]
    ensures LaneAt(file, a, n) == LaneAt(file, b, n)
  {
    if n > 0 {
      assert a[..n][n - 1] == a[n - 1] && b[..n][n - 1] == b[n - 1];
      assert a[..n - 1] == a[..n][..n - 1] && b[..n - 1] == b[..n][..n - 1];
      RunsReadThePrefix(file, a, b, n - 1);
    }
  }

  lemma OneMoreEvent(file: File, es: seq<Event>, e: Event)
    ensures LaneAt(file, es + [e], |es| + 1) == Step(LaneAt(file, es, |es|), e)
  {
    assert (es + [e])[..|es|] == es;
    RunsReadThePrefix(file, es, es + [e], |es|);
  }

  lemma PhaseMovesOneLane(s: Store, p: Profile, c: nat, phase: Phase, q: Profile)
    requires c < |CallsOf(s, p)|
    ensures LaneOf(SetPhase(s, p, c, phase), q) ==
            if q == p then LaneOf(s, p).(calls := CallsOf(s, p)[c := CallsOf(s, p)[c].(phase := phase)])
            else LaneOf(s, q)
  {
  }

  lemma FinishMovesOneLane(s: Store, p: Profile, c: nat, outcome: Result<Snapshot, Error>, q: Profile)
    requires c < |CallsOf(s, p)|
    ensures LaneOf(StoreFinish(s, p, c, outcome), q) ==
            if q == p then Finish(LaneOf(s, p), c, outcome) else LaneOf(s, q)
  {
  }

  lemma ProceedMovesOneLane(s: Store, p: Profile, c: nat, next: Result<Snapshot, Error>, q: Profile)
    requires c < |CallsOf(s, p)|
    ensures LaneOf(StoreProceed(s, p, c, next), q) == if q == p then Proceed(LaneOf(s, p), c, next) else LaneOf(s, q)
  {
    match next
    case Failure(e) => FinishMovesOneLane(s, p, c, Failure(e), q);
    case Success(snapshot) => PhaseMovesOneLane(s, p, c, Writing(snapshot), q);
  }

  lemma StartMovesOneLane(s: Store, p: Profile, c: nat, q: Profile)
    ensures LaneOf(StoreStep(s, ProfileEvent(p, Start(c))), q) ==
            if q == p then Step(LaneOf(s, q), Start(c)) else LaneOf(s, q)
  {
    if MayStart(LaneOf(s, p), c) {
      var m := CallsOf(s, p)[c].mutation;
      if m.Set? {
        ProceedMovesOneLane(s, p, c, Construct(m.snapshot), q);
      } else {
        PhaseMovesOneLane(s, p, c, Reading, q);
      }
    }
  }

  lemma ReadMovesOneLane(s: Store, p: Profile, c: nat, ok: bool, q: Profile)
    ensures LaneOf(StoreStep(s, ProfileEvent(p, ReadReturns(c, ok))), q) ==
            if q == p then Step(LaneOf(s, q), ReadReturns(c, ok)) else LaneOf(s, q)
  {
    if c < |CallsOf(s, p)| && CallsOf(s, p)[c].phase.Reading? {
      if ok {
        ProceedMovesOneLane(s, p, c, Effect(CallsOf(s, p)[c].mutation, FileOf(s, p)), q);
      } else {
        FinishMovesOneLane(s, p, c, Failure(Unreadable), q);
      }
    }
  }

  lemma WriteMovesOneLane(s: Store, p: Profile, c: nat, ok: bool, q: Profile)
    ensures LaneOf(StoreStep(s, ProfileEvent(p, WriteReturns(c, ok))), q) ==
            if q == p then Step(LaneOf(s, q), WriteReturns(c, ok)) else LaneOf(s, q)
  {
    if c < |CallsOf(s, p)| && CallsOf(s, p)[c].phase.Writing? {
      if ok {
        var snapshot := CallsOf(s, p)[c].phase.content;
        var written := s.(files := s.files[p := Stored(snapshot)]);
        assert LaneOf(written, p) == LaneOf(s, p).(file := Stored(snapshot));
        FinishMovesOneLane(written, p, c, Success(snapshot), q);
      } else {
        FinishMovesOneLane(s, p, c, Failure(WriteFailed), q);
      }
    }
  }

  /** An event of the store moves the lane of the profile it names as `Step` says, and no other. */
  lemma StoreMovesOneLane(s: Store, pe: ProfileEvent, q: Profile)
    ensures LaneOf(StoreStep(s, pe), q) == if q == pe.profile then Step(LaneOf(s, q), pe.event) else LaneOf(s, q)
  {
    match pe.event
    case Begin(_) =>
    case Start(c) => StartMovesOneLane(s, pe.profile, c, q);
    case ReadReturns(c, ok) => ReadMovesOneLane(s, pe.profile, c, ok, q);
    case WriteReturns(c, ok) => WriteMovesOneLane(s, pe.profile, c, ok, q);
  }

  /** In every run of the whole store, each profile is where it would be if its own events were the only ones. */
  lemma {:induction false} ProfilesAreIndependent(disk: map<Profile, File>, es: seq<ProfileEvent>, p: Profile)
    ensures LaneOf(StoreAfter(disk, es), p) ==
            LaneAt(if p in disk then disk[p] else Missing, Own(es, p), |Own(es, p)|)
  {
    if es != [] {
      var ds, e, file := es[..|es| - 1], es[|es| - 1], if p in disk then disk[p] else Missing;
      ProfilesAreIndependent(disk, ds, p);
      StoreMovesOneLane(StoreAfter(disk, ds), e, p);
      if e.profile == p { OneMoreEvent(file, Own(ds, p), e.event); } else { assert Own(es, p) == Own(ds, p); }
    }
  }
}
