/**
  The health files of all profiles, behind one queue of mutations per profile.

  A call of `setHealth` or `updateHealth` waits for the promise the previous call left in the
  queue map, then reads and writes its file with awaits in between.  Calls of one profile are
  numbered in the order they were made.
 */
module AccountHealthStore {
  import opened Wrappers
  import opened AccountHealthStates

  type Profile = string

  datatype File = Missing | Stored(snapshot: Snapshot) | Corrupt

  datatype Mutation =
    | Set(snapshot: Snapshot)
    | Update(f: Option<Snapshot> -> Result<Snapshot, Error>)

  datatype Phase =
    | Waiting                       // for the previous call's promise
    | Reading                       // for the file
    | Writing(content: Snapshot)    // for the file
    | Done(outcome: Result<Snapshot, Error>)

  /** `prev` is the call whose promise was in the queue map; `released` says the gate is open. */
  datatype Call = Call(mutation: Mutation, prev: Option<nat>, phase: Phase, released: bool)

  /** One profile: its calls, the last queued promise, and its file. */
  datatype Lane = Lane(calls: seq<Call>, tail: Option<nat>, file: File)

  datatype Event =
    | Begin(mutation: Mutation)
    | Start(c: nat)
    | ReadReturns(c: nat, ok: bool)
    | WriteReturns(c: nat, ok: bool)

  // ---------------------------------------------------------------- one mutation

  function Current(file: File): Result<Option<Snapshot>, Error> {
    match file
    case Missing => Success(None)
    case Corrupt => Failure(Unreadable)
    case Stored(s) => match Construct(s) case Success(t) => Success(Some(t)) case Failure(e) => Failure(e)
  }

  /** What a mutation wants to store, given the file it reads; the written form is validated. */
  function Effect(m: Mutation, file: File): Result<Snapshot, Error> {
    match m
    case Set(s) => Construct(s)
    case Update(f) =>
      match Current(file)
      case Failure(e) => Failure(e)
      case Success(current) =>
        match f(current)
        case Failure(e) => Failure(e)
        case Success(s) => Construct(s)
  }

  // ---------------------------------------------------------------- one profile

  /** The promise a call queued: settled once its gate is open and the promise before it is settled. */
  predicate Settled(calls: seq<Call>, c: nat)
    decreases c
  {
    c < |calls| && calls[c].released &&
    (calls[c].prev.Some? ==> calls[c].prev.value < c && Settled(calls, calls[c].prev.value))
  }

  predicate MayStart(l: Lane, c: nat) {
    && c < |l.calls| && l.calls[c].phase.Waiting?
    && (l.calls[c].prev.Some? ==> Settled(l.calls, l.calls[c].prev.value))
  }

  /** The `finally` block: open the gate, and clear the queue entry if it is still one's own. */
  function Finish(l: Lane, c: nat, outcome: Result<Snapshot, Error>): Lane
    requires c < |l.calls|
  {
    l.(calls := l.calls[c := l.calls[c].(phase := Done(outcome), released := true)],
       tail := if l.tail == Some(c) then None else l.tail)
  }

  /** Go on to write, or fail. */
  function Proceed(l: Lane, c: nat, next: Result<Snapshot, Error>): Lane
    requires c < |l.calls|
  {
    match next
    case Failure(e) => Finish(l, c, Failure(e))
    case Success(s) => l.(calls := l.calls[c := l.calls[c].(phase := Writing(s))])
  }

  function Step(l: Lane, e: Event): Lane {
    match e
    case Begin(m) => l.(calls := l.calls + [Call(m, l.tail, Waiting, false)], tail := Some(|l.calls|))
    case Start(c) =>
      if !MayStart(l, c) then l
      else if l.calls[c].mutation.Set? then Proceed(l, c, Effect(l.calls[c].mutation, l.file))
      else l.(calls := l.calls[c := l.calls[c].(phase := Reading)])
    case ReadReturns(c, ok) =>
      if c >= |l.calls| || !l.calls[c].phase.Reading? then l
      else if !ok then Finish(l, c, Failure(Unreadable))
      else Proceed(l, c, Effect(l.calls[c].mutation, l.file))
    case WriteReturns(c, ok) =>
      if c >= |l.calls| || !l.calls[c].phase.Writing? then l
      else if !ok then Finish(l, c, Failure(WriteFailed))
      else
        var s := l.calls[c].phase.content;
        Finish(l.(file := Stored(s)), c, Success(s))
  }

  // ---------------------------------------------------------------- all profiles

  /** The queue map, the calls made so far and the files, by profile. */
  datatype Store = Store(mutationQueues: map<Profile, nat>, calls: map<Profile, seq<Call>>, files: map<Profile, File>)

  datatype ProfileEvent = ProfileEvent(profile: Profile, event: Event)

  function CallsOf(s: Store, p: Profile): seq<Call> { if p in s.calls then s.calls[p] else [] }

  function FileOf(s: Store, p: Profile): File { if p in s.files then s.files[p] else Missing }

  /** One profile's part of the store. */
  function LaneOf(s: Store, p: Profile): Lane {
    Lane(CallsOf(s, p), if p in s.mutationQueues then Some(s.mutationQueues[p]) else None, FileOf(s, p))
  }

  function SetPhase(s: Store, p: Profile, c: nat, phase: Phase): Store
    requires c < |CallsOf(s, p)|
  {
    s.(calls := s.calls[p := CallsOf(s, p)[c := CallsOf(s, p)[c].(phase := phase)]])
  }

  function StoreFinish(s: Store, p: Profile, c: nat, outcome: Result<Snapshot, Error>): Store
    requires c < |CallsOf(s, p)|
  {
    var mine := p in s.mutationQueues && s.mutationQueues[p] == c;
    s.(calls := s.calls[p := CallsOf(s, p)[c := CallsOf(s, p)[c].(phase := Done(outcome), released := true)]],
       mutationQueues := if mine then s.mutationQueues - {p} else s.mutationQueues)
  }

  function StoreProceed(s: Store, p: Profile, c: nat, next: Result<Snapshot, Error>): Store
    requires c < |CallsOf(s, p)|
  {
    match next
    case Failure(e) => StoreFinish(s, p, c, Failure(e))
    case Success(snapshot) => SetPhase(s, p, c, Writing(snapshot))
  }

  /** One event of the whole store: a new call, or a call of some profile going on. */
  function StoreStep(s: Store, pe: ProfileEvent): Store {
    var p, mine := pe.profile, CallsOf(s, pe.profile);
    match pe.event
    case Begin(m) =>
      var previous := if p in s.mutationQueues then Some(s.mutationQueues[p]) else None;
      s.(calls := s.calls[p := mine + [Call(m, previous, Waiting, false)]],
         mutationQueues := s.mutationQueues[p := |mine|])
    case Start(c) =>
      if c >= |mine| || !mine[c].phase.Waiting? then s
      else if mine[c].prev.Some? && !Settled(mine, mine[c].prev.value) then s
      else if mine[c].mutation.Set? then StoreProceed(s, p, c, Construct(mine[c].mutation.snapshot))
      else SetPhase(s, p, c, Reading)
    case ReadReturns(c, ok) =>
      if c >= |mine| || !mine[c].phase.Reading? then s
      else if !ok then StoreFinish(s, p, c, Failure(Unreadable))
      else StoreProceed(s, p, c, Effect(mine[c].mutation, FileOf(s, p)))
    case WriteReturns(c, ok) =>
      if c >= |mine| || !mine[c].phase.Writing? then s
      else if !ok then StoreFinish(s, p, c, Failure(WriteFailed))
      else
        var snapshot := mine[c].phase.content;
        StoreFinish(s.(files := s.files[p := Stored(snapshot)]), p, c, Success(snapshot))
  }

  // ---------------------------------------------------------------- the store

  class AccountHealthStore {
    var mutationQueues: map<Profile, nat>
    var calls: map<Profile, seq<Call>>
    var files: map<Profile, File>

    ghost function View(): Store
      reads this
    {
      Store(mutationQueues, calls, files)
    }

    function Mine(p: Profile): seq<Call>
      reads this
    {
      if p in calls then calls[p] else []
    }

    constructor (disk: map<Profile, File>)
      ensures View() == Store(map[], map[], disk)
    {
      mutationQueues, calls, files := map[], map[], disk;
    }

    /** A call of `setHealth` or `updateHealth`, up to its first await. */
    method BeginMutation(p: Profile, m: Mutation) returns (c: nat)
      modifies this
      ensures View() == StoreStep(old(View()), ProfileEvent(p, Begin(m))) && c == |CallsOf(old(View()), p)|
    {
      var previous := if p in mutationQueues then Some(mutationQueues[p]) else None;
      var mine := Mine(p);
      c := |mine|;
      calls := calls[p := mine + [Call(m, previous, Waiting, false)]];
      mutationQueues := mutationQueues[p := c];
    }

    method FinishMutation(p: Profile, c: nat, outcome: Result<Snapshot, Error>)
      requires c < |CallsOf(View(), p)|
      modifies this
      ensures View() == StoreFinish(old(View()), p, c, outcome)
    {
      calls := calls[p := calls[p][c := calls[p][c].(phase := Done(outcome), released := true)]];
      if p in mutationQueues && mutationQueues[p] == c { mutationQueues := mutationQueues - {p}; }
    }

    method ProceedMutation(p: Profile, c: nat, next: Result<Snapshot, Error>)
      requires c < |CallsOf(View(), p)|
      modifies this
      ensures View() == StoreProceed(old(View()), p, c, next)
    {
      match next
      case Failure(e) => FinishMutation(p, c, Failure(e));
      case Success(s) => calls := calls[p := calls[p][c := calls[p][c].(phase := Writing(s))]];
    }

    method StartMutation(p: Profile, c: nat)
      modifies this
      ensures View() == StoreStep(old(View()), ProfileEvent(p, Start(c)))
    {
      var mine := Mine(p);
      if c >= |mine| || !mine[c].phase.Waiting? { return; }
      if mine[c].prev.Some? && !Settled(mine, mine[c].prev.value) { return; }
      match mine[c].mutation
      case Set(s) => ProceedMutation(p, c, Construct(s));
      case Update(_) => calls := calls[p := mine[c := mine[c].(phase := Reading)]];
    }

    method ContinueRead(p: Profile, c: nat, ok: bool)
      modifies this
      ensures View() == StoreStep(old(View()), ProfileEvent(p, ReadReturns(c, ok)))
    {
      var mine := Mine(p);
      if c >= |mine| || !mine[c].phase.Reading? { return; }
      if ok {
        ProceedMutation(p, c, Effect(mine[c].mutation, if p in files then files[p] else Missing));
      } else {
        FinishMutation(p, c, Failure(Unreadable));
      }
    }

    method ContinueWrite(p: Profile, c: nat, ok: bool)
      modifies this
      ensures View() == StoreStep(old(View()), ProfileEvent(p, WriteReturns(c, ok)))
    {
      var mine := Mine(p);
      if c >= |mine| || !mine[c].phase.Writing? { return; }
      if ok {
        files := files[p := Stored(mine[c].phase.content)];
        FinishMutation(p, c, Success(mine[c].phase.content));
      } else {
        FinishMutation(p, c, Failure(WriteFailed));
      }
    }
  }
}
