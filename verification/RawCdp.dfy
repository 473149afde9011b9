/**
  The pending-command table of a raw DevTools connection.

  Replies, send failures, timeouts and closing arrive in any order and any number.  Settling
  a command means calling `resolve` or `reject` of its promise; `settled` records every call.
 */
module RawCdp {
  import opened Wrappers

  datatype Outcome = Resolved(result: string) | ProtocolError(message: string) | TimedOut | SendError | ConnectionClosed

  /** What a message with an id carries: an error, which may name itself, or a result, if it is an object. */
  datatype Body = ErrorBody(message: Option<string>) | ResultBody(result: Option<string>)

  const UNNAMED_ERROR := "RAW_CDP_PROTOCOL_ERROR"
  const EMPTY_RESULT := "{}"

  function OutcomeOf(body: Body): Outcome {
    match body
    case ErrorBody(message) => ProtocolError(if message.Some? then message.value else UNNAMED_ERROR)
    case ResultBody(result) => Resolved(if result.Some? then result.value else EMPTY_RESULT)
  }

  datatype Settlement = Settlement(id: nat, outcome: Outcome)

  /** `pending` keeps insertion order; `timers` are the timeouts not yet fired or cleared. */
  datatype State = State(nextId: nat, pending: seq<nat>, timers: set<nat>, closed: bool, socketOpen: bool,
                         settled: seq<Settlement>)

  datatype Event =
    | Send                              // a command, if the connection accepts it
    | SendFailed(id: nat)               // the socket could not send it
    | Reply(id: nat, body: Body)        // a message with this id
    | Timeout(id: nat)
    | SocketErrors
    | SocketCloses
    | Close

  const INITIAL := State(0, [], {}, false, true, [])

  function Without(ids: seq<nat>, id: nat): seq<nat> {
    if ids == [] then [] else (if ids[0] == id then [] else [ids[0]]) + Without(ids[1..], id)
  }

  function All(ids: seq<nat>, outcome: Outcome): seq<Settlement> {
    if ids == [] then [] else [Settlement(ids[0], outcome)] + All(ids[1..], outcome)
  }

  predicate Accepts(s: State) { !s.closed && s.socketOpen }

  /** Settle a command that is still pending; ignore anything else. */
  function Settle(s: State, id: nat, outcome: Outcome): State {
    if id in s.pending then
      s.(pending := Without(s.pending, id), timers := s.timers - {id}, settled := s.settled + [Settlement(id, outcome)])
    else s
  }

  /** Reject everything that is pending and accept nothing more. */
  function CloseAll(s: State): State {
    s.(closed := true, timers := s.timers - (set id | id in s.pending), pending := [],
       settled := s.settled + All(s.pending, ConnectionClosed))
  }

  function Step(s: State, e: Event): State {
    match e
    case Send =>
      if Accepts(s) then
        s.(nextId := s.nextId + 1, pending := s.pending + [s.nextId + 1], timers := s.timers + {s.nextId + 1})
      else s
    case SendFailed(id) => Settle(s, id, SendError)
    case Reply(id, body) => Settle(s, id, OutcomeOf(body))
    case Timeout(id) =>
      if id in s.timers then
        s.(timers := s.timers - {id}, pending := Without(s.pending, id),
           settled := s.settled + [Settlement(id, TimedOut)])
      else s
    case SocketErrors => CloseAll(s)
    case SocketCloses => CloseAll(s).(socketOpen := false)
    case Close => if s.closed then s else CloseAll(s).(socketOpen := false)
  }

  // ---------------------------------------------------------------- the connection

  class RawCdpConnection {
    var nextId: nat
    var pending: seq<nat>
    var timers: set<nat>
    var closed: bool
    var socketOpen: bool
    ghost var settled: seq<Settlement>

    ghost function View(): State
      reads this
    {
      State(nextId, pending, timers, closed, socketOpen, settled)
    }

    constructor ()
      ensures View() == INITIAL
    {
      nextId, pending, timers, closed, socketOpen, settled := 0, [], {}, false, true, [];
    }

    method SendCommand() returns (id: Result<nat, Outcome>)
      modifies this
      ensures View() == Step(old(View()), Send)
      ensures id == if Accepts(old(View())) then Success(old(nextId) + 1) else Failure(ConnectionClosed)
    {
      if closed || !socketOpen { return Failure(ConnectionClosed); }
      nextId := nextId + 1;
      timers := timers + {nextId};
      pending := pending + [nextId];
      return Success(nextId);
    }

    method SettleCommand(id: nat, outcome: Outcome)
      modifies this
      ensures View() == Settle(old(View()), id, outcome)
    {
      if id !in pending { return; }
      timers := timers - {id};
      pending := Without(pending, id);
      settled := settled + [Settlement(id, outcome)];
    }

    method HandleMessage(id: nat, body: Body)
      modifies this
      ensures View() == Step(old(View()), Reply(id, body))
    {
      match body
      case ErrorBody(message) =>
        SettleCommand(id, ProtocolError(if message.Some? then message.value else UNNAMED_ERROR));
      case ResultBody(result) => SettleCommand(id, Resolved(if result.Some? then result.value else EMPTY_RESULT));
    }

    method HandleTimeout(id: nat)
      modifies this
      ensures View() == Step(old(View()), Timeout(id))
    {
      if id !in timers { return; }
      timers := timers - {id};
      pending := Without(pending, id);
      settled := settled + [Settlement(id, TimedOut)];
    }

    method HandleClose()
      modifies this
      ensures View() == CloseAll(old(View()))
    {
      closed := true;
      var i := 0;
      ghost var before, armed := settled, timers;
      assert pending[0..] == pending;
      while i < |pending|
        invariant 0 <= i <= |pending|
        invariant pending == old(pending) && closed && nextId == old(nextId) && socketOpen == old(socketOpen)
        invariant timers == armed - (set id | id in pending[..i])
        invariant before + All(pending, ConnectionClosed) == settled + All(pending[i..], ConnectionClosed)
      {
        assert pending[i..][1..] == pending[i + 1..];
        assert pending[..i + 1] == pending[..i] + [pending[i]];
        timers := timers - {pending[i]};
        settled := settled + [Settlement(pending[i], ConnectionClosed)];
        i := i + 1;
      }
      assert pending[..i] == pending;
      pending := [];
    }

    method HandleSocketClose()
      modifies this
      ensures View() == Step(old(View()), SocketCloses)
    {
      HandleClose();
      socketOpen := false;
    }

    method CloseConnection()
      modifies this
      ensures View() == Step(old(View()), Close)
    {
      if closed { return; }
      HandleClose();
      socketOpen := false;
    }
  }

  // ---------------------------------------------------------------- every run

  function StateAt(es: seq<Event>, n: nat): State
    requires n <= |es|
  {
    if n == 0 then INITIAL else Step(StateAt(es, n - 1), es[n - 1])
  }

  function Count(settled: seq<Settlement>, id: nat): nat {
    if settled == [] then 0
    else Count(settled[..|settled| - 1], id) + if settled[|settled| - 1].id == id then 1 else 0
  }

  function Occurrences(ids: seq<nat>, id: nat): nat {
    if ids == [] then 0 else (if ids[0] == id then 1 else 0) + Occurrences(ids[1..], id)
  }

  /** A command is either pending, once, with its timer armed, or settled exactly once. */
  predicate CommandOk(s: State, id: nat) {
    && (id in s.timers <==> id in s.pending)
    && Count(s.settled, id) + Occurrences(s.pending, id) == (if 1 <= id <= s.nextId then 1 else 0)
    && (s.closed ==> s.pending == [])
  }

  lemma {:induction false} OccurrencesMeansIn(ids: seq<nat>, id: nat)
    ensures Occurrences(ids, id) > 0 <==> id in ids
  {
    if ids != [] { OccurrencesMeansIn(ids[1..], id); }
  }

  lemma {:induction false} OccurrencesWithout(ids: seq<nat>, gone: nat, id: nat)
    ensures Occurrences(Without(ids, gone), id) == if id == gone then 0 else Occurrences(ids, id)
    ensures id in Without(ids, gone) <==> id in ids && id != gone
  {
    if ids != [] {
      OccurrencesWithout(ids[1..], gone, id);
      var rest := Without(ids[1..], gone);
      assert [] + rest == rest && ([ids[0]] + rest)[1..] == rest;
    }
  }

  lemma {:induction false} OccurrencesOfOneMore(ids: seq<nat>, last: nat, id: nat)
    ensures Occurrences(ids + [last], id) == Occurrences(ids, id) + if last == id then 1 else 0
  {
    if ids == [] {
      assert ids + [last] == [last] && [last][1..] == [];
    } else {
      OccurrencesOfOneMore(ids[1..], last, id);
      assert (ids + [last])[1..] == ids[1..] + [last];
    }
  }

  lemma CountOfOneMore(settled: seq<Settlement>, last: Settlement, id: nat)
    ensures Count(settled + [last], id) == Count(settled, id) + if last.id == id then 1 else 0
  {
    assert (settled + [last])[..|settled|] == settled;
  }

  lemma {:induction false} CountOfTwoParts(a: seq<Settlement>, b: seq<Settlement>, id: nat)
    ensures Count(a + b, id) == Count(a, id) + Count(b, id)
  {
    if b == [] {
      assert a + b == a;
    } else {
      var front, last := b[..|b| - 1], b[|b| - 1];
      CountOfTwoParts(a, front, id);
      assert a + b == (a + front) + [last];
      CountOfOneMore(a + front, last, id);
    }
  }

  lemma {:induction false} CountOfAll(ids: seq<nat>, outcome: Outcome, id: nat)
    ensures Count(All(ids, outcome), id) == Occurrences(ids, id)
  {
    if ids != [] {
      var one := Settlement(ids[0], outcome);
      CountOfAll(ids[1..], outcome, id);
      CountOfTwoParts([one], All(ids[1..], outcome), id);
      CountOfOneMore([], one, id);
      assert [] + [one] == [one];
    }
  }

  lemma SettleKeeps(s: State, gone: nat, outcome: Outcome, id: nat)
    requires CommandOk(s, id) && gone in s.pending
    ensures CommandOk(s.(pending := Without(s.pending, gone), timers := s.timers - {gone},
                         settled := s.settled + [Settlement(gone, outcome)]), id)
  {
    OccurrencesWithout(s.pending, gone, id);
    OccurrencesMeansIn(s.pending, id);
    CountOfOneMore(s.settled, Settlement(gone, outcome), id);
  }

  lemma StepKeeps(s: State, e: Event, id: nat)
    requires forall i :: CommandOk(s, i)
    ensures CommandOk(Step(s, e), id)
  {
    assert CommandOk(s, id);
    OccurrencesMeansIn(s.pending, id);
    match e
    case Send => OccurrencesOfOneMore(s.pending, s.nextId + 1, id);
    case SendFailed(gone) => if gone in s.pending { SettleKeeps(s, gone, SendError, id); }
    case Reply(gone, body) => if gone in s.pending { SettleKeeps(s, gone, OutcomeOf(body), id); }
    case Timeout(gone) =>
      assert CommandOk(s, gone);
      if gone in s.timers { SettleKeeps(s, gone, TimedOut, id); }
    case _ =>
      CountOfAll(s.pending, ConnectionClosed, id);
      CountOfTwoParts(s.settled, All(s.pending, ConnectionClosed), id);
  }

  lemma {:induction false} ReachableIsOk(es: seq<Event>, n: nat, id: nat)
    requires n <= |es|
    ensures CommandOk(StateAt(es, n), id)
    decreases n
  {
    if n > 0 {
      var s := StateAt(es, n - 1);
      forall i ensures CommandOk(s, i) { ReachableIsOk(es, n - 1, i); }
      StepKeeps(s, es[n - 1], id);
    } else {
      assert Occurrences([], id) == 0 && Count([], id) == 0;
    }
  }

  /** Every command is settled exactly once: not before it leaves the table, and never again. */
  lemma EachCommandSettlesOnce(es: seq<Event>, n: nat, id: nat)
    requires n <= |es|
    ensures var s := StateAt(es, n);
            && Count(s.settled, id) == (if 1 <= id <= s.nextId && id !in s.pending then 1 else 0)
            && (id in s.pending ==> 1 <= id <= s.nextId)
            && (s.closed && 1 <= id <= s.nextId ==> Count(s.settled, id) == 1)
  {
    ReachableIsOk(es, n, id);
    OccurrencesMeansIn(StateAt(es, n).pending, id);
  }

  /** A closed connection stays closed and takes no command. */
  lemma {:induction false} ClosedStaysClosed(es: seq<Event>, m: nat, n: nat)
    requires m <= n <= |es| && StateAt(es, m).closed
    ensures StateAt(es, n).closed && !Accepts(StateAt(es, n)) && StateAt(es, n).nextId == StateAt(es, m).nextId
  {
    if m < n { ClosedStaysClosed(es, m, n - 1); }
  }

  // ---------------------------------------------------------------- which outcome

  /** What an event says about a command that waits for it. */
  function Verdict(e: Event, id: nat): Option<Outcome> {
    match e
    case Send => None
    case SendFailed(x) => if x == id then Some(SendError) else None
    case Timeout(x) => if x == id then Some(TimedOut) else None
    case Reply(x, ErrorBody(Some(message))) => if x == id then Some(ProtocolError(message)) else None
    case Reply(x, ErrorBody(None)) => if x == id then Some(ProtocolError("RAW_CDP_PROTOCOL_ERROR")) else None
    case Reply(x, ResultBody(Some(result))) => if x == id then Some(Resolved(result)) else None
    case Reply(x, ResultBody(None)) => if x == id then Some(Resolved("{}")) else None
    case _ => Some(ConnectionClosed)
  }

  /** The first verdict among the events from `i` up to `n`. */
  function FirstVerdict(es: seq<Event>, i: nat, n: nat, id: nat): Option<Outcome>
    requires i <= n <= |es|
    decreases n
  {
    if i == n then None
    else if FirstVerdict(es, i, n - 1, id).Some? then FirstVerdict(es, i, n - 1, id)
    else Verdict(es[n - 1], id)
  }

  /** What the calls of `resolve` and `reject` say about a command. */
  ghost predicate SettledAs(settled: seq<Settlement>, id: nat, verdict: Option<Outcome>) {
    forall outcome :: Settlement(id, outcome) in settled <==> verdict == Some(outcome)
  }

  lemma {:induction false} AllSettles(ids: seq<nat>, outcome: Outcome, x: Settlement)
    ensures x in All(ids, outcome) <==> x.id in ids && x.outcome == outcome
  {
    if ids != [] { AllSettles(ids[1..], outcome, x); }
  }

  lemma WaitingIsDecided(s: State, e: Event, id: nat)
    requires id in s.pending && id in s.timers && !s.closed && id <= s.nextId
    requires SettledAs(s.settled, id, None)
    ensures var u := Step(s, e);
            && (id in u.pending <==> Verdict(e, id).None?)
            && SettledAs(u.settled, id, Verdict(e, id))
  {
    var u := Step(s, e);
    match e
    case SendFailed(x) => OccurrencesMeansWithout(s.pending, x, id);
    case Reply(x, _) => OccurrencesMeansWithout(s.pending, x, id);
    case Timeout(x) => OccurrencesMeansWithout(s.pending, x, id);
    case Send =>
    case _ =>
      forall outcome ensures Settlement(id, outcome) in u.settled <==> outcome == ConnectionClosed {
        AllSettles(s.pending, ConnectionClosed, Settlement(id, outcome));
      }
  }

  lemma OccurrencesMeansWithout(ids: seq<nat>, gone: nat, id: nat)
    ensures id in Without(ids, gone) <==> id in ids && id != gone
  {
    OccurrencesWithout(ids, gone, id);
  }

  lemma DecidedStays(s: State, e: Event, id: nat, verdict: Option<Outcome>)
    requires id !in s.pending && id !in s.timers && id <= s.nextId && SettledAs(s.settled, id, verdict)
    ensures var u := Step(s, e); id !in u.pending && id !in u.timers && SettledAs(u.settled, id, verdict)
  {
    var u := Step(s, e);
    match e
    case SendFailed(x) => OccurrencesMeansWithout(s.pending, x, id);
    case Reply(x, _) => OccurrencesMeansWithout(s.pending, x, id);
    case Timeout(x) => OccurrencesMeansWithout(s.pending, x, id);
    case Send =>
    case _ =>
      forall outcome ensures Settlement(id, outcome) in u.settled <==> verdict == Some(outcome) {
        AllSettles(s.pending, ConnectionClosed, Settlement(id, outcome));
      }
  }

  lemma NothingSettledYet(settled: seq<Settlement>, id: nat)
    requires Count(settled, id) == 0
    ensures SettledAs(settled, id, None)
  {
    if settled != [] { NothingSettledYet(settled[..|settled| - 1], id); }
  }

  /** The outcome of a command is known, or it waits. */
  ghost predicate Decided(s: State, id: nat, verdict: Option<Outcome>) {
    id <= s.nextId && (id in s.pending <==> verdict.None?) && SettledAs(s.settled, id, verdict)
  }

  lemma IssuedNow(s: State, e: Event, id: nat)
    requires CommandOk(s, id) && s.nextId < id == Step(s, e).nextId
    ensures Decided(Step(s, e), id, None)
  {
    NothingSettledYet(s.settled, id);
  }

  lemma NextIsDecided(s: State, e: Event, id: nat, verdict: Option<Outcome>)
    requires CommandOk(s, id) && Decided(s, id, verdict)
    ensures Decided(Step(s, e), id, if verdict.Some? then verdict else Verdict(e, id))
  {
    if verdict.None? { WaitingIsDecided(s, e, id); } else { DecidedStays(s, e, id, verdict); }
  }

  lemma {:induction false} IssuedIsDecided(es: seq<Event>, i: nat, n: nat, id: nat)
    requires i < n <= |es| && StateAt(es, i).nextId < id == StateAt(es, i + 1).nextId
    ensures Decided(StateAt(es, n), id, FirstVerdict(es, i + 1, n, id))
    decreases n
  {
    var s, e := StateAt(es, n - 1), es[n - 1];
    ReachableIsOk(es, n - 1, id);
    OccurrencesMeansIn(s.pending, id);
    if n == i + 1 {
      IssuedNow(s, e, id);
    } else {
      IssuedIsDecided(es, i, n - 1, id);
      NextIsDecided(s, e, id, FirstVerdict(es, i + 1, n - 1, id));
    }
  }

  /**
    A command issued by event `i` is settled with what the first event after it that concerns it
    says, whatever comes later, and it is pending until then.
   */
  lemma FirstVerdictCounts(es: seq<Event>, i: nat, n: nat)
    requires i < n <= |es| && StateAt(es, i + 1).nextId != StateAt(es, i).nextId
    ensures var id, s := StateAt(es, i + 1).nextId, StateAt(es, n);
            && (id in s.pending <==> FirstVerdict(es, i + 1, n, id).None?)
            && SettledAs(s.settled, id, FirstVerdict(es, i + 1, n, id))
  {
    IssuedIsDecided(es, i, n, StateAt(es, i + 1).nextId);
  }

  /** A command is issued exactly by a call on a connection that neither side has closed and that has not failed. */
  lemma IssuesExactly(es: seq<Event>, n: nat)
    requires n < |es|
    ensures StateAt(es, n + 1).nextId == StateAt(es, n).nextId
              + if es[n].Send? && forall k :: 0 <= k < n ==> !Ends(es[k]) then 1 else 0
  {
    OpenUntilItEnds(es, n);
  }

  predicate Ends(e: Event) { e.Close? || e.SocketCloses? || e.SocketErrors? }

  lemma {:induction false} OpenUntilItEnds(es: seq<Event>, n: nat)
    requires n <= |es|
    ensures Accepts(StateAt(es, n)) <==> forall k :: 0 <= k < n ==> !Ends(es[k])
    ensures !StateAt(es, n).socketOpen ==> StateAt(es, n).closed
  {
    if n > 0 {
      OpenUntilItEnds(es, n - 1);
      assert (forall k :: 0 <= k < n ==> !Ends(es[k])) <==>
             ((forall k :: 0 <= k < n - 1 ==> !Ends(es[k])) && !Ends(es[n - 1]));
    }
  }
}
