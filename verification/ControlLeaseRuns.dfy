/**
  Whole runs of one lease manager: calls by anyone, in any order and with any
  arguments, interleaved with timer callbacks of any generation at any moment.
 */
module ControlLeaseRuns {
  import opened Wrappers
  import opened ControlLease

  datatype Event =
    | Invoke(call: Call, clock: Clock)
    | TimerFires(generation: nat, clock: Clock)

  function Step(cfg: Config, s: State, e: Event): State {
    match e
    case Invoke(call, c) => Invoked(cfg, s, call, c).0
    case TimerFires(g, c) => Expiry(s, g, c.expire, c.stamp)
  }

  /** The state after the first `n` events. */
  function StateAt(cfg: Config, es: seq<Event>, n: nat): State
    requires n <= |es|
  {
    if n == 0 then INITIAL else Step(cfg, StateAt(cfg, es, n - 1), es[n - 1])
  }

  function ResponseAt(cfg: Config, es: seq<Event>, i: nat): Response
    requires i < |es| && es[i].Invoke?
  {
    Invoked(cfg, StateAt(cfg, es, i), es[i].call, es[i].clock).1
  }

  // ---------------------------------------------------------------- reachable states

  /** How the four state fields and the lease record fit together. */
  ghost predicate Coherent(s: State) {
    match s.handoff
    case NoHandoff => s.control == AgentControlled && s.owner == AgentOwned && s.lease.None?
    case Pending => s.control == Inactive && s.owner == Unowned && LiveLease(s) && s.lease.value.activatedAt.None?
    case Active => s.control == UserControlled && s.owner == UserOwned && LiveLease(s)
    case Released => s.control == Inactive && s.owner == Unowned && s.lease.None?
    case Expired => s.control == Inactive && s.owner == Unowned && (s.lease.Some? ==> s.lease.value.digest.Zeroed?)
  }

  ghost predicate LiveLease(s: State) {
    s.lease.Some? && s.lease.value.digest.Sha256? && s.releasedAt.None? && s.expiredAt.None?
  }

  lemma StepKeepsCoherence(cfg: Config, s: State, e: Event)
    requires Coherent(s)
    ensures Coherent(Step(cfg, s, e))
  {
    if e.Invoke? && !e.call.Dispose? {
      assert Coherent(Settle(s, e.clock));
    }
  }

  lemma {:induction false} ReachableIsCoherent(cfg: Config, es: seq<Event>, n: nat)
    requires n <= |es|
    ensures Coherent(StateAt(cfg, es, n))
  {
    if n > 0 {
      ReachableIsCoherent(cfg, es, n - 1);
      StepKeepsCoherence(cfg, StateAt(cfg, es, n - 1), es[n - 1]);
    }
  }

  /** The status flag, the throwing guard and the state fields never disagree about agent writes. */
  lemma WriteGuardsAgree(cfg: Config, es: seq<Event>, n: nat)
    requires n <= |es|
    ensures var s := StateAt(cfg, es, n);
      && (StatusOf(s).agentWriteAllowed <==> AgentCheck(s) == Permitted)
      && (StatusOf(s).agentWriteAllowed <==> s.handoff == NoHandoff)
      && StatusOf(s).hardStop == !StatusOf(s).agentWriteAllowed
      && (StatusOf(s).userControlActive <==> s.handoff == Active)
      && (forall token :: UserControlCheck(s, token) == Permitted ==>
            StatusOf(s).userControlActive && Matches(s, token))
  {
    ReachableIsCoherent(cfg, es, n);
  }

  // ---------------------------------------------------------------- no silent reclaim

  /** One event of a run with the states around it and, for a call, its response. */
  datatype Entry = Entry(event: Event, before: State, response: Response, after: State)

  function EntryAt(cfg: Config, es: seq<Event>, i: nat): Entry
    requires i < |es|
  {
    var response := if es[i].Invoke? then ResponseAt(cfg, es, i) else Permitted;
    Entry(es[i], StateAt(cfg, es, i), response, StateAt(cfg, es, i + 1))
  }

  function Trace(cfg: Config, es: seq<Event>): (tr: seq<Entry>)
    ensures |tr| == |es|
  {
    seq(|es|, i requires 0 <= i < |es| => EntryAt(cfg, es, i))
  }

  ghost predicate Granting(en: Entry) { en.event.Invoke? && en.event.call.RequestHandoff? && en.response.Granted? }

  ghost predicate Grants(en: Entry, token: string, deadline: int) {
    && Granting(en) && en.response.leaseToken == token && en.response.status.expiresAt == Some(deadline)
  }

  ghost predicate ByConfirmedUser(en: Entry) {
    && en.event.Invoke? && en.response.Returned?
    && (en.event.call.Takeover? || en.event.call.Release? || en.event.call.RecoverExpired?)
    && ActorOr(en.event.call.actor, UserActor) == UserActor && en.event.call.confirmed
  }

  ghost predicate TakesOver(en: Entry, token: string) {
    ByConfirmedUser(en) && en.event.call.Takeover? && en.event.call.token == token
  }

  ghost predicate Releases(en: Entry, token: string, deadline: int) {
    ByConfirmedUser(en) && en.event.call.Release? && en.event.call.token == token && en.event.clock.check < deadline
  }

  ghost predicate Recovers(en: Entry) {
    ByConfirmedUser(en) && en.event.call.RecoverExpired? && Settle(en.before, en.event.clock).handoff == Expired
  }

  ghost predicate Resumes(en: Entry) {
    && en.event.Invoke? && en.event.call.Resume? && en.response.Returned?
    && ActorOr(en.event.call.resumeActor, AgentActor) == AgentActor
  }

  /** A grant at `h`, no older than `i`, that its own token took over at `m`. */
  ghost predicate TakenOver(tr: seq<Entry>, i: nat, h: nat, m: nat, token: string, deadline: int) {
    i <= h < m < |tr| && Grants(tr[h], token, deadline) && TakesOver(tr[m], token)
  }

  /** The user-confirmed steps that may end a handoff issued at `i`. */
  ghost predicate UserStep(tr: seq<Entry>, i: nat, k: nat) {
    && k < |tr|
    && (|| Recovers(tr[k])
        || exists h: nat, m: nat, token: string, deadline: int ::
             m < k && TakenOver(tr, i, h, m, token, deadline) && Releases(tr[k], token, deadline))
  }

  /** What the state `s` after `n` events says about the events since the handoff at `i`. */
  ghost predicate Explained(tr: seq<Entry>, i: nat, n: nat, s: State) {
    match s.handoff
    case Pending => LiveLease(s) &&
      exists h: nat :: i <= h < n <= |tr| && Grants(tr[h], s.lease.value.digest.token, s.lease.value.expiresAt)
    case Active => LiveLease(s) &&
      exists h: nat, m: nat :: m < n && TakenOver(tr, i, h, m, s.lease.value.digest.token, s.lease.value.expiresAt)
    case Released => exists k: nat :: i < k < n && UserStep(tr, i, k)
    case NoHandoff => exists k: nat, l: nat :: i < k < l < n <= |tr| && UserStep(tr, i, k) && Resumes(tr[l])
    case Expired => true
  }

  ghost predicate SameLease(s: State, t: State) { t.handoff == s.handoff && t.lease == s.lease }

  /** What one event must have been to lead into each state of the handoff. */
  ghost predicate Accounted(en: Entry) {
    var s, t := en.before, en.after;
    && Coherent(t)
    && (Granting(en) ==> t.handoff == Pending && Grants(en, t.lease.value.digest.token, t.lease.value.expiresAt))
    && (SameLease(s, t) || match t.handoff
        case Pending => LiveLease(t) && Grants(en, t.lease.value.digest.token, t.lease.value.expiresAt)
        case Active => s.handoff == Pending && LiveLease(s) && LiveLease(t)
          && t.lease.value.digest == s.lease.value.digest
          && t.lease.value.expiresAt == s.lease.value.expiresAt && TakesOver(en, t.lease.value.digest.token)
        case Released => Recovers(en)
          || (s.handoff == Active && LiveLease(s) && Releases(en, s.lease.value.digest.token, s.lease.value.expiresAt))
        case NoHandoff => s.handoff == Released && Resumes(en)
        case Expired => true)
  }

  lemma CallIsAccounted(cfg: Config, s: State, call: Call, c: Clock)
    requires Coherent(s) && c.Nondecreasing()
    ensures var (t, r) := Invoked(cfg, s, call, c); Accounted(Entry(Invoke(call, c), s, r, t))
  {
    var settled := Settle(s, c);
    assert Coherent(settled);
    match call
    case RequestHandoff(_, _, _, _) => assert Invoked(cfg, s, call, c) == HandoffResult(cfg, settled, call, c);
    case Takeover(_, _, _) => assert Invoked(cfg, s, call, c) == TakeoverResult(settled, call, c);
    case Release(_, _, _) => assert Invoked(cfg, s, call, c) == ReleaseResult(settled, call, c);
    case Resume(_) => assert Invoked(cfg, s, call, c) == ResumeResult(settled, call);
    case RecoverExpired(_, _) => assert Invoked(cfg, s, call, c) == RecoverResult(settled, call, c);
    case _ =>
  }

  lemma EventIsAccounted(cfg: Config, es: seq<Event>, n: nat)
    requires n < |es| && es[n].clock.Nondecreasing()
    ensures Accounted(EntryAt(cfg, es, n))
  {
    ReachableIsCoherent(cfg, es, n);
    if es[n].Invoke? {
      CallIsAccounted(cfg, StateAt(cfg, es, n), es[n].call, es[n].clock);
    }
  }

  lemma EntryExplains(tr: seq<Entry>, i: nat, n: nat)
    requires i < n < |tr| && Accounted(tr[n]) && Explained(tr, i, n, tr[n].before)
    ensures Explained(tr, i, n + 1, tr[n].after)
  {
    var s, t := tr[n].before, tr[n].after;
    if !SameLease(s, t) {
      match t.handoff
      case Active =>
        var h: nat :| i <= h < n && Grants(tr[h], s.lease.value.digest.token, s.lease.value.expiresAt);
        assert TakenOver(tr, i, h, n, t.lease.value.digest.token, t.lease.value.expiresAt);
      case Released =>
        assert UserStep(tr, i, n) by {
          if !Recovers(tr[n]) {
            var h: nat, m: nat :| m < n && TakenOver(tr, i, h, m, s.lease.value.digest.token, s.lease.value.expiresAt);
            assert Releases(tr[n], s.lease.value.digest.token, s.lease.value.expiresAt);
          }
        }
      case NoHandoff =>
        var k: nat :| i < k < n && UserStep(tr, i, k);
        assert Resumes(tr[n]);
      case _ =>
    }
  }

  ghost predicate ReadsNondecreasing(es: seq<Event>) {
    forall i :: 0 <= i < |es| ==> es[i].clock.Nondecreasing()
  }

  ghost predicate Chained(tr: seq<Entry>) {
    && (forall i :: 0 <= i < |tr| ==> Accounted(tr[i]))
    && (forall i :: 0 < i < |tr| ==> tr[i].before == tr[i - 1].after)
  }

  lemma TraceIsChained(cfg: Config, es: seq<Event>)
    requires ReadsNondecreasing(es)
    ensures Chained(Trace(cfg, es))
  {
    var tr := Trace(cfg, es);
    forall i | 0 <= i < |tr| ensures Accounted(tr[i]) { EventIsAccounted(cfg, es, i); }
  }

  lemma {:induction false} RunIsExplained(tr: seq<Entry>, i: nat, n: nat)
    requires Chained(tr) && i < n <= |tr| && Granting(tr[i])
    ensures Explained(tr, i, n, tr[n - 1].after)
    decreases n
  {
    if n > i + 1 {
      RunIsExplained(tr, i, n - 1);
      EntryExplains(tr, i, n - 1);
    } else {
      assert Accounted(tr[i]);
    }
  }

  /** Once a handoff is issued, agent writes come back only through a confirmed user step and then a resume. */
  lemma AgentWritesNeedUserStep(cfg: Config, es: seq<Event>, i: nat, n: nat)
    requires ReadsNondecreasing(es) && i < n <= |es| && Granting(Trace(cfg, es)[i])
    requires StatusOf(Trace(cfg, es)[n - 1].after).agentWriteAllowed
    ensures exists k: nat, l: nat :: i < k < l < n && UserStep(Trace(cfg, es), i, k) && Resumes(Trace(cfg, es)[l])
  {
    TraceIsChained(cfg, es);
    RunIsExplained(Trace(cfg, es), i, n);
  }

  // ---------------------------------------------------------------- expiry

  /** Only disposal expires a lease ahead of its deadline. */
  lemma NeverExpiresEarly(cfg: Config, s: State, e: Event)
    requires Coherent(s) && Running(s) && Step(cfg, s, e).handoff == Expired
    requires !(e.Invoke? && e.call.Dispose?)
    ensures s.lease.value.expiresAt <= e.clock.expire
    ensures e.TimerFires? ==> e.generation == s.lease.value.generation
  {
  }

  /** The state as callers can see it: no timer handle, and only whether there is an expiry stamp. */
  function Visible(s: State): State {
    s.(timer := None, expiredAt := if s.expiredAt.Some? then Some(0) else None)
  }

  function VisibleStatus(st: Status): Status {
    st.(expiredAt := if st.expiredAt.Some? then Some(0) else None)
  }

  function VisibleResponse(r: Response): Response {
    match r
    case Returned(st) => Returned(VisibleStatus(st))
    case Granted(st, token) => Granted(VisibleStatus(st), token)
    case _ => r
  }

  /** The machine without timers: callbacks do nothing. */
  function LazyAt(cfg: Config, es: seq<Event>, n: nat): State
    requires n <= |es|
  {
    if n == 0 then INITIAL else LazyStep(cfg, LazyAt(cfg, es, n - 1), es[n - 1])
  }

  function LazyResponseAt(cfg: Config, es: seq<Event>, i: nat): Response
    requires i < |es| && es[i].Invoke?
  {
    Invoked(cfg, LazyAt(cfg, es, i), es[i].call, es[i].clock).1
  }

  ghost predicate ClockNondecreasing(es: seq<Event>) {
    && (forall i :: 0 <= i < |es| ==> es[i].clock.Nondecreasing())
    && (forall i, j :: 0 <= i < j < |es| ==> es[i].clock.act <= es[j].clock.check)
  }

  /** `eager` may already have expired a lease that `lazy` is bound to expire at its next call. */
  ghost predicate Agrees(eager: State, lazy: State, now: int) {
    || Visible(eager) == Visible(lazy)
    || (Due(lazy, now) && Visible(eager) == Visible(Expiry(lazy, lazy.lease.value.generation, now, now)))
  }

  lemma ActSeesOnlyVisible(cfg: Config, a: State, b: State, call: Call, c: Clock)
    requires Visible(a) == Visible(b)
    ensures Visible(Act(cfg, a, call, c).0) == Visible(Act(cfg, b, call, c).0)
    ensures VisibleResponse(Act(cfg, a, call, c).1) == VisibleResponse(Act(cfg, b, call, c).1)
  {
    assert a.(timer := None, expiredAt := None) == b.(timer := None, expiredAt := None) by {
      assert a.lease == Visible(a).lease && b.lease == Visible(b).lease;
    }
    assert a.expiredAt.Some? == b.expiredAt.Some?;
    assert b == a.(timer := b.timer, expiredAt := b.expiredAt);
  }

  /** One call: the eager and the lazy machine answer alike and agree again afterwards. */
  lemma CallAgrees(cfg: Config, eager: State, lazy: State, now: int, call: Call, c: Clock)
    requires Coherent(eager) && Coherent(lazy) && Agrees(eager, lazy, now) && c.Nondecreasing() && now <= c.check
    ensures Agrees(Invoked(cfg, eager, call, c).0, Invoked(cfg, lazy, call, c).0, c.act)
    ensures !call.ExpireIfDue? ==>
      VisibleResponse(Invoked(cfg, eager, call, c).1) == VisibleResponse(Invoked(cfg, lazy, call, c).1)
  {
    SettleAgrees(eager, lazy, now, c);
    if call.Dispose? {
    } else if !call.ExpireIfDue? {
      ActSeesOnlyVisible(cfg, Settle(eager, c), Settle(lazy, c), call, c);
    }
  }

  lemma SettleAgrees(eager: State, lazy: State, now: int, c: Clock)
    requires Agrees(eager, lazy, now) && c.Nondecreasing() && now <= c.check
    ensures Visible(Settle(eager, c)) == Visible(Settle(lazy, c))
  {
    if Visible(eager) == Visible(lazy) {
      assert eager.lease == Visible(eager).lease && lazy.lease == Visible(lazy).lease;
      assert eager.handoff == Visible(eager).handoff && lazy.handoff == Visible(lazy).handoff;
      assert lazy == eager.(timer := lazy.timer, expiredAt := lazy.expiredAt);
      assert eager.expiredAt.Some? == lazy.expiredAt.Some?;
    } else {
      assert eager.handoff == Visible(eager).handoff == Expired;
    }
  }

  /** A timer callback of the eager machine, early, late or stale, which the lazy machine does not have. */
  lemma TimerAgrees(eager: State, lazy: State, now: int, g: nat, c: Clock)
    requires Agrees(eager, lazy, now) && c.Nondecreasing() && now <= c.check && Coherent(lazy) && Coherent(eager)
    ensures Agrees(Expiry(eager, g, c.expire, c.stamp), lazy, c.act)
  {
    if Visible(eager) == Visible(lazy) {
      assert eager.lease == Visible(eager).lease && lazy.lease == Visible(lazy).lease;
      assert eager.handoff == Visible(eager).handoff && lazy.handoff == Visible(lazy).handoff;
      assert lazy == eager.(timer := lazy.timer, expiredAt := lazy.expiredAt);
      assert eager.expiredAt.Some? == lazy.expiredAt.Some?;
    } else {
      assert eager.handoff == Visible(eager).handoff == Expired;
    }
  }

  function Now(es: seq<Event>, n: nat): int
    requires n <= |es|
  {
    if n == 0 then (if es == [] then 0 else es[0].clock.check) else es[n - 1].clock.act
  }

  lemma {:induction false} LazyIsCoherent(cfg: Config, es: seq<Event>, n: nat)
    requires n <= |es|
    ensures Coherent(LazyAt(cfg, es, n))
  {
    if n > 0 {
      LazyIsCoherent(cfg, es, n - 1);
      if es[n - 1].Invoke? { StepKeepsCoherence(cfg, LazyAt(cfg, es, n - 1), es[n - 1]); }
    }
  }

  function LazyStep(cfg: Config, s: State, e: Event): State {
    if e.TimerFires? then s else Step(cfg, s, e)
  }

  lemma StepAgrees(cfg: Config, eager: State, lazy: State, now: int, e: Event)
    requires Coherent(eager) && Coherent(lazy) && Agrees(eager, lazy, now)
    requires e.clock.Nondecreasing() && now <= e.clock.check
    ensures Agrees(Step(cfg, eager, e), LazyStep(cfg, lazy, e), e.clock.act)
  {
    if e.Invoke? {
      CallAgrees(cfg, eager, lazy, now, e.call, e.clock);
    } else {
      TimerAgrees(eager, lazy, now, e.generation, e.clock);
    }
  }

  lemma {:induction false} RunsAgree(cfg: Config, es: seq<Event>, n: nat)
    requires ClockNondecreasing(es) && n <= |es|
    ensures Agrees(StateAt(cfg, es, n), LazyAt(cfg, es, n), Now(es, n))
  {
    if n > 0 {
      RunsAgree(cfg, es, n - 1);
      ReachableIsCoherent(cfg, es, n - 1);
      LazyIsCoherent(cfg, es, n - 1);
      StepAgrees(cfg, StateAt(cfg, es, n - 1), LazyAt(cfg, es, n - 1), Now(es, n - 1), es[n - 1]);
    }
  }

  /** No call but `expireIfDue` can tell whether, when or how often timers fired. */
  lemma TimersAreUnobservable(cfg: Config, es: seq<Event>, i: nat)
    requires ClockNondecreasing(es) && i < |es| && es[i].Invoke? && !es[i].call.ExpireIfDue?
    ensures VisibleResponse(ResponseAt(cfg, es, i)) == VisibleResponse(LazyResponseAt(cfg, es, i))
  {
    RunsAgree(cfg, es, i);
    ReachableIsCoherent(cfg, es, i);
    LazyIsCoherent(cfg, es, i);
    CallAgrees(cfg, StateAt(cfg, es, i), LazyAt(cfg, es, i), Now(es, i), es[i].call, es[i].clock);
  }

  /** A timer callback expired the lease at event `k`, and only timer callbacks followed up to `n`. */
  ghost predicate TimerExpired(cfg: Config, es: seq<Event>, k: nat, n: nat) {
    && k < n <= |es| && es[k].TimerFires?
    && StateAt(cfg, es, k).handoff != Expired && StateAt(cfg, es, k + 1).handoff == Expired
    && forall j :: k < j < n ==> es[j].TimerFires?
  }

  ghost predicate TimerCameFirst(cfg: Config, es: seq<Event>, n: nat) {
    exists k: nat :: TimerExpired(cfg, es, k, n)
  }

  lemma CallRestoresHandoff(cfg: Config, eager: State, lazy: State, now: int, call: Call, c: Clock)
    requires Agrees(eager, lazy, now) && c.Nondecreasing() && now <= c.check
    ensures Invoked(cfg, eager, call, c).0.handoff == Invoked(cfg, lazy, call, c).0.handoff
  {
    SettleAgrees(eager, lazy, now, c);
    var a, b := Settle(eager, c), Settle(lazy, c);
    if call.ExpireIfDue? || call.Dispose? {
      assert a.handoff == Visible(a).handoff == Visible(b).handoff;
    } else {
      ActSeesOnlyVisible(cfg, a, b, call, c);
      var t, u := Act(cfg, a, call, c).0, Act(cfg, b, call, c).0;
      assert t.handoff == Visible(t).handoff == Visible(u).handoff;
    }
  }

  lemma TimerCameNowOrBefore(cfg: Config, es: seq<Event>, n: nat)
    requires 0 < n <= |es|
    ensures TimerCameFirst(cfg, es, n)
      <==> es[n - 1].TimerFires?
           && (TimerCameFirst(cfg, es, n - 1)
               || (StateAt(cfg, es, n - 1).handoff != Expired && StateAt(cfg, es, n).handoff == Expired))
  {
    if TimerCameFirst(cfg, es, n) {
      var k: nat :| TimerExpired(cfg, es, k, n);
      if k < n - 1 { assert TimerExpired(cfg, es, k, n - 1); }
    }
    if es[n - 1].TimerFires? && TimerCameFirst(cfg, es, n - 1) {
      var m := n - 1;
      var k: nat :| TimerExpired(cfg, es, k, m);
      assert TimerExpired(cfg, es, k, n);
    }
    if es[n - 1].TimerFires? && StateAt(cfg, es, n - 1).handoff != Expired && StateAt(cfg, es, n).handoff == Expired {
      assert TimerExpired(cfg, es, n - 1, n);
    }
  }

  /** A call makes the machines agree; a timer parts them by expiring the lease, and then keeps them apart. */
  lemma StepParts(cfg: Config, eager: State, lazy: State, now: int, e: Event)
    requires Agrees(eager, lazy, now) && e.clock.Nondecreasing() && now <= e.clock.check
    ensures var after := Step(cfg, eager, e);
      after.handoff != LazyStep(cfg, lazy, e).handoff
      <==> e.TimerFires? && (eager.handoff != lazy.handoff || (eager.handoff != Expired && after.handoff == Expired))
  {
    assert eager.handoff == Visible(eager).handoff && lazy.handoff == Visible(lazy).handoff;
    if e.Invoke? { CallRestoresHandoff(cfg, eager, lazy, now, e.call, e.clock); }
  }

  predicate HandoffsDiffer(cfg: Config, es: seq<Event>, n: nat)
    requires n <= |es|
  {
    StateAt(cfg, es, n).handoff != LazyAt(cfg, es, n).handoff
  }

  lemma LastEventParts(cfg: Config, es: seq<Event>, n: nat)
    requires ClockNondecreasing(es) && 0 < n <= |es|
    ensures HandoffsDiffer(cfg, es, n)
      <==> es[n - 1].TimerFires?
           && (HandoffsDiffer(cfg, es, n - 1)
               || (StateAt(cfg, es, n - 1).handoff != Expired && StateAt(cfg, es, n).handoff == Expired))
  {
    RunsAgree(cfg, es, n - 1);
    StepParts(cfg, StateAt(cfg, es, n - 1), LazyAt(cfg, es, n - 1), Now(es, n - 1), es[n - 1]);
  }

  /** The machines differ exactly while a timer has expired a lease that no call has looked at since. */
  lemma {:induction false} HandoffsDifferAfterTimer(cfg: Config, es: seq<Event>, n: nat)
    requires ClockNondecreasing(es) && n <= |es|
    ensures HandoffsDiffer(cfg, es, n) <==> TimerCameFirst(cfg, es, n)
  {
    if n > 0 {
      HandoffsDifferAfterTimer(cfg, es, n - 1);
      TimerCameNowOrBefore(cfg, es, n);
      LastEventParts(cfg, es, n);
    }
  }

  /** `expireIfDue` tells the machines apart exactly when a timer expired the lease and no call came in between. */
  lemma ExpireIfDueSeesTimers(cfg: Config, es: seq<Event>, i: nat)
    requires ClockNondecreasing(es) && i < |es| && es[i].Invoke? && es[i].call.ExpireIfDue?
    ensures ResponseAt(cfg, es, i) != LazyResponseAt(cfg, es, i) <==> TimerCameFirst(cfg, es, i)
  {
    RunsAgree(cfg, es, i);
    HandoffsDifferAfterTimer(cfg, es, i);
    var eager, lazy := StateAt(cfg, es, i), LazyAt(cfg, es, i);
    if Visible(eager) == Visible(lazy) {
      assert eager.lease == Visible(eager).lease && lazy.lease == Visible(lazy).lease;
      assert eager.handoff == Visible(eager).handoff && lazy.handoff == Visible(lazy).handoff;
    } else {
      assert eager.handoff == Visible(eager).handoff == Expired;
    }
  }

  /** A run in which the timer expires the lease and `expireIfDue` then reports that it did nothing. */
  lemma ExpireIfDueCanDiffer()
    ensures exists cfg: Config, es: seq<Event> ::
      && cfg.Valid() && ClockNondecreasing(es) && |es| == 3 && es[2].Invoke? && es[2].call.ExpireIfDue?
      && ResponseAt(cfg, es, 2) == Flag(false) && LazyResponseAt(cfg, es, 2) == Flag(true)
  {
    var cfg := Config(10, 10);
    var es := [
      Invoke(RequestHandoff(None, None, None, "t"), Clock(0, 0, 0, 0)),
      TimerFires(1, Clock(10, 10, 10, 10)),
      Invoke(ExpireIfDue, Clock(11, 11, 11, 11))];
    assert TokenShape("t");
    var s1 := Issued(INITIAL, 10, "t", 0);
    assert StateAt(cfg, es, 1) == s1 && LazyAt(cfg, es, 1) == s1;
    assert StateAt(cfg, es, 2) == Expiry(s1, 1, 10, 10) && LazyAt(cfg, es, 2) == s1;
    assert ResponseAt(cfg, es, 2) == Flag(false) && LazyResponseAt(cfg, es, 2) == Flag(true);
  }
}
