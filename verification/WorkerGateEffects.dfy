/**
  The raw connection in every run: which attachment of a target is registered, what each
  configuration sends and in which order, and what makes the context close.
 */
module WorkerGateEffects {
  import opened Wrappers
  import opened WorkerGate
  import opened WorkerGateRuns

  // ---------------------------------------------------------------- registrations

  /** The raw session a target is registered with: the first to attach it, until that very session detaches. */
  function RegisteredWith(es: seq<Event>, n: nat, t: TargetId): Option<SessionId>
    requires n <= |es|
  {
    if n == 0 then None
    else
      var r := RegisteredWith(es, n - 1, t);
      match es[n - 1]
      case RawAttached(session, target, _) => if target == t && r.None? then Some(session) else r
      case RawDetached(session) => if r == Some(session) then None else r
      case _ => r
  }

  function SessionOf(s: State, t: TargetId): Option<SessionId> {
    if t in s.targets && s.targets[t] < |s.chains| then Some(s.chains[s.targets[t]].session) else None
  }

  ghost predicate RegistrationMoves(en: Entry, t: TargetId) {
    var r := SessionOf(en.before, t);
    SessionOf(en.after, t) ==
      match en.event
      case RawAttached(session, target, _) => if target == t && r.None? then Some(session) else r
      case RawDetached(session) => if r == Some(session) then None else r
      case _ => r
  }

  lemma ReplyKeepsRegistration(env: Env, s: State, c: nat, reply: Reply, t: TargetId)
    requires Consistent(env, s)
    ensures SessionOf(Step(env, s, RawReply(c, reply)), t) == SessionOf(s, t)
  {
  }

  lemma StepMovesRegistration(env: Env, s: State, e: Event, t: TargetId)
    requires Consistent(env, s)
    ensures RegistrationMoves(Entry(e, s, Step(env, s, e)), t)
  {
    if e.RawReply? { ReplyKeepsRegistration(env, s, e.chain, e.reply, t); }
  }

  /** The table of targets is what the attach and detach events of the raw connection say. */
  lemma {:induction false} RegistrationsAreAttachments(env: Env, es: seq<Event>, n: nat, t: TargetId)
    requires n <= |es|
    ensures SessionOf(StateAt(env, es, n), t) == RegisteredWith(es, n, t)
    ensures t in StateAt(env, es, n).targets <==> RegisteredWith(es, n, t).Some?
  {
    ReachableIsConsistent(env, es, n);
    if n > 0 {
      RegistrationsAreAttachments(env, es, n - 1, t);
      ReachableIsConsistent(env, es, n - 1);
      StepMovesRegistration(env, StateAt(env, es, n - 1), es[n - 1], t);
    }
  }

  /** A target is detached exactly by the session it is registered with. */
  lemma DetachedByItsSession(env: Env, es: seq<Event>, n: nat, t: TargetId)
    requires n < |es|
    ensures Detaches(Trace(env, es)[n], t)
            <==> es[n].RawDetached? && RegisteredWith(es, n, t) == Some(es[n].session)
  {
    RegistrationsAreAttachments(env, es, n, t);
    ReachableIsConsistent(env, es, n);
  }

  // ---------------------------------------------------------------- the order of a configuration

  /** What has to be acknowledged for an attachment, in this order. */
  function Plan(env: Env, c: Chain): seq<Stage> {
    (if env.IsWorker(c.target) then [SettingAutoAttach, EnablingRuntime, OverridingNetwork, Evaluating]
     else [SettingAutoAttach, OverridingEmulation, OverridingHardware])
    + if c.paused then [Resuming] else []
  }

  /** A reply that lets a configuration go on: only the bootstrap may not throw. */
  predicate Accepted(stage: Stage, reply: Reply) {
    reply == Ack || (reply == ScriptException && stage != Evaluating)
  }

  /** The commands one event sends for the attachment number `c`. */
  function SentFor(en: Entry, c: nat): seq<Command> {
    var mine := if en.event.RawAttached? then |en.before.chains| == c else en.event.RawReply? && en.event.chain == c;
    if mine && |en.before.rawWire| <= |en.after.rawWire| then en.after.rawWire[|en.before.rawWire|..] else []
  }

  function Position(plan: seq<Stage>, stage: Stage): nat {
    if plan == [] || plan[0] == stage then 0 else 1 + Position(plan[1..], stage)
  }

  lemma {:induction false} PositionOf(plan: seq<Stage>, k: nat)
    requires k < |plan| && forall j :: 0 <= j < k ==> plan[j] != plan[k]
    ensures Position(plan, plan[k]) == k
  {
    if k > 0 { PositionOf(plan[1..], k - 1); }
  }

  /** Where a reply takes an attachment, and what it sends on. */
  function AfterReply(env: Env, a: Chain, reply: Reply, open: bool): (Stage, seq<Command>) {
    var plan := Plan(env, a);
    var next := Position(plan, a.stage) + 1;
    if !Accepted(a.stage, reply) then (Failed, [])
    else if next >= |plan| then (Configured, [])
    else if !open then (Failed, [])
    else (plan[next], [Command(a.session, plan[next])])
  }

  /** An attachment that is not done waits for one of the commands of its plan. */
  predicate OnPlan(env: Env, a: Chain) { a.stage.Waiting() ==> a.stage in Plan(env, a) }

  ghost predicate AllOnPlan(env: Env, s: State) { forall c :: 0 <= c < |s.chains| ==> OnPlan(env, s.chains[c]) }

  /** How one event moves the attachment number `c`. */
  ghost predicate ChainMoves(env: Env, en: Entry, c: nat) {
    var s, u := en.before, en.after;
    c < |s.chains| ==>
      && c < |u.chains| && u.chains[c] == s.chains[c].(stage := u.chains[c].stage)
      && (u.chains[c].stage, SentFor(en, c)) ==
           if en.event.RawReply? && en.event.chain == c && s.chains[c].stage.Waiting() then
             AfterReply(env, s.chains[c], en.event.reply, s.open)
           else (s.chains[c].stage, [])
  }

  /** The reply that completes the setup of an attachment, all but a resume, opens the gate of its target. */
  predicate CompletesSetup(env: Env, en: Entry) {
    en.event.RawReply? && en.event.chain < |en.before.chains| &&
    var a := en.before.chains[en.event.chain];
    a.stage == Plan(env, a)[if env.IsWorker(a.target) then 3 else 2] && Accepted(a.stage, en.event.reply)
  }

  lemma PlanPositions(env: Env, a: Chain)
    requires OnPlan(env, a) && a.stage.Waiting()
    ensures var plan, next := Plan(env, a), Position(Plan(env, a), a.stage) + 1;
      NextStage(env, a) == if next >= |plan| then Configured else plan[next]
  {
    var plan := Plan(env, a);
    var k :| 0 <= k < |plan| && plan[k] == a.stage;
    PositionOf(plan, k);
  }

  lemma SentByReply(env: Env, s: State, e: Event, c: nat)
    requires e.RawReply?
    ensures SentFor(Entry(e, s, Step(env, s, e)), c) == if e.chain == c then RawSent(env, s, e) else []
  {
    assert Step(env, s, e).rawWire == s.rawWire + RawSent(env, s, e);
  }

  lemma AnswerMovesChain(env: Env, s: State, e: Event)
    requires e.RawReply? && Answers(s, e) && OnPlan(env, s.chains[e.chain])
    ensures (ReplyStage(env, s, e), RawSent(env, s, e)) == AfterReply(env, s.chains[e.chain], e.reply, s.open)
  {
    PlanPositions(env, s.chains[e.chain]);
  }

  lemma ReplyMovesChain(env: Env, s: State, e: Event, c: nat)
    requires AllOnPlan(env, s) && e.RawReply?
    ensures ChainMoves(env, Entry(e, s, Step(env, s, e)), c)
  {
    SentByReply(env, s, e, c);
    if Answers(s, e) { AnswerMovesChain(env, s, e); }
  }

  lemma OtherEventMovesChain(env: Env, s: State, e: Event, c: nat)
    requires !e.RawReply?
    ensures ChainMoves(env, Entry(e, s, Step(env, s, e)), c)
  {
  }

  lemma StepKeepsPlans(env: Env, s: State, e: Event)
    requires AllOnPlan(env, s)
    ensures AllOnPlan(env, Step(env, s, e))
  {
    if Answers(s, e) { PlanPositions(env, s.chains[e.chain]); }
  }

  lemma {:induction false} ReachableIsOnPlan(env: Env, es: seq<Event>, n: nat)
    requires n <= |es|
    ensures AllOnPlan(env, StateAt(env, es, n))
  {
    if n > 0 {
      ReachableIsOnPlan(env, es, n - 1);
      StepKeepsPlans(env, StateAt(env, es, n - 1), es[n - 1]);
    }
  }

  lemma ChainsMoveByPlan(env: Env, es: seq<Event>, n: nat, c: nat)
    requires n < |es|
    ensures ChainMoves(env, Trace(env, es)[n], c)
  {
    ReachableIsOnPlan(env, es, n);
    var s := StateAt(env, es, n);
    if es[n].RawReply? { ReplyMovesChain(env, s, es[n], c); } else { OtherEventMovesChain(env, s, es[n], c); }
  }

  /** The stages of the commands sent for the attachment number `c` in the first `n` events. */
  function SentStages(tr: seq<Entry>, n: nat, c: nat): seq<Stage>
    requires n <= |tr|
  {
    if n == 0 then [] else SentStages(tr, n - 1, c) + Stages(SentFor(tr[n - 1], c))
  }

  function Stages(commands: seq<Command>): seq<Stage> {
    seq(|commands|, i requires 0 <= i < |commands| => commands[i].step)
  }

  /** What has been sent for an attachment, by the stage it is in. */
  ghost predicate FollowsPlan(env: Env, a: Chain, sent: seq<Stage>) {
    var plan := Plan(env, a);
    && sent <= plan
    && (a.stage.Waiting() ==> sent != [] && a.stage == sent[|sent| - 1])
    && (a.stage.Configured? ==> sent == plan)
  }

  lemma EntryFollowsPlan(env: Env, en: Entry, c: nat, sent: seq<Stage>)
    requires c < |en.before.chains| && ChainMoves(env, en, c) && FollowsPlan(env, en.before.chains[c], sent)
    ensures c < |en.after.chains| && FollowsPlan(env, en.after.chains[c], sent + Stages(SentFor(en, c)))
  {
    var a, plan := en.before.chains[c], Plan(env, en.before.chains[c]);
    if en.event.RawReply? && en.event.chain == c && a.stage.Waiting() {
      PositionOf(plan, |sent| - 1);
    } else {
      assert sent + Stages([]) == sent;
    }
  }

  /** An attachment begins with the first command of its plan, and nothing is sent for it before. */
  ghost predicate ChainFacts(env: Env, en: Entry, c: nat) {
    && ChainMoves(env, en, c) && |en.before.chains| <= |en.after.chains|
    && (|en.after.chains| <= c ==> SentFor(en, c) == [])
    && (|en.before.chains| <= c < |en.after.chains| ==> FollowsPlan(env, en.after.chains[c], Stages(SentFor(en, c))))
  }

  lemma AttachmentStarts(env: Env, s: State, e: Event, c: nat)
    ensures var u, en := Step(env, s, e), Entry(e, s, Step(env, s, e));
      && |s.chains| <= |u.chains| && (|u.chains| <= c ==> SentFor(en, c) == [])
      && (|s.chains| <= c < |u.chains| ==> FollowsPlan(env, u.chains[c], Stages(SentFor(en, c))))
  {
  }

  lemma TraceHasChainFacts(env: Env, es: seq<Event>, c: nat)
    ensures forall i :: 0 <= i < |es| ==> ChainFacts(env, Trace(env, es)[i], c)
  {
    forall i | 0 <= i < |es| ensures ChainFacts(env, Trace(env, es)[i], c) {
      ChainsMoveByPlan(env, es, i, c);
      AttachmentStarts(env, StateAt(env, es, i), es[i], c);
    }
  }

  lemma {:induction false} TraceFollowsPlan(env: Env, tr: seq<Entry>, n: nat, c: nat)
    requires Chained(tr) && n < |tr| && forall i :: 0 <= i < |tr| ==> ChainFacts(env, tr[i], c)
    ensures |tr[n].after.chains| <= c ==> SentStages(tr, n + 1, c) == []
    ensures c < |tr[n].after.chains| ==> FollowsPlan(env, tr[n].after.chains[c], SentStages(tr, n + 1, c))
  {
    assert ChainFacts(env, tr[n], c);
    if n > 0 {
      assert tr[n].before == tr[n - 1].after;
      TraceFollowsPlan(env, tr, n - 1, c);
      if c < |tr[n].before.chains| { EntryFollowsPlan(env, tr[n], c, SentStages(tr, n, c)); }
    }
    assert [] + Stages(SentFor(tr[n], c)) == Stages(SentFor(tr[n], c));
  }

  /**
    The commands sent for an attachment are those of its plan, in order and each once; it waits for
    the last one sent, and it is done only when the whole plan was sent.
   */
  lemma ConfigurationFollowsPlan(env: Env, es: seq<Event>, n: nat, c: nat)
    requires n < |es| && c < |Trace(env, es)[n].after.chains|
    ensures FollowsPlan(env, Trace(env, es)[n].after.chains[c], SentStages(Trace(env, es), n + 1, c))
  {
    TraceHasChainFacts(env, es, c);
    TraceFollowsPlan(env, Trace(env, es), n, c);
  }

  // ---------------------------------------------------------------- gates opening, attachments, closing

  /** Which gate an event opens, and what it lets out. */
  ghost predicate GateOpens(env: Env, en: Entry) {
    var s, u := en.before, en.after;
    if CompletesSetup(env, en) then
      var t := s.chains[en.event.chain].target;
      u.released == s.released + {t} && u.waiting == s.waiting - {t} && u.wire == s.wire + Held(s, t)
    else en.event.RawReply? ==> u.released == s.released && u.waiting == s.waiting && u.wire == s.wire
  }

  /** The context is asked to close by a configuration that breaks down, or a detaching that drops resumes. */
  ghost predicate AsksToClose(env: Env, en: Entry) {
    var s := en.before;
    || (en.event.RawReply? && en.event.chain < |s.chains| && s.open
        && s.chains[en.event.chain].target in s.targets
        && s.chains[en.event.chain].stage.Waiting() && !Accepted(s.chains[en.event.chain].stage, en.event.reply))
    || exists t :: t in s.waiting && Detaches(en, t)
  }

  ghost predicate RawMoves(env: Env, en: Entry) {
    var s, u := en.before, en.after;
    && GateOpens(env, en)
    && (u.closing <==> s.closing || AsksToClose(env, en))
    && (|u.chains| == |s.chains| + if en.event.RawAttached? && en.event.target !in s.targets then 1 else 0)
    && (|u.chains| > |s.chains| ==>
          && u.chains[|s.chains|] == Chain(en.event.session, en.event.target, en.event.paused,
                                           if s.open then SettingAutoAttach else Failed)
          && u.targets == s.targets[en.event.target := |s.chains|])
    && (en.event.RawDetached? ==>
          && (forall t :: t in u.released <==> t in s.released && !Detaches(en, t))
          && (forall t :: Held(u, t) == if Detaches(en, t) then [] else Held(s, t)))
  }

  lemma ReplyOpensGate(env: Env, s: State, e: Event)
    requires Consistent(env, s) && e.RawReply?
    ensures Opens(s, e) <==> CompletesSetup(env, Entry(e, s, Step(env, s, e)))
    ensures GateOpens(env, Entry(e, s, Step(env, s, e)))
  {
    if Answers(s, e) { assert StageFits(env, s.chains[e.chain]); }
  }

  lemma ReplyMovesGate(env: Env, s: State, e: Event)
    requires Consistent(env, s) && e.RawReply?
    ensures RawMoves(env, Entry(e, s, Step(env, s, e)))
  {
    ReplyOpensGate(env, s, e);
  }

  lemma OtherEventMovesGate(env: Env, s: State, e: Event)
    requires Consistent(env, s) && !e.RawReply?
    ensures RawMoves(env, Entry(e, s, Step(env, s, e)))
  {
    if e.RawDetached? {
      var gone := Detaching(s, e.session);
      if gone * s.waiting.Keys != {} {
        var t :| t in gone * s.waiting.Keys;
        assert t in s.waiting && Detaches(Entry(e, s, Step(env, s, e)), t);
      }
      assert forall t :: t in s.waiting && t in gone ==> t in gone * s.waiting.Keys;
    }
  }

  /** In every run gates open exactly when a setup is complete, and the context is asked to close for these reasons. */
  lemma RawEventsMoveTheGate(env: Env, es: seq<Event>, n: nat)
    requires n < |es|
    ensures RawMoves(env, Trace(env, es)[n])
  {
    ReachableIsConsistent(env, es, n);
    var s := StateAt(env, es, n);
    if es[n].RawReply? { ReplyMovesGate(env, s, es[n]); } else { OtherEventMovesGate(env, s, es[n]); }
  }
}
