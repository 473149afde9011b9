/** Whole runs of the worker startup gate: safety of resumes, and what becomes of every held command. */
module WorkerGateRuns {
  import opened Wrappers
  import opened WorkerGate

  function StateAt(env: Env, es: seq<Event>, n: nat): State
    requires n <= |es|
  {
    if n == 0 then INITIAL else Step(env, StateAt(env, es, n - 1), es[n - 1])
  }

  /** One event of a run with the states around it. */
  datatype Entry = Entry(event: Event, before: State, after: State)

  function Trace(env: Env, es: seq<Event>): (tr: seq<Entry>)
    ensures |tr| == |es|
  {
    seq(|es|, i requires 0 <= i < |es| => Entry(es[i], StateAt(env, es, i), StateAt(env, es, i + 1)))
  }

  // ---------------------------------------------------------------- invariant

  ghost predicate StageFits(env: Env, c: Chain) {
    match c.stage
    case EnablingRuntime => env.IsWorker(c.target)
    case OverridingNetwork => env.IsWorker(c.target)
    case Evaluating => env.IsWorker(c.target)
    case OverridingEmulation => !env.IsWorker(c.target)
    case OverridingHardware => !env.IsWorker(c.target)
    case _ => true
  }

  ghost predicate ChainsFit(env: Env, chains: seq<Chain>) {
    forall c :: 0 <= c < |chains| ==> StageFits(env, chains[c])
  }

  ghost predicate TargetsFit(targets: map<TargetId, nat>, chains: seq<Chain>) {
    forall t :: t in targets ==> targets[t] < |chains| && chains[targets[t]].target == t
  }

  ghost predicate GateFits(env: Env, s: State) {
    && (forall session :: session in s.sessions ==> env.IsWorker(s.sessions[session]))
    && (forall t :: t in s.waiting ==> env.IsWorker(t) && t !in s.released && s.open)
    && (forall t, i :: t in s.waiting && 0 <= i < |s.waiting[t]| ==> s.waiting[t][i].verb.RunIfWaiting?)
  }

  ghost predicate Consistent(env: Env, s: State) {
    ChainsFit(env, s.chains) && TargetsFit(s.targets, s.chains) && GateFits(env, s)
  }

  lemma SendKeepsGate(env: Env, s: State, m: Message)
    requires GateFits(env, s)
    ensures GateFits(env, Step(env, s, PlaywrightSends(m)))
  {
    assert Rewrite(env, s, m).verb == m.verb;
    if MustWait(s, m) {
      var t := GateOf(s, m).value;
      var q := Held(s, t) + [Rewrite(env, s, m)];
      assert forall i :: 0 <= i < |q| ==> q[i].verb.RunIfWaiting?;
      assert env.IsWorker(t);
    }
  }

  lemma ReplyKeepsGate(env: Env, s: State, c: nat, r: Reply)
    requires GateFits(env, s)
    ensures GateFits(env, Step(env, s, RawReply(c, r)))
  {
    var u := Step(env, s, RawReply(c, r));
    assert u.sessions == s.sessions && u.open == s.open;
    assert forall t :: t in u.waiting ==> t in s.waiting && u.waiting[t] == s.waiting[t] && t !in u.released;
  }

  lemma StepKeepsGate(env: Env, s: State, e: Event)
    requires GateFits(env, s)
    ensures GateFits(env, Step(env, s, e))
  {
    match e
    case PlaywrightSends(m) => SendKeepsGate(env, s, m);
    case RawReply(c, r) => ReplyKeepsGate(env, s, c, r);
    case _ =>
  }

  /** One chain moves to a stage that fits it. */
  lemma StageChangeKeepsChains(env: Env, targets: map<TargetId, nat>, chains: seq<Chain>, c: nat, stage: Stage)
    requires ChainsFit(env, chains) && TargetsFit(targets, chains)
    requires c < |chains| && StageFits(env, chains[c].(stage := stage))
    ensures var moved := chains[c := chains[c].(stage := stage)]; ChainsFit(env, moved) && TargetsFit(targets, moved)
  {
  }

  lemma ReplyKeepsChains(env: Env, s: State, c: nat, r: Reply)
    requires ChainsFit(env, s.chains) && TargetsFit(s.targets, s.chains)
    ensures var u := Step(env, s, RawReply(c, r)); ChainsFit(env, u.chains) && TargetsFit(u.targets, u.chains)
  {
    var u := Step(env, s, RawReply(c, r));
    assert u.targets == s.targets;
    if Answers(s, RawReply(c, r)) {
      assert StageFits(env, s.chains[c]);
      StageChangeKeepsChains(env, s.targets, s.chains, c, ReplyStage(env, s, RawReply(c, r)));
    }
  }

  lemma NewChainFits(env: Env, targets: map<TargetId, nat>, chains: seq<Chain>, c: Chain)
    requires ChainsFit(env, chains) && TargetsFit(targets, chains) && StageFits(env, c)
    ensures ChainsFit(env, chains + [c]) && TargetsFit(targets[c.target := |chains|], chains + [c])
  {
  }

  lemma AttachKeepsChains(env: Env, s: State, e: Event)
    requires ChainsFit(env, s.chains) && TargetsFit(s.targets, s.chains) && e.RawAttached?
    ensures ChainsFit(env, Step(env, s, e).chains) && TargetsFit(Step(env, s, e).targets, Step(env, s, e).chains)
  {
    NewChainFits(env, s.targets, s.chains,
                 Chain(e.session, e.target, e.paused, if s.open then SettingAutoAttach else Failed));
  }

  lemma OtherEventKeepsChains(env: Env, s: State, e: Event)
    requires !e.RawReply? && !e.RawAttached?
    ensures Step(env, s, e).chains == s.chains
    ensures forall t :: t in Step(env, s, e).targets ==> t in s.targets && Step(env, s, e).targets[t] == s.targets[t]
  {
  }

  lemma StepKeepsChains(env: Env, s: State, e: Event)
    requires ChainsFit(env, s.chains) && TargetsFit(s.targets, s.chains)
    ensures ChainsFit(env, Step(env, s, e).chains) && TargetsFit(Step(env, s, e).targets, Step(env, s, e).chains)
  {
    if e.RawReply? {
      ReplyKeepsChains(env, s, e.chain, e.reply);
    } else if e.RawAttached? {
      AttachKeepsChains(env, s, e);
    } else {
      OtherEventKeepsChains(env, s, e);
    }
  }

  lemma {:induction false} ReachableIsConsistent(env: Env, es: seq<Event>, n: nat)
    requires n <= |es|
    ensures Consistent(env, StateAt(env, es, n))
  {
    if n > 0 {
      ReachableIsConsistent(env, es, n - 1);
      StepKeepsGate(env, StateAt(env, es, n - 1), es[n - 1]);
      StepKeepsChains(env, StateAt(env, es, n - 1), es[n - 1]);
    }
  }

  // ---------------------------------------------------------------- no resume before the bootstrap

  /** The bootstrap script of `t` is acknowledged without an exception. */
  ghost predicate Bootstraps(en: Entry, t: TargetId) {
    && Answers(en.before, en.event) && en.event.reply.Ack?
    && en.before.chains[en.event.chain].stage.Evaluating? && en.before.chains[en.event.chain].target == t
  }

  predicate Forgets(en: Entry, t: TargetId) {
    en.event.ContextClosed? || (en.event.RawDetached? && t in Detaching(en.before, en.event.session))
  }

  /** An event lets a startup resume of `t` through to either connection. */
  ghost predicate Resumes(env: Env, s: State, e: Event, t: TargetId) {
    || (e.PlaywrightSends? && e.message.verb.RunIfWaiting? && GateOf(s, e.message) == Some(t) && Sent(env, s, e) != [])
    || (Opens(s, e) && s.chains[e.chain].target == t && Held(s, t) != [])
    || (Succeeds(s, e) && s.chains[e.chain].target == t
        && Command(s.chains[e.chain].session, Resuming) in RawSent(env, s, e))
  }

  /** `Resumes` misses nothing: it covers every resume command either connection is given. */
  lemma EveryResumeIsCovered(env: Env, s: State, e: Event)
    ensures forall m :: m in Sent(env, s, e) && m.verb.RunIfWaiting? ==>
      (e.PlaywrightSends? && GateOf(s, e.message).None?) || exists t :: Resumes(env, s, e, t)
    ensures forall c :: c in RawSent(env, s, e) && c.step.Resuming? ==> exists t :: Resumes(env, s, e, t)
    ensures Step(env, s, e).wire == s.wire + Sent(env, s, e)
    ensures Step(env, s, e).rawWire == s.rawWire + RawSent(env, s, e)
  {
    forall m | m in Sent(env, s, e) && m.verb.RunIfWaiting?
      ensures (e.PlaywrightSends? && GateOf(s, e.message).None?) || exists t :: Resumes(env, s, e, t)
    {
      if e.PlaywrightSends? {
        if GateOf(s, e.message).Some? { assert Resumes(env, s, e, GateOf(s, e.message).value); }
      } else {
        assert Resumes(env, s, e, s.chains[e.chain].target);
      }
    }
    forall c | c in RawSent(env, s, e) && c.step.Resuming? ensures exists t :: Resumes(env, s, e, t) {
      assert Resumes(env, s, e, s.chains[e.chain].target);
    }
  }

  /** What one event can do to the gate of the worker target `t`. */
  ghost predicate GateFacts(env: Env, en: Entry, t: TargetId) {
    var s, u := en.before, en.after;
    && (t in u.released ==> Bootstraps(en, t) || (t in s.released && !Forgets(en, t)))
    && (t in s.targets && !Forgets(en, t) ==> t in u.targets && u.targets[t] == s.targets[t])
    && (Resumes(env, s, en.event, t) ==> Bootstraps(en, t) || (t in s.released && !Forgets(en, t)))
  }

  lemma StepHasGateFacts(env: Env, s: State, e: Event, t: TargetId)
    requires Consistent(env, s) && env.IsWorker(t)
    ensures GateFacts(env, Entry(e, s, Step(env, s, e)), t)
  {
    if Answers(s, e) { assert StageFits(env, s.chains[e.chain]); }
  }

  ghost predicate Chained(tr: seq<Entry>) {
    && (tr != [] ==> tr[0].before == INITIAL)
    && (forall i :: 0 < i < |tr| ==> tr[i].before == tr[i - 1].after)
  }

  lemma TraceHasGateFacts(env: Env, es: seq<Event>, t: TargetId)
    requires env.IsWorker(t)
    ensures Chained(Trace(env, es))
    ensures forall i :: 0 <= i < |es| ==> GateFacts(env, Trace(env, es)[i], t)
  {
    forall i | 0 <= i < |es| ensures GateFacts(env, Trace(env, es)[i], t) {
      ReachableIsConsistent(env, es, i);
      StepHasGateFacts(env, StateAt(env, es, i), es[i], t);
    }
  }

  /** `t` was bootstrapped by an event before `n`, and has not been forgotten since. */
  ghost predicate Bootstrapped(tr: seq<Entry>, n: nat, t: TargetId) {
    exists k: nat :: k < n <= |tr| && Bootstraps(tr[k], t) && forall j :: k < j < n ==> !Forgets(tr[j], t)
  }

  lemma BootstrapLasts(tr: seq<Entry>, n: nat, t: TargetId)
    requires n < |tr| && Bootstrapped(tr, n, t) && !Forgets(tr[n], t)
    ensures Bootstrapped(tr, n + 1, t)
  {
    var k: nat :| k < n <= |tr| && Bootstraps(tr[k], t) && forall j :: k < j < n ==> !Forgets(tr[j], t);
    assert forall j :: k < j < n + 1 ==> !Forgets(tr[j], t);
  }

  lemma {:induction false} OpenGateIsBootstrapped(env: Env, tr: seq<Entry>, n: nat, t: TargetId)
    requires n < |tr| && Chained(tr) && (forall i :: 0 <= i < |tr| ==> GateFacts(env, tr[i], t))
    requires t in tr[n].before.released
    ensures Bootstrapped(tr, n, t)
  {
    if n > 0 {
      assert GateFacts(env, tr[n - 1], t);
      if !Bootstraps(tr[n - 1], t) {
        OpenGateIsBootstrapped(env, tr, n - 1, t);
        BootstrapLasts(tr, n - 1, t);
      }
    }
  }

  /** Neither connection is given a resume of a gated worker before its bootstrap was acknowledged. */
  lemma NoResumeBeforeBootstrap(env: Env, es: seq<Event>, n: nat, t: TargetId)
    requires n < |es| && env.IsWorker(t) && Resumes(env, Trace(env, es)[n].before, es[n], t)
    ensures Bootstrapped(Trace(env, es), n + 1, t)
  {
    var tr := Trace(env, es);
    TraceHasGateFacts(env, es, t);
    assert GateFacts(env, tr[n], t);
    if !Bootstraps(tr[n], t) {
      OpenGateIsBootstrapped(env, tr, n, t);
      BootstrapLasts(tr, n, t);
    }
  }

  // ---------------------------------------------------------------- which attachment was bootstrapped

  /** The bootstrap is acknowledged on the attachment of `t` that is still registered. */
  ghost predicate LiveAck(en: Entry, t: TargetId) {
    en.event.RawReply? && t in en.before.targets && en.before.targets[t] == en.event.chain
  }

  /** The raw connection loses the attachment of `t`. */
  ghost predicate Detaches(en: Entry, t: TargetId) {
    en.event.RawDetached? && t in Detaching(en.before, en.event.session)
  }

  /** The attachment registered before event `n` is one that was bootstrapped. */
  ghost predicate CurrentBootstrapped(tr: seq<Entry>, n: nat, t: TargetId) {
    && n < |tr| && t in tr[n].before.targets
    && exists k: nat :: k < n && Bootstraps(tr[k], t) && tr[k].event.chain == tr[n].before.targets[t]
  }

  /** A bootstrap acknowledged before event `n` on the attachment registered then, which was not lost since. */
  ghost predicate LivelyBootstrapped(tr: seq<Entry>, n: nat, t: TargetId) {
    exists k: nat ::
      k < n <= |tr| && Bootstraps(tr[k], t) && LiveAck(tr[k], t) && forall j :: k < j < n ==> !Detaches(tr[j], t)
  }

  /** What one event can do to the registration of `t`: a new one gets a chain number not used before. */
  ghost predicate RegistrationFacts(en: Entry, t: TargetId) {
    var s, u := en.before, en.after;
    && |s.chains| <= |u.chains|
    && (t in s.targets && !Detaches(en, t) ==> t in u.targets && u.targets[t] == s.targets[t])
    && (t in u.targets ==>
        if t in s.targets then !Detaches(en, t) && u.targets[t] == s.targets[t] else u.targets[t] == |s.chains|)
  }

  lemma StepHasRegistrationFacts(env: Env, s: State, e: Event, t: TargetId)
    ensures RegistrationFacts(Entry(e, s, Step(env, s, e)), t)
  {
  }

  lemma TraceHasRegistrationFacts(env: Env, es: seq<Event>, t: TargetId)
    ensures Chained(Trace(env, es))
    ensures forall i :: 0 <= i < |es| ==> RegistrationFacts(Trace(env, es)[i], t)
  {
    forall i | 0 <= i < |es| ensures RegistrationFacts(Trace(env, es)[i], t) {
      StepHasRegistrationFacts(env, StateAt(env, es, i), es[i], t);
    }
  }

  lemma {:induction false} UnlostRegistrationStays(tr: seq<Entry>, k: nat, n: nat, t: TargetId)
    requires Chained(tr) && k < n < |tr| && (forall i :: 0 <= i < |tr| ==> RegistrationFacts(tr[i], t))
    requires t in tr[k].before.targets && tr[k].event.RawReply?
    requires forall j :: k < j < n ==> !Detaches(tr[j], t)
    ensures t in tr[n].before.targets && tr[n].before.targets[t] == tr[k].before.targets[t]
    decreases n
  {
    assert RegistrationFacts(tr[n - 1], t);
    if k < n - 1 { UnlostRegistrationStays(tr, k, n - 1, t); }
  }

  /** An attachment registered now was registered ever since it had its chain number. */
  lemma {:induction false} RegistrationWasThere(tr: seq<Entry>, k: nat, n: nat, t: TargetId)
    requires Chained(tr) && k <= n < |tr| && (forall i :: 0 <= i < |tr| ==> RegistrationFacts(tr[i], t))
    requires t in tr[n].before.targets && tr[n].before.targets[t] < |tr[k].before.chains|
    ensures |tr[k].before.chains| <= |tr[n].before.chains|
    ensures t in tr[k].before.targets && tr[k].before.targets[t] == tr[n].before.targets[t]
    ensures forall j :: k <= j < n ==> !Detaches(tr[j], t)
    decreases n
  {
    if k < n {
      assert RegistrationFacts(tr[n - 1], t) && tr[n].before == tr[n - 1].after;
      ChainsGrow(tr, k, n - 1, t);
      RegistrationWasThere(tr, k, n - 1, t);
    }
  }

  lemma {:induction false} ChainsGrow(tr: seq<Entry>, k: nat, n: nat, t: TargetId)
    requires Chained(tr) && k <= n < |tr| && (forall i :: 0 <= i < |tr| ==> RegistrationFacts(tr[i], t))
    ensures |tr[k].before.chains| <= |tr[n].before.chains|
    decreases n
  {
    if k < n {
      assert RegistrationFacts(tr[n - 1], t);
      ChainsGrow(tr, k, n - 1, t);
    }
  }

  /**
    The attachment registered now was bootstrapped exactly when some bootstrap was acknowledged
    on the attachment registered at that moment, and that attachment was not lost since.
   */
  lemma CurrentMeansLively(env: Env, es: seq<Event>, n: nat, t: TargetId)
    requires n < |es|
    ensures CurrentBootstrapped(Trace(env, es), n, t) <==> LivelyBootstrapped(Trace(env, es), n, t)
  {
    var tr := Trace(env, es);
    TraceHasRegistrationFacts(env, es, t);
    if CurrentBootstrapped(tr, n, t) {
      var k: nat :| k < n && Bootstraps(tr[k], t) && tr[k].event.chain == tr[n].before.targets[t];
      RegistrationWasThere(tr, k, n, t);
      assert LiveAck(tr[k], t);
    }
    if LivelyBootstrapped(tr, n, t) {
      var k: nat :|
        k < n <= |tr| && Bootstraps(tr[k], t) && LiveAck(tr[k], t) && forall j :: k < j < n ==> !Detaches(tr[j], t);
      UnlostRegistrationStays(tr, k, n, t);
    }
  }

  /** Every bootstrap that still counts at event `n` was acknowledged on a registered attachment. */
  ghost predicate AcksAreLive(tr: seq<Entry>, n: nat, t: TargetId) {
    forall k :: 0 <= k < n <= |tr| && Bootstraps(tr[k], t) && (forall j :: k < j < n ==> !Forgets(tr[j], t))
      ==> LiveAck(tr[k], t)
  }

  /** With live acknowledgements, an open gate belongs to the very attachment that is registered now. */
  lemma OpenGateIsCurrent(env: Env, es: seq<Event>, n: nat, t: TargetId)
    requires n < |es| && env.IsWorker(t) && t in Trace(env, es)[n].before.released
    requires AcksAreLive(Trace(env, es), n, t)
    ensures CurrentBootstrapped(Trace(env, es), n, t)
  {
    var tr := Trace(env, es);
    TraceHasGateFacts(env, es, t);
    OpenGateIsBootstrapped(env, tr, n, t);
    BootstrappedAndLive(tr, n, t);
    CurrentMeansLively(env, es, n, t);
  }

  lemma BootstrappedAndLive(tr: seq<Entry>, n: nat, t: TargetId)
    requires Bootstrapped(tr, n, t) && AcksAreLive(tr, n, t)
    ensures LivelyBootstrapped(tr, n, t)
  {
    var k: nat :| k < n <= |tr| && Bootstraps(tr[k], t) && forall j :: k < j < n ==> !Forgets(tr[j], t);
    assert LiveAck(tr[k], t);
    assert forall j :: k < j < n && Detaches(tr[j], t) ==> Forgets(tr[j], t);
  }

  /** A worker attaches, is configured up to its bootstrap, detaches and attaches again. */
  const REATTACHED: seq<Event> := [
    RawAttached("first", "T", true), RawReply(0, Ack), RawReply(0, Ack), RawReply(0, Ack),
    RawDetached("first"), RawAttached("second", "T", true)]

  lemma FirstAttachmentState(env: Env)
    requires env.IsWorker("T")
    ensures var s := StateAt(env, REATTACHED, 4);
      && s.chains == [Chain("first", "T", true, Evaluating)]
      && s.targets == map["T" := 0] && s.released == {} && s.open
  {
    var es := REATTACHED;
    assert StateAt(env, es, 1).chains == [Chain("first", "T", true, SettingAutoAttach)];
    assert StateAt(env, es, 2).chains == [Chain("first", "T", true, EnablingRuntime)];
    assert StateAt(env, es, 3).chains == [Chain("first", "T", true, OverridingNetwork)];
  }

  lemma ReattachedState(env: Env)
    requires env.IsWorker("T")
    ensures var s := StateAt(env, REATTACHED, 6);
      && s.chains == [Chain("first", "T", true, Evaluating), Chain("second", "T", true, SettingAutoAttach)]
      && s.targets == map["T" := 1] && s.released == {} && s.open
  {
    FirstAttachmentState(env);
    var s := StateAt(env, REATTACHED, 4);
    assert Attached(s, "T", "first");
    assert Detaching(s, "first") == {"T"};
    assert Step(env, s, RawDetached("first")).targets == map[];
  }

  /** Without it, a late acknowledgement of a detached attachment opens the gate of its successor. */
  lemma StaleAckOpensSuccessor(env: Env)
    requires env.IsWorker("T")
    ensures var s := StateAt(env, REATTACHED, 6);
      var u := Step(env, s, RawReply(0, Ack));
      && "T" in u.released && "T" in u.targets && u.targets["T"] == 1
      && |u.chains| == 2 && u.chains[1] == Chain("second", "T", true, SettingAutoAttach)
  {
    ReattachedState(env);
  }

  // ---------------------------------------------------------------- what becomes of held resumes

  predicate Submits(en: Entry, t: TargetId) {
    en.event.PlaywrightSends? && en.event.message.verb.RunIfWaiting? && GateOf(en.before, en.event.message) == Some(t)
  }

  /** The resumes of `t` that Playwright handed to the gate in the first `n` events. */
  function Submitted(tr: seq<Entry>, n: nat, t: TargetId): seq<Message>
    requires n <= |tr|
  {
    if n == 0 then []
    else Submitted(tr, n - 1, t) + if Submits(tr[n - 1], t) then [tr[n - 1].event.message] else []
  }

  /** Those that one event passes to the transport: at once through an open gate, or on its opening. */
  function ForwardedNow(env: Env, en: Entry, t: TargetId): seq<Message> {
    if Submits(en, t) || (Opens(en.before, en.event) && en.before.chains[en.event.chain].target == t) then
      Sent(env, en.before, en.event)
    else []
  }

  function Forwarded(env: Env, tr: seq<Entry>, n: nat, t: TargetId): seq<Message>
    requires n <= |tr|
  {
    if n == 0 then [] else Forwarded(env, tr, n - 1, t) + ForwardedNow(env, tr[n - 1], t)
  }

  /** Those discarded when the raw target detached or the context closed. */
  function Dropped(tr: seq<Entry>, n: nat, t: TargetId): seq<Message>
    requires n <= |tr|
  {
    if n == 0 then []
    else Dropped(tr, n - 1, t) + if Forgets(tr[n - 1], t) then Held(tr[n - 1].before, t) else []
  }

  /** Those the gate still holds after `n` events. */
  function StillHeld(tr: seq<Entry>, n: nat, t: TargetId): seq<Message>
    requires n <= |tr|
  {
    if n == 0 then [] else Held(tr[n - 1].after, t)
  }

  /** `a` is obtained from `b` by leaving elements out. */
  ghost predicate Subsequence<T>(a: seq<T>, b: seq<T>)
    decreases |b|
  {
    || a == []
    || (b != [] && (Subsequence(a, b[..|b| - 1])
        || (a[|a| - 1] == b[|b| - 1] && Subsequence(a[..|a| - 1], b[..|b| - 1]))))
  }

  lemma {:induction false} SubsequencePrefix<T>(a: seq<T>, c: seq<T>, b: seq<T>)
    requires Subsequence(a + c, b)
    ensures Subsequence(a, b)
    decreases |b|, |c|
  {
    if c == [] {
      assert a + c == a;
    } else if b != [] {
      if Subsequence(a + c, b[..|b| - 1]) {
        SubsequencePrefix(a, c, b[..|b| - 1]);
      } else {
        assert (a + c)[..|a + c| - 1] == a + c[..|c| - 1];
        SubsequencePrefix(a, c[..|c| - 1], b[..|b| - 1]);
      }
    }
  }

  /** How one event moves the resumes of one target between the gate and the transport. */
  ghost predicate HeldMoves(env: Env, en: Entry, t: TargetId) {
    var now, h, h' := ForwardedNow(env, en, t), Held(en.before, t), Held(en.after, t);
    if Submits(en, t) then
      (now == [en.event.message] && h == [] == h') || (now == [] && h' == h + [en.event.message])
    else if Forgets(en, t) then now == [] == h' && (h == [] || en.after.closing || !en.after.open)
    else now + h' == h
  }

  lemma StepMovesHeld(env: Env, s: State, e: Event, t: TargetId)
    requires Consistent(env, s) && env.IsWorker(t)
    ensures HeldMoves(env, Entry(e, s, Step(env, s, e)), t)
  {
    var u, en := Step(env, s, e), Entry(e, s, Step(env, s, e));
    if Submits(en, t) {
      assert Rewrite(env, s, e.message) == e.message;
    } else if Answers(s, e) {
      assert u.waiting == if Opens(s, e) then s.waiting - {s.chains[e.chain].target} else s.waiting;
    } else if e.RawDetached? && t in s.waiting && Forgets(en, t) {
      assert t in Detaching(s, e.session) * s.waiting.Keys;
    }
  }

  lemma AppendOne<T>(a: seq<T>, b: seq<T>, x: T)
    requires Subsequence(a, b)
    ensures Subsequence(a + [x], b + [x])
  {
    assert (a + [x])[..|a|] == a && (b + [x])[..|b|] == b;
  }

  /** Submitted, forwarded, held and dropped messages of one target account for each other. */
  ghost predicate Balanced<T>(sub: seq<T>, f: seq<T>, h: seq<T>, d: seq<T>) {
    && multiset(sub) == multiset(f) + multiset(h) + multiset(d)
    && Subsequence(f + h, sub) && (d == [] ==> f + h == sub)
  }

  lemma BalancedSubmit<T>(sub: seq<T>, f: seq<T>, h: seq<T>, d: seq<T>, x: T)
    requires Balanced(sub, f, h, d)
    ensures Balanced(sub + [x], f, h + [x], d)
    ensures h == [] ==> Balanced(sub + [x], f + [x], [], d)
  {
    AppendOne(f + h, sub, x);
    assert f + (h + [x]) == (f + h) + [x];
    if h == [] { assert (f + [x]) + [] == (f + h) + [x]; }
  }

  lemma BalancedDrop<T>(sub: seq<T>, f: seq<T>, h: seq<T>, d: seq<T>)
    requires Balanced(sub, f, h, d)
    ensures Balanced(sub, f, [], d + h)
  {
    SubsequencePrefix(f, h, sub);
    assert f + [] == f;
    if d + h == [] { assert d == [] && h == [] && f + h == f; }
  }

  lemma BalancedForward<T>(sub: seq<T>, f: seq<T>, now: seq<T>, h': seq<T>, d: seq<T>)
    requires Balanced(sub, f, now + h', d)
    ensures Balanced(sub, f + now, h', d)
  {
    assert (f + now) + h' == f + (now + h');
    assert multiset(now + h') == multiset(now) + multiset(h');
  }

  lemma LedgerStep(env: Env, en: Entry, t: TargetId, sub: seq<Message>, f: seq<Message>, d: seq<Message>)
    requires HeldMoves(env, en, t) && Balanced(sub, f, Held(en.before, t), d)
    ensures Balanced(
      sub + (if Submits(en, t) then [en.event.message] else []), f + ForwardedNow(env, en, t),
      Held(en.after, t), d + (if Forgets(en, t) then Held(en.before, t) else []))
  {
    var h, now, h' := Held(en.before, t), ForwardedNow(env, en, t), Held(en.after, t);
    assert sub + [] == sub && d + [] == d && f + [] == f;
    if Submits(en, t) {
      BalancedSubmit(sub, f, h, d, en.event.message);
    } else if Forgets(en, t) {
      BalancedDrop(sub, f, h, d);
    } else {
      BalancedForward(sub, f, now, h', d);
    }
  }

  lemma {:induction false} LedgerBalances(env: Env, tr: seq<Entry>, n: nat, t: TargetId)
    requires n <= |tr| && Chained(tr) && (forall i :: 0 <= i < |tr| ==> HeldMoves(env, tr[i], t))
    ensures Balanced(Submitted(tr, n, t), Forwarded(env, tr, n, t), StillHeld(tr, n, t), Dropped(tr, n, t))
  {
    if n > 0 {
      LedgerBalances(env, tr, n - 1, t);
      assert Held(tr[n - 1].before, t) == StillHeld(tr, n - 1, t);
      LedgerStep(env, tr[n - 1], t, Submitted(tr, n - 1, t), Forwarded(env, tr, n - 1, t), Dropped(tr, n - 1, t));
    }
  }

  lemma TraceMovesHeld(env: Env, es: seq<Event>, t: TargetId)
    requires env.IsWorker(t)
    ensures Chained(Trace(env, es))
    ensures forall i :: 0 <= i < |es| ==> HeldMoves(env, Trace(env, es)[i], t)
  {
    forall i | 0 <= i < |es| ensures HeldMoves(env, Trace(env, es)[i], t) {
      ReachableIsConsistent(env, es, i);
      StepMovesHeld(env, StateAt(env, es, i), es[i], t);
    }
  }

  /** Every submitted resume is forwarded once, still held, or dropped; and order is kept. */
  lemma ResumesAreConserved(env: Env, es: seq<Event>, n: nat, t: TargetId)
    requires n <= |es| && env.IsWorker(t)
    ensures var tr := Trace(env, es);
      Balanced(Submitted(tr, n, t), Forwarded(env, tr, n, t), StillHeld(tr, n, t), Dropped(tr, n, t))
  {
    TraceMovesHeld(env, es, t);
    LedgerBalances(env, Trace(env, es), n, t);
  }

  /**
    Resumes are dropped exactly when the raw target detaches or the context closes while some are
    held; and such a detaching is itself the event that asks for the context to be closed.
   */
  lemma DropsCloseTheContext(env: Env, es: seq<Event>, n: nat, t: TargetId)
    requires n < |es|
    ensures var tr := Trace(env, es);
      var s, u := tr[n].before, tr[n].after;
      && (Dropped(tr, n + 1, t) != Dropped(tr, n, t) <==> Forgets(tr[n], t) && Held(s, t) != [])
      && (Detaches(tr[n], t) && Held(s, t) != [] ==> u.closing && Step(env, s.(closing := false), es[n]).closing)
      && (es[n].ContextClosed? ==> !u.open)
  {
    var tr := Trace(env, es);
    if Forgets(tr[n], t) && Held(tr[n].before, t) != [] {
      assert |Dropped(tr, n + 1, t)| == |Dropped(tr, n, t)| + |Held(tr[n].before, t)|;
    }
    if Detaches(tr[n], t) && Held(tr[n].before, t) != [] {
      assert t in Detaching(tr[n].before, es[n].session) * tr[n].before.waiting.Keys;
    }
  }

  // ---------------------------------------------------------------- everything else keeps its order

  /** The messages of a transport log other than startup resumes. */
  function Others(q: seq<Message>): seq<Message> {
    if q == [] then []
    else Others(q[..|q| - 1]) + if q[|q| - 1].verb.RunIfWaiting? then [] else [q[|q| - 1]]
  }

  lemma {:induction false} OthersConcat(a: seq<Message>, b: seq<Message>)
    ensures Others(a + b) == Others(a) + Others(b)
  {
    if b == [] {
      assert a + b == a;
    } else {
      assert (a + b)[..|a + b| - 1] == a + b[..|b| - 1];
      OthersConcat(a, b[..|b| - 1]);
    }
  }

  lemma {:induction false} OnlyResumes(q: seq<Message>)
    requires forall i :: 0 <= i < |q| ==> q[i].verb.RunIfWaiting?
    ensures Others(q) == []
  {
    if q != [] { OnlyResumes(q[..|q| - 1]); }
  }

  /** The context has not closed in the first `n` events. */
  predicate OpenAt(es: seq<Event>, n: nat)
    requires n <= |es|
  {
    forall k :: 0 <= k < n ==> !es[k].ContextClosed?
  }

  /** The worker a session of Playwright was last attached to, if it has not been detached since. */
  function WorkerOf(env: Env, es: seq<Event>, n: nat, session: SessionId): Option<TargetId>
    requires n <= |es|
  {
    if n == 0 then None
    else
      match es[n - 1]
      case PlaywrightAttached(id, t) =>
        if id == session && id != "" && t != "" && env.IsWorker(t) && OpenAt(es, n) then Some(t)
        else WorkerOf(env, es, n - 1, session)
      case PlaywrightDetached(id) => if id == session then None else WorkerOf(env, es, n - 1, session)
      case ContextClosed => None
      case _ => WorkerOf(env, es, n - 1, session)
  }

  ghost predicate SessionFacts(env: Env, en: Entry) {
    var s, u := en.before, en.after;
    && u.open == (s.open && !en.event.ContextClosed?)
    && match en.event
       case PlaywrightAttached(id, t) =>
         u.sessions == if s.open && id != "" && t != "" && env.IsWorker(t) then s.sessions[id := t] else s.sessions
       case PlaywrightDetached(id) => u.sessions == if s.open then s.sessions - {id} else s.sessions
       case ContextClosed => u.sessions == map[]
       case _ => u.sessions == s.sessions
  }

  lemma StepHasSessionFacts(env: Env, s: State, e: Event)
    ensures SessionFacts(env, Entry(e, s, Step(env, s, e)))
  {
  }

  /** The session table is what the attach and detach events say. */
  lemma {:induction false} SessionsAreAttachments(env: Env, es: seq<Event>, n: nat, session: SessionId)
    requires n <= |es|
    ensures var s := StateAt(env, es, n);
      && s.open == OpenAt(es, n) && (!s.open ==> s.sessions == map[])
      && WorkerOf(env, es, n, session) == (if session in s.sessions then Some(s.sessions[session]) else None)
  {
    if n > 0 {
      SessionsAreAttachments(env, es, n - 1, session);
      StepHasSessionFacts(env, StateAt(env, es, n - 1), es[n - 1]);
      assert OpenAt(es, n) <==> OpenAt(es, n - 1) && !es[n - 1].ContextClosed?;
    }
  }

  /** The worker that the session of a message stands for when event `n` comes. */
  function Addressee(env: Env, es: seq<Event>, n: nat, m: Message): Option<TargetId>
    requires n <= |es|
  {
    if m.session.Some? then WorkerOf(env, es, n, m.session.value) else None
  }

  /**
    What the gate makes of a message: a nested auto-attach gets the managed filter, a user agent
    override for a worker the managed identity, and everything else stays.
   */
  function Managed(env: Env, es: seq<Event>, n: nat, m: Message): Message
    requires n <= |es|
  {
    var overrides := m.verb in {EmulationUserAgent, NetworkUserAgent} && Addressee(env, es, n, m).Some?;
    var attaches := m.verb == SetAutoAttach && m.session.Some? && OpenAt(es, n);
    Message(m.session, m.verb, Params(if attaches then env.nestedFilter else m.params.filter,
                                      if overrides then env.identity else m.params.identity, m.params.rest))
  }

  lemma RewriteIsManaged(env: Env, es: seq<Event>, n: nat, m: Message)
    requires n <= |es|
    ensures Rewrite(env, StateAt(env, es, n), m) == Managed(env, es, n, m)
    ensures GateOf(StateAt(env, es, n), m) == Addressee(env, es, n, m)
  {
    SessionsAreAttachments(env, es, n, if m.session.Some? then m.session.value else "");
  }

  /** The gate of a worker is open exactly while a bootstrap of it counts. */
  lemma {:induction false} GateIsOpenWhenBootstrapped(env: Env, es: seq<Event>, n: nat, t: TargetId)
    requires n < |es| && env.IsWorker(t)
    ensures t in Trace(env, es)[n].before.released <==> Bootstrapped(Trace(env, es), n, t)
  {
    var tr := Trace(env, es);
    TraceHasGateFacts(env, es, t);
    if t in tr[n].before.released { OpenGateIsBootstrapped(env, tr, n, t); }
    if Bootstrapped(tr, n, t) {
      var k: nat :| k < n <= |tr| && Bootstraps(tr[k], t) && forall j :: k < j < n ==> !Forgets(tr[j], t);
      TraceKeepsOpenGates(env, es, t);
      OpenGateStays(tr, k, n, t);
    }
  }

  ghost predicate OpensAndStays(en: Entry, t: TargetId) {
    Bootstraps(en, t) || (t in en.before.released && !Forgets(en, t)) ==> t in en.after.released
  }

  lemma StepKeepsOpenGates(env: Env, s: State, e: Event, t: TargetId)
    ensures OpensAndStays(Entry(e, s, Step(env, s, e)), t)
  {
  }

  lemma TraceKeepsOpenGates(env: Env, es: seq<Event>, t: TargetId)
    ensures forall i :: 0 <= i < |es| ==> OpensAndStays(Trace(env, es)[i], t)
  {
    forall i | 0 <= i < |es| ensures OpensAndStays(Trace(env, es)[i], t) {
      StepKeepsOpenGates(env, StateAt(env, es, i), es[i], t);
    }
  }

  lemma {:induction false} OpenGateStays(tr: seq<Entry>, k: nat, n: nat, t: TargetId)
    requires Chained(tr) && k < n < |tr| && (forall i :: 0 <= i < |tr| ==> OpensAndStays(tr[i], t))
    requires Bootstraps(tr[k], t) && forall j :: k < j < n ==> !Forgets(tr[j], t)
    ensures t in tr[n].before.released
    decreases n
  {
    assert OpensAndStays(tr[n - 1], t);
    if n > k + 1 { OpenGateStays(tr, k, n - 1, t); }
  }

  /**
    Every message Playwright sends goes out at once, as managed, unless it resumes an attached
    worker whose bootstrap does not count; then it joins that worker's held messages at the end.
   */
  lemma MessagesAreManaged(env: Env, es: seq<Event>, n: nat)
    requires n < |es| && es[n].PlaywrightSends?
    ensures var m, tr := es[n].message, Trace(env, es);
      var s, u, t := tr[n].before, tr[n].after, Addressee(env, es, n, m);
      var waits := m.verb == RunIfWaiting && t.Some? && !Bootstrapped(tr, n, t.value);
      && u.wire == s.wire + (if waits then [] else [Managed(env, es, n, m)])
      && (forall w :: Held(u, w) == Held(s, w) + if waits && t == Some(w) then [Managed(env, es, n, m)] else [])
      && u == s.(wire := u.wire, waiting := u.waiting)
  {
    var m := es[n].message;
    RewriteIsManaged(env, es, n, m);
    ReachableIsConsistent(env, es, n);
    var t := Addressee(env, es, n, m);
    if t.Some? {
      assert env.IsWorker(t.value);
      GateIsOpenWhenBootstrapped(env, es, n, t.value);
    }
  }

  /** What Playwright submits with event `n`, other than a resume, as managed. */
  function OtherSubmitted(env: Env, es: seq<Event>, n: nat): seq<Message>
    requires n < |es|
  {
    if es[n].PlaywrightSends? && !es[n].message.verb.RunIfWaiting? then [Managed(env, es, n, es[n].message)] else []
  }

  function OthersSubmitted(env: Env, es: seq<Event>, n: nat): seq<Message>
    requires n <= |es|
  {
    if n == 0 then [] else OthersSubmitted(env, es, n - 1) + OtherSubmitted(env, es, n - 1)
  }

  lemma OthersInStep(env: Env, s: State, e: Event)
    requires Consistent(env, s)
    ensures Step(env, s, e).wire == s.wire + Sent(env, s, e)
    ensures Others(Sent(env, s, e))
      == if e.PlaywrightSends? && !e.message.verb.RunIfWaiting? then [Rewrite(env, s, e.message)] else []
  {
    if e.PlaywrightSends? {
      assert Rewrite(env, s, e.message).verb == e.message.verb;
      if !MustWait(s, e.message) {
        assert Sent(env, s, e)[..0] == [];
      }
    } else if Opens(s, e) {
      OnlyResumes(Held(s, s.chains[e.chain].target));
    }
  }

  lemma OneMoreOther(env: Env, es: seq<Event>, n: nat)
    requires n < |es|
    ensures Others(Trace(env, es)[n].after.wire) == Others(Trace(env, es)[n].before.wire) + OtherSubmitted(env, es, n)
  {
    var s, e := StateAt(env, es, n), es[n];
    ReachableIsConsistent(env, es, n);
    OthersInStep(env, s, e);
    if e.PlaywrightSends? { RewriteIsManaged(env, es, n, e.message); }
    OthersConcat(s.wire, Sent(env, s, e));
    assert Trace(env, es)[n] == Entry(e, s, Step(env, s, e));
  }

  lemma {:induction false} OthersAreSubmitted(env: Env, es: seq<Event>, tr: seq<Entry>, n: nat)
    requires Chained(tr) && n < |tr| == |es|
    requires forall i :: 0 <= i < |tr| ==>
      Others(tr[i].after.wire) == Others(tr[i].before.wire) + OtherSubmitted(env, es, i)
    ensures Others(tr[n].after.wire) == OthersSubmitted(env, es, n + 1)
  {
    if n > 0 {
      OthersAreSubmitted(env, es, tr, n - 1);
      assert tr[n].before == tr[n - 1].after;
    }
  }

  lemma TraceIsChained(env: Env, es: seq<Event>)
    ensures Chained(Trace(env, es))
  {
  }

  lemma TraceAddsOthers(env: Env, es: seq<Event>)
    ensures forall i :: 0 <= i < |es| ==>
      Others(Trace(env, es)[i].after.wire) == Others(Trace(env, es)[i].before.wire) + OtherSubmitted(env, es, i)
  {
    forall i | 0 <= i < |es|
      ensures Others(Trace(env, es)[i].after.wire) == Others(Trace(env, es)[i].before.wire) + OtherSubmitted(env, es, i)
    {
      OneMoreOther(env, es, i);
    }
  }

  /** Everything but resumes reaches the transport in the order it was submitted, as managed. */
  lemma OtherMessagesKeepTheirOrder(env: Env, es: seq<Event>, n: nat)
    requires n < |es|
    ensures Others(Trace(env, es)[n].after.wire) == OthersSubmitted(env, es, n + 1)
  {
    TraceIsChained(env, es);
    TraceAddsOthers(env, es);
    OthersAreSubmitted(env, es, Trace(env, es), n);
  }
}
