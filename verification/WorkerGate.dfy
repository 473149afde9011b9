/**
  The worker startup gate.  Two protocol connections reach the same browser:
  Playwright's own transport, whose resume commands this gate holds back, and a raw
  connection that installs the identity bootstrap in every worker before it may run.

  Every event below is one atomic step of the event loop; they arrive in any order.
 */
module WorkerGate {
  import opened Wrappers

  type SessionId = string
  type TargetId = string

  datatype Kind = DedicatedWorker | SharedWorker | ServiceWorker | Page | Iframe | OtherKind

  datatype Verb = SetAutoAttach | EmulationUserAgent | NetworkUserAgent | RunIfWaiting | OtherVerb(name: string)

  /** A command's parameters: the auto-attach filter, the user agent identity, and the rest. */
  datatype Params = Params(filter: string, identity: string, rest: string)

  datatype Message = Message(session: Option<SessionId>, verb: Verb, params: Params)

  /** What one managed profile fixes: target kinds as the browser reports them, filter and override. */
  datatype Env = Env(kind: TargetId -> Kind, nestedFilter: string, identity: string) {
    predicate IsWorker(t: TargetId) { kind(t).DedicatedWorker? || kind(t).SharedWorker? || kind(t).ServiceWorker? }
  }

  /** The command whose reply a configuration is waiting for. */
  datatype Stage =
    | SettingAutoAttach | EnablingRuntime | OverridingNetwork | Evaluating
    | OverridingEmulation | OverridingHardware | Resuming | Configured | Failed
  {
    predicate Waiting() { !Configured? && !Failed? }
  }

  /** One run of `configure`: an attachment of a target to the raw connection. */
  datatype Chain = Chain(session: SessionId, target: TargetId, paused: bool, stage: Stage)

  datatype Command = Command(session: SessionId, step: Stage)

  datatype Reply = Ack | ScriptException | Refused

  datatype State = State(
    sessions: map<SessionId, TargetId>, released: set<TargetId>, waiting: map<TargetId, seq<Message>>,
    wire: seq<Message>, open: bool, closing: bool,
    targets: map<TargetId, nat>, chains: seq<Chain>, rawWire: seq<Command>)

  const INITIAL := State(map[], {}, map[], [], true, false, map[], [], [])

  datatype Event =
    | PlaywrightAttached(session: SessionId, target: TargetId)
    | PlaywrightDetached(session: SessionId)
    | PlaywrightSends(message: Message)
    | RawAttached(session: SessionId, target: TargetId, paused: bool)
    | RawDetached(session: SessionId)
    | RawReply(chain: nat, reply: Reply)
    | ContextClosed

  function Held(s: State, t: TargetId): seq<Message> {
    if t in s.waiting then s.waiting[t] else []
  }

  /** The worker target a Playwright message is gated by, if any. */
  function GateOf(s: State, m: Message): Option<TargetId> {
    if s.open && m.session.Some? && m.session.value in s.sessions then Some(s.sessions[m.session.value]) else None
  }

  function Rewrite(env: Env, s: State, m: Message): Message {
    if !s.open then m
    else if m.session.Some? && m.verb.SetAutoAttach? then m.(params := m.params.(filter := env.nestedFilter))
    else if GateOf(s, m).Some? && (m.verb.EmulationUserAgent? || m.verb.NetworkUserAgent?) then
      m.(params := m.params.(identity := env.identity))
    else m
  }

  predicate MustWait(s: State, m: Message) {
    m.verb.RunIfWaiting? && GateOf(s, m).Some? && GateOf(s, m).value !in s.released
  }

  predicate Attached(s: State, t: TargetId, session: SessionId) {
    t in s.targets && s.targets[t] < |s.chains| && s.chains[s.targets[t]].session == session
  }

  function Detaching(s: State, session: SessionId): set<TargetId> {
    set t | t in s.targets && Attached(s, t, session)
  }

  /** The stage an acknowledged command leads to. */
  function NextStage(env: Env, c: Chain): Stage {
    match c.stage
    case SettingAutoAttach => if env.IsWorker(c.target) then EnablingRuntime else OverridingEmulation
    case EnablingRuntime => OverridingNetwork
    case OverridingNetwork => Evaluating
    case Evaluating => if c.paused then Resuming else Configured
    case OverridingEmulation => OverridingHardware
    case OverridingHardware => if c.paused then Resuming else Configured
    case Resuming => Configured
    case _ => c.stage
  }

  predicate Answers(s: State, e: Event) {
    e.RawReply? && e.chain < |s.chains| && s.chains[e.chain].stage.Waiting()
  }

  predicate Succeeds(s: State, e: Event) {
    Answers(s, e) && (e.reply.Ack? || (e.reply.ScriptException? && !s.chains[e.chain].stage.Evaluating?))
  }

  /** The reply after which `configure` opens the gate of its target. */
  predicate Opens(s: State, e: Event) {
    Succeeds(s, e) && (s.chains[e.chain].stage.Evaluating? || s.chains[e.chain].stage.OverridingHardware?)
  }

  /** What one event puts on Playwright's transport. */
  function Sent(env: Env, s: State, e: Event): seq<Message> {
    if e.PlaywrightSends? then (if MustWait(s, e.message) then [] else [Rewrite(env, s, e.message)])
    else if Opens(s, e) then Held(s, s.chains[e.chain].target)
    else []
  }

  /** What one event puts on the raw connection. */
  function RawSent(env: Env, s: State, e: Event): seq<Command> {
    if e.RawAttached? && e.target !in s.targets && s.open then [Command(e.session, SettingAutoAttach)]
    else if Succeeds(s, e) && s.open && NextStage(env, s.chains[e.chain]).Waiting() then
      [Command(s.chains[e.chain].session, NextStage(env, s.chains[e.chain]))]
    else []
  }

  /** A chain that cannot go on asks for the context to be closed while its target is still registered. */
  function AfterFailure(s: State, c: nat): State
    requires c < |s.chains|
  {
    s.(chains := s.chains[c := s.chains[c].(stage := Failed)],
       closing := s.closing || (s.open && s.chains[c].target in s.targets))
  }

  /** The stage a reply leads to. */
  function ReplyStage(env: Env, s: State, e: Event): Stage
    requires Answers(s, e)
  {
    var next := NextStage(env, s.chains[e.chain]);
    if Succeeds(s, e) && (s.open || !next.Waiting()) then next else Failed
  }

  function Step(env: Env, s: State, e: Event): State {
    match e
    case PlaywrightAttached(session, t) =>
      if s.open && session != "" && t != "" && env.IsWorker(t) then s.(sessions := s.sessions[session := t]) else s
    case PlaywrightDetached(session) =>
      if s.open then s.(sessions := s.sessions - {session}) else s
    case PlaywrightSends(m) =>
      if MustWait(s, m) then
        s.(waiting := s.waiting[GateOf(s, m).value := Held(s, GateOf(s, m).value) + [Rewrite(env, s, m)]])
      else s.(wire := s.wire + Sent(env, s, e))
    case RawAttached(session, t, paused) =>
      if t in s.targets then s
      else
        var started := if s.open then SettingAutoAttach else Failed;
        s.(targets := s.targets[t := |s.chains|], chains := s.chains + [Chain(session, t, paused, started)],
           rawWire := s.rawWire + RawSent(env, s, e))
    case RawDetached(session) =>
      var gone := Detaching(s, session);
      s.(targets := s.targets - gone, released := s.released - gone, waiting := s.waiting - gone,
         closing := s.closing || gone * s.waiting.Keys != {})
    case RawReply(c, _) =>
      if !Answers(s, e) then s
      else
        var t, stage, opens := s.chains[c].target, ReplyStage(env, s, e), Opens(s, e);
        s.(chains := s.chains[c := s.chains[c].(stage := stage)],
           closing := s.closing || (stage.Failed? && s.open && t in s.targets),
           rawWire := s.rawWire + RawSent(env, s, e),
           released := if opens then s.released + {t} else s.released,
           wire := if opens then s.wire + Sent(env, s, e) else s.wire,
           waiting := if opens then s.waiting - {t} else s.waiting)
    case ContextClosed => s.(open := false, sessions := map[], released := {}, waiting := map[])
  }

  // ---------------------------------------------------------------- the closures of the installer

  /** The two closures of the source, with the variables they share as fields. */
  class ManagedWorkerIdentity {
    const env: Env
    var sessions: map<SessionId, TargetId>
    var released: set<TargetId>
    var waiting: map<TargetId, seq<Message>>
    var wire: seq<Message>
    var open: bool
    var closing: bool
    var targets: map<TargetId, nat>
    var chains: seq<Chain>
    var rawWire: seq<Command>

    ghost function View(): State
      reads this
    {
      State(sessions, released, waiting, wire, open, closing, targets, chains, rawWire)
    }

    constructor (env: Env)
      ensures this.env == env && View() == INITIAL
    {
      this.env := env;
      sessions, released, waiting, wire := map[], {}, map[], [];
      open, closing := true, false;
      targets, chains, rawWire := map[], [], [];
    }

    method ReceiveAttached(session: SessionId, target: TargetId)
      modifies this
      ensures View() == Step(env, old(View()), PlaywrightAttached(session, target))
    {
      if open && session != "" && target != "" && env.IsWorker(target) {
        sessions := sessions[session := target];
      }
    }

    method ReceiveDetached(session: SessionId)
      modifies this
      ensures View() == Step(env, old(View()), PlaywrightDetached(session))
    {
      if open { sessions := sessions - {session}; }
    }

    method Send(message: Message)
      modifies this
      ensures View() == Step(env, old(View()), PlaywrightSends(message))
    {
      if !open { wire := wire + [message]; return; }
      var m := message;
      var target := if m.session.Some? && m.session.value in sessions then Some(sessions[m.session.value]) else None;
      if m.session.Some? && m.verb.SetAutoAttach? {
        m := m.(params := m.params.(filter := env.nestedFilter));
      }
      if target.Some? && (m.verb.EmulationUserAgent? || m.verb.NetworkUserAgent?) {
        m := m.(params := m.params.(identity := env.identity));
      }
      if target.Some? && target.value !in released && m.verb.RunIfWaiting? {
        var pending := if target.value in waiting then waiting[target.value] else [];
        waiting := waiting[target.value := pending + [m]];
        return;
      }
      wire := wire + [m];
    }

    method Release(target: TargetId)
      modifies this`released, this`wire, this`waiting
      ensures released == old(released) + {target} && waiting == old(waiting) - {target}
      ensures wire == old(wire) + old(Held(View(), target))
    {
      released := released + {target};
      var held := if target in waiting then waiting[target] else [];
      for i := 0 to |held|
        invariant wire == old(wire) + held[..i]
        invariant waiting == old(waiting) && released == old(released) + {target}
      {
        wire := wire + [held[i]];
      }
      waiting := waiting - {target};
    }

    method ForgetTarget(target: TargetId)
      modifies this`closing, this`released, this`waiting
      ensures released == old(released) - {target} && waiting == old(waiting) - {target}
      ensures closing == (old(closing) || target in old(waiting))
    {
      if target in waiting { closing := true; }
      released := released - {target};
      waiting := waiting - {target};
    }

    method HandleDetached(session: SessionId)
      modifies this
      ensures View() == Step(env, old(View()), RawDetached(session))
    {
      ghost var gone := Detaching(View(), session);
      var rest := targets.Keys;
      ghost var done: set<TargetId> := {};
      while rest != {}
        invariant done + rest == old(targets).Keys && done !! rest
        invariant targets == old(targets) - (done * gone)
        invariant released == old(released) - (done * gone) && waiting == old(waiting) - (done * gone)
        invariant closing == (old(closing) || done * gone * old(waiting).Keys != {})
        invariant sessions == old(sessions) && wire == old(wire) && open == old(open)
        invariant chains == old(chains) && rawWire == old(rawWire)
        decreases rest
      {
        var t :| t in rest;
        rest := rest - {t};
        if targets[t] < |chains| && chains[targets[t]].session == session {
          assert t in gone && (done + {t}) * gone == done * gone + {t};
          targets := targets - {t};
          ForgetTarget(t);
        } else {
          assert t !in gone && (done + {t}) * gone == done * gone;
        }
        done := done + {t};
      }
      assert done * gone == gone;
    }

    method HandleAttached(session: SessionId, target: TargetId, paused: bool)
      modifies this
      ensures View() == Step(env, old(View()), RawAttached(session, target, paused))
    {
      if target in targets { return; }
      targets := targets[target := |chains|];
      if open {
        chains := chains + [Chain(session, target, paused, SettingAutoAttach)];
        rawWire := rawWire + [Command(session, SettingAutoAttach)];
      } else {
        chains := chains + [Chain(session, target, paused, Failed)];
      }
    }

    method Fail(c: nat)
      requires c < |chains|
      modifies this`chains, this`closing
      ensures View() == AfterFailure(old(View()), c)
    {
      if open && chains[c].target in targets { closing := true; }
      chains := chains[c := chains[c].(stage := Failed)];
    }

    /** The continuation of `configure` after one reply. */
    method HandleReply(c: nat, reply: Reply)
      modifies this
      ensures View() == Step(env, old(View()), RawReply(c, reply))
    {
      if c >= |chains| || !chains[c].stage.Waiting() { return; }
      var chain := chains[c];
      if reply.Refused? || (reply.ScriptException? && chain.stage.Evaluating?) {
        Fail(c);
        return;
      }
      if chain.stage.Evaluating? || chain.stage.OverridingHardware? { Release(chain.target); }
      var next := NextStage(env, chain);
      if !next.Waiting() {
        chains := chains[c := chain.(stage := next)];
      } else if open {
        chains := chains[c := chain.(stage := next)];
        rawWire := rawWire + [Command(chain.session, next)];
      } else {
        Fail(c);
      }
    }

    method HandleClose()
      modifies this
      ensures View() == Step(env, old(View()), ContextClosed)
    {
      open := false;
      sessions, released, waiting := map[], {}, map[];
    }
  }
}
