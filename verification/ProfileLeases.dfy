/**
  Exclusive ownership of persistent profiles by one session manager.

  Starts, stops and lease renewals are cut at their awaits and interleave freely.  The
  lease table stands for the lease manager: acquiring fails while a key is held, and
  renewing or releasing works only with the token that holds the key.  A lease may lapse
  at any time, and other processes may acquire whatever is free.
 */
module ProfileLeases {
  import opened Wrappers

  type SessionId = nat
  type Token = nat

  datatype Key = Key(tenant: string, profile: string)

  datatype Lease = Lease(key: Key, token: Token)

  /** Which start acquired a token, and for which key. */
  datatype Grant = Grant(id: SessionId, key: Key)

  /** An entry of `activeProfileLeases`; `version` is the identity of the stored object. */
  datatype Owned = Owned(lease: Lease, version: nat)

  /** Where a call of `start` waits. */
  datatype StartPhase =
    | Acquiring(key: Key)        // for the lease manager to act
    | Granted(lease: Lease)      // for the granted lease to arrive
    | Denied                     // for the refusal to arrive
    | Launching                  // for the browser session to start
    | CleaningUp                 // for a failed session to stop

  datatype RenewPhase = Sent | Confirmed | Lost

  datatype Renewal = Renewal(owned: Owned, phase: RenewPhase)

  datatype State = State(
    // the lease manager
    held: map<Key, Token>, grants: map<Token, Grant>, lapsed: set<Token>, nextToken: nat,
    // the session manager; `keyOf` records the key a persistent session was started with,
    // and `armed` holds the renewal timers that have not fired
    sessions: set<SessionId>, keyOf: map<SessionId, Key>, active: map<SessionId, Owned>, armed: set<SessionId>,
    nextSession: nat, nextVersion: nat,
    // calls in flight
    starts: map<SessionId, StartPhase>, renewals: map<SessionId, Renewal>,
    stops: multiset<SessionId>, losses: multiset<SessionId>, releases: multiset<Lease>)

  const INITIAL :=
    State(map[], map[], {}, 0, {}, map[], map[], {}, 0, 0, map[], map[], multiset{}, multiset{}, multiset{})

  datatype Event =
    | CallStart(profile: Option<Key>)
    | AcquireEffect(id: SessionId)
    | AcquireFails(id: SessionId)        // for another reason than a held key, without effect
    | AcquireReturns(id: SessionId)
    | LaunchReturns(id: SessionId, ok: bool)
    | CleanupReturns(id: SessionId)
    | CallStop(id: SessionId)
    | StopReturns(id: SessionId)
    | TimerFires(id: SessionId)
    | RenewEffect(id: SessionId)
    | RenewReturns(id: SessionId)
    | LossReported(id: SessionId)
    | ReleaseEffect(lease: Lease)
    | Lapse(key: Key)
    | ForeignAcquire(key: Key)
    | ForeignRelease(key: Key)

  predicate Holds(s: State, l: Lease) { l.key in s.held && s.held[l.key] == l.token }

  predicate Owns(s: State, id: SessionId, o: Owned) { id in s.active && s.active[id] == o }

  /** Store a fresh entry for the lease and arm its renewal timer. */
  function RecordLease(s: State, id: SessionId, lease: Lease): State {
    s.(active := s.active[id := Owned(lease, s.nextVersion)], nextVersion := s.nextVersion + 1,
       armed := s.armed + {id})
  }

  /** Forget the lease and its timer, and send the release. */
  function ReleaseProfile(s: State, id: SessionId): State {
    var owned := id in s.active;
    s.(active := s.active - {id},
       armed := if owned then s.armed - {id} else s.armed,
       releases := if owned then s.releases + multiset{s.active[id].lease} else s.releases)
  }

  /** The session leaves the manager's tables, and its lease with it. */
  function Deregister(s: State, id: SessionId): State {
    ReleaseProfile(s.(sessions := s.sessions - {id}, keyOf := s.keyOf - {id}), id)
  }

  /** The lease manager answers an acquire request. */
  function AcquireStep(s: State, id: SessionId): State {
    if id !in s.starts || !s.starts[id].Acquiring? then s
    else
      var key := s.starts[id].key;
      var free := key !in s.held;
      s.(held := if free then s.held[key := s.nextToken] else s.held,
         grants := if free then s.grants[s.nextToken := Grant(id, key)] else s.grants,
         nextToken := if free then s.nextToken + 1 else s.nextToken,
         starts := s.starts[id := if free then Granted(Lease(key, s.nextToken)) else Denied])
  }

  /** The acquire request fails without having reached the lease table. */
  function AcquireFailure(s: State, id: SessionId): State {
    var waits := id in s.starts && s.starts[id].Acquiring?;
    s.(starts := if waits then s.starts[id := Denied] else s.starts)
  }

  function AcquireReturn(s: State, id: SessionId): State {
    if id !in s.starts || !(s.starts[id].Granted? || s.starts[id].Denied?) then s
    else
      var p := s.starts[id];
      s.(active := if p.Granted? then s.active[id := Owned(p.lease, s.nextVersion)] else s.active,
         nextVersion := if p.Granted? then s.nextVersion + 1 else s.nextVersion,
         armed := if p.Granted? then s.armed + {id} else s.armed,
         sessions := if p.Granted? then s.sessions + {id} else s.sessions,
         keyOf := if p.Granted? then s.keyOf[id := p.lease.key] else s.keyOf,
         starts := if p.Granted? then s.starts[id := Launching] else s.starts - {id})
  }

  /**
    The answer to a renewal.  A confirmed lease is stored anew if the entry is still the one
    the request was about and the session is still there; otherwise it is given back.  After
    a loss the entry goes and the session is to be stopped.
   */
  function RenewReturn(s: State, id: SessionId): State {
    if id !in s.renewals || s.renewals[id].phase.Sent? then s
    else
      var o := s.renewals[id].owned;
      var confirmed, same := s.renewals[id].phase.Confirmed?, Owns(s, id, o);
      var keep, lost := confirmed && same && id in s.sessions, !confirmed && same;
      s.(renewals := s.renewals - {id},
         active := if keep then s.active[id := Owned(o.lease, s.nextVersion)]
                   else if lost then s.active - {id} else s.active,
         nextVersion := if keep then s.nextVersion + 1 else s.nextVersion,
         armed := if keep then s.armed + {id} else if lost then s.armed - {id} else s.armed,
         releases := if confirmed && !keep then s.releases + multiset{o.lease} else s.releases,
         losses := if lost then s.losses + multiset{id} else s.losses)
  }

  function StartCall(s: State, profile: Option<Key>): State {
    var id := s.nextSession;
    s.(nextSession := id + 1,
       sessions := if profile.Some? then s.sessions else s.sessions + {id},
       starts := s.starts[id := if profile.Some? then Acquiring(profile.value) else Launching])
  }

  function LaunchReturn(s: State, id: SessionId, ok: bool): State {
    if id !in s.starts || !s.starts[id].Launching? then s
    else
      s.(sessions := if ok then s.sessions else s.sessions - {id},
         starts := if ok then s.starts - {id} else s.starts[id := CleaningUp])
  }

  function CleanupReturn(s: State, id: SessionId): State {
    if id !in s.starts || !s.starts[id].CleaningUp? then s
    else ReleaseProfile(s.(keyOf := s.keyOf - {id}, starts := s.starts - {id}), id)
  }

  function StopCall(s: State, id: SessionId): State {
    s.(stops := if id in s.sessions then s.stops + multiset{id} else s.stops)
  }

  function StopReturn(s: State, id: SessionId): State {
    if id !in s.stops then s
    else Deregister(s.(stops := s.stops - multiset{id}), id)
  }

  function TimerStep(s: State, id: SessionId): State {
    s.(armed := s.armed - {id},
       renewals := if id in s.armed && id in s.active then s.renewals[id := Renewal(s.active[id], Sent)]
                   else s.renewals)
  }

  function RenewStep(s: State, id: SessionId): State {
    if id !in s.renewals || !s.renewals[id].phase.Sent? then s
    else
      var outcome := if Holds(s, s.renewals[id].owned.lease) then Confirmed else Lost;
      s.(renewals := s.renewals[id := s.renewals[id].(phase := outcome)])
  }

  function LossStep(s: State, id: SessionId): State {
    if id !in s.losses then s else StopCall(s.(losses := s.losses - multiset{id}), id)
  }

  function ReleaseStep(s: State, l: Lease): State {
    if l !in s.releases then s
    else s.(releases := s.releases - multiset{l}, held := if Holds(s, l) then s.held - {l.key} else s.held)
  }

  function LapseStep(s: State, key: Key): State {
    if key in s.held then s.(held := s.held - {key}, lapsed := s.lapsed + {s.held[key]}) else s
  }

  function ForeignAcquireStep(s: State, key: Key): State {
    if key in s.held then s else s.(held := s.held[key := s.nextToken], nextToken := s.nextToken + 1)
  }

  function ForeignReleaseStep(s: State, key: Key): State {
    if key in s.held && s.held[key] !in s.grants then s.(held := s.held - {key}) else s
  }

  function Step(s: State, e: Event): State {
    match e
    case CallStart(profile) => StartCall(s, profile)
    case AcquireEffect(id) => AcquireStep(s, id)
    case AcquireFails(id) => AcquireFailure(s, id)
    case AcquireReturns(id) => AcquireReturn(s, id)
    case LaunchReturns(id, ok) => LaunchReturn(s, id, ok)
    case CleanupReturns(id) => CleanupReturn(s, id)
    case CallStop(id) => StopCall(s, id)
    case StopReturns(id) => StopReturn(s, id)
    case TimerFires(id) => TimerStep(s, id)
    case RenewEffect(id) => RenewStep(s, id)
    case RenewReturns(id) => RenewReturn(s, id)
    case LossReported(id) => LossStep(s, id)
    case ReleaseEffect(lease) => ReleaseStep(s, lease)
    case Lapse(key) => LapseStep(s, key)
    case ForeignAcquire(key) => ForeignAcquireStep(s, key)
    case ForeignRelease(key) => ForeignReleaseStep(s, key)
  }

  // ---------------------------------------------------------------- the session manager

  class SessionManager {
    var held: map<Key, Token>
    ghost var grants: map<Token, Grant>
    ghost var lapsed: set<Token>
    var nextToken: nat
    var sessions: set<SessionId>
    ghost var keyOf: map<SessionId, Key>
    var activeProfileLeases: map<SessionId, Owned>
    var leaseRenewalTimers: set<SessionId>
    var nextSession: nat
    var nextVersion: nat
    var starts: map<SessionId, StartPhase>
    var renewals: map<SessionId, Renewal>
    var stops: multiset<SessionId>
    var losses: multiset<SessionId>
    var releases: multiset<Lease>

    ghost function View(): State
      reads this
    {
      State(held, grants, lapsed, nextToken, sessions, keyOf, activeProfileLeases, leaseRenewalTimers,
            nextSession, nextVersion, starts, renewals, stops, losses, releases)
    }

    constructor ()
      ensures View() == INITIAL
    {
      held, grants, lapsed, nextToken := map[], map[], {}, 0;
      sessions, keyOf, activeProfileLeases, leaseRenewalTimers := {}, map[], map[], {};
      nextSession, nextVersion, starts, renewals := 0, 0, map[], map[];
      stops, losses, releases := multiset{}, multiset{}, multiset{};
    }

    method Start(key: Option<Key>) returns (id: SessionId)
      modifies this
      ensures View() == StartCall(old(View()), key) && id == old(nextSession)
    {
      id := nextSession;
      nextSession := nextSession + 1;
      if key.Some? {
        starts := starts[id := Acquiring(key.value)];
      } else {
        sessions := sessions + {id};
        starts := starts[id := Launching];
      }
    }

    /** The lease manager handles an acquire request. */
    method Acquire(id: SessionId)
      modifies this
      ensures View() == AcquireStep(old(View()), id)
    {
      if id !in starts || !starts[id].Acquiring? { return; }
      var key := starts[id].key;
      if key in held {
        starts := starts[id := Denied];
      } else {
        held := held[key := nextToken];
        grants := grants[nextToken := Grant(id, key)];
        starts := starts[id := Granted(Lease(key, nextToken))];
        nextToken := nextToken + 1;
      }
    }

    /** The request is lost before it has an effect. */
    method FailAcquire(id: SessionId)
      modifies this`starts
      ensures View() == AcquireFailure(old(View()), id)
    {
      if id in starts && starts[id].Acquiring? { starts := starts[id := Denied]; }
    }

    method RecordProfileLease(id: SessionId, lease: Lease)
      modifies this`activeProfileLeases, this`nextVersion, this`leaseRenewalTimers
      ensures View() == RecordLease(old(View()), id, lease)
    {
      activeProfileLeases := activeProfileLeases[id := Owned(lease, nextVersion)];
      nextVersion := nextVersion + 1;
      leaseRenewalTimers := leaseRenewalTimers + {id};
    }

    method ContinueStart(id: SessionId)
      modifies this
      ensures View() == AcquireReturn(old(View()), id)
    {
      if id !in starts { return; }
      match starts[id]
      case Granted(lease) =>
        RecordProfileLease(id, lease);
        sessions := sessions + {id};
        keyOf := keyOf[id := lease.key];
        starts := starts[id := Launching];
      case Denied => starts := starts - {id};
      case _ =>
    }

    method FinishLaunch(id: SessionId, ok: bool)
      modifies this
      ensures View() == LaunchReturn(old(View()), id, ok)
    {
      if id !in starts || !starts[id].Launching? { return; }
      if ok {
        starts := starts - {id};
      } else {
        sessions := sessions - {id};
        starts := starts[id := CleaningUp];
      }
    }

    method ReleasePersistentProfile(id: SessionId)
      modifies this`activeProfileLeases, this`leaseRenewalTimers, this`releases
      ensures View() == ReleaseProfile(old(View()), id)
    {
      if id !in activeProfileLeases { return; }
      var owned := activeProfileLeases[id];
      activeProfileLeases := activeProfileLeases - {id};
      leaseRenewalTimers := leaseRenewalTimers - {id};
      releases := releases + multiset{owned.lease};
    }

    method FinishCleanup(id: SessionId)
      modifies this
      ensures View() == CleanupReturn(old(View()), id)
    {
      if id !in starts || !starts[id].CleaningUp? { return; }
      keyOf := keyOf - {id};
      starts := starts - {id};
      ReleasePersistentProfile(id);
    }

    method Stop(id: SessionId)
      modifies this
      ensures View() == StopCall(old(View()), id)
    {
      if id in sessions { stops := stops + multiset{id}; }
    }

    method DeregisterSession(id: SessionId)
      modifies this
      ensures View() == Deregister(old(View()), id)
    {
      sessions := sessions - {id};
      keyOf := keyOf - {id};
      ReleasePersistentProfile(id);
    }

    method FinishStop(id: SessionId)
      modifies this
      ensures View() == StopReturn(old(View()), id)
    {
      if id !in stops { return; }
      stops := stops - multiset{id};
      DeregisterSession(id);
    }

    method RenewProfileLease(id: SessionId)
      modifies this
      ensures View() == TimerStep(old(View()), id)
    {
      if id !in leaseRenewalTimers { return; }
      leaseRenewalTimers := leaseRenewalTimers - {id};
      if id in activeProfileLeases { renewals := renewals[id := Renewal(activeProfileLeases[id], Sent)]; }
    }

    /** The lease manager handles a renew request. */
    method Renew(id: SessionId)
      modifies this
      ensures View() == RenewStep(old(View()), id)
    {
      if id !in renewals || !renewals[id].phase.Sent? { return; }
      var lease := renewals[id].owned.lease;
      var current := lease.key in held && held[lease.key] == lease.token;
      renewals := renewals[id := renewals[id].(phase := if current then Confirmed else Lost)];
    }

    method ContinueRenewal(id: SessionId)
      modifies this
      ensures View() == RenewReturn(old(View()), id)
    {
      if id !in renewals || renewals[id].phase.Sent? { return; }
      var owned, confirmed := renewals[id].owned, renewals[id].phase.Confirmed?;
      renewals := renewals - {id};
      var same := id in activeProfileLeases && activeProfileLeases[id] == owned;
      if confirmed {
        if !same || id !in sessions {
          releases := releases + multiset{owned.lease};
        } else {
          RecordProfileLease(id, owned.lease);
        }
      } else if same {
        activeProfileLeases := activeProfileLeases - {id};
        leaseRenewalTimers := leaseRenewalTimers - {id};
        losses := losses + multiset{id};
      }
    }

    method StopAfterLoss(id: SessionId)
      modifies this
      ensures View() == LossStep(old(View()), id)
    {
      if id !in losses { return; }
      losses := losses - multiset{id};
      Stop(id);
    }

    /** The lease manager handles a release request. */
    method Release(lease: Lease)
      modifies this
      ensures View() == ReleaseStep(old(View()), lease)
    {
      if lease !in releases { return; }
      releases := releases - multiset{lease};
      if lease.key in held && held[lease.key] == lease.token { held := held - {lease.key}; }
    }
  }
}
