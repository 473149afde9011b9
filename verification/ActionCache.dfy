/**
  The idempotency cache of a session: a write with an action id runs at most once
  while its entry is cached, and retries share the first result.
 */
module ActionCache {
  import opened Wrappers
  import opened StableJson

  const MAX_ENTRIES := 256
  const TTL_MS := 600_000

  type ActionId = string

  /** The part of a call that the fingerprint covers, as one JSON value. */
  type Request = Json

  datatype ErrorCode = UserControlHardStop | InvalidArgument | ActionIdConflict

  /** The SHA-256 digest of the canonical text; hashing is injective. */
  datatype Fingerprint = Sha256(text: string)

  function FingerprintOf(request: Request): Fingerprint { Sha256(Print(request)) }

  /** A cached promise; `result` numbers the operations in the order they were invoked. */
  datatype CacheEntry = CacheEntry(id: ActionId, fingerprint: Fingerprint, expiresAt: int, result: nat)

  /** What the caller gets: an error, the promise of a new operation, or an earlier promise. */
  datatype Outcome = Rejected(code: ErrorCode) | Invoked(result: nat) | Shared(result: nat)

  /** The cache in insertion order, and the number of operations invoked so far. */
  datatype State = State(cache: seq<CacheEntry>, invoked: nat)

  const INITIAL := State([], 0)

  // ---------------------------------------------------------------- specification

  predicate HexDigit(c: char) { '0' <= c <= '9' || 'a' <= c <= 'f' || 'A' <= c <= 'F' }

  predicate ValidActionId(id: ActionId) {
    && |id| == 36
    && (forall i :: 0 <= i < 36 ==> if i in {8, 13, 18, 23} then id[i] == '-' else HexDigit(id[i]))
    && '1' <= id[14] <= '8' && id[19] in {'8', '9', 'a', 'b', 'A', 'B'}
  }

  /** The entries that have not expired at `now`, in order. */
  function Fresh(cache: seq<CacheEntry>, now: int): (r: seq<CacheEntry>)
    ensures |r| <= |cache| && forall e :: e in r <==> e in cache && now < e.expiresAt
  {
    if cache == [] then []
    else
      Fresh(cache[..|cache| - 1], now)
      + if cache[|cache| - 1].expiresAt <= now then [] else [cache[|cache| - 1]]
  }

  function Find(cache: seq<CacheEntry>, id: ActionId): (r: Option<CacheEntry>)
    ensures r.Some? ==> r.value in cache && r.value.id == id
    ensures r.None? ==> forall e :: e in cache ==> e.id != id
  {
    if cache == [] then None
    else if cache[0].id == id then Some(cache[0])
    else Find(cache[1..], id)
  }

  /** The youngest entries that fit. */
  function Bounded(cache: seq<CacheEntry>): seq<CacheEntry> {
    if |cache| > MAX_ENTRIES then cache[|cache| - MAX_ENTRIES..] else cache
  }

  /** A well-formed id, looked up in what has not expired. */
  function Resolved(s: State, id: ActionId, request: Request, now: int): (State, Outcome) {
    var kept := Fresh(s.cache, now);
    var existing := Find(kept, id);
    if existing.Some? then
      (s.(cache := kept),
       if existing.value.fingerprint == FingerprintOf(request) then Shared(existing.value.result)
       else Rejected(ActionIdConflict))
    else
      var entry := CacheEntry(id, FingerprintOf(request), now + TTL_MS, s.invoked);
      (State(Bounded(kept + [entry]), s.invoked + 1), Invoked(s.invoked))
  }

  function Write(s: State, userControlled: bool, id: Option<ActionId>, request: Request, now: int): (State, Outcome) {
    if userControlled then (s, Rejected(UserControlHardStop))
    else if id.None? then (s.(invoked := s.invoked + 1), Invoked(s.invoked))
    else if !ValidActionId(id.value) then (s, Rejected(InvalidArgument))
    else Resolved(s, id.value, request, now)
  }

  // ---------------------------------------------------------------- the session's cache

  class IdempotentWrites {
    var actionCache: seq<CacheEntry>
    var invoked: nat

    ghost function View(): State
      reads this
    {
      State(actionCache, invoked)
    }

    constructor ()
      ensures View() == INITIAL
    {
      actionCache, invoked := [], 0;
    }

    method Prune(now: int)
      modifies this`actionCache
      ensures actionCache == Fresh(old(actionCache), now)
    {
      var kept := [];
      for i := 0 to |actionCache|
        invariant kept == Fresh(actionCache[..i], now) && actionCache == old(actionCache)
      {
        assert actionCache[..i + 1][..i] == actionCache[..i];
        if actionCache[i].expiresAt > now { kept := kept + [actionCache[i]]; }
      }
      assert actionCache[..|actionCache|] == actionCache;
      actionCache := kept;
    }

    method RunIdempotentWrite(userControlled: bool, id: Option<ActionId>, request: Request, now: int)
      returns (outcome: Outcome)
      modifies this
      ensures (View(), outcome) == Write(old(View()), userControlled, id, request, now)
    {
      if userControlled { return Rejected(UserControlHardStop); }
      if id.None? {
        outcome := Invoked(invoked);
        invoked := invoked + 1;
        return;
      }
      if !ValidActionId(id.value) { return Rejected(InvalidArgument); }
      outcome := Resolve(id.value, request, now);
    }

    /** The rest of the call, once its id is known to be well formed. */
    method Resolve(id: ActionId, request: Request, now: int) returns (outcome: Outcome)
      modifies this
      ensures (View(), outcome) == Resolved(old(View()), id, request, now)
    {
      Prune(now);
      var fingerprint := FingerprintOf(request);
      var existing := Find(actionCache, id);
      if existing.Some? {
        if existing.value.fingerprint != fingerprint { return Rejected(ActionIdConflict); }
        return Shared(existing.value.result);
      }
      outcome := Invoked(invoked);
      AddEntry(CacheEntry(id, fingerprint, now + TTL_MS, invoked));
      invoked := invoked + 1;
    }

    method AddEntry(entry: CacheEntry)
      modifies this`actionCache
      ensures actionCache == Bounded(old(actionCache) + [entry])
    {
      actionCache := actionCache + [entry];
      Evict();
    }

    method Evict()
      modifies this`actionCache
      ensures actionCache == Bounded(old(actionCache))
    {
      ghost var dropped := 0;
      while |actionCache| > MAX_ENTRIES
        invariant 0 <= dropped <= |old(actionCache)| && actionCache == old(actionCache)[dropped..]
        invariant |actionCache| >= MAX_ENTRIES || dropped == 0
        decreases |actionCache|
      {
        actionCache := actionCache[1..];
        dropped := dropped + 1;
      }
    }

    method Clear()
      modifies this`actionCache
      ensures View() == old(View()).(cache := [])
    {
      actionCache := [];
    }
  }

  // ---------------------------------------------------------------- runs

  datatype Event =
    | Call(userControlled: bool, id: Option<ActionId>, request: Request, now: int)
    | SessionStopped

  function Step(s: State, e: Event): State {
    match e
    case Call(user, id, request, now) => Write(s, user, id, request, now).0
    case SessionStopped => s.(cache := [])
  }

  function StateAt(es: seq<Event>, n: nat): State
    requires n <= |es|
  {
    if n == 0 then INITIAL else Step(StateAt(es, n - 1), es[n - 1])
  }

  function OutcomeAt(es: seq<Event>, n: nat): Outcome
    requires n < |es| && es[n].Call?
  {
    Write(StateAt(es, n), es[n].userControlled, es[n].id, es[n].request, es[n].now).1
  }

  /** Entries stand in invocation order, one per id. */
  ghost predicate Ordered(cache: seq<CacheEntry>, invoked: nat) {
    && (forall i :: 0 <= i < |cache| ==> cache[i].result < invoked)
    && (forall i, j :: 0 <= i < j < |cache| ==> cache[i].result < cache[j].result && cache[i].id != cache[j].id)
  }

  ghost predicate Inv(s: State) { |s.cache| <= MAX_ENTRIES && Ordered(s.cache, s.invoked) }

  lemma AppendOrdered(cache: seq<CacheEntry>, en: CacheEntry, invoked: nat)
    requires Ordered(cache, en.result) && en.result < invoked && forall e :: e in cache ==> e.id != en.id
    ensures Ordered(cache + [en], invoked)
  {
  }

  lemma {:induction false} FreshOrdered(cache: seq<CacheEntry>, invoked: nat, now: int)
    requires Ordered(cache, invoked)
    ensures Ordered(Fresh(cache, now), invoked)
  {
    if cache != [] {
      var front, last := cache[..|cache| - 1], cache[|cache| - 1];
      assert forall i :: 0 <= i < |front| ==> front[i].result < last.result && front[i].id != last.id;
      assert Ordered(front, last.result);
      FreshOrdered(front, last.result, now);
      assert forall e :: e in Fresh(front, now) ==> e in front;
      AppendOrdered(Fresh(front, now), last, invoked);
    }
  }

  lemma BoundedOrdered(cache: seq<CacheEntry>, invoked: nat)
    requires Ordered(cache, invoked)
    ensures Ordered(Bounded(cache), invoked)
  {
  }

  lemma WriteKeepsInv(s: State, id: ActionId, request: Request, now: int)
    requires Inv(s)
    ensures Inv(Write(s, false, Some(id), request, now).0)
  {
    var kept := Fresh(s.cache, now);
    FreshOrdered(s.cache, s.invoked, now);
    var entry := CacheEntry(id, FingerprintOf(request), now + TTL_MS, s.invoked);
    if Find(kept, id).None? {
      AppendOrdered(kept, entry, s.invoked + 1);
      BoundedOrdered(kept + [entry], s.invoked + 1);
    }
  }

  lemma StepKeepsInv(s: State, e: Event)
    requires Inv(s)
    ensures Inv(Step(s, e))
  {
    if e.Call? && !e.userControlled && e.id.Some? { WriteKeepsInv(s, e.id.value, e.request, e.now); }
  }

  lemma {:induction false} ReachableInv(es: seq<Event>, n: nat)
    requires n <= |es|
    ensures Inv(StateAt(es, n))
  {
    if n > 0 {
      ReachableInv(es, n - 1);
      StepKeepsInv(StateAt(es, n - 1), es[n - 1]);
    }
  }

  // ---------------------------------------------------------------- how an entry can leave

  predicate Expires(en: CacheEntry, e: Event) { e.Call? && en.expiresAt <= e.now }

  /** The number of cached entries younger than `en`. */
  function YoungerCount(cache: seq<CacheEntry>, en: CacheEntry): nat {
    if cache == [] then 0
    else YoungerCount(cache[..|cache| - 1], en) + if cache[|cache| - 1].result > en.result then 1 else 0
  }

  lemma {:induction false} AllYounger(cache: seq<CacheEntry>, en: CacheEntry)
    requires forall i :: 0 <= i < |cache| ==> cache[i].result > en.result
    ensures YoungerCount(cache, en) == |cache|
  {
    if cache != [] { AllYounger(cache[..|cache| - 1], en); }
  }

  /** An entry leaves only by session stop, by expiry, or behind 256 younger ones that are all still cached. */
  lemma EntryLeaves(es: seq<Event>, n: nat, en: CacheEntry)
    requires n < |es| && en in StateAt(es, n).cache && en !in StateAt(es, n + 1).cache
    ensures es[n].SessionStopped? || Expires(en, es[n])
      || YoungerCount(StateAt(es, n + 1).cache, en) == |StateAt(es, n + 1).cache| == MAX_ENTRIES
  {
    ReachableInv(es, n);
    LeavesStep(StateAt(es, n), es[n], en);
  }

  /** In a full ordered cache, only the oldest entry is pushed out, and all others are younger. */
  lemma PushedOut(all: seq<CacheEntry>, invoked: nat, en: CacheEntry)
    requires Ordered(all, invoked) && |all| == MAX_ENTRIES + 1 && en in all && en !in all[1..]
    ensures YoungerCount(all[1..], en) == |all[1..]| == MAX_ENTRIES
  {
    var rest := all[1..];
    assert all == [all[0]] + rest;
    assert en == all[0];
    forall k | 0 <= k < |rest| ensures rest[k].result > en.result { assert rest[k] == all[k + 1]; }
    AllYounger(rest, en);
  }

  lemma LeavesStep(s: State, e: Event, en: CacheEntry)
    requires Inv(s) && en in s.cache && en !in Step(s, e).cache
    ensures e.SessionStopped? || Expires(en, e)
      || YoungerCount(Step(s, e).cache, en) == |Step(s, e).cache| == MAX_ENTRIES
  {
    if e.Call? && !Expires(en, e) {
      var kept := Fresh(s.cache, e.now);
      assert en in kept;
      FreshOrdered(s.cache, s.invoked, e.now);
      var entry := CacheEntry(e.id.value, FingerprintOf(e.request), e.now + TTL_MS, s.invoked);
      AppendOrdered(kept, entry, s.invoked + 1);
      assert en in kept + [entry];
      PushedOut(kept + [entry], s.invoked + 1, en);
    }
  }

  // ---------------------------------------------------------------- at most one invocation, shared results

  /** The entry of the operation that event `i` invoked. */
  ghost predicate Admits(es: seq<Event>, i: nat, en: CacheEntry) {
    && i < |es| && es[i].Call? && es[i].id == Some(en.id) && OutcomeAt(es, i) == Invoked(en.result)
    && en.fingerprint == FingerprintOf(es[i].request) && en.expiresAt == es[i].now + TTL_MS
  }

  /** A step keeps an entry, drops it, or is the one that admits it. */
  lemma AdmitStep(s: State, e: Event, en: CacheEntry)
    requires en in Step(s, e).cache && en !in s.cache
    ensures e.Call? && e.id == Some(en.id) && Write(s, e.userControlled, e.id, e.request, e.now).1 == Invoked(en.result)
    ensures en.fingerprint == FingerprintOf(e.request) && en.expiresAt == e.now + TTL_MS
  {
  }

  lemma {:induction false} CachedWasAdmitted(es: seq<Event>, n: nat, en: CacheEntry)
    requires n <= |es| && en in StateAt(es, n).cache
    ensures exists i: nat :: i < n && Admits(es, i, en)
  {
    if n > 0 {
      if en in StateAt(es, n - 1).cache {
        CachedWasAdmitted(es, n - 1, en);
      } else {
        AdmitStep(StateAt(es, n - 1), es[n - 1], en);
        assert Admits(es, n - 1, en);
      }
    }
  }

  lemma FindIsUnique(s: State, en: CacheEntry, now: int)
    requires Inv(s) && en in s.cache && now < en.expiresAt
    ensures Find(Fresh(s.cache, now), en.id) == Some(en)
  {
    FreshOrdered(s.cache, s.invoked, now);
    var kept := Fresh(s.cache, now);
    assert en in kept;
    var r := Find(kept, en.id);
    var i :| 0 <= i < |kept| && kept[i] == en;
    var k :| 0 <= k < |kept| && kept[k] == r.value;
  }

  /**
    While an entry is cached and unexpired, a call with its id never invokes an operation:
    it shares the first result exactly when its input is the same up to key order.
   */
  lemma RetryIsSharedOrConflicts(es: seq<Event>, i: nat, n: nat, en: CacheEntry)
    requires i < n < |es| && Admits(es, i, en) && en in StateAt(es, n).cache
    requires es[n].Call? && !es[n].userControlled && es[n].id == Some(en.id) && es[n].now < en.expiresAt
    requires Valid(es[i].request) && Valid(es[n].request)
    ensures OutcomeAt(es, n) ==
      if Same(es[i].request, es[n].request) then Shared(en.result) else Rejected(ActionIdConflict)
  {
    ReachableInv(es, n);
    FindIsUnique(StateAt(es, n), en, es[n].now);
    TextIdentifiesInput(es[i].request, es[n].request);
  }

  /** A second invocation of an id means that the first entry had left the cache or had expired by then. */
  lemma SecondInvocationNeedsLeaving(es: seq<Event>, i: nat, n: nat, en: CacheEntry)
    requires i < n < |es| && Admits(es, i, en)
    requires es[n].Call? && es[n].id == Some(en.id) && OutcomeAt(es, n).Invoked?
    ensures en !in StateAt(es, n).cache || Expires(en, es[n])
  {
    ReachableInv(es, n);
    if en in StateAt(es, n).cache && es[n].now < en.expiresAt { FindIsUnique(StateAt(es, n), en, es[n].now); }
  }

  /** Whatever is shared is the result of one earlier call with the same id and the same input. */
  lemma SharedResultHasOneOrigin(es: seq<Event>, n: nat)
    requires n < |es| && es[n].Call? && OutcomeAt(es, n).Shared?
    requires forall k :: 0 <= k < |es| && es[k].Call? ==> Valid(es[k].request)
    ensures exists i: nat ::
      && i < n && es[i].Call? && es[i].id == es[n].id && Same(es[i].request, es[n].request)
      && OutcomeAt(es, i) == Invoked(OutcomeAt(es, n).result)
  {
    var s := StateAt(es, n);
    var kept := Fresh(s.cache, es[n].now);
    var en := Find(kept, es[n].id.value).value;
    assert en in s.cache;
    CachedWasAdmitted(es, n, en);
    var i: nat :| i < n && Admits(es, i, en);
    TextIdentifiesInput(es[i].request, es[n].request);
  }

  /** The cache never holds more than 256 entries. */
  lemma CacheIsBounded(es: seq<Event>, n: nat)
    requires n <= |es|
    ensures |StateAt(es, n).cache| <= MAX_ENTRIES
  {
    ReachableInv(es, n);
  }

  // ---------------------------------------------------------------- exactly when an operation is invoked

  /** An earlier call with this id was admitted, and its entry is still cached and has not expired. */
  ghost predicate StillCached(es: seq<Event>, n: nat, id: ActionId, now: int)
    requires n <= |es|
  {
    exists i: nat, en :: i < n && Admits(es, i, en) && en.id == id && en in StateAt(es, n).cache && now < en.expiresAt
  }

  /** A call that may run its operation: no user controls the session, and its id, if any, is well formed and new. */
  ghost predicate RunsOperation(es: seq<Event>, n: nat)
    requires n < |es|
  {
    && es[n].Call? && !es[n].userControlled
    && (es[n].id.Some? ==> ValidActionId(es[n].id.value) && !StillCached(es, n, es[n].id.value, es[n].now))
  }

  lemma FoundMeansStillCached(es: seq<Event>, n: nat, id: ActionId, now: int)
    requires n <= |es|
    ensures StillCached(es, n, id, now) <==> Find(Fresh(StateAt(es, n).cache, now), id).Some?
  {
    ReachableInv(es, n);
    var s := StateAt(es, n);
    var found := Find(Fresh(s.cache, now), id);
    if found.Some? {
      CachedWasAdmitted(es, n, found.value);
    }
    if StillCached(es, n, id, now) {
      var i: nat, en :| i < n && Admits(es, i, en) && en.id == id && en in s.cache && now < en.expiresAt;
      FindIsUnique(s, en, now);
    }
  }

  /**
    An operation is invoked exactly by the calls that may run one; everything else leaves the
    count, and user control and malformed ids leave the cache as well.
   */
  lemma InvokesExactly(es: seq<Event>, n: nat)
    requires n < |es|
    ensures var s, u := StateAt(es, n), StateAt(es, n + 1);
      && u.invoked == s.invoked + (if RunsOperation(es, n) then 1 else 0)
      && (es[n].Call? ==> (OutcomeAt(es, n) == Invoked(s.invoked) <==> RunsOperation(es, n)))
      && (es[n].Call? && es[n].userControlled ==> OutcomeAt(es, n) == Rejected(UserControlHardStop) && u == s)
      && (es[n].Call? && !es[n].userControlled && es[n].id.Some? && !ValidActionId(es[n].id.value) ==>
            OutcomeAt(es, n) == Rejected(InvalidArgument) && u == s)
  {
    if es[n].Call? && es[n].id.Some? { FoundMeansStillCached(es, n, es[n].id.value, es[n].now); }
    SharedIsOlder(es, n);
  }

  /** What a call shares was invoked before. */
  lemma SharedIsOlder(es: seq<Event>, n: nat)
    requires n < |es|
    ensures es[n].Call? && OutcomeAt(es, n).Shared? ==> OutcomeAt(es, n).result < StateAt(es, n).invoked
  {
    ReachableInv(es, n);
    if es[n].Call? && OutcomeAt(es, n).Shared? {
      var en := Find(Fresh(StateAt(es, n).cache, es[n].now), es[n].id.value).value;
      var i :| 0 <= i < |StateAt(es, n).cache| && StateAt(es, n).cache[i] == en;
    }
  }

  /** An entry is kept for ten minutes, and stands for the input of the call that made it. */
  lemma EntriesLastTenMinutes(es: seq<Event>, i: nat, en: CacheEntry)
    requires Admits(es, i, en)
    ensures en.expiresAt == es[i].now + 10 * 60 * 1000 && en.fingerprint.text == Print(es[i].request)
  {
  }

  predicate HexDigits(s: string) {
    forall c :: c in s ==> c in {'0', '1', '2', '3', '4', '5', '6', '7', '8', '9', 'a', 'b', 'c', 'd', 'e', 'f',
                                 'A', 'B', 'C', 'D', 'E', 'F'}
  }

  /** Five groups of hexadecimal digits; the third begins with the version, the fourth with the variant. */
  predicate IsUuid(id: string) {
    && |id| == 36 && id[8] == id[13] == id[18] == id[23] == '-'
    && HexDigits(id[..8]) && HexDigits(id[9..13]) && HexDigits(id[14..18]) && HexDigits(id[19..23])
    && HexDigits(id[24..36])
    && id[14] in {'1', '2', '3', '4', '5', '6', '7', '8'} && id[19] in {'8', '9', 'a', 'b', 'A', 'B'}
  }

  lemma HexDigitsListed(s: string, lo: nat, hi: nat)
    requires lo <= hi <= |s|
    ensures HexDigits(s[lo..hi]) <==> forall i :: lo <= i < hi ==> HexDigit(s[i])
  {
    if i :| lo <= i < hi && !HexDigit(s[i]) { assert s[lo..hi][i - lo] == s[i] && s[i] in s[lo..hi]; }
    if c :| c in s[lo..hi] && !HexDigit(c) {
      var i :| 0 <= i < hi - lo && s[lo..hi][i] == c;
      assert s[lo + i] == c;
    }
  }

  /** The ids that are well formed are exactly the UUIDs of versions 1 to 8. */
  lemma WellFormedIdsAreUuids(id: string)
    ensures ValidActionId(id) <==> IsUuid(id)
  {
    if |id| == 36 {
      HexDigitsListed(id, 0, 8);
      HexDigitsListed(id, 9, 13);
      HexDigitsListed(id, 14, 18);
      HexDigitsListed(id, 19, 23);
      HexDigitsListed(id, 24, 36);
    }
  }

  /** A call that looks into the cache. */
  predicate LooksUp(e: Event) { e.Call? && !e.userControlled && e.id.Some? && ValidActionId(e.id.value) }

  lemma {:induction false} OneIsNotYounger(cache: seq<CacheEntry>, en: CacheEntry)
    ensures YoungerCount(cache, en) <= |cache| && (en in cache ==> YoungerCount(cache, en) < |cache|)
  {
    if cache != [] { OneIsNotYounger(cache[..|cache| - 1], en); }
  }

  /** What a look-up leaves in the cache. */
  lemma LookUpKeeps(s: State, e: Event, en: CacheEntry)
    requires Inv(s) && LooksUp(e)
    ensures var (u, outcome) := Write(s, false, e.id, e.request, e.now);
      var admitted := CacheEntry(e.id.value, FingerprintOf(e.request), e.now + TTL_MS, s.invoked);
      && |u.cache| <= MAX_ENTRIES
      && (en in u.cache <==>
            || (en == admitted && outcome == Invoked(s.invoked))
            || (en in s.cache && e.now < en.expiresAt && YoungerCount(u.cache, en) < MAX_ENTRIES))
  {
    var (u, outcome) := Write(s, false, e.id, e.request, e.now);
    var admitted := CacheEntry(e.id.value, FingerprintOf(e.request), e.now + TTL_MS, s.invoked);
    var unexpired := Fresh(s.cache, e.now);
    WriteKeepsInv(s, e.id.value, e.request, e.now);
    OneIsNotYounger(u.cache, en);
    if outcome == Invoked(s.invoked) {
      InvokedIsAppended(s, unexpired, admitted, en);
    }
    if en in s.cache && e.now < en.expiresAt && en !in u.cache { LeavesStep(s, e, en); }
  }

  lemma InvokedIsAppended(s: State, unexpired: seq<CacheEntry>, admitted: CacheEntry, en: CacheEntry)
    requires admitted.result == s.invoked
    ensures var cache := Bounded(unexpired + [admitted]);
      admitted in cache && (en in cache ==> en == admitted || en in unexpired)
  {
    var all := unexpired + [admitted];
    assert Bounded(all)[|Bounded(all)| - 1] == all[|all| - 1] == admitted;
  }

  /**
    What the cache holds after an event: nothing after a stop; after a look-up the entry of an
    operation just invoked, and those before it that have not expired and are not behind 256
    younger ones; and all it held after any other call.
   */
  lemma CacheHoldsExactly(es: seq<Event>, n: nat, en: CacheEntry)
    requires n < |es|
    ensures var s, u := StateAt(es, n), StateAt(es, n + 1);
      && (es[n].SessionStopped? ==> u.cache == [])
      && (es[n].Call? && !LooksUp(es[n]) ==> u.cache == s.cache)
      && (LooksUp(es[n]) ==>
            (en in u.cache <==>
               Admits(es, n, en)
               || (en in s.cache && es[n].now < en.expiresAt && YoungerCount(u.cache, en) < MAX_ENTRIES)))
  {
    ReachableInv(es, n);
    SharedIsOlder(es, n);
    if LooksUp(es[n]) {
      LookUpKeeps(StateAt(es, n), es[n], en);
      InvokedNow(es, n, en);
    }
  }

  lemma InvokedNow(es: seq<Event>, n: nat, en: CacheEntry)
    requires n < |es| && LooksUp(es[n])
    ensures var s, e := StateAt(es, n), es[n];
      Admits(es, n, en) <==>
      && en == CacheEntry(e.id.value, FingerprintOf(e.request), e.now + TTL_MS, s.invoked)
      && OutcomeAt(es, n) == Invoked(s.invoked)
  {
  }
}
