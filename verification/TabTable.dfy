/**
  The tab table of a session: tab names, per-tab page revisions, and the session-wide
  `pageGeneration` that write guards compare with.
 */
module TabTable {
  import opened Wrappers

  type TabId = string
  type PageRef = nat

  const MAX_SAFE_INTEGER := 9_007_199_254_740_991

  datatype ErrorCode = InvalidArgument | PageRevisionMismatch

  /**
    `tabs` lists the open tabs in insertion order.  `revision` covers every tab object ever
    made, because page observers keep closed tabs alive.
   */
  datatype State = State(
    tabs: seq<TabId>, pages: map<TabId, PageRef>, revision: map<TabId, nat>,
    active: Option<TabId>, pageGeneration: nat, sequence: nat, open: bool)

  const INITIAL := State([], map[], map[], None, 0, 0, false)

  // ---------------------------------------------------------------- tab names

  function Digit36(n: nat): char
    requires n < 36
  {
    if n < 10 then (n + 48) as char else (n + 87) as char
  }

  /** `Number.prototype.toString(36)`. */
  function ToBase36(n: nat): (r: string)
    ensures r != []
  {
    if n < 36 then [Digit36(n)] else ToBase36(n / 36) + [Digit36(n % 36)]
  }

  function TabName(n: nat): TabId { "tab_" + ToBase36(n) }

  lemma LastDigits(a: string, x: char, b: string, y: char)
    requires a + [x] == b + [y]
    ensures a == b && x == y
  {
    assert (a + [x])[..|a|] == a && (b + [y])[..|b|] == b;
    assert (a + [x])[|a|] == x && (b + [y])[|b|] == y;
  }

  lemma {:induction false} Base36IsInjective(m: nat, n: nat)
    requires ToBase36(m) == ToBase36(n)
    ensures m == n
  {
    if m >= 36 && n >= 36 {
      LastDigits(ToBase36(m / 36), Digit36(m % 36), ToBase36(n / 36), Digit36(n % 36));
      Base36IsInjective(m / 36, n / 36);
    }
  }

  lemma TabNamesDiffer(m: nat, n: nat)
    requires TabName(m) == TabName(n)
    ensures m == n
  {
    assert TabName(m)[4..] == ToBase36(m) && TabName(n)[4..] == ToBase36(n);
    Base36IsInjective(m, n);
  }

  // ---------------------------------------------------------------- steps

  predicate Shows(s: State, page: PageRef) {
    exists id :: id in s.tabs && id in s.pages && s.pages[id] == page
  }

  function Without(tabs: seq<TabId>, id: TabId): (r: seq<TabId>)
    ensures forall x :: x in r <==> x in tabs && x != id
  {
    if tabs == [] then [] else (if tabs[0] == id then [] else [tabs[0]]) + Without(tabs[1..], id)
  }

  /** `registerTab` for a page that no open tab shows. */
  function Registered(s: State, page: PageRef): State {
    var id := TabName(s.sequence + 1);
    s.(tabs := s.tabs + [id], pages := s.pages[id := page], revision := s.revision[id := 0], sequence := s.sequence + 1)
  }

  function RegisterAll(s: State, pages: seq<PageRef>): State {
    if pages == [] then s
    else
      var front := RegisterAll(s, pages[..|pages| - 1]);
      if Shows(front, pages[|pages| - 1]) then front else Registered(front, pages[|pages| - 1])
  }

  function Activated(s: State, id: TabId): State {
    if id in s.revision then s.(active := Some(id), pageGeneration := s.revision[id]) else s
  }

  datatype Event =
    | Register(page: PageRef)                        // a popup or a new page becomes a tab
    | Activate(id: TabId)                            // a tab switch
    | CloseTab(id: TabId)                            // one of several tabs has closed
    | ReplaceLast(id: TabId, replacement: TabId)     // the only tab has closed behind a replacement
    | DropTab(id: TabId)                             // a tab is removed without being active
    | Note(tab: Option<TabId>)                       // a page change: of one tab, or of the active one
    | CloseContext
    | Launch(main: PageRef, others: seq<PageRef>)

  /** The tab a noted change belongs to; none means that only the session-wide counter moves. */
  function Noted(s: State, tab: Option<TabId>): Option<TabId> {
    if tab.Some? then (if tab.value in s.revision then tab else None)
    else if s.active.Some? && s.active.value in s.tabs && s.active.value in s.revision then s.active
    else None
  }

  function Step(s: State, e: Event): State {
    match e
    case Register(page) => if Shows(s, page) then s else Registered(s, page)
    case Activate(id) => if id in s.tabs then Activated(s, id) else s
    case CloseTab(id) =>
      var left := Without(s.tabs, id);
      var u := s.(tabs := left);
      if s.active == Some(id) && left != [] then Activated(u, left[0]) else u
    case ReplaceLast(id, replacement) => Activated(s.(tabs := Without(s.tabs, id)), replacement)
    case DropTab(id) => s.(tabs := Without(s.tabs, id))
    case Note(tab) =>
      if tab.Some? && tab.value !in s.revision then s
      else
        var noted := Noted(s, tab);
        if noted.None? then s.(pageGeneration := s.pageGeneration + 1)
        else
          var r := s.revision[noted.value] + 1;
          s.(revision := s.revision[noted.value := r],
             pageGeneration := if noted == s.active then r else s.pageGeneration)
    case CloseContext => s.(tabs := [], open := false)
    case Launch(main, others) =>
      var first := Registered(s.(tabs := [], active := None, open := true), main);
      RegisterAll(Activated(first, TabName(first.sequence)), others)
  }

  /** An id of bounded length without control characters. */
  predicate LegalId(id: TabId) {
    0 < |id| <= 100 && forall i :: 0 <= i < |id| ==> !(id[i] <= '\U{1f}' || id[i] == '\U{7f}')
  }

  /** `assertExpectedPageRevision`. */
  function Guard(s: State, expected: Option<int>, expectedTab: Option<TabId>): Option<ErrorCode> {
    if expectedTab.Some? && !LegalId(expectedTab.value) then Some(InvalidArgument)
    else if expectedTab.Some? && expectedTab != s.active then Some(PageRevisionMismatch)
    else if expected.None? then None
    else if !(0 <= expected.value <= MAX_SAFE_INTEGER) then Some(InvalidArgument)
    else if expected.value != s.pageGeneration then Some(PageRevisionMismatch)
    else None
  }

  // ---------------------------------------------------------------- the session's tab fields

  class Tabs {
    var tabs: seq<TabId>
    var pages: map<TabId, PageRef>
    var revision: map<TabId, nat>
    var activeTabId: Option<TabId>
    var pageGeneration: nat
    var tabSequence: nat
    var open: bool

    ghost function View(): State
      reads this
    {
      State(tabs, pages, revision, activeTabId, pageGeneration, tabSequence, open)
    }

    constructor ()
      ensures View() == INITIAL
    {
      tabs, pages, revision, activeTabId, pageGeneration, tabSequence, open := [], map[], map[], None, 0, 0, false;
    }

    method RegisterTab(page: PageRef)
      modifies this
      ensures View() == Step(old(View()), Register(page))
    {
      for i := 0 to |tabs|
        invariant View() == old(View())
        invariant forall j :: 0 <= j < i ==> !(tabs[j] in pages && pages[tabs[j]] == page)
      {
        if tabs[i] in pages && pages[tabs[i]] == page { return; }
      }
      tabSequence := tabSequence + 1;
      var id := TabName(tabSequence);
      pages, revision, tabs := pages[id := page], revision[id := 0], tabs + [id];
    }

    method ActivateTab(id: TabId)
      modifies this`activeTabId, this`pageGeneration
      ensures View() == Activated(old(View()), id)
    {
      if id in revision { activeTabId, pageGeneration := Some(id), revision[id]; }
    }

    /** The rest of `closeTab` when several tabs were open; it throws if none remains to be activated. */
    method FinishClose(id: TabId) returns (ok: bool)
      modifies this
      ensures View() == Step(old(View()), Event.CloseTab(id))
      ensures ok <==> old(activeTabId) != Some(id) || Without(old(tabs), id) != []
    {
      tabs := Without(tabs, id);
      if activeTabId != Some(id) { return true; }
      if tabs == [] { return false; }
      ActivateTab(tabs[0]);
      return true;
    }

    method FinishReplace(id: TabId, replacement: TabId)
      modifies this
      ensures View() == Step(old(View()), ReplaceLast(id, replacement))
    {
      tabs := Without(tabs, id);
      ActivateTab(replacement);
    }

    method NotePageGeneration(tab: Option<TabId>)
      requires tab.Some? ==> tab.value in revision
      modifies this
      ensures View() == Step(old(View()), Note(tab))
    {
      var target := tab;
      if target.None? && activeTabId.Some? && activeTabId.value in tabs && activeTabId.value in revision {
        target := activeTabId;
      }
      if target.None? {
        pageGeneration := pageGeneration + 1;
        return;
      }
      revision := revision[target.value := revision[target.value] + 1];
      if target == activeTabId { pageGeneration := revision[target.value]; }
    }

    method LaunchContext(main: PageRef, others: seq<PageRef>)
      modifies this
      ensures View() == Step(old(View()), Launch(main, others))
    {
      tabs, activeTabId, open := [], None, true;
      RegisterTab(main);
      ActivateTab(TabName(tabSequence));
      ghost var start := View();
      for i := 0 to |others|
        invariant View() == RegisterAll(start, others[..i])
      {
        assert others[..i + 1][..i] == others[..i];
        RegisterTab(others[i]);
      }
      assert others[..|others|] == others;
    }
  }

  // ---------------------------------------------------------------- runs

  function StateAt(es: seq<Event>, n: nat): State
    requires n <= |es|
  {
    if n == 0 then INITIAL else Step(StateAt(es, n - 1), es[n - 1])
  }

  /** One event of a run with the states around it. */
  datatype Entry = Entry(event: Event, before: State, after: State)

  function Trace(es: seq<Event>): (tr: seq<Entry>)
    ensures |tr| == |es|
  {
    seq(|es|, i requires 0 <= i < |es| => Entry(es[i], StateAt(es, i), StateAt(es, i + 1)))
  }

  /** `id` is among the first `n` names the counter gave out. */
  ghost predicate Issued(id: TabId, n: nat) { exists k :: 1 <= k <= n && id == TabName(k) }

  /** Tab names come from the counter, and the tables cover all tabs. */
  ghost predicate Inv(s: State) {
    && (forall id :: id in s.revision ==> Issued(id, s.sequence))
    && (forall id :: id in s.tabs ==> id in s.revision && id in s.pages)
    && (s.active.Some? ==> s.active.value in s.revision)
  }

  lemma NextNameIsNew(s: State)
    requires Inv(s)
    ensures TabName(s.sequence + 1) !in s.revision
  {
    if TabName(s.sequence + 1) in s.revision {
      assert Issued(TabName(s.sequence + 1), s.sequence);
      var k :| 1 <= k <= s.sequence && TabName(s.sequence + 1) == TabName(k);
      TabNamesDiffer(s.sequence + 1, k);
    }
  }

  lemma RegisteredKeepsInv(s: State, page: PageRef)
    requires Inv(s)
    ensures Inv(Registered(s, page)) && TabName(s.sequence + 1) !in s.revision
  {
    NextNameIsNew(s);
    var u := Registered(s, page);
    forall id | id in u.revision ensures Issued(id, u.sequence) {
      if id in s.revision {
        assert Issued(id, s.sequence);
        var k :| 1 <= k <= s.sequence && id == TabName(k);
        assert 1 <= k <= u.sequence;
      }
    }
  }

  /** A later state keeps every tab and its revision. */
  ghost predicate Extends(s: State, u: State) {
    && u.active == s.active && u.pageGeneration == s.pageGeneration && u.open == s.open && s.sequence <= u.sequence
    && (forall id :: id in s.revision ==> id in u.revision && u.revision[id] == s.revision[id])
    && (forall id :: id in s.tabs ==> id in u.tabs)
  }

  lemma RegisteredExtends(s: State, page: PageRef)
    requires Inv(s)
    ensures Extends(s, Registered(s, page))
  {
    NextNameIsNew(s);
  }

  lemma {:induction false} RegisterAllExtends(s: State, pages: seq<PageRef>)
    requires Inv(s)
    ensures Inv(RegisterAll(s, pages)) && Extends(s, RegisterAll(s, pages))
  {
    if pages != [] {
      var front := RegisterAll(s, pages[..|pages| - 1]);
      RegisterAllExtends(s, pages[..|pages| - 1]);
      RegisteredKeepsInv(front, pages[|pages| - 1]);
      RegisteredExtends(front, pages[|pages| - 1]);
    }
  }

  /** Does the event count as a page change of tab `id`? */
  predicate Notes(en: Entry, id: TabId) { en.event.Note? && Noted(en.before, en.event.tab) == Some(id) }

  /** An event that only moves the session-wide counter, because the active tab is no longer open. */
  predicate Drifts(en: Entry) { en.event.Note? && en.event.tab.None? && Noted(en.before, None).None? }

  /** An event that sets `pageGeneration` from a tab. */
  predicate Syncs(en: Entry) {
    match en.event
    case Activate(id) => id in en.before.tabs
    case CloseTab(id) => en.before.active == Some(id) && Without(en.before.tabs, id) != []
    case ReplaceLast(_, replacement) => replacement in en.before.revision
    case Launch(_, _) => true
    case Note(_) => en.before.active.Some? && Notes(en, en.before.active.value)
    case _ => false
  }

  /** What one event does to the session-wide counter. */
  ghost predicate CounterFacts(en: Entry) {
    var s, u := en.before, en.after;
    if Syncs(en) then
      u.active.Some? && u.active.value in u.revision && u.pageGeneration == u.revision[u.active.value]
    else
      && u.active == s.active && u.pageGeneration == s.pageGeneration + (if Drifts(en) then 1 else 0)
      && (s.active.Some? ==> s.active.value in s.revision && s.active.value in u.revision
                             && u.revision[s.active.value] == s.revision[s.active.value])
  }

  /** What one event does to the revision of one tab. */
  ghost predicate RevisionFacts(en: Entry, id: TabId) {
    id in en.before.revision ==>
      id in en.after.revision
      && en.after.revision[id] == en.before.revision[id] + if Notes(en, id) then 1 else 0
  }

  /** The context just after its main page became the active tab. */
  function MainOnly(s: State, main: PageRef): State {
    var first := Registered(s.(tabs := [], active := None, open := true), main);
    Activated(first, TabName(first.sequence))
  }

  lemma MainOnlyFacts(s: State, main: PageRef)
    requires Inv(s)
    ensures var u := MainOnly(s, main);
      && Inv(u) && ActiveIsOpen(u) && u.active.Some? && u.pageGeneration == u.revision[u.active.value]
      && forall id :: id in s.revision ==> id in u.revision && u.revision[id] == s.revision[id]
  {
    var cleared := s.(tabs := [], active := None, open := true);
    RegisteredKeepsInv(cleared, main);
    var first := Registered(cleared, main);
    assert TabName(first.sequence) in first.tabs;
  }

  lemma LaunchFacts(s: State, main: PageRef, others: seq<PageRef>)
    requires Inv(s)
    ensures var en := Entry(Launch(main, others), s, Step(s, Launch(main, others)));
      Inv(en.after) && CounterFacts(en) && (forall id :: RevisionFacts(en, id)) && ActiveIsOpen(en.after)
  {
    MainOnlyFacts(s, main);
    RegisterAllExtends(MainOnly(s, main), others);
    assert Step(s, Launch(main, others)) == RegisterAll(MainOnly(s, main), others);
  }

  lemma StepKeepsInv(s: State, e: Event)
    requires Inv(s)
    ensures Inv(Step(s, e))
  {
    match e
    case Register(page) => if !Shows(s, page) { RegisteredKeepsInv(s, page); }
    case Launch(main, others) => LaunchFacts(s, main, others);
    case CloseTab(id) => var left := Without(s.tabs, id); assert left != [] ==> left[0] in left;
    case _ => OtherStepsKeepInv(s, e);
  }

  lemma OtherStepsKeepInv(s: State, e: Event)
    requires Inv(s) && !e.Register? && !e.Launch? && !e.CloseTab?
    ensures Inv(Step(s, e))
  {
    assert Step(s, e).sequence == s.sequence && Step(s, e).revision.Keys == s.revision.Keys;
  }

  lemma StepCounterFacts(s: State, e: Event)
    requires Inv(s)
    ensures CounterFacts(Entry(e, s, Step(s, e)))
  {
    match e
    case Register(page) => NextNameIsNew(s);
    case Launch(main, others) => LaunchFacts(s, main, others);
    case CloseTab(id) => var left := Without(s.tabs, id); assert left != [] ==> left[0] in left;
    case _ =>
  }

  lemma StepRevisionFacts(s: State, e: Event, id: TabId)
    requires Inv(s)
    ensures RevisionFacts(Entry(e, s, Step(s, e)), id)
  {
    match e
    case Register(page) => NextNameIsNew(s);
    case Launch(main, others) => LaunchFacts(s, main, others);
    case _ =>
  }

  lemma {:induction false} ReachableInv(es: seq<Event>, n: nat)
    requires n <= |es|
    ensures Inv(StateAt(es, n))
  {
    if n > 0 {
      ReachableInv(es, n - 1);
      StepKeepsInv(StateAt(es, n - 1), es[n - 1]);
    }
  }

  ghost predicate Chained(tr: seq<Entry>) {
    && (tr != [] ==> tr[0].before == INITIAL)
    && (forall i :: 0 < i < |tr| ==> tr[i].before == tr[i - 1].after)
    && (forall i :: 0 <= i < |tr| ==> CounterFacts(tr[i]))
  }

  lemma TraceIsChained(es: seq<Event>, id: TabId)
    ensures Chained(Trace(es)) && forall i :: 0 <= i < |es| ==> RevisionFacts(Trace(es)[i], id)
  {
    forall i | 0 <= i < |es| ensures CounterFacts(Trace(es)[i]) && RevisionFacts(Trace(es)[i], id) {
      ReachableInv(es, i);
      var s, e := StateAt(es, i), es[i];
      StepCounterFacts(s, e);
      StepRevisionFacts(s, e, id);
      assert Trace(es)[i] == Entry(e, s, Step(s, e));
    }
  }

  function CountNotes(tr: seq<Entry>, i: nat, n: nat, id: TabId): nat
    requires i <= n <= |tr|
    decreases n
  {
    if i == n then 0 else CountNotes(tr, i, n - 1, id) + if Notes(tr[n - 1], id) then 1 else 0
  }

  lemma {:induction false} RevisionCounts(tr: seq<Entry>, i: nat, n: nat, id: TabId)
    requires Chained(tr) && i <= n < |tr| && id in tr[i].before.revision
    requires forall k :: 0 <= k < |tr| ==> RevisionFacts(tr[k], id)
    ensures id in tr[n].before.revision
    ensures tr[n].before.revision[id] == tr[i].before.revision[id] + CountNotes(tr, i, n, id)
    decreases n
  {
    if i < n {
      RevisionCounts(tr, i, n - 1, id);
      assert RevisionFacts(tr[n - 1], id);
    }
  }

  /** A tab's revision never falls and rises by one with every page change noted for it. */
  lemma RevisionCountsPageChanges(es: seq<Event>, i: nat, n: nat, id: TabId)
    requires i <= n < |es| && id in Trace(es)[i].before.revision
    ensures var tr := Trace(es);
      id in tr[n].before.revision
      && tr[n].before.revision[id] == tr[i].before.revision[id] + CountNotes(tr, i, n, id)
  {
    TraceIsChained(es, id);
    RevisionCounts(Trace(es), i, n, id);
  }

  lemma {:induction false} RegisteredTabsAreNew(s: State, pages: seq<PageRef>, id: TabId)
    requires Inv(s) && id in RegisterAll(s, pages).tabs && id !in s.tabs
    ensures id !in s.revision
  {
    if pages != [] {
      var front := RegisterAll(s, pages[..|pages| - 1]);
      RegisterAllExtends(s, pages[..|pages| - 1]);
      if id in front.tabs {
        RegisteredTabsAreNew(s, pages[..|pages| - 1], id);
      } else {
        NextNameIsNew(front);
      }
    }
  }

  lemma LaunchedTabsAreNew(s: State, main: PageRef, others: seq<PageRef>, id: TabId)
    requires Inv(s) && id in Step(s, Launch(main, others)).tabs
    ensures id !in s.revision
  {
    var first := MainOnly(s, main);
    MainOnlyFacts(s, main);
    NextNameIsNew(s.(tabs := [], active := None, open := true));
    assert Step(s, Launch(main, others)) == RegisterAll(first, others);
    if id !in first.tabs { RegisteredTabsAreNew(first, others, id); }
  }

  /** A tab that an event creates: it was not open before, or the event starts a new context. */
  predicate Creates(en: Entry, id: TabId) {
    id in en.after.tabs && (id !in en.before.tabs || en.event.Launch?)
  }

  lemma CreatedTabsAreNew(s: State, e: Event, id: TabId)
    requires Inv(s) && Creates(Entry(e, s, Step(s, e)), id)
    ensures id !in s.revision
  {
    match e
    case Register(page) => NextNameIsNew(s);
    case Launch(main, others) => LaunchedTabsAreNew(s, main, others, id);
    case _ =>
  }

  /**
    Whatever event creates a tab, its id was never that of a tab before, open or closed, in this
    context or an earlier one.
   */
  lemma TabIdsAreNeverReused(es: seq<Event>, i: nat, n: nat, id: TabId)
    requires i <= n < |es| && Creates(Trace(es)[n], id)
    ensures id !in Trace(es)[i].before.revision && id !in Trace(es)[i].before.tabs
  {
    var tr := Trace(es);
    ReachableInv(es, n);
    ReachableInv(es, i);
    CreatedTabsAreNew(StateAt(es, n), es[n], id);
    if id in tr[i].before.revision { RevisionCountsPageChanges(es, i, n, id); }
  }

  /** Page changes counted on the session only, since `pageGeneration` was last set from a tab. */
  function Drift(tr: seq<Entry>, n: nat): nat
    requires n <= |tr|
  {
    if n == 0 || Syncs(tr[n - 1]) then 0 else Drift(tr, n - 1) + if Drifts(tr[n - 1]) then 1 else 0
  }

  lemma {:induction false} GenerationIsRevisionPlusDrift(tr: seq<Entry>, n: nat)
    requires Chained(tr) && n < |tr| && tr[n].before.active.Some?
    ensures var s := tr[n].before;
      s.active.value in s.revision && s.pageGeneration == s.revision[s.active.value] + Drift(tr, n)
  {
    if n > 0 {
      assert CounterFacts(tr[n - 1]);
      assert tr[n].before == tr[n - 1].after;
      if !Syncs(tr[n - 1]) { GenerationIsRevisionPlusDrift(tr, n - 1); }
    }
  }

  /** `pageGeneration` mirrors the active tab exactly when nothing was counted on the session alone. */
  lemma GenerationMirrorsActiveTab(es: seq<Event>, n: nat)
    requires n < |es| && Trace(es)[n].before.active.Some?
    ensures var s := Trace(es)[n].before;
      s.active.value in s.revision
      && (s.pageGeneration == s.revision[s.active.value] <==> Drift(Trace(es), n) == 0)
  {
    TraceIsChained(es, Trace(es)[n].before.active.value);
    GenerationIsRevisionPlusDrift(Trace(es), n);
  }

  /**
    A guard with the id and the revision listed for any tab at any moment, active then or not,
    passes later exactly while that tab is active, no change of it has been counted since the
    listing, and nothing is counted on the session alone.
   */
  lemma GuardPassesOnlyUnchanged(es: seq<Event>, i: nat, n: nat, id: TabId)
    requires i <= n < |es| && id in Trace(es)[i].before.revision
    ensures var tr := Trace(es);
      var r := tr[i].before.revision[id];
      Guard(tr[n].before, Some(r), Some(id)).None?
      <==> LegalId(id) && r <= MAX_SAFE_INTEGER
           && tr[n].before.active == Some(id) && CountNotes(tr, i, n, id) == 0 && Drift(tr, n) == 0
  {
    TraceIsChained(es, id);
    var tr := Trace(es);
    RevisionCounts(tr, i, n, id);
    if tr[n].before.active == Some(id) { GenerationIsRevisionPlusDrift(tr, n); }
  }

  /**
    A guard that passed once, so with a number taken from `pageGeneration`, passes again exactly
    while that tab is active and the changes of the tab since then and the present drift add up
    to the drift of then.
   */
  lemma PassedGuardPassesAgain(es: seq<Event>, i: nat, n: nat, id: TabId, r: int)
    requires i <= n < |es| && Guard(Trace(es)[i].before, Some(r), Some(id)).None?
    ensures var tr := Trace(es);
      Guard(tr[n].before, Some(r), Some(id)).None?
      <==> tr[n].before.active == Some(id) && CountNotes(tr, i, n, id) + Drift(tr, n) == Drift(tr, i)
  {
    TraceIsChained(es, id);
    var tr := Trace(es);
    GenerationIsRevisionPlusDrift(tr, i);
    RevisionCounts(tr, i, n, id);
    if tr[n].before.active == Some(id) { GenerationIsRevisionPlusDrift(tr, n); }
  }

  // ---------------------------------------------------------------- while the context is open

  /**
    While the context is open, the active tab's revision is `pageGeneration` exactly when
    nothing was counted on the session alone.
   */
  lemma OpenContextMirrorsUnlessDrifted(es: seq<Event>, n: nat)
    requires n < |es| && Trace(es)[n].before.open
    ensures var s := Trace(es)[n].before;
      && s.active.Some? && s.active.value in s.revision
      && (s.pageGeneration == s.revision[s.active.value] <==> Drift(Trace(es), n) == 0)
  {
    OpenHasActive(es, n);
    GenerationMirrorsActiveTab(es, n);
  }

  lemma StepKeepsAnActiveTab(s: State, e: Event)
    requires Inv(s) && (s.open ==> s.active.Some?)
    ensures Step(s, e).open ==> Step(s, e).active.Some?
  {
    if e.Launch? { LaunchFacts(s, e.main, e.others); }
  }

  lemma {:induction false} OpenHasActive(es: seq<Event>, n: nat)
    requires n <= |es|
    ensures StateAt(es, n).open ==> StateAt(es, n).active.Some?
  {
    if n > 0 {
      OpenHasActive(es, n - 1);
      ReachableInv(es, n - 1);
      StepKeepsAnActiveTab(StateAt(es, n - 1), es[n - 1]);
    }
  }

  /**
    A session in which `closeTab`, having opened a replacement for its only tab, continues after
    the context was closed and launched again: the new context's active tab is then one that is
    not open, and the next page change counts on the session alone.  At the end that tab's page
    reports a change of its own.
   */
  const RELAUNCHED: seq<Event> := [
    Launch(1, []), Register(2), CloseContext, Launch(3, []), ReplaceLast(TabName(1), TabName(2)), Note(None),
    Note(Some(TabName(2)))]

  lemma RelaunchedNames()
    ensures TabName(1) == "tab_1" && TabName(2) == "tab_2" && TabName(3) == "tab_3"
  {
    assert ToBase36(1) == "1" && ToBase36(2) == "2" && ToBase36(3) == "3";
  }

  lemma RelaunchedContext()
    ensures var s := StateAt(RELAUNCHED, 4);
      && s.tabs == ["tab_3"] && s.open && s.sequence == 3 && "tab_2" in s.revision && s.revision["tab_2"] == 0
  {
    var es := RELAUNCHED;
    RelaunchedNames();
    var s1 := StateAt(es, 1);
    assert s1 == Step(INITIAL, Launch(1, []));
    assert s1.tabs == ["tab_1"] && s1.active == Some("tab_1") && s1.sequence == 1 && s1.revision == map["tab_1" := 0];
    var s2 := StateAt(es, 2);
    assert s2 == Step(s1, Register(2)) && !Shows(s1, 2);
    assert s2.tabs == ["tab_1", "tab_2"] && s2.sequence == 2;
    var s3 := StateAt(es, 3);
    assert s3 == Step(s2, CloseContext);
    assert StateAt(es, 4) == Step(s3, Launch(3, []));
  }

  lemma LateCloseContinuationDrifts()
    ensures var s := StateAt(RELAUNCHED, 6);
      && s.open && s.active == Some(TabName(2)) && TabName(2) !in s.tabs
      && TabName(2) in s.revision && s.revision[TabName(2)] == 0 && s.pageGeneration == 1
  {
    var es := RELAUNCHED;
    RelaunchedNames();
    RelaunchedContext();
    var s5 := StateAt(es, 5);
    assert s5 == Step(StateAt(es, 4), ReplaceLast("tab_1", "tab_2"));
    assert s5.tabs == ["tab_3"] && s5.active == Some("tab_2") && s5.pageGeneration == 0;
    assert StateAt(es, 6) == Step(s5, Note(None));
  }

  /** A guard taken after the drift passes before and after the tab's own change: the change makes up for the drift. */
  lemma DriftedGuardMissesAChange()
    ensures var s, u := StateAt(RELAUNCHED, 6), StateAt(RELAUNCHED, 7);
      && Guard(s, Some(1), Some(TabName(2))).None? && Guard(u, Some(1), Some(TabName(2))).None?
      && TabName(2) in s.revision && TabName(2) in u.revision
      && s.revision[TabName(2)] == 0 && u.revision[TabName(2)] == 1
  {
    LateCloseContinuationDrifts();
    RelaunchedNames();
    assert StateAt(RELAUNCHED, 7) == Step(StateAt(RELAUNCHED, 6), Note(Some(TabName(2))));
  }

  /** No leftover of an earlier context finishes in this one: only open tabs are activated or kept active. */
  ghost predicate Disciplined(en: Entry) {
    en.before.open ==>
      match en.event
      case CloseTab(id) => en.before.active == Some(id) ==> Without(en.before.tabs, id) != []
      case ReplaceLast(id, replacement) => replacement in Without(en.before.tabs, id)
      case DropTab(id) => en.before.active != Some(id)
      case _ => true
  }

  ghost predicate ActiveIsOpen(s: State) { s.open ==> s.active.Some? && s.active.value in s.tabs }

  lemma StepKeepsActiveOpen(s: State, e: Event)
    requires Inv(s) && ActiveIsOpen(s) && Disciplined(Entry(e, s, Step(s, e)))
    ensures ActiveIsOpen(Step(s, e))
    ensures s.open ==> !Drifts(Entry(e, s, Step(s, e)))
    ensures !s.open && Step(s, e).open ==> e.Launch?
  {
    match e
    case Launch(main, others) => LaunchFacts(s, main, others);
    case CloseTab(id) => var left := Without(s.tabs, id); assert left != [] ==> left[0] in left;
    case Register(page) => NextNameIsNew(s);
    case _ =>
  }

  ghost predicate MirrorFacts(en: Entry) {
    && (ActiveIsOpen(en.before) && Disciplined(en) ==> ActiveIsOpen(en.after) && (en.before.open ==> !Drifts(en)))
    && (ActiveIsOpen(en.before) && Disciplined(en) && !en.before.open && en.after.open ==> Syncs(en))
  }

  lemma StepMirrorFacts(s: State, e: Event)
    requires Inv(s)
    ensures MirrorFacts(Entry(e, s, Step(s, e)))
  {
    if ActiveIsOpen(s) && Disciplined(Entry(e, s, Step(s, e))) { StepKeepsActiveOpen(s, e); }
  }

  lemma {:induction false} OpenMirrors(tr: seq<Entry>, n: nat)
    requires Chained(tr) && n < |tr| && forall i :: 0 <= i < n ==> Disciplined(tr[i]) && MirrorFacts(tr[i])
    ensures ActiveIsOpen(tr[n].before) && (tr[n].before.open ==> Drift(tr, n) == 0)
  {
    if n > 0 {
      OpenMirrors(tr, n - 1);
      assert MirrorFacts(tr[n - 1]) && Disciplined(tr[n - 1]);
      assert tr[n].before == tr[n - 1].after;
    }
  }

  lemma TraceHasMirrorFacts(es: seq<Event>)
    ensures forall i :: 0 <= i < |es| ==> MirrorFacts(Trace(es)[i])
  {
    forall i | 0 <= i < |es| ensures MirrorFacts(Trace(es)[i]) {
      ReachableInv(es, i);
      var s, e := StateAt(es, i), es[i];
      assert Trace(es)[i] == Entry(e, s, Step(s, e));
      StepMirrorFacts(s, e);
    }
  }

  /** While the context is open, the active tab is open and `pageGeneration` is its revision. */
  lemma OpenContextMirrors(es: seq<Event>, n: nat)
    requires n < |es| && forall i :: 0 <= i < n ==> Disciplined(Trace(es)[i])
    requires Trace(es)[n].before.open
    ensures var s := Trace(es)[n].before;
      && s.active.Some? && s.active.value in s.tabs && s.active.value in s.revision
      && s.pageGeneration == s.revision[s.active.value]
  {
    TraceHasMirrorFacts(es);
    TraceIsChained(es, "");
    OpenMirrors(Trace(es), n);
    OpenContextMirrorsUnlessDrifted(es, n);
  }
}
