/**
  Which events open, close and activate which tabs, what counts as a page change, and what the
  write guard answers.
 */
module TabTableEffects {
  import opened Wrappers
  import opened TabTable

  // ---------------------------------------------------------------- tabs in the order they were opened

  /** The first tab got its name before the second. */
  ghost predicate Older(a: TabId, b: TabId) { exists m, n :: 1 <= m < n && a == TabName(m) && b == TabName(n) }

  /** The open tabs stand in the order they were opened, and no two of them show one page. */
  ghost predicate InOrder(s: State) {
    && (forall i, j :: 0 <= i < j < |s.tabs| ==> Older(s.tabs[i], s.tabs[j]))
    && (forall i, j :: 0 <= i < j < |s.tabs| && s.tabs[i] in s.pages && s.tabs[j] in s.pages ==>
          s.pages[s.tabs[i]] != s.pages[s.tabs[j]])
  }

  lemma {:induction false} WithoutKeepsPlaces(tabs: seq<TabId>, id: TabId, i: nat, j: nat)
    requires i < j < |Without(tabs, id)|
    ensures var r := Without(tabs, id); exists p, q :: 0 <= p < q < |tabs| && tabs[p] == r[i] && tabs[q] == r[j]
  {
    var r, rest := Without(tabs, id), Without(tabs[1..], id);
    if tabs[0] == id {
      assert r == rest;
      WithoutKeepsPlaces(tabs[1..], id, i, j);
      var p, q :| 0 <= p < q < |tabs[1..]| && tabs[1..][p] == r[i] && tabs[1..][q] == r[j];
      assert tabs[p + 1] == r[i] && tabs[q + 1] == r[j];
    } else if i == 0 {
      assert r[j] == rest[j - 1] && rest[j - 1] in tabs[1..];
      var q :| 0 <= q < |tabs[1..]| && tabs[1..][q] == r[j];
      assert tabs[0] == r[0] && tabs[q + 1] == r[j];
    } else {
      assert r[i] == rest[i - 1] && r[j] == rest[j - 1];
      WithoutKeepsPlaces(tabs[1..], id, i - 1, j - 1);
      var p, q :| 0 <= p < q < |tabs[1..]| && tabs[1..][p] == r[i] && tabs[1..][q] == r[j];
      assert tabs[p + 1] == r[i] && tabs[q + 1] == r[j];
    }
  }

  lemma RegisteredKeepsOrder(s: State, page: PageRef)
    requires Inv(s) && InOrder(s) && !Shows(s, page)
    ensures InOrder(Registered(s, page))
  {
    NextNameIsNew(s);
    var u := Registered(s, page);
    forall i, j | 0 <= i < j < |u.tabs| ensures Older(u.tabs[i], u.tabs[j]) {
      if j < |s.tabs| {
        assert Older(s.tabs[i], s.tabs[j]);
      } else {
        assert s.tabs[i] in s.revision && Issued(s.tabs[i], s.sequence);
        var m :| 1 <= m <= s.sequence && s.tabs[i] == TabName(m);
        var n := s.sequence + 1;
        assert 1 <= m < n && u.tabs[j] == TabName(n);
      }
    }
  }

  lemma {:induction false} RegisterAllKeepsOrder(s: State, pages: seq<PageRef>)
    requires Inv(s) && InOrder(s)
    ensures InOrder(RegisterAll(s, pages))
  {
    if pages != [] {
      RegisterAllKeepsOrder(s, pages[..|pages| - 1]);
      RegisterAllExtends(s, pages[..|pages| - 1]);
      var front := RegisterAll(s, pages[..|pages| - 1]);
      if !Shows(front, pages[|pages| - 1]) { RegisteredKeepsOrder(front, pages[|pages| - 1]); }
    }
  }

  lemma LaunchKeepsOrder(s: State, main: PageRef, others: seq<PageRef>)
    requires Inv(s)
    ensures InOrder(Step(s, Launch(main, others)))
  {
    var cleared := s.(tabs := [], active := None, open := true);
    RegisteredKeepsOrder(cleared, main);
    MainOnlyFacts(s, main);
    assert InOrder(MainOnly(s, main));
    RegisterAllKeepsOrder(MainOnly(s, main), others);
  }

  lemma StepKeepsOrder(s: State, e: Event)
    requires Inv(s) && InOrder(s)
    ensures InOrder(Step(s, e))
  {
    match e
    case Register(page) => if !Shows(s, page) { RegisteredKeepsOrder(s, page); }
    case Launch(main, others) => LaunchKeepsOrder(s, main, others);
    case CloseTab(id) => ClosingKeepsOrder(s, id);
    case ReplaceLast(id, _) => ClosingKeepsOrder(s, id);
    case DropTab(id) => ClosingKeepsOrder(s, id);
    case _ =>
  }

  lemma ClosingKeepsOrder(s: State, id: TabId)
    requires InOrder(s)
    ensures InOrder(s.(tabs := Without(s.tabs, id)))
  {
    var r := Without(s.tabs, id);
    forall i, j | 0 <= i < j < |r|
      ensures Older(r[i], r[j]) && (r[i] in s.pages && r[j] in s.pages ==> s.pages[r[i]] != s.pages[r[j]])
    {
      WithoutKeepsPlaces(s.tabs, id, i, j);
    }
  }

  /** In every run the tabs are listed as they were opened, each with a page of its own. */
  lemma {:induction false} TabsAreInOrder(es: seq<Event>, n: nat)
    requires n <= |es|
    ensures InOrder(StateAt(es, n))
  {
    if n > 0 {
      TabsAreInOrder(es, n - 1);
      NextIsInOrder(es, n - 1);
    }
  }

  lemma NextIsInOrder(es: seq<Event>, n: nat)
    requires n < |es| && InOrder(StateAt(es, n))
    ensures InOrder(StateAt(es, n + 1))
  {
    var s, e := StateAt(es, n), es[n];
    ReachableInv(es, n);
    StepKeepsOrder(s, e);
    assert StateAt(es, n + 1) == Step(s, e);
  }

  // ---------------------------------------------------------------- opening, closing, activating

  /** An event that takes the tab off the list. */
  predicate Closes(e: Event, id: TabId) {
    e == CloseTab(id) || (e.ReplaceLast? && e.id == id) || e == DropTab(id) || e.CloseContext? || e.Launch?
  }

  /** A new page gets one new tab, with the next name, revision zero, at the end of the list. */
  ghost predicate OpensTabFor(s: State, u: State, page: PageRef) {
    var id := TabName(s.sequence + 1);
    && u.tabs == s.tabs + [id] && u.sequence == s.sequence + 1
    && id in u.pages && u.pages[id] == page && id in u.revision && u.revision[id] == 0
    && (forall other :: other in s.pages && other != id ==> other in u.pages && u.pages[other] == s.pages[other])
  }

  /** The open tab that was opened before all the others. */
  ghost predicate IsOldest(s: State, id: TabId) {
    id in s.tabs && forall other :: other in s.tabs && other != id ==> Older(id, other)
  }

  ghost predicate TabMoves(en: Entry) {
    var e, s, u := en.event, en.before, en.after;
    && (forall id :: id in u.tabs <==> Creates(en, id) || (id in s.tabs && !Closes(e, id)))
    && (e.Register? ==> if Shows(s, e.page) then u == s else OpensTabFor(s, u, e.page))
    && (!e.Register? && !e.Launch? ==> u.sequence == s.sequence && u.pages == s.pages)
    && u.open == (e.Launch? || (s.open && !e.CloseContext?))
  }

  /** Which tab is active after an event, and that `pageGeneration` is its revision when that is news. */
  ghost predicate ActiveMoves(en: Entry) {
    var e, s, u := en.event, en.before, en.after;
    match e
    case Activate(id) => u.active == if id in s.tabs then Some(id) else s.active
    case ReplaceLast(_, replacement) => u.active == if replacement in s.revision then Some(replacement) else s.active
    case CloseTab(id) =>
      if s.active == Some(id) && u.tabs != [] then u.active.Some? && IsOldest(u, u.active.value)
      else u.active == s.active
    case Launch(main, _) =>
      u.active.Some? && IsOldest(u, u.active.value) && u.active.value in u.pages && u.pages[u.active.value] == main
    case _ => u.active == s.active
  }

  lemma FirstIsOldest(s: State)
    requires InOrder(s) && s.tabs != []
    ensures IsOldest(s, s.tabs[0])
  {
    forall other | other in s.tabs && other != s.tabs[0] ensures Older(s.tabs[0], other) {
      var j :| 0 <= j < |s.tabs| && s.tabs[j] == other;
    }
  }

  lemma {:induction false} RegisterAllKeepsFirst(s: State, pages: seq<PageRef>)
    requires Inv(s) && s.tabs != [] && s.tabs[0] in s.pages
    ensures var u := RegisterAll(s, pages);
      && u.tabs != [] && u.tabs[0] == s.tabs[0] && u.tabs[0] in u.pages && u.pages[u.tabs[0]] == s.pages[s.tabs[0]]
  {
    if pages != [] {
      var front := RegisterAll(s, pages[..|pages| - 1]);
      RegisterAllKeepsFirst(s, pages[..|pages| - 1]);
      RegisterAllExtends(s, pages[..|pages| - 1]);
      NextNameIsNew(front);
      assert front.tabs[0] in front.tabs;
    }
  }

  lemma LaunchActivatesMain(s: State, main: PageRef, others: seq<PageRef>)
    requires Inv(s)
    ensures ActiveMoves(Entry(Launch(main, others), s, Step(s, Launch(main, others))))
  {
    var first, u := MainOnly(s, main), Step(s, Launch(main, others));
    MainOnlyFacts(s, main);
    RegisterAllKeepsFirst(first, others);
    RegisterAllExtends(first, others);
    LaunchKeepsOrder(s, main, others);
    FirstIsOldest(u);
    assert first.active == Some(first.tabs[0]);
  }

  lemma CloseActivatesOldest(s: State, id: TabId)
    requires Inv(s) && InOrder(s)
    ensures ActiveMoves(Entry(Event.CloseTab(id), s, Step(s, Event.CloseTab(id))))
  {
    ClosingKeepsOrder(s, id);
    var u := s.(tabs := Without(s.tabs, id));
    if u.tabs != [] {
      FirstIsOldest(u);
      assert u.tabs[0] in s.tabs;
      var v := Step(s, Event.CloseTab(id));
      assert IsOldest(v, u.tabs[0]);
    }
  }

  lemma OtherEventsMoveActive(s: State, e: Event)
    requires Inv(s) && !e.CloseTab? && !e.Launch?
    ensures ActiveMoves(Entry(e, s, Step(s, e)))
  {
  }

  lemma OtherEventsMoveTabs(s: State, e: Event)
    requires Inv(s) && !e.Launch?
    ensures TabMoves(Entry(e, s, Step(s, e)))
  {
    if e.Register? { NextNameIsNew(s); }
  }

  lemma LaunchMovesTabs(s: State, main: PageRef, others: seq<PageRef>)
    requires Inv(s)
    ensures TabMoves(Entry(Launch(main, others), s, Step(s, Launch(main, others))))
  {
    MainOnlyFacts(s, main);
    RegisterAllExtends(MainOnly(s, main), others);
  }

  /** In every run: which tabs an event opens and closes, and which is active then. */
  lemma TabsMove(es: seq<Event>, n: nat)
    requires n < |es|
    ensures TabMoves(Trace(es)[n]) && ActiveMoves(Trace(es)[n])
  {
    var s, e := StateAt(es, n), es[n];
    ReachableInv(es, n);
    TabsAreInOrder(es, n);
    assert Trace(es)[n] == Entry(e, s, Step(s, e));
    match e
    case Launch(main, others) =>
      LaunchMovesTabs(s, main, others);
      LaunchActivatesMain(s, main, others);
    case CloseTab(id) =>
      OtherEventsMoveTabs(s, e);
      CloseActivatesOldest(s, id);
    case _ =>
      OtherEventsMoveTabs(s, e);
      OtherEventsMoveActive(s, e);
  }

  /** After a launch exactly the pages of the new context are shown, each by one tab. */
  lemma LaunchShowsItsPages(s: State, main: PageRef, others: seq<PageRef>, page: PageRef)
    requires Inv(s)
    ensures Shows(Step(s, Launch(main, others)), page) <==> page == main || page in others
  {
    MainOnlyFacts(s, main);
    var first := MainOnly(s, main);
    assert first.tabs[0] in first.tabs;
    RegisterAllShows(first, others, page);
  }

  lemma {:induction false} RegisterAllShows(s: State, pages: seq<PageRef>, page: PageRef)
    requires Inv(s)
    ensures Shows(RegisterAll(s, pages), page) <==> Shows(s, page) || page in pages
  {
    if pages != [] {
      var front, last := RegisterAll(s, pages[..|pages| - 1]), pages[|pages| - 1];
      RegisterAllShows(s, pages[..|pages| - 1], page);
      RegisterAllExtends(s, pages[..|pages| - 1]);
      assert pages == pages[..|pages| - 1] + [last];
      if !Shows(front, last) { RegisteredShows(front, last, page); }
    }
  }

  lemma RegisteredShows(s: State, last: PageRef, page: PageRef)
    requires Inv(s)
    ensures Shows(Registered(s, last), page) <==> Shows(s, page) || page == last
  {
    NextNameIsNew(s);
    var u, id := Registered(s, last), TabName(s.sequence + 1);
    assert id in u.tabs && u.pages[id] == last;
    if Shows(s, page) {
      var x :| x in s.tabs && x in s.pages && s.pages[x] == page;
      assert x in u.tabs && u.pages[x] == page;
    }
    if Shows(u, page) && page != last {
      var x :| x in u.tabs && x in u.pages && u.pages[x] == page;
      assert x in s.tabs && s.pages[x] == page;
    }
  }

  // ---------------------------------------------------------------- page changes and the guard

  /** A change noted for a tab itself, or for whatever tab is active while that is open. */
  predicate ChangesPage(en: Entry, id: TabId) {
    en.event == Note(Some(id)) || (en.event == Note(None) && en.before.active == Some(id) && id in en.before.tabs)
  }

  ghost predicate ChangeMoves(en: Entry, id: TabId) {
    var s, u := en.before, en.after;
    && (id in s.revision ==>
          && id in u.revision && u.revision[id] == s.revision[id] + (if ChangesPage(en, id) then 1 else 0))
    && (en.event.Note? ==>
          u.pageGeneration ==
            if s.active.Some? && s.active.value in s.revision && ChangesPage(en, s.active.value) then
              s.revision[s.active.value] + 1
            else if en.event.tab.None? then s.pageGeneration + 1
            else s.pageGeneration)
  }

  /** A page change counts for its tab, and for the session when that tab is active or no open tab is. */
  lemma PageChangesCount(es: seq<Event>, n: nat, id: TabId)
    requires n < |es|
    ensures ChangeMoves(Trace(es)[n], id)
  {
    var s, e := StateAt(es, n), es[n];
    ReachableInv(es, n);
    StepRevisionFacts(s, e, id);
    assert Trace(es)[n] == Entry(e, s, Step(s, e));
  }

  /** What the guard answers: malformed arguments first, then another tab, then another revision. */
  lemma GuardAnswers(s: State, expected: Option<int>, expectedTab: Option<TabId>)
    ensures var malformedTab := expectedTab.Some? &&
              (expectedTab.value == "" || |expectedTab.value| >= 101
               || exists c :: c in expectedTab.value && (c as int < 32 || c as int == 127));
      var otherTab := expectedTab.Some? && s.active != expectedTab;
      var malformedRevision := expected.Some? && (expected.value < 0 || expected.value > 9007199254740991);
      Guard(s, expected, expectedTab) ==
        if malformedTab || (malformedRevision && !otherTab) then Some(InvalidArgument)
        else if otherTab || (expected.Some? && expected.value != s.pageGeneration) then Some(PageRevisionMismatch)
        else None
  {
    if expectedTab.Some? {
      var id := expectedTab.value;
      if i :| 0 <= i < |id| && (id[i] <= '\U{1f}' || id[i] == '\U{7f}') {
        assert id[i] in id && (id[i] as int < 32 || id[i] as int == 127);
      }
    }
  }
}
