/**
  The paged profile list: filter, sort, find the cursor, cut a page.

  `localeCompare` on ids stands for the order of an injective ranking, so two different ids
  never compare equal.  Filters see the whole profile, and a cursor is what it decodes to.
 */
module ProfilePaging {
  import opened Wrappers

  datatype Cursor = Cursor(updatedAt: int, id: string)

  datatype Profile = Profile(id: string, updatedAt: int, attributes: map<string, string>) {
    function Key(): Cursor { Cursor(updatedAt, id) }
  }

  type Ranking = string -> real

  ghost predicate Injective(rank: Ranking) { forall a, b :: rank(a) == rank(b) ==> a == b }

  /** Strictly ahead in the list: newer, or equally new with the higher id. */
  predicate Ahead(rank: Ranking, a: Cursor, b: Cursor) {
    a.updatedAt > b.updatedAt || (a.updatedAt == b.updatedAt && rank(a.id) > rank(b.id))
  }

  /** `ProfileListCursorSchema`. */
  predicate ValidCursor(c: Cursor) { 0 <= c.updatedAt && 1 <= |c.id| <= 128 }

  datatype Page = Page(items: seq<Profile>, next: Option<Cursor>)

  // ---------------------------------------------------------------- the listing

  function Filtered(ps: seq<Profile>, matches: Profile -> bool): seq<Profile> {
    if ps == [] then [] else Filtered(ps[..|ps| - 1], matches) + if matches(ps[|ps| - 1]) then [ps[|ps| - 1]] else []
  }

  function Insert(rank: Ranking, sorted: seq<Profile>, p: Profile): seq<Profile> {
    if sorted == [] || Ahead(rank, p.Key(), sorted[0].Key()) then [p] + sorted
    else [sorted[0]] + Insert(rank, sorted[1..], p)
  }

  function Sorted(rank: Ranking, ps: seq<Profile>): seq<Profile> {
    if ps == [] then [] else Insert(rank, Sorted(rank, ps[..|ps| - 1]), ps[|ps| - 1])
  }

  function Listing(rank: Ranking, ps: seq<Profile>, matches: Profile -> bool): seq<Profile> {
    Sorted(rank, Filtered(ps, matches))
  }

  predicate DistinctIds(ps: seq<Profile>) { forall i, j :: 0 <= i < j < |ps| ==> ps[i].id != ps[j].id }

  predicate InOrder(rank: Ranking, ps: seq<Profile>) {
    forall i, j :: 0 <= i < j < |ps| ==> Ahead(rank, ps[i].Key(), ps[j].Key())
  }

  lemma {:induction false} FilteredHasTheMatches(ps: seq<Profile>, matches: Profile -> bool)
    ensures forall p :: p in Filtered(ps, matches) <==> p in ps && matches(p)
  {
    if ps != [] {
      FilteredHasTheMatches(ps[..|ps| - 1], matches);
      assert ps == ps[..|ps| - 1] + [ps[|ps| - 1]];
    }
  }

  lemma {:induction false} FilteredStaysDistinct(ps: seq<Profile>, matches: Profile -> bool)
    requires DistinctIds(ps)
    ensures DistinctIds(Filtered(ps, matches))
  {
    if ps != [] {
      var front := ps[..|ps| - 1];
      FilteredStaysDistinct(front, matches);
      FilteredHasTheMatches(front, matches);
      forall p | p in Filtered(front, matches) ensures p.id != ps[|ps| - 1].id { assert p in front; }
    }
  }

  lemma {:induction false} InsertAddsOne(rank: Ranking, sorted: seq<Profile>, p: Profile)
    ensures multiset(Insert(rank, sorted, p)) == multiset(sorted) + multiset{p}
  {
    if sorted != [] && !Ahead(rank, p.Key(), sorted[0].Key()) {
      InsertAddsOne(rank, sorted[1..], p);
      assert sorted == [sorted[0]] + sorted[1..];
    }
  }

  lemma {:induction false} InsertKeepsOrder(rank: Ranking, sorted: seq<Profile>, p: Profile)
    requires Injective(rank) && InOrder(rank, sorted) && forall q :: q in sorted ==> q.id != p.id
    ensures InOrder(rank, Insert(rank, sorted, p))
  {
    if sorted == [] || Ahead(rank, p.Key(), sorted[0].Key()) {
    } else {
      var first, rest := sorted[0], Insert(rank, sorted[1..], p);
      InsertKeepsOrder(rank, sorted[1..], p);
      InsertAddsOne(rank, sorted[1..], p);
      assert first.id != p.id && Ahead(rank, first.Key(), p.Key());
      forall k | 0 <= k < |rest| ensures Ahead(rank, first.Key(), rest[k].Key()) {
        assert rest[k] in multiset(rest);
      }
    }
  }

  /** Sorting arranges exactly the given profiles, each strictly ahead of the next. */
  lemma {:induction false} SortedIsAPermutationInOrder(rank: Ranking, ps: seq<Profile>)
    requires Injective(rank) && DistinctIds(ps)
    ensures InOrder(rank, Sorted(rank, ps)) && multiset(Sorted(rank, ps)) == multiset(ps)
    ensures |Sorted(rank, ps)| == |ps|
  {
    if ps != [] {
      var front, last := ps[..|ps| - 1], ps[|ps| - 1];
      assert ps == front + [last];
      SortedIsAPermutationInOrder(rank, front);
      var sorted := Sorted(rank, front);
      forall q | q in sorted ensures q.id != last.id { assert q in multiset(sorted) && q in front; }
      InsertKeepsOrder(rank, sorted, last);
      InsertAddsOne(rank, sorted, last);
    }
    assert |multiset(Sorted(rank, ps))| == |Sorted(rank, ps)| && |multiset(ps)| == |ps|;
  }

  lemma ListingHasTheMatches(rank: Ranking, ps: seq<Profile>, matches: Profile -> bool)
    requires Injective(rank) && DistinctIds(ps)
    ensures InOrder(rank, Listing(rank, ps, matches))
    ensures forall p :: p in Listing(rank, ps, matches) <==> p in ps && matches(p)
  {
    var filtered := Filtered(ps, matches);
    FilteredStaysDistinct(ps, matches);
    SortedIsAPermutationInOrder(rank, filtered);
    FilteredHasTheMatches(ps, matches);
    forall p ensures p in Sorted(rank, filtered) <==> p in filtered {
      assert p in multiset(Sorted(rank, filtered)) <==> p in multiset(filtered);
    }
  }

  // ---------------------------------------------------------------- one page

  /** The first position from `i` on that lies behind the cursor. */
  function FirstBehind(rank: Ranking, listing: seq<Profile>, cursor: Cursor, i: nat): (k: nat)
    requires i <= |listing|
    ensures i <= k <= |listing|
    decreases |listing| - i
  {
    if i == |listing| || Ahead(rank, cursor, listing[i].Key()) then i else FirstBehind(rank, listing, cursor, i + 1)
  }

  function StartIndex(rank: Ranking, listing: seq<Profile>, cursor: Option<Cursor>): (i: nat)
    ensures i <= |listing|
  {
    if cursor.None? then 0 else FirstBehind(rank, listing, cursor.value, 0)
  }

  /** The page that starts at a position. */
  function PageFrom(listing: seq<Profile>, limit: nat, start: nat): (page: Page)
    requires start <= |listing|
    ensures page.items <= listing[start..]
    ensures page.next.Some? ==> start + limit < |listing| && limit > 0
  {
    var stop := if start + limit <= |listing| then start + limit else |listing|;
    var items := listing[start..stop];
    Page(items, if start + limit < |listing| && items != [] then Some(items[|items| - 1].Key()) else None)
  }

  function PageOf(rank: Ranking, listing: seq<Profile>, limit: nat, cursor: Option<Cursor>): Page {
    PageFrom(listing, limit, StartIndex(rank, listing, cursor))
  }

  method FilterAndSort(rank: Ranking, ps: seq<Profile>, matches: Profile -> bool) returns (sorted: seq<Profile>)
    ensures sorted == Listing(rank, ps, matches)
  {
    var filtered: seq<Profile> := [];
    for i := 0 to |ps|
      invariant filtered == Filtered(ps[..i], matches)
    {
      assert ps[..i + 1][..i] == ps[..i];
      if matches(ps[i]) { filtered := filtered + [ps[i]]; }
    }
    assert ps[..|ps|] == ps;
    sorted := [];
    for i := 0 to |filtered|
      invariant sorted == Sorted(rank, filtered[..i])
    {
      assert filtered[..i + 1][..i] == filtered[..i];
      sorted := Insert(rank, sorted, filtered[i]);
    }
    assert filtered[..|filtered|] == filtered;
  }

  method FindStartIndex(rank: Ranking, sorted: seq<Profile>, cursor: Cursor) returns (startIndex: nat)
    ensures startIndex == StartIndex(rank, sorted, Some(cursor))
  {
    startIndex := 0;
    while startIndex < |sorted| && !Ahead(rank, cursor, sorted[startIndex].Key())
      invariant startIndex <= |sorted|
      invariant StartIndex(rank, sorted, Some(cursor)) == FirstBehind(rank, sorted, cursor, startIndex)
    {
      startIndex := startIndex + 1;
    }
  }

  method ListProfiles(rank: Ranking, ps: seq<Profile>, matches: Profile -> bool, limit: nat, cursor: Option<Cursor>)
    returns (page: Result<Page, string>)
    ensures page == if cursor.Some? && !ValidCursor(cursor.value) then Failure("INVALID_INPUT")
                    else Success(PageOf(rank, Listing(rank, ps, matches), limit, cursor))
  {
    var filtered := FilterAndSort(rank, ps, matches);
    var startIndex := 0;
    if cursor.Some? {
      if !ValidCursor(cursor.value) { return Failure("INVALID_INPUT"); }
      startIndex := FindStartIndex(rank, filtered, cursor.value);
    }
    var endIndex := if startIndex + limit <= |filtered| then startIndex + limit else |filtered|;
    var items := filtered[startIndex..endIndex];
    var next := None;
    if startIndex + limit < |filtered| && |items| > 0 { next := Some(items[|items| - 1].Key()); }
    return Success(Page(items, next));
  }

  lemma {:induction false} FirstBehindSplits(rank: Ranking, listing: seq<Profile>, cursor: Cursor, i: nat, j: nat)
    requires InOrder(rank, listing) && i <= j < |listing|
    ensures j >= FirstBehind(rank, listing, cursor, i) <==> Ahead(rank, cursor, listing[j].Key())
    decreases |listing| - i
  {
    if Ahead(rank, cursor, listing[i].Key()) {
      assert i < j ==> Ahead(rank, listing[i].Key(), listing[j].Key());
    } else if i < j {
      FirstBehindSplits(rank, listing, cursor, i + 1, j);
    }
  }

  /** The cursor of a listed profile points right behind it. */
  lemma StartsBehind(rank: Ranking, listing: seq<Profile>, k: nat)
    requires InOrder(rank, listing) && k < |listing|
    ensures StartIndex(rank, listing, Some(listing[k].Key())) == k + 1
  {
    var start := StartIndex(rank, listing, Some(listing[k].Key()));
    FirstBehindSplits(rank, listing, listing[k].Key(), 0, k);
    assert !Ahead(rank, listing[k].Key(), listing[k].Key());
    if k + 1 < |listing| {
      assert Ahead(rank, listing[k].Key(), listing[k + 1].Key());
      FirstBehindSplits(rank, listing, listing[k].Key(), 0, k + 1);
    }
  }

  // ---------------------------------------------------------------- an unchanged collection

  /** What a client gets by following `nextCursor`: all items in order, in so many pages, up to the last one or not. */
  datatype Traversal = Traversal(items: seq<Profile>, pages: nat, complete: bool)

  function Traverse(rank: Ranking, listing: seq<Profile>, limit: nat, cursor: Option<Cursor>, fuel: nat): Traversal
    decreases fuel
  {
    var page := PageOf(rank, listing, limit, cursor);
    if page.next.None? || fuel == 0 then Traversal(page.items, 1, page.next.None?)
    else
      var rest := Traverse(rank, listing, limit, page.next, fuel - 1);
      Traversal(page.items + rest.items, 1 + rest.pages, rest.complete)
  }

  function PageCount(n: nat, limit: nat): nat
    requires limit > 0
  {
    if n <= limit then 1 else 1 + PageCount(n - limit, limit)
  }

  lemma {:induction false} PageCountIsCeiling(n: nat, limit: nat)
    requires limit > 0
    ensures n == 0 ==> PageCount(n, limit) == 1
    ensures n > 0 ==> (PageCount(n, limit) - 1) * limit < n <= PageCount(n, limit) * limit
  {
    if n > limit { PageCountIsCeiling(n - limit, limit); }
  }

  /** A cut page ends right before the position its cursor leads to. */
  predicate Leads(rank: Ranking, listing: seq<Profile>, limit: nat, start: nat)
    requires start <= |listing|
  {
    var page := PageFrom(listing, limit, start);
    page.next.Some? ==>
      StartIndex(rank, listing, page.next) == start + limit && page.items == listing[start..start + limit]
  }

  lemma CursorsLead(rank: Ranking, listing: seq<Profile>, limit: nat, start: nat)
    requires InOrder(rank, listing) && start <= |listing|
    ensures Leads(rank, listing, limit, start)
  {
    if PageFrom(listing, limit, start).next.Some? { StartsBehind(rank, listing, start + limit - 1); }
  }

  lemma CutInTwo(listing: seq<Profile>, a: nat, b: nat)
    requires a <= b <= |listing|
    ensures listing[a..b] + listing[b..] == listing[a..]
  {
  }

  /** A traversal by positions. */
  function Cuts(listing: seq<Profile>, limit: nat, start: nat): (t: Traversal)
    requires start <= |listing| && limit > 0
    ensures t.items == listing[start..] && t.pages == PageCount(|listing| - start, limit) && t.complete
    decreases |listing| - start
  {
    var page := PageFrom(listing, limit, start);
    if page.next.None? then Traversal(page.items, 1, true)
    else
      var rest := Cuts(listing, limit, start + limit);
      CutInTwo(listing, start, start + limit);
      Traversal(page.items + rest.items, 1 + rest.pages, rest.complete)
  }

  lemma {:induction false} TraversalCoversTheRest(rank: Ranking, listing: seq<Profile>, limit: nat,
                                                  cursor: Option<Cursor>, fuel: nat, start: nat)
    requires limit > 0 && start == StartIndex(rank, listing, cursor) && |listing| - start <= fuel
    requires forall i :: 0 <= i <= |listing| ==> Leads(rank, listing, limit, i)
    ensures Traverse(rank, listing, limit, cursor, fuel) == Cuts(listing, limit, start)
    decreases fuel
  {
    var page := PageFrom(listing, limit, start);
    if page.next.Some? {
      NextStart(rank, listing, limit, start);
      TraversalCoversTheRest(rank, listing, limit, page.next, fuel - 1, start + limit);
    }
  }

  lemma NextStart(rank: Ranking, listing: seq<Profile>, limit: nat, start: nat)
    requires start <= |listing| && Leads(rank, listing, limit, start) && PageFrom(listing, limit, start).next.Some?
    ensures start + limit < |listing| && limit > 0
    ensures StartIndex(rank, listing, PageFrom(listing, limit, start).next) == start + limit
  {
  }

  /** Following the cursors to the end gives the whole listing in order, in as few pages as its length needs. */
  lemma TraversalIsComplete(rank: Ranking, ps: seq<Profile>, matches: Profile -> bool, limit: nat)
    requires Injective(rank) && DistinctIds(ps) && limit > 0
    ensures var listing := Listing(rank, ps, matches);
            && Traverse(rank, listing, limit, None, |listing|) == Traversal(listing, PageCount(|listing|, limit), true)
            && InOrder(rank, listing)
            && (forall p :: p in listing <==> p in ps && matches(p))
  {
    ListingHasTheMatches(rank, ps, matches);
    var listing := Listing(rank, ps, matches);
    forall i | 0 <= i <= |listing| ensures Leads(rank, listing, limit, i) { CursorsLead(rank, listing, limit, i); }
    TraversalCoversTheRest(rank, listing, limit, None, |listing|, 0);
    assert listing[0..] == listing;
  }

  // ---------------------------------------------------------------- a changing collection

  /** What one request sees: the collection at that moment, and the page size it asks for. */
  datatype Request = Request(profiles: seq<Profile>, limit: nat)

  /** The cursor sent with request `i`; none with the first. */
  function CursorAt(rank: Ranking, matches: Profile -> bool, rs: seq<Request>, i: nat): Option<Cursor>
    requires i <= |rs|
    decreases i, 0
  {
    if i == 0 then None else PageAt(rank, matches, rs, i - 1).next
  }

  function PageAt(rank: Ranking, matches: Profile -> bool, rs: seq<Request>, i: nat): Page
    requires i < |rs|
    decreases i, 1
  {
    PageOf(rank, Listing(rank, rs[i].profiles, matches), rs[i].limit, CursorAt(rank, matches, rs, i))
  }

  /** A traversal: every request but the first follows the cursor of the page before. */
  predicate Follows(rank: Ranking, matches: Profile -> bool, rs: seq<Request>) {
    forall i :: 0 < i < |rs| ==> CursorAt(rank, matches, rs, i).Some?
  }

  predicate Pending(rank: Ranking, cursor: Option<Cursor>, p: Profile) {
    cursor.None? || Ahead(rank, cursor.value, p.Key())
  }

  /** A page returns a listed profile, or leaves it for later, or had it before; it never turns back. */
  lemma OnePage(rank: Ranking, listing: seq<Profile>, limit: nat, cursor: Option<Cursor>, p: Profile)
    requires InOrder(rank, listing) && limit > 0 && p in listing
    ensures var page := PageOf(rank, listing, limit, cursor);
            && (p in page.items ==> Pending(rank, cursor, p))
            && (page.next.None? && Pending(rank, cursor, p) ==> p in page.items)
            && (page.next.Some? ==>
                (Pending(rank, page.next, p) <==> Pending(rank, cursor, p) && p !in page.items))
  {
    var page, start := PageOf(rank, listing, limit, cursor), StartIndex(rank, listing, cursor);
    var k :| 0 <= k < |listing| && listing[k] == p;
    if cursor.Some? { FirstBehindSplits(rank, listing, cursor.value, 0, k); }
    assert Pending(rank, cursor, p) <==> k >= start;
    if page.next.Some? {
      CursorsLead(rank, listing, limit, start);
      FirstBehindSplits(rank, listing, page.next.value, 0, k);
      assert Pending(rank, page.next, p) <==> k >= start + limit;
    }
    ItemsOfPage(rank, listing, limit, start, k);
  }

  lemma ItemsOfPage(rank: Ranking, listing: seq<Profile>, limit: nat, start: nat, k: nat)
    requires InOrder(rank, listing) && start <= |listing| && k < |listing|
    ensures listing[k] in PageFrom(listing, limit, start).items <==> start <= k < start + limit
  {
    var items := PageFrom(listing, limit, start).items;
    if start <= k < start + limit { assert items[k - start] == listing[k]; }
    if listing[k] in items {
      var j :| 0 <= j < |items| && items[j] == listing[k];
      assert items[j] == listing[start + j] && !Ahead(rank, listing[k].Key(), listing[k].Key());
    }
  }

  /** In how many of the first `n` pages the profile appears. */
  function Appearances(rank: Ranking, matches: Profile -> bool, rs: seq<Request>, p: Profile, n: nat): nat
    requires n <= |rs|
  {
    if n == 0 then 0
    else
      Appearances(rank, matches, rs, p, n - 1) + if p in PageAt(rank, matches, rs, n - 1).items then 1 else 0
  }

  ghost predicate AlwaysListed(rank: Ranking, matches: Profile -> bool, rs: seq<Request>, p: Profile) {
    Injective(rank) && matches(p) &&
    forall i :: 0 <= i < |rs| ==> DistinctIds(rs[i].profiles) && rs[i].limit > 0 && p in rs[i].profiles
  }

  /** Request `i` returns the profile if it is still pending, or leaves it pending; it does not return it again. */
  predicate Progress(rank: Ranking, matches: Profile -> bool, rs: seq<Request>, p: Profile, i: nat)
    requires i < |rs|
  {
    var page, cursor := PageAt(rank, matches, rs, i), CursorAt(rank, matches, rs, i);
    && (p in page.items ==> Pending(rank, cursor, p))
    && (page.next.None? && Pending(rank, cursor, p) ==> p in page.items)
    && (page.next.Some? ==> (Pending(rank, page.next, p) <==> Pending(rank, cursor, p) && p !in page.items))
  }

  lemma OneRequest(rank: Ranking, matches: Profile -> bool, rs: seq<Request>, p: Profile, i: nat)
    requires i < |rs| && AlwaysListed(rank, matches, rs, p)
    ensures Progress(rank, matches, rs, p, i)
  {
    ListingHasTheMatches(rank, rs[i].profiles, matches);
    OnePage(rank, Listing(rank, rs[i].profiles, matches), rs[i].limit, CursorAt(rank, matches, rs, i), p);
  }

  lemma {:induction false} ReturnedOrPending(rank: Ranking, matches: Profile -> bool, rs: seq<Request>,
                                              p: Profile, n: nat)
    requires n < |rs| && Follows(rank, matches, rs)
    requires forall i :: 0 <= i < |rs| ==> Progress(rank, matches, rs, p, i)
    ensures Appearances(rank, matches, rs, p, n) ==
            if Pending(rank, CursorAt(rank, matches, rs, n), p) then 0 else 1
  {
    if n > 0 {
      ReturnedOrPending(rank, matches, rs, p, n - 1);
      assert CursorAt(rank, matches, rs, n).Some? && Progress(rank, matches, rs, p, n - 1);
    }
  }

  /** Whatever happens to other profiles between the pages, one that stays is returned exactly once. */
  lemma UnchangedProfilesAppearOnce(rank: Ranking, matches: Profile -> bool, rs: seq<Request>, p: Profile)
    requires rs != [] && Follows(rank, matches, rs) && AlwaysListed(rank, matches, rs, p)
    requires PageAt(rank, matches, rs, |rs| - 1).next.None?
    ensures Appearances(rank, matches, rs, p, |rs|) == 1
  {
    var n := |rs| - 1;
    forall i | 0 <= i < |rs| ensures Progress(rank, matches, rs, p, i) { OneRequest(rank, matches, rs, p, i); }
    ReturnedOrPending(rank, matches, rs, p, n);
    assert Progress(rank, matches, rs, p, n);
  }

  /** A cursor the server hands out is the key of a profile it listed, so it is accepted if such keys are valid. */
  lemma NextCursorIsAccepted(rank: Ranking, ps: seq<Profile>, matches: Profile -> bool, limit: nat,
                             cursor: Option<Cursor>)
    requires Injective(rank) && DistinctIds(ps)
    requires forall p :: p in ps ==> ValidCursor(p.Key())
    ensures var next := PageOf(rank, Listing(rank, ps, matches), limit, cursor).next;
            next.Some? ==> ValidCursor(next.value) && exists p :: p in ps && matches(p) && p.Key() == next.value
  {
    ListingHasTheMatches(rank, ps, matches);
    var listing := Listing(rank, ps, matches);
    var page := PageOf(rank, listing, limit, cursor);
    if page.next.Some? {
      var last := page.items[|page.items| - 1];
      assert last in page.items && last in listing;
    }
  }

  // ---------------------------------------------------------------- the order and the schema, spelled out

  /** The listing goes from the newest profile to the oldest, and among equally new ones from the highest id down. */
  lemma ListingDescends(rank: Ranking, ps: seq<Profile>, matches: Profile -> bool, i: nat, j: nat)
    requires Injective(rank) && DistinctIds(ps) && i < j < |Listing(rank, ps, matches)|
    ensures var a, b := Listing(rank, ps, matches)[i], Listing(rank, ps, matches)[j];
            b.updatedAt < a.updatedAt || (b.updatedAt == a.updatedAt && rank(b.id) < rank(a.id))
  {
    ListingHasTheMatches(rank, ps, matches);
  }

  /** A cursor is refused for a negative time, an empty id, or one of more than 128 characters. */
  lemma CursorsAreRefused(c: Cursor)
    ensures !ValidCursor(c) <==> c.updatedAt < 0 || c.id == "" || |c.id| > 128
  {
  }
}
