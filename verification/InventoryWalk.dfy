/**
  Verifying an installed browser against its file inventory.

  A path is the sequence of its parts below the installation directory; the inventory is
  keyed by such paths.  The directory tree does not change during the walk, and the hash of a
  file stands for its content.
 */
module InventoryWalk {
  import opened Wrappers

  type Path = seq<string>

  datatype Node = File(hash: string) | Directory(listing: Listing) | Link | Special

  /** What reading a directory returns, in its order. */
  datatype Listing = End | Entry(name: string, node: Node, rest: Listing)

  datatype FoundFile = FoundFile(path: Path, hash: string)

  type Inventory = map<Path, string>

  datatype Refusal = ProvenanceMismatch | HashMismatch

  function Names(l: Listing): set<string> {
    match l case End => {} case Entry(name, _, rest) => {name} + Names(rest)
  }

  /** A directory never lists a name twice, at any depth. */
  predicate NamesDiffer(l: Listing) {
    match l
    case End => true
    case Entry(name, node, rest) =>
      name !in Names(rest) && NamesDiffer(rest) && (node.Directory? ==> NamesDiffer(node.listing))
  }

  function Files(prefix: Path, l: Listing): multiset<FoundFile>
    decreases l
  {
    match l
    case End => multiset{}
    case Entry(name, node, rest) => FilesAt(prefix + [name], node) + Files(prefix, rest)
  }

  function FilesAt(path: Path, node: Node): multiset<FoundFile>
    decreases node
  {
    match node
    case File(hash) => multiset{FoundFile(path, hash)}
    case Directory(listing) => Files(path, listing)
    case _ => multiset{}
  }

  /** Every entry of the tree is a directory or a regular file and passes the policy. */
  predicate Clean(policy: (Path, Node) -> bool, prefix: Path, l: Listing)
    decreases l
  {
    match l
    case End => true
    case Entry(name, node, rest) =>
      && (node.File? || node.Directory?) && policy(prefix + [name], node)
      && (node.Directory? ==> Clean(policy, prefix + [name], node.listing))
      && Clean(policy, prefix, rest)
  }

  function Size(l: Listing): nat {
    match l
    case End => 0
    case Entry(_, node, rest) => 1 + (if node.Directory? then 1 + Size(node.listing) else 0) + Size(rest)
  }

  /** The files to check are exactly the given paths, apart from the manifest, and every hash is the listed one. */
  ghost predicate Matches(manifest: Path, inventory: Inventory, paths: set<Path>, files: multiset<FoundFile>) {
    FilesAreListed(manifest, inventory, paths, files) && PathsAreFound(manifest, paths, files)
  }

  ghost predicate FilesAreListed(manifest: Path, inventory: Inventory, paths: set<Path>, files: multiset<FoundFile>) {
    forall f :: f in files && f.path != manifest ==>
      f.path in paths && f.path in inventory && inventory[f.path] == f.hash
  }

  ghost predicate PathsAreFound(manifest: Path, paths: set<Path>, files: multiset<FoundFile>) {
    forall p :: p in paths ==> p != manifest && PathIn(p, files)
  }

  ghost predicate PathIn(p: Path, files: multiset<FoundFile>) { exists f :: f in files && f.path == p }

  /** No two of the files share a path. */
  ghost predicate PathsOnce(files: multiset<FoundFile>) {
    && (forall f, g :: f in files && g in files && f.path == g.path ==> f == g)
    && (forall f :: files[f] <= 1)
  }

  // ---------------------------------------------------------------- paths are distinct

  lemma {:induction false} FilesLieBelow(prefix: Path, l: Listing, f: FoundFile)
    requires f in Files(prefix, l)
    ensures |prefix| < |f.path| && f.path[..|prefix|] == prefix && f.path[|prefix|] in Names(l)
    decreases l
  {
    var path := prefix + [l.name];
    if f in Files(prefix, l.rest) {
      FilesLieBelow(prefix, l.rest, f);
    } else {
      FileLiesAt(path, l.node, f);
      assert path[..|prefix|] == prefix;
      assert f.path[..|path|][..|prefix|] == f.path[..|prefix|] && f.path[..|path|][|prefix|] == f.path[|prefix|];
    }
  }

  lemma {:induction false} FileLiesAt(path: Path, node: Node, f: FoundFile)
    requires f in FilesAt(path, node)
    ensures |path| <= |f.path| && f.path[..|path|] == path
    decreases node
  {
    if node.Directory? { FilesLieBelow(path, node.listing, f); }
  }

  lemma TwoPartsStayOnce(a: multiset<FoundFile>, b: multiset<FoundFile>)
    requires PathsOnce(a) && PathsOnce(b)
    requires forall f, g :: f in a && g in b ==> f.path != g.path
    ensures PathsOnce(a + b)
  {
    forall f ensures (a + b)[f] <= 1 {
      if f in a && f in b { assert false; }
    }
  }

  lemma {:induction false} TreePathsDiffer(prefix: Path, l: Listing)
    requires NamesDiffer(l)
    ensures PathsOnce(Files(prefix, l))
    decreases l
  {
    if l.Entry? {
      var path := prefix + [l.name];
      var here, there := FilesAt(path, l.node), Files(prefix, l.rest);
      TreePathsDiffer(prefix, l.rest);
      if l.node.Directory? { TreePathsDiffer(path, l.node.listing); }
      forall f, g | f in here && g in there ensures f.path != g.path {
        FileLiesAt(path, l.node, f);
        FilesLieBelow(prefix, l.rest, g);
        assert f.path[..|path|][|prefix|] == l.name;
      }
      TwoPartsStayOnce(here, there);
    }
  }

  // ---------------------------------------------------------------- the walk

  datatype Todo = Todo(path: Path, listing: Listing)

  function PendingFiles(pending: seq<Todo>): multiset<FoundFile> {
    if pending == [] then multiset{}
    else PendingFiles(pending[..|pending| - 1]) + Files(pending[|pending| - 1].path, pending[|pending| - 1].listing)
  }

  predicate PendingClean(policy: (Path, Node) -> bool, pending: seq<Todo>) {
    forall i :: 0 <= i < |pending| ==> Clean(policy, pending[i].path, pending[i].listing)
  }

  function PendingSize(pending: seq<Todo>): nat {
    if pending == [] then 0 else PendingSize(pending[..|pending| - 1]) + 1 + Size(pending[|pending| - 1].listing)
  }

  lemma Push(policy: (Path, Node) -> bool, pending: seq<Todo>, t: Todo)
    ensures PendingFiles(pending + [t]) == PendingFiles(pending) + Files(t.path, t.listing)
    ensures PendingClean(policy, pending + [t]) <==> PendingClean(policy, pending) && Clean(policy, t.path, t.listing)
    ensures PendingSize(pending + [t]) == PendingSize(pending) + 1 + Size(t.listing)
  {
    assert (pending + [t])[..|pending|] == pending;
    if PendingClean(policy, pending + [t]) {
      assert (pending + [t])[|pending|] == t;
      assert forall i :: 0 <= i < |pending| ==> (pending + [t])[i] == pending[i];
    }
  }

  lemma PathInOneMore(f: FoundFile, rest: multiset<FoundFile>, p: Path)
    ensures PathIn(p, multiset{f} + rest) <==> p == f.path || PathIn(p, rest)
  {
    var files := multiset{f} + rest;
    assert f in files;
    if PathIn(p, files) && p != f.path {
      var g :| g in files && g.path == p;
      assert g in rest;
    }
    if PathIn(p, rest) {
      var g :| g in rest && g.path == p;
      assert g in files;
    }
  }

  lemma RestHasOtherPaths(f: FoundFile, rest: multiset<FoundFile>)
    requires PathsOnce(multiset{f} + rest)
    ensures PathsOnce(rest) && !PathIn(f.path, rest)
  {
    var files := multiset{f} + rest;
    assert f in files && files[f] == 1 + rest[f];
    assert forall g :: rest[g] <= files[g];
    assert forall g :: g in rest ==> g in files;
  }

  lemma ListedOneMore(manifest: Path, inventory: Inventory, paths: set<Path>, f: FoundFile, rest: multiset<FoundFile>)
    requires !PathIn(f.path, rest)
    ensures f.path == manifest ==>
              (FilesAreListed(manifest, inventory, paths, multiset{f} + rest) <==>
               FilesAreListed(manifest, inventory, paths, rest))
    ensures f.path != manifest ==>
              (FilesAreListed(manifest, inventory, paths, multiset{f} + rest) <==>
               && f.path in paths && f.path in inventory && inventory[f.path] == f.hash
               && FilesAreListed(manifest, inventory, paths - {f.path}, rest))
  {
    var files := multiset{f} + rest;
    assert f in files;
    assert forall g :: g in rest ==> g in files && PathIn(g.path, rest);
  }

  lemma FoundOneMore(manifest: Path, paths: set<Path>, f: FoundFile, rest: multiset<FoundFile>)
    ensures f.path == manifest ==>
              (PathsAreFound(manifest, paths, multiset{f} + rest) <==> PathsAreFound(manifest, paths, rest))
    ensures f.path != manifest ==>
              (PathsAreFound(manifest, paths, multiset{f} + rest) <==> PathsAreFound(manifest, paths - {f.path}, rest))
  {
    forall p ensures PathIn(p, multiset{f} + rest) <==> p == f.path || PathIn(p, rest) { PathInOneMore(f, rest, p); }
    if f.path != manifest && PathsAreFound(manifest, paths - {f.path}, rest) {
      forall p | p in paths ensures p != manifest && PathIn(p, multiset{f} + rest) {
        assert p == f.path || p in paths - {f.path};
      }
    }
  }

  /** Checking off one file, or passing over the manifest, leaves the question to the rest. */
  lemma CheckOff(manifest: Path, inventory: Inventory, paths: set<Path>, f: FoundFile, rest: multiset<FoundFile>)
    requires PathsOnce(multiset{f} + rest)
    ensures f.path == manifest ==>
              (Matches(manifest, inventory, paths, multiset{f} + rest) <==> Matches(manifest, inventory, paths, rest))
    ensures f.path != manifest ==>
              (Matches(manifest, inventory, paths, multiset{f} + rest) <==>
               && f.path in paths && f.path in inventory && inventory[f.path] == f.hash
               && Matches(manifest, inventory, paths - {f.path}, rest))
    ensures PathsOnce(rest)
  {
    RestHasOtherPaths(f, rest);
    ListedOneMore(manifest, inventory, paths, f, rest);
    FoundOneMore(manifest, paths, f, rest);
  }

  /** What is still to be read decides the outcome. */
  ghost predicate StillGood(policy: (Path, Node) -> bool, manifest: Path, inventory: Inventory, remaining: set<Path>,
                            pending: seq<Todo>, path: Path, here: Listing)
  {
    && Matches(manifest, inventory, remaining, Files(path, here) + PendingFiles(pending))
    && Clean(policy, path, here) && PendingClean(policy, pending)
  }

  /** The installation is the listed one: nothing but the manifest and the listed files with their hashes. */
  ghost predicate Good(policy: (Path, Node) -> bool, manifest: Path, inventory: Inventory, root: Listing) {
    Clean(policy, [], root) && Matches(manifest, inventory, inventory.Keys, Files([], root))
  }

  lemma ReadFile(policy: (Path, Node) -> bool, manifest: Path, inventory: Inventory, remaining: set<Path>,
                 pending: seq<Todo>, path: Path, here: Listing)
    requires here.Entry? && here.node.File? && policy(path + [here.name], here.node)
    requires PathsOnce(Files(path, here) + PendingFiles(pending))
    ensures PathsOnce(Files(path, here.rest) + PendingFiles(pending))
    ensures var name, hash := path + [here.name], here.node.hash;
            if name == manifest then
              StillGood(policy, manifest, inventory, remaining, pending, path, here) <==>
              StillGood(policy, manifest, inventory, remaining, pending, path, here.rest)
            else
              StillGood(policy, manifest, inventory, remaining, pending, path, here) <==>
              && name in remaining && name in inventory && inventory[name] == hash
              && StillGood(policy, manifest, inventory, remaining - {name}, pending, path, here.rest)
  {
    var f := FoundFile(path + [here.name], here.node.hash);
    var rest := Files(path, here.rest) + PendingFiles(pending);
    assert Files(path, here) + PendingFiles(pending) == multiset{f} + rest;
    CheckOff(manifest, inventory, remaining, f, rest);
  }

  lemma ReadDirectory(policy: (Path, Node) -> bool, manifest: Path, inventory: Inventory, remaining: set<Path>,
                      pending: seq<Todo>, path: Path, here: Listing)
    requires here.Entry? && here.node.Directory? && policy(path + [here.name], here.node)
    ensures var more := pending + [Todo(path + [here.name], here.node.listing)];
            && Files(path, here) + PendingFiles(pending) == Files(path, here.rest) + PendingFiles(more)
            && PendingSize(more) + Size(here.rest) < PendingSize(pending) + Size(here)
            && (StillGood(policy, manifest, inventory, remaining, pending, path, here) <==>
                StillGood(policy, manifest, inventory, remaining, more, path, here.rest))
  {
    Push(policy, pending, Todo(path + [here.name], here.node.listing));
  }

  /** Beginning with a directory, and ending with nothing left to read. */
  lemma TakeDirectory(policy: (Path, Node) -> bool, manifest: Path, inventory: Inventory, remaining: set<Path>,
                      pending: seq<Todo>, d: Todo)
    ensures PendingFiles(pending + [d]) == Files(d.path, d.listing) + PendingFiles(pending)
    ensures PendingSize(pending + [d]) == 1 + Size(d.listing) + PendingSize(pending)
    ensures StillGood(policy, manifest, inventory, remaining, pending + [d], [], End) <==>
            StillGood(policy, manifest, inventory, remaining, pending, d.path, d.listing)
  {
    Push(policy, pending, d);
    assert Files([], End) + PendingFiles(pending + [d]) == Files(d.path, d.listing) + PendingFiles(pending);
  }

  lemma LeaveDirectory(policy: (Path, Node) -> bool, manifest: Path, inventory: Inventory, remaining: set<Path>,
                       pending: seq<Todo>, path: Path)
    ensures Files(path, End) + PendingFiles(pending) == PendingFiles(pending)
    ensures StillGood(policy, manifest, inventory, remaining, pending, path, End) <==>
            StillGood(policy, manifest, inventory, remaining, pending, [], End)
  {
  }

  lemma NothingLeft(policy: (Path, Node) -> bool, manifest: Path, inventory: Inventory, remaining: set<Path>)
    ensures StillGood(policy, manifest, inventory, remaining, [], [], End) <==> remaining == {}
  {
    if remaining != {} {
      var p :| p in remaining;
      assert !PathIn(p, Files([], End) + PendingFiles([]));
    }
  }

  /** The entries of one directory: check its files off and put its directories on the stack. */
  method ReadEntries(policy: (Path, Node) -> bool, manifest: Path, inventory: Inventory, remaining: set<Path>,
                     pending: seq<Todo>, directory: Todo)
    returns (refusal: Option<Refusal>, left: set<Path>, more: seq<Todo>)
    requires remaining <= inventory.Keys
    requires PathsOnce(Files(directory.path, directory.listing) + PendingFiles(pending))
    ensures refusal.Some? ==>
              !StillGood(policy, manifest, inventory, remaining, pending, directory.path, directory.listing)
    ensures refusal.None? ==>
              && left <= inventory.Keys && PathsOnce(PendingFiles(more))
              && PendingSize(more) <= PendingSize(pending) + Size(directory.listing)
              && (StillGood(policy, manifest, inventory, remaining, pending, directory.path, directory.listing) <==>
                  StillGood(policy, manifest, inventory, left, more, [], End))
  {
    left, more := remaining, pending;
    var here := directory.listing;
    ghost var good := StillGood(policy, manifest, inventory, remaining, pending, directory.path, directory.listing);
    while here.Entry?
      invariant left <= inventory.Keys
      invariant PathsOnce(Files(directory.path, here) + PendingFiles(more))
      invariant PendingSize(more) + Size(here) <= PendingSize(pending) + Size(directory.listing)
      invariant good == StillGood(policy, manifest, inventory, left, more, directory.path, here)
      decreases here
    {
      var path := directory.path + [here.name];
      if !(here.node.File? || here.node.Directory?) || !policy(path, here.node) {
        return Some(ProvenanceMismatch), left, more;
      }
      if here.node.Directory? {
        ReadDirectory(policy, manifest, inventory, left, more, directory.path, here);
        more := more + [Todo(path, here.node.listing)];
      } else {
        ReadFile(policy, manifest, inventory, left, more, directory.path, here);
        if path != manifest {
          if path !in left { return Some(ProvenanceMismatch), left, more; }
          if here.node.hash != inventory[path] { return Some(HashMismatch), left, more; }
          left := left - {path};
        }
      }
      here := here.rest;
    }
    LeaveDirectory(policy, manifest, inventory, left, more, directory.path);
    return None, left, more;
  }

  method Walk(policy: (Path, Node) -> bool, manifest: Path, inventory: Inventory, root: Listing)
    returns (refusal: Option<Refusal>)
    requires NamesDiffer(root)
    ensures refusal.None? <==> Good(policy, manifest, inventory, root)
  {
    var remaining := inventory.Keys;
    var pending := [Todo([], root)];
    ghost var good := Good(policy, manifest, inventory, root);
    TreePathsDiffer([], root);
    TakeDirectory(policy, manifest, inventory, remaining, [], Todo([], root));
    assert [] + [Todo([], root)] == pending && PendingFiles(pending) == Files([], root);
    while |pending| > 0
      invariant remaining <= inventory.Keys
      invariant PathsOnce(PendingFiles(pending))
      invariant good == StillGood(policy, manifest, inventory, remaining, pending, [], End)
      decreases PendingSize(pending)
    {
      var directory, rest := pending[|pending| - 1], pending[..|pending| - 1];
      assert rest + [directory] == pending;
      TakeDirectory(policy, manifest, inventory, remaining, rest, directory);
      refusal, remaining, pending := ReadEntries(policy, manifest, inventory, remaining, rest, directory);
      if refusal.Some? { return; }
    }
    NothingLeft(policy, manifest, inventory, remaining);
    return if remaining == {} then None else Some(ProvenanceMismatch);
  }

  /** Two accepted trees hold the same files, manifests aside. */
  lemma AcceptedTreesAgree(policy: (Path, Node) -> bool, manifest: Path, inventory: Inventory, a: Listing, b: Listing,
                           f: FoundFile)
    requires Good(policy, manifest, inventory, a) && Good(policy, manifest, inventory, b)
    requires f.path != manifest
    ensures f in Files([], a) <==> f in Files([], b)
  {
    if f in Files([], a) {
      assert PathIn(f.path, Files([], b));
    }
    if f in Files([], b) {
      assert PathIn(f.path, Files([], a));
    }
  }

  // ---------------------------------------------------------------- the two installations

  const CORE_MANIFEST: Path := ["build-provenance.json"]
  const CHROMIX_MANIFEST: Path := ["chromix-install.json"]

  predicate IsDigest(s: string) {
    |s| == 64 && forall i :: 0 <= i < |s| ==> '0' <= s[i] <= '9' || 'a' <= s[i] <= 'f'
  }

  predicate PlainPart(part: string) { part != "" && part != "." && part != ".." }

  /** The name check of the custom Chromium core. */
  predicate CorePath(p: Path) {
    p != CORE_MANIFEST && forall i :: 0 <= i < |p| ==> PlainPart(p[i]) && '\\' !in p[i] && ':' !in p[i]
  }

  /** `safeInventoryPath`. */
  predicate SafeInventoryPath(p: Path) {
    p != CHROMIX_MANIFEST &&
    forall i :: 0 <= i < |p| ==>
      && PlainPart(p[i]) && '\\' !in p[i] && ':' !in p[i] && '\0' !in p[i]
      && p[i][|p[i]| - 1] != '.' && p[i][|p[i]| - 1] != ' '
  }

  function CorePolicy(): (Path, Node) -> bool { (_, _) => true }

  function ChromixPolicy(lower: Path -> Path): (Path, Node) -> bool {
    (p, _) => p == CHROMIX_MANIFEST || (SafeInventoryPath(p) && lower(p) != CHROMIX_MANIFEST)
  }

  predicate ValidCoreInventory(inventory: Inventory) {
    forall p :: p in inventory ==> CorePath(p) && IsDigest(inventory[p])
  }

  ghost predicate ValidChromixInventory(lower: Path -> Path, inventory: Inventory) {
    && (forall p :: p in inventory ==> SafeInventoryPath(p) && IsDigest(inventory[p]))
    && (forall p, q :: p in inventory && q in inventory && lower(p) == lower(q) ==> p == q)
  }

  method CheckChromixInventory(lower: Path -> Path, inventory: Inventory) returns (ok: bool)
    ensures ok <==> ValidChromixInventory(lower, inventory)
  {
    var todo, seenCase: set<Path> := inventory.Keys, {};
    while todo != {}
      invariant todo <= inventory.Keys
      invariant forall p :: p in inventory && p !in todo ==> SafeInventoryPath(p) && IsDigest(inventory[p])
      invariant forall p, q :: p in inventory && p !in todo && q in inventory && q !in todo && lower(p) == lower(q) ==>
                  p == q
      invariant forall c :: c in seenCase <==> exists p :: p in inventory && p !in todo && lower(p) == c
      decreases |todo|
    {
      var name :| name in todo;
      if !SafeInventoryPath(name) || !IsDigest(inventory[name]) || lower(name) in seenCase { return false; }
      seenCase := seenCase + {lower(name)};
      todo := todo - {name};
    }
    return true;
  }

  datatype Target = WindowsX64 | LinuxX64

  function ExecutablePath(target: Target): Path { if target.WindowsX64? then ["chrome.exe"] else ["chrome"] }

  function Lookup(inventory: Inventory, p: Path): Option<string> { if p in inventory then Some(inventory[p]) else None }

  /** The record's own hash of the executable is the listed one, and Windows has its library listed. */
  predicate CoreExecutables(target: Target, executableSha256: Option<string>, inventory: Inventory) {
    && Lookup(inventory, ExecutablePath(target)) == executableSha256
    && (target.WindowsX64? ==> ["chrome.dll"] in inventory)
  }

  method VerifyCore(target: Target, executableSha256: Option<string>, inventory: Inventory, root: Listing)
    returns (refusal: Option<Refusal>)
    requires NamesDiffer(root)
    ensures refusal.None? <==>
            && CoreExecutables(target, executableSha256, inventory)
            && ValidCoreInventory(inventory)
            && Good(CorePolicy(), CORE_MANIFEST, inventory, root)
  {
    if Lookup(inventory, ExecutablePath(target)) != executableSha256 { return Some(ProvenanceMismatch); }
    if target.WindowsX64? && ["chrome.dll"] !in inventory { return Some(ProvenanceMismatch); }
    if !ValidCoreInventory(inventory) { return Some(ProvenanceMismatch); }
    refusal := Walk(CorePolicy(), CORE_MANIFEST, inventory, root);
  }

  const EXPECTED_EXECUTABLE_SHA256 := "f37fdf5e7bfad0c1885c9200b9cda5bee51e76975277429e20b8b76625c0abfc"
  const EXPECTED_LIBRARY_SHA256 := "2475c0e9e8ce254c0d70e5556ffa1f778a54ed812489a0b107a6de838a826f3b"
  const EXPECTED_INVENTORY_SHA256 := "ff6264c465e053742d6738e83e2bf987c9968bb6a6e146f87e051423f6380cfb"
  const EXPECTED_FILES := 681

  /** The two pinned files, and the pinned digest of the whole sorted inventory. */
  predicate OfficialInventory(digest: Inventory -> string, inventory: Inventory) {
    && Lookup(inventory, ["chrome.exe"]) == Some(EXPECTED_EXECUTABLE_SHA256)
    && Lookup(inventory, ["chrome.dll"]) == Some(EXPECTED_LIBRARY_SHA256)
    && |inventory| == EXPECTED_FILES && digest(inventory) == EXPECTED_INVENTORY_SHA256
  }

  method VerifyChromix(lower: Path -> Path, digest: Inventory -> string, inventory: Inventory, root: Listing)
    returns (refusal: Option<Refusal>)
    requires NamesDiffer(root)
    ensures refusal.None? <==>
            && OfficialInventory(digest, inventory)
            && ValidChromixInventory(lower, inventory)
            && Good(ChromixPolicy(lower), CHROMIX_MANIFEST, inventory, root)
  {
    if Lookup(inventory, ["chrome.exe"]) != Some(EXPECTED_EXECUTABLE_SHA256) { return Some(ProvenanceMismatch); }
    if Lookup(inventory, ["chrome.dll"]) != Some(EXPECTED_LIBRARY_SHA256) { return Some(ProvenanceMismatch); }
    var ok := CheckChromixInventory(lower, inventory);
    if !ok { return Some(ProvenanceMismatch); }
    if |inventory| != EXPECTED_FILES || digest(inventory) != EXPECTED_INVENTORY_SHA256 {
      return Some(ProvenanceMismatch);
    }
    refusal := Walk(ChromixPolicy(lower), CHROMIX_MANIFEST, inventory, root);
  }

  /** The stricter policy only adds to the plain one: what it accepts, a plain walk accepts too. */
  lemma {:induction false} ChromixIsStricter(lower: Path -> Path, prefix: Path, l: Listing)
    requires Clean(ChromixPolicy(lower), prefix, l)
    ensures Clean(CorePolicy(), prefix, l)
    decreases l
  {
    if l.Entry? {
      if l.node.Directory? { ChromixIsStricter(lower, prefix + [l.name], l.node.listing); }
      ChromixIsStricter(lower, prefix, l.rest);
    }
  }

  // ---------------------------------------------------------------- what acceptance means

  /** The entry at a path below a directory, if the directories lead there. */
  function EntryAt(l: Listing, path: Path): Option<Node>
    requires path != []
    decreases |path|, l
  {
    if l.End? then None
    else if l.name != path[0] then EntryAt(l.rest, path)
    else if |path| == 1 then Some(l.node)
    else if l.node.Directory? then EntryAt(l.node.listing, path[1..])
    else None
  }

  /** In a clean tree every entry at any depth is a regular file or a directory that the policy lets pass. */
  lemma {:induction false} CleanEntries(policy: (Path, Node) -> bool, prefix: Path, l: Listing, path: Path)
    requires path != [] && Clean(policy, prefix, l) && EntryAt(l, path).Some?
    ensures var node := EntryAt(l, path).value; (node.File? || node.Directory?) && policy(prefix + path, node)
    decreases |path|, l
  {
    if l.name != path[0] {
      CleanEntries(policy, prefix, l.rest, path);
    } else if |path| == 1 {
      assert prefix + path == prefix + [l.name];
    } else {
      CleanEntries(policy, prefix + [l.name], l.node.listing, path[1..]);
      assert prefix + [l.name] + path[1..] == prefix + path;
    }
  }

  /** Names a path may have in neither inventory: empty, relative, with a backslash or a colon. */
  predicate BadName(part: string) { part == "" || part == "." || part == ".." || '\\' in part || ':' in part }

  /** What is in the way of a path in each of the two inventories. */
  lemma NamesAreChecked(p: Path)
    ensures CorePath(p) <==> p != ["build-provenance.json"] && forall i :: 0 <= i < |p| ==> !BadName(p[i])
    ensures SafeInventoryPath(p) <==>
            p != ["chromix-install.json"] &&
            forall i :: 0 <= i < |p| ==>
              !BadName(p[i]) && '\0' !in p[i] && p[i][|p[i]| - 1] !in {'.', ' '}
  {
  }

  /** The stricter walk passes its own manifest, and safe names that are not the manifest in other letters. */
  lemma PolicyChecksNames(lower: Path -> Path, p: Path, node: Node)
    ensures ChromixPolicy(lower)(p, node) <==>
            p == ["chromix-install.json"] || (SafeInventoryPath(p) && lower(p) != ["chromix-install.json"])
  {
  }

  /** An accepted core has the executable of its platform with the recorded hash, and on Windows the library. */
  lemma AcceptedCoreHasItsFiles(target: Target, hash: string, inventory: Inventory, root: Listing)
    requires CoreExecutables(target, Some(hash), inventory) && ValidCoreInventory(inventory)
    requires Good(CorePolicy(), CORE_MANIFEST, inventory, root)
    ensures FoundFile(if target == WindowsX64 then ["chrome.exe"] else ["chrome"], hash) in Files([], root)
    ensures target == WindowsX64 ==> exists h :: FoundFile(["chrome.dll"], h) in Files([], root)
  {
    var path := ExecutablePath(target);
    assert PathIn(path, Files([], root));
    if target == WindowsX64 {
      assert PathIn(["chrome.dll"], Files([], root));
      var f :| f in Files([], root) && f.path == ["chrome.dll"];
      assert FoundFile(["chrome.dll"], f.hash) in Files([], root);
    }
  }

  predicate IsLowerHex(s: string) {
    forall c :: c in s ==> c in {'0', '1', '2', '3', '4', '5', '6', '7', '8', '9', 'a', 'b', 'c', 'd', 'e', 'f'}
  }

  lemma DigestsAreHex(s: string)
    ensures IsDigest(s) <==> |s| == 64 && IsLowerHex(s)
  {
    if |s| == 64 && !IsDigest(s) {
      var i :| 0 <= i < |s| && !('0' <= s[i] <= '9' || 'a' <= s[i] <= 'f');
      assert s[i] in s;
    }
  }

  /** What refuses an inventory: an unsafe name, a malformed digest, or two names that differ only by case. */
  lemma InventoriesAreChecked(lower: Path -> Path, inventory: Inventory)
    ensures !ValidChromixInventory(lower, inventory) <==>
            || (exists p :: p in inventory &&
                  (!SafeInventoryPath(p) || |inventory[p]| != 64 || !IsLowerHex(inventory[p])))
            || (exists p, q :: p in inventory && q in inventory && p != q && lower(p) == lower(q))
  {
    forall p | p in inventory ensures IsDigest(inventory[p]) <==> |inventory[p]| == 64 && IsLowerHex(inventory[p]) {
      DigestsAreHex(inventory[p]);
    }
  }
}
