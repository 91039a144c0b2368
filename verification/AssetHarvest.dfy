/** src/asset_cache.py, `touch`, `harvest` and `mounts`: how a project's persistent
    cache takes in the files a job left, and what a build container then sees. */
module AssetHarvest {
  import opened Common
  import opened FileTree
  import opened CacheNames

  // ------------------------------------------------- the persistent cache

  datatype Entry = FileEntry(content: Bytes) | DirEntry

  /** A project's cache directory: what is at each path below it. */
  type Cache = map<Path, Entry>

  /** Whatever is there is there inside a directory. */
  predicate Rooted(c: Cache) {
    forall p :: p in c ==> forall k :: 0 < k < |p| ==> p[..k] in c && c[p[..k]].DirEntry?
  }

  /** It is enough that each entry is in a directory that is there. */
  lemma RootedIff(c: Cache)
    ensures Rooted(c) <==> forall p :: p in c && |p| > 1 ==> Parent(p) in c && c[Parent(p)] == DirEntry
  {
    if forall p :: p in c && |p| > 1 ==> Parent(p) in c && c[Parent(p)] == DirEntry {
      forall p, k | p in c && 0 < k < |p| ensures p[..k] in c && c[p[..k]].DirEntry? { AboveIsDir(c, p, k); }
    }
  }

  lemma {:induction false} AboveIsDir(c: Cache, p: Path, k: nat)
    requires forall q :: q in c && |q| > 1 ==> Parent(q) in c && c[Parent(q)] == DirEntry
    requires p in c && 0 < k < |p|
    ensures p[..k] in c && c[p[..k]].DirEntry?
    decreases |p|
  {
    if k < |p| - 1 {
      AboveIsDir(c, Parent(p), k);
      assert Parent(p)[..k] == p[..k];
    }
  }

  /** `os.makedirs(dir, exist_ok=True)` raises: a file stands in the way, or a missing
      directory cannot be made (the disk is full, say). */
  predicate Blocked(c: Cache, dir: Path, fails: set<Path>) {
    exists k :: 0 < k <= |dir| && Stops(c, dir[..k], fails)
  }

  predicate Stops(c: Cache, dir: Path, fails: set<Path>) {
    if dir in c then c[dir].FileEntry? else dir in fails
  }

  function Prefixes(dir: Path): set<Path> {
    set k | 0 < k <= |dir| :: dir[..k]
  }

  function MakeDirs(c: Cache, dir: Path): Cache {
    c + map p | p in Prefixes(dir) :: DirEntry
  }

  /** How many directories on the way are there or can be made, before one stops it. */
  function Reached(c: Cache, dir: Path, fails: set<Path>, k: nat): (n: nat)
    requires k <= |dir|
    ensures k <= n <= |dir|
    ensures forall i :: k < i <= n ==> !Stops(c, dir[..i], fails)
    ensures n < |dir| ==> Stops(c, dir[..n + 1], fails)
    decreases |dir| - k
  {
    if k == |dir| || Stops(c, dir[..k + 1], fails) then k else Reached(c, dir, fails, k + 1)
  }

  /** `os.makedirs` goes down from the top: what it leaves, whether it raises or not. */
  function MakeDirsUntil(c: Cache, dir: Path, fails: set<Path>): Cache {
    MakeDirs(c, dir[..Reached(c, dir, fails, 0)])
  }

  function Parent(p: Path): Path
    requires p != []
  {
    p[..|p| - 1]
  }

  // -------------------------------------------------- what a job offers

  /** A file to copy: its path below the cache root, which is also its path below
      the project's cache directory, and its content. */
  type Item = i: (Path, Bytes) | i.0 != [] witness ([""], [])

  /** The loop body's two tests: named like a cache file, and a regular file rather
      than a link or a device. */
  function KeyFile(found: Found): seq<Item> {
    var (path, node) := found;
    if path != [] && CacheFilename(path[|path| - 1]) && node.File? then [(path, node.content)] else []
  }

  const PLAINLY: string -> bool := name => SubdirName(name)

  /** The real directory of one asset type, if the job left one. */
  function TypeDir(cacheRoot: Forest, assetType: string): Option<Forest> {
    match Find(cacheRoot, assetType)
    case Some(Dir(kids)) => Some(kids)
    case _ => None
  }

  function OfType(cacheRoot: Forest, assetType: string): seq<Item> {
    match TypeDir(cacheRoot, assetType)
    case Some(kids) => Select(Walk(kids, [assetType], PLAINLY), KeyFile)
    case None => []
  }

  /** Everything `harvest` considers, in the order it considers it. */
  function Offered(cacheRoot: Forest, types: seq<string>): seq<Item> {
    if types == [] then [] else OfType(cacheRoot, types[0]) + Offered(cacheRoot, types[1..])
  }

  /** The same by direct lookup: below the directory of a configured type, through real
      directories with plain names, to a regular file named like a cache file. */
  predicate Eligible(cacheRoot: Forest, types: seq<string>, path: Path, content: Bytes) {
    && |path| >= 2
    && path[0] in types
    && (forall i :: 0 < i < |path| - 1 ==> SubdirName(path[i]))
    && CacheFilename(path[|path| - 1])
    && Reach(cacheRoot, path, EVERYWHERE) == Some(File(content))
  }

  lemma KeyFileMembers(found: seq<Found>, item: Item)
    ensures item in Select(found, KeyFile) <==>
            item.0 != [] && CacheFilename(item.0[|item.0| - 1]) && (item.0, File(item.1)) in found
  {
    SelectMembers(found, KeyFile, item);
    forall f | item in KeyFile(f) ensures f == (item.0, File(item.1)) {
    }
    assert item.0 != [] && CacheFilename(item.0[|item.0| - 1]) ==> item in KeyFile((item.0, File(item.1)));
  }

  lemma {:induction false} WellFormedKids(f: Forest, name: string)
    requires WellFormed(f)
    ensures Find(f, name).Some? && Find(f, name).value.Dir? ==> WellFormed(Find(f, name).value.kids)
  {
    if f.Cons? && f.name != name {
      WellFormedKids(f.rest, name);
    }
  }

  /** The walk through plainly named directories gets where those lead. */
  lemma {:induction false} ReachPlainly(f: Forest, path: Path, node: Node)
    ensures Reach(f, path, PLAINLY) == Some(node) <==>
            Reach(f, path, EVERYWHERE) == Some(node) && forall i :: 0 <= i < |path| - 1 ==> SubdirName(path[i])
    decreases |path|
  {
    if |path| > 1 {
      match Find(f, path[0])
      case Some(Dir(kids)) =>
        ReachPlainly(kids, path[1..], node);
        assert forall i :: 0 < i < |path| - 1 ==> path[i] == path[1..][i - 1];
      case _ =>
    }
  }

  lemma EligibleBelow(cacheRoot: Forest, types: seq<string>, path: Path, content: Bytes)
    ensures Eligible(cacheRoot, types, path, content) <==>
            && |path| >= 2 && path[0] in types && CacheFilename(path[|path| - 1])
            && match TypeDir(cacheRoot, path[0])
               case Some(kids) => Reach(kids, path[1..], PLAINLY) == Some(File(content))
               case None => false
  {
    hide CacheFilename, SubdirName;
    if |path| >= 2 {
      match TypeDir(cacheRoot, path[0])
      case None =>
      case Some(kids) =>
        ReachPlainly(kids, path[1..], File(content));
        assert forall i :: 0 < i < |path| - 1 ==> path[i] == path[1..][i - 1];
    }
  }

  lemma OfTypeIsEligible(cacheRoot: Forest, assetType: string, item: Item)
    requires WellFormed(cacheRoot)
    ensures item in OfType(cacheRoot, assetType) <==>
            Eligible(cacheRoot, [assetType], item.0, item.1)
  {
    EligibleBelow(cacheRoot, [assetType], item.0, item.1);
    hide Eligible;
    match TypeDir(cacheRoot, assetType)
    case None =>
    case Some(kids) =>
      hide CacheFilename, Walk, Select, KeyFile, Reach;
      WellFormedKids(cacheRoot, assetType);
      KeyFileMembers(Walk(kids, [assetType], PLAINLY), item);
      WalkIsReach(kids, [assetType], PLAINLY, (item.0, File(item.1)));
      if |item.0| > 1 { assert item.0[..1] == [item.0[0]]; }
  }

  /** For every finite tree, the walk offers exactly the eligible files. */
  lemma {:induction false} OfferedAreEligible(cacheRoot: Forest, types: seq<string>, item: Item)
    requires WellFormed(cacheRoot)
    ensures item in Offered(cacheRoot, types) <==> Eligible(cacheRoot, types, item.0, item.1)
  {
    if types != [] {
      OfTypeIsEligible(cacheRoot, types[0], item);
      OfferedAreEligible(cacheRoot, types[1..], item);
      assert types == [types[0]] + types[1..];
    }
  }

  // --------------------------------------------------- the meaning of a harvest

  /** What the loop has done: the cache it leaves, the paths it added, and whether
      making a directory raised (which no handler in `harvest` catches). */
  datatype HarvestOutcome = HarvestOutcome(cache: Cache, added: seq<Path>, raised: bool)

  /** Offer the items in turn. `fails` holds the paths where the file system refuses: a
      copy that raises is logged and skipped. */
  function Harvested(c: Cache, items: seq<Item>, fails: set<Path>): HarvestOutcome
    decreases |items|
  {
    if items == [] then HarvestOutcome(c, [], false)
    else
      var (path, content) := items[0];
      if path in c then Harvested(c, items[1..], fails)
      else if Blocked(c, Parent(path), fails) then HarvestOutcome(MakeDirsUntil(c, Parent(path), fails), [], true)
      else
        var made := MakeDirs(c, Parent(path));
        if path in fails then Harvested(made, items[1..], fails)
        else
          var rest := Harvested(made[path := FileEntry(content)], items[1..], fails);
          rest.(added := [path] + rest.added)
  }

  /** The shape of every offered path. */
  predicate ItemShape(path: Path) {
    && |path| >= 2
    && CacheFilename(path[|path| - 1])
    && forall i :: 0 < i < |path| - 1 ==> SubdirName(path[i])
  }

  predicate ItemShapes(items: seq<Item>) {
    forall item :: item in items ==> ItemShape(item.0)
  }

  predicate Consistent(items: seq<Item>) {
    forall a, b :: a in items && b in items && a.0 == b.0 ==> a.1 == b.1
  }

  /** A directory made for one item is never where a cache file goes. */
  lemma ParentsAreNoItems(path: Path, other: Path, k: nat)
    requires ItemShape(path) && ItemShape(other) && k < |path|
    ensures path[..k] != other
  {
    if 2 <= k {
      SubdirIsNoCacheFile(path[k - 1]);
      assert path[..k][k - 1] == path[k - 1];
    }
  }

  lemma OfferedShapes(cacheRoot: Forest, types: seq<string>)
    requires WellFormed(cacheRoot)
    ensures ItemShapes(Offered(cacheRoot, types)) && Consistent(Offered(cacheRoot, types))
  {
    forall item | item in Offered(cacheRoot, types) ensures ItemShape(item.0) {
      OfferedAreEligible(cacheRoot, types, item);
    }
    forall a, b | a in Offered(cacheRoot, types) && b in Offered(cacheRoot, types) && a.0 == b.0
      ensures a.1 == b.1
    {
      OfferedAreEligible(cacheRoot, types, a);
      OfferedAreEligible(cacheRoot, types, b);
    }
  }

  /** The cache after one item that was neither there nor blocked. */
  function Stored(c: Cache, item: Item, fails: set<Path>): Cache {
    var made := MakeDirs(c, Parent(item.0));
    if item.0 in fails then made else made[item.0 := FileEntry(item.1)]
  }

  lemma DirsKeep(c: Cache, dir: Path, fails: set<Path>)
    requires Rooted(c) && !Blocked(c, dir, fails)
    ensures var d := MakeDirs(c, dir);
            && Rooted(d)
            && (forall p :: p in c ==> p in d && d[p] == c[p])
            && (forall p :: p in d && p !in c ==> p in Prefixes(dir) && d[p].DirEntry?)
            && (forall p :: p in Prefixes(dir) ==> p in d && d[p].DirEntry?)
  {
    var d := MakeDirs(c, dir);
    forall p | p in Prefixes(dir) ensures p in c ==> c[p].DirEntry? {
      var k :| 0 < k <= |dir| && dir[..k] == p;
      assert !Stops(c, dir[..k], fails);
    }
    forall p, k | p in d && 0 < k < |p| ensures p[..k] in d && d[p[..k]].DirEntry? {
      if p in c {
        assert p[..k] in c;
      } else {
        var n :| 0 < n <= |dir| && dir[..n] == p;
        assert p[..k] == dir[..k] && p[..k] in Prefixes(dir);
      }
    }
  }

  /** A call that raises has made directories at most. */
  lemma DirsUntilKeep(c: Cache, dir: Path, fails: set<Path>)
    requires Rooted(c)
    ensures var d := MakeDirsUntil(c, dir, fails);
            && Rooted(d)
            && (forall p :: p in c ==> p in d && d[p] == c[p])
            && (forall p :: p in d && p !in c ==> p in Prefixes(dir) && d[p].DirEntry?)
  {
    var n := Reached(c, dir, fails, 0);
    var made := dir[..n];
    assert forall k :: 0 < k <= n ==> made[..k] == dir[..k];
    DirsKeep(c, made, fails);
    forall p | p in Prefixes(made) ensures p in Prefixes(dir) {
      var k :| 0 < k <= n && made[..k] == p;
      assert dir[..k] == p;
    }
  }

  lemma StoredKeeps(c: Cache, item: Item, fails: set<Path>)
    requires ItemShape(item.0) && Rooted(c) && item.0 !in c && !Blocked(c, Parent(item.0), fails)
    ensures var d := Stored(c, item, fails);
            && Rooted(d)
            && (forall p :: p in c ==> p in d && d[p] == c[p])
            && (forall p :: p in d && p !in c ==>
                  (p == item.0 && p !in fails && d[p] == FileEntry(item.1)) || (p in Prefixes(Parent(item.0)) && d[p].DirEntry?))
  {
    var d := Stored(c, item, fails);
    var dir := Parent(item.0);
    var made := MakeDirs(c, dir);
    DirsKeep(c, dir, fails);
    forall p | p in Prefixes(dir) ensures |p| < |item.0| {
      var k :| 0 < k <= |dir| && dir[..k] == p;
    }
    assert item.0 !in made;
    forall p, k | p in d && 0 < k < |p| ensures p[..k] in d && d[p[..k]].DirEntry? {
      if p == item.0 {
        assert p[..k] == dir[..k] && p[..k] in Prefixes(dir);
      } else {
        assert p in made && p[..k] in made;
      }
    }
  }

  /** Storing one item blocks, or unblocks, no other. */
  lemma StoredBlocksNothing(c: Cache, item: Item, fails: set<Path>, other: Path)
    requires ItemShape(item.0) && ItemShape(other) && Rooted(c) && item.0 !in c && !Blocked(c, Parent(item.0), fails)
    ensures Blocked(Stored(c, item, fails), Parent(other), fails) <==> Blocked(c, Parent(other), fails)
  {
    var d := Stored(c, item, fails);
    var dir := Parent(other);
    StoredKeeps(c, item, fails);
    forall k | 0 < k <= |dir| ensures Stops(d, dir[..k], fails) <==> Stops(c, dir[..k], fails) {
      assert dir[..k] == other[..k];
      ParentsAreNoItems(other, item.0, k);
      if dir[..k] in d && dir[..k] !in c {
        var m :| 0 < m <= |Parent(item.0)| && Parent(item.0)[..m] == dir[..k];
        assert !Stops(c, Parent(item.0)[..m], fails);
      }
    }
  }

  /** An offered path that is not stored is not created on the way either. */
  lemma StoredCreatesNoItem(c: Cache, item: Item, fails: set<Path>, other: Path)
    requires ItemShape(item.0) && ItemShape(other) && Rooted(c) && item.0 !in c && !Blocked(c, Parent(item.0), fails)
    ensures other in Stored(c, item, fails) <==> other in c || (other == item.0 && other !in fails)
  {
    StoredKeeps(c, item, fails);
    var dir := Parent(item.0);
    if other in Prefixes(dir) {
      var k :| 0 < k <= |dir| && dir[..k] == other;
      assert other == item.0[..k];
      ParentsAreNoItems(item.0, other, k);
    }
  }

  predicate Distinct(paths: seq<Path>) {
    forall i, j :: 0 <= i < j < |paths| ==> paths[i] != paths[j]
  }

  /** A harvest only adds: every entry that was there stays as it was, and what is
      new is an offered file with its content or a directory on the way to one. */
  lemma {:induction false} HarvestOnlyAdds(c: Cache, items: seq<Item>, fails: set<Path>)
    requires ItemShapes(items) && Rooted(c)
    ensures var h := Harvested(c, items, fails);
            && Rooted(h.cache)
            && (forall p :: p in c ==> p in h.cache && h.cache[p] == c[p])
            && (forall p :: p in h.cache && p !in c ==>
                  h.cache[p].DirEntry? || (p, h.cache[p].content) in items)
    decreases |items|
  {
    if items != [] {
      var item := items[0];
      assert item in items;
      assert forall i :: i in items[1..] ==> i in items;
      if item.0 in c {
        HarvestOnlyAdds(c, items[1..], fails);
      } else if Blocked(c, Parent(item.0), fails) {
        DirsUntilKeep(c, Parent(item.0), fails);
      } else {
        StoredKeeps(c, item, fails);
        HarvestOnlyAdds(Stored(c, item, fails), items[1..], fails);
      }
    }
  }

  lemma HarvestStep(c: Cache, items: seq<Item>, fails: set<Path>)
    requires items != [] && items[0].0 !in c && !Blocked(c, Parent(items[0].0), fails)
    ensures var rest := Harvested(Stored(c, items[0], fails), items[1..], fails);
            Harvested(c, items, fails) ==
            if items[0].0 in fails then rest else rest.(added := [items[0].0] + rest.added)
  {
  }

  /** The returned list has no repetitions and names exactly the new files. */
  lemma {:induction false} HarvestReportsExactly(c: Cache, items: seq<Item>, fails: set<Path>)
    requires ItemShapes(items) && Rooted(c)
    ensures var h := Harvested(c, items, fails);
            && Distinct(h.added)
            && forall p :: p in h.added <==> p in h.cache && p !in c && h.cache[p].FileEntry?
    decreases |items|
  {
    hide Blocked, Rooted, ItemShape;
    if items != [] {
      var item := items[0];
      assert item in items;
      assert forall i :: i in items[1..] ==> i in items;
      if item.0 in c {
        HarvestReportsExactly(c, items[1..], fails);
      } else if Blocked(c, Parent(item.0), fails) {
        DirsUntilKeep(c, Parent(item.0), fails);
      } else {
        HarvestStep(c, items, fails);
        StoredKeeps(c, item, fails);
        hide Stored, MakeDirs, Harvested;
        var d := Stored(c, item, fails);
        HarvestReportsExactly(d, items[1..], fails);
        HarvestOnlyAdds(d, items[1..], fails);
        var rest := Harvested(d, items[1..], fails);
        assert item.0 in d ==> item.0 !in rest.added;
        forall p ensures p in Harvested(c, items, fails).added <==>
                         p in rest.cache && p !in c && rest.cache[p].FileEntry? {
          if p in d && p !in c && d[p].FileEntry? { assert p == item.0; }
        }
      }
    }
  }

  /** When nothing raised, every offered file is in the cache unless its copy failed;
      and a path whose copy failed is there only if it was there before. */
  lemma {:induction false} HarvestIsComplete(c: Cache, items: seq<Item>, fails: set<Path>, path: Path)
    requires ItemShapes(items) && Rooted(c) && ItemShape(path)
    requires !Harvested(c, items, fails).raised
    ensures path in Harvested(c, items, fails).cache <==>
            path in c || (path !in fails && exists item :: item in items && item.0 == path)
    decreases |items|
  {
    if items != [] {
      var item := items[0];
      assert item in items;
      assert forall i :: i in items <==> i == item || i in items[1..];
      if item.0 in c {
        HarvestIsComplete(c, items[1..], fails, path);
      } else {
        StoredKeeps(c, item, fails);
        StoredCreatesNoItem(c, item, fails, path);
        HarvestIsComplete(Stored(c, item, fails), items[1..], fails, path);
      }
    }
  }

  lemma {:induction false} RaisesIfBlocked(c: Cache, items: seq<Item>, fails: set<Path>)
    requires ItemShapes(items) && Rooted(c)
    ensures Harvested(c, items, fails).raised <==>
            exists item :: item in items && item.0 !in c && Blocked(c, Parent(item.0), fails)
    decreases |items|
  {
    if items != [] {
      var item := items[0];
      assert item in items;
      assert forall i :: i in items <==> i == item || i in items[1..];
      if item.0 in c {
        RaisesIfBlocked(c, items[1..], fails);
      } else if !Blocked(c, Parent(item.0), fails) {
        StoredKeeps(c, item, fails);
        var d := Stored(c, item, fails);
        RaisesIfBlocked(d, items[1..], fails);
        forall i | i in items[1..]
          ensures i.0 !in d && Blocked(d, Parent(i.0), fails) <==> i.0 !in c && Blocked(c, Parent(i.0), fails)
        {
          StoredBlocksNothing(c, item, fails, i.0);
          StoredCreatesNoItem(c, item, fails, i.0);
        }
      }
    }
  }

  /** A harvest raises exactly when some offered file that is not there yet has a
      cached FILE where one of its directories should be, or a missing directory that
      cannot be made: a condition on the cache before the call. */
  lemma HarvestRaisesIff(c: Cache, items: seq<Item>, fails: set<Path>)
    requires ItemShapes(items) && Rooted(c)
    ensures Harvested(c, items, fails).raised <==>
            exists item, k ::
              item in items && item.0 !in c && 0 < k < |item.0| &&
              if item.0[..k] in c then c[item.0[..k]].FileEntry? else item.0[..k] in fails
  {
    RaisesIfBlocked(c, items, fails);
    hide Harvested, Rooted, ItemShapes;
    assert forall item: Item, k :: 0 < k < |item.0| ==> Parent(item.0)[..k] == item.0[..k];
    if item, k :| item in items && item.0 !in c && 0 < k < |item.0| && Stops(c, item.0[..k], fails) {
      assert Stops(c, Parent(item.0)[..k], fails);
    }
  }

  /** What a call that makes directories leaves, whether it raises or not: each one on the
      way, down to the first that a file stands in the way of or that cannot be made. */
  lemma DirsAreMadeUntil(c: Cache, dir: Path, fails: set<Path>, path: Path)
    ensures path in MakeDirsUntil(c, dir, fails) <==>
            || path in c
            || (&& 0 < |path| <= |dir| && path == dir[..|path|]
                && forall i :: 0 < i <= |path| ==> if dir[..i] in c then c[dir[..i]].DirEntry? else dir[..i] !in fails)
  {
    var n := Reached(c, dir, fails, 0);
    assert forall i :: 0 < i <= n ==> dir[..n][..i] == dir[..i];
    if path in Prefixes(dir[..n]) { assert path == dir[..|path|]; }
    if 0 < |path| <= |dir| && path == dir[..|path|] {
      if |path| <= n {
        assert path == dir[..n][..|path|];
        assert forall i :: 0 < i <= |path| ==> !Stops(c, dir[..i], fails);
      } else {
        assert Stops(c, dir[..n + 1], fails);
      }
    }
  }

  /** Some offered file has no entry yet and its copy does not fail, and no file before
      it, nor it itself, stops the harvest: a condition on the cache before the call. */
  predicate HasFileToStore(c: Cache, items: seq<Item>, fails: set<Path>) {
    exists i :: 0 <= i < |items| && items[i].0 !in c && items[i].0 !in fails && Gets(c, items, fails, i)
  }

  /** The harvest gets past the items up to this one. */
  predicate Gets(c: Cache, items: seq<Item>, fails: set<Path>, i: nat)
    requires i < |items|
  {
    forall j :: 0 <= j <= i ==> items[j].0 in c || !Blocked(c, Parent(items[j].0), fails)
  }

  lemma FirstFileToStore(c: Cache, items: seq<Item>, fails: set<Path>)
    requires items != []
    ensures HasFileToStore(c, items, fails) <==>
            && (items[0].0 in c || !Blocked(c, Parent(items[0].0), fails))
            && ((items[0].0 !in c && items[0].0 !in fails) || HasFileToStore(c, items[1..], fails))
  {
    if i :| 0 <= i < |items| && items[i].0 !in c && items[i].0 !in fails && Gets(c, items, fails, i) {
      if i > 0 {
        assert items[1..][i - 1] == items[i];
        assert forall j :: 0 <= j <= i - 1 ==> items[1..][j] == items[j + 1];
        assert Gets(c, items[1..], fails, i - 1);
      }
    }
    if items[0].0 in c || !Blocked(c, Parent(items[0].0), fails) {
      if items[0].0 !in c && items[0].0 !in fails { assert Gets(c, items, fails, 0); }
      if i :| 0 <= i < |items[1..]| && items[1..][i].0 !in c && items[1..][i].0 !in fails && Gets(c, items[1..], fails, i) {
        assert forall j :: 0 < j <= i + 1 ==> items[j] == items[1..][j - 1];
        assert Gets(c, items, fails, i + 1) && items[i + 1].0 !in c;
      }
    }
  }

  /** A failed copy leaves directories at most, so it changes nothing for what follows. */
  lemma {:induction false} FailedCopyChangesNothing(c: Cache, item: Item, rest: seq<Item>, fails: set<Path>)
    requires ItemShape(item.0) && ItemShapes(rest) && Rooted(c) && item.0 !in c && item.0 in fails
    requires !Blocked(c, Parent(item.0), fails)
    ensures HasFileToStore(Stored(c, item, fails), rest, fails) <==> HasFileToStore(c, rest, fails)
    decreases |rest|
  {
    if rest != [] {
      assert rest[0] in rest && forall i :: i in rest[1..] ==> i in rest;
      StoredBlocksNothing(c, item, fails, rest[0].0);
      StoredCreatesNoItem(c, item, fails, rest[0].0);
      FirstFileToStore(c, rest, fails);
      FirstFileToStore(Stored(c, item, fails), rest, fails);
      FailedCopyChangesNothing(c, item, rest[1..], fails);
    }
  }

  /** Exactly when a harvest copies anything at all. */
  lemma {:induction false} HarvestCopiesIff(c: Cache, items: seq<Item>, fails: set<Path>)
    requires ItemShapes(items) && Rooted(c)
    ensures Harvested(c, items, fails).added != [] <==> HasFileToStore(c, items, fails)
    decreases |items|
  {
    if items != [] {
      var item := items[0];
      assert item in items && forall i :: i in items[1..] ==> i in items;
      FirstFileToStore(c, items, fails);
      if item.0 in c {
        HarvestCopiesIff(c, items[1..], fails);
      } else if !Blocked(c, Parent(item.0), fails) && item.0 in fails {
        HarvestStep(c, items, fails);
        StoredKeeps(c, item, fails);
        HarvestCopiesIff(Stored(c, item, fails), items[1..], fails);
        FailedCopyChangesNothing(c, item, items[1..], fails);
      }
    }
  }
}
