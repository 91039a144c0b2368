/** src/build.py:239-257 and `mounts` in src/asset_cache.py: what a job's container
    sees under its generated-asset cache after touch, harvest and mount, or after
    the fallback that runs the job without the project's cache. */
module BuildMounts {
  import opened Common
  import opened FileTree
  import opened CacheNames
  import opened AssetHarvest
  import opened ProjectCaches

  datatype Kind = Build | Generate

  /** What stands at a directory path of the job: `Linked` is a symbolic link and
      the tree it leads to. */
  datatype JobDir = Missing | RealDir(tree: Forest) | Linked(target: Forest) | NotADir

  /** What `os.path.isdir` and `os.walk` find there. */
  function TreeAt(d: JobDir): Forest {
    match d
    case RealDir(tree) => tree
    case Linked(target) => target
    case _ => Nil
  }

  // ------------------------------------------------------------ mount points

  function AddDir(f: Forest, name: string): Forest {
    match f
    case Nil => Cons(name, Dir(Nil), Nil)
    case Cons(n, node, rest) => Cons(n, node, AddDir(rest, name))
  }

  /** `os.makedirs(cache_root/type, exist_ok=True)` raises where the name is taken
      by something that is not, and does not lead to, a directory. */
  predicate Mountable(f: Forest, name: string) {
    match Find(f, name)
    case None => true
    case Some(node) => node.Dir? || (node.Link? && node.toDir)
  }

  /** The cache root after the mount points of the types have been made, up to the
      first call that raises, and whether none did. After `reach` mount points the next
      call does, if there are that many. */
  function MountPoints(f: Forest, types: seq<string>, reach: nat): (Forest, bool)
    decreases |types|
  {
    if types == [] then (f, true)
    else if reach == 0 || !Mountable(f, types[0]) then (f, false)
    else MountPoints(if Find(f, types[0]).None? then AddDir(f, types[0]) else f, types[1..], reach - 1)
  }

  lemma {:induction false} FindAfterAddDir(f: Forest, name: string, other: string)
    requires Find(f, name).None?
    ensures Find(AddDir(f, name), other) == if other == name then Some(Dir(Nil)) else Find(f, other)
  {
    if f.Cons? {
      FindAfterAddDir(f.rest, name, other);
    }
  }

  lemma {:induction false} MountPointsKeepEntries(f: Forest, types: seq<string>, reach: nat, name: string)
    requires Find(f, name).Some?
    ensures Find(MountPoints(f, types, reach).0, name) == Find(f, name)
    decreases |types|
  {
    if types != [] && reach > 0 && Mountable(f, types[0]) {
      if Find(f, types[0]).None? {
        FindAfterAddDir(f, types[0], name);
        MountPointsKeepEntries(AddDir(f, types[0]), types[1..], reach - 1, name);
      } else {
        MountPointsKeepEntries(f, types[1..], reach - 1, name);
      }
    }
  }

  // ---------------------------------------------------------- the preparation

  /** The project's cache, the types mounted over the job's own, and the job's
      cache root, when the container is about to start. */
  datatype Prepared = Prepared(cache: Cache, mounted: set<string>, work: JobDir)

  function SetOf(types: seq<string>): set<string> {
    set t | t in types
  }

  /** Which system calls raise: at the paths the file system refuses, after so many of
      the directories `touch` makes, and after so many mount points. */
  datatype Faults = Faults(fails: set<Path>, touchReach: nat, mountReach: nat)

  /** The `try` block. Any exception leaves the job with no mount but its own
      directory; what was changed before it stays. */
  function Prepare(c: Cache, projectId: string, kind: Kind, work: JobDir, types: seq<string>, faults: Faults): Prepared {
    var (touched, stamped) := Touched(c, types, faults.fails, faults.touchReach);
    if !ProjectId(projectId) then Prepared(c, {}, work)
    else if !stamped || kind == Generate then Prepared(touched, {}, work)
    else
      var h := Harvested(touched, Offered(TreeAt(work), types), faults.fails);
      if h.raised || work.NotADir? then Prepared(h.cache, {}, work)
      else
        var (made, all) := MountPoints(TreeAt(work), types, faults.mountReach);
        Prepared(h.cache, if all then SetOf(types) else {}, if work.Linked? then Linked(made) else RealDir(made))
  }

  /** The same as the source runs it, on the project's cache object. */
  method PrepareVolumes(cache: ProjectCache, projectId: string, kind: Kind, work: JobDir, types: seq<string>,
                        faults: Faults, now: int)
    returns (mounted: set<string>, cacheRoot: JobDir)
    modifies cache
    ensures Prepared(cache.entries, mounted, cacheRoot) ==
            Prepare(old(cache.entries), projectId, kind, work, types, faults)
  {
    mounted, cacheRoot := {}, work;
    var touched := cache.Touch(projectId, types, faults.fails, faults.touchReach, now);
    if touched.Err? || kind == Generate {
      return;
    }
    var seeded := cache.Harvest(projectId, TreeAt(work), types, faults.fails);
    if seeded.Err? || work.NotADir? {
      return;
    }
    var (made, all) := MountPoints(TreeAt(work), types, faults.mountReach);
    cacheRoot := if work.Linked? then Linked(made) else RealDir(made);
    if all {
      mounted := SetOf(types);
    }
  }

  // -------------------------------------------------------- the container's view

  /** What the container finds at a path below its cache root. */
  function View(p: Prepared, path: Path): Option<AssetHarvest.Entry>
    requires path != []
  {
    if path[0] in p.mounted then (if path in p.cache then Some(p.cache[path]) else None)
    else
      match Reach(TreeAt(p.work), path, EVERYWHERE)
      case Some(File(content)) => Some(FileEntry(content))
      case Some(Dir(_)) => Some(DirEntry)
      case _ => None
  }

  /** Making one type directory adds it, and nothing else. */
  lemma OneDir(c: Cache, assetType: string, fails: set<Path>)
    requires Rooted(c) && !Blocked(c, [assetType], fails)
    ensures var d := MakeDirs(c, [assetType]);
            && Rooted(d)
            && [assetType] in d && d[[assetType]].DirEntry?
            && (forall p :: p in d <==> p in c || p == [assetType])
            && (forall p :: p in c ==> d[p] == c[p])
  {
    var d := MakeDirs(c, [assetType]);
    assert [assetType][..1] == [assetType];
    assert !Stops(c, [assetType], fails);
    forall p ensures p in Prefixes([assetType]) <==> p == [assetType] {
      if p in Prefixes([assetType]) { assert p == [assetType][..1]; }
    }
    forall p, k | p in d && 0 < k < |p| ensures p[..k] in d && d[p[..k]].DirEntry? {
      assert p in c;
    }
  }

  lemma {:induction false} TouchKeeps(c: Cache, types: seq<string>, fails: set<Path>, reach: nat)
    requires Rooted(c)
    ensures var t := Touched(c, types, fails, reach).0;
            && Rooted(t)
            && (forall p :: p in c ==> p in t && t[p] == c[p])
            && (forall p :: p in t && p !in c ==> t[p].DirEntry? && |p| == 1)
    decreases |types|
  {
    hide Blocked, MakeDirs, Rooted;
    if types != [] && reach > 0 && !Blocked(c, [types[0]], fails) {
      OneDir(c, types[0], fails);
      TouchKeeps(MakeDirs(c, [types[0]]), types[1..], fails, reach - 1);
    }
  }

  /** `touch` gets through exactly if no type's directory is stopped by a file, or missing
      and refused, and nothing else raises. Then every type directory is there, and
      nothing else is new. */
  lemma {:induction false} TouchSucceedsIff(c: Cache, types: seq<string>, fails: set<Path>, reach: nat)
    requires Rooted(c)
    ensures var (touched, stamped) := Touched(c, types, fails, reach);
            && (stamped <==> |types| < reach && forall t :: t in types ==> Makeable(c, [t], fails))
            && (stamped ==> forall t :: t in types ==> [t] in touched && touched[[t]] == DirEntry)
            && (stamped ==> forall p :: p in touched <==> p in c || (|p| == 1 && p[0] in types))
            && (stamped ==> forall p :: p in c ==> touched[p] == c[p])
    decreases |types|
  {
    hide Blocked, MakeDirs, Rooted;
    if types != [] {
      BlockedIff(c, types[0], fails);
      assert forall t :: t in types <==> t == types[0] || t in types[1..];
      if reach > 0 && !Blocked(c, [types[0]], fails) {
        OneDir(c, types[0], fails);
        TouchSucceedsIff(MakeDirs(c, [types[0]]), types[1..], fails, reach - 1);
      }
    }
  }

  /** A directory that is there, or can be made in the one above it. */
  predicate Makeable(c: Cache, dir: Path, fails: set<Path>) {
    if dir in c then c[dir] == DirEntry else dir !in fails
  }

  lemma BlockedIff(c: Cache, assetType: string, fails: set<Path>)
    ensures Blocked(c, [assetType], fails) <==> !Makeable(c, [assetType], fails)
  {
    assert [assetType][..1] == [assetType];
    assert Stops(c, [assetType][..1], fails) <==> Stops(c, [assetType], fails);
    if Blocked(c, [assetType], fails) {
      var k :| 0 < k <= 1 && Stops(c, [assetType][..k], fails);
      assert k == 1;
    }
  }

  /** All the mount points get made exactly if no name of a type is taken by something that
      does not lead to a directory, and nothing else raises. Then there is something at
      every type's name; what was there before stays. */
  lemma {:induction false} MountPointsIff(f: Forest, types: seq<string>, reach: nat)
    ensures var (made, all) := MountPoints(f, types, reach);
            && (all <==> |types| <= reach && forall t :: t in types ==> Mountable(f, t))
            && (all ==> forall t :: t in types ==> Find(made, t) == if Find(f, t).Some? then Find(f, t) else Some(Dir(Nil)))
            && (all ==> forall name :: name !in types ==> Find(made, name) == Find(f, name))
    decreases |types|
  {
    if types != [] {
      assert forall t :: t in types <==> t == types[0] || t in types[1..];
      if reach > 0 && Mountable(f, types[0]) {
        var g := if Find(f, types[0]).None? then AddDir(f, types[0]) else f;
        forall name ensures Find(g, name) == if name == types[0] && Find(f, name).None? then Some(Dir(Nil)) else Find(f, name) {
          if Find(f, types[0]).None? { FindAfterAddDir(f, types[0], name); }
        }
        assert forall name :: name != types[0] ==> (Mountable(g, name) <==> Mountable(f, name));
        MountPointsIff(g, types[1..], reach - 1);
      }
    }
  }

  /** The project's cache is mounted for builds only, and over all types or none: exactly
      if the id is valid, the type directories and the mount points can be made, the
      harvest does not raise, and there is no file in the place of the cache root. */
  lemma MountedIff(c: Cache, projectId: string, kind: Kind, work: JobDir, types: seq<string>, faults: Faults)
    requires Rooted(c)
    ensures var p := Prepare(c, projectId, kind, work, types, faults);
            && (p.mounted == {} || forall t :: t in p.mounted <==> t in types)
            && (p.mounted != {} <==>
                  && kind == Build && ProjectId(projectId) && types != []
                  && |types| < faults.touchReach && (forall t :: t in types ==> Makeable(c, [t], faults.fails))
                  && !Harvested(Touched(c, types, faults.fails, faults.touchReach).0,
                                Offered(TreeAt(work), types), faults.fails).raised
                  && !work.NotADir? && |types| <= faults.mountReach
                  && forall t :: t in types ==> match Find(TreeAt(work), t)
                                                case None => true
                                                case Some(Dir(_)) => true
                                                case Some(Link(_, toDir)) => toDir
                                                case Some(_) => false)
  {
    hide Touched, Harvested, Offered, Rooted, ProjectId, MountPoints, Makeable;
    TouchSucceedsIff(c, types, faults.fails, faults.touchReach);
    MountPointsIff(TreeAt(work), types, faults.mountReach);
    if types != [] { assert types[0] in SetOf(types); }
    assert forall t :: t in SetOf(types) <==> t in types;
  }

  /** A generate job has its own directory only, as it was, and leaves the cache with the
      type directories of its project, or some of them. */
  lemma GenerateJobSeesItsOwn(c: Cache, projectId: string, work: JobDir, types: seq<string>, faults: Faults)
    requires Rooted(c)
    ensures var p := Prepare(c, projectId, Generate, work, types, faults);
            && p.mounted == {} && p.work == work
            && (forall path, content :: path != [] ==>
                  (View(p, path) == Some(FileEntry(content)) <==> Reach(TreeAt(work), path, EVERYWHERE) == Some(File(content))))
            && (forall path :: path != [] ==>
                  (View(p, path) == Some(DirEntry) <==> exists kids :: Reach(TreeAt(work), path, EVERYWHERE) == Some(Dir(kids))))
            && (!ProjectId(projectId) ==> p.cache == c)
            && (forall path :: path in c ==> path in p.cache && p.cache[path] == c[path])
            && (forall path :: path in p.cache && path !in c ==> p.cache[path] == DirEntry && |path| == 1)
  {
    hide Touched, Rooted, ProjectId;
    TouchKeeps(c, types, faults.fails, faults.touchReach);
  }

  /** The mount never hides a cache file that came with the archive. For every tree
      and every cache: if the types were mounted, an eligible file is there unless
      its copy failed and no earlier entry stood in for it, and an entry that was in
      the cache wins; if they were not, the job sees its own file. */
  lemma ShippedKeysStayVisible(c: Cache, projectId: string, kind: Kind, work: JobDir, types: seq<string>,
                               faults: Faults, path: Path, content: Bytes)
    requires Rooted(c) && WellFormed(TreeAt(work))
    requires Eligible(TreeAt(work), types, path, content)
    ensures var p := Prepare(c, projectId, kind, work, types, faults);
            View(p, path) ==
              if p.mounted == {} then Some(FileEntry(content))
              else if path in c then Some(c[path])
              else if path in faults.fails then None
              else Some(FileEntry(content))
    ensures Prepare(c, projectId, kind, work, types, faults).mounted in {{}, SetOf(types)}
  {
    if Prepare(c, projectId, kind, work, types, faults).mounted == {} {
      UnmountedJobSeesItsOwn(c, projectId, kind, work, types, faults, path, content);
    } else {
      MountedJobSeesTheCache(c, projectId, kind, work, types, faults, path, content);
    }
  }

  lemma UnmountedJobSeesItsOwn(c: Cache, projectId: string, kind: Kind, work: JobDir, types: seq<string>,
                               faults: Faults, path: Path, content: Bytes)
    requires WellFormed(TreeAt(work))
    requires Eligible(TreeAt(work), types, path, content)
    requires Prepare(c, projectId, kind, work, types, faults).mounted == {}
    ensures View(Prepare(c, projectId, kind, work, types, faults), path) == Some(FileEntry(content))
  {
    var p := Prepare(c, projectId, kind, work, types, faults);
    var tree := TreeAt(work);
    if p.work != work {
      MountPointsKeepEntries(tree, types, faults.mountReach, path[0]);
    }
    assert Find(TreeAt(p.work), path[0]) == Find(tree, path[0]);
  }

  lemma MountedJobSeesTheCache(c: Cache, projectId: string, kind: Kind, work: JobDir, types: seq<string>,
                               faults: Faults, path: Path, content: Bytes)
    requires Rooted(c) && WellFormed(TreeAt(work))
    requires Eligible(TreeAt(work), types, path, content)
    requires Prepare(c, projectId, kind, work, types, faults).mounted != {}
    ensures View(Prepare(c, projectId, kind, work, types, faults), path) ==
              if path in c then Some(c[path])
              else if path in faults.fails then None
              else Some(FileEntry(content))
  {
    var p := Prepare(c, projectId, kind, work, types, faults);
    assert p.mounted == SetOf(types) && path[0] in SetOf(types);
    var items := Offered(TreeAt(work), types);
    var touched := Touched(c, types, faults.fails, faults.touchReach).0;
    assert p.cache == Harvested(touched, items, faults.fails).cache;
    TouchKeeps(c, types, faults.fails, faults.touchReach);
    HarvestLeaves(touched, TreeAt(work), types, faults.fails, path, content);
  }

  /** The entry a harvest that did not raise leaves under an eligible path. */
  lemma HarvestLeaves(c: Cache, tree: Forest, types: seq<string>, fails: set<Path>, path: Path, content: Bytes)
    requires Rooted(c) && WellFormed(tree) && Eligible(tree, types, path, content)
    requires !Harvested(c, Offered(tree, types), fails).raised
    ensures var d := Harvested(c, Offered(tree, types), fails).cache;
            if path in c then path in d && d[path] == c[path]
            else if path in fails then path !in d
            else path in d && d[path] == FileEntry(content)
  {
    var items := Offered(tree, types);
    var item: Item := (path, content);
    OfferedShapes(tree, types);
    OfferedAreEligible(tree, types, item);
    HarvestOnlyAdds(c, items, fails);
    HarvestIsComplete(c, items, fails, path);
    if path !in c && path !in fails {
      NewKeyIsAFile(c, items, fails, path);
      assert (path, Harvested(c, items, fails).cache[path].content) in items;
    }
  }

  lemma RaisedMakesNoItem(c: Cache, item: Path, fails: set<Path>, path: Path)
    requires Rooted(c) && ItemShape(item) && ItemShape(path)
    ensures path in MakeDirsUntil(c, Parent(item), fails) <==> path in c
  {
    DirsUntilKeep(c, Parent(item), fails);
    if path in Prefixes(Parent(item)) {
      var k :| 0 < k < |item| && Parent(item)[..k] == path;
      assert item[..k] == path;
      ParentsAreNoItems(item, path, k);
    }
  }

  /** A harvest makes no directory where a cache file goes. */
  lemma {:induction false} NewKeyIsAFile(c: Cache, items: seq<Item>, fails: set<Path>, path: Path)
    requires ItemShapes(items) && Rooted(c) && ItemShape(path) && path !in c
    requires path in Harvested(c, items, fails).cache
    ensures Harvested(c, items, fails).cache[path].FileEntry?
    decreases |items|
  {
    hide MakeDirsUntil, MakeDirs, Blocked, Rooted, ItemShape;
    if items != [] {
      var item := items[0];
      assert item in items;
      assert forall i :: i in items[1..] ==> i in items;
      if item.0 in c {
        NewKeyIsAFile(c, items[1..], fails, path);
      } else if Blocked(c, Parent(item.0), fails) {
        RaisedMakesNoItem(c, item.0, fails, path);
      } else {
        var d := Stored(c, item, fails);
        StoredKeeps(c, item, fails);
        StoredCreatesNoItem(c, item, fails, path);
        if path in d {
          HarvestOnlyAdds(d, items[1..], fails);
        } else {
          NewKeyIsAFile(d, items[1..], fails, path);
        }
      }
    }
  }

  // ------------------------------------------- links where the cache should be

  /** What the job itself wrote at the path. */
  function OwnTree(d: JobDir): Forest {
    if d.RealDir? then d.tree else Nil
  }

  lemma NothingIsEligible(types: seq<string>)
    ensures forall path, content :: !Eligible(Nil, types, path, content)
  {
  }

  lemma CopiesAreEligible(c: Cache, tree: Forest, types: seq<string>, fails: set<Path>)
    requires Rooted(c) && WellFormed(tree)
    ensures forall path :: path in Harvested(c, Offered(tree, types), fails).added ==>
              exists content :: Eligible(tree, types, path, content)
  {
    var items := Offered(tree, types);
    var h := Harvested(c, items, fails);
    OfferedShapes(tree, types);
    HarvestReportsExactly(c, items, fails);
    HarvestOnlyAdds(c, items, fails);
    forall path | path in h.added ensures exists content :: Eligible(tree, types, path, content) {
      OfferedAreEligible(tree, types, (path, h.cache[path].content));
    }
  }

  /** `harvest` tests each type directory for being a link, but not the cache root above
      them. So what it copies comes from the job's own tree if and only if the root is
      no link, or the tree it leads to has no file to store. */
  lemma CopiesAreTheJobsOwnIff(c: Cache, work: JobDir, types: seq<string>, fails: set<Path>)
    requires Rooted(c) && WellFormed(TreeAt(work))
    ensures var added := Harvested(c, Offered(TreeAt(work), types), fails).added;
            (forall path :: path in added ==> exists content :: Eligible(OwnTree(work), types, path, content)) <==>
            !work.Linked? || !HasFileToStore(c, Offered(TreeAt(work), types), fails)
  {
    OfferedShapes(TreeAt(work), types);
    HarvestCopiesIff(c, Offered(TreeAt(work), types), fails);
    hide Harvested, Offered, Eligible, HasFileToStore, ItemShapes;
    var added := Harvested(c, Offered(TreeAt(work), types), fails).added;
    if work.Linked? {
      NothingIsEligible(types);
      if added != [] { assert added[0] in added; }
    } else {
      assert OwnTree(work) == TreeAt(work);
      CopiesAreEligible(c, TreeAt(work), types, fails);
    }
  }

  /** Where nothing raises, there is a file to store exactly if some eligible one has no
      entry yet and its copy does not fail. */
  lemma CopiesIffEligibleIsMissing(c: Cache, tree: Forest, types: seq<string>, fails: set<Path>)
    requires Rooted(c) && WellFormed(tree) && !Harvested(c, Offered(tree, types), fails).raised
    ensures Harvested(c, Offered(tree, types), fails).added != [] <==>
            exists path, content :: Eligible(tree, types, path, content) && path !in c && path !in fails
  {
    var h := Harvested(c, Offered(tree, types), fails);
    OfferedShapes(tree, types);
    HarvestReportsExactly(c, Offered(tree, types), fails);
    if h.added != [] {
      CopyIsEligibleAndMissing(c, tree, types, fails, h.added[0]);
    }
    if path, content :| Eligible(tree, types, path, content) && path !in c && path !in fails {
      HarvestLeaves(c, tree, types, fails, path, content);
      assert path in h.added;
    }
  }

  lemma CopyIsEligibleAndMissing(c: Cache, tree: Forest, types: seq<string>, fails: set<Path>, path: Path)
    requires Rooted(c) && WellFormed(tree) && !Harvested(c, Offered(tree, types), fails).raised
    requires path in Harvested(c, Offered(tree, types), fails).added
    ensures exists content :: Eligible(tree, types, path, content) && path !in c && path !in fails
  {
    CopiesAreEligible(c, tree, types, fails);
    var content :| Eligible(tree, types, path, content);
    OfferedShapes(tree, types);
    HarvestReportsExactly(c, Offered(tree, types), fails);
    HarvestLeaves(c, tree, types, fails, path, content);
  }

  /** A linked cache root: an eligible file behind it goes into the project's cache,
      though the job's own tree has none. */
  lemma LinkedRootIsFollowed(c: Cache, target: Forest, types: seq<string>, path: Path, content: Bytes)
    requires Rooted(c) && WellFormed(target) && Eligible(target, types, path, content) && path !in c
    requires !Harvested(c, Offered(target, types), {}).raised
    ensures var h := Harvested(c, Offered(TreeAt(Linked(target)), types), {});
            && path in h.added && Has(h.cache, path, content)
            && forall other :: !Eligible(OwnTree(Linked(target)), types, path, other)
  {
    OfferedShapes(target, types);
    HarvestReportsExactly(c, Offered(target, types), {});
    HarvestLeaves(c, target, types, {}, path, content);
    NothingIsEligible(types);
  }

  // ------------------------------------------------------ between evictions

  /** What jobs do to one project's cache while it is not evicted. User code in a build
      container has the type directories mounted read-write, and can do anything below
      them. */
  datatype CacheOp =
    | TouchOp(touched: seq<string>, fails: set<Path>, reach: nat)
    | HarvestOp(tree: Forest, types: seq<string>, fails: set<Path>)
    | ContainerOp(mounted: set<string>, after: Cache)

  predicate Under(path: Path, mounted: set<string>) {
    path != [] && path[0] in mounted
  }

  /** Below the mounts there is some tree again; a mount point itself stays. */
  ghost predicate GoodOp(op: CacheOp) {
    && (op.HarvestOp? ==> WellFormed(op.tree))
    && (op.ContainerOp? ==> Rooted(op.after) && forall t :: t in op.mounted ==> [t] in op.after && op.after[[t]].DirEntry?)
  }

  function Apply(c: Cache, op: CacheOp): Cache {
    match op
    case TouchOp(touched, fails, reach) => Touched(c, touched, fails, reach).0
    case HarvestOp(tree, types, fails) => Harvested(c, Offered(tree, types), fails).cache
    case ContainerOp(mounted, after) =>
      (map p | p in c && !Under(p, mounted) :: c[p]) + (map p | p in after && Under(p, mounted) :: after[p])
  }

  function ApplyAll(c: Cache, ops: seq<CacheOp>): Cache
    decreases |ops|
  {
    if ops == [] then c else ApplyAll(Apply(c, ops[0]), ops[1..])
  }

  /** A cache directory has only directories at its top: harvests add files further
      down, and containers write below the mounts. */
  ghost predicate Sound(c: Cache) {
    Rooted(c) && forall p :: p in c && |p| == 1 ==> c[p].DirEntry?
  }

  predicate Has(c: Cache, path: Path, content: Bytes) {
    path in c && c[path] == FileEntry(content)
  }

  /** A container that has the path's type mounted. */
  predicate Over(op: CacheOp, path: Path) {
    op.ContainerOp? && Under(path, op.mounted)
  }

  /** Every container over the path's type leaves the file there. */
  predicate AllSpare(ops: seq<CacheOp>, path: Path, content: Bytes) {
    forall op :: op in ops && Over(op, path) ==> Has(op.after, path, content)
  }

  lemma OpKeepsSound(c: Cache, op: CacheOp)
    requires Sound(c) && GoodOp(op)
    ensures Sound(Apply(c, op))
  {
    match op {
      case TouchOp(touched, fails, reach) => TouchKeeps(c, touched, fails, reach);
      case HarvestOp(tree, types, fails) => HarvestKeepsSound(c, tree, types, fails);
      case ContainerOp(mounted, after) => ContainerKeepsSound(c, mounted, after);
    }
  }

  lemma HarvestKeepsSound(c: Cache, tree: Forest, types: seq<string>, fails: set<Path>)
    requires Sound(c) && WellFormed(tree)
    ensures Sound(Harvested(c, Offered(tree, types), fails).cache)
  {
    var items := Offered(tree, types);
    OfferedShapes(tree, types);
    HarvestOnlyAdds(c, items, fails);
    assert forall item :: item in items ==> |item.0| >= 2;
  }

  lemma ContainerKeepsSound(c: Cache, mounted: set<string>, after: Cache)
    requires Sound(c) && GoodOp(ContainerOp(mounted, after))
    ensures Sound(Apply(c, ContainerOp(mounted, after)))
  {
    var d := Apply(c, ContainerOp(mounted, after));
    forall p, k | p in d && 0 < k < |p| ensures p[..k] in d && d[p[..k]].DirEntry? {
      assert p[..k][0] == p[0];
      assert Under(p[..k], mounted) <==> Under(p, mounted);
    }
    forall p | p in d && |p| == 1 ensures d[p].DirEntry? {
      assert p == [p[0]];
    }
  }

  /** Only a container removes or changes a file: touches and harvests never do. */
  lemma OnlyContainersDisturb(c: Cache, op: CacheOp, path: Path, content: Bytes)
    requires Sound(c) && GoodOp(op) && Has(c, path, content) && !op.ContainerOp?
    ensures Has(Apply(c, op), path, content)
  {
    match op {
      case TouchOp(touched, fails, reach) => TouchKeeps(c, touched, fails, reach);
      case HarvestOp(tree, types, fails) =>
        OfferedShapes(tree, types);
        HarvestOnlyAdds(c, Offered(tree, types), fails);
    }
  }

  lemma {:induction false} OpsKeepSound(c: Cache, ops: seq<CacheOp>)
    requires Sound(c) && forall op :: op in ops ==> GoodOp(op)
    ensures Sound(ApplyAll(c, ops))
    decreases |ops|
  {
    if ops != [] {
      assert GoodOp(ops[0]);
      OpKeepsSound(c, ops[0]);
      OpsKeepSound(Apply(c, ops[0]), ops[1..]);
    }
  }

  /** Whatever the jobs of a project do, its cache stays sound. */
  lemma CachesAreSound(ops: seq<CacheOp>)
    requires forall op :: op in ops ==> GoodOp(op)
    ensures Sound(ApplyAll(map[], ops))
  {
    OpsKeepSound(map[], ops);
  }

  lemma OpKeepsFileIff(c: Cache, op: CacheOp, path: Path, content: Bytes)
    requires Sound(c) && GoodOp(op) && Has(c, path, content)
    ensures Has(Apply(c, op), path, content) <==> (Over(op, path) ==> Has(op.after, path, content))
  {
    if !op.ContainerOp? { OnlyContainersDisturb(c, op, path, content); }
  }

  lemma PrefixOfOps(c: Cache, ops: seq<CacheOp>, k: nat)
    requires 0 < k <= |ops|
    ensures ApplyAll(c, ops[..k]) == ApplyAll(Apply(c, ops[0]), ops[1..][..k - 1])
  {
    assert ops[..k][0] == ops[0] && ops[..k][1..] == ops[1..][..k - 1];
  }

  /** A cached file is there all along exactly if every container over it leaves it. */
  lemma {:induction false} StaysIffSpared(c: Cache, ops: seq<CacheOp>, path: Path, content: Bytes)
    requires Sound(c) && (forall op :: op in ops ==> GoodOp(op)) && Has(c, path, content)
    ensures (forall k :: 0 <= k <= |ops| ==> Has(ApplyAll(c, ops[..k]), path, content)) <==> AllSpare(ops, path, content)
    decreases |ops|
  {
    assert ops[..0] == [];
    if ops != [] {
      var d := Apply(c, ops[0]);
      assert GoodOp(ops[0]);
      OpKeepsSound(c, ops[0]);
      OpKeepsFileIff(c, ops[0], path, content);
      PrefixOfOps(c, ops, 1);
      assert ops[1..][..0] == [];
      if Has(d, path, content) {
        StaysIffSpared(d, ops[1..], path, content);
        assert AllSpare(ops, path, content) <==> AllSpare(ops[1..], path, content) by {
          assert forall op :: op in ops <==> op == ops[0] || op in ops[1..];
        }
        forall k | 0 < k <= |ops|
          ensures ApplyAll(c, ops[..k]) == ApplyAll(d, ops[1..][..k - 1]) { PrefixOfOps(c, ops, k); }
        if forall k :: 0 <= k <= |ops| ==> Has(ApplyAll(c, ops[..k]), path, content) {
          forall k | 0 <= k <= |ops[1..]| ensures Has(ApplyAll(d, ops[1..][..k]), path, content) {
            assert Has(ApplyAll(c, ops[..k + 1]), path, content);
          }
        }
      } else {
        assert ops[0] in ops;
        assert !Has(ApplyAll(c, ops[..1]), path, content);
      }
    }
  }

  /** The last container that has the path's type mounted, or -1. */
  function LastOver(ops: seq<CacheOp>, path: Path): (last: int)
    ensures -1 <= last < |ops|
    ensures 0 <= last ==> Over(ops[last], path)
    ensures forall i :: last < i < |ops| ==> !Over(ops[i], path)
    decreases |ops|
  {
    if ops == [] then -1
    else if Over(ops[|ops| - 1], path) then |ops| - 1
    else LastOver(ops[..|ops| - 1], path)
  }

  /** Some harvest on the way adds the path, and with this content. */
  predicate StoredOnTheWay(c: Cache, ops: seq<CacheOp>, path: Path, content: Bytes)
    decreases |ops|
  {
    ops != [] &&
    (|| (&& ops[0].HarvestOp?
         && path in Harvested(c, Offered(ops[0].tree, ops[0].types), ops[0].fails).added
         && Has(Apply(c, ops[0]), path, content))
     || StoredOnTheWay(Apply(c, ops[0]), ops[1..], path, content))
  }

  /** A step that is no container over the type: the file is there afterwards exactly if
      it was before, or a harvest has just added it. */
  lemma QuietStep(c: Cache, op: CacheOp, path: Path, content: Bytes)
    requires Sound(c) && GoodOp(op) && !Over(op, path) && |path| >= 2
    ensures Has(Apply(c, op), path, content) <==>
            Has(c, path, content) ||
            (&& op.HarvestOp? && path in Harvested(c, Offered(op.tree, op.types), op.fails).added
             && Has(Apply(c, op), path, content))
  {
    match op {
      case TouchOp(touched, fails, reach) => TouchKeeps(c, touched, fails, reach);
      case HarvestOp(tree, types, fails) =>
        OfferedShapes(tree, types);
        HarvestOnlyAdds(c, Offered(tree, types), fails);
        HarvestReportsExactly(c, Offered(tree, types), fails);
      case ContainerOp(_, _) =>
    }
  }

  lemma {:induction false} QuietOps(c: Cache, ops: seq<CacheOp>, path: Path, content: Bytes)
    requires Sound(c) && (forall op :: op in ops ==> GoodOp(op) && !Over(op, path)) && |path| >= 2
    ensures Has(ApplyAll(c, ops), path, content) <==> Has(c, path, content) || StoredOnTheWay(c, ops, path, content)
    decreases |ops|
  {
    if ops != [] {
      assert ops[0] in ops && GoodOp(ops[0]);
      QuietStep(c, ops[0], path, content);
      OpKeepsSound(c, ops[0]);
      QuietOps(Apply(c, ops[0]), ops[1..], path, content);
    }
  }

  lemma {:induction false} ApplyConcat(c: Cache, a: seq<CacheOp>, b: seq<CacheOp>)
    ensures ApplyAll(c, a + b) == ApplyAll(ApplyAll(c, a), b)
    decreases |a|
  {
    if a == [] {
      assert a + b == b;
    } else {
      assert (a + b)[1..] == a[1..] + b;
      ApplyConcat(Apply(c, a[0]), a[1..], b);
    }
  }

  lemma ApplyLast(c: Cache, ops: seq<CacheOp>, last: nat)
    requires last < |ops|
    ensures ApplyAll(c, ops[..last + 1]) == Apply(ApplyAll(c, ops[..last]), ops[last])
  {
    assert ops[..last + 1] == ops[..last] + [ops[last]] && [ops[last]][1..] == [];
    ApplyConcat(c, ops[..last], [ops[last]]);
  }

  lemma OverDecides(c: Cache, op: CacheOp, path: Path, content: Bytes)
    requires Over(op, path)
    ensures Has(Apply(c, op), path, content) <==> Has(op.after, path, content)
  {
  }

  /** For every run of operations: the file is there at the end exactly if the last
      container over its type left it, or a harvest after that stored it; without such
      a container, exactly if it was there at the start or a harvest stored it. */
  lemma EndsIff(c: Cache, ops: seq<CacheOp>, path: Path, content: Bytes)
    requires Sound(c) && (forall op :: op in ops ==> GoodOp(op)) && |path| >= 2
    ensures var last := LastOver(ops, path);
            Has(ApplyAll(c, ops), path, content) <==>
            if last < 0 then Has(c, path, content) || StoredOnTheWay(c, ops, path, content)
            else Has(ops[last].after, path, content)
                 || StoredOnTheWay(ApplyAll(c, ops[..last + 1]), ops[last + 1..], path, content)
  {
    var last := LastOver(ops, path);
    if last < 0 {
      QuietOps(c, ops, path, content);
    } else {
      hide Apply, Has, Over, Sound;
      var later := ops[last + 1..];
      assert ops == ops[..last + 1] + later;
      ApplyConcat(c, ops[..last + 1], later);
      ApplyLast(c, ops, last);
      OverDecides(ApplyAll(c, ops[..last]), ops[last], path, content);
      OpsKeepSound(c, ops[..last + 1]);
      assert forall op :: op in later ==> GoodOp(op) && !Over(op, path);
      QuietOps(ApplyAll(c, ops[..last + 1]), later, path, content);
    }
  }

  /** A build that ships no cache file of its own, and meets no exception. */
  function PlainBuild(c: Cache, projectId: string, types: seq<string>): Prepared {
    Prepare(c, projectId, Build, Missing, types, Faults({}, |types| + 1, |types|))
  }

  lemma {:induction false} NothingOffered(types: seq<string>)
    ensures Offered(Nil, types) == []
  {
    if types != [] { NothingOffered(types[1..]); }
  }

  /** Such a build sees the cache, and only the cache. */
  lemma PlainBuildSeesTheCache(c: Cache, projectId: string, types: seq<string>, path: Path, content: Bytes)
    requires Sound(c) && ProjectId(projectId) && |path| >= 2 && path[0] in types
    ensures path[0] in PlainBuild(c, projectId, types).mounted
    ensures View(PlainBuild(c, projectId, types), path) == Some(FileEntry(content)) <==> Has(c, path, content)
  {
    TouchSucceedsIff(c, types, {}, |types| + 1);
    NothingOffered(types);
    MountPointsIff(Nil, types, |types|);
  }

  /** A figure in the cache is in the mount of every build from then on, whichever jobs
      ran before it, exactly if every container that had its type mounted left it there:
      until the project is evicted. */
  lemma FigureReachesEveryBuildIff(c: Cache, ops: seq<CacheOp>, projectId: string, types: seq<string>,
                                   path: Path, content: Bytes)
    requires Sound(c) && (forall op :: op in ops ==> GoodOp(op)) && Has(c, path, content)
    requires ProjectId(projectId) && |path| >= 2 && path[0] in types
    ensures (forall k :: 0 <= k <= |ops| ==>
               View(PlainBuild(ApplyAll(c, ops[..k]), projectId, types), path) == Some(FileEntry(content)))
            <==> AllSpare(ops, path, content)
  {
    forall k | 0 <= k <= |ops|
      ensures View(PlainBuild(ApplyAll(c, ops[..k]), projectId, types), path) == Some(FileEntry(content)) <==>
              Has(ApplyAll(c, ops[..k]), path, content)
    {
      OpsKeepSound(c, ops[..k]);
      PlainBuildSeesTheCache(ApplyAll(c, ops[..k]), projectId, types, path, content);
    }
    StaysIffSpared(c, ops, path, content);
  }

  /** For one later build, and any start: a figure is in its mount exactly if the last
      container that had its type mounted left it, or a later harvest stored it. */
  lemma FigureReachesTheBuildIff(c: Cache, ops: seq<CacheOp>, projectId: string, types: seq<string>,
                                 path: Path, content: Bytes)
    requires Sound(c) && (forall op :: op in ops ==> GoodOp(op))
    requires ProjectId(projectId) && |path| >= 2 && path[0] in types
    ensures var last := LastOver(ops, path);
            View(PlainBuild(ApplyAll(c, ops), projectId, types), path) == Some(FileEntry(content)) <==>
            if last < 0 then Has(c, path, content) || StoredOnTheWay(c, ops, path, content)
            else Has(ops[last].after, path, content)
                 || StoredOnTheWay(ApplyAll(c, ops[..last + 1]), ops[last + 1..], path, content)
  {
    OpsKeepSound(c, ops);
    PlainBuildSeesTheCache(ApplyAll(c, ops), projectId, types, path, content);
    EndsIff(c, ops, path, content);
  }

  /** A container that empties the type directory of the path. */
  function Removal(path: Path): CacheOp
    requires path != []
  {
    ContainerOp({path[0]}, map[[path[0]] := DirEntry])
  }

  lemma RemovalRemoves(c: Cache, path: Path, content: Bytes)
    requires Sound(c) && |path| >= 2
    ensures GoodOp(Removal(path)) && Over(Removal(path), path) && !Has(Removal(path).after, path, content)
    ensures Sound(Apply(c, Removal(path))) && path !in Apply(c, Removal(path))
  {
    assert path != [path[0]];
    ContainerKeepsSound(c, {path[0]}, map[[path[0]] := DirEntry]);
  }

  /** So a removed figure can be back: after a job that leaves it again. */
  lemma RemovedFigureCanComeBack(c: Cache, tree: Forest, types: seq<string>, path: Path, content: Bytes)
    requires Sound(c) && Has(c, path, content) && WellFormed(tree) && Eligible(tree, types, path, content)
    requires !Harvested(Apply(c, Removal(path)), Offered(tree, types), {}).raised
    ensures var ops := [Removal(path), HarvestOp(tree, types, {})];
            !AllSpare(ops, path, content) && Has(ApplyAll(c, ops), path, content)
  {
    var d := Apply(c, Removal(path));
    var ops := [Removal(path), HarvestOp(tree, types, {})];
    RemovalRemoves(c, path, content);
    HarvestLeaves(d, tree, types, {}, path, content);
    hide Harvested, Offered, Eligible, Sound, Over, Removal;
    assert Has(Apply(d, ops[1]), path, content);
    assert ops[0] in ops;
    assert ops[1..] == [ops[1]] && [ops[1]][1..] == [] && ApplyAll(d, ops[1..]) == Apply(d, ops[1]);
  }

  /** One container is enough to remove any figure. */
  lemma ContainerCanRemoveAFigure(c: Cache, projectId: string, types: seq<string>, path: Path, content: Bytes)
    requires Sound(c) && ProjectId(projectId) && |path| >= 2 && path[0] in types && Has(c, path, content)
    ensures GoodOp(Removal(path)) && !AllSpare([Removal(path)], path, content)
    ensures View(PlainBuild(ApplyAll(c, [Removal(path)]), projectId, types), path) != Some(FileEntry(content))
  {
    var op := Removal(path);
    RemovalRemoves(c, path, content);
    assert op in [op] && [op][1..] == [] && ApplyAll(c, [op]) == Apply(c, op);
    PlainBuildSeesTheCache(Apply(c, op), projectId, types, path, content);
  }

  /** A figure previewed by a generate job is in every later build's mount, with the
      content it was generated with, whatever the build ships and whichever jobs ran in
      between, if every container among them left it. */
  lemma PreviewedFigureReachesTheBuild(c: Cache, tree: Forest, types: seq<string>, fails: set<Path>, path: Path,
                                       between: seq<CacheOp>, projectId: string, work: JobDir,
                                       buildTypes: seq<string>, faults: Faults)
    requires Sound(c) && WellFormed(tree) && WellFormed(TreeAt(work))
    requires forall op :: op in between ==> GoodOp(op)
    requires path in Harvested(c, Offered(tree, types), fails).added
    ensures path !in c
    ensures var cached := Harvested(c, Offered(tree, types), fails).cache;
            exists content ::
              && Eligible(tree, types, path, content) && Has(cached, path, content)
              && (AllSpare(between, path, content) ==>
                    Shows(Prepare(ApplyAll(cached, between), projectId, Build, work, buildTypes, faults), path, content))
  {
    var items := Offered(tree, types);
    OfferedShapes(tree, types);
    HarvestReportsExactly(c, items, fails);
    HarvestOnlyAdds(c, items, fails);
    HarvestKeepsSound(c, tree, types, fails);
    var cached := Harvested(c, items, fails).cache;
    var content := cached[path].content;
    OfferedAreEligible(tree, types, (path, content));
    if AllSpare(between, path, content) {
      StaysIffSpared(cached, between, path, content);
      assert between[..|between|] == between;
      OpsKeepSound(cached, between);
      PrepareOnlyAdds(ApplyAll(cached, between), projectId, work, buildTypes, faults);
    }
  }

  /** Where the type is mounted, the path shows the content. */
  predicate Shows(p: Prepared, path: Path, content: Bytes) {
    path != [] && (path[0] in p.mounted ==> View(p, path) == Some(FileEntry(content)))
  }

  lemma PrepareOnlyAdds(c: Cache, projectId: string, work: JobDir, types: seq<string>, faults: Faults)
    requires Rooted(c) && WellFormed(TreeAt(work))
    ensures var d := Prepare(c, projectId, Build, work, types, faults).cache;
            forall p :: p in c ==> p in d && d[p] == c[p]
  {
    hide Blocked, MountPoints, Touched, Harvested, Offered, Rooted, WellFormed, ProjectId;
    var (touched, stamped) := Touched(c, types, faults.fails, faults.touchReach);
    TouchKeeps(c, types, faults.fails, faults.touchReach);
    HarvestKeeps(touched, TreeAt(work), types, faults.fails);
  }

  lemma HarvestKeeps(c: Cache, tree: Forest, types: seq<string>, fails: set<Path>)
    requires Rooted(c) && WellFormed(tree)
    ensures var d := Harvested(c, Offered(tree, types), fails).cache;
            forall p :: p in c ==> p in d && d[p] == c[p]
  {
    OfferedShapes(tree, types);
    HarvestOnlyAdds(c, Offered(tree, types), fails);
  }
}
