/** src/asset_cache.py: the cache directory of one project, changed in place by
    `touch` and `harvest`, and the call sites in src/build.py that prepare a build
    container's mounts. */
module ProjectCaches {
  import opened Common
  import opened FileTree
  import opened CacheNames
  import opened AssetHarvest

  datatype CacheError = InvalidProjectId | SystemError

  /** `touch`, up to the first call that raises. After `reach` type directories the next
      call does (the last is the one that stamps the project), if there are that many. */
  function Touched(c: Cache, types: seq<string>, fails: set<Path>, reach: nat): (Cache, bool)
    decreases |types|
  {
    if types == [] then (c, 0 < reach)
    else if reach == 0 || Blocked(c, [types[0]], fails) then (c, false)
    else Touched(MakeDirs(c, [types[0]]), types[1..], fails, reach - 1)
  }

  /** Go on harvesting after what has been done so far. */
  function Then(done: HarvestOutcome, rest: seq<Item>, fails: set<Path>): HarvestOutcome {
    if done.raised then done
    else
      var r := Harvested(done.cache, rest, fails);
      HarvestOutcome(r.cache, done.added + r.added, r.raised)
  }

  class ProjectCache {
    var entries: Cache
    var lastUse: int

    /** `touch`: make the type directories, then stamp the project. */
    method Touch(projectId: string, types: seq<string>, fails: set<Path>, reach: nat, now: int)
      returns (r: Result<(), CacheError>)
      modifies this
      ensures !ProjectId(projectId) ==> r == Err(InvalidProjectId) && unchanged(this)
      ensures ProjectId(projectId) ==>
                var (touched, stamped) := Touched(old(entries), types, fails, reach);
                && entries == touched
                && (r == if stamped then Ok(()) else Err(SystemError))
                && lastUse == if r.Ok? then now else old(lastUse)
    {
      if !ProjectId(projectId) {
        return Err(InvalidProjectId);
      }
      assert types[0..] == types;
      for i := 0 to |types|
        invariant i <= reach
        invariant Touched(entries, types[i..], fails, reach - i) == Touched(old(entries), types, fails, reach)
        invariant lastUse == old(lastUse)
      {
        assert types[i..][1..] == types[i + 1..];
        if i == reach || Blocked(entries, [types[i]], fails) {
          return Err(SystemError);
        }
        entries := MakeDirs(entries, [types[i]]);
      }
      if |types| == reach {
        return Err(SystemError);
      }
      lastUse := now;
      return Ok(());
    }

    /** `harvest`: the walk over each configured type, skipping what is no cache
        file and what is there already, and copying the rest in. */
    method Harvest(projectId: string, cacheRoot: Forest, types: seq<string>, fails: set<Path>)
      returns (r: Result<seq<Path>, CacheError>)
      modifies this`entries
      ensures !ProjectId(projectId) ==> r == Err(InvalidProjectId) && unchanged(this)
      ensures ProjectId(projectId) ==>
                var h := Harvested(old(entries), Offered(cacheRoot, types), fails);
                && entries == h.cache
                && r == if h.raised then Err(SystemError) else Ok(h.added)
    {
      if !ProjectId(projectId) {
        return Err(InvalidProjectId);
      }
      var added, raised := HarvestTypes(cacheRoot, types, fails);
      return if raised then Err(SystemError) else Ok(added);
    }

    /** The loop over the configured types. */
    method HarvestTypes(cacheRoot: Forest, types: seq<string>, fails: set<Path>) returns (added: seq<Path>, raised: bool)
      modifies this`entries
      ensures HarvestOutcome(entries, added, raised) == Harvested(old(entries), Offered(cacheRoot, types), fails)
    {
      added, raised := [], false;
      assert types[0..] == types;
      for i := 0 to |types|
        invariant !raised
        invariant Then(HarvestOutcome(entries, added, false), Offered(cacheRoot, types[i..]), fails) ==
                  Harvested(old(entries), Offered(cacheRoot, types), fails)
      {
        assert types[i..][1..] == types[i + 1..];
        ghost var later := Offered(cacheRoot, types[i + 1..]);
        ThenConcat(HarvestOutcome(entries, added, false), OfType(cacheRoot, types[i]), later, fails);
        var found := TypeDir(cacheRoot, types[i]);
        if found.None? {
          assert OfType(cacheRoot, types[i]) + later == later;
          continue;
        }
        var more;
        more, raised := HarvestType(types[i], found.value, fails);
        added := added + more;
        if raised {
          return;
        }
      }
      assert types[|types|..] == [];
    }

    /** The `os.walk` loop over one type directory. The directories it goes on to
        are the plainly named real ones. */
    method HarvestType(assetType: string, kids: Forest, fails: set<Path>) returns (added: seq<Path>, raised: bool)
      modifies this`entries
      ensures HarvestOutcome(entries, added, raised) ==
              Harvested(old(entries), Select(Walk(kids, [assetType], PLAINLY), KeyFile), fails)
    {
      added, raised := [], false;
      var todo: seq<(Path, Forest)> := [([assetType], kids)];
      assert todo[1..] == [];
      assert WalkAll(todo, PLAINLY) == Walk(kids, [assetType], PLAINLY);
      while todo != []
        invariant !raised
        invariant Then(HarvestOutcome(entries, added, false), Select(WalkAll(todo, PLAINLY), KeyFile), fails) ==
                  Harvested(old(entries), Select(Walk(kids, [assetType], PLAINLY), KeyFile), fails)
        decreases CountAll(todo)
      {
        WalkStep(todo, PLAINLY);
        WalkShrinks(todo, PLAINLY);
        var files := FilesHere(todo[0].1, todo[0].0);
        todo := DirsHere(todo[0].1, todo[0].0, PLAINLY) + todo[1..];
        SelectConcat(files, WalkAll(todo, PLAINLY), KeyFile);
        ThenConcat(HarvestOutcome(entries, added, false), Select(files, KeyFile), Select(WalkAll(todo, PLAINLY), KeyFile), fails);
        var more;
        more, raised := HarvestFiles(files, fails);
        added := added + more;
        if raised {
          return;
        }
      }
    }

    /** The loop over the files of one directory. */
    method HarvestFiles(files: seq<Found>, fails: set<Path>) returns (added: seq<Path>, raised: bool)
      modifies this`entries
      ensures HarvestOutcome(entries, added, raised) == Harvested(old(entries), Select(files, KeyFile), fails)
    {
      added, raised := [], false;
      assert files[0..] == files;
      for i := 0 to |files|
        invariant !raised
        invariant Then(HarvestOutcome(entries, added, false), Select(files[i..], KeyFile), fails) ==
                  Harvested(old(entries), Select(files, KeyFile), fails)
      {
        var (path, node) := files[i];
        ghost var after := Select(files[i + 1..], KeyFile);
        assert files[i..][1..] == files[i + 1..];
        if path == [] || !CacheFilename(path[|path| - 1]) {
          assert KeyFile(files[i]) + after == after;
          continue;
        }
        if !node.File? {
          assert KeyFile(files[i]) + after == after;
          continue;
        }
        ghost var item: Item := (path, node.content);
        assert KeyFile(files[i]) == [item];
        ThenOne(entries, added, item, after, fails);
        if path in entries {
          continue;
        }
        var blocked := Blocked(entries, Parent(path), fails);
        entries := if blocked then MakeDirsUntil(entries, Parent(path), fails) else MakeDirs(entries, Parent(path));
        if blocked {
          raised := true;
          return;
        }
        if path in fails {
          continue;
        }
        entries := entries[path := FileEntry(node.content)];
        added := added + [path];
      }
    }
  }

  lemma {:induction false} HarvestedConcat(c: Cache, a: seq<Item>, b: seq<Item>, fails: set<Path>)
    ensures Harvested(c, a + b, fails) == Then(Harvested(c, a, fails), b, fails)
    decreases |a|
  {
    if a == [] {
      assert a + b == b;
    } else {
      assert (a + b)[1..] == a[1..] + b;
      var item := a[0];
      if item.0 in c {
        HarvestedConcat(c, a[1..], b, fails);
      } else if !Blocked(c, Parent(item.0), fails) {
        HarvestedConcat(Stored(c, item, fails), a[1..], b, fails);
      }
    }
  }

  lemma ThenConcat(done: HarvestOutcome, a: seq<Item>, b: seq<Item>, fails: set<Path>)
    ensures Then(done, a + b, fails) == Then(Then(done, a, fails), b, fails)
  {
    if !done.raised {
      HarvestedConcat(done.cache, a, b, fails);
    }
  }

  lemma ThenOne(c: Cache, added: seq<Path>, item: Item, after: seq<Item>, fails: set<Path>)
    ensures var whole := Then(HarvestOutcome(c, added, false), [item] + after, fails);
            var made := MakeDirs(c, Parent(item.0));
            if item.0 in c then whole == Then(HarvestOutcome(c, added, false), after, fails)
            else if Blocked(c, Parent(item.0), fails) then
              whole == HarvestOutcome(MakeDirsUntil(c, Parent(item.0), fails), added, true)
            else if item.0 in fails then whole == Then(HarvestOutcome(made, added, false), after, fails)
            else whole == Then(HarvestOutcome(made[item.0 := FileEntry(item.1)], added + [item.0], false), after, fails)
  {
  }
}
