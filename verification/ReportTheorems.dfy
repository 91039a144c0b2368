/** What a finished job reports and serves, in terms of what happened along the run:
    the code its container returned, the output directory it left, and the cache its
    harvest met. */
module ReportTheorems {
  import opened Common
  import opened FileTree
  import opened AssetHarvest
  import opened BuildMounts
  import opened Packing
  import opened Protocol
  import opened ProtocolInvariant
  import opened DirectoryExpiry
  import opened ReportInvariant

  // ------------------------------------------------------------ what is reported

  /** Over every run: a record has an exit code exactly if the job's own wait returned
      that code and the job has come to its end. */
  lemma ExitCodeIsTheReturned(s: Settings, steps: seq<Step>, id: JobId, code: int)
    requires Run(s, NOTHING, steps).Some? && id in Run(s, NOTHING, steps).value.jobs
    ensures var record := Run(s, NOTHING, steps).value.jobs[id].record;
            record.exitCode == Some(code) <==> Returns(id, code) in steps && record.status.Terminal()
  {
    hide Run, At, TimeInv, QueueInv, CancellersOk, ReadersOk, Report;
    AtTheEnd(s, steps, id);
  }

  /** A finished job succeeded exactly if its container returned 0 and left a real output
      directory. Once it has an exit code, its output is packed exactly if it left one. */
  lemma SuccessIff(s: Settings, steps: seq<Step>, id: JobId)
    requires Run(s, NOTHING, steps).Some? && id in Run(s, NOTHING, steps).value.jobs
    requires Run(s, NOTHING, steps).value.jobs[id].record.status in {Success, Failed, Cancelled}
    ensures var j := Run(s, NOTHING, steps).value.jobs[id];
            && (j.record.status == Success <==> Returns(id, 0) in steps && exists tree :: Leaves(id, tree) in steps)
            && (j.record.exitCode.Some? ==> (j.packed.Some? <==> exists tree :: Leaves(id, tree) in steps))
  {
    hide Run, At, TimeInv, QueueInv, CancellersOk, ReadersOk, Carries, Informs;
    AtTheEnd(s, steps, id);
    var j := Run(s, NOTHING, steps).value.jobs[id];
    if j.output.Some? { assert Leaves(id, j.output.value) in steps; }
  }

  /** What was packed is the tree the worker found at the output directory. */
  lemma PackedIsTheOutput(s: Settings, steps: seq<Step>, id: JobId)
    requires Run(s, NOTHING, steps).Some? && id in Run(s, NOTHING, steps).value.jobs
    requires Run(s, NOTHING, steps).value.jobs[id].packed.Some?
    ensures var j := Run(s, NOTHING, steps).value.jobs[id];
            && (exists tree :: Leaves(id, tree) in steps)
            && (forall tree :: Leaves(id, tree) in steps ==>
                  WellFormed(tree) && j.packed.value == ZipOf(Packed(tree, j.config.kind == Generate)))
  {
    hide Run, At, TimeInv, QueueInv, CancellersOk, ReadersOk, Report;
    AtTheEnd(s, steps, id);
    var j := Run(s, NOTHING, steps).value.jobs[id];
    assert Leaves(id, j.output.value) in steps;
  }

  /** Files are listed of finished generate jobs that have packed something, and of no other:
      the members of the zip, in order. */
  lemma FilesAreListedIff(s: Settings, y: System, id: JobId)
    requires Reachable(s, y) && id in y.jobs
    ensures var j := y.jobs[id];
            && (j.record.files.Some? <==>
                  j.config.kind == Generate && j.record.status in {Success, Failed, Cancelled} && j.packed.Some?)
            && (j.record.files.Some? ==>
                  && (forall name :: name in j.record.files.value <==> name in j.packed.value)
                  && forall i, k :: 0 <= i < k < |j.record.files.value| ==>
                       !StringLess(j.record.files.value[k], j.record.files.value[i]))
  {
    hide Run, At, TimeInv, QueueInv, CancellersOk, ReadersOk, Carries, Informs;
    var steps :| Run(s, NOTHING, steps) == Some(y);
    AtTheEnd(s, steps, id);
  }

  /** A callback that finds no record comes after the record's expiry, and a refused upload
      leaves no directory, no queue entry and no container. */
  lemma CallbackMissesOnlyTheExpired(s: Settings, y: System, id: JobId)
    requires Reachable(s, y) && id in y.jobs
    ensures var j := y.jobs[id];
            && (None in j.callbacks ==> j.expiresAt.Some? && j.expiresAt.value <= y.now)
            && (j.intake == Rejected ==> j.dir.None? && j.queue == NotQueued && j.starts == 0 && j.expiresAt.None?)
  {
    hide Run, CancellersOk, ReadersOk, Carries, Tells;
    var steps :| Run(s, NOTHING, steps) == Some(y);
    AtTheEnd(s, steps, id);
  }

  /** A harvest into this cache raises, and then reports no list, exactly if a directory of
      some file that is to be added cannot be made. */
  lemma NoListIff(cache: Cache, tree: Forest, types: seq<string>, fails: set<Path>)
    requires Rooted(cache) && WellFormed(tree)
    ensures CachedFiles(cache, RealDir(tree), types, fails).None? <==>
            exists path, content :: Eligible(tree, types, path, content) && path !in cache && Blocked(cache, Parent(path), fails)
  {
    var items := Offered(tree, types);
    OfferedShapes(tree, types);
    RaisesIfBlocked(cache, items, fails);
    assert CachedFiles(cache, RealDir(tree), types, fails).None? <==> Harvested(cache, items, fails).raised;
    hide Harvested, Offered, Rooted, JoinAll, CachedFiles, Eligible, ItemShapes, Consistent, Blocked;
    if Harvested(cache, items, fails).raised {
      var item :| item in items && item.0 !in cache && Blocked(cache, Parent(item.0), fails);
      OfferedAreEligible(tree, types, item);
    }
    if path, content :| Eligible(tree, types, path, content) && path !in cache && Blocked(cache, Parent(path), fails) {
      var item: Item := (path, content);
      OfferedAreEligible(tree, types, item);
    }
  }

  /** Else the list has the names of exactly the eligible files that had no entry in the
      cache and whose copy does not fail. */
  lemma CachedFilesAreTheNewOnes(cache: Cache, tree: Forest, types: seq<string>, fails: set<Path>, name: string)
    requires Rooted(cache) && WellFormed(tree) && CachedFiles(cache, RealDir(tree), types, fails).Some?
    ensures name in CachedFiles(cache, RealDir(tree), types, fails).value <==>
            exists path, content ::
              Eligible(tree, types, path, content) && path !in cache && path !in fails && name == Join(path, '/')
  {
    var added := Harvested(cache, Offered(tree, types), fails).added;
    assert CachedFiles(cache, RealDir(tree), types, fails).value == JoinAll(added);
    JoinAllHas(added, name);
    forall path ensures path in added <==> path !in cache && path !in fails && exists content :: Eligible(tree, types, path, content) {
      AddedIff(cache, tree, types, fails, path);
    }
    hide Eligible, Harvested, Offered, Rooted, WellFormed, CachedFiles, Join, JoinAll;
  }

  lemma {:induction false} JoinAllHas(paths: seq<Path>, name: string)
    ensures name in JoinAll(paths) <==> exists path :: path in paths && name == Join(path, '/')
    decreases |paths|
  {
    if paths != [] {
      JoinAllHas(paths[1..], name);
      hide Join;
      assert forall path :: path in paths <==> path == paths[0] || path in paths[1..];
      if path :| path in paths && name == Join(path, '/') {
        assert path == paths[0] || path in paths[1..];
      }
      if name == Join(paths[0], '/') { assert paths[0] in paths; }
    }
  }

  lemma AddedIff(cache: Cache, tree: Forest, types: seq<string>, fails: set<Path>, path: Path)
    requires Rooted(cache) && WellFormed(tree) && !Harvested(cache, Offered(tree, types), fails).raised
    ensures path in Harvested(cache, Offered(tree, types), fails).added <==>
            path !in cache && path !in fails && exists content :: Eligible(tree, types, path, content)
  {
    var h := Harvested(cache, Offered(tree, types), fails);
    OfferedShapes(tree, types);
    HarvestReportsExactly(cache, Offered(tree, types), fails);
    hide Eligible, Harvested, Offered, Rooted, WellFormed;
    if path in h.added {
      CopyIsEligibleAndMissing(cache, tree, types, fails, path);
    }
    if path !in cache && path !in fails && exists content :: Eligible(tree, types, path, content) {
      var content :| Eligible(tree, types, path, content);
      HarvestLeaves(cache, tree, types, fails, path, content);
      assert path in h.cache && h.cache[path] == FileEntry(content);
    }
  }

  /** A finished job reports as cached exactly what its harvest added to the cache it met;
      only a generate job of a project has harvested, after its container returned 0. */
  lemma CachedIsTheHarvest(s: Settings, steps: seq<Step>, id: JobId)
    requires Run(s, NOTHING, steps).Some? && id in Run(s, NOTHING, steps).value.jobs
    requires Run(s, NOTHING, steps).value.jobs[id].record.status in {Success, Failed, Cancelled}
    ensures var j := Run(s, NOTHING, steps).value.jobs[id];
            && (j.record.cachedFiles.Some? ==> exists cache, fails, tree :: Harvests(id, cache, fails) in steps && Leaves(id, tree) in steps)
            && (forall cache, fails :: Harvests(id, cache, fails) in steps ==>
                  && j.config.hasProject && j.config.kind == Generate && Returns(id, 0) in steps && Rooted(cache)
                  && forall tree :: Leaves(id, tree) in steps ==>
                       j.record.cachedFiles == CachedFiles(cache, RealDir(tree), j.config.types, fails))
  {
    hide Run, At, Always, TimeInv, QueueInv, CancellersOk, ReadersOk, Carries, Informs, CachedFiles, Rooted;
    AtTheEnd(s, steps, id);
    var j := Run(s, NOTHING, steps).value.jobs[id];
    if j.record.cachedFiles.Some? {
      assert Harvests(id, j.harvested.value.0, j.harvested.value.1) in steps && Leaves(id, j.output.value) in steps;
    }
    forall cache, fails | Harvests(id, cache, fails) in steps
      ensures && j.config.hasProject && j.config.kind == Generate && Returns(id, 0) in steps && Rooted(cache)
              && forall tree :: Leaves(id, tree) in steps ==>
                   j.record.cachedFiles == CachedFiles(cache, RealDir(tree), j.config.types, fails)
    {
      assert j.harvested == Some((cache, fails));
    }
  }

  // -------------------------------------------------------------- what is served

  /** One request from its first step to its last, with nothing in between. */
  function Download(now: int, j: Job, id: nat, kind: Kind, want: Option<string>): Option<Answer> {
    match ReadStep(now, j, id, kind, want)
    case None => None
    case Some(loaded) =>
      if loaded.readers[id].Served? then Some(loaded.readers[id].answer)
      else
        match ReadStep(now, loaded, id, kind, want)
        case None => None
        case Some(checked) =>
          if checked.readers[id].Served? then Some(checked.readers[id].answer)
          else
            match ReadStep(now, checked, id, kind, want)
            case Some(read) => if read.readers[id].Served? then Some(read.readers[id].answer) else None
            case None => None
  }

  /** Every request in every reachable state. 404 without a live record of the handler's
      kind; 409 before the job has finished; then the whole zip, exactly if something was
      packed and its directory is there, whether the job succeeded or failed; and of a
      generate job one file, exactly if it is among the recorded files. */
  lemma DownloadAnswers(s: Settings, y: System, id: JobId, reader: nat, kind: Kind, want: Option<string>)
    requires Reachable(s, y) && id in y.jobs && reader !in y.jobs[id].readers
    ensures var j := y.jobs[id];
            Download(y.now, j, reader, kind, want) == Some(
              if !Live(y.now, j) || j.config.kind != kind || (want.Some? && kind == Build) then Missing404
              else if !(j.record.status in {Success, Failed, Cancelled}) then NotFinished409
              else if j.dir.None? || j.packed.None? then Missing404
              else if want.None? then WholeZip(j.packed.value)
              else if j.record.files.Some? && want.value in j.record.files.value && want.value in j.packed.value
                then OneFile(j.packed.value[want.value])
              else Missing404)
  {
    hide SystemInv, Live;
    ReachableInv(s, y);
    ArtifactIsOfferedIff(s, y, id);
    FilesAreListed(s, y, id);
    DownloadTable(y.now, y.jobs[id], reader, kind, want);
  }

  lemma DownloadTable(now: int, j: Job, reader: nat, kind: Kind, want: Option<string>)
    requires reader !in j.readers && (j.record.status.Terminal() ==> !j.zip.HalfWritten?)
    requires if j.dir.Some? then (!j.zip.NoZip? <==> j.packed.Some? || j.zip.HalfWritten?) else j.zip.NoZip?
    requires j.dir.Some? && j.packed.Some? ==> j.zip == Closed(j.packed.value)
    requires j.record.files.Some? ==>
               j.packed.Some? && forall name :: name in j.record.files.value <==> name in j.packed.value
    ensures Download(now, j, reader, kind, want) == Some(
              if !Live(now, j) || j.config.kind != kind || (want.Some? && kind == Build) then Missing404
              else if !(j.record.status in {Success, Failed, Cancelled}) then NotFinished409
              else if j.dir.None? || j.packed.None? then Missing404
              else if want.None? then WholeZip(j.packed.value)
              else if j.record.files.Some? && want.value in j.record.files.value && want.value in j.packed.value
                then OneFile(j.packed.value[want.value])
              else Missing404)
  {
    hide Live;
  }

  lemma FilesAreListed(s: Settings, y: System, id: JobId)
    requires SystemInv(s, y) && id in y.jobs
    ensures var j := y.jobs[id];
            && (j.zip.Closed? ==> j.packed == Some(j.zip.members))
            && (j.record.files.Some? ==>
                  j.packed.Some? && forall name :: name in j.record.files.value <==> name in j.packed.value)
            && (j.record.status.Terminal() && j.config.kind == Generate && j.packed.Some? ==> j.record.files.Some?)
  {
    hide At, TimeInv, QueueInv, CancellersOk, ReadersOk;
    assert JobInv(s, y.now, y.jobs[id]);
  }

  /** A file the job left in its output directory is served with its bytes: alone if a
      generate job left it, except for dotfiles at the top, and in the zip of a build. */
  lemma OutputIsServed(s: Settings, steps: seq<Step>, id: JobId, reader: nat, tree: Forest, path: Path, content: Bytes)
    requires Run(s, NOTHING, steps).Some? && id in Run(s, NOTHING, steps).value.jobs
    requires var y := Run(s, NOTHING, steps).value;
             var j := y.jobs[id];
             && Leaves(id, tree) in steps && path != [] && Reach(tree, path, EVERYWHERE) == Some(File(content))
             && reader !in j.readers && Live(y.now, j) && j.dir.Some? && j.packed.Some?
             && j.record.status in {Success, Failed, Cancelled}
    ensures var y := Run(s, NOTHING, steps).value;
            var j := y.jobs[id];
            && (j.config.kind == Generate && !(|path| == 1 && path[0] != "" && path[0][0] == '.') ==>
                  Download(y.now, j, reader, Generate, Some(Join(path, '/'))) == Some(OneFile(content)))
            && (j.config.kind == Build ==>
                  && Download(y.now, j, reader, Build, None) == Some(WholeZip(j.packed.value))
                  && Join(path, '/') in j.packed.value && j.packed.value[Join(path, '/')] == content)
  {
    hide At, Always, TimeInv, QueueInv, CancellersOk, ReadersOk, Live, Reach, ZipOf, Packed, Download;
    var y := Run(s, NOTHING, steps).value;
    var j := y.jobs[id];
    assert Reachable(s, y);
    PackedIsTheOutput(s, steps, id);
    RunKeepsInv(s, NOTHING, steps);
    hide Run;
    FilesAreListed(s, y, id);
    ArtifactIsTheTree(tree, j.config.kind == Generate, path, File(content));
    DownloadAnswers(s, y, id, reader, j.config.kind, None);
    DownloadAnswers(s, y, id, reader, j.config.kind, Some(Join(path, '/')));
  }
}
