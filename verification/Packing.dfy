/** src/build.py, `_zip_dir`: the artifact of a job, and how it relates to the files
    a generate job adds to its project's cache. */
module Packing {
  import opened Common
  import opened FileTree
  import opened AssetHarvest

  /** A closed zip file: what each member holds. */
  type Zip = map<string, Bytes>

  /** What reading an archived entry yields; a device's bytes are not modelled. */
  function ContentOf(node: Node): Bytes {
    if node.File? then node.content else []
  }

  predicate TopLevelDotfile(path: Path) {
    |path| == 1 && path[0] != "" && path[0][0] == '.'
  }

  /** The loop body's two skips. */
  predicate Skipped(found: Found, skipDotfiles: bool) {
    (skipDotfiles && TopLevelDotfile(found.0)) || found.1.Link?
  }

  function Kept(found: seq<Found>, skipDotfiles: bool): seq<Found> {
    if found == [] then []
    else KeptOne(found[0], skipDotfiles) + Kept(found[1..], skipDotfiles)
  }

  function KeptOne(found: Found, skipDotfiles: bool): seq<Found> {
    if Skipped(found, skipDotfiles) then [] else [found]
  }

  lemma {:induction false} KeptConcat(a: seq<Found>, b: seq<Found>, skipDotfiles: bool)
    ensures Kept(a + b, skipDotfiles) == Kept(a, skipDotfiles) + Kept(b, skipDotfiles)
  {
    if a == [] {
      assert a + b == b;
    } else {
      assert (a + b)[1..] == a[1..] + b;
      KeptConcat(a[1..], b, skipDotfiles);
      var first, rest := KeptOne(a[0], skipDotfiles), Kept(a[1..], skipDotfiles);
      assert first + (rest + Kept(b, skipDotfiles)) == (first + rest) + Kept(b, skipDotfiles);
    }
  }

  lemma {:induction false} KeptMembers(found: seq<Found>, skipDotfiles: bool, f: Found)
    ensures f in Kept(found, skipDotfiles) <==> f in found && !Skipped(f, skipDotfiles)
  {
    if found != [] {
      KeptMembers(found[1..], skipDotfiles, f);
      assert found == [found[0]] + found[1..];
    }
  }

  /** The entries `_zip_dir` archives, in the order of its walk. */
  function Packed(tree: Forest, skipDotfiles: bool): seq<Found> {
    Kept(Walk(tree, [], EVERYWHERE), skipDotfiles)
  }

  /** The same by direct lookup. */
  predicate InArtifact(tree: Forest, skipDotfiles: bool, path: Path, node: Node) {
    && Reach(tree, path, EVERYWHERE) == Some(node)
    && !node.Dir? && !node.Link?
    && !(skipDotfiles && TopLevelDotfile(path))
  }

  /** Archived names, relative to the packed directory. */
  function Names(found: seq<Found>): seq<string> {
    if found == [] then [] else [Join(found[0].0, '/')] + Names(found[1..])
  }

  function ZipOf(found: seq<Found>): Zip {
    if found == [] then map[]
    else ZipOf(found[..|found| - 1])[Join(found[|found| - 1].0, '/') := ContentOf(found[|found| - 1].1)]
  }

  lemma PackedIsArtifact(tree: Forest, skipDotfiles: bool, found: Found)
    requires WellFormed(tree)
    ensures found in Packed(tree, skipDotfiles) <==>
            found.0 != [] && InArtifact(tree, skipDotfiles, found.0, found.1)
  {
    KeptMembers(Walk(tree, [], EVERYWHERE), skipDotfiles, found);
    WalkIsReach(tree, [], EVERYWHERE, found);
    assert found.0[0..] == found.0 && found.0[..0] == [];
  }

  lemma {:induction false} ReachHasNoSeparator(f: Forest, path: Path)
    requires WellFormed(f) && Reach(f, path, EVERYWHERE).Some?
    ensures path != [] && forall i :: 0 <= i < |path| ==> '/' !in path[i]
    decreases |path|
  {
    FindHasNoSeparator(f, path[0]);
    if |path| > 1 {
      WellFormedKids(f, path[0]);
      ReachHasNoSeparator(Find(f, path[0]).value.kids, path[1..]);
      forall i | 0 <= i < |path| ensures '/' !in path[i] {
        if i > 0 { assert path[1..][i - 1] == path[i]; }
      }
    }
  }

  lemma {:induction false} FindHasNoSeparator(f: Forest, name: string)
    requires WellFormed(f) && Find(f, name).Some?
    ensures '/' !in name
  {
    if f.name != name {
      FindHasNoSeparator(f.rest, name);
    }
  }

  /** Two entries of a tree never get the same name in the archive. */
  lemma NamesAreInjective(tree: Forest, a: Path, b: Path)
    requires WellFormed(tree) && Reach(tree, a, EVERYWHERE).Some? && Reach(tree, b, EVERYWHERE).Some?
    requires Join(a, '/') == Join(b, '/')
    ensures a == b
  {
    ReachHasNoSeparator(tree, a);
    ReachHasNoSeparator(tree, b);
    SplitOfJoin(a, '/');
    SplitOfJoin(b, '/');
  }

  lemma {:induction false} NamesMembers(found: seq<Found>, name: string)
    ensures name in Names(found) <==> exists f :: f in found && Join(f.0, '/') == name
  {
    if found != [] {
      NamesMembers(found[1..], name);
      assert found == [found[0]] + found[1..];
    }
  }

  lemma {:induction false} NamesAppend(found: seq<Found>, one: Found)
    ensures Names(found + [one]) == Names(found) + [Join(one.0, '/')]
  {
    if found == [] {
      assert [one][1..] == [];
    } else {
      assert (found + [one])[1..] == found[1..] + [one];
      NamesAppend(found[1..], one);
    }
  }

  lemma {:induction false} ZipMembers(found: seq<Found>)
    ensures forall name :: name in ZipOf(found) <==> name in Names(found)
    decreases |found|
  {
    if found != [] {
      var front := found[..|found| - 1];
      ZipMembers(front);
      NamesAppend(front, found[|found| - 1]);
      assert found == front + [found[|found| - 1]];
    }
  }

  lemma {:induction false} ZipContents(tree: Forest, found: seq<Found>, f: Found)
    requires WellFormed(tree) && f in found
    requires forall g :: g in found ==> Reach(tree, g.0, EVERYWHERE) == Some(g.1)
    ensures Join(f.0, '/') in ZipOf(found) && ZipOf(found)[Join(f.0, '/')] == ContentOf(f.1)
    decreases |found|
  {
    var front, last := found[..|found| - 1], found[|found| - 1];
    assert found == front + [last];
    if Join(last.0, '/') == Join(f.0, '/') {
      NamesAreInjective(tree, last.0, f.0);
    } else {
      ZipContents(tree, front, f);
    }
  }

  lemma PackedEntries(tree: Forest, skipDotfiles: bool)
    requires WellFormed(tree)
    ensures forall f :: f in Packed(tree, skipDotfiles) ==>
              f.0 != [] && InArtifact(tree, skipDotfiles, f.0, f.1) && Reach(tree, f.0, EVERYWHERE) == Some(f.1)
  {
    forall f | f in Packed(tree, skipDotfiles)
      ensures f.0 != [] && InArtifact(tree, skipDotfiles, f.0, f.1)
    {
      PackedIsArtifact(tree, skipDotfiles, f);
    }
  }

  lemma MemberIff(tree: Forest, skipDotfiles: bool, path: Path, node: Node)
    requires WellFormed(tree) && path != [] && Reach(tree, path, EVERYWHERE) == Some(node)
    ensures var zip := ZipOf(Packed(tree, skipDotfiles));
            && (Join(path, '/') in zip <==> InArtifact(tree, skipDotfiles, path, node))
            && (Join(path, '/') in zip ==> zip[Join(path, '/')] == ContentOf(node))
  {
    var found := Packed(tree, skipDotfiles);
    ZipMembers(found);
    PackedEntries(tree, skipDotfiles);
    PackedIsArtifact(tree, skipDotfiles, (path, node));
    hide Packed, Reach;
    if InArtifact(tree, skipDotfiles, path, node) {
      ZipContents(tree, found, (path, node));
    } else if Join(path, '/') in Names(found) {
      NamesMembers(found, Join(path, '/'));
      var f :| f in found && Join(f.0, '/') == Join(path, '/');
      NamesAreInjective(tree, f.0, path);
    }
  }

  /** The listed names are the member names, sorted. */
  lemma ListIsTheMembers(found: seq<Found>)
    ensures SortedStrings(SortStrings(Names(found)))
    ensures forall name :: name in SortStrings(Names(found)) <==> name in ZipOf(found)
  {
    SortStringsSorts(Names(found));
    ZipMembers(found);
    SameMembers(SortStrings(Names(found)), Names(found));
  }

  /** The artifact of every tree. What real directories lead to is a member exactly if
      it is no directory, no link, and no dotfile at the top where those are left out;
      and a file's member holds the file's bytes. */
  lemma ArtifactIsTheTree(tree: Forest, skipDotfiles: bool, path: Path, node: Node)
    requires WellFormed(tree) && path != [] && Reach(tree, path, EVERYWHERE) == Some(node)
    ensures var zip := ZipOf(Packed(tree, skipDotfiles));
            && (Join(path, '/') in zip <==>
                  !node.Dir? && !node.Link? &&
                  (skipDotfiles && |path| == 1 && path[0] != "" ==> path[0][0] != '.'))
            && (Join(path, '/') in zip && node.File? ==> zip[Join(path, '/')] == node.content)
  {
    MemberIff(tree, skipDotfiles, path, node);
  }

  /** There are no other members: each has its entry in the tree. */
  lemma MemberHasEntry(tree: Forest, skipDotfiles: bool, name: string) returns (path: Path, node: Node)
    requires WellFormed(tree) && name in ZipOf(Packed(tree, skipDotfiles))
    ensures path != [] && Reach(tree, path, EVERYWHERE) == Some(node) && Join(path, '/') == name
    ensures node.File? ==> ZipOf(Packed(tree, skipDotfiles))[name] == node.content
  {
    var found := Packed(tree, skipDotfiles);
    ZipMembers(found);
    NamesMembers(found, name);
    var f :| f in found && Join(f.0, '/') == name;
    path, node := f.0, f.1;
    PackedIsArtifact(tree, skipDotfiles, f);
    MemberIff(tree, skipDotfiles, path, node);
  }

  lemma SameMembers(a: seq<string>, b: seq<string>)
    requires multiset(a) == multiset(b)
    ensures forall s :: s in a <==> s in b
  {
    forall s ensures s in a <==> s in b {
      assert s in a <==> s in multiset(a);
    }
  }

  /** `_zip_dir`. `unreadable` holds the paths whose `z.write` raises; then the zip
      holds what was written before. */
  method ZipDir(tree: Forest, skipDotfiles: bool, unreadable: set<Path>)
    returns (r: Result<seq<string>, Path>, zip: Zip)
    ensures r.Ok? <==> AllReadable(Packed(tree, skipDotfiles), unreadable)
    ensures r.Ok? ==> zip == ZipOf(Packed(tree, skipDotfiles))
    ensures r.Ok? ==> r.value == SortStrings(Names(Packed(tree, skipDotfiles)))
  {
    ghost var packed := Packed(tree, skipDotfiles);
    var names: seq<string> := [];
    zip := map[];
    ghost var done: seq<Found> := [];
    var todo: seq<(Path, Forest)> := [([], tree)];
    assert todo[1..] == [];
    assert WalkAll(todo, EVERYWHERE) == Walk(tree, [], EVERYWHERE);
    while todo != []
      invariant packed == done + Kept(WalkAll(todo, EVERYWHERE), skipDotfiles)
      invariant names == Names(done) && zip == ZipOf(done) && AllReadable(done, unreadable)
      decreases CountAll(todo)
    {
      PackStep(done, todo, skipDotfiles, unreadable);
      WalkShrinks(todo, EVERYWHERE);
      var files := FilesHere(todo[0].1, todo[0].0);
      todo := DirsHere(todo[0].1, todo[0].0, EVERYWHERE) + todo[1..];
      var failed;
      names, zip, failed := ZipFiles(files, skipDotfiles, unreadable, names, zip, done);
      if failed.Some? {
        return Err(failed.value), zip;
      }
      done := done + Kept(files, skipDotfiles);
    }
    assert packed == done;
    return Ok(SortStrings(names)), zip;
  }

  lemma PackStep(done: seq<Found>, todo: seq<(Path, Forest)>, skipDotfiles: bool, unreadable: set<Path>)
    requires todo != []
    ensures var files := Kept(FilesHere(todo[0].1, todo[0].0), skipDotfiles);
            var next := DirsHere(todo[0].1, todo[0].0, EVERYWHERE) + todo[1..];
            var whole := done + Kept(WalkAll(todo, EVERYWHERE), skipDotfiles);
            && whole == (done + files) + Kept(WalkAll(next, EVERYWHERE), skipDotfiles)
            && (AllReadable(whole, unreadable) ==> AllReadable(files, unreadable))
            && (AllReadable(done, unreadable) && AllReadable(files, unreadable) ==> AllReadable(done + files, unreadable))
  {
    hide Kept, AllReadable, FilesHere, DirsHere, WalkAll;
    var files := FilesHere(todo[0].1, todo[0].0);
    var next := DirsHere(todo[0].1, todo[0].0, EVERYWHERE) + todo[1..];
    var kept, later := Kept(files, skipDotfiles), Kept(WalkAll(next, EVERYWHERE), skipDotfiles);
    WalkStep(todo, EVERYWHERE);
    KeptConcat(files, WalkAll(next, EVERYWHERE), skipDotfiles);
    assert done + (kept + later) == (done + kept) + later;
    ReadableConcat(done + kept, later, unreadable);
    ReadableConcat(done, kept, unreadable);
  }

  lemma ReadableConcat(a: seq<Found>, b: seq<Found>, unreadable: set<Path>)
    ensures AllReadable(a + b, unreadable) <==> AllReadable(a, unreadable) && AllReadable(b, unreadable)
  {
    assert forall f :: f in a + b <==> f in a || f in b;
  }

  ghost predicate AllReadable(found: seq<Found>, unreadable: set<Path>) {
    forall f :: f in found ==> f.0 !in unreadable
  }

  /** The loop over the files of one directory. */
  method ZipFiles(files: seq<Found>, skipDotfiles: bool, unreadable: set<Path>,
                  names0: seq<string>, zip0: Zip, ghost done: seq<Found>)
    returns (names: seq<string>, zip: Zip, failed: Option<Path>)
    requires names0 == Names(done) && zip0 == ZipOf(done)
    ensures failed.None? <==> AllReadable(Kept(files, skipDotfiles), unreadable)
    ensures failed.None? ==> names == Names(done + Kept(files, skipDotfiles))
    ensures failed.None? ==> zip == ZipOf(done + Kept(files, skipDotfiles))
  {
    names, zip, failed := names0, zip0, None;
    ghost var mine := Kept(files, skipDotfiles);
    ghost var packed: seq<Found> := [];
    assert files[0..] == files && done + [] == done;
    for i := 0 to |files|
      invariant mine == packed + Kept(files[i..], skipDotfiles)
      invariant names == Names(done + packed) && zip == ZipOf(done + packed)
      invariant AllReadable(packed, unreadable) && failed.None?
    {
      KeptStep(files, i, skipDotfiles, packed);
      if skipDotfiles && TopLevelDotfile(files[i].0) {
        continue;
      }
      if files[i].1.Link? {
        continue;
      }
      if files[i].0 in unreadable {
        assert (packed + [files[i]])[|packed|] == files[i];
        assert files[i] in mine;
        return names, zip, Some(files[i].0);
      }
      PackOne(done, packed, files[i]);
      zip := zip[Join(files[i].0, '/') := ContentOf(files[i].1)];
      names := names + [Join(files[i].0, '/')];
      packed := packed + [files[i]];
    }
    assert files[|files|..] == [];
    assert mine == packed;
  }

  lemma KeptStep(files: seq<Found>, i: nat, skipDotfiles: bool, packed: seq<Found>)
    requires i < |files|
    ensures packed + Kept(files[i..], skipDotfiles) ==
            (if Skipped(files[i], skipDotfiles) then packed else packed + [files[i]]) + Kept(files[i + 1..], skipDotfiles)
  {
  }

  lemma PackOne(done: seq<Found>, packed: seq<Found>, one: Found)
    ensures Names(done + (packed + [one])) == Names(done + packed) + [Join(one.0, '/')]
    ensures ZipOf(done + (packed + [one])) == ZipOf(done + packed)[Join(one.0, '/') := ContentOf(one.1)]
  {
    NamesAppend(done + packed, one);
    ZipAppend(done + packed, one);
    assert (done + packed) + [one] == done + (packed + [one]);
  }

  lemma ZipAppend(found: seq<Found>, one: Found)
    ensures ZipOf(found + [one]) == ZipOf(found)[Join(one.0, '/') := ContentOf(one.1)]
  {
  }

  // --------------------------------------------- cached files and listed files

  function JoinAll(paths: seq<Path>): seq<string> {
    if paths == [] then [] else [Join(paths[0], '/')] + JoinAll(paths[1..])
  }

  lemma {:induction false} JoinAllMembers(paths: seq<Path>, s: string)
    ensures s in JoinAll(paths) <==> exists p :: p in paths && Join(p, '/') == s
  {
    if paths != [] {
      JoinAllMembers(paths[1..], s);
      assert paths == [paths[0]] + paths[1..];
      if p :| p in paths && Join(p, '/') == s {
        assert p == paths[0] || p in paths[1..];
      }
      if s == Join(paths[0], '/') { assert paths[0] in paths; }
    }
  }

  /** What a generate job reports as `cached_files` is among the `files` of its
      artifact, for every tree and every cache, although the two walks filter
      differently and the artifact leaves out top-level dotfiles. */
  lemma CachedFilesAreListed(c: Cache, tree: Forest, types: seq<string>, fails: set<Path>, name: string)
    requires Rooted(c) && WellFormed(tree)
    requires name in JoinAll(Harvested(c, Offered(tree, types), fails).added)
    ensures name in SortStrings(Names(Packed(tree, true)))
  {
    var items := Offered(tree, types);
    var h := Harvested(c, items, fails);
    JoinAllMembers(h.added, name);
    var path :| path in h.added && Join(path, '/') == name;
    OfferedShapes(tree, types);
    HarvestReportsExactly(c, items, fails);
    HarvestOnlyAdds(c, items, fails);
    var content := h.cache[path].content;
    OfferedAreEligible(tree, types, (path, content));
    EligibleIsInArtifact(tree, types, path, content);
    MemberIff(tree, true, path, File(content));
    ListIsTheMembers(Packed(tree, true));
  }

  lemma EligibleIsInArtifact(tree: Forest, types: seq<string>, path: Path, content: Bytes)
    requires Eligible(tree, types, path, content)
    ensures InArtifact(tree, true, path, File(content))
  {
  }
}
