/** Where a harvest writes when directories of the persistent cache are symbolic links
    (src/asset_cache.py:147-155): `os.makedirs` and `os.replace` follow a link on the
    way to the file, though not one in the file's own place. User code in a build
    container has the cache mounted and can leave such links; the cache is scoped to
    the project (src/asset_cache.py:26-30), so a harvest should stay inside. */
module CacheLinks {
  import opened FileTree

  /** Links to directories: where a path that is one leads to, links resolved. */
  type Links = map<Path, Path>

  predicate IsPrefix(a: Path, b: Path) {
    |a| <= |b| && b[..|a|] == a
  }

  /** Where the system gets to from a directory by the given names. */
  function Place(links: Links, at: Path, names: Path): Path
    decreases |names|
  {
    if names == [] then at
    else
      var next := at + [names[0]];
      Place(links, if next in links then links[next] else next, names[1..])
  }

  /** Some directory on the way is a link. */
  predicate MeetsLink(links: Links, project: Path, dir: Path) {
    exists k :: 0 < k <= |dir| && project + dir[..k] in links
  }

  /** All links are in the project's cache, and lead to somewhere else altogether: a place
      that is neither inside it nor on the way to it. */
  predicate LeadElsewhere(links: Links, project: Path) {
    forall p :: p in links ==> IsPrefix(project, p) && !IsPrefix(project, links[p]) && !IsPrefix(links[p], project)
  }

  /** Elsewhere, no link leads back. */
  lemma {:induction false} ElsewhereStays(links: Links, project: Path, at: Path, names: Path)
    requires LeadElsewhere(links, project) && !IsPrefix(project, at) && !IsPrefix(at, project)
    ensures Place(links, at, names) == at + names && !IsPrefix(project, at + names)
    decreases |names|
  {
    if names == [] {
      assert at + names == at;
    } else {
      var next := at + [names[0]];
      assert next[..|at|] == at;
      assert |project| <= |at| ==> next[..|project|] == at[..|project|];
      assert |next| <= |project| ==> project[..|next|][..|at|] == project[..|at|];
      ElsewhereStays(links, project, next, names[1..]);
      assert next + names[1..] == at + names;
    }
  }

  lemma {:induction false} PlaceBelow(links: Links, project: Path, done: Path, names: Path)
    requires LeadElsewhere(links, project)
    ensures (exists k :: 0 < k <= |names| && project + done + names[..k] in links) ==>
              !IsPrefix(project, Place(links, project + done, names))
    ensures !(exists k :: 0 < k <= |names| && project + done + names[..k] in links) ==>
              Place(links, project + done, names) == project + done + names
    decreases |names|
  {
    if names == [] {
      assert project + done + names == project + done;
    } else {
      var next := project + done + [names[0]];
      var more := done + [names[0]];
      assert next == project + more && names[..1] == [names[0]];
      assert next + names[1..] == project + done + names;
      forall k | 0 < k <= |names| ensures project + done + names[..k] == next + names[1..][..k - 1] {
        assert names[..k] == [names[0]] + names[1..][..k - 1];
      }
      if next in links {
        ElsewhereStays(links, project, links[next], names[1..]);
        assert project + done + names[..1] in links;
      } else {
        PlaceBelow(links, project, more, names[1..]);
        if k :| 0 < k <= |names| && project + done + names[..k] in links {
          assert k != 1;
          assert project + more + names[1..][..k - 1] in links;
        }
        if k :| 0 < k <= |names[1..]| && project + more + names[1..][..k] in links {
          assert project + done + names[..k + 1] in links;
        }
      }
    }
  }

  /** A harvest stores a file inside the project, at the file's own place, if and only if
      no directory on the way to it is a link. */
  lemma HarvestStaysInsideIff(links: Links, project: Path, dir: Path)
    requires LeadElsewhere(links, project)
    ensures IsPrefix(project, Place(links, project, dir)) <==> !MeetsLink(links, project, dir)
    ensures !MeetsLink(links, project, dir) ==> Place(links, project, dir) == project + dir
  {
    assert project + [] == project;
    PlaceBelow(links, project, [], dir);
  }

  /** A link in the place of a subdirectory is enough: what goes there is stored where
      the link leads. */
  lemma LinkedSubdirectoryLeadsOut(project: Path, assetType: string, sub: string, elsewhere: Path)
    requires !IsPrefix(project, elsewhere) && !IsPrefix(elsewhere, project)
    ensures var links := map[project + [assetType, sub] := elsewhere];
            LeadElsewhere(links, project) && Place(links, project, [assetType, sub]) == elsewhere
  {
    var links := map[project + [assetType, sub] := elsewhere];
    assert (project + [assetType, sub])[..|project|] == project;
    assert |project + [assetType]| != |project + [assetType, sub]|;
    assert project + [assetType] !in links;
    assert project + [assetType] + [sub] == project + [assetType, sub];
    assert [assetType, sub][1..] == [sub] && [sub][1..] == [];
    assert Place(links, project + [assetType], [sub]) == Place(links, elsewhere, []);
  }
}
