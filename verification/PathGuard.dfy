/** src/api.py, `_safe_extract`: the guard that keeps the members of an uploaded
    zip inside the job's work directory.

    The guard compares two STRINGS. What it is for is a statement about the
    COMPONENTS of two normalised paths. The theorems below connect the two for
    every member name. The destination is a fresh directory without symbolic
    links, so `os.path.realpath` is lexical normalisation. */
module PathGuard {
  import opened Common

  const SEP := '/'

  predicate StartsWith(s: string, prefix: string) {
    |prefix| <= |s| && s[..|prefix|] == prefix
  }

  predicate IsAbsolute(path: string) {
    StartsWith(path, [SEP])
  }

  /** `os.path.join(a, b)` on POSIX. */
  function OsJoin(a: string, b: string): string {
    if IsAbsolute(b) then b
    else if a == "" || a[|a| - 1] == SEP then a + b
    else a + [SEP] + b
  }

  /** One step of path resolution; `..` at the root stays at the root. */
  function Enter(at: seq<string>, part: string): seq<string> {
    if part == "" || part == "." then at
    else if part == ".." then (if at == [] then [] else at[..|at| - 1])
    else at + [part]
  }

  function Resolve(at: seq<string>, parts: seq<string>): seq<string>
    decreases |parts|
  {
    if parts == [] then at else Resolve(Enter(at, parts[0]), parts[1..])
  }

  /** The components of an absolute path after normalisation. */
  function Components(path: string): seq<string> {
    Resolve([], Split(path, SEP))
  }

  function Render(components: seq<string>): string {
    [SEP] + Join(components, SEP)
  }

  /** Where a path leads from the working directory. */
  function Resolved(cwd: string, path: string): seq<string> {
    Components(OsJoin(cwd, path))
  }

  function RealPath(cwd: string, path: string): string {
    Render(Resolved(cwd, path))
  }

  /** The string test at src/api.py:85, negated: the member is let through. */
  predicate Admits(destRoot: string, target: string) {
    target == destRoot || StartsWith(target, destRoot + [SEP])
  }

  predicate IsPrefix(a: seq<string>, b: seq<string>) {
    |a| <= |b| && b[..|a|] == a
  }

  predicate Clean(components: seq<string>) {
    forall i :: 0 <= i < |components| ==>
      components[i] !in ["", ".", ".."] && SEP !in components[i]
  }

  // ------------------------------------------------------------ resolution

  lemma {:induction false} ResolveIsClean(at: seq<string>, parts: seq<string>)
    requires Clean(at) && forall i :: 0 <= i < |parts| ==> SEP !in parts[i]
    ensures Clean(Resolve(at, parts))
    decreases |parts|
  {
    if parts != [] {
      ResolveIsClean(Enter(at, parts[0]), parts[1..]);
    }
  }

  lemma {:induction false} ResolveOfConcat(at: seq<string>, p: seq<string>, q: seq<string>)
    ensures Resolve(at, p + q) == Resolve(Resolve(at, p), q)
    decreases |p|
  {
    if p == [] {
      assert p + q == q;
    } else {
      assert (p + q)[1..] == p[1..] + q;
      ResolveOfConcat(Enter(at, p[0]), p[1..], q);
    }
  }

  lemma {:induction false} ResolvePlain(at: seq<string>, parts: seq<string>)
    requires ".." !in parts
    ensures IsPrefix(at, Resolve(at, parts))
    decreases |parts|
  {
    if parts != [] {
      ResolvePlain(Enter(at, parts[0]), parts[1..]);
    }
  }

  // ------------------------------------------------------------- rendering

  lemma RenderIsInjective(a: seq<string>, b: seq<string>)
    requires Clean(a) && Clean(b) && Render(a) == Render(b)
    ensures a == b
  {
    assert Join(a, SEP) == Render(a)[1..] == Render(b)[1..] == Join(b, SEP);
    SplitOfRendered(a);
    SplitOfRendered(b);
  }

  lemma SplitOfRendered(a: seq<string>)
    requires Clean(a)
    ensures Split(Join(a, SEP), SEP) == if a == [] then [""] else a
  {
    if a != [] {
      SplitOfJoin(a, SEP);
    }
  }

  lemma {:induction false} JoinOfConcat(a: seq<string>, b: seq<string>)
    requires a != [] && b != []
    ensures Join(a + b, SEP) == Join(a, SEP) + [SEP] + Join(b, SEP)
  {
    if |a| == 1 {
      JoinCons(a[0], b, SEP);
      assert a + b == [a[0]] + b;
    } else {
      JoinOfConcat(a[1..], b);
      assert a + b == [a[0]] + (a[1..] + b);
      JoinCons(a[0], a[1..] + b, SEP);
    }
  }

  /** The heart of the guard: with a separator appended, string prefix and
      component prefix agree. */
  lemma StringPrefixIsComponentPrefix(root: seq<string>, target: seq<string>)
    requires Clean(root) && Clean(target) && root != []
    ensures StartsWith(Render(target), Render(root) + [SEP]) <==> IsPrefix(root, target) && root != target
  {
    if IsPrefix(root, target) && root != target {
      assert target == root + target[|root|..];
      JoinOfConcat(root, target[|root|..]);
      assert Render(target) == Render(root) + [SEP] + Join(target[|root|..], SEP);
    }
    if StartsWith(Render(target), Render(root) + [SEP]) {
      var tail := Render(target)[|Render(root)| + 1..];
      assert Render(target) == Render(root) + [SEP] + tail;
      assert Join(target, SEP) == Render(target)[1..] == Join(root, SEP) + [SEP] + tail;
      SplitOfConcat(Join(root, SEP), tail, SEP);
      SplitOfRendered(root);
      SplitOfRendered(target);
      assert Split(Join(target, SEP), SEP) == root + Split(tail, SEP);
    }
  }

  // --------------------------------------------------------------- theorems

  /** For every pair of normalised paths: the guard is component containment,
      except that under the root directory it lets only `/` itself through. */
  lemma AdmitsIsContainment(root: seq<string>, target: seq<string>)
    requires Clean(root) && Clean(target)
    ensures Admits(Render(root), Render(target)) <==>
            IsPrefix(root, target) && (root != [] || target == [])
  {
    if Render(root) == Render(target) {
      RenderIsInjective(root, target);
    }
    if root != [] {
      StringPrefixIsComponentPrefix(root, target);
    } else if target != [] {
      assert Render(root) + [SEP] == [SEP, SEP];
      if |target| == 1 {
        assert Render(target)[1] == target[0][0];
      } else {
        assert Render(target)[1] == target[0][0];
      }
    }
  }

  function Gap(a: string): string {
    if a == "" || a[|a| - 1] == SEP then "" else [SEP]
  }

  lemma JoinIs(a: string, b: string)
    requires !IsAbsolute(b)
    ensures OsJoin(a, b) == a + Gap(a) + b
  {
  }

  lemma StartsAlike(a: string, b: string)
    requires a != ""
    ensures IsAbsolute(a + b) <==> IsAbsolute(a)
  {
    assert (a + b)[..1] == a[..1];
  }

  lemma EndsAlike(a: string, b: string)
    requires b != ""
    ensures Gap(a + b) == Gap(b)
  {
    assert (a + b)[|a + b| - 1] == b[|b| - 1];
  }

  lemma JoinRelative(cwd: string, dest: string, member: string)
    requires dest != "" && !IsAbsolute(dest) && !IsAbsolute(member)
    ensures OsJoin(cwd, OsJoin(dest, member)) == OsJoin(OsJoin(cwd, dest), member)
  {
    var at, into := cwd + Gap(cwd), dest + Gap(dest);
    StartsAlike(dest, Gap(dest) + member);
    Associate(dest, Gap(dest), member);
    EndsAlike(at, dest);
    Associate(at, into, member);
    Associate(at, dest, Gap(dest));
    hide Gap, IsAbsolute, OsJoin;
    JoinIs(dest, member);
    JoinIs(cwd, into + member);
    JoinIs(cwd, dest);
    JoinIs(at + dest, member);
  }

  lemma JoinEmpty(cwd: string, member: string)
    requires !IsAbsolute(member)
    ensures OsJoin(cwd, member) == OsJoin(OsJoin(cwd, ""), member)
  {
    var at := cwd + Gap(cwd);
    assert Gap(at) == "" && at + "" == at;
    JoinIs(cwd, member);
    JoinIs(cwd, "");
    JoinIs(at, member);
  }

  /** Joining to the working directory first, as `realpath` does with a relative path,
      or last makes no difference. */
  lemma JoinIsAssociative(cwd: string, dest: string, member: string)
    ensures OsJoin(cwd, OsJoin(dest, member)) == OsJoin(OsJoin(cwd, dest), member)
  {
    if IsAbsolute(member) {
    } else if dest == "" {
      JoinEmpty(cwd, member);
      assert "" + member == member;
    } else if IsAbsolute(dest) {
      JoinIs(dest, member);
      StartsAlike(dest, Gap(dest) + member);
      Associate(dest, Gap(dest), member);
    } else {
      JoinRelative(cwd, dest, member);
    }
  }

  lemma ConcatComponents(stem: string, member: string)
    ensures Components(stem + [SEP] + member) == Resolve(Components(stem), Split(member, SEP))
  {
    SplitOfConcat(stem, member, SEP);
    ResolveOfConcat([], Split(stem, SEP), Split(member, SEP));
  }

  lemma JoinedComponents(dest: string, member: string)
    requires IsAbsolute(dest)
    ensures Components(OsJoin(dest, member)) ==
            if IsAbsolute(member) then Components(member)
            else Resolve(Components(dest), Split(member, SEP))
  {
    if !IsAbsolute(member) {
      if dest[|dest| - 1] == SEP {
        var stem := dest[..|dest| - 1];
        assert dest == stem + [SEP] + "" && dest + member == stem + [SEP] + member;
        ConcatComponents(stem, member);
        ConcatComponents(stem, "");
        assert Split("", SEP) == [""] && Resolve(Components(stem), [""]) == Components(stem);
      } else {
        ConcatComponents(dest, member);
      }
    }
  }

  /** What `realpath(join(dest, member))` resolves to: an absolute member is
      taken from the root, any other from inside the destination. */
  lemma TargetComponents(cwd: string, dest: string, member: string)
    requires IsAbsolute(cwd)
    ensures Resolved(cwd, OsJoin(dest, member)) ==
            if IsAbsolute(member) then Components(member)
            else Resolve(Resolved(cwd, dest), Split(member, SEP))
  {
    JoinIsAssociative(cwd, dest, member);
    JoinedComponents(OsJoin(cwd, dest), member);
  }

  /** The guard as the source applies it to one member, for every destination,
      relative or absolute, and every member string. */
  lemma GuardIsContainment(cwd: string, dest: string, member: string)
    requires IsAbsolute(cwd)
    ensures Admits(RealPath(cwd, dest), RealPath(cwd, OsJoin(dest, member))) <==>
            Contained(cwd, dest, member) &&
            (Resolved(cwd, dest) != [] || Resolved(cwd, OsJoin(dest, member)) == [])
  {
    ResolveIsClean([], Split(OsJoin(cwd, dest), SEP));
    ResolveIsClean([], Split(OsJoin(cwd, OsJoin(dest, member)), SEP));
    AdmitsIsContainment(Resolved(cwd, dest), Resolved(cwd, OsJoin(dest, member)));
  }

  predicate Contained(cwd: string, dest: string, member: string) {
    IsPrefix(Resolved(cwd, dest), Resolved(cwd, OsJoin(dest, member)))
  }

  /** A relative member without a `..` part is never refused. */
  lemma PlainMemberIsAdmitted(cwd: string, dest: string, member: string)
    requires IsAbsolute(cwd) && Resolved(cwd, dest) != []
    requires !IsAbsolute(member) && ".." !in Split(member, SEP)
    ensures Admits(RealPath(cwd, dest), RealPath(cwd, OsJoin(dest, member)))
  {
    TargetComponents(cwd, dest, member);
    ResolvePlain(Resolved(cwd, dest), Split(member, SEP));
    GuardIsContainment(cwd, dest, member);
  }

  // ---------------------------------------------- what the parts of a member do

  /** `..` n times. */
  function Ups(n: nat): seq<string> {
    if n == 0 then [] else [".."] + Ups(n - 1)
  }

  /** What is left after so many steps up; the root directory is its own parent. */
  function Above(root: seq<string>, n: nat): seq<string> {
    if n <= |root| then root[..|root| - n] else []
  }

  lemma {:induction false} ResolveUps(at: seq<string>, n: nat)
    ensures Resolve(at, Ups(n)) == Above(at, n)
    decreases n
  {
    if n == 0 {
      assert at[..|at|] == at;
    } else {
      assert ([".."] + Ups(n - 1))[1..] == Ups(n - 1);
      ResolveUps(Enter(at, ".."), n - 1);
    }
  }

  lemma {:induction false} ResolveNames(at: seq<string>, names: seq<string>)
    requires Clean(names)
    ensures Resolve(at, names) == at + names
    decreases |names|
  {
    if names == [] {
      assert at + names == at;
    } else {
      ResolveNames(at + [names[0]], names[1..]);
      assert at + [names[0]] + names[1..] == at + names;
    }
  }

  /** Where a member of these parts leads, from inside the destination or from the top. */
  lemma MemberLeadsTo(cwd: string, dest: string, parts: seq<string>)
    requires IsAbsolute(cwd) && forall i :: 0 <= i < |parts| ==> SEP !in parts[i]
    ensures Resolved(cwd, OsJoin(dest, Join(parts, SEP))) ==
            Resolve(if IsAbsolute(Join(parts, SEP)) then [] else Resolved(cwd, dest), parts)
  {
    var member := Join(parts, SEP);
    TargetComponents(cwd, dest, member);
    if parts == [] {
      assert Split("", SEP) == [""];
      assert Resolve(Resolved(cwd, dest), [""]) == Resolved(cwd, dest);
    } else {
      SplitOfJoin(parts, SEP);
    }
  }

  lemma {:induction false} UpsHaveNoSeparator(n: nat)
    ensures forall i :: 0 <= i < |Ups(n)| ==> Ups(n)[i] == ".."
    decreases n
  {
    if n > 0 { UpsHaveNoSeparator(n - 1); }
  }

  lemma FirstPartDecides(parts: seq<string>)
    requires parts != [] && parts[0] != "" && SEP !in parts[0]
    ensures !IsAbsolute(Join(parts, SEP))
  {
    assert parts[0][0] in parts[0];
    assert Join(parts, SEP)[0] == parts[0][0];
  }

  /** A member that climbs n directories and then goes down by plain names leads to
      exactly those names below what is left of the destination. So it is let through
      if and only if the names first go down again to where it came from. */
  lemma ClimbingMember(cwd: string, dest: string, n: nat, names: seq<string>)
    requires IsAbsolute(cwd) && Clean(names) && n + |names| > 0
    ensures var root := Resolved(cwd, dest);
            var member := Join(Ups(n) + names, SEP);
            && Resolved(cwd, OsJoin(dest, member)) == Above(root, n) + names
            && (Contained(cwd, dest, member) <==> IsPrefix(root[|Above(root, n)|..], names))
  {
    var root := Resolved(cwd, dest);
    var parts := Ups(n) + names;
    UpsHaveNoSeparator(n);
    FirstPartDecides(parts);
    MemberLeadsTo(cwd, dest, parts);
    ResolveOfConcat(root, Ups(n), names);
    ResolveUps(root, n);
    ResolveNames(Above(root, n), names);
    PrefixBelow(root, Above(root, n), names);
  }

  lemma PrefixBelow(root: seq<string>, above: seq<string>, names: seq<string>)
    requires IsPrefix(above, root)
    ensures IsPrefix(root, above + names) <==> IsPrefix(root[|above|..], names)
  {
    var k := |above|;
    if IsPrefix(root, above + names) {
      assert names[..|root| - k] == (above + names)[k..|root|] == root[k..];
    }
    if IsPrefix(root[k..], names) {
      assert (above + names)[..|root|] == above + names[..|root| - k] == root[..k] + root[k..];
    }
  }

  /** A destination or a member that is written as its own names from the top. */
  lemma RenderedPath(cwd: string, dest: string, names: seq<string>)
    requires IsAbsolute(cwd) && Clean(names)
    ensures Resolved(cwd, Render(names)) == names
    ensures Resolved(cwd, OsJoin(dest, Render(names))) == names
    ensures Contained(cwd, dest, Render(names)) <==> IsPrefix(Resolved(cwd, dest), names)
  {
    assert Render(names) == "" + [SEP] + Join(names, SEP);
    SplitOfConcat("", Join(names, SEP), SEP);
    SplitOfRendered(names);
    ResolveOfConcat([], [""], if names == [] then [""] else names);
    ResolveNames([], names);
  }

  /** A plain name followed by `..` can be left out anywhere in a member, if it stays
      relative or absolute as it was: it leads to the same place. */
  lemma DetourLeadsNowhere(cwd: string, dest: string, a: seq<string>, name: string, b: seq<string>)
    requires IsAbsolute(cwd) && Clean([name])
    requires forall part :: part in a + b ==> SEP !in part
    requires IsAbsolute(Join(a + [name, ".."] + b, SEP)) <==> IsAbsolute(Join(a + b, SEP))
    ensures Resolved(cwd, OsJoin(dest, Join(a + [name, ".."] + b, SEP))) == Resolved(cwd, OsJoin(dest, Join(a + b, SEP)))
    ensures Contained(cwd, dest, Join(a + [name, ".."] + b, SEP)) <==> Contained(cwd, dest, Join(a + b, SEP))
  {
    assert [name][0] == name;
    forall at ensures Resolve(at, [name, ".."]) == at {
      assert [name, ".."][1..] == [".."] && [".."][1..] == [];
      assert Enter(Enter(at, name), "..") == at;
      assert Resolve(at, [name, ".."]) == Resolve(Enter(at, name), [".."]);
    }
    DroppedPartsLeadNowhere(cwd, dest, a, [name, ".."], b);
  }

  /** So can an empty part and a `.`. */
  lemma DotLeadsNowhere(cwd: string, dest: string, a: seq<string>, dot: string, b: seq<string>)
    requires IsAbsolute(cwd) && dot in ["", "."]
    requires forall part :: part in a + b ==> SEP !in part
    requires IsAbsolute(Join(a + [dot] + b, SEP)) <==> IsAbsolute(Join(a + b, SEP))
    ensures Resolved(cwd, OsJoin(dest, Join(a + [dot] + b, SEP))) == Resolved(cwd, OsJoin(dest, Join(a + b, SEP)))
    ensures Contained(cwd, dest, Join(a + [dot] + b, SEP)) <==> Contained(cwd, dest, Join(a + b, SEP))
  {
    assert [dot][1..] == [];
    DroppedPartsLeadNowhere(cwd, dest, a, [dot], b);
  }

  lemma DroppedPartsLeadNowhere(cwd: string, dest: string, a: seq<string>, mid: seq<string>, b: seq<string>)
    requires IsAbsolute(cwd) && forall part :: part in a + mid + b ==> SEP !in part
    requires forall at :: Resolve(at, mid) == at
    requires IsAbsolute(Join(a + mid + b, SEP)) <==> IsAbsolute(Join(a + b, SEP))
    ensures Resolved(cwd, OsJoin(dest, Join(a + mid + b, SEP))) == Resolved(cwd, OsJoin(dest, Join(a + b, SEP)))
  {
    var at := if IsAbsolute(Join(a + b, SEP)) then [] else Resolved(cwd, dest);
    assert forall i :: 0 <= i < |a + mid + b| ==> (a + mid + b)[i] in a + mid + b;
    assert forall i :: 0 <= i < |a + b| ==> (a + b)[i] in a + mid + b;
    ResolveDropped(at, a, mid, b);
    hide Resolve, Resolved, OsJoin, Join, IsAbsolute;
    MemberLeadsTo(cwd, dest, a + mid + b);
    MemberLeadsTo(cwd, dest, a + b);
  }

  lemma ResolveDropped(at: seq<string>, a: seq<string>, mid: seq<string>, b: seq<string>)
    requires forall from :: Resolve(from, mid) == from
    ensures Resolve(at, a + mid + b) == Resolve(at, a + b)
  {
    hide Resolve;
    ResolveOfConcat(at, a + mid, b);
    ResolveOfConcat(at, a, mid);
    ResolveOfConcat(at, a, b);
  }

  /** The same place in the same directory, under a name that is one character longer. */
  function Sibling(root: seq<string>, c: char): seq<string>
    requires root != []
  {
    root[|root| - 1 := root[|root| - 1] + [c]]
  }

  lemma {:induction false} JoinOfSibling(root: seq<string>, c: char)
    requires root != []
    ensures Join(Sibling(root, c), SEP) == Join(root, SEP) + [c]
    decreases |root|
  {
    if |root| > 1 {
      JoinOfSibling(root[1..], c);
      assert Sibling(root, c)[1..] == Sibling(root[1..], c);
    }
  }

  /** Why the separator is appended: a bare prefix test lets every such sibling through,
      and the test with the separator lets none. */
  lemma BarePrefixTestIsNotContainment(root: seq<string>, c: char)
    requires Clean(root) && root != [] && c != SEP
    ensures StartsWith(Render(Sibling(root, c)), Render(root))
    ensures !IsPrefix(root, Sibling(root, c)) && !Admits(Render(root), Render(Sibling(root, c)))
  {
    var sibling := Sibling(root, c);
    JoinOfSibling(root, c);
    assert Render(sibling) == Render(root) + [c];
    assert sibling[..|root|][|root| - 1] != root[|root| - 1];
    assert Clean(sibling) by {
      var last := root[|root| - 1];
      assert |last + [c]| >= 2 && (last + [c])[..|last|] == last;
      assert ".."[..1] == ".";
    }
    AdmitsIsContainment(root, sibling);
  }

  // ------------------------------------------------------------- extraction

  datatype Archive =
    | ZipArchive(members: seq<string>)
    | TarArchive
    | NotAnArchive

  datatype Outcome =
    | ZipExtracted(members: seq<string>)  // z.extractall(dest)
    | TarFiltered                         // t.extractall(dest, filter="data")
    | UnsafePath(member: string)
    | BadArchive                          // not an archive, or misnamed .zip

  ghost predicate AllContained(cwd: string, dest: string, members: seq<string>) {
    forall i :: 0 <= i < |members| ==> Contained(cwd, dest, members[i])
  }

  /** `_safe_extract`. `namedZip` is `filename.lower().endswith(".zip")`. The zip
      branch extracts everything or nothing, and refuses exactly when some member
      leaves the destination; it names the first such member. */
  method SafeExtract(archive: Archive, cwd: string, dest: string, namedZip: bool) returns (r: Outcome)
    requires IsAbsolute(cwd) && Resolved(cwd, dest) != []
    ensures archive.ZipArchive? && AllContained(cwd, dest, archive.members) ==> r == ZipExtracted(archive.members)
    ensures archive.ZipArchive? && !AllContained(cwd, dest, archive.members) ==>
              exists i :: 0 <= i < |archive.members| && r == UnsafePath(archive.members[i]) &&
                          !Contained(cwd, dest, archive.members[i]) && AllContained(cwd, dest, archive.members[..i])
    ensures archive.TarArchive? ==> r == if namedZip then BadArchive else TarFiltered
    ensures archive.NotAnArchive? ==> r == BadArchive
  {
    hide OsJoin, Resolved, Render;
    var destRoot := RealPath(cwd, dest);
    if namedZip || archive.ZipArchive? {
      if !archive.ZipArchive? {
        return BadArchive;  // zipfile.BadZipFile
      }
      for i := 0 to |archive.members|
        invariant AllContained(cwd, dest, archive.members[..i])
      {
        var target := RealPath(cwd, OsJoin(dest, archive.members[i]));
        GuardIsContainment(cwd, dest, archive.members[i]);
        if target != destRoot && !StartsWith(target, destRoot + [SEP]) {
          return UnsafePath(archive.members[i]);
        }
        assert archive.members[..i + 1] == archive.members[..i] + [archive.members[i]];
      }
      assert archive.members[..|archive.members|] == archive.members;
      return ZipExtracted(archive.members);
    } else if archive.TarArchive? {
      return TarFiltered;
    } else {
      return BadArchive;
    }
  }
}
