/** Directory trees as sandboxed code can leave them, and `os.walk` over them. */
module FileTree {
  import opened Common

  type Bytes = seq<bv8>

  /** The names from a starting directory down to an entry. */
  type Path = seq<string>

  datatype Node =
    | File(content: Bytes)
    | Special(size: nat)             // a FIFO, socket or device
    | Link(size: nat, toDir: bool)   // a symbolic link and what it points at
    | Dir(kids: Forest)

  /** The entries of a directory in listing order. */
  datatype Forest = Nil | Cons(name: string, node: Node, rest: Forest)

  type Found = (Path, Node)

  // ------------------------------------------------------- direct lookup

  function Find(f: Forest, name: string): Option<Node> {
    match f
    case Nil => None
    case Cons(n, node, rest) => if n == name then Some(node) else Find(rest, name)
  }

  /** The entry a path leads to through real directories that `keep` admits. */
  function Reach(f: Forest, path: Path, keep: string -> bool): Option<Node>
    decreases |path|
  {
    if path == [] then None
    else if |path| == 1 then Find(f, path[0])
    else
      match Find(f, path[0])
      case Some(Dir(kids)) => if keep(path[0]) then Reach(kids, path[1..], keep) else None
      case _ => None
  }

  /** A directory cannot list one name twice, and no name holds a separator. */
  predicate WellFormed(f: Forest) {
    match f
    case Nil => true
    case Cons(name, node, rest) =>
      Find(rest, name).None? && '/' !in name && WellFormed(rest) && (node.Dir? ==> WellFormed(node.kids))
  }

  // --------------------------------------------------------------- os.walk

  /** What `os.listdir` yields. */
  function Listing(f: Forest): seq<string> {
    match f
    case Nil => []
    case Cons(name, _, rest) => [name] + Listing(rest)
  }

  lemma {:induction false} ListingHas(f: Forest, name: string)
    ensures name in Listing(f) <==> Find(f, name).Some?
  {
    if f.Cons? { ListingHas(f.rest, name); }
  }

  ghost predicate NoneTwice(names: seq<string>) {
    forall i, j :: 0 <= i < j < |names| ==> names[i] != names[j]
  }

  lemma NoneTwiceCons(name: string, rest: seq<string>)
    ensures NoneTwice([name] + rest) <==> name !in rest && NoneTwice(rest)
  {
    var names := [name] + rest;
    if NoneTwice(names) {
      forall i | 0 <= i < |rest| ensures rest[i] != name { assert names[0] != names[i + 1]; }
      forall i, j | 0 <= i < j < |rest| ensures rest[i] != rest[j] { assert names[i + 1] != names[j + 1]; }
    }
  }

  /** Each directory is well formed. */
  ghost predicate DirsWellFormed(f: Forest) {
    forall name :: Find(f, name).Some? && Find(f, name).value.Dir? ==> WellFormed(Find(f, name).value.kids)
  }

  lemma DirsCons(f: Forest)
    requires f.Cons? && Find(f.rest, f.name).None?
    ensures DirsWellFormed(f) <==> DirsWellFormed(f.rest) && (f.node.Dir? ==> WellFormed(f.node.kids))
  {
    forall name ensures Find(f, name) == if name == f.name then Some(f.node) else Find(f.rest, name) { }
    assert Find(f, f.name) == Some(f.node);
    if DirsWellFormed(f) {
      forall name | Find(f.rest, name).Some? && Find(f.rest, name).value.Dir?
        ensures WellFormed(Find(f.rest, name).value.kids) { assert Find(f, name) == Find(f.rest, name); }
    }
  }

  /** Level by level: no name twice, none with a separator, and the same of each directory. */
  lemma {:induction false} WellFormedIff(f: Forest)
    ensures WellFormed(f) <==>
            NoneTwice(Listing(f)) && (forall name :: name in Listing(f) ==> '/' !in name) && DirsWellFormed(f)
  {
    if f.Cons? {
      WellFormedIff(f.rest);
      ListingHas(f.rest, f.name);
      NoneTwiceCons(f.name, Listing(f.rest));
      if f.name !in Listing(f.rest) { DirsCons(f); }
      assert forall name :: name in Listing(f) <==> name == f.name || name in Listing(f.rest);
      hide DirsWellFormed, NoneTwice;
    }
  }

  /** What `os.walk` puts in `files` rather than in `dirs`. */
  predicate IsPlain(node: Node) {
    !node.Dir? && !(node.Link? && node.toDir)
  }

  function FilesHere(f: Forest, at: Path): seq<Found> {
    match f
    case Nil => []
    case Cons(name, node, rest) =>
      (if IsPlain(node) then [(at + [name], node)] else []) + FilesHere(rest, at)
  }

  /** The directories the walk goes on to: never through a symbolic link. */
  function DirsHere(f: Forest, at: Path, keep: string -> bool): seq<(Path, Forest)> {
    match f
    case Nil => []
    case Cons(name, node, rest) =>
      (if node.Dir? && keep(name) then [(at + [name], node.kids)] else []) + DirsHere(rest, at, keep)
  }

  /** The files of a top-down walk: a directory's own, then each subdirectory's. */
  function Walk(f: Forest, at: Path, keep: string -> bool): seq<Found>
    decreases f, 1
  {
    FilesHere(f, at) + WalkBelow(f, at, keep)
  }

  function WalkBelow(f: Forest, at: Path, keep: string -> bool): seq<Found>
    decreases f, 0
  {
    match f
    case Nil => []
    case Cons(name, node, rest) =>
      (if node.Dir? && keep(name) then Walk(node.kids, at + [name], keep) else []) + WalkBelow(rest, at, keep)
  }

  /** The walk of a list of directories still to be visited. */
  function WalkAll(todo: seq<(Path, Forest)>, keep: string -> bool): seq<Found> {
    if todo == [] then [] else Walk(todo[0].1, todo[0].0, keep) + WalkAll(todo[1..], keep)
  }

  lemma {:induction false} WalkAllConcat(a: seq<(Path, Forest)>, b: seq<(Path, Forest)>, keep: string -> bool)
    ensures WalkAll(a + b, keep) == WalkAll(a, keep) + WalkAll(b, keep)
  {
    if a == [] {
      assert a + b == b;
    } else {
      assert (a + b)[1..] == a[1..] + b;
      WalkAllConcat(a[1..], b, keep);
    }
  }

  lemma {:induction false} BelowIsDirs(f: Forest, at: Path, keep: string -> bool)
    ensures WalkBelow(f, at, keep) == WalkAll(DirsHere(f, at, keep), keep)
  {
    if f.Cons? {
      BelowIsDirs(f.rest, at, keep);
      var here := if f.node.Dir? && keep(f.name) then [(at + [f.name], f.node.kids)] else [];
      WalkAllConcat(here, DirsHere(f.rest, at, keep), keep);
      if here != [] {
        assert here[1..] == [];
        assert WalkAll(here, keep) == Walk(f.node.kids, at + [f.name], keep);
      }
    }
  }

  /** One turn of a walk loop: visit the first pending directory. */
  lemma WalkStep(todo: seq<(Path, Forest)>, keep: string -> bool)
    requires todo != []
    ensures WalkAll(todo, keep) ==
            FilesHere(todo[0].1, todo[0].0) + WalkAll(DirsHere(todo[0].1, todo[0].0, keep) + todo[1..], keep)
  {
    var (at, f) := todo[0];
    assert WalkAll(todo, keep) == FilesHere(f, at) + WalkBelow(f, at, keep) + WalkAll(todo[1..], keep);
    hide FilesHere, DirsHere, WalkBelow, Walk, WalkAll;
    BelowIsDirs(f, at, keep);
    WalkAllConcat(DirsHere(f, at, keep), todo[1..], keep);
    Associate(FilesHere(f, at), WalkBelow(f, at, keep), WalkAll(todo[1..], keep));
  }

  /** Entries in a tree; a walk loop terminates because it drops. */
  function Count(f: Forest): nat {
    match f
    case Nil => 0
    case Cons(_, node, rest) => 1 + (if node.Dir? then Count(node.kids) else 0) + Count(rest)
  }

  function CountAll(todo: seq<(Path, Forest)>): nat {
    if todo == [] then 0 else 1 + Count(todo[0].1) + CountAll(todo[1..])
  }

  lemma {:induction false} CountAllConcat(a: seq<(Path, Forest)>, b: seq<(Path, Forest)>)
    ensures CountAll(a + b) == CountAll(a) + CountAll(b)
  {
    if a == [] {
      assert a + b == b;
    } else {
      assert (a + b)[1..] == a[1..] + b;
      CountAllConcat(a[1..], b);
    }
  }

  lemma {:induction false} DirsCount(f: Forest, at: Path, keep: string -> bool)
    ensures CountAll(DirsHere(f, at, keep)) <= Count(f)
  {
    if f.Cons? {
      DirsCount(f.rest, at, keep);
      var here := if f.node.Dir? && keep(f.name) then [(at + [f.name], f.node.kids)] else [];
      CountAllConcat(here, DirsHere(f.rest, at, keep));
      if here != [] { assert CountAll(here) == 1 + Count(f.node.kids) + CountAll(here[1..]); }
    }
  }

  lemma WalkShrinks(todo: seq<(Path, Forest)>, keep: string -> bool)
    requires todo != []
    ensures CountAll(DirsHere(todo[0].1, todo[0].0, keep) + todo[1..]) < CountAll(todo)
  {
    DirsCount(todo[0].1, todo[0].0, keep);
    CountAllConcat(DirsHere(todo[0].1, todo[0].0, keep), todo[1..]);
  }

  // ---------------------------------------- the walk against direct lookup

  lemma {:induction false} FilesHereAreFound(f: Forest, at: Path, found: Found)
    requires WellFormed(f)
    ensures found in FilesHere(f, at) <==>
            |found.0| == |at| + 1 && found.0[..|at|] == at &&
            Find(f, found.0[|at|]) == Some(found.1) && IsPlain(found.1)
  {
    if f.Cons? {
      FilesHereAreFound(f.rest, at, found);
      assert (at + [f.name])[..|at|] == at;
      if |found.0| == |at| + 1 && found.0[..|at|] == at && found.0[|at|] == f.name {
        assert found.0 == at + [f.name];
      }
    }
  }

  /** What the walk below a directory finds: entries at least two names down. */
  lemma {:induction false} BelowIsReach(f: Forest, at: Path, keep: string -> bool, found: Found)
    requires WellFormed(f)
    ensures found in WalkBelow(f, at, keep) <==>
            |found.0| > |at| + 1 && found.0[..|at|] == at &&
            Reach(f, found.0[|at|..], keep) == Some(found.1) && IsPlain(found.1)
    decreases f, 0
  {
    match f
    case Nil =>
    case Cons(name, node, rest) =>
      hide FilesHere, IsPlain;
      BelowIsReach(rest, at, keep, found);
      var path := found.0;
      if |path| > |at| + 1 && path[..|at|] == at {
        assert path[|at|..][0] == path[|at|];
        assert path[|at|..][1..] == path[|at| + 1..];
        assert path[..|at| + 1] == at + [path[|at|]];
      }
      if node.Dir? && keep(name) {
        WalkIsReach(node.kids, at + [name], keep, found);
        if found in Walk(node.kids, at + [name], keep) {
          assert path[..|at|] == (at + [name])[..|at|] == at;
          assert path[|at|] == (path[..|at| + 1])[|at|] == name;
        }
      }
      if found in WalkBelow(rest, at, keep) {
        assert path[|at|] != name;
      }
  }

  /** The walk is exhaustive and exact: it yields a plain entry under a path
      exactly when the path leads to that entry. */
  lemma {:induction false} WalkIsReach(f: Forest, at: Path, keep: string -> bool, found: Found)
    requires WellFormed(f)
    ensures found in Walk(f, at, keep) <==>
            |found.0| > |at| && found.0[..|at|] == at &&
            Reach(f, found.0[|at|..], keep) == Some(found.1) &&
            (found.1.File? || found.1.Special? || (found.1.Link? && !found.1.toDir))
    decreases f, 1
  {
    FilesHereAreFound(f, at, found);
    BelowIsReach(f, at, keep, found);
    if |found.0| == |at| + 1 {
      assert found.0[|at|..] == [found.0[|at|]];
    }
  }

  predicate DistinctPaths(s: seq<Found>) {
    forall i, j :: 0 <= i < j < |s| ==> s[i].0 != s[j].0
  }

  lemma {:induction false} FilesHereDistinct(f: Forest, at: Path)
    requires WellFormed(f)
    ensures DistinctPaths(FilesHere(f, at))
  {
    if f.Cons? {
      FilesHereDistinct(f.rest, at);
      forall found | found in FilesHere(f.rest, at) ensures found.0 != at + [f.name] {
        FilesHereAreFound(f.rest, at, found);
      }
    }
  }

  lemma {:induction false} BelowDistinct(f: Forest, at: Path, keep: string -> bool)
    requires WellFormed(f)
    ensures DistinctPaths(WalkBelow(f, at, keep))
    decreases f, 0
  {
    if f.Cons? {
      BelowDistinct(f.rest, at, keep);
      if f.node.Dir? && keep(f.name) {
        WalkDistinct(f.node.kids, at + [f.name], keep);
        forall a, b | a in Walk(f.node.kids, at + [f.name], keep) && b in WalkBelow(f.rest, at, keep)
          ensures a.0 != b.0
        {
          WalkIsReach(f.node.kids, at + [f.name], keep, a);
          BelowIsReach(f.rest, at, keep, b);
          assert a.0[|at|] == (a.0[..|at| + 1])[|at|] == f.name;
          assert b.0[|at|..][0] == b.0[|at|];
        }
      }
    }
  }

  /** No path is visited twice. */
  lemma {:induction false} WalkDistinct(f: Forest, at: Path, keep: string -> bool)
    requires WellFormed(f)
    ensures DistinctPaths(Walk(f, at, keep))
    decreases f, 1
  {
    FilesHereDistinct(f, at);
    BelowDistinct(f, at, keep);
    forall a, b | a in FilesHere(f, at) && b in WalkBelow(f, at, keep) ensures a.0 != b.0 {
      FilesHereAreFound(f, at, a);
      BelowIsReach(f, at, keep, b);
    }
  }

  // ------------------------------------------------- what a loop body selects

  /** What a loop over the files of a walk collects, one file at a time. */
  function Select<T>(found: seq<Found>, pick: Found -> seq<T>): seq<T> {
    if found == [] then [] else pick(found[0]) + Select(found[1..], pick)
  }

  lemma {:induction false} SelectConcat<T>(a: seq<Found>, b: seq<Found>, pick: Found -> seq<T>)
    ensures Select(a + b, pick) == Select(a, pick) + Select(b, pick)
  {
    if a == [] {
      assert a + b == b;
    } else {
      assert (a + b)[1..] == a[1..] + b;
      SelectConcat(a[1..], b, pick);
    }
  }

  lemma {:induction false} SelectMembers<T>(found: seq<Found>, pick: Found -> seq<T>, item: T)
    ensures item in Select(found, pick) <==> exists f :: f in found && item in pick(f)
  {
    if found != [] {
      SelectMembers(found[1..], pick, item);
      assert found == [found[0]] + found[1..];
    }
  }

  // --------------------------------------------------------------- sizes

  function NodeSize(node: Node): nat {
    match node
    case File(content) => |content|
    case Special(size) => size
    case Link(size, _) => size
    case Dir(_) => 0
  }

  /** Bytes in a tree, structurally. A link to a directory counts nothing, and is not
      followed; another link counts as itself. */
  function TreeSize(f: Forest): nat {
    match f
    case Nil => 0
    case Cons(_, Dir(kids), rest) => TreeSize(kids) + TreeSize(rest)
    case Cons(_, File(content), rest) => |content| + TreeSize(rest)
    case Cons(_, Special(size), rest) => size + TreeSize(rest)
    case Cons(_, Link(size, toDir), rest) => if toDir then TreeSize(rest) else size + TreeSize(rest)
  }

  function SizeOf(found: seq<Found>): nat {
    if found == [] then 0 else NodeSize(found[0].1) + SizeOf(found[1..])
  }

  lemma {:induction false} SizeOfConcat(a: seq<Found>, b: seq<Found>)
    ensures SizeOf(a + b) == SizeOf(a) + SizeOf(b)
  {
    if a == [] {
      assert a + b == b;
    } else {
      assert (a + b)[1..] == a[1..] + b;
      SizeOfConcat(a[1..], b);
    }
  }

  const EVERYWHERE: string -> bool := name => true

  lemma {:induction false} WalkSize(f: Forest, at: Path)
    ensures SizeOf(Walk(f, at, EVERYWHERE)) == TreeSize(f)
  {
    if f.Cons? {
      WalkSize(f.rest, at);
      var file: seq<Found> := if IsPlain(f.node) then [(at + [f.name], f.node)] else [];
      var sub := if f.node.Dir? then Walk(f.node.kids, at + [f.name], EVERYWHERE) else [];
      if f.node.Dir? { WalkSize(f.node.kids, at + [f.name]); }
      SizeOfConcat(file, FilesHere(f.rest, at));
      SizeOfConcat(sub, WalkBelow(f.rest, at, EVERYWHERE));
      SizeOfConcat(FilesHere(f, at), WalkBelow(f, at, EVERYWHERE));
      SizeOfConcat(FilesHere(f.rest, at), WalkBelow(f.rest, at, EVERYWHERE));
      if file != [] { assert SizeOf(file) == NodeSize(f.node) + SizeOf(file[1..]); }
    }
  }

  /** src/asset_cache.py, `_dir_size`: the walk loop adds up the tree's size. */
  method DirSize(f: Forest) returns (total: nat)
    ensures total == TreeSize(f)
  {
    total := 0;
    var todo: seq<(Path, Forest)> := [([], f)];
    WalkSize(f, []);
    assert todo[1..] == [];
    assert WalkAll(todo, EVERYWHERE) == Walk(f, [], EVERYWHERE);
    while todo != []
      invariant total + SizeOf(WalkAll(todo, EVERYWHERE)) == TreeSize(f)
      decreases CountAll(todo)
    {
      WalkStep(todo, EVERYWHERE);
      WalkShrinks(todo, EVERYWHERE);
      var files := FilesHere(todo[0].1, todo[0].0);
      todo := DirsHere(todo[0].1, todo[0].0, EVERYWHERE) + todo[1..];
      SizeOfConcat(files, WalkAll(todo, EVERYWHERE));
      ghost var before := total;
      for i := 0 to |files|
        invariant total + SizeOf(files[i..]) == before + SizeOf(files)
      {
        assert files[i..][1..] == files[i + 1..];
        total := total + NodeSize(files[i].1);
      }
    }
  }
}
