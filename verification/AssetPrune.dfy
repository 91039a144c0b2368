/** src/asset_cache.py, `prune`: eviction of whole project caches, first by age,
    then least recently used first until the total fits the budget. */
module AssetPrune {
  import opened Common
  import opened FileTree

  // ----------------------------------------------------- the cache on disk

  /** An entry of the cache root. `mtime` is the last use `touch` stamped. */
  datatype Entry = ProjectDir(mtime: int, tree: Forest) | OtherEntry

  type Root = map<string, Entry>

  /** A row of the list `prune` sorts: the tuple (mtime, path, name), and beside
      it the bytes `_dir_size` counts in that project. */
  datatype Project = Project(mtime: int, path: string, name: string, size: nat)

  function PathOf(name: string): string {
    "asset-cache/" + name
  }

  function RowOf(root: Root, name: string): Project
    requires name in root && root[name].ProjectDir?
  {
    Project(root[name].mtime, PathOf(name), name, TreeSize(root[name].tree))
  }

  /** The listing keeps real directories other than the one to keep. */
  predicate Candidate(root: Root, keep: Option<string>, name: string) {
    name in root && keep != Some(name) && root[name].ProjectDir?
  }

  function KeptSize(root: Root, keep: Option<string>): nat {
    match keep
    case Some(name) => if name in root && root[name].ProjectDir? then TreeSize(root[name].tree) else 0
    case None => 0
  }

  // ------------------------------------------------------- the sort order

  /** Python's order on the tuples. */
  predicate Before(a: Project, b: Project) {
    || a.mtime < b.mtime
    || (a.mtime == b.mtime && StringLess(a.path, b.path))
    || (a.mtime == b.mtime && a.path == b.path && StringLess(a.name, b.name))
  }

  lemma BeforeOrder(a: Project, b: Project)
    ensures !(Before(a, b) && Before(b, a)) && !Before(a, a)
    ensures a.name != b.name ==> Before(a, b) || Before(b, a)
  {
    StringOrder(a.path, b.path);
    StringOrder(a.name, b.name);
    StringOrder(a.path, a.path);
    StringOrder(a.name, a.name);
  }

  lemma BeforeTransitive(a: Project, b: Project, c: Project)
    requires Before(a, b) && Before(b, c)
    ensures Before(a, c)
  {
    if a.path != b.path && b.path != c.path && StringLess(a.path, b.path) && StringLess(b.path, c.path) {
      StringTransitive(a.path, b.path, c.path);
    }
    if StringLess(a.name, b.name) && StringLess(b.name, c.name) {
      StringTransitive(a.name, b.name, c.name);
    }
  }

  /** Oldest first, with no row twice. */
  ghost predicate Ordered(s: seq<Project>) {
    forall i, j :: 0 <= i < j < |s| ==> Before(s[i], s[j])
  }

  predicate DistinctNames(s: seq<Project>) {
    forall i, j :: 0 <= i < j < |s| ==> s[i].name != s[j].name
  }

  function Insert(p: Project, s: seq<Project>): seq<Project> {
    if s == [] || Before(p, s[0]) then [p] + s else [s[0]] + Insert(p, s[1..])
  }

  /** `sorted(...)`. */
  function Sort(s: seq<Project>): seq<Project> {
    if s == [] then [] else Insert(s[0], Sort(s[1..]))
  }

  function Total(s: seq<Project>): nat {
    if s == [] then 0 else s[0].size + Total(s[1..])
  }

  lemma {:induction false} InsertOrders(p: Project, s: seq<Project>)
    requires Ordered(s) && forall q :: q in s ==> q.name != p.name
    ensures Ordered(Insert(p, s))
    ensures forall q :: q in Insert(p, s) <==> q == p || q in s
    ensures Total(Insert(p, s)) == p.size + Total(s)
  {
    if s == [] {
    } else if Before(p, s[0]) {
      forall j | 0 <= j < |s| ensures Before(p, s[j]) {
        if j > 0 { BeforeTransitive(p, s[0], s[j]); }
      }
      assert ([p] + s)[1..] == s;
    } else {
      BeforeOrder(p, s[0]);
      InsertOrders(p, s[1..]);
      var rest := Insert(p, s[1..]);
      assert ([s[0]] + rest)[1..] == rest;
      forall j | 0 <= j < |rest| ensures Before(s[0], rest[j]) {
        assert rest[j] in rest;
      }
      assert s == [s[0]] + s[1..];
    }
  }

  lemma {:induction false} SortOrders(s: seq<Project>)
    requires DistinctNames(s)
    ensures Ordered(Sort(s))
    ensures forall q :: q in Sort(s) <==> q in s
    ensures Total(Sort(s)) == Total(s)
  {
    if s != [] {
      SortOrders(s[1..]);
      forall q | q in Sort(s[1..]) ensures q.name != s[0].name {
        assert q in s[1..];
      }
      InsertOrders(s[0], Sort(s[1..]));
      assert s == [s[0]] + s[1..];
    }
  }

  /** The order of a listing does not matter: two ordered rows of the same
      projects are the same row. */
  lemma {:induction false} OrderedIsUnique(s: seq<Project>, t: seq<Project>)
    requires Ordered(s) && Ordered(t) && forall q :: q in s <==> q in t
    ensures s == t
  {
    if s == [] {
      assert forall i :: 0 <= i < |t| ==> t[i] in t;
    } else {
      assert s[0] in s;
      if t != [] && s[0] != t[0] {
        assert t[0] in t;
        var i :| 0 <= i < |s| && s[i] == t[0];
        var j :| 0 <= j < |t| && t[j] == s[0];
        BeforeOrder(s[0], t[0]);
      } else {
        assert s == [s[0]] + s[1..] && t == [t[0]] + t[1..];
        BeforeOrder(s[0], s[0]);
        forall q ensures q in s[1..] <==> q in t[1..] {
          if q in s[1..] { assert q in s && Before(s[0], q); }
          if q in t[1..] { assert q in t && Before(t[0], q); }
        }
        OrderedIsUnique(s[1..], t[1..]);
      }
    }
  }

  // ------------------------------------------------------- the closed form

  /** The least index whose project is not past the age limit. */
  function AgeCut(s: seq<Project>, now: int, maxAge: int): (k: nat)
    ensures k <= |s|
  {
    if s == [] || now - s[0].mtime <= maxAge then 0 else 1 + AgeCut(s[1..], now, maxAge)
  }

  /** The least index whose suffix, with the kept project, fits the budget; the
      length if none does; 0 if there is no cap. */
  function SizeCut(s: seq<Project>, kept: nat, budget: int): (k: nat)
    ensures k <= |s|
  {
    if s == [] || budget <= 0 || kept + Total(s) <= budget then 0
    else 1 + SizeCut(s[1..], kept, budget)
  }

  function Cut(s: seq<Project>, kept: nat, now: int, maxAge: int, budget: int): (k: nat)
    ensures k <= |s|
  {
    Max(AgeCut(s, now, maxAge), SizeCut(s, kept, budget))
  }

  /** The projects that may be evicted, oldest first. */
  ghost predicate IsRanking(s: seq<Project>, root: Root, keep: Option<string>) {
    && Ordered(s)
    && (forall p :: p in s ==> Candidate(root, keep, p.name) && p == RowOf(root, p.name))
    && (forall name :: Candidate(root, keep, name) ==> RowOf(root, name) in s)
  }

  lemma RankingIsUnique(s: seq<Project>, t: seq<Project>, root: Root, keep: Option<string>)
    requires IsRanking(s, root, keep) && IsRanking(t, root, keep)
    ensures s == t
  {
    forall q ensures q in s <==> q in t {
      if q in s { assert Candidate(root, keep, q.name); }
      if q in t { assert Candidate(root, keep, q.name); }
    }
    OrderedIsUnique(s, t);
  }

  lemma {:induction false} RankingExists(root: Root, keep: Option<string>, names: set<string>) returns (s: seq<Project>)
    requires forall name :: name in names ==> Candidate(root, keep, name)
    ensures Ordered(s)
    ensures forall p :: p in s ==> p.name in names && Candidate(root, keep, p.name) && p == RowOf(root, p.name)
    ensures forall name :: name in names ==> Candidate(root, keep, name) && RowOf(root, name) in s
    decreases |names|
  {
    if names == {} {
      s := [];
    } else {
      var name :| name in names;
      var rest := RankingExists(root, keep, names - {name});
      InsertOrders(RowOf(root, name), rest);
      s := Insert(RowOf(root, name), rest);
    }
  }

  ghost function Ranking(root: Root, keep: Option<string>): (s: seq<Project>)
    ensures IsRanking(s, root, keep)
  {
    var names := set name | name in root && Candidate(root, keep, name);
    assert exists t :: IsRanking(t, root, keep) by {
      var t := RankingExists(root, keep, names);
      assert IsRanking(t, root, keep);
    }
    var s :| IsRanking(s, root, keep);
    s
  }

  predicate InNames(s: seq<Project>, name: string) {
    exists i :: 0 <= i < |s| && s[i].name == name
  }

  function Without(root: Root, evicted: seq<Project>): Root {
    map name | name in root && !InNames(evicted, name) :: root[name]
  }

  /** What `prune` leaves: everything but the oldest candidates, up to the cut. */
  ghost function Pruned(root: Root, keep: Option<string>, now: int, maxAge: int, budget: int): Root {
    var s := Ranking(root, keep);
    Without(root, s[..Cut(s, KeptSize(root, keep), now, maxAge, budget)])
  }

  // ---------------------------------------------------- facts about the cuts

  lemma {:induction false} AgeCutSplits(s: seq<Project>, now: int, maxAge: int)
    requires Ordered(s)
    ensures forall i :: 0 <= i < |s| ==> (now - s[i].mtime > maxAge <==> i < AgeCut(s, now, maxAge))
  {
    if s != [] {
      if now - s[0].mtime > maxAge {
        AgeCutSplits(s[1..], now, maxAge);
        assert forall i :: 1 <= i < |s| ==> s[i] == s[1..][i - 1];
      } else {
        forall i | 1 <= i < |s| ensures now - s[i].mtime <= maxAge {
          assert Before(s[0], s[i]);
        }
      }
    }
  }

  lemma TotalOfSuffix(s: seq<Project>, i: nat)
    requires i < |s|
    ensures Total(s[i..]) == s[i].size + Total(s[i + 1..])
  {
  }

  lemma {:induction false} TotalShrinks(s: seq<Project>, i: nat, j: nat)
    requires i <= j <= |s|
    ensures Total(s[j..]) <= Total(s[i..])
    decreases j - i
  {
    if i < j {
      TotalOfSuffix(s, i);
      TotalShrinks(s, i + 1, j);
    }
  }

  /** The size cut is the least index that fits, as its name says. */
  lemma {:induction false} SizeCutIsLeast(s: seq<Project>, kept: nat, budget: int)
    requires budget > 0
    ensures var k := SizeCut(s, kept, budget);
            && (k < |s| ==> kept + Total(s[k..]) <= budget)
            && forall i :: 0 <= i < k ==> kept + Total(s[i..]) > budget
  {
    assert s[0..] == s;
    if s != [] && kept + Total(s) > budget {
      SizeCutIsLeast(s[1..], kept, budget);
      var k := SizeCut(s[1..], kept, budget);
      assert s[1..][k..] == s[k + 1..];
      forall i | 0 <= i < k + 1 ensures kept + Total(s[i..]) > budget {
        if i > 0 { assert s[1..][i - 1..] == s[i..]; }
      }
    }
  }

  /** A cut computed on a suffix is the cut of the whole, moved along. */
  lemma {:induction false} CutsOfSuffix(s: seq<Project>, m: nat, kept: nat, now: int, maxAge: int, budget: int)
    requires m <= |s| && Ordered(s)
    ensures m + AgeCut(s[m..], now, maxAge) == Max(AgeCut(s, now, maxAge), m)
    ensures m + SizeCut(s[m..], kept, budget) == Max(SizeCut(s, kept, budget), m)
    decreases m
  {
    if m == 0 {
      assert s[0..] == s;
    } else {
      assert s[1..][m - 1..] == s[m..];
      if |s| > 1 { assert Before(s[0], s[1]); }
      CutsOfSuffix(s[1..], m - 1, kept, now, maxAge, budget);
    }
  }

  function Max(a: nat, b: nat): nat {
    if a >= b then a else b
  }

  // ------------------------------------------------------------- the method

  class AssetCache {
    var root: Root

    /** `prune`. `listing` is the order in which the directory is listed; what is
        left does not depend on it. */
    method Prune(keep: Option<string>, now: int, maxAge: int, budget: int, listing: seq<string>)
      requires forall name :: name in listing <==> name in root
      requires forall i, j :: 0 <= i < j < |listing| ==> listing[i] != listing[j]
      modifies this
      ensures root == Pruned(old(root), keep, now, maxAge, budget)
    {
      var projects := ListProjects(keep, listing);
      var live := EvictByAge(projects, now, maxAge);
      PhasesCompose(old(root), root, keep, now, maxAge, budget, projects, live);
      if budget <= 0 {
        return;
      }
      EvictBySize(Sort(live), KeptSize(root, keep), budget);
    }

    /** Phase one: evict what is past the age limit, collect the rest. */
    method EvictByAge(projects: seq<Project>, now: int, maxAge: int) returns (live: seq<Project>)
      requires DistinctNames(projects)
      modifies this
      ensures DistinctNames(live)
      ensures forall p :: p in live <==> p in projects && now - p.mtime <= maxAge
      ensures root == WithoutAged(old(root), projects, now, maxAge)
    {
      live := [];
      for i := 0 to |projects|
        invariant DistinctNames(live)
        invariant forall p :: p in live <==> p in projects[..i] && now - p.mtime <= maxAge
        invariant root == WithoutAged(old(root), projects[..i], now, maxAge)
      {
        var p := projects[i];
        assert projects[..i + 1] == projects[..i] + [p];
        AgedOneMore(projects, i, now, maxAge);
        if now - p.mtime > maxAge {
          root := root - {p.name};
        } else {
          forall q | q in live ensures q.name != p.name {
            assert q in projects[..i];
          }
          live := live + [p];
        }
      }
      assert projects[..|projects|] == projects;
    }

    /** Phase two: evict the oldest while the running total is over the budget. */
    method EvictBySize(order: seq<Project>, kept: nat, budget: int)
      requires budget > 0
      modifies this
      ensures root == Without(old(root), order[..SizeCut(order, kept, budget)])
    {
      var total: int := Total(order) + kept;
      assert order[0..] == order;
      var i := 0;
      while i < |order|
        invariant 0 <= i <= |order|
        invariant i + SizeCut(order[i..], kept, budget) == SizeCut(order, kept, budget)
        invariant total == kept + Total(order[i..])
        invariant root == Without(old(root), order[..i])
        decreases |order| - i
      {
        if total <= budget {
          break;
        }
        TotalOfSuffix(order, i);
        assert order[i..][1..] == order[i + 1..];
        WithoutOneMore(old(root), order, i);
        root := root - {order[i].name};
        total := total - order[i].size;
        i := i + 1;
      }
    }

    /** The `os.scandir` loop. */
    method ListProjects(keep: Option<string>, listing: seq<string>) returns (projects: seq<Project>)
      requires forall name :: name in listing <==> name in root
      requires forall i, j :: 0 <= i < j < |listing| ==> listing[i] != listing[j]
      ensures DistinctNames(projects)
      ensures forall p :: p in projects ==> Candidate(root, keep, p.name) && p == RowOf(root, p.name)
      ensures forall name :: Candidate(root, keep, name) ==> RowOf(root, name) in projects
    {
      projects := [];
      for i := 0 to |listing|
        invariant DistinctNames(projects)
        invariant forall p :: p in projects ==>
          Candidate(root, keep, p.name) && p == RowOf(root, p.name) && p.name in listing[..i]
        invariant forall name :: name in listing[..i] && Candidate(root, keep, name) ==> RowOf(root, name) in projects
      {
        var name := listing[i];
        assert listing[..i + 1] == listing[..i] + [name];
        if keep != Some(name) && root[name].ProjectDir? {
          forall q | q in projects ensures q.name != name {
            assert q.name in listing[..i];
          }
          projects := projects + [RowOf(root, name)];
        }
      }
      assert listing[..|listing|] == listing;
    }
  }

  // ----------------------------------------------- steps of the method's proof

  lemma SizeCutIsZero(s: seq<Project>, kept: nat, budget: int)
    requires budget <= 0
    ensures SizeCut(s, kept, budget) == 0
  {
  }

  /** The candidates within the age limit, in the ranking's order. */
  lemma SuffixIsLive(ranking: seq<Project>, now: int, maxAge: int, q: Project)
    requires Ordered(ranking)
    ensures q in ranking[AgeCut(ranking, now, maxAge)..] <==> q in ranking && now - q.mtime <= maxAge
  {
    AgeCutSplits(ranking, now, maxAge);
    var a := AgeCut(ranking, now, maxAge);
    if q in ranking[a..] {
      var i :| 0 <= i < |ranking[a..]| && ranking[a..][i] == q;
      assert ranking[a + i] == q;
    }
    if q in ranking && now - q.mtime <= maxAge {
      var i :| 0 <= i < |ranking| && ranking[i] == q;
      assert ranking[a..][i - a] == q;
    }
  }

  lemma LiveIsSuffix(projects: seq<Project>, live: seq<Project>, ranking: seq<Project>,
                     root: Root, keep: Option<string>, now: int, maxAge: int)
    requires IsRanking(ranking, root, keep) && DistinctNames(live)
    requires forall p :: p in projects ==> Candidate(root, keep, p.name) && p == RowOf(root, p.name)
    requires forall name :: Candidate(root, keep, name) ==> RowOf(root, name) in projects
    requires forall p :: p in live <==> p in projects && now - p.mtime <= maxAge
    ensures Sort(live) == ranking[AgeCut(ranking, now, maxAge)..]
    ensures Total(live) == Total(Sort(live))
  {
    hide AgeCut, Sort, Total;
    SortOrders(live);
    var suffix := ranking[AgeCut(ranking, now, maxAge)..];
    forall q ensures q in Sort(live) <==> q in suffix {
      SuffixIsLive(ranking, now, maxAge, q);
      if q in live { assert Candidate(root, keep, q.name); }
      if q in ranking { assert Candidate(root, keep, q.name); }
    }
    OrderedIsUnique(Sort(live), suffix);
  }

  predicate Aged(projects: seq<Project>, name: string, now: int, maxAge: int) {
    exists j :: 0 <= j < |projects| && projects[j].name == name && now - projects[j].mtime > maxAge
  }

  function WithoutAged(root: Root, projects: seq<Project>, now: int, maxAge: int): Root {
    map name | name in root && !Aged(projects, name, now, maxAge) :: root[name]
  }

  lemma AgedOneMore(projects: seq<Project>, i: nat, now: int, maxAge: int)
    requires i < |projects|
    ensures forall name ::
              Aged(projects[..i + 1], name, now, maxAge) <==>
              Aged(projects[..i], name, now, maxAge) || (name == projects[i].name && now - projects[i].mtime > maxAge)
  {
    forall name
      ensures Aged(projects[..i + 1], name, now, maxAge) <==>
              Aged(projects[..i], name, now, maxAge) || (name == projects[i].name && now - projects[i].mtime > maxAge)
    {
      if j :| 0 <= j < i && projects[j].name == name && now - projects[j].mtime > maxAge {
        assert projects[..i][j] == projects[..i + 1][j] == projects[j];
      }
      assert projects[..i + 1][i] == projects[i];
    }
  }

  lemma AgedAreEvicted(projects: seq<Project>, ranking: seq<Project>, root: Root, keep: Option<string>, now: int, maxAge: int)
    requires IsRanking(ranking, root, keep)
    requires forall p :: p in projects ==> Candidate(root, keep, p.name) && p == RowOf(root, p.name)
    requires forall name :: Candidate(root, keep, name) ==> RowOf(root, name) in projects
    ensures forall name :: InNames(ranking[..AgeCut(ranking, now, maxAge)], name) <==> Aged(projects, name, now, maxAge)
  {
    AgeCutSplits(ranking, now, maxAge);
    var a := AgeCut(ranking, now, maxAge);
    forall name ensures InNames(ranking[..a], name) <==> Aged(projects, name, now, maxAge) {
      if InNames(ranking[..a], name) {
        var i :| 0 <= i < a && ranking[..a][i].name == name;
        assert ranking[i] in ranking && ranking[i].name == name;
        assert RowOf(root, name) in projects;
        var j :| 0 <= j < |projects| && projects[j] == RowOf(root, name);
        assert projects[j].name == name && now - projects[j].mtime > maxAge;
      }
      if Aged(projects, name, now, maxAge) {
        var j :| 0 <= j < |projects| && projects[j].name == name && now - projects[j].mtime > maxAge;
        assert projects[j] in projects;
        assert RowOf(root, name) in ranking;
        var i :| 0 <= i < |ranking| && ranking[i] == RowOf(root, name);
        assert ranking[..a][i].name == name;
      }
    }
  }

  /** The kept project is in no ranking, so eviction never touches it. */
  lemma KeptStays(root: Root, keep: Option<string>, ranking: seq<Project>, cut: nat)
    requires IsRanking(ranking, root, keep) && cut <= |ranking|
    ensures keep.Some? ==> !InNames(ranking[..cut], keep.value)
    ensures KeptSize(Without(root, ranking[..cut]), keep) == KeptSize(root, keep)
  {
  }

  lemma WithoutTwice(root: Root, a: seq<Project>, b: seq<Project>)
    ensures Without(Without(root, a), b) == Without(root, a + b)
  {
    forall name ensures InNames(a + b, name) <==> InNames(a, name) || InNames(b, name) {
      if i :| 0 <= i < |a| && a[i].name == name { assert (a + b)[i].name == name; }
      if i :| 0 <= i < |b| && b[i].name == name { assert (a + b)[|a| + i].name == name; }
    }
  }

  lemma WithoutOneMore(root: Root, ranking: seq<Project>, i: nat)
    requires i < |ranking|
    ensures Without(root, ranking[..i + 1]) == Without(root, ranking[..i]) - {ranking[i].name}
  {
  }

  /** The two phases together evict exactly up to the cut. */
  lemma PhasesCompose(root: Root, aged: Root, keep: Option<string>, now: int, maxAge: int, budget: int,
                      projects: seq<Project>, live: seq<Project>)
    requires DistinctNames(live)
    requires forall p :: p in projects ==> Candidate(root, keep, p.name) && p == RowOf(root, p.name)
    requires forall name :: Candidate(root, keep, name) ==> RowOf(root, name) in projects
    requires forall p :: p in live <==> p in projects && now - p.mtime <= maxAge
    requires aged == WithoutAged(root, projects, now, maxAge)
    ensures budget <= 0 ==> aged == Pruned(root, keep, now, maxAge, budget)
    ensures Without(aged, Sort(live)[..SizeCut(Sort(live), KeptSize(aged, keep), budget)]) ==
            Pruned(root, keep, now, maxAge, budget)
  {
    var ranking := Ranking(root, keep);
    var kept := KeptSize(root, keep);
    var a := AgeCut(ranking, now, maxAge);
    LiveIsSuffix(projects, live, ranking, root, keep, now, maxAge);
    AgedAreEvicted(projects, ranking, root, keep, now, maxAge);
    assert aged == Without(root, ranking[..a]);
    KeptStays(root, keep, ranking, a);
    SuffixCompose(root, ranking, a, kept, now, maxAge, budget);
  }

  lemma SuffixCompose(root: Root, ranking: seq<Project>, a: nat, kept: nat, now: int, maxAge: int, budget: int)
    requires Ordered(ranking) && a == AgeCut(ranking, now, maxAge)
    ensures Without(Without(root, ranking[..a]), ranking[a..][..SizeCut(ranking[a..], kept, budget)]) ==
            Without(root, ranking[..Cut(ranking, kept, now, maxAge, budget)])
    ensures budget <= 0 ==> Cut(ranking, kept, now, maxAge, budget) == a
  {
    if budget <= 0 { SizeCutIsZero(ranking, kept, budget); }
    CutsOfSuffix(ranking, a, kept, now, maxAge, budget);
    var k := SizeCut(ranking[a..], kept, budget);
    WithoutTwice(root, ranking[..a], ranking[a..][..k]);
    assert ranking[..a] + ranking[a..][..k] == ranking[..a + k];
  }
}
