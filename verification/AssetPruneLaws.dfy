/** Laws of cache eviction (src/asset_cache.py, `prune`), proved from its closed
    form for every cache, clock, age limit and budget. */
module AssetPruneLaws {
  import opened Common
  import opened FileTree
  import opened AssetPrune

  ghost function CutOf(root: Root, keep: Option<string>, now: int, maxAge: int, budget: int): (k: nat)
    ensures k <= |Ranking(root, keep)|
  {
    Cut(Ranking(root, keep), KeptSize(root, keep), now, maxAge, budget)
  }

  /** Bytes that count towards the cap: the candidates and the kept project. */
  ghost function CountedBytes(root: Root, keep: Option<string>): nat {
    KeptSize(root, keep) + Total(Ranking(root, keep))
  }

  function BytesAt(root: Root, name: string): nat {
    if name in root && root[name].ProjectDir? then TreeSize(root[name].tree) else 0
  }

  /** The bytes in the project directories among these names. */
  function BytesOf(root: Root, names: seq<string>): nat {
    if names == [] then 0 else BytesAt(root, names[0]) + BytesOf(root, names[1..])
  }

  /** The names of all entries, each once. */
  ghost predicate Lists(names: seq<string>, root: Root) {
    && (forall name :: name in names <==> name in root)
    && (forall i, j :: 0 <= i < j < |names| ==> names[i] != names[j])
  }

  lemma {:induction false} ListingExists(root: Root) returns (names: seq<string>)
    ensures Lists(names, root)
    decreases |root|
  {
    if root == map[] {
      names := [];
    } else {
      var name :| name in root;
      var rest := ListingExists(root - {name});
      names := [name] + rest;
    }
  }

  function RowsOf(root: Root, keep: Option<string>, names: seq<string>): seq<Project> {
    if names == [] then []
    else (if Candidate(root, keep, names[0]) then [RowOf(root, names[0])] else []) + RowsOf(root, keep, names[1..])
  }

  lemma {:induction false} RowsMembers(root: Root, keep: Option<string>, names: seq<string>)
    ensures forall p :: p in RowsOf(root, keep, names) <==>
              p.name in names && Candidate(root, keep, p.name) && p == RowOf(root, p.name)
    decreases |names|
  {
    if names != [] {
      RowsMembers(root, keep, names[1..]);
      assert forall name :: name in names <==> name == names[0] || name in names[1..];
    }
  }

  lemma {:induction false} RowsDistinct(root: Root, keep: Option<string>, names: seq<string>)
    requires forall i, j :: 0 <= i < j < |names| ==> names[i] != names[j]
    ensures DistinctNames(RowsOf(root, keep, names))
    decreases |names|
  {
    if names != [] {
      RowsDistinct(root, keep, names[1..]);
      RowsMembers(root, keep, names[1..]);
      var rest := RowsOf(root, keep, names[1..]);
      assert forall i :: 0 <= i < |rest| ==> rest[i] in rest;
    }
  }

  lemma {:induction false} RowsTotal(root: Root, keep: Option<string>, names: seq<string>)
    requires forall i, j :: 0 <= i < j < |names| ==> names[i] != names[j]
    ensures Total(RowsOf(root, keep, names)) + (if keep.Some? && keep.value in names then BytesAt(root, keep.value) else 0)
            == BytesOf(root, names)
    decreases |names|
  {
    if names != [] {
      hide TreeSize, PathOf;
      RowsTotal(root, keep, names[1..]);
      var rest := RowsOf(root, keep, names[1..]);
      assert forall name :: name in names <==> name == names[0] || name in names[1..];
      assert names[0] !in names[1..];
      if Candidate(root, keep, names[0]) { assert ([RowOf(root, names[0])] + rest)[1..] == rest; }
      assert [] + rest == rest;
    }
  }

  /** The bytes that count are those of all project directories, kept or not. */
  lemma CountedBytesAreAll(root: Root, keep: Option<string>, names: seq<string>)
    requires Lists(names, root)
    ensures CountedBytes(root, keep) == BytesOf(root, names)
  {
    var rows := RowsOf(root, keep, names);
    RowsMembers(root, keep, names);
    RowsDistinct(root, keep, names);
    RowsTotal(root, keep, names);
    SortOrders(rows);
    forall name | Candidate(root, keep, name) ensures RowOf(root, name) in Sort(rows) {
      assert RowOf(root, name) in rows;
    }
    RankingIsUnique(Sort(rows), Ranking(root, keep), root, keep);
  }

  /** Which project is kept makes no difference to what counts. */
  lemma CountingIgnoresTheKept(root: Root, keep: Option<string>, names: seq<string>)
    requires Lists(names, root)
    ensures CountedBytes(root, keep) == CountedBytes(root, None) == BytesOf(root, names)
  {
    CountedBytesAreAll(root, keep, names);
    CountedBytesAreAll(root, None, names);
  }

  /** Evicting the first k of the ranking evicts exactly those. */
  lemma CutEvictsTheOldest(root: Root, keep: Option<string>, k: nat, name: string)
    requires name in root && k <= |Ranking(root, keep)|
    ensures var left := Without(root, Ranking(root, keep)[..k]);
            && (name in left <==> (!Candidate(root, keep, name) || RowOf(root, name) in Ranking(root, keep)[k..]))
            && (name in left ==> left[name] == root[name])
  {
    var s := Ranking(root, keep);
    if InNames(s[..k], name) {
      var i :| 0 <= i < k && s[..k][i].name == name;
      assert s[i] in s;
      assert Candidate(root, keep, name) && s[i] == RowOf(root, name);
      forall j | k <= j < |s| ensures s[j] != s[i] {
        assert Before(s[i], s[j]);
        BeforeOrder(s[i], s[i]);
      }
    } else if Candidate(root, keep, name) {
      var i :| 0 <= i < |s| && s[i] == RowOf(root, name);
      assert forall j :: 0 <= j < k ==> s[..k][j] == s[j];
      assert s[k..][i - k] == s[i];
    }
  }

  /** An entry is evicted exactly when it is one of the oldest candidates. So the
      kept project, plain files and links in the root all stay, and what stays is
      unchanged. */
  lemma SurvivorsAreTheYoungest(root: Root, keep: Option<string>, now: int, maxAge: int, budget: int, name: string)
    requires name in root
    ensures var left := Pruned(root, keep, now, maxAge, budget);
            && (name in left <==>
                (!Candidate(root, keep, name) ||
                 RowOf(root, name) in Ranking(root, keep)[CutOf(root, keep, now, maxAge, budget)..]))
            && (name in left ==> left[name] == root[name])
  {
    CutEvictsTheOldest(root, keep, CutOf(root, keep, now, maxAge, budget), name);
  }

  /** Evicting the first k leaves the rest of the ranking, and the kept project. */
  lemma RankingWithout(root: Root, keep: Option<string>, k: nat)
    requires k <= |Ranking(root, keep)|
    ensures var left := Without(root, Ranking(root, keep)[..k]);
            Ranking(left, keep) == Ranking(root, keep)[k..] && KeptSize(left, keep) == KeptSize(root, keep)
  {
    var s := Ranking(root, keep);
    var left := Without(root, s[..k]);
    KeptStays(root, keep, s, k);
    var t := s[k..];
    forall p | p in t ensures Candidate(left, keep, p.name) && p == RowOf(left, p.name) {
      assert p in s;
      CutEvictsTheOldest(root, keep, k, p.name);
    }
    forall name | Candidate(left, keep, name) ensures RowOf(left, name) in t {
      CutEvictsTheOldest(root, keep, k, name);
    }
    RankingIsUnique(t, Ranking(left, keep), left, keep);
  }

  /** Pruning leaves a suffix of the ranking and the kept project's size. */
  lemma RankingAfterPrune(root: Root, keep: Option<string>, now: int, maxAge: int, budget: int)
    ensures var left := Pruned(root, keep, now, maxAge, budget);
            && Ranking(left, keep) == Ranking(root, keep)[CutOf(root, keep, now, maxAge, budget)..]
            && KeptSize(left, keep) == KeptSize(root, keep)
  {
    RankingWithout(root, keep, CutOf(root, keep, now, maxAge, budget));
  }

  lemma {:induction false} AgeCutGrows(s: seq<Project>, t1: int, t2: int, age1: int, age2: int)
    requires Ordered(s) && t1 - age1 <= t2 - age2
    ensures AgeCut(s, t1, age1) <= AgeCut(s, t2, age2)
  {
    if s != [] {
      AgeCutGrows(s[1..], t1, t2, age1, age2);
    }
  }

  lemma {:induction false} SizeCutShrinks(s: seq<Project>, kept: nat, b1: int, b2: int)
    requires b2 <= 0 || 0 < b1 <= b2
    ensures SizeCut(s, kept, b2) <= SizeCut(s, kept, b1)
  {
    if s != [] {
      SizeCutShrinks(s[1..], kept, b1, b2);
    }
  }

  /** Cutting what an earlier cut left comes to the later cut. */
  lemma CutComposes(s: seq<Project>, kept: nat, t1: int, t2: int, maxAge: int, budget: int)
    requires Ordered(s) && t1 <= t2
    ensures var m := Cut(s, kept, t1, maxAge, budget);
            m + Cut(s[m..], kept, t2, maxAge, budget) == Cut(s, kept, t2, maxAge, budget)
  {
    AgeCutGrows(s, t1, t2, maxAge, maxAge);
    CutsOfSuffix(s, Cut(s, kept, t1, maxAge, budget), kept, t2, maxAge, budget);
  }

  lemma WithoutInTwoSteps(root: Root, s: seq<Project>, m: nat, n: nat)
    requires m + n <= |s|
    ensures Without(Without(root, s[..m]), s[m..][..n]) == Without(root, s[..m + n])
  {
    WithoutTwice(root, s[..m], s[m..][..n]);
    assert s[..m] + s[m..][..n] == s[..m + n];
  }

  /** The prune of what a prune left, in terms of the first ranking. */
  lemma PrunedAgain(root: Root, keep: Option<string>, t1: int, t2: int, maxAge: int, budget: int)
    ensures var s, m := Ranking(root, keep), CutOf(root, keep, t1, maxAge, budget);
            Pruned(Pruned(root, keep, t1, maxAge, budget), keep, t2, maxAge, budget) ==
            Without(Without(root, s[..m]), s[m..][..Cut(s[m..], KeptSize(root, keep), t2, maxAge, budget)])
  {
    hide Ranking, KeptSize, Cut, Without;
    RankingAfterPrune(root, keep, t1, maxAge, budget);
  }

  /** A later prune absorbs an earlier one that kept the same project. At t1 == t2
      this says that pruning is idempotent. */
  lemma PruneAbsorbsEarlierPrune(root: Root, keep: Option<string>, t1: int, t2: int, maxAge: int, budget: int)
    requires t1 <= t2
    ensures Pruned(Pruned(root, keep, t1, maxAge, budget), keep, t2, maxAge, budget) ==
            Pruned(root, keep, t2, maxAge, budget)
  {
    var s := Ranking(root, keep);
    var m := CutOf(root, keep, t1, maxAge, budget);
    assert Ordered(s);
    var n := Cut(s[m..], KeptSize(root, keep), t2, maxAge, budget);
    CutComposes(s, KeptSize(root, keep), t1, t2, maxAge, budget);
    assert m + n == CutOf(root, keep, t2, maxAge, budget);
    PrunedAgain(root, keep, t1, t2, maxAge, budget);
    PrunedToTheCut(root, keep, t2, maxAge, budget);
    hide Ranking, KeptSize, Cut, CutOf, Pruned, Without, Ordered, IsRanking;
    WithoutInTwoSteps(root, s, m, n);
  }

  lemma PrunedToTheCut(root: Root, keep: Option<string>, now: int, maxAge: int, budget: int)
    ensures Pruned(root, keep, now, maxAge, budget) ==
            Without(root, Ranking(root, keep)[..CutOf(root, keep, now, maxAge, budget)])
  {
  }

  /** A looser cap or a higher age limit never loses a survivor. */
  lemma LooserLimitsKeepMore(root: Root, keep: Option<string>, now: int,
                             age1: int, age2: int, b1: int, b2: int, name: string)
    requires age1 <= age2 && (b2 <= 0 || 0 < b1 <= b2)
    requires name in Pruned(root, keep, now, age1, b1)
    ensures name in Pruned(root, keep, now, age2, b2)
  {
    var s := Ranking(root, keep);
    var kept := KeptSize(root, keep);
    AgeCutGrows(s, now, now, age2, age1);
    SizeCutShrinks(s, kept, b1, b2);
    var k1, k2 := CutOf(root, keep, now, age1, b1), CutOf(root, keep, now, age2, b2);
    assert k2 <= k1;
    assert forall i :: 0 <= i < k2 ==> s[..k2][i] == s[..k1][i];
  }

  /** With a cap, what is left fits it or no candidate is left. All its bytes are under
      the cap exactly when those of the kept project alone are: the documented bound
      fails for one oversized project that has just been used, and only then. */
  lemma CapHoldsUnlessKeptExceedsIt(root: Root, keep: Option<string>, now: int, maxAge: int, budget: int,
                                    names: seq<string>)
    requires budget > 0 && Lists(names, Pruned(root, keep, now, maxAge, budget))
    ensures var left := Pruned(root, keep, now, maxAge, budget);
            && (BytesOf(left, names) <= budget || forall name :: name in left ==> !Candidate(left, keep, name))
            && (BytesOf(left, names) <= budget <==> keep.None? || BytesAt(root, keep.value) <= budget)
  {
    var s, left := Ranking(root, keep), Pruned(root, keep, now, maxAge, budget);
    var kept := KeptSize(root, keep);
    RankingAfterPrune(root, keep, now, maxAge, budget);
    SizeCutIsLeast(s, kept, budget);
    var k, m := SizeCut(s, kept, budget), CutOf(root, keep, now, maxAge, budget);
    if k < |s| { TotalShrinks(s, k, m); }
    CountedBytesAreAll(left, keep, names);
    assert forall name :: Candidate(left, keep, name) ==> RowOf(left, name) in Ranking(left, keep);
  }

  /** Nothing is evicted for size without need: if the age limit alone would have
      kept the last evicted project, then the bytes left with it were over the cap. */
  lemma LastEvictionWasNecessary(root: Root, keep: Option<string>, now: int, maxAge: int, budget: int, names: seq<string>)
    requires CutOf(root, keep, now, maxAge, budget) > AgeCut(Ranking(root, keep), now, maxAge)
    requires Lists(names, Without(root, Ranking(root, keep)[..CutOf(root, keep, now, maxAge, budget) - 1]))
    ensures var k := CutOf(root, keep, now, maxAge, budget);
            && budget > 0
            && BytesOf(Without(root, Ranking(root, keep)[..k - 1]), names) > budget
            && now - Ranking(root, keep)[k - 1].mtime <= maxAge
  {
    hide TreeSize, Candidate, RowOf, Total, Without, BytesOf;
    var s := Ranking(root, keep);
    var k := CutOf(root, keep, now, maxAge, budget);
    if budget <= 0 { SizeCutIsZero(s, KeptSize(root, keep), budget); }
    SizeCutIsLeast(s, KeptSize(root, keep), budget);
    AgeCutSplits(s, now, maxAge);
    CountedBytesAreAll(Without(root, s[..k - 1]), keep, names);
    RankingWithout(root, keep, k - 1);
  }

  /** A project used within the age limit is safe where there is no cap. */
  lemma RecentUseIsSafeWithoutCap(root: Root, keep: Option<string>, now: int, maxAge: int, budget: int, name: string)
    requires budget <= 0 && name in root
    ensures name in Pruned(root, keep, now, maxAge, budget) <==>
            !Candidate(root, keep, name) || now - root[name].mtime <= maxAge
  {
    var s := Ranking(root, keep);
    SurvivorsAreTheYoungest(root, keep, now, maxAge, budget, name);
    SizeCutIsZero(s, KeptSize(root, keep), budget);
    AgeCutSplits(s, now, maxAge);
    var a := AgeCut(s, now, maxAge);
    if Candidate(root, keep, name) {
      var i :| 0 <= i < |s| && s[i] == RowOf(root, name);
      if i >= a { assert s[a..][i - a] == s[i]; }
      if RowOf(root, name) in s[a..] {
        var j :| 0 <= j < |s[a..]| && s[a..][j] == RowOf(root, name);
        assert s[a + j].mtime == root[name].mtime;
      }
    }
  }

  /** The condition on the kept project is needed: pruning for one job and then for
      another can evict more than the second prune alone. */
  lemma AbsorptionNeedsTheSameKeep(tree: Forest, older: string, newer: string)
    requires TreeSize(tree) > 0 && older != newer
    ensures var root: Root := map[older := ProjectDir(0, tree), newer := ProjectDir(1, tree)];
            var budget := TreeSize(tree);
            && older in Pruned(root, Some(older), 1, 10, budget)
            && older !in Pruned(root, None, 1, 10, budget)
            && Pruned(Pruned(root, None, 1, 10, budget), Some(older), 1, 10, budget) !=
               Pruned(root, Some(older), 1, 10, budget)
  {
    var root: Root := map[older := ProjectDir(0, tree), newer := ProjectDir(1, tree)];
    var budget := TreeSize(tree);
    var s := Ranking(root, None);
    var old', new' := RowOf(root, older), RowOf(root, newer);
    assert Before(old', new');
    assert IsRanking([old', new'], root, None) by {
      assert forall name :: Candidate(root, None, name) ==> name == older || name == newer;
    }
    RankingIsUnique(s, [old', new'], root, None);
    assert s[1..] == [new'] && [new'][1..] == [];
    assert Total([new']) == new'.size;
    assert Total(s) == old'.size + Total(s[1..]) == 2 * budget;
    assert SizeCut(s, 0, budget) == 1 + SizeCut(s[1..], 0, budget) == 1;
    assert AgeCut(s, 1, 10) == 0;
    assert s[..1][0].name == older;
    assert InNames(s[..1], older);
    SurvivorsAreTheYoungest(root, Some(older), 1, 10, budget, older);
  }
}
