/** What interleaved harvests leave behind in the cache directory, and what one alone
    never touches (src/asset_cache.py:149-163). */
module ConcurrentHarvestLaws {
  import opened Common
  import opened CacheNames
  import opened FileTree
  import opened ConcurrentHarvest

  // ------------------------------------------------------- temporary files

  /** Nobody goes away, and no removal fails. */
  predicate Orderly(events: seq<Event>) {
    forall i :: 0 <= i < |events| ==> !events[i].Stop? && (events[i].RemoveTemp? ==> events[i].removed)
  }

  /** A worker answers for the temporary file. */
  predicate Owned(s: State, name: string) {
    exists w :: w in s.workers && TempOf(s.workers[w]) == Some(name)
  }

  /** A name is old, or a cache file's, or a worker answers for it. */
  predicate Accounted(s: State, known: set<string>) {
    forall name :: name in s.links ==> name in known || CacheFilename(name) || Owned(s, name)
  }

  lemma OwnedStays(s: State, t: State, w: nat, name: string)
    requires Owned(s, name) && w in s.workers && w in t.workers && t.workers == s.workers[w := t.workers[w]]
    requires TempOf(s.workers[w]) == Some(name) ==> TempOf(t.workers[w]) == Some(name)
    ensures Owned(t, name)
  {
    var v :| v in s.workers && TempOf(s.workers[v]) == Some(name);
    assert v in t.workers && TempOf(t.workers[v]) == Some(name);
  }

  lemma StepAccounts(s: State, e: Event, known: set<string>)
    requires Inv(s) && Accounted(s, known) && FreshTemp(s, e) && Next(s, e).Some?
    requires !e.Stop? && (e.RemoveTemp? ==> e.removed)
    ensures Accounted(Next(s, e).value, known)
  {
    hide CacheFilename, TempName;
    var t := Next(s, e).value;
    var w := e.w;
    assert WorkerOk(s, s.workers[w]);
    assert t.workers == s.workers[w := t.workers[w]];
    forall name | name in t.links ensures name in known || CacheFilename(name) || Owned(t, name) {
      if name !in known && !CacheFilename(name) {
        if TempOf(t.workers[w]) == Some(name) {
          assert Owned(t, name);
        } else {
          assert name in s.links;
          OwnedStays(s, t, w, name);
        }
      }
    }
  }

  lemma {:induction false} RunAccounts(s: State, events: seq<Event>, known: set<string>)
    requires Inv(s) && Accounted(s, known) && FreshTemps(s, events) && Orderly(events) && Run(s, events).Some?
    ensures Accounted(Run(s, events).value, known)
    decreases |events|
  {
    hide Inv, Accounted, Next;
    if events != [] {
      assert !events[0].Stop?;
      StepAccounts(s, events[0], known);
      StepKeepsInv(s, events[0]);
      assert forall i :: 0 <= i < |events| - 1 ==> events[1..][i] == events[i + 1];
      RunAccounts(Next(s, events[0]).value, events[1..], known);
    }
  }

  /** When all harvests are through, whatever copies failed on the way, only cache files
      have been added to the directory, if no worker went away and every removal of a
      temporary file succeeded. */
  lemma NothingIsLeftBehind(s: State, events: seq<Event>, name: string)
    requires Start(s) && FreshTemps(s, events) && Orderly(events) && Run(s, events).Some?
    requires forall w :: w in Run(s, events).value.workers ==> Run(s, events).value.workers[w].Idle?
    requires name in Run(s, events).value.links
    ensures name in s.links || CacheFilename(name)
  {
    hide CacheFilename;
    RunAccounts(s, events, s.links.Keys);
  }

  // --------------------------------------------------- one harvest by itself

  /** What the worker is about to store has no entry yet. */
  predicate Adding(s: State, w: nat) {
    w in s.workers && (s.workers[w].Missing? || s.workers[w].Copying? ==> s.workers[w].name !in s.links)
  }

  lemma StepAlone(s: State, w: nat, e: Event)
    requires Inv(s) && Adding(s, w) && e.w == w && FreshTemp(s, e) && Next(s, e).Some?
    ensures Adding(Next(s, e).value, w)
    ensures forall name :: Visible(s, name) ==>
              Visible(Next(s, e).value, name) && Holds(Next(s, e).value, name) &&
              ContentAt(Next(s, e).value, name) == ContentAt(s, name)
  {
    assert WorkerOk(s, s.workers[w]);
    if e.OpenTemp? && s.workers[w].Missing? { TempNameIsNoCacheFile(s.workers[w].name, e.unique); }
    hide CacheFilename, TempName;
  }

  lemma {:induction false} AloneKeeps(s: State, w: nat, events: seq<Event>, name: string)
    requires Inv(s) && Adding(s, w) && FreshTemps(s, events) && Run(s, events).Some? && Visible(s, name)
    requires forall i :: 0 <= i < |events| ==> events[i].w == w
    ensures var t := Run(s, events).value;
            Visible(t, name) && Holds(t, name) && ContentAt(t, name) == ContentAt(s, name)
    decreases |events|
  {
    hide Next, Adding, CacheFilename;
    if events != [] {
      assert events[0].w == w;
      StepAlone(s, w, events[0]);
      StepKeepsInv(s, events[0]);
      assert forall i :: 0 <= i < |events| - 1 ==> events[1..][i] == events[i + 1];
      AloneKeeps(Next(s, events[0]).value, w, events[1..], name);
    }
  }

  /** While nobody else does anything, a harvest never touches a cache file that is there
      when it begins, whatever content the job has under its name. */
  lemma AloneOnlyAdds(s: State, before: seq<Event>, w: nat, events: seq<Event>, name: string)
    requires Start(s) && FreshTemps(s, before) && Run(s, before).Some?
    requires var t := Run(s, before).value;
             w in t.workers && t.workers[w].Idle? && FreshTemps(t, events) && Run(t, events).Some? && Visible(t, name)
    requires forall i :: 0 <= i < |events| ==> events[i].w == w
    ensures var t := Run(s, before).value;
            var u := Run(t, events).value;
            Visible(u, name) && Holds(t, name) && Holds(u, name) && ContentAt(u, name) == ContentAt(t, name)
  {
    hide CacheFilename;
    RunKeepsInv(s, before);
    AloneKeeps(Run(s, before).value, w, events, name);
  }

  // ---------------------------------------------- a harvest that gets through

  lemma OneMore(s: State, e: Event, rest: seq<Event>)
    requires Next(s, e).Some?
    ensures Run(s, [e] + rest) == Run(Next(s, e).value, rest)
    ensures FreshTemps(s, [e] + rest) <==> FreshTemp(s, e) && FreshTemps(Next(s, e).value, rest)
  {
    assert ([e] + rest)[1..] == rest;
  }

  lemma OrderlyMore(e: Event, rest: seq<Event>)
    requires !e.Stop? && !e.RemoveTemp? && (rest == [] || Orderly(rest))
    ensures Orderly([e] + rest)
  {
    assert forall i :: 0 < i < |rest| + 1 ==> ([e] + rest)[i] == rest[i - 1];
  }

  /** The worker has opened a new temporary file. */
  function Opened(s: State, w: nat, name: string, source: Bytes, tmp: string): State {
    State(s.links[tmp := |s.inodes|], s.inodes + [[]], s.workers[w := Copying(name, source, tmp, |s.inodes|, 0)],
          s.offered + {(name, source)})
  }

  lemma CopyIsOpened(s: State, w: nat, name: string, source: Bytes, unique: string, rest: seq<Event>)
    requires w in s.workers && s.workers[w].Idle? && CacheFilename(name) && name !in s.links
    requires TempName(name, unique) !in s.links
    requires forall v :: v in s.workers ==> TempOf(s.workers[v]) != Some(TempName(name, unique))
    ensures var events := [Pick(w, name, source)] + ([CheckExists(w)] + ([OpenTemp(w, unique)] + rest));
            var t := Opened(s, w, name, source, TempName(name, unique));
            Run(s, events) == Run(t, rest) && (FreshTemps(s, events) <==> FreshTemps(t, rest))
  {
    hide CacheFilename, TempName;
    var tmp := TempName(name, unique);
    var s1 := Next(s, Pick(w, name, source)).value;
    var s2 := Next(s1, CheckExists(w)).value;
    assert s2.workers[w] == Missing(name, source) && s2.links == s.links && s2.inodes == s.inodes;
    var t := Opened(s, w, name, source, tmp);
    assert s2.workers[w := t.workers[w]] == t.workers;
    assert Next(s2, OpenTemp(w, unique)) == Some(t);
    assert FreshTemp(s2, OpenTemp(w, unique));
    OneMore(s2, OpenTemp(w, unique), rest);
    OneMore(s1, CheckExists(w), [OpenTemp(w, unique)] + rest);
    OneMore(s, Pick(w, name, source), [CheckExists(w)] + ([OpenTemp(w, unique)] + rest));
  }

  lemma CopyIsPublished(s: State, w: nat, name: string, source: Bytes, tmp: string)
    requires w in s.workers && s.workers[w].Idle? && tmp !in s.links && tmp != name
    ensures var t := Opened(s, w, name, source, tmp);
            var events := [WriteSome(w, |source|)] + ([Rename(w)] + []);
            && Run(t, events) == Some(State(s.links[name := |s.inodes|], s.inodes + [source], s.workers, s.offered + {(name, source)}))
            && FreshTemps(t, events)
  {
    var t := Opened(s, w, name, source, tmp);
    var u := Next(t, WriteSome(w, |source|)).value;
    assert [] + source[0..|source|] == source;
    assert t.inodes[|s.inodes| := source] == s.inodes + [source];
    assert u.workers[w] == Copying(name, source, tmp, |s.inodes|, |source|) && u.inodes == s.inodes + [source];
    var v := Next(u, Rename(w)).value;
    assert (u.links - {tmp})[name := |s.inodes|] == s.links[name := |s.inodes|];
    assert v.workers == s.workers;
    OneMore(u, Rename(w), []);
    OneMore(t, WriteSome(w, |source|), [Rename(w)] + []);
  }

  /** From any state: a file whose name and temporary name are not in use yet can be copied
      in one go, and is then visible with its content; nothing else has changed. */
  lemma UndisturbedCopyPublishes(s: State, w: nat, name: string, source: Bytes, unique: string) returns (events: seq<Event>)
    requires w in s.workers && s.workers[w].Idle? && CacheFilename(name) && name !in s.links
    requires TempName(name, unique) !in s.links
    requires forall v :: v in s.workers ==> TempOf(s.workers[v]) != Some(TempName(name, unique))
    ensures FreshTemps(s, events) && Orderly(events) && Run(s, events).Some?
    ensures var t := Run(s, events).value;
            t.links == s.links[name := |s.inodes|] && t.inodes == s.inodes + [source] && t.workers == s.workers
  {
    var end := [WriteSome(w, |source|)] + ([Rename(w)] + []);
    TempNameIsNoCacheFile(name, unique);
    CopyIsOpened(s, w, name, source, unique, end);
    CopyIsPublished(s, w, name, source, TempName(name, unique));
    hide CacheFilename, TempName, Next, Run, FreshTemps, Opened, Orderly;
    OrderlyMore(Rename(w), []);
    OrderlyMore(WriteSome(w, |source|), [Rename(w)] + []);
    OrderlyMore(OpenTemp(w, unique), end);
    OrderlyMore(CheckExists(w), [OpenTemp(w, unique)] + end);
    OrderlyMore(Pick(w, name, source), [CheckExists(w)] + ([OpenTemp(w, unique)] + end));
    events := [Pick(w, name, source)] + ([CheckExists(w)] + ([OpenTemp(w, unique)] + end));
  }
}
