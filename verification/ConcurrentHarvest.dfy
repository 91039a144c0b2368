/** src/asset_cache.py:149-163 under concurrency: any number of harvests copy files
    into the same cache directory, interleaved between the existence test, the
    opening of the temporary file, every partial write and the rename, and stopped
    anywhere. File names point at inodes, as on POSIX, so that a write through an
    open descriptor reaches whatever name the inode has by then. */
module ConcurrentHarvest {
  import opened Common
  import opened CacheNames
  import opened FileTree

  datatype Worker =
    | Idle
    | Picked(name: string, source: Bytes)
    | Missing(name: string, source: Bytes)
    | Copying(name: string, source: Bytes, tmp: string, fd: nat, written: nat)
    | Failed(tmp: string)
    | Stopped

  /** `links` is the directory; `offered` records what the workers have been asked
      to copy, and what the directory held at the start. */
  datatype State = State(links: map<string, nat>, inodes: seq<Bytes>, workers: map<nat, Worker>,
                         offered: set<(string, Bytes)>)

  datatype Event =
    | Pick(w: nat, name: string, source: Bytes)  // the next file of the walk
    | CheckExists(w: nat)                        // os.path.exists(dest)
    | OpenTemp(w: nat, unique: string)           // copyfile opens and truncates tmp
    | OpenFails(w: nat, unique: string)          // it cannot open one of the two files
    | WriteSome(w: nat, count: nat)              // copyfile writes a chunk
    | Rename(w: nat)                             // os.replace(tmp, dest)
    | CopyFails(w: nat)                          // OSError while copying or renaming
    | RemoveTemp(w: nat, removed: bool)          // os.remove(tmp), or it fails too
    | Stop(w: nat)                               // the worker goes away

  predicate Holds(s: State, name: string) {
    name in s.links && s.links[name] < |s.inodes|
  }

  function ContentAt(s: State, name: string): Bytes
    requires Holds(s, name)
  {
    s.inodes[s.links[name]]
  }

  function Put(s: State, w: nat, worker: Worker): State {
    s.(workers := s.workers[w := worker])
  }

  /** No name in the directory and no copy under way uses this name. */
  predicate Unused(s: State, tmp: string) {
    tmp !in s.links && forall w :: w in s.workers && s.workers[w].Copying? ==> s.workers[w].tmp != tmp
  }

  /** One atomic step; None where the event cannot happen. */
  function Next(s: State, e: Event): Option<State> {
    if e.w !in s.workers then None
    else
      var worker := s.workers[e.w];
      match e
      case Pick(w, name, source) =>
        if worker.Idle? && CacheFilename(name)
        then Some(Put(s, w, Picked(name, source)).(offered := s.offered + {(name, source)})) else None
      case CheckExists(w) =>
        if !worker.Picked? then None
        else Some(Put(s, w, if worker.name in s.links then Idle else Missing(worker.name, worker.source)))
      case OpenTemp(w, unique) =>
        if !worker.Missing? then None
        else
          var tmp := TempName(worker.name, unique);
          if Holds(s, tmp) then
            Some(Put(s, w, Copying(worker.name, worker.source, tmp, s.links[tmp], 0))
                 .(inodes := s.inodes[s.links[tmp] := []]))
          else
            Some(Put(s, w, Copying(worker.name, worker.source, tmp, |s.inodes|, 0))
                 .(links := s.links[tmp := |s.inodes|], inodes := s.inodes + [[]]))
      case OpenFails(w, unique) =>
        if worker.Missing? then Some(Put(s, w, Failed(TempName(worker.name, unique)))) else None
      case WriteSome(w, count) =>
        if !worker.Copying? || worker.written + count > |worker.source| || worker.fd >= |s.inodes|
           || |s.inodes[worker.fd]| != worker.written
        then None
        else
          var more := worker.source[worker.written..worker.written + count];
          Some(Put(s, w, worker.(written := worker.written + count))
               .(inodes := s.inodes[worker.fd := s.inodes[worker.fd] + more]))
      case Rename(w) =>
        if !worker.Copying? || worker.written != |worker.source| || worker.tmp !in s.links then None
        else Some(Put(s, w, Idle).(links := (s.links - {worker.tmp})[worker.name := s.links[worker.tmp]]))
      case CopyFails(w) =>
        if worker.Copying? then Some(Put(s, w, Failed(worker.tmp))) else None
      case RemoveTemp(w, removed) =>
        if !worker.Failed? then None
        else Some(Put(s, w, Idle).(links := if removed then s.links - {worker.tmp} else s.links))
      case Stop(w) => Some(Put(s, w, Stopped))
  }

  /** The pid and the clock in a temporary name make it new. */
  predicate FreshTemp(s: State, e: Event) {
    (e.OpenTemp? || e.OpenFails?) && e.w in s.workers && s.workers[e.w].Missing? ==>
      Unused(s, TempName(s.workers[e.w].name, e.unique)) && NoFailed(s, TempName(s.workers[e.w].name, e.unique))
  }

  predicate NoFailed(s: State, tmp: string) {
    forall w :: w in s.workers && s.workers[w].Failed? ==> s.workers[w].tmp != tmp
  }

  /** The key determines the content: nothing else was ever offered under it. */
  predicate ContentAddressed(s: State) {
    forall a, b :: a in s.offered && b in s.offered && a.0 == b.0 ==> a.1 == b.1
  }

  function Run(s: State, events: seq<Event>): Option<State>
    decreases |events|
  {
    if events == [] then Some(s)
    else match Next(s, events[0]) case None => None case Some(t) => Run(t, events[1..])
  }

  ghost predicate FreshTemps(s: State, events: seq<Event>)
    decreases |events|
  {
    events == [] || (FreshTemp(s, events[0]) &&
                     (Next(s, events[0]).Some? ==> FreshTemps(Next(s, events[0]).value, events[1..])))
  }

  /** A start: no copy under way, and the cache files there are recorded as offered. */
  predicate Start(s: State) {
    && (forall name :: name in s.links ==> s.links[name] < |s.inodes|)
    && (forall a, b :: a in s.links && b in s.links && s.links[a] == s.links[b] ==> a == b)
    && (forall w :: w in s.workers ==> s.workers[w].Idle?)
    && (forall name :: name in s.links && CacheFilename(name) ==> (name, ContentAt(s, name)) in s.offered)
  }

  // ---------------------------------------------------------- the invariant

  predicate WorkerOk(s: State, worker: Worker) {
    match worker
    case Picked(name, source) => CacheFilename(name) && (name, source) in s.offered
    case Missing(name, source) => CacheFilename(name) && (name, source) in s.offered
    case Copying(name, source, tmp, fd, written) =>
      && CacheFilename(name) && (name, source) in s.offered
      && !CacheFilename(tmp)
      && tmp in s.links && s.links[tmp] == fd && fd < |s.inodes|
      && written <= |source| && s.inodes[fd] == source[..written]
    case Failed(tmp) => !CacheFilename(tmp)
    case _ => true
  }

  predicate Visible(s: State, name: string) {
    name in s.links && CacheFilename(name)
  }

  ghost predicate Inv(s: State) {
    && (forall name :: name in s.links ==> s.links[name] < |s.inodes|)
    && (forall a, b :: a in s.links && b in s.links && s.links[a] == s.links[b] ==> a == b)
    && (forall name :: Visible(s, name) ==> (name, ContentAt(s, name)) in s.offered)
    && (forall w :: w in s.workers ==> WorkerOk(s, s.workers[w]))
    && (forall v, w :: v in s.workers && w in s.workers && v != w && TempOf(s.workers[v]).Some? ==>
          TempOf(s.workers[v]) != TempOf(s.workers[w]))
  }

  /** The temporary file a worker still answers for. */
  function TempOf(worker: Worker): Option<string> {
    match worker
    case Copying(_, _, tmp, _, _) => Some(tmp)
    case Failed(tmp) => Some(tmp)
    case _ => None
  }

  lemma StepKeepsInv(s: State, e: Event)
    requires Inv(s) && FreshTemp(s, e) && Next(s, e).Some?
    ensures Inv(Next(s, e).value)
  {
    match e
    case OpenTemp(_, _) => OpenKeepsInv(s, e);
    case OpenFails(_, _) => OpenFailsKeepsInv(s, e);
    case WriteSome(_, _) => WriteKeepsInv(s, e);
    case Rename(_) => RenameKeepsInv(s, e);
    case RemoveTemp(_, _) => RemoveKeepsInv(s, e);
    case _ => LocalStepKeepsInv(s, e);
  }

  /** A step that changes no file. */
  lemma LocalStepKeepsInv(s: State, e: Event)
    requires Inv(s) && Next(s, e).Some?
    requires e.Pick? || e.CheckExists? || e.CopyFails? || e.Stop?
    ensures Inv(Next(s, e).value)
  {
    assert WorkerOk(s, s.workers[e.w]);
    match e
    case Pick(w, name, source) => LocalChange(s, w, Picked(name, source), s.offered + {(name, source)});
    case CheckExists(w) => LocalChange(s, w, Next(s, e).value.workers[w], s.offered);
    case CopyFails(w) => LocalChange(s, w, Failed(s.workers[w].tmp), s.offered);
    case Stop(w) => LocalChange(s, w, Stopped, s.offered);
  }

  lemma LocalChange(s: State, w: nat, worker: Worker, offered: set<(string, Bytes)>)
    requires Inv(s) && w in s.workers && s.offered <= offered
    requires WorkerOk(s.(offered := offered), worker)
    requires TempOf(worker).Some? ==> forall v :: v in s.workers && v != w ==> TempOf(s.workers[v]) != TempOf(worker)
    ensures Inv(Put(s, w, worker).(offered := offered))
  {
    var t := Put(s, w, worker).(offered := offered);
    forall v | v in t.workers ensures WorkerOk(t, t.workers[v]) {
      if v != w { assert WorkerOk(s, s.workers[v]); }
    }
    forall name | Visible(t, name) ensures (name, ContentAt(t, name)) in t.offered {
      assert Visible(s, name);
    }
  }

  lemma OpenFailsKeepsInv(s: State, e: Event)
    requires Inv(s) && e.OpenFails? && FreshTemp(s, e) && Next(s, e).Some?
    ensures Inv(Next(s, e).value)
  {
    TempNameIsNoCacheFile(s.workers[e.w].name, e.unique);
    assert forall v :: v in s.workers && s.workers[v].Copying? ==>
                         WorkerOk(s, s.workers[v]) && s.workers[v].tmp in s.links;
    LocalChange(s, e.w, Failed(TempName(s.workers[e.w].name, e.unique)), s.offered);
  }

  lemma OpenKeepsInv(s: State, e: Event)
    requires Inv(s) && e.OpenTemp? && FreshTemp(s, e) && Next(s, e).Some?
    ensures Inv(Next(s, e).value)
  {
    var t := Next(s, e).value;
    TempNameIsNoCacheFile(s.workers[e.w].name, e.unique);
    forall v | v in t.workers ensures WorkerOk(t, t.workers[v]) {
      if v != e.w { assert WorkerOk(s, s.workers[v]); }
    }
    forall name | Visible(t, name) ensures (name, ContentAt(t, name)) in t.offered {
      assert Visible(s, name);
    }
  }

  lemma WriteKeepsInv(s: State, e: Event)
    requires Inv(s) && e.WriteSome? && Next(s, e).Some?
    ensures Inv(Next(s, e).value)
  {
    hide CacheFilename, TempName;
    var t := Next(s, e).value;
    var worker := s.workers[e.w];
    assert WorkerOk(s, worker);
    forall v | v in t.workers ensures WorkerOk(t, t.workers[v]) {
      assert WorkerOk(s, s.workers[v]);
      if v == e.w {
        assert worker.source[..worker.written] + worker.source[worker.written..worker.written + e.count] ==
               worker.source[..worker.written + e.count];
      }
    }
    forall name | Visible(t, name) ensures (name, ContentAt(t, name)) in t.offered {
      assert Visible(s, name);
    }
  }

  lemma RenameKeepsInv(s: State, e: Event)
    requires Inv(s) && e.Rename? && Next(s, e).Some?
    ensures Inv(Next(s, e).value)
  {
    var t := Next(s, e).value;
    var worker := s.workers[e.w];
    assert WorkerOk(s, worker);
    assert worker.source[..worker.written] == worker.source;
    forall v | v in t.workers ensures WorkerOk(t, t.workers[v]) {
      assert WorkerOk(s, s.workers[v]);
    }
    forall name | Visible(t, name) ensures (name, ContentAt(t, name)) in t.offered {
      if name != worker.name { assert Visible(s, name); }
    }
  }

  lemma RemoveKeepsInv(s: State, e: Event)
    requires Inv(s) && e.RemoveTemp? && Next(s, e).Some?
    ensures Inv(Next(s, e).value)
  {
    var t := Next(s, e).value;
    assert WorkerOk(s, s.workers[e.w]);
    forall v | v in t.workers ensures WorkerOk(t, t.workers[v]) {
      assert WorkerOk(s, s.workers[v]);
    }
    forall name | Visible(t, name) ensures (name, ContentAt(t, name)) in t.offered {
      assert Visible(s, name);
    }
  }

  lemma {:induction false} RunKeepsInv(s: State, events: seq<Event>)
    requires Inv(s) && FreshTemps(s, events) && Run(s, events).Some?
    ensures Inv(Run(s, events).value)
    decreases |events|
  {
    if events != [] {
      StepKeepsInv(s, events[0]);
      RunKeepsInv(Next(s, events[0]).value, events[1..]);
    }
  }

  // ---------------------------------------------------------------- theorems

  /** However harvests interleave and wherever they stop, a file that is visible
      under a cache file's name holds the complete content of a file that some
      harvest was given under that name, or that was there at the start. */
  lemma VisibleFilesAreComplete(s: State, events: seq<Event>, name: string)
    requires Start(s) && FreshTemps(s, events) && Run(s, events).Some?
    requires Visible(Run(s, events).value, name)
    ensures var t := Run(s, events).value;
            Holds(t, name) && (name, ContentAt(t, name)) in t.offered
  {
    RunKeepsInv(s, events);
  }

  lemma {:induction false} OfferedGrows(s: State, events: seq<Event>)
    requires Run(s, events).Some?
    ensures s.offered <= Run(s, events).value.offered
    decreases |events|
  {
    if events != [] {
      OfferedGrows(Next(s, events[0]).value, events[1..]);
    }
  }

  lemma {:induction false} VisibleNamesStay(s: State, events: seq<Event>, name: string)
    requires Inv(s) && FreshTemps(s, events) && Run(s, events).Some? && Visible(s, name)
    ensures Visible(Run(s, events).value, name)
    decreases |events|
  {
    if events != [] {
      StepKeepsInv(s, events[0]);
      assert WorkerOk(s, s.workers[events[0].w]);
      VisibleNamesStay(Next(s, events[0]).value, events[1..], name);
    }
  }

  /** With keys that determine their content, a reader that finds a cache file finds
      the same complete content in it ever after. */
  lemma VisibleContentNeverChanges(s: State, before: seq<Event>, after: seq<Event>, name: string)
    requires Start(s) && FreshTemps(s, before) && Run(s, before).Some?
    requires FreshTemps(Run(s, before).value, after) && Run(Run(s, before).value, after).Some?
    requires ContentAddressed(Run(Run(s, before).value, after).value)
    requires Visible(Run(s, before).value, name)
    ensures var t := Run(s, before).value;
            var u := Run(t, after).value;
            Visible(u, name) && Holds(t, name) && Holds(u, name) && ContentAt(u, name) == ContentAt(t, name)
  {
    var t := Run(s, before).value;
    RunKeepsInv(s, before);
    RunKeepsInv(t, after);
    OfferedGrows(t, after);
    VisibleNamesStay(t, after, name);
    var u := Run(t, after).value;
    assert (name, ContentAt(t, name)) in u.offered && (name, ContentAt(u, name)) in u.offered;
  }

  /** The temporary names must differ: if two copies of one file share a temporary
      name, the first rename can publish the second one's empty file. */
  lemma SharedTempNameExposesPartialFile(name: string, unique: string, content: Bytes)
    requires CacheFilename(name) && content != []
    ensures var s := State(map[], [], map[0 := Idle, 1 := Idle], {});
            var events := [Pick(0, name, content), CheckExists(0), OpenTemp(0, unique), WriteSome(0, |content|),
                           Pick(1, name, content), CheckExists(1), OpenTemp(1, unique), Rename(0)];
            && Start(s) && !FreshTemps(s, events) && Run(s, events).Some?
            && ContentAddressed(Run(s, events).value)
            && var t := Run(s, events).value;
               Visible(t, name) && Holds(t, name) && ContentAt(t, name) == [] != content
  {
    var tmp := TempName(name, unique);
    TempNameIsNoCacheFile(name, unique);
    var s := State(map[], [], map[0 := Idle, 1 := Idle], {});
    var first := [Pick(0, name, content), CheckExists(0), OpenTemp(0, unique), WriteSome(0, |content|)];
    var second := [Pick(1, name, content), CheckExists(1), OpenTemp(1, unique), Rename(0)];
    FirstCopyIsComplete(name, unique, content);
    SecondCopyEmptiesIt(name, unique, content);
    RunOfConcat(s, first, second);
    assert first + second == [Pick(0, name, content), CheckExists(0), OpenTemp(0, unique), WriteSome(0, |content|),
                              Pick(1, name, content), CheckExists(1), OpenTemp(1, unique), Rename(0)];
    var t := Run(s, first + second).value;
    assert Visible(t, name) && ContentAt(t, name) == [];
    if FreshTemps(s, first + second) {
      VisibleFilesAreComplete(s, first + second, name);
    }
  }

  /** Worker 0 has copied the whole file to the temporary name. */
  function AfterFirstCopy(name: string, tmp: string, content: Bytes): State {
    State(map[tmp := 0], [content], map[0 := Copying(name, content, tmp, 0, |content|), 1 := Idle], {(name, content)})
  }

  lemma FirstCopyIsComplete(name: string, unique: string, content: Bytes)
    requires CacheFilename(name)
    ensures Run(State(map[], [], map[0 := Idle, 1 := Idle], {}),
                [Pick(0, name, content), CheckExists(0), OpenTemp(0, unique), WriteSome(0, |content|)])
            == Some(AfterFirstCopy(name, TempName(name, unique), content))
  {
    var tmp := TempName(name, unique);
    var s0 := State(map[], [], map[0 := Idle, 1 := Idle], {});
    var s1 := State(map[], [], map[0 := Picked(name, content), 1 := Idle], {(name, content)});
    var s2 := State(map[], [], map[0 := Missing(name, content), 1 := Idle], {(name, content)});
    var s3 := State(map[tmp := 0], [[]], map[0 := Copying(name, content, tmp, 0, 0), 1 := Idle], {(name, content)});
    var s4 := AfterFirstCopy(name, tmp, content);
    assert s0.workers[0 := Picked(name, content)] == s1.workers && s0.offered + {(name, content)} == s1.offered;
    assert Next(s0, Pick(0, name, content)) == Some(s1);
    assert s1.workers[0 := Missing(name, content)] == s2.workers;
    assert Next(s1, CheckExists(0)) == Some(s2);
    assert s2.workers[0 := s3.workers[0]] == s3.workers && s2.links[tmp := 0] == s3.links && s2.inodes + [[]] == s3.inodes;
    assert Next(s2, OpenTemp(0, unique)) == Some(s3);
    assert [] + content[0..|content|] == content && s3.inodes[0 := content] == s4.inodes;
    assert s3.workers[0 := s4.workers[0]] == s4.workers;
    assert Next(s3, WriteSome(0, |content|)) == Some(s4);
    RunOfFour(s0, s1, s2, s3, s4, Pick(0, name, content), CheckExists(0), OpenTemp(0, unique), WriteSome(0, |content|));
  }

  /** Worker 1 has opened, and so emptied, the same temporary file. */
  function AfterSecondOpen(name: string, tmp: string, content: Bytes): State {
    State(map[tmp := 0], [[]],
          map[0 := Copying(name, content, tmp, 0, |content|), 1 := Copying(name, content, tmp, 0, 0)], {(name, content)})
  }

  function Published(name: string, tmp: string, content: Bytes): State {
    State(map[name := 0], [[]], map[0 := Idle, 1 := Copying(name, content, tmp, 0, 0)], {(name, content)})
  }

  lemma RenamePublishes(name: string, tmp: string, content: Bytes)
    ensures Next(AfterSecondOpen(name, tmp, content), Rename(0)) == Some(Published(name, tmp, content))
  {
    var s := AfterSecondOpen(name, tmp, content);
    assert s.workers[0 := Idle] == Published(name, tmp, content).workers;
    assert (s.links - {tmp})[name := 0] == map[name := 0];
  }

  lemma SecondCopyEmptiesIt(name: string, unique: string, content: Bytes)
    requires CacheFilename(name)
    ensures Run(AfterFirstCopy(name, TempName(name, unique), content),
                [Pick(1, name, content), CheckExists(1), OpenTemp(1, unique), Rename(0)])
            == Some(Published(name, TempName(name, unique), content))
  {
    var tmp := TempName(name, unique);
    TempNameIsNoCacheFile(name, unique);
    var s0 := AfterFirstCopy(name, tmp, content);
    var s1 := s0.(workers := s0.workers[1 := Picked(name, content)]);
    var s2 := s0.(workers := s0.workers[1 := Missing(name, content)]);
    var s3 := AfterSecondOpen(name, tmp, content);
    assert s0.offered + {(name, content)} == s0.offered;
    assert Next(s0, Pick(1, name, content)) == Some(s1);
    assert s1.workers[1 := Missing(name, content)] == s2.workers;
    assert Next(s1, CheckExists(1)) == Some(s2);
    assert s2.workers[1 := s3.workers[1]] == s3.workers && s2.inodes[0 := []] == s3.inodes;
    assert Next(s2, OpenTemp(1, unique)) == Some(s3);
    RenamePublishes(name, tmp, content);
    RunOfFour(s0, s1, s2, s3, Published(name, tmp, content),
              Pick(1, name, content), CheckExists(1), OpenTemp(1, unique), Rename(0));
  }

  lemma RunOfFour(s0: State, s1: State, s2: State, s3: State, s4: State, e0: Event, e1: Event, e2: Event, e3: Event)
    requires Next(s0, e0) == Some(s1) && Next(s1, e1) == Some(s2)
    requires Next(s2, e2) == Some(s3) && Next(s3, e3) == Some(s4)
    ensures Run(s0, [e0, e1, e2, e3]) == Some(s4)
  {
    assert [e0, e1, e2, e3][1..] == [e1, e2, e3] && [e1, e2, e3][1..] == [e2, e3];
    assert [e2, e3][1..] == [e3] && [e3][1..] == [];
    assert Run(s3, [e3]) == Some(s4);
    assert Run(s2, [e2, e3]) == Some(s4);
  }

  lemma {:induction false} RunOfConcat(s: State, a: seq<Event>, b: seq<Event>)
    requires Run(s, a).Some?
    ensures Run(s, a + b) == Run(Run(s, a).value, b)
    decreases |a|
  {
    if a == [] {
      assert a + b == b;
    } else {
      assert (a + b)[1..] == a[1..] + b;
      RunOfConcat(Next(s, a[0]).value, a[1..], b);
    }
  }
}
