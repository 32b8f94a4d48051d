/** Safety of import and remove at every step boundary, over every run. */
module SnapshotTheorems {
  import opened Prelude
  import opened SnapshotFormat
  import opened SnapshotProtocol

  // ---------------------------------------------------------- pigeonhole

  lemma {:induction false} SnapshotSideSize(maps: RootMap, n: nat)
    requires n <= |maps| && NoRepeats(maps, n)
    ensures |SnapshotSide(maps, n)| == n
  {
    if n > 0 {
      SnapshotSideSize(maps, n - 1);
      assert SnapshotSide(maps, n) == SnapshotSide(maps, n - 1) + {maps[n - 1].0};
      assert forall i :: 0 <= i < n - 1 ==> !SameSnapshotRoot(maps[i], maps[n - 1]);
    }
  }

  lemma {:induction false} RootNamesSize(roots: seq<Descriptor>, n: nat)
    requires n <= |roots|
    ensures |RootNames(roots, n)| <= n
  {
    if n > 0 {
      RootNamesSize(roots, n - 1);
      assert RootNames(roots, n) == RootNames(roots, n - 1) + {roots[n - 1].id};
    }
  }

  lemma SubsetOfSameSize<T>(a: set<T>, b: set<T>)
    requires a <= b && |a| >= |b|
    ensures a == b
  {
    if x :| x in b && x !in a {
      SubsetNoLarger(a, b - {x});
    }
  }

  lemma {:induction false} AskedKeys(maps: RootMap, n: nat)
    requires n <= |maps|
    ensures Asked(maps, n).Keys == SnapshotSide(maps, n)
  {
    if n > 0 {
      AskedKeys(maps, n - 1);
      assert SnapshotSide(maps, n) == SnapshotSide(maps, n - 1) + {maps[n - 1].0};
    }
  }

  lemma {:induction false} AskedAt(maps: RootMap, n: nat, i: nat)
    requires i < n <= |maps| && NoRepeats(maps, n)
    ensures maps[i].0 in Asked(maps, n) && Asked(maps, n)[maps[i].0] == maps[i].1
  {
    if i < n - 1 {
      AskedAt(maps, n - 1, i);
      assert !SameSnapshotRoot(maps[i], maps[n - 1]);
    }
  }

  /**
   As many entries as declared roots, none repeated, each declared: then every
   root is mapped, and one to one.  The checks look up the canonical form of a
   local root and the rows store the form given; the foreign key makes them the
   same root, so that each mapped root is an enabled one.
   */
  lemma AcceptedMapsAreOneToOne(w: World, m: Manifest, canonical: LocalRoot -> Option<LocalRoot>, maps: RootMap)
    requires MapsOk(w, m, canonical, maps)
    ensures OneToOne(Asked(maps, |maps|), m)
    ensures forall i :: 0 <= i < |maps| ==>
            maps[i].0 in Asked(maps, |maps|) && Asked(maps, |maps|)[maps[i].0] == maps[i].1
    ensures CanonicalIds(w, canonical) && RootsKnown(w, maps) ==> Targets(Asked(maps, |maps|), EnabledRoots(w.roots))
  {
    var n := |maps|;
    var given := Asked(maps, n);
    AskedKeys(maps, n);
    SnapshotSideSize(maps, n);
    RootNamesSize(m.roots, |m.roots|);
    forall i | 0 <= i < n ensures maps[i].0 in RootNames(m.roots, |m.roots|) {
      assert MapEntryOk(w, m, canonical, maps[i]);
    }
    SubsetOfSameSize(SnapshotSide(maps, n), RootNames(m.roots, |m.roots|));
    forall i | 0 <= i < n ensures maps[i].0 in given && given[maps[i].0] == maps[i].1 {
      AskedAt(maps, n, i);
    }
    DistinctTargets(maps);
    if CanonicalIds(w, canonical) && RootsKnown(w, maps) {
      forall i | 0 <= i < n ensures maps[i].1 in EnabledRoots(w.roots) {
        assert MapEntryOk(w, m, canonical, maps[i]);
      }
      AskedTargets(maps, n, EnabledRoots(w.roots));
    }
  }

  lemma {:induction false} DistinctTargets(maps: RootMap)
    requires NoRepeats(maps, |maps|) && Asked(maps, |maps|).Keys == SnapshotSide(maps, |maps|)
    ensures var given := Asked(maps, |maps|);
            forall a, b {:trigger DifferentTargets(given, a, b)} :: a in given && b in given ==>
                DifferentTargets(given, a, b)
  {
    var n := |maps|;
    var given := Asked(maps, n);
    forall a, b {:trigger DifferentTargets(given, a, b)} | a in given && b in given
      ensures DifferentTargets(given, a, b) {
      var i :| 0 <= i < n && maps[i].0 == a;
      var j :| 0 <= j < n && maps[j].0 == b;
      AskedAt(maps, n, i);
      AskedAt(maps, n, j);
      assert i < j ==> !SameLocalRoot(maps[i], maps[j]);
      assert j < i ==> !SameLocalRoot(maps[j], maps[i]);
    }
  }

  // -------------------------------------------------------- every step keeps it

  lemma FileWrittenKeeps(w: World, file: File, content: Content)
    requires Sound(w) && (forall id :: id in w.snapshots ==> w.snapshots[id].path != file)
    ensures Sound(w.(files := w.files[file := content]))
  {
    var v := w.(files := w.files[file := content]);
    forall id | id in v.snapshots ensures RegistrationSound(v, id) {
      assert RegistrationSound(w, id);
    }
    forall k | k in v.maps ensures MapRowSound(v, k) {
      assert MapRowSound(w, k);
    }
  }

  /** A row that is still there is the same, and its file is the same or gone. */
  ghost predicate RowOnlyLoses(w: World, v: World, id: SnapshotId) {
    id in v.snapshots ==>
      && id in w.snapshots && v.snapshots[id] == w.snapshots[id]
      && var path := v.snapshots[id].path; (path in v.files ==> path in w.files && v.files[path] == w.files[path])
  }

  ghost predicate MapOnlyLoses(w: World, v: World, k: (SnapshotId, RootName)) {
    k in v.maps ==> k in w.maps && v.maps[k] == w.maps[k] && k.0 in v.snapshots && v.maps[k] in v.roots
  }

  /** Losing files, maps or rows keeps a state sound. */
  lemma LossKeeps(w: World, v: World)
    requires Sound(w)
    requires forall id :: RowOnlyLoses(w, v, id)
    requires forall k :: MapOnlyLoses(w, v, k)
    ensures Sound(v)
  {
    forall id | id in v.snapshots ensures RegistrationSound(v, id) {
      assert RowOnlyLoses(w, v, id) && RegistrationSound(w, id);
    }
    forall k | k in v.maps ensures MapRowSound(v, k) {
      assert MapOnlyLoses(w, v, k) && RowOnlyLoses(w, v, k.0) && MapRowSound(w, k);
    }
  }

  lemma FileGoneKeeps(w: World, file: File)
    requires Sound(w)
    ensures Sound(w.(files := w.files - {file}))
  {
    assert forall k :: k in w.maps ==> MapRowSound(w, k);
    LossKeeps(w, w.(files := w.files - {file}));
  }

  lemma MapsGoneKeeps(w: World, id: SnapshotId)
    requires Sound(w)
    ensures Sound(WithoutMaps(w, id))
  {
    assert forall k :: k in w.maps ==> MapRowSound(w, k);
    LossKeeps(w, WithoutMaps(w, id));
  }

  lemma RowGoneKeeps(w: World, id: SnapshotId)
    requires Sound(w)
    ensures Sound(WithoutRow(w, id))
  {
    assert forall k :: k in w.maps ==> MapRowSound(w, k);
    LossKeeps(w, WithoutRow(w, id));
  }

  lemma {:induction false} MapRowsAre(id: SnapshotId, maps: RootMap, n: nat)
    requires n <= |maps|
    ensures forall k :: k in MapRows(id, maps, n) <==> k.0 == id && k.1 in Asked(maps, n)
    ensures forall k :: k in MapRows(id, maps, n) ==> MapRows(id, maps, n)[k] == Asked(maps, n)[k.1]
  {
    if n > 0 {
      MapRowsAre(id, maps, n - 1);
    }
  }

  lemma {:induction false} AskedTargets(maps: RootMap, n: nat, roots: set<LocalRoot>)
    requires n <= |maps| && forall i :: 0 <= i < n ==> maps[i].1 in roots
    ensures forall r :: r in Asked(maps, n) ==> Asked(maps, n)[r] in roots
  {
    if n > 0 {
      AskedTargets(maps, n - 1, roots);
    }
  }

  lemma RegisteredKeeps(w: World, id: SnapshotId, m: Manifest, maps: RootMap)
    requires Sound(w) && id !in w.snapshots && RootsKnown(w, maps)
    requires ManifestOk(m) && OneToOne(Asked(maps, |maps|), m) && Targets(Asked(maps, |maps|), EnabledRoots(w.roots))
    requires Temp(id) in w.files && PayloadOk(w.files[Temp(id)], m)
    ensures Sound(Registered(w, id, m, maps))
  {
    var v := Registered(w, id, m, maps);
    forall i | i in v.snapshots ensures RegistrationSound(v, i) {
      if i != id {
        assert RegistrationSound(w, i);
      }
    }
    RegisteredMapsSound(w, id, m, maps);
  }

  lemma RegisteredMapsSound(w: World, id: SnapshotId, m: Manifest, maps: RootMap)
    requires (forall k :: k in w.maps ==> MapRowSound(w, k)) && id !in w.snapshots && RootsKnown(w, maps)
    ensures var v := Registered(w, id, m, maps); forall k :: k in v.maps ==> MapRowSound(v, k)
  {
    var v := Registered(w, id, m, maps);
    MapRowsAre(id, maps, |maps|);
    AskedTargets(maps, |maps|, w.roots.Keys);
    forall k | k in v.maps ensures MapRowSound(v, k) {
      if k.0 != id {
        assert MapRowSound(w, k);
      }
    }
  }

  lemma RenamedKeeps(w: World, id: SnapshotId)
    requires Sound(w) && id in w.snapshots && w.snapshots[id].path == Temp(id) && Temp(id) in w.files
    ensures Sound(Renamed(w, id)) && Sound(Repointed(Renamed(w, id), id))
  {
    FileGoneKeeps(w, Temp(id));
    var gone := w.(files := w.files - {Temp(id)});
    forall i | i in gone.snapshots ensures gone.snapshots[i].path != Stored(id) {
      assert RegistrationSound(w, i);
    }
    FileWrittenKeeps(gone, Stored(id), w.files[Temp(id)]);
    assert gone.(files := gone.files[Stored(id) := w.files[Temp(id)]]) == Renamed(w, id);
    assert RegistrationSound(w, id);
    RepointedKeeps(Renamed(w, id), id);
  }

  lemma RepointedKeeps(w: World, id: SnapshotId)
    requires Sound(w) && id in w.snapshots
    requires Stored(id) in w.files ==> PayloadOk(w.files[Stored(id)], w.snapshots[id].manifest)
    ensures Sound(Repointed(w, id))
  {
    var v := Repointed(w, id);
    forall i | i in v.snapshots ensures RegistrationSound(v, i) {
      RowRepointed(w, id, i);
    }
    forall k | k in v.maps ensures MapRowSound(v, k) {
      assert MapRowSound(w, k);
    }
  }

  lemma RowRepointed(w: World, id: SnapshotId, i: SnapshotId)
    requires id in w.snapshots && i in w.snapshots && RegistrationSound(w, i)
    requires Stored(id) in w.files ==> PayloadOk(w.files[Stored(id)], w.snapshots[id].manifest)
    ensures RegistrationSound(Repointed(w, id), i)
  {
  }

  lemma CompensationSound(w: World, id: SnapshotId, deleteMapsFails: bool, deleteRowFails: bool)
    requires Sound(w)
    ensures var a := if deleteMapsFails then w else WithoutMaps(w, id);
            var b := if deleteRowFails then a else WithoutRow(a, id);
            Sound(a) && Sound(b) && Sound(WithoutTemp(b, id, true)) && Sound(WithoutTemp(b, id, false))
  {
    MapsGoneKeeps(w, id);
    var a := if deleteMapsFails then w else WithoutMaps(w, id);
    RowGoneKeeps(a, id);
    var b := if deleteRowFails then a else WithoutRow(a, id);
    FileGoneKeeps(b, Temp(id));
  }

  lemma AllSoundPlus(trace: seq<World>, more: seq<World>)
    requires AllSound(trace) && AllSound(more)
    ensures AllSound(trace + more)
  {
  }

  lemma TwoSound(a: World, b: World)
    requires Sound(a) && Sound(b)
    ensures AllSound([a]) && AllSound([a, b])
  {
  }

  lemma ThreeSound(a: World, b: World, c: World)
    requires Sound(a) && Sound(b) && Sound(c)
    ensures AllSound([a, b, c])
  {
  }

  lemma SettleSound(w: World, q: Import)
    requires Sound(w) && q.id in w.snapshots && w.snapshots[q.id].path == Temp(q.id) && Temp(q.id) in w.files
    ensures AllSound(Settle(w, q).trace)
  {
    if q.renameFails {
      CompensationSound(w, q.id, q.deleteMapsFails, q.deleteRowFails);
      var a := if q.deleteMapsFails then w else WithoutMaps(w, q.id);
      var b := if q.deleteRowFails then a else WithoutRow(a, q.id);
      ThreeSound(a, b, WithoutTemp(b, q.id, q.removeTempFails));
    } else {
      RenamedKeeps(w, q.id);
    }
  }

  lemma TempKeeps(w: World, id: SnapshotId, content: Content)
    requires Sound(w) && FreshId(w, id)
    ensures Sound(WithTemp(w, id, content)) && Sound(WithoutTemp(WithTemp(w, id, content), id, true))
    ensures Sound(WithoutTemp(WithTemp(w, id, content), id, false))
  {
    forall i | i in w.snapshots ensures w.snapshots[i].path != Temp(id) {
      assert RegistrationSound(w, i);
    }
    FileWrittenKeeps(w, Temp(id), content);
    FileGoneKeeps(WithTemp(w, id, content), Temp(id));
  }

  lemma CommitSound(copied: World, q: Import)
    requires Sound(copied) && q.id !in copied.snapshots && Temp(q.id) in copied.files && q.manifest.Some?
    requires ManifestOk(q.manifest.value) && OneToOne(Asked(q.maps, |q.maps|), q.manifest.value)
    requires RootsKnown(copied, q.maps) ==> Targets(Asked(q.maps, |q.maps|), EnabledRoots(copied.roots))
    ensures AllSound(Commit(copied, q).trace)
  {
    FileGoneKeeps(copied, Temp(q.id));
    TwoSound(copied, WithoutTemp(copied, q.id, q.removeTempFails));
    if PayloadOk(copied.files[Temp(q.id)], q.manifest.value) && RootsKnown(copied, q.maps) {
      var registered := Registered(copied, q.id, q.manifest.value, q.maps);
      RegisteredKeeps(copied, q.id, q.manifest.value, q.maps);
      SettleSound(registered, q);
      TwoSound(copied, registered);
      AllSoundPlus([copied, registered], Settle(registered, q).trace);
    }
  }

  /** Wherever an import fails or stops, every state it leaves behind is sound. */
  lemma ImportSound(w: World, q: Import)
    requires Sound(w) && FreshId(w, q.id) && CanonicalIds(w, q.canonical)
    ensures AllSound(ImportRun(w, q).trace)
  {
    var copying, copied := WithTemp(w, q.id, q.partial), WithTemp(w, q.id, q.copied);
    TempKeeps(w, q.id, q.partial);
    TempKeeps(w, q.id, q.copied);
    TwoSound(w, copying);
    ThreeSound(w, copying, WithoutTemp(copying, q.id, q.removeTempFails));
    if Accepts(w, q) {
      AcceptedMapsAreOneToOne(w, q.manifest.value, q.canonical, q.maps);
      CommitSound(copied, q);
      AllSoundPlus([w, copying], Commit(copied, q).trace);
    }
  }

  lemma RemoveSound(w: World, id: SnapshotId, transactionFails: bool, fileFails: bool)
    requires Sound(w)
    ensures AllSound(RemoveRun(w, id, transactionFails, fileFails).trace)
  {
    if id in w.snapshots {
      RowGoneKeeps(w, id);
      FileGoneKeeps(WithoutRow(w, id), w.snapshots[id].path);
    }
  }

  // ------------------------------------------------------------ every history

  /** Imports and removals that stop after some step, root changes, files lost from disk. */
  datatype Event =
    | Imported(q: Import, stop: nat)
    | Removed(id: SnapshotId, transactionFails: bool, fileFails: bool, stop: nat)
    | RootStored(root: LocalRoot, enabled: bool)
    | RootDeleted(root: LocalRoot)
    | FileLost(file: File)

  /** The foreign key takes the maps to a deleted root along. */
  function WithoutRoot(w: World, root: LocalRoot): World {
    w.(roots := w.roots - {root}, maps := map k | k in w.maps && w.maps[k] != root :: w.maps[k])
  }

  function StateAt(trace: seq<World>, stop: nat): World
    requires trace != []
  {
    trace[if stop < |trace| then stop else |trace| - 1]
  }

  ghost function Next(w: World, e: Event): World {
    match e
    case Imported(q, stop) =>
      if FreshId(w, q.id) && CanonicalIds(w, q.canonical) then StateAt(ImportRun(w, q).trace, stop) else w
    case Removed(id, transactionFails, fileFails, stop) =>
      StateAt(RemoveRun(w, id, transactionFails, fileFails).trace, stop)
    case RootStored(root, enabled) => w.(roots := w.roots[root := enabled])
    case RootDeleted(root) => WithoutRoot(w, root)
    case FileLost(file) => w.(files := w.files - {file})
  }

  const NOTHING := World(map[], map[], map[], map[])

  /** What becomes of a state in further events. */
  ghost function Later(w: World, events: seq<Event>): World {
    if events == [] then w else Next(Later(w, events[..|events| - 1]), events[|events| - 1])
  }

  ghost function History(events: seq<Event>): World {
    Later(NOTHING, events)
  }

  lemma RootStoredKeeps(w: World, root: LocalRoot, enabled: bool)
    requires Sound(w)
    ensures Sound(w.(roots := w.roots[root := enabled]))
  {
    assert forall k :: k in w.maps ==> MapRowSound(w, k);
    LossKeeps(w, w.(roots := w.roots[root := enabled]));
  }

  lemma RootDeletedKeeps(w: World, root: LocalRoot)
    requires Sound(w)
    ensures Sound(WithoutRoot(w, root))
  {
    assert forall k :: k in w.maps ==> MapRowSound(w, k);
    LossKeeps(w, WithoutRoot(w, root));
  }

  lemma StepSound(w: World, e: Event)
    requires Sound(w)
    ensures Sound(Next(w, e))
  {
    match e
    case Imported(q, stop) => if FreshId(w, q.id) && CanonicalIds(w, q.canonical) { ImportSound(w, q); }
    case Removed(id, transactionFails, fileFails, stop) => RemoveSound(w, id, transactionFails, fileFails);
    case RootStored(root, enabled) => RootStoredKeeps(w, root, enabled);
    case RootDeleted(root) => RootDeletedKeeps(w, root);
    case FileLost(file) => FileGoneKeeps(w, file);
  }

  /**
   After any history, however its operations failed or were stopped: a registered
   payload path names a file that passes validation or no file, the mapping the
   import was given is total, one to one and names only local roots enabled at the
   time, and the stored maps are part of it.
   */
  lemma HistorySound(events: seq<Event>)
    ensures Sound(History(events))
  {
    LaterSound(NOTHING, events);
  }

  lemma {:induction false} LaterSound(w: World, events: seq<Event>)
    requires Sound(w)
    ensures Sound(Later(w, events))
  {
    if events != [] {
      LaterSound(w, events[..|events| - 1]);
      StepSound(Later(w, events[..|events| - 1]), events[|events| - 1]);
    }
  }

  // ------------------------------------------------------------- consequences

  lemma {:induction false} DistinctRootNames(roots: seq<Descriptor>, n: nat)
    requires n <= |roots| && RootsDistinct(roots)
    ensures |RootNames(roots, n)| == n
  {
    if n > 0 {
      DistinctRootNames(roots, n - 1);
      assert RootNames(roots, n) == RootNames(roots, n - 1) + {roots[n - 1].id};
      assert forall i :: 0 <= i < n - 1 ==> !SameRoot(roots[i], roots[n - 1]);
    }
  }

  /**
   A snapshot listed as queryable has a validated payload and still maps every
   declared root, one to one, to known local roots.
   */
  lemma QueryableIsWhole(w: World, id: SnapshotId)
    requires Sound(w) && id in w.snapshots && Queryable(w, id)
    ensures var r := w.snapshots[id];
            && PayloadOk(w.files[r.path], r.manifest)
            && OneToOne(r.given, r.manifest) && Targets(r.given, r.enabled)
            && MappedRoots(w.maps, id) == RootNames(r.manifest.roots, |r.manifest.roots|)
            && forall n :: n in MappedRoots(w.maps, id) ==>
               (id, n) in w.maps && w.maps[(id, n)] == r.given[n] && r.given[n] in w.roots
  {
    assert RegistrationSound(w, id);
    var r := w.snapshots[id];
    forall n | n in MappedRoots(w.maps, id)
      ensures n in r.given && (id, n) in w.maps && w.maps[(id, n)] == r.given[n] && r.given[n] in w.roots {
      assert (id, n) in w.maps;
      assert MapRowSound(w, (id, n));
    }
    RootNamesSize(r.manifest.roots, |r.manifest.roots|);
    SubsetOfSameSize(MappedRoots(w.maps, id), r.given.Keys);
  }

  /** In a sound state the counts compared by `list_snapshots` say that every declared root, and no other, is mapped. */
  lemma QueryableExactly(w: World, id: SnapshotId)
    requires Sound(w) && id in w.snapshots
    ensures var r := w.snapshots[id];
            Queryable(w, id) <==> r.manifest.roots != [] && r.path in w.files && PayloadOk(w.files[r.path], r.manifest)
                                  && MappedRoots(w.maps, id) == RootNames(r.manifest.roots, |r.manifest.roots|)
  {
    var r := w.snapshots[id];
    assert RegistrationSound(w, id);
    DistinctRootNames(r.manifest.roots, |r.manifest.roots|);
    if Queryable(w, id) {
      QueryableIsWhole(w, id);
    }
  }

  ghost function Final(o: Outcome): World
    requires o.trace != []
  {
    o.trace[|o.trace| - 1]
  }

  lemma RegisteredMaps(w: World, id: SnapshotId, m: Manifest, maps: RootMap)
    requires Sound(w) && id !in w.snapshots
    ensures MappedRoots(Registered(w, id, m, maps).maps, id) == Asked(maps, |maps|).Keys
  {
    MapRowsAre(id, maps, |maps|);
    var v := Registered(w, id, m, maps);
    assert forall k :: k in w.maps ==> MapRowSound(w, k);
    forall n | n in Asked(maps, |maps|) ensures n in MappedRoots(v.maps, id) {
      assert (id, n) in v.maps;
    }
    forall n | n in MappedRoots(v.maps, id) ensures n in Asked(maps, |maps|) {
      assert (id, n) in v.maps;
    }
  }

  /** The last two steps of a run that reports success. */
  lemma SettledQueryable(w: World, q: Import)
    requires q.id in w.snapshots && Temp(q.id) in w.files && Stored(q.id) !in w.files
    requires w.snapshots[q.id].path == Temp(q.id)
    requires !q.renameFails
    requires |MappedRoots(w.maps, q.id)| == |w.snapshots[q.id].manifest.roots| > 0
    ensures var v := Final(Settle(w, q));
            q.id in v.snapshots && v.snapshots[q.id].given == w.snapshots[q.id].given
                && (Queryable(v, q.id) <==> !q.updateFails)
  {
    assert Final(Settle(w, q)).maps == w.maps;
  }

  lemma FinalOfRun(w: World, q: Import)
    requires ImportRun(w, q).ok
    ensures var copied := WithTemp(w, q.id, q.copied);
            var registered := Registered(copied, q.id, q.manifest.value, q.maps);
            Final(ImportRun(w, q)) == Final(Settle(registered, q)) && !q.renameFails
  {
    var copied := WithTemp(w, q.id, q.copied);
    assert Final(ImportRun(w, q)) == Final(Commit(copied, q));
  }

  /** A reported success is queryable if and only if the last statement, whose error is ignored, went through. */
  lemma SuccessIsQueryable(w: World, q: Import)
    requires Sound(w) && FreshId(w, q.id) && ImportRun(w, q).ok
    ensures var v := Final(ImportRun(w, q));
            && q.id in v.snapshots && v.snapshots[q.id].given == Asked(q.maps, |q.maps|)
            && (Queryable(v, q.id) <==> !q.updateFails)
  {
    var registered := Registered(WithTemp(w, q.id, q.copied), q.id, q.manifest.value, q.maps);
    FinalOfRun(w, q);
    RegisteredCompletely(w, q);
    SettledQueryable(registered, q);
  }

  lemma RegisteredCompletely(w: World, q: Import)
    requires Sound(w) && FreshId(w, q.id) && Accepts(w, q)
    ensures var registered := Registered(WithTemp(w, q.id, q.copied), q.id, q.manifest.value, q.maps);
            |MappedRoots(registered.maps, q.id)| == |q.manifest.value.roots| > 0
  {
    TempKeeps(w, q.id, q.copied);
    RegisteredMaps(WithTemp(w, q.id, q.copied), q.id, q.manifest.value, q.maps);
    AcceptedMapsAreOneToOne(w, q.manifest.value, q.canonical, q.maps);
    DistinctRootNames(q.manifest.value.roots, |q.manifest.value.roots|);
  }

  /** The transaction went through. */
  ghost predicate Committed(w: World, q: Import) {
    && Accepts(w, q) && !q.directoryFails && !q.copyFails
    && PayloadOk(q.copied, q.manifest.value) && !q.insertFails && RootsKnown(w, q.maps) && !q.commitFails
  }

  /** The maps of a snapshot: total on the manifest's roots, one to one, all to enabled local roots. */
  ghost predicate MapsComplete(w: World, id: SnapshotId, m: Manifest) {
    && MappedRoots(w.maps, id) == RootNames(m.roots, |m.roots|)
    && (forall a, b :: (id, a) in w.maps && (id, b) in w.maps && w.maps[(id, a)] == w.maps[(id, b)] ==> a == b)
    && (forall a :: (id, a) in w.maps ==> w.maps[(id, a)] in EnabledRoots(w.roots))
  }

  lemma {:induction false} RegisteredRows(w: World, id: SnapshotId, m: Manifest, maps: RootMap)
    requires Sound(w) && id !in w.snapshots
    requires OneToOne(Asked(maps, |maps|), m) && Targets(Asked(maps, |maps|), EnabledRoots(w.roots))
    ensures MapsComplete(Registered(w, id, m, maps), id, m)
  {
    var v, given := Registered(w, id, m, maps), Asked(maps, |maps|);
    RegisteredMaps(w, id, m, maps);
    MapRowsAre(id, maps, |maps|);
    forall a | (id, a) in v.maps ensures a in given && v.maps[(id, a)] == given[a] {
      assert a in MappedRoots(v.maps, id);
    }
    forall a, b | (id, a) in v.maps && (id, b) in v.maps && v.maps[(id, a)] == v.maps[(id, b)] ensures a == b {
      assert DifferentTargets(given, a, b);
    }
  }

  lemma CommitTrace(copied: World, q: Import)
    requires Temp(q.id) in copied.files && q.manifest.Some? && PayloadOk(copied.files[Temp(q.id)], q.manifest.value)
    requires !q.insertFails && RootsKnown(copied, q.maps) && !q.commitFails
    ensures Commit(copied, q).trace[0] == copied
    ensures Commit(copied, q).trace[1] == Registered(copied, q.id, q.manifest.value, q.maps)
  {
  }

  lemma CopyTrace(w: World, q: Import)
    requires q.manifest.Some? && !q.copyFails
    ensures var copied := WithTemp(w, q.id, q.copied);
            |CopyRun(w, q).trace| == 2 + |Commit(copied, q).trace|
            && forall i :: 0 <= i < |Commit(copied, q).trace| ==>
               CopyRun(w, q).trace[i + 2] == Commit(copied, q).trace[i]
  {
  }

  lemma CommittedTrace(w: World, q: Import)
    requires Committed(w, q)
    ensures var copied, trace := WithTemp(w, q.id, q.copied), ImportRun(w, q).trace;
            && |trace| > 3 && trace[2] == copied && trace[3] == Registered(copied, q.id, q.manifest.value, q.maps)
  {
    var copied := WithTemp(w, q.id, q.copied);
    assert ImportRun(w, q) == CopyRun(w, q);
    CommitTrace(copied, q) by {
      assert copied.files[Temp(q.id)] == q.copied;
    }
    CopyTrace(w, q);
    assert CopyRun(w, q).trace[0 + 2] == Commit(copied, q).trace[0];
    assert CopyRun(w, q).trace[1 + 2] == Commit(copied, q).trace[1];
  }

  /**
   When a registration is committed its maps are total on the manifest's roots, one
   to one, and all to enabled roots.
   */
  lemma CommittedMapsAreComplete(w: World, q: Import)
    requires Sound(w) && FreshId(w, q.id) && CanonicalIds(w, q.canonical) && Committed(w, q)
    ensures var trace := ImportRun(w, q).trace;
            && |trace| > 3 && q.id !in trace[2].snapshots && q.id in trace[3].snapshots
            && MapsComplete(trace[3], q.id, q.manifest.value)
  {
    CommittedTrace(w, q);
    AcceptedMapsAreOneToOne(w, q.manifest.value, q.canonical, q.maps);
    TempKeeps(w, q.id, q.copied);
    RegisteredRows(WithTemp(w, q.id, q.copied), q.id, q.manifest.value, q.maps);
  }

  lemma FinalOfCommit(copied: World, q: Import)
    requires Temp(q.id) in copied.files && q.manifest.Some? && q.id !in copied.snapshots && !Commit(copied, q).ok
    ensures q.id in Final(Commit(copied, q)).snapshots <==>
            && PayloadOk(copied.files[Temp(q.id)], q.manifest.value) && !q.insertFails && RootsKnown(copied, q.maps)
               && !q.commitFails
            && q.renameFails && q.deleteRowFails
  {
  }

  /** A reported failure leaves a registration if and only if the rename failed and so did deleting the row again. */
  lemma FailureLeavesNothing(w: World, q: Import)
    requires FreshId(w, q.id) && !ImportRun(w, q).ok
    ensures q.id in Final(ImportRun(w, q)).snapshots <==> Committed(w, q) && q.renameFails && q.deleteRowFails
  {
    if Accepts(w, q) && !q.directoryFails && !q.copyFails {
      CopiedFailureLeavesNothing(w, q);
    }
  }

  lemma CopiedFailureLeavesNothing(w: World, q: Import)
    requires FreshId(w, q.id) && !ImportRun(w, q).ok && Accepts(w, q) && !q.directoryFails && !q.copyFails
    ensures q.id in Final(ImportRun(w, q)).snapshots <==> Committed(w, q) && q.renameFails && q.deleteRowFails
  {
    var copied, copying := WithTemp(w, q.id, q.copied), WithTemp(w, q.id, q.partial);
    FinalOfCommit(copied, q);
    FinalBehind([w, copying], Commit(copied, q));
  }

  lemma FinalBehind(before: seq<World>, o: Outcome)
    requires o.trace != []
    ensures Final(Outcome(before + o.trace, o.ok)) == Final(o)
  {
  }

  /** Another snapshot's row, maps and files are as they were. */
  ghost predicate SnapshotKept(w: World, v: World, id: SnapshotId, root: RootName) {
    && (id in v.snapshots <==> id in w.snapshots) && (id in w.snapshots ==> v.snapshots[id] == w.snapshots[id])
    && ((id, root) in v.maps <==> (id, root) in w.maps)
       && ((id, root) in w.maps ==> v.maps[(id, root)] == w.maps[(id, root)])
    && FileKept(w, v, Temp(id)) && FileKept(w, v, Stored(id))
  }

  ghost predicate FileKept(w: World, v: World, f: File) {
    (f in v.files <==> f in w.files) && (f in w.files ==> v.files[f] == w.files[f])
  }

  lemma RemoveKeepsOthers(w: World, id: SnapshotId, transactionFails: bool, fileFails: bool, i: nat, other: SnapshotId,
                          root: RootName)
    requires i < |RemoveRun(w, id, transactionFails, fileFails).trace| && other != id
    requires id in w.snapshots ==> w.snapshots[id].path.id == id
    ensures SnapshotKept(w, RemoveRun(w, id, transactionFails, fileFails).trace[i], other, root)
  {
  }

  lemma SettleKeepsOthers(w: World, q: Import, i: nat, other: SnapshotId, root: RootName)
    requires q.id in w.snapshots && Temp(q.id) in w.files && i < |Settle(w, q).trace| && other != q.id
    ensures SnapshotKept(w, Settle(w, q).trace[i], other, root)
  {
  }

  lemma RegisteredKeepsOthers(w: World, id: SnapshotId, m: Manifest, maps: RootMap, content: Content, other: SnapshotId,
                              root: RootName)
    requires other != id
    ensures SnapshotKept(w, Registered(WithTemp(w, id, content), id, m, maps), other, root)
  {
    MapRowsAre(id, maps, |maps|);
    assert (other, root) !in MapRows(id, maps, |maps|);
  }

  lemma SnapshotKeptOnward(w: World, mid: World, v: World, id: SnapshotId, root: RootName)
    requires SnapshotKept(w, mid, id, root) && SnapshotKept(mid, v, id, root)
    ensures SnapshotKept(w, v, id, root)
  {
  }

  ghost predicate AllKept(w: World, trace: seq<World>, id: SnapshotId, root: RootName) {
    forall i :: 0 <= i < |trace| ==> SnapshotKept(w, trace[i], id, root)
  }

  lemma AllKeptPlus(w: World, trace: seq<World>, more: seq<World>, id: SnapshotId, root: RootName)
    requires AllKept(w, trace, id, root) && AllKept(w, more, id, root)
    ensures AllKept(w, trace + more, id, root)
  {
  }

  lemma SettledKept(w: World, registered: World, q: Import, other: SnapshotId, root: RootName)
    requires SnapshotKept(w, registered, other, root) && other != q.id && q.id in registered.snapshots
    requires Temp(q.id) in registered.files
    ensures AllKept(w, Settle(registered, q).trace, other, root)
  {
    var rest := Settle(registered, q).trace;
    forall i | 0 <= i < |rest| ensures SnapshotKept(w, rest[i], other, root) {
      SettleKeepsOthers(registered, q, i, other, root);
      SnapshotKeptOnward(w, registered, rest[i], other, root);
    }
  }

  lemma CopyKept(w: World, id: SnapshotId, content: Content, fails: bool, other: SnapshotId, root: RootName)
    requires other != id
    ensures SnapshotKept(w, WithTemp(w, id, content), other, root)
    ensures SnapshotKept(w, WithoutTemp(WithTemp(w, id, content), id, fails), other, root)
  {
  }

  lemma TwoKept(w: World, a: World, b: World, id: SnapshotId, root: RootName)
    requires SnapshotKept(w, a, id, root) && SnapshotKept(w, b, id, root)
    ensures AllKept(w, [a, b], id, root) && AllKept(w, [w], id, root) && AllKept(w, [w, a, b], id, root)
  {
  }

  lemma CommitKeepsOthers(w: World, q: Import, other: SnapshotId, root: RootName)
    requires q.manifest.Some? && other != q.id
    ensures AllKept(w, Commit(WithTemp(w, q.id, q.copied), q).trace, other, root)
  {
    var copied := WithTemp(w, q.id, q.copied);
    CopyKept(w, q.id, q.copied, q.removeTempFails, other, root);
    TwoKept(w, copied, WithoutTemp(copied, q.id, q.removeTempFails), other, root);
    if Commit(copied, q).trace != [copied, WithoutTemp(copied, q.id, q.removeTempFails)] {
      var registered := Registered(copied, q.id, q.manifest.value, q.maps);
      RegisteredKeepsOthers(w, q.id, q.manifest.value, q.maps, q.copied, other, root);
      SettledKept(w, registered, q, other, root);
      TwoKept(w, copied, registered, other, root);
      AllKeptPlus(w, [copied, registered], Settle(registered, q).trace, other, root);
    }
  }

  /** No state of an import's run differs in another snapshot. */
  lemma ImportKeepsOthers(w: World, q: Import, other: SnapshotId, root: RootName)
    requires other != q.id
    ensures AllKept(w, ImportRun(w, q).trace, other, root)
  {
    var copying := WithTemp(w, q.id, q.partial);
    CopyKept(w, q.id, q.partial, q.removeTempFails, other, root);
    TwoKept(w, copying, WithoutTemp(copying, q.id, q.removeTempFails), other, root);
    if q.manifest.Some? {
      TwoKept(w, w, copying, other, root);
      CommitKeepsOthers(w, q, other, root);
      AllKeptPlus(w, [w, copying], Commit(WithTemp(w, q.id, q.copied), q).trace, other, root);
    }
  }
}
