/**
 `import_snapshot` and `remove_snapshot`: effects on files and on rows, one step
 at a time.  A run is the list of states at its step boundaries, so a stop is a
 prefix of it.
 */
module SnapshotProtocol {
  import opened Prelude
  import opened SnapshotFormat

  type SnapshotId = nat

  /** A root id as text; the roots table is keyed by its canonical form. */
  type LocalRoot = string

  /** Names under the managed snapshots directory. */
  datatype File = Temp(id: SnapshotId) | Stored(id: SnapshotId)

  /**
   A row of `snapshots`.  `given` and `enabled` are no columns: they remember the
   mapping the import was asked for and the local roots enabled when it committed.
   */
  datatype Registration = Registration(path: File, manifest: Manifest, given: map<RootName, LocalRoot>,
                                       enabled: set<LocalRoot>)

  /** Managed files, and the rows committed to the database. */
  datatype World = World(files: map<File, Content>,
                         snapshots: map<SnapshotId, Registration>,
                         maps: map<(SnapshotId, RootName), LocalRoot>,
                         roots: map<LocalRoot, bool>)

  type RootMap = seq<(RootName, LocalRoot)>

  /** What one import meets: its directory, its arguments, and which steps fail. */
  datatype Import = Import(
    id: SnapshotId,                       // a fresh UUID
    treeOk: bool,                         // `validate_snapshot_tree`
    manifest: Option<Manifest>,           // `read_manifest`
    content: Content,                     // the payload when its checksum is taken
    maps: RootMap,
    canonical: LocalRoot -> Option<LocalRoot>,
    partial: Content,                     // the temporary file while it is being copied
    copied: Content,                      // and afterwards
    directoryFails: bool, copyFails: bool, insertFails: bool, commitFails: bool, renameFails: bool,
    deleteMapsFails: bool, deleteRowFails: bool, removeTempFails: bool, updateFails: bool)

  // ------------------------------------------------------------ the mapping

  predicate SameSnapshotRoot(a: (RootName, LocalRoot), b: (RootName, LocalRoot)) {
    a.0 == b.0
  }

  predicate SameLocalRoot(a: (RootName, LocalRoot), b: (RootName, LocalRoot)) {
    a.1 == b.1
  }

  predicate MapEntryOk(w: World, m: Manifest, canonical: LocalRoot -> Option<LocalRoot>, e: (RootName, LocalRoot)) {
    && e.0 in RootNames(m.roots, |m.roots|)
    && canonical(e.1).Some? && canonical(e.1).value in w.roots && w.roots[canonical(e.1).value]
  }

  /** Stored root ids are in canonical form: `upsert_root` prints them. */
  ghost predicate CanonicalIds(w: World, canonical: LocalRoot -> Option<LocalRoot>) {
    forall r :: r in w.roots ==> canonical(r) == Some(r)
  }

  ghost predicate NoRepeats(maps: RootMap, n: nat)
    requires n <= |maps|
  {
    && (forall i, j {:trigger SameSnapshotRoot(maps[i], maps[j])} :: 0 <= i < j < n ==>
       !SameSnapshotRoot(maps[i], maps[j]))
    && (forall i, j {:trigger SameLocalRoot(maps[i], maps[j])} :: 0 <= i < j < n ==> !SameLocalRoot(maps[i], maps[j]))
  }

  /** The checks on `--map` arguments. */
  ghost predicate MapsOk(w: World, m: Manifest, canonical: LocalRoot -> Option<LocalRoot>, maps: RootMap) {
    && maps != [] && |maps| == |m.roots|
    && NoRepeats(maps, |maps|)
    && (forall i :: 0 <= i < |maps| ==> MapEntryOk(w, m, canonical, maps[i]))
  }

  function SnapshotSide(maps: RootMap, n: nat): set<RootName>
    requires n <= |maps|
  {
    set i | 0 <= i < n :: maps[i].0
  }

  function Asked(maps: RootMap, n: nat): map<RootName, LocalRoot>
    requires n <= |maps|
  {
    if n == 0 then map[] else Asked(maps, n - 1)[maps[n - 1].0 := maps[n - 1].1]
  }

  predicate DifferentTargets(given: map<RootName, LocalRoot>, a: RootName, b: RootName)
    requires a in given && b in given
  {
    given[a] == given[b] ==> a == b
  }

  /** Every declared root once, no local root twice. */
  ghost predicate OneToOne(given: map<RootName, LocalRoot>, m: Manifest) {
    && given.Keys == RootNames(m.roots, |m.roots|)
    && (forall a, b {:trigger DifferentTargets(given, a, b)} :: a in given && b in given ==>
       DifferentTargets(given, a, b))
  }

  /** Every local root named by the mapping is among these. */
  ghost predicate Targets(given: map<RootName, LocalRoot>, roots: set<LocalRoot>) {
    forall n :: n in given ==> given[n] in roots
  }

  // -------------------------------------------------------------- the states

  /** Everything import checks before it touches anything. */
  ghost predicate Accepts(w: World, q: Import) {
    && q.treeOk && q.manifest.Some?
    && ManifestOk(q.manifest.value)
    && q.content == q.manifest.value.checksum
    && MapsOk(w, q.manifest.value, q.canonical, q.maps)
    && PayloadOk(q.content, q.manifest.value)
  }

  /** Rows of the transaction that break no foreign key. */
  predicate RootsKnown(w: World, maps: RootMap) {
    forall i :: 0 <= i < |maps| ==> maps[i].1 in w.roots
  }

  function WithTemp(w: World, id: SnapshotId, content: Content): World {
    w.(files := w.files[Temp(id) := content])
  }

  function MapRows(id: SnapshotId, maps: RootMap, n: nat): map<(SnapshotId, RootName), LocalRoot>
    requires n <= |maps|
  {
    if n == 0 then map[] else MapRows(id, maps, n - 1)[(id, maps[n - 1].0) := maps[n - 1].1]
  }

  function EnabledRoots(roots: map<LocalRoot, bool>): set<LocalRoot> {
    set r | r in roots && roots[r]
  }

  function Registered(w: World, id: SnapshotId, m: Manifest, maps: RootMap): World {
    w.(snapshots := w.snapshots[id := Registration(Temp(id), m, Asked(maps, |maps|), EnabledRoots(w.roots))],
       maps := w.maps + MapRows(id, maps, |maps|))
  }

  function WithoutTemp(w: World, id: SnapshotId, fails: bool): World {
    if fails then w else w.(files := w.files - {Temp(id)})
  }

  function WithoutMaps(w: World, id: SnapshotId): World {
    w.(maps := map k | k in w.maps && k.0 != id :: w.maps[k])
  }

  /** Deleting the row takes its maps along. */
  function WithoutRow(w: World, id: SnapshotId): World {
    WithoutMaps(w, id).(snapshots := w.snapshots - {id})
  }

  function Renamed(w: World, id: SnapshotId): World
    requires Temp(id) in w.files
  {
    w.(files := (w.files - {Temp(id)})[Stored(id) := w.files[Temp(id)]])
  }

  function Repointed(w: World, id: SnapshotId): World
    requires id in w.snapshots
  {
    w.(snapshots := w.snapshots[id := w.snapshots[id].(path := Stored(id))])
  }

  datatype Outcome = Outcome(trace: seq<World>, ok: bool)

  /** After the registration is committed: rename and repoint, or compensate. */
  function Settle(w: World, q: Import): (o: Outcome)
    requires Temp(q.id) in w.files && q.id in w.snapshots
    ensures o.trace != []
  {
    if q.renameFails then
      var a := if q.deleteMapsFails then w else WithoutMaps(w, q.id);
      var b := if q.deleteRowFails then a else WithoutRow(a, q.id);
      Outcome([a, b, WithoutTemp(b, q.id, q.removeTempFails)], false)
    else
      var a := Renamed(w, q.id);
      Outcome([a, if q.updateFails then a else Repointed(a, q.id)], true)
  }

  /** From a complete copy on: validate it, register it in one transaction, settle. */
  ghost function Commit(copied: World, q: Import): (o: Outcome)
    requires Temp(q.id) in copied.files && q.manifest.Some?
    ensures |o.trace| > 1
  {
    var m := q.manifest.value;
    if !PayloadOk(copied.files[Temp(q.id)], m) || q.insertFails || !RootsKnown(copied, q.maps) || q.commitFails then
      Outcome([copied, WithoutTemp(copied, q.id, q.removeTempFails)], false)
    else
      var registered := Registered(copied, q.id, m, q.maps);
      var rest := Settle(registered, q);
      Outcome([copied, registered] + rest.trace, rest.ok)
  }

  /** From the first effect on: copy to a temporary file, then commit. */
  ghost function CopyRun(w: World, q: Import): (o: Outcome)
    requires q.manifest.Some?
    ensures |o.trace| > 1
  {
    var copying := WithTemp(w, q.id, q.partial);
    if q.copyFails then Outcome([w, copying, WithoutTemp(copying, q.id, q.removeTempFails)], false)
    else
      var rest := Commit(WithTemp(w, q.id, q.copied), q);
      Outcome([w, copying] + rest.trace, rest.ok)
  }

  /** `import_snapshot`: the states at its step boundaries, the first being the one it starts in. */
  ghost function ImportRun(w: World, q: Import): (o: Outcome)
    ensures o.trace != []
  {
    if !Accepts(w, q) || q.directoryFails then Outcome([w], false) else CopyRun(w, q)
  }

  /** `remove_snapshot`. */
  function RemoveRun(w: World, id: SnapshotId, transactionFails: bool, fileFails: bool): (o: Outcome)
    ensures o.trace != []
  {
    if id !in w.snapshots || transactionFails then Outcome([w], false)
    else
      var path := w.snapshots[id].path;
      var gone := WithoutRow(w, id);
      if path !in w.files then Outcome([w, gone], true)
      else if fileFails then Outcome([w, gone], false)
      else Outcome([w, gone, gone.(files := gone.files - {path})], true)
  }

  // -------------------------------------------------------------- invariant

  /** The payload path names a file that passes validation, or no file. */
  ghost predicate RegistrationSound(w: World, id: SnapshotId)
    requires id in w.snapshots
  {
    var r := w.snapshots[id];
    && r.path.id == id
    && ManifestOk(r.manifest)
    && OneToOne(r.given, r.manifest) && Targets(r.given, r.enabled)
    && (r.path in w.files ==> PayloadOk(w.files[r.path], r.manifest))
  }

  ghost predicate MapRowSound(w: World, k: (SnapshotId, RootName))
    requires k in w.maps
  {
    && k.0 in w.snapshots
    && k.1 in w.snapshots[k.0].given && w.maps[k] == w.snapshots[k.0].given[k.1]
    && w.maps[k] in w.roots
  }

  ghost predicate Sound(w: World) {
    && (forall id :: id in w.snapshots ==> RegistrationSound(w, id))
    && (forall k :: k in w.maps ==> MapRowSound(w, k))
  }

  /** No trace of this id yet. */
  ghost predicate FreshId(w: World, id: SnapshotId) {
    id !in w.snapshots && Temp(id) !in w.files && Stored(id) !in w.files
  }

  ghost predicate AllSound(trace: seq<World>) {
    forall i :: 0 <= i < |trace| ==> Sound(trace[i])
  }

  /** `queryable` in `list_snapshots`. */
  function MappedRoots(maps: map<(SnapshotId, RootName), LocalRoot>, id: SnapshotId): set<RootName> {
    set k | k in maps && k.0 == id :: k.1
  }

  predicate Queryable(w: World, id: SnapshotId)
    requires id in w.snapshots
  {
    var r := w.snapshots[id];
    r.path in w.files && |MappedRoots(w.maps, id)| == |r.manifest.roots| && |r.manifest.roots| > 0
  }
}
