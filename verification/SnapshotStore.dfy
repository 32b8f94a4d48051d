/** The managed snapshots as the source holds them: files and tables, changed step by step. */
module SnapshotStore {
  import opened Prelude
  import opened SnapshotFormat
  import opened SnapshotProtocol
  import opened SnapshotTheorems

  function LocalSide(maps: RootMap, n: nat): set<LocalRoot>
    requires n <= |maps|
  {
    set i | 0 <= i < n :: maps[i].1
  }

  lemma NoRepeatsGrow(maps: RootMap, i: nat)
    requires i < |maps| && NoRepeats(maps, i)
    ensures NoRepeats(maps, i + 1) <==> maps[i].0 !in SnapshotSide(maps, i) && maps[i].1 !in LocalSide(maps, i)
  {
    forall j | 0 <= j < i && NoRepeats(maps, i + 1) ensures maps[j].0 != maps[i].0 && maps[j].1 != maps[i].1 {
      assert !SameSnapshotRoot(maps[j], maps[i]) && !SameLocalRoot(maps[j], maps[i]);
    }
  }

  class Store {
    var files: map<File, Content>
    var snapshots: map<SnapshotId, Registration>
    var maps: map<(SnapshotId, RootName), LocalRoot>
    var roots: map<LocalRoot, bool>

    ghost function View(): World
      reads this
    {
      World(files, snapshots, maps, roots)
    }

    constructor ()
      ensures View() == World(map[], map[], map[], map[])
    {
      files, snapshots, maps, roots := map[], map[], map[], map[];
    }

    /** The loop over `--map` entries with its two sets. */
    method CheckMaps(asked: RootMap, m: Manifest, canonical: LocalRoot -> Option<LocalRoot>) returns (ok: bool)
      ensures ok <==> MapsOk(View(), m, canonical, asked)
    {
      if asked == [] || |asked| != |m.roots| {
        return false;
      }
      var seenSnapshot, seenLocal := {}, {};
      for i := 0 to |asked|
        invariant seenSnapshot == SnapshotSide(asked, i) && seenLocal == LocalSide(asked, i)
        invariant NoRepeats(asked, i)
        invariant forall j :: 0 <= j < i ==> MapEntryOk(View(), m, canonical, asked[j])
      {
        NoRepeatsGrow(asked, i);
        if asked[i].0 in seenSnapshot || asked[i].1 in seenLocal {
          return false;
        }
        var known := exists r :: 0 <= r < |m.roots| && m.roots[r].id == asked[i].0;
        assert known <==> asked[i].0 in RootNames(m.roots, |m.roots|);
        var local := canonical(asked[i].1);
        if !known || local.None? || local.value !in roots || !roots[local.value] {
          assert !MapEntryOk(View(), m, canonical, asked[i]);
          return false;
        }
        seenSnapshot, seenLocal := seenSnapshot + {asked[i].0}, seenLocal + {asked[i].1};
      }
      ok := true;
    }

    /** Everything checked before the first effect. */
    method Admissible(q: Import) returns (ok: bool)
      ensures ok <==> Accepts(View(), q)
    {
      if !q.treeOk || q.manifest.None? {
        return false;
      }
      var m := q.manifest.value;
      var compatible := ValidateManifest(m);
      if !compatible || q.content != m.checksum {
        return false;
      }
      var mapped := CheckMaps(q.maps, m, q.canonical);
      if !mapped {
        return false;
      }
      ok := ValidatePayload(q.content, m);
    }

    method RemoveTemp(id: SnapshotId, fails: bool)
      modifies `files
      ensures View() == WithoutTemp(old(View()), id, fails)
    {
      if !fails {
        files := files - {Temp(id)};
      }
    }

    /** The rows of the transaction, built beside the tables; `None` is a constraint that rolls it back. */
    method MapInserts(id: SnapshotId, asked: RootMap) returns (rows: Option<map<(SnapshotId, RootName), LocalRoot>>)
      ensures rows.Some? <==> RootsKnown(View(), asked)
      ensures rows.Some? ==> rows.value == MapRows(id, asked, |asked|)
    {
      var pending := map[];
      for i := 0 to |asked|
        invariant pending == MapRows(id, asked, i)
        invariant forall j :: 0 <= j < i ==> asked[j].1 in roots
      {
        if asked[i].1 !in roots {
          return None;
        }
        pending := pending[(id, asked[i].0) := asked[i].1];
      }
      rows := Some(pending);
    }

    /** The step after the commit. */
    method SettleImport(q: Import) returns (ok: bool, ghost trace: seq<World>)
      requires Temp(q.id) in files && q.id in snapshots
      modifies `files, `snapshots, `maps
      ensures Outcome(trace, ok) == Settle(old(View()), q)
      ensures View() == trace[|trace| - 1]
    {
      if q.renameFails {
        if !q.deleteMapsFails {
          maps := map k | k in maps && k.0 != q.id :: maps[k];
        }
        ghost var a := View();
        if !q.deleteRowFails {
          maps := map k | k in maps && k.0 != q.id :: maps[k];
          snapshots := snapshots - {q.id};
        }
        ghost var b := View();
        RemoveTemp(q.id, q.removeTempFails);
        return false, [a, b, View()];
      }
      var content := files[Temp(q.id)];
      files := (files - {Temp(q.id)})[Stored(q.id) := content];
      ghost var a := View();
      if !q.updateFails {
        snapshots := snapshots[q.id := snapshots[q.id].(path := Stored(q.id))];
      }
      ok, trace := true, [a, View()];
    }

    /** From the complete copy on. */
    method CommitImport(q: Import) returns (ok: bool, ghost trace: seq<World>)
      requires Temp(q.id) in files && q.manifest.Some?
      modifies `files, `snapshots, `maps
      ensures Outcome(trace, ok) == Commit(old(View()), q)
      ensures View() == trace[|trace| - 1]
    {
      ghost var copied := View();
      var m := q.manifest.value;
      var valid := ValidatePayload(files[Temp(q.id)], m);
      var rows := MapInserts(q.id, q.maps);
      if !valid || q.insertFails || rows.None? || q.commitFails {
        RemoveTemp(q.id, q.removeTempFails);
        return false, [copied, View()];
      }
      snapshots := snapshots[q.id := Registration(Temp(q.id), m, Asked(q.maps, |q.maps|), EnabledRoots(roots))];
      maps := maps + rows.value;
      ghost var registered := View();
      ghost var rest;
      ok, rest := SettleImport(q);
      trace := [copied, registered] + rest;
    }

    /** From the first effect on. */
    method CopyImport(q: Import) returns (ok: bool, ghost trace: seq<World>)
      requires q.manifest.Some?
      modifies `files, `snapshots, `maps
      ensures Outcome(trace, ok) == CopyRun(old(View()), q)
      ensures View() == trace[|trace| - 1]
    {
      ghost var w := View();
      files := files[Temp(q.id) := q.partial];
      ghost var copying := View();
      if q.copyFails {
        RemoveTemp(q.id, q.removeTempFails);
        return false, [w, copying, View()];
      }
      files := files[Temp(q.id) := q.copied];
      assert View() == WithTemp(w, q.id, q.copied);
      ghost var rest;
      ok, rest := CommitImport(q);
      trace := [w, copying] + rest;
    }

    /** `import_snapshot`; `trace` lists the states between its effects. */
    method ImportSnapshot(q: Import) returns (ok: bool, ghost trace: seq<World>)
      modifies `files, `snapshots, `maps
      ensures Outcome(trace, ok) == ImportRun(old(View()), q)
      ensures View() == trace[|trace| - 1]
    {
      var admissible := Admissible(q);
      if !admissible || q.directoryFails {
        return false, [View()];
      }
      ok, trace := CopyImport(q);
    }

    /** `remove_snapshot`. */
    method RemoveSnapshot(id: SnapshotId, transactionFails: bool, fileFails: bool)
      returns (ok: bool, ghost trace: seq<World>)
      modifies `files, `snapshots, `maps
      ensures Outcome(trace, ok) == RemoveRun(old(View()), id, transactionFails, fileFails)
      ensures View() == trace[|trace| - 1]
    {
      ghost var w := View();
      if id !in snapshots || transactionFails {
        return false, [w];
      }
      var path := snapshots[id].path;
      maps := map k | k in maps && k.0 != id :: maps[k];
      snapshots := snapshots - {id};
      ghost var gone := View();
      if path !in files {
        return true, [w, gone];
      }
      if fileFails {
        return false, [w, gone];
      }
      files := files - {path};
      ok, trace := true, [w, gone, View()];
    }

    /** `queryable`, as `list_snapshots` reports it. */
    method IsQueryable(id: SnapshotId) returns (queryable: bool)
      requires id in snapshots
      ensures queryable == Queryable(View(), id)
      ensures Sound(View()) ==>
                var r := snapshots[id];
                queryable <==> r.manifest.roots != [] && r.path in files && PayloadOk(files[r.path], r.manifest)
                               && MappedRoots(maps, id) == RootNames(r.manifest.roots, |r.manifest.roots|)
    {
      var mapped := set k | k in maps && k.0 == id :: k.1;
      var total := |snapshots[id].manifest.roots|;
      queryable := snapshots[id].path in files && |mapped| == total && total > 0;
      if Sound(View()) {
        QueryableExactly(View(), id);
      }
    }
  }
}
