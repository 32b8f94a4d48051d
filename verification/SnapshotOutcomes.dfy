/** What imports and removals leave behind, and that a removal lasts. */
module SnapshotOutcomes {
  import opened Prelude
  import opened SnapshotFormat
  import opened SnapshotProtocol
  import opened SnapshotTheorems

  // ----------------------------------------------------------------- removal

  /** No row and no map of this snapshot. */
  ghost predicate Forgotten(w: World, id: SnapshotId) {
    id !in w.snapshots && forall root :: (id, root) !in w.maps
  }

  /** Removal succeeds if and only if it finds its row, its transaction goes through and its file is gone or can go. */
  lemma RemovalSucceedsExactly(w: World, id: SnapshotId, transactionFails: bool, fileFails: bool)
    ensures RemoveRun(w, id, transactionFails, fileFails).ok
            <==> id in w.snapshots && !transactionFails && (w.snapshots[id].path in w.files ==> !fileFails)
  {
  }

  /** What it leaves: nothing of the snapshot; or, if the file stayed, the file; or, if nothing was committed, all. */
  lemma RemovalLeaves(w: World, id: SnapshotId, transactionFails: bool, fileFails: bool)
    ensures var o := RemoveRun(w, id, transactionFails, fileFails);
            var v := Final(o);
            if id !in w.snapshots || transactionFails then v == w && !o.ok
            else
              && Forgotten(v, id) && v.roots == w.roots
              && v.files == if o.ok then w.files - {w.snapshots[id].path} else w.files
  {
  }

  // ----------------------------------------------------------------- history

  ghost predicate Imports(e: Event, id: SnapshotId) {
    e.Imported? && e.q.id == id
  }

  lemma StoppedSomewhere(trace: seq<World>, stop: nat) returns (i: nat)
    requires trace != []
    ensures i < |trace| && StateAt(trace, stop) == trace[i]
  {
    i := if stop < |trace| then stop else |trace| - 1;
  }

  lemma KeptForgotten(w: World, v: World, id: SnapshotId)
    requires Forgotten(w, id) && forall root :: SnapshotKept(w, v, id, root)
    ensures Forgotten(v, id)
  {
    assert SnapshotKept(w, v, id, "");
    forall root ensures (id, root) !in v.maps {
      assert SnapshotKept(w, v, id, root);
    }
  }

  lemma StepStaysForgotten(w: World, e: Event, id: SnapshotId)
    requires Sound(w) && Forgotten(w, id) && !Imports(e, id)
    ensures Forgotten(Next(w, e), id)
  {
    match e
    case Imported(q, stop) =>
      var trace := ImportRun(w, q).trace;
      var i := StoppedSomewhere(trace, stop);
      forall root ensures SnapshotKept(w, trace[i], id, root) {
        ImportKeepsOthers(w, q, id, root);
      }
      KeptForgotten(w, trace[i], id);
    case Removed(gone, transactionFails, fileFails, stop) =>
      var trace := RemoveRun(w, gone, transactionFails, fileFails).trace;
      var i := StoppedSomewhere(trace, stop);
      if gone != id {
        assert gone in w.snapshots ==> RegistrationSound(w, gone);
        forall root ensures SnapshotKept(w, trace[i], id, root) {
          RemoveKeepsOthers(w, gone, transactionFails, fileFails, i, id, root);
        }
        KeptForgotten(w, trace[i], id);
      }
    case RootStored(root, enabled) =>
    case RootDeleted(root) =>
    case FileLost(file) =>
  }

  lemma {:induction false} StaysForgotten(w: World, events: seq<Event>, id: SnapshotId)
    requires Sound(w) && Forgotten(w, id) && forall i :: 0 <= i < |events| ==> !Imports(events[i], id)
    ensures Forgotten(Later(w, events), id)
  {
    if events != [] {
      var init := events[..|events| - 1];
      StaysForgotten(w, init, id);
      LaterSound(w, init);
      StepStaysForgotten(Later(w, init), events[|events| - 1], id);
    }
  }

  /** A snapshot whose removal went through its transaction is not registered or mapped again until it is imported. */
  lemma RemovedStaysRemoved(w: World, id: SnapshotId, fileFails: bool, events: seq<Event>)
    requires Sound(w) && id in w.snapshots && forall i :: 0 <= i < |events| ==> !Imports(events[i], id)
    ensures Forgotten(Later(Final(RemoveRun(w, id, false, fileFails)), events), id)
  {
    var o := RemoveRun(w, id, false, fileFails);
    RemoveSound(w, id, false, fileFails);
    assert Sound(o.trace[|o.trace| - 1]);
    StaysForgotten(Final(o), events, id);
  }

  // ------------------------------------------------------------------ import

  /** Its maps are exactly those it was asked for. */
  ghost predicate MappedAs(rows: map<(SnapshotId, RootName), LocalRoot>, id: SnapshotId, maps: RootMap) {
    && (forall i :: 0 <= i < |maps| ==> (id, maps[i].0) in rows && rows[(id, maps[i].0)] == maps[i].1)
    && (forall root :: (id, root) in rows ==> exists i :: 0 <= i < |maps| && maps[i].0 == root)
  }

  lemma {:induction false} AskedAt(maps: RootMap, n: nat)
    requires n <= |maps| && NoRepeats(maps, |maps|)
    ensures forall i :: 0 <= i < n ==> maps[i].0 in Asked(maps, n) && Asked(maps, n)[maps[i].0] == maps[i].1
    ensures forall root :: root in Asked(maps, n) ==> exists i :: 0 <= i < n && maps[i].0 == root
  {
    if n > 0 {
      AskedAt(maps, n - 1);
      assert forall i :: 0 <= i < n - 1 ==> !SameSnapshotRoot(maps[i], maps[n - 1]);
    }
  }

  lemma RegisteredAs(w: World, id: SnapshotId, m: Manifest, maps: RootMap)
    requires NoRepeats(maps, |maps|) && forall root :: (id, root) !in w.maps
    ensures MappedAs(Registered(w, id, m, maps).maps, id, maps)
  {
    MapRowsAre(id, maps, |maps|);
    AskedAt(maps, |maps|);
    var v := Registered(w, id, m, maps);
    forall i | 0 <= i < |maps| ensures (id, maps[i].0) in v.maps && v.maps[(id, maps[i].0)] == maps[i].1 {
      assert (id, maps[i].0) in MapRows(id, maps, |maps|);
    }
  }

  /** An import succeeds if and only if every check passes and every step up to the rename goes through. */
  lemma ImportSucceedsExactly(w: World, q: Import)
    requires FreshId(w, q.id)
    ensures ImportRun(w, q).ok <==> Committed(w, q) && !q.renameFails
  {
  }

  /** What a committed and settled registration is in the end. */
  lemma SettledRun(w: World, q: Import)
    requires Committed(w, q)
    ensures var registered := Registered(WithTemp(w, q.id, q.copied), q.id, q.manifest.value, q.maps);
            Final(ImportRun(w, q)) == Final(Settle(registered, q))
  {
    var copied, copying := WithTemp(w, q.id, q.copied), WithTemp(w, q.id, q.partial);
    var registered := Registered(copied, q.id, q.manifest.value, q.maps);
    assert copied.files[Temp(q.id)] == q.copied;
    assert Commit(copied, q) == Outcome([copied, registered] + Settle(registered, q).trace, Settle(registered, q).ok);
    FinalBehind([copied, registered], Settle(registered, q));
    FinalBehind([w, copying], Commit(copied, q));
  }

  lemma FreshIsUnmapped(w: World, id: SnapshotId)
    requires Sound(w) && id !in w.snapshots
    ensures forall root :: (id, root) !in w.maps
  {
  }

  lemma SettleLeaves(w: World, q: Import)
    requires Temp(q.id) in w.files && q.id in w.snapshots && w.snapshots[q.id].path == Temp(q.id) && !q.renameFails
    ensures var v := Final(Settle(w, q));
            && v.files == (w.files - {Temp(q.id)})[Stored(q.id) := w.files[Temp(q.id)]] && v.maps == w.maps
            && q.id in v.snapshots && v.snapshots[q.id].manifest == w.snapshots[q.id].manifest
            && v.snapshots[q.id].path == (if q.updateFails then Temp(q.id) else Stored(q.id))
  {
  }

  ghost predicate StoredAs(v: World, q: Import)
    requires q.manifest.Some?
  {
    && Temp(q.id) !in v.files && Stored(q.id) in v.files && v.files[Stored(q.id)] == q.copied
    && q.id in v.snapshots && v.snapshots[q.id].manifest == q.manifest.value
    && v.snapshots[q.id].path == (if q.updateFails then Temp(q.id) else Stored(q.id))
    && MappedAs(v.maps, q.id, q.maps)
  }

  /** A successful import stores the copy under its final name, registers it, and maps what it was asked to map. */
  lemma SuccessLeaves(w: World, q: Import)
    requires Sound(w) && FreshId(w, q.id) && ImportRun(w, q).ok
    ensures q.manifest.Some? && StoredAs(Final(ImportRun(w, q)), q)
  {
    ImportSucceedsExactly(w, q);
    SettledRun(w, q);
    RegisteredFresh(w, q);
    var registered := Registered(WithTemp(w, q.id, q.copied), q.id, q.manifest.value, q.maps);
    SettledIsStored(registered, q);
  }

  lemma SettledIsStored(registered: World, q: Import)
    requires q.manifest.Some? && !q.renameFails && q.id in registered.snapshots && Temp(q.id) in registered.files
    requires registered.snapshots[q.id].path == Temp(q.id) && registered.files[Temp(q.id)] == q.copied
    requires registered.snapshots[q.id].manifest == q.manifest.value && MappedAs(registered.maps, q.id, q.maps)
    ensures StoredAs(Final(Settle(registered, q)), q)
  {
    SettleLeaves(registered, q);
  }

  lemma RegisteredFresh(w: World, q: Import)
    requires Sound(w) && FreshId(w, q.id) && Accepts(w, q)
    ensures var copied := WithTemp(w, q.id, q.copied);
            MappedAs(Registered(copied, q.id, q.manifest.value, q.maps).maps, q.id, q.maps)
  {
    FreshIsUnmapped(w, q.id);
    RegisteredAs(WithTemp(w, q.id, q.copied), q.id, q.manifest.value, q.maps);
  }

  /** A failed rename takes back what it can. */
  lemma CompensationLeaves(w: World, q: Import)
    requires Temp(q.id) in w.files && q.id in w.snapshots && q.renameFails
    ensures var v := Final(Settle(w, q));
            && v.files == (if q.removeTempFails then w.files else w.files - {Temp(q.id)})
            && (if q.deleteMapsFails && q.deleteRowFails then v.maps == w.maps
                else forall root :: (q.id, root) !in v.maps)
  {
  }

  lemma UncommittedLeaves(w: World, q: Import)
    requires Accepts(w, q) && !q.directoryFails && !Committed(w, q)
    ensures var v := Final(ImportRun(w, q));
            && v.maps == w.maps && (Temp(q.id) in v.files <==> q.removeTempFails)
            && (Stored(q.id) in v.files <==> Stored(q.id) in w.files)
  {
    if !q.copyFails {
      var copied, copying := WithTemp(w, q.id, q.copied), WithTemp(w, q.id, q.partial);
      FinalBehind([w, copying], Commit(copied, q));
    }
  }

  /**
   A failed import leaves its temporary file if and only if it got as far as
   creating it and could not remove it; it leaves maps if and only if the rename
   failed and so did both ways of taking them back; the stored name is never
   taken.
   */
  lemma FailureLeaves(w: World, q: Import)
    requires Sound(w) && FreshId(w, q.id) && !ImportRun(w, q).ok
    ensures var v := Final(ImportRun(w, q));
            && (Temp(q.id) in v.files <==> Accepts(w, q) && !q.directoryFails && q.removeTempFails)
            && Stored(q.id) !in v.files
            && (if Committed(w, q) && q.deleteMapsFails && q.deleteRowFails then MappedAs(v.maps, q.id, q.maps)
                else forall root :: (q.id, root) !in v.maps)
  {
    FreshIsUnmapped(w, q.id);
    if Committed(w, q) {
      ImportSucceedsExactly(w, q);
      SettledRun(w, q);
      RegisteredFresh(w, q);
      CompensationLeaves(Registered(WithTemp(w, q.id, q.copied), q.id, q.manifest.value, q.maps), q);
    } else if Accepts(w, q) && !q.directoryFails {
      UncommittedLeaves(w, q);
    }
  }
}
