/**
 The index database of storage.rs and the indexing loops of index.rs as they
 run: tables are fields, a transaction works on copies and assigns the fields
 when it commits.  Each method is tied to its function on the catalog.
 */
module IndexStore {
  import opened Prelude
  import opened Catalog
  import opened CatalogInvariant
  import opened Indexing
  import opened IndexingSteps
  import opened IndexingRemoval
  import opened IndexingSurface

  // ---------------------------------------------------------- the segment loop

  ghost predicate StorableUpTo(parsed: seq<ParsedSegment>, n: nat)
    requires n <= |parsed|
  {
    forall i, j {:trigger Apart(parsed[i], parsed[j])} :: 0 <= i < j < n ==> Apart(parsed[i], parsed[j])
  }

  ghost predicate NoneOf(stored: map<SegmentId, SegmentRow>, rev: RevisionId) {
    forall g :: g in stored ==> stored[g].revision != rev
  }

  /** The next row clashes exactly with an earlier row of the same revision. */
  lemma ClashMeans(before: map<SegmentId, SegmentRow>, parsed: seq<ParsedSegment>, i: nat, id: RevisionId,
                   stored: map<SegmentId, SegmentRow>)
    requires NoneOf(before, id) && i < |parsed| && StorableUpTo(parsed, i)
    requires stored == before + SegmentRows(parsed, i, id, id + 1)
    ensures (exists g :: g in stored && Clash(stored[g], SegmentRow(id, parsed[i]))) <==> !StorableUpTo(parsed, i + 1)
  {
    var row, first := SegmentRow(id, parsed[i]), id + 1;
    SegmentRowsAre(parsed, i, id, first);
    if g :| g in stored && Clash(stored[g], row) {
      assert !Apart(parsed[g - first], parsed[i]);
    }
    if j, k :| 0 <= j < k < i + 1 && !Apart(parsed[j], parsed[k]) {
      assert k == i;
      assert first + j in stored && Clash(stored[first + j], row);
    }
  }

  lemma MergeThenSet<K, V>(m: map<K, V>, n: map<K, V>, k: K, v: V)
    ensures (m + n)[k := v] == m + n[k := v]
  {
  }

  /** The segment loop of `promote_revision`; stops at the first row a UNIQUE clause refuses. */
  method InsertSegments(before: map<SegmentId, SegmentRow>, kept: map<RowId, FtsRow>, at: SourceRow, source: SourceId,
                        id: RevisionId, parsed: seq<ParsedSegment>)
    returns (ok: bool, newSegments: map<SegmentId, SegmentRow>, newFts: map<RowId, FtsRow>)
    requires NoneOf(before, id)
    ensures ok <==> StorableSegments(parsed)
    ensures ok ==> newSegments == before + SegmentRows(parsed, |parsed|, id, id + 1)
    ensures ok ==> newFts == kept + FtsRows(parsed, |parsed|, id, source, at, id + 1, id + 1 + |parsed|)
  {
    var first, i := id + 1, 0;
    newSegments, newFts := before, kept;
    while i < |parsed|
      invariant 0 <= i <= |parsed|
      invariant newSegments == before + SegmentRows(parsed, i, id, first)
      invariant newFts == kept + FtsRows(parsed, i, id, source, at, first, first + |parsed|)
      invariant StorableUpTo(parsed, i)
    {
      var row := SegmentRow(id, parsed[i]);
      ClashMeans(before, parsed, i, id, newSegments);
      if exists g :: g in newSegments && Clash(newSegments[g], row) {
        return false, newSegments, newFts;
      }
      var line := FtsRowFor(parsed[i], first + i, id, source, at);
      MergeThenSet(before, SegmentRows(parsed, i, id, first), first + i, row);
      MergeThenSet(kept, FtsRows(parsed, i, id, source, at, first, first + |parsed|), first + |parsed| + i, line);
      newSegments := newSegments[first + i := row];
      newFts := newFts[first + |parsed| + i := line];
      i := i + 1;
    }
    ok := true;
  }

  ghost function ListedIds(active: seq<(SourceId, SourceRow)>): set<SourceId> {
    set i | 0 <= i < |active| :: active[i].0
  }

  ghost predicate DistinctIds(active: seq<(SourceId, SourceRow)>) {
    forall i, j :: 0 <= i < j < |active| ==> active[i].0 != active[j].0
  }

  lemma ListedGrows(active: seq<(SourceId, SourceRow)>, s: SourceId, row: SourceRow)
    ensures ListedIds(active + [(s, row)]) == ListedIds(active) + {s}
    ensures DistinctIds(active) && s !in ListedIds(active) ==> DistinctIds(active + [(s, row)])
  {
    var more := active + [(s, row)];
    assert more[|active|].0 == s;
    forall i | 0 <= i < |active| ensures active[i].0 in ListedIds(more) {
      assert more[i] == active[i];
    }
  }

  lemma PathsGrow(docs: seq<Document>, i: nat)
    requires i < |docs|
    ensures Paths(docs[..i + 1]) == Paths(docs[..i]) + {docs[i].path}
  {
    var here, more := docs[..i], docs[..i + 1];
    assert more[i] == docs[i];
    forall j | 0 <= j < i ensures here[j].path in Paths(more) && more[j].path in Paths(here) {
      assert here[j] == more[j];
    }
  }

  /** The rows deleted once the first `i` active rows have been looked at. */
  ghost function GoneBefore(active: seq<(SourceId, SourceRow)>, i: nat, seen: set<Path>): set<SourceId>
    requires i <= |active|
  {
    set j | 0 <= j < i && active[j].1.path !in seen :: active[j].0
  }

  ghost predicate RowsListed(db: Db, active: seq<(SourceId, SourceRow)>) {
    forall j :: 0 <= j < |active| ==> active[j].0 in db.sources && active[j].1 == db.sources[active[j].0]
  }

  lemma GoneGrows(db: Db, active: seq<(SourceId, SourceRow)>, i: nat, seen: set<Path>)
    requires i < |active| && DistinctIds(active)
    requires RowsListed(db, active)
    ensures GoneBefore(active, i, seen) <= db.sources.Keys && active[i].0 !in GoneBefore(active, i, seen)
    ensures GoneBefore(active, i + 1, seen)
            == GoneBefore(active, i, seen) + (if active[i].1.path !in seen then {active[i].0} else {})
  {
  }

  lemma DeletionStep(db: Db, active: seq<(SourceId, SourceRow)>, i: nat, seen: set<Path>, mid: Db)
    requires Inv(db) && i < |active| && DistinctIds(active)
    requires RowsListed(db, active)
    requires mid == DeleteSources(db, GoneBefore(active, i, seen))
    ensures active[i].0 in mid.sources && active[i].1 == mid.sources[active[i].0]
    ensures DeleteSources(db, GoneBefore(active, i + 1, seen))
            == if active[i].1.path !in seen then MarkDeleted(mid, active[i].0, active[i].1) else mid
    ensures |GoneBefore(active, i + 1, seen)|
            == |GoneBefore(active, i, seen)| + (if active[i].1.path !in seen then 1 else 0)
  {
    GoneGrows(db, active, i, seen);
    DeleteOneMore(db, GoneBefore(active, i, seen), active[i].0);
  }

  lemma GoneIsUnseen(db: Db, root: RootId, active: seq<(SourceId, SourceRow)>, seen: set<Path>)
    requires ListedIds(active) == Unseen(db, root, {})
    requires RowsListed(db, active)
    ensures GoneBefore(active, |active|, seen) == Unseen(db, root, seen)
  {
    forall s | s in Unseen(db, root, seen) ensures s in GoneBefore(active, |active|, seen) {
      assert s in ListedIds(active);
      var j :| 0 <= j < |active| && active[j].0 == s;
    }
    forall s | s in GoneBefore(active, |active|, seen) ensures s in Unseen(db, root, seen) {
      assert s in ListedIds(active);
    }
  }

  class Store {
    var roots: set<RootId>
    var sources: map<SourceId, SourceRow>
    var revisions: map<RevisionId, RevisionRow>
    var segments: map<SegmentId, SegmentRow>
    var fts: map<RowId, FtsRow>
    var next: nat

    function View(): Db
      reads this
    {
      Db(roots, sources, revisions, segments, fts, next)
    }

    ghost predicate Valid()
      reads this
    {
      Inv(View())
    }

    constructor ()
      ensures Valid() && View() == EMPTY
    {
      roots, sources, revisions, segments, fts, next := {}, map[], map[], map[], map[], 0;
      new;
      EmptyInv();
    }

    method UpsertRoot(root: RootId)
      requires Valid()
      modifies this
      ensures Valid() && View() == Catalog.UpsertRoot(old(View()), root)
    {
      UpsertRootKeepsInv(View(), root);
      roots := roots + {root};
    }

    method FindSourceFile(root: RootId, path: Path) returns (found: Option<SourceId>)
      requires Valid()
      ensures found == FindSource(View(), root, path)
    {
      var here := set s | s in sources && sources[s].root == root && sources[s].path == path;
      if here == {} {
        found := None;
        assert forall s :: s in sources ==> s in here || sources[s].root != root || sources[s].path != path;
      } else {
        var s :| s in here;
        found := Some(s);
        FindSourceUnique(View(), s);
      }
    }

    method UpsertSourceFile(id: SourceId, row: SourceRow) returns (ok: bool)
      requires Valid() && UpsertFits(View(), id, row)
      modifies this
      ensures var stored := UpsertSource(old(View()), id, row);
              ok == stored.Some? && View() == (if ok then stored.value else old(View()))
      ensures Valid()
    {
      if row.root !in roots {
        return false;
      }
      UpsertKeepsInv(View(), id, row, UpsertSource(View(), id, row).value);
      var found := FindSourceFile(row.root, row.path);
      var target := if found.Some? then found.value else id;
      sources := sources[target := row];
      next := if id < next then next else id + 1;
      ok := true;
    }

    /** The transaction itself; every early return is a rollback. */
    method PromoteTransaction(at: SourceRow, rev: RevisionRow, parsed: seq<ParsedSegment>) returns (ok: bool)
      requires NoneOf(segments, next) && rev.source in sources
      modifies this
      ensures var done := Promote(old(View()), at, rev, parsed);
              ok == done.Some? && View() == (if ok then done.value else old(View()))
    {
      var kept := WithoutRevision(fts, at.current);
      if exists r :: r in revisions && SameKey(revisions[r], rev) {
        return false;
      }
      var newSegments, newFts;
      ok, newSegments, newFts := InsertSegments(segments, kept, at, rev.source, next, parsed);
      if ok {
        revisions := revisions[next := rev];
        segments, fts := newSegments, newFts;
        sources := sources[rev.source := sources[rev.source].(current := Some(next), state := Active)];
        next := next + 1 + 2 * |parsed|;
      }
    }

    method PromoteRevision(at: SourceRow, rev: RevisionRow, parsed: seq<ParsedSegment>) returns (ok: bool)
      requires Valid() && rev.status == Indexed && CopyFits(View(), rev.source, at)
      modifies this
      ensures var done := Promote(old(View()), at, rev, parsed);
              ok == done.Some? && View() == (if ok then done.value else old(View()))
      ensures Valid()
    {
      ghost var db := View();
      ok := PromoteTransaction(at, rev, parsed);
      if ok {
        PromoteKeepsInv(db, at, rev, parsed, View());
      }
    }

    method InsertFailedRevision(rev: RevisionRow) returns (ok: bool)
      requires Valid()
      modifies this
      ensures var done := Catalog.InsertFailedRevision(old(View()), rev);
              ok == done.Some? && View() == (if ok then done.value else old(View()))
      ensures Valid()
    {
      if rev.source !in sources || exists r :: r in revisions && SameKey(revisions[r], rev) {
        return false;
      }
      FailedRevisionKeepsInv(View(), rev, Catalog.InsertFailedRevision(View(), rev).value);
      revisions := revisions[next := rev];
      next := next + 1;
      ok := true;
    }

    method MarkSourceDeleted(source: SourceId, at: SourceRow)
      requires Valid() && source in sources && at == sources[source]
      modifies this
      ensures Valid() && View() == MarkDeleted(old(View()), source, at)
    {
      MarkDeletedKeepsInv(View(), source);
      if at.current.Some? {
        fts := map k | k in fts && Some(fts[k].revision) != at.current :: fts[k];
      }
      sources := sources[source := sources[source].(current := None, state := SourceState.Deleted)];
    }

    /** The three SELECT COUNTs of `delete_root_derived`. */
    method CountUnder(root: RootId) returns (counts: RemovalCounts)
      ensures counts == RowsUnder(View(), root)
    {
      var s := set s | s in sources && sources[s].root == root;
      var r := set r | r in revisions && revisions[r].source in s;
      var g := set g | g in segments && segments[g].revision in r;
      assert s == SourcesUnder(View(), root) && r == RevisionsUnder(View(), root) && g == SegmentsUnder(View(), root);
      counts := RemovalCounts(|s|, |r|, |g|);
    }

    method DeleteRootDerived(root: RootId) returns (counts: RemovalCounts)
      requires Valid()
      modifies this
      ensures Valid() && View() == DeleteRoot(old(View()), root) && counts == RowsUnder(old(View()), root)
    {
      counts := CountUnder(root);
      DeleteRootKeepsInv(View(), root);
      var gone := set s | s in sources && sources[s].root == root;
      var goneRevisions := set r | r in revisions && revisions[r].source in gone;
      fts := map k | k in fts && fts[k].root != root :: fts[k];
      segments := map g | g in segments && segments[g].revision !in goneRevisions :: segments[g];
      revisions := revisions - goneRevisions;
      sources := sources - gone;
      roots := roots - {root};
    }

    /** The rows of `list_active_source_files`; their order does not matter here. */
    method ListActiveSourceFiles(root: RootId) returns (active: seq<(SourceId, SourceRow)>)
      ensures ListedIds(active) == Unseen(View(), root, {}) && DistinctIds(active)
      ensures RowsListed(View(), active)
    {
      var all := set s | s in sources && sources[s].root == root && sources[s].state == Active;
      var todo := all;
      active := [];
      while todo != {}
        invariant todo <= all
        invariant ListedIds(active) == all - todo && DistinctIds(active)
        invariant forall i :: 0 <= i < |active| ==> active[i].0 in sources && active[i].1 == sources[active[i].0]
      {
        var s :| s in todo;
        ListedGrows(active, s, sources[s]);
        active := active + [(s, sources[s])];
        todo := todo - {s};
      }
    }

    /** The branch of `process_document` taken when the stored revision is up to date. */
    method Refresh(id: SourceId, row: SourceRow, fault: Fault) returns (outcome: Outcome)
      requires Valid() && UpsertFits(View(), id, row)
      modifies this
      ensures Valid()
      ensures var stored := UpsertSource(old(View()), id, row);
              if fault == FirstCommitFails || stored.None? then View() == old(View()) && outcome == Failure
              else View() == stored.value && outcome == Unchanged
    {
      if fault == FirstCommitFails {
        return Failure;
      }
      var ok := UpsertSourceFile(id, row);
      outcome := if ok then Unchanged else Failure;
    }

    /** The second commit of `process_document`, or of `record_parse_failure`. */
    method CommitRevision(id: SourceId, row: SourceRow, hash: ContentHash, key: ParserKey,
                          parsed: Option<seq<ParsedSegment>>)
      returns (ok: bool)
      requires Valid() && CopyFits(View(), id, row)
      modifies this
      ensures Valid()
      ensures var done := SecondCommit(old(View()), id, row, hash, key, parsed);
              ok == done.Some? && View() == (if ok then done.value else old(View()))
    {
      if parsed.None? {
        ok := InsertFailedRevision(RevisionRow(id, hash, key, Failed));
      } else {
        ok := PromoteRevision(row, RevisionRow(id, hash, key, Indexed), parsed.value);
      }
    }

    method ProcessDocument(root: RootId, doc: Document, registry: Registry, parse: Parsing) returns (outcome: Outcome)
      requires Valid()
      modifies this
      ensures Valid()
      ensures (View(), outcome) == Process(old(View()), root, doc, registry, parse)
    {
      ghost var db := View();
      ProcessKeepsInv(db, root, doc, registry, parse);
      var found := FindSourceFile(root, doc.path);
      var id := if found.Some? then found.value else next;
      FindGives(db, root, doc.path);
      var current := if found.Some? then sources[found.value].current else None;
      var hasPrevious := current.Some? && current.value in revisions;
      if doc.fault == ReadFails {
        return Failure;
      }
      var key, hash := registry(doc.fileType), Blake3(doc.bytes);
      if UpToDate(View(), current, hash, key) {
        FindFits(db, root, doc.path, Active);
        outcome := Refresh(id, SourceRow(root, doc.path, current, Active), doc.fault);
        return;
      }
      var parsed := parse(key, doc.bytes);
      var row := IdentityRow(root, doc.path, current, parsed.Some?);
      FindFits(db, root, doc.path, row.state);
      if doc.fault == FirstCommitFails {
        return Failure;
      }
      var stored := UpsertSourceFile(id, row);
      if !stored {
        return Failure;
      }
      if doc.fault == SecondCommitFails {
        return Failure;
      }
      StoredCopyFits(db, id, row, View());
      var committed := CommitRevision(id, row, hash, key, parsed);
      if !committed || parsed.None? {
        outcome := Failure;
      } else if hasPrevious {
        outcome := Modification(|parsed.value|);
      } else {
        outcome := Addition(|parsed.value|);
      }
    }

    /** The document loop shared by every full scan. */
    method ProcessDocuments(root: RootId, docs: seq<Document>, registry: Registry, parse: Parsing)
      returns (tally: Tally, seen: set<Path>)
      requires Valid()
      modifies this
      ensures Valid()
      ensures (View(), tally) == ProcessAll(old(View()), root, docs, registry, parse)
      ensures seen == Paths(docs)
    {
      tally, seen := NO_TALLY, {};
      var i := 0;
      while i < |docs|
        invariant 0 <= i <= |docs|
        invariant Valid()
        invariant (View(), tally) == ProcessAll(old(View()), root, docs[..i], registry, parse)
        invariant seen == Paths(docs[..i])
      {
        seen := seen + {docs[i].path};
        var outcome := ProcessDocument(root, docs[i], registry, parse);
        tally := Count(tally, outcome);
        PathsGrow(docs, i);
        assert docs[..i + 1][..i] == docs[..i];
        i := i + 1;
      }
      assert docs[..i] == docs;
    }

    /** One turn of the deletion loop. */
    method DeleteIfUnseen(id: SourceId, row: SourceRow, seen: set<Path>) returns (deleted: nat)
      requires Valid() && id in sources && row == sources[id]
      modifies this
      ensures Valid()
      ensures View() == (if row.path !in seen then MarkDeleted(old(View()), id, row) else old(View()))
      ensures deleted == (if row.path !in seen then 1 else 0)
    {
      deleted := 0;
      if row.path !in seen {
        MarkSourceDeleted(id, row);
        deleted := 1;
      }
    }

    /** The deletion loop over the rows listed before it. */
    method DeleteRows(active: seq<(SourceId, SourceRow)>, seen: set<Path>) returns (deletions: nat)
      requires Valid() && RowsListed(View(), active) && DistinctIds(active)
      modifies this
      ensures Valid()
      ensures View() == DeleteSources(old(View()), GoneBefore(active, |active|, seen))
      ensures deletions == |GoneBefore(active, |active|, seen)|
    {
      ghost var db := View();
      DeleteNone(db);
      deletions := 0;
      var i := 0;
      while i < |active|
        invariant 0 <= i <= |active|
        invariant Valid() && View() == DeleteSources(db, GoneBefore(active, i, seen))
        invariant deletions == |GoneBefore(active, i, seen)|
      {
        DeletionStep(db, active, i, seen, View());
        var deleted := DeleteIfUnseen(active[i].0, active[i].1, seen);
        deletions := deletions + deleted;
        i := i + 1;
      }
    }

    /** The end of a full scan: active rows it did not see are deleted. */
    method DeleteUnseen(root: RootId, seen: set<Path>) returns (deletions: nat)
      requires Valid()
      modifies this
      ensures Valid()
      ensures View() == DeleteSources(old(View()), Unseen(old(View()), root, seen))
      ensures deletions == |Unseen(old(View()), root, seen)|
    {
      var active := ListActiveSourceFiles(root);
      GoneIsUnseen(View(), root, active, seen);
      deletions := DeleteRows(active, seen);
    }

    /** `index_one_root_full`. */
    method IndexOneRootFull(root: RootId, discovery: Option<seq<Document>>, registry: Registry, parse: Parsing)
      returns (report: ScanReport)
      requires Valid()
      modifies this
      ensures Valid()
      ensures (View(), report) == FullScan(old(View()), root, discovery, registry, parse)
    {
      UpsertRoot(root);
      if discovery.None? {
        return DiscoveryFailed;
      }
      var tally, seen := ProcessDocuments(root, discovery.value, registry, parse);
      var deletions := DeleteUnseen(root, seen);
      report := Completed(|discovery.value|, tally, deletions);
    }

    /** One change of an incremental run. */
    method ApplyOneChange(report: IncrementalReport, root: RootId, change: Change, registry: Registry, parse: Parsing)
      returns (after: IncrementalReport)
      requires Valid()
      modifies this
      ensures Valid()
      ensures (View(), after) == ApplyChange(old(View()), report, root, change, registry, parse)
    {
      after := report;
      if !change.safe {
        return;
      }
      if change.kind == ChangeKind.Deleted {
        var found := FindSourceFile(root, change.path);
        FindGives(View(), root, change.path);
        if found.Some? {
          MarkSourceDeleted(found.value, sources[found.value]);
          after := after.(deletions := after.deletions + 1);
        }
      } else if change.document.Some? {
        var outcome := ProcessDocument(root, change.document.value, registry, parse);
        after := after.(discovered := after.discovered + 1, tally := Count(after.tally, outcome));
      }
    }

    /** The change loop of `index_one_root_maybe_incremental`. */
    method IndexOneRootIncremental(root: RootId, changes: seq<Change>, registry: Registry, parse: Parsing)
      returns (report: IncrementalReport)
      requires Valid()
      modifies this
      ensures Valid()
      ensures (View(), report) == Incremental(old(View()), root, changes, registry, parse)
    {
      UpsertRoot(root);
      ghost var db := View();
      report := IncrementalReport(0, NO_TALLY, 0);
      var i := 0;
      while i < |changes|
        invariant 0 <= i <= |changes|
        invariant Valid()
        invariant (View(), report) == ApplyChanges(db, root, changes[..i], registry, parse)
      {
        report := ApplyOneChange(report, root, changes[i], registry, parse);
        assert changes[..i + 1][..i] == changes[..i];
        i := i + 1;
      }
      assert changes[..i] == changes;
    }
  }
}
