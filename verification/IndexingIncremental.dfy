/** Incremental runs over exact change lists agree with full scans. */
module IndexingIncremental {
  import opened Prelude
  import opened Catalog
  import opened CatalogInvariant
  import opened Indexing
  import opened IndexingSteps
  import opened IndexingSurface
  import opened IndexingTheorems

  datatype File = File(fileType: FileType, bytes: Bytes)

  ghost function Expected(files: map<Path, File>, registry: Registry, parse: Parsing, p: Path): Listing {
    if p in files then ListingFor(files[p].fileType, files[p].bytes, registry, parse) else Absent
  }

  /** The root shows exactly these files. */
  ghost predicate Agrees(db: Db, root: RootId, files: map<Path, File>, registry: Registry, parse: Parsing) {
    forall p :: ListingAt(db, root, p) == Expected(files, registry, parse, p)
  }

  /** A change that tells the truth about the new files. */
  ghost predicate Truthful(change: Change, files: map<Path, File>) {
    && change.safe
    && (change.kind == ChangeKind.Deleted ==> change.path !in files)
    && (change.kind != ChangeKind.Deleted ==>
          && change.path in files && change.document.Some?
          && change.document.value.path == change.path
          && change.document.value.fileType == files[change.path].fileType
          && change.document.value.bytes == files[change.path].bytes)
  }

  ghost predicate Mentions(changes: seq<Change>, p: Path) {
    exists i :: 0 <= i < |changes| && changes[i].path == p
  }

  /** `changes` is exact from `before` to `after`: truthful, and silent only about what did not change. */
  ghost predicate Exact(changes: seq<Change>, before: map<Path, File>, after: map<Path, File>) {
    && (forall i :: 0 <= i < |changes| ==> Truthful(changes[i], after))
    && (forall p :: p in before.Keys + after.Keys && !Mentions(changes, p) ==>
          p in before && p in after && before[p] == after[p])
  }

  lemma MarkDeletedShows(db: Db, s: SourceId, r: RootId, p: Path)
    requires Inv(db) && s in db.sources
    ensures ListingAt(MarkDeleted(db, s, db.sources[s]), r, p)
            == if FindSource(db, r, p) == Some(s) then Absent else ListingAt(db, r, p)
  {
    DeleteNone(db);
    DeleteOneMore(db, {}, s);
    assert {} + {s} == {s};
    DeleteSourcesShows(db, {s}, r, p);
  }

  lemma ApplyChangeKeeps(db: Db, report: IncrementalReport, root: RootId, change: Change, registry: Registry,
                         parse: Parsing)
    requires Inv(db) && Faithful(db, parse)
    ensures var post := ApplyChange(db, report, root, change, registry, parse).0; Inv(post) && Faithful(post, parse)
  {
    if change.safe {
      if change.kind == ChangeKind.Deleted {
        var found := FindSource(db, root, change.path);
        if found.Some? && found.value in db.sources {
          StepKeepsBoth(db, DeleteSource(found.value), parse);
        }
      } else if change.document.Some? {
        StepKeepsBoth(db, IndexDocument(root, change.document.value, registry), parse);
      }
    }
  }

  lemma {:induction false} ApplyChangesKeeps(db: Db, root: RootId, changes: seq<Change>, registry: Registry,
                                             parse: Parsing)
    requires Inv(db) && Faithful(db, parse)
    ensures var post := ApplyChanges(db, root, changes, registry, parse).0; Inv(post) && Faithful(post, parse)
  {
    if changes != [] {
      ApplyChangesKeeps(db, root, changes[..|changes| - 1], registry, parse);
      var (before, report) := ApplyChanges(db, root, changes[..|changes| - 1], registry, parse);
      ApplyChangeKeeps(before, report, root, changes[|changes| - 1], registry, parse);
    }
  }

  lemma ApplyChangeShows(db: Db, report: IncrementalReport, root: RootId, change: Change, files: map<Path, File>,
                         registry: Registry, parse: Parsing, p: Path)
    requires Inv(db) && Faithful(db, parse) && Truthful(change, files)
    requires ApplyChange(db, report, root, change, registry, parse).1.tally.failures == report.tally.failures
    ensures ListingAt(ApplyChange(db, report, root, change, registry, parse).0, root, p)
            == if p == change.path then Expected(files, registry, parse, p) else ListingAt(db, root, p)
  {
    if change.kind == ChangeKind.Deleted {
      var found := FindSource(db, root, change.path);
      FindGives(db, root, change.path);
      FindGives(db, root, p);
      if found.Some? {
        MarkDeletedShows(db, found.value, root, p);
      }
    } else {
      ProcessShows(db, root, change.document.value, registry, parse);
      ProcessKeepsOthers(db, root, change.document.value, registry, parse);
    }
  }

  lemma {:induction false} ApplyChangesShow(db: Db, root: RootId, changes: seq<Change>, files: map<Path, File>,
                                            registry: Registry, parse: Parsing, p: Path)
    requires Inv(db) && Faithful(db, parse)
    requires forall i :: 0 <= i < |changes| ==> Truthful(changes[i], files)
    requires ApplyChanges(db, root, changes, registry, parse).1.tally.failures == 0
    ensures ListingAt(ApplyChanges(db, root, changes, registry, parse).0, root, p)
            == if Mentions(changes, p) then Expected(files, registry, parse, p) else ListingAt(db, root, p)
  {
    if changes != [] {
      var init, last := changes[..|changes| - 1], changes[|changes| - 1];
      var (before, report) := ApplyChanges(db, root, init, registry, parse);
      ApplyChangesShow(db, root, init, files, registry, parse, p);
      ApplyChangesKeeps(db, root, init, registry, parse);
      ApplyChangeShows(before, report, root, last, files, registry, parse, p);
      MentionsInit(changes, p);
    }
  }

  lemma MentionsInit(changes: seq<Change>, p: Path)
    requires changes != []
    ensures Mentions(changes, p) <==> Mentions(changes[..|changes| - 1], p) || changes[|changes| - 1].path == p
  {
    var init := changes[..|changes| - 1];
    if Mentions(init, p) {
      var i :| 0 <= i < |init| && init[i].path == p;
      assert changes[i].path == p;
    }
    if Mentions(changes, p) {
      var i :| 0 <= i < |changes| && changes[i].path == p;
      assert i < |init| ==> init[i].path == p;
    }
  }

  /** An index that agrees with the old files agrees with the new ones after an exact, failure-free incremental run. */
  lemma IncrementalAgrees(db: Db, root: RootId, changes: seq<Change>, before: map<Path, File>, after: map<Path, File>,
                          registry: Registry, parse: Parsing)
    requires Inv(db) && Faithful(db, parse)
    requires Agrees(db, root, before, registry, parse) && Exact(changes, before, after)
    requires Incremental(db, root, changes, registry, parse).1.tally.failures == 0
    ensures Agrees(Incremental(db, root, changes, registry, parse).0, root, after, registry, parse)
  {
    var rooted := UpsertRoot(db, root);
    UpsertRootKeepsInv(db, root);
    KeepsFaithful(db, rooted, parse);
    forall p
      ensures ListingAt(Incremental(db, root, changes, registry, parse).0, root, p)
              == Expected(after, registry, parse, p)
    {
      RootedShowsSame(db, root, root, p);
      ApplyChangesShow(rooted, root, changes, after, registry, parse, p);
    }
  }

  /** The documents are exactly these files. */
  ghost predicate Lists(docs: seq<Document>, files: map<Path, File>) {
    && DistinctPaths(docs)
    && Paths(docs) == files.Keys
    && forall i :: 0 <= i < |docs| ==>
         docs[i].path in files && files[docs[i].path] == File(docs[i].fileType, docs[i].bytes)
  }

  lemma FullScanAgrees(db: Db, root: RootId, docs: seq<Document>, files: map<Path, File>, registry: Registry,
                       parse: Parsing)
    requires Inv(db) && Faithful(db, parse) && Lists(docs, files)
    requires FullScan(db, root, Some(docs), registry, parse).1.tally.failures == 0
    ensures Agrees(FullScan(db, root, Some(docs), registry, parse).0, root, files, registry, parse)
  {
    forall p
      ensures ListingAt(FullScan(db, root, Some(docs), registry, parse).0, root, p)
              == Expected(files, registry, parse, p)
    {
      FullScanConverges(db, root, docs, registry, parse, p);
      if p in files {
        var i :| 0 <= i < |docs| && docs[i].path == p;
        WantedAt(docs, registry, parse, i);
      }
    }
  }

  /** Incremental indexing and a full scan, each from its own history, end with the same surface. */
  lemma IncrementalEqualsFullScan(db: Db, other: Db, root: RootId, changes: seq<Change>, docs: seq<Document>,
                                  before: map<Path, File>, after: map<Path, File>, registry: Registry, parse: Parsing)
    requires Inv(db) && Faithful(db, parse) && Inv(other) && Faithful(other, parse)
    requires Agrees(db, root, before, registry, parse) && Exact(changes, before, after) && Lists(docs, after)
    requires Incremental(db, root, changes, registry, parse).1.tally.failures == 0
    requires FullScan(other, root, Some(docs), registry, parse).1.tally.failures == 0
    ensures forall p :: ListingAt(Incremental(db, root, changes, registry, parse).0, root, p)
                        == ListingAt(FullScan(other, root, Some(docs), registry, parse).0, root, p)
  {
    IncrementalAgrees(db, root, changes, before, after, registry, parse);
    FullScanAgrees(other, root, docs, after, registry, parse);
  }
}
