/** How each step changes what the paths of the roots show. */
module IndexingSurface {
  import opened Prelude
  import opened Catalog
  import opened CatalogInvariant
  import opened Indexing
  import opened IndexingSteps

  /** A step that concerns one place leaves what every other place shows alone. */
  ghost predicate OthersKept(db: Db, post: Db, root: RootId, path: Path) {
    forall r, p {:trigger ListingAt(post, r, p)} ::
      r != root || p != path ==> ListingAt(post, r, p) == ListingAt(db, r, p)
  }

  lemma UpsertKeepsOthers(db: Db, id: SourceId, row: SourceRow, post: Db)
    requires UniqueSources(db) && UpsertFits(db, id, row) && UpsertSource(db, id, row) == Some(post)
    ensures OthersKept(db, post, row.root, row.path)
  {
    UpsertTarget(db, id, row);
    forall r, p | r != row.root || p != row.path ensures ListingAt(post, r, p) == ListingAt(db, r, p) {
      FindSame(db, post, r, p);
      FindGives(db, r, p);
      if FindSource(db, r, p).Some? {
        SameListing(db, post, FindSource(db, r, p).value);
      }
    }
  }

  /** A source whose row, revision and segments are untouched shows what it showed. */
  lemma SameListing(db: Db, post: Db, s: SourceId)
    requires s in db.sources && s in post.sources && post.sources[s] == db.sources[s]
    requires db.sources[s].current.Some? ==>
               var r := db.sources[s].current.value;
               && (r in db.revisions <==> r in post.revisions)
               && (r in db.revisions ==> post.revisions[r] == db.revisions[r] && Content(post, r) == Content(db, r))
    ensures ListingOf(post, s) == ListingOf(db, s)
  {
  }

  lemma UpsertShows(db: Db, id: SourceId, row: SourceRow, post: Db)
    requires Inv(db) && UpsertFits(db, id, row) && UpsertSource(db, id, row) == Some(post)
    ensures FindSource(post, row.root, row.path) == Some(id)
    ensures post.sources[id] == row
    ensures post.revisions == db.revisions && post.segments == db.segments
  {
    UpsertTarget(db, id, row);
    UpsertKeepsKeys(db, id, row, post);
    FindSourceUnique(post, id);
  }

  lemma PromoteKeepsOthers(db: Db, at: SourceRow, rev: RevisionRow, parsed: seq<ParsedSegment>, post: Db)
    requires Inv(db) && CopyFits(db, rev.source, at) && Promote(db, at, rev, parsed) == Some(post)
    ensures OthersKept(db, post, at.root, at.path)
  {
    forall r, p | r != at.root || p != at.path ensures ListingAt(post, r, p) == ListingAt(db, r, p) {
      FindSame(db, post, r, p);
      FindGives(db, r, p);
      if FindSource(db, r, p).Some? {
        PromoteContent(db, at, rev, parsed, post);
        SameListing(db, post, FindSource(db, r, p).value);
      }
    }
  }

  lemma PromoteShows(db: Db, at: SourceRow, rev: RevisionRow, parsed: seq<ParsedSegment>, post: Db)
    requires Inv(db) && rev.status == Indexed && CopyFits(db, rev.source, at)
    requires Promote(db, at, rev, parsed) == Some(post)
    ensures ListingAt(post, at.root, at.path) == Listed(rev.hash, rev.parser, AsSet(parsed))
  {
    PromoteKeepsUnique(db, at, rev, parsed, post);
    FindSourceUnique(post, rev.source);
    PromoteContent(db, at, rev, parsed, post);
  }

  lemma FailedRevisionKeepsAll(db: Db, rev: RevisionRow, post: Db, r: RootId, p: Path)
    requires Inv(db) && InsertFailedRevision(db, rev) == Some(post)
    ensures ListingAt(post, r, p) == ListingAt(db, r, p)
  {
    FindSame(db, post, r, p);
    FindGives(db, r, p);
    if FindSource(db, r, p).Some? {
      var s := FindSource(db, r, p).value;
      if db.sources[s].current.Some? {
        ContentSame(db, post, db.sources[s].current.value);
      }
      SameListing(db, post, s);
    }
  }

  /** Processing a document touches no other place. */
  lemma ProcessKeepsOthers(db: Db, root: RootId, doc: Document, registry: Registry, parse: Parsing)
    requires Inv(db)
    ensures OthersKept(db, Process(db, root, doc, registry, parse).0, root, doc.path)
  {
    var id, current := IdFor(db, root, doc.path), CurrentOf(db, root, doc.path);
    var key, hash := registry(doc.fileType), Blake3(doc.bytes);
    if doc.fault != ReadFails && doc.fault != FirstCommitFails {
      if UpToDate(db, current, hash, key) {
        var row := SourceRow(root, doc.path, current, Active);
        FindFits(db, root, doc.path, Active);
        if UpsertSource(db, id, row).Some? {
          UpsertKeepsOthers(db, id, row, UpsertSource(db, id, row).value);
        }
      } else {
        var parsed := parse(key, doc.bytes);
        var row := IdentityRow(root, doc.path, current, parsed.Some?);
        FindFits(db, root, doc.path, row.state);
        if UpsertSource(db, id, row).Some? {
          var mid := UpsertSource(db, id, row).value;
          UpsertKeepsOthers(db, id, row, mid);
          UpsertKeepsInv(db, id, row, mid);
          StoredCopyFits(db, id, row, mid);
          SecondCommitKeepsOthers(mid, id, row, hash, key, parsed);
        }
      }
    }
  }

  lemma SecondCommitKeepsOthers(mid: Db, id: SourceId, row: SourceRow, hash: ContentHash, key: ParserKey,
                                parsed: Option<seq<ParsedSegment>>)
    requires Inv(mid) && CopyFits(mid, id, row)
    ensures SecondCommit(mid, id, row, hash, key, parsed).Some? ==>
              OthersKept(mid, SecondCommit(mid, id, row, hash, key, parsed).value, row.root, row.path)
  {
    var done := SecondCommit(mid, id, row, hash, key, parsed);
    if done.Some? {
      if parsed.Some? {
        PromoteKeepsOthers(mid, row, RevisionRow(id, hash, key, Indexed), parsed.value, done.value);
      } else {
        forall r, p ensures ListingAt(done.value, r, p) == ListingAt(mid, r, p) {
          FailedRevisionKeepsAll(mid, RevisionRow(id, hash, key, Failed), done.value, r, p);
        }
      }
    }
  }

  /** The identity row was stored: the first commit, or the one of an unchanged document, went through. */
  ghost predicate FirstCommitted(db: Db, root: RootId, doc: Document) {
    root in db.roots && doc.fault != ReadFails && doc.fault != FirstCommitFails
  }

  lemma SuccessShows(db: Db, root: RootId, doc: Document, registry: Registry, parse: Parsing)
    requires Inv(db) && Faithful(db, parse)
    requires Process(db, root, doc, registry, parse).1 != Failure
    ensures parse(registry(doc.fileType), doc.bytes).Some?
    ensures ListingAt(Process(db, root, doc, registry, parse).0, root, doc.path)
            == ListingFor(doc.fileType, doc.bytes, registry, parse)
  {
    var id, current := IdFor(db, root, doc.path), CurrentOf(db, root, doc.path);
    var key, hash := registry(doc.fileType), Blake3(doc.bytes);
    var parsed := parse(key, doc.bytes);
    if UpToDate(db, current, hash, key) {
      var row := SourceRow(root, doc.path, current, Active);
      FindFits(db, root, doc.path, Active);
      var post := UpsertSource(db, id, row).value;
      UpsertShows(db, id, row, post);
      ContentSame(db, post, current.value);
      assert RevisionFaithful(db, current.value, parse);
    } else {
      var row := IdentityRow(root, doc.path, current, parsed.Some?);
      FindFits(db, root, doc.path, row.state);
      var mid := UpsertSource(db, id, row).value;
      UpsertKeepsInv(db, id, row, mid);
      StoredCopyFits(db, id, row, mid);
      PromoteShows(mid, row, RevisionRow(id, hash, key, Indexed), parsed.value,
                   Promote(mid, row, RevisionRow(id, hash, key, Indexed), parsed.value).value);
    }
  }

  /** Whether the identity row alone, stored with the stored pointer, shows the old revision or none. */
  lemma IdentityShows(db: Db, root: RootId, path: Path, parses: bool, mid: Db)
    requires Inv(db)
    requires var row := IdentityRow(root, path, CurrentOf(db, root, path), parses);
             UpsertSource(db, IdFor(db, root, path), row) == Some(mid)
    ensures ListingAt(mid, root, path) == if CurrentOf(db, root, path).Some? then ListingAt(db, root, path)
                                          else if parses then Pending else Absent
  {
    var id, current := IdFor(db, root, path), CurrentOf(db, root, path);
    var row := IdentityRow(root, path, current, parses);
    FindFits(db, root, path, row.state);
    FindGives(db, root, path);
    UpsertShows(db, id, row, mid);
    if current.Some? {
      ContentSame(db, mid, current.value);
    }
  }

  /**
   What a failure leaves: the path as it was, or, once the identity row of a path
   without a revision is stored, nothing to search.
   */
  lemma FailureShows(db: Db, root: RootId, doc: Document, registry: Registry, parse: Parsing)
    requires Inv(db) && Process(db, root, doc, registry, parse).1 == Failure
    ensures ListingAt(Process(db, root, doc, registry, parse).0, root, doc.path)
            == if !FirstCommitted(db, root, doc) || CurrentOf(db, root, doc.path).Some?
               then ListingAt(db, root, doc.path)
               else if parse(registry(doc.fileType), doc.bytes).Some? then Pending else Absent
  {
    var id, current := IdFor(db, root, doc.path), CurrentOf(db, root, doc.path);
    var key, hash := registry(doc.fileType), Blake3(doc.bytes);
    if FirstCommitted(db, root, doc) {
      var parsed := parse(key, doc.bytes);
      var row := IdentityRow(root, doc.path, current, parsed.Some?);
      var mid := UpsertSource(db, id, row).value;
      IdentityShows(db, root, doc.path, parsed.Some?, mid);
      var done := SecondCommit(mid, id, row, hash, key, parsed);
      if parsed.None? && done.Some? {
        FindFits(db, root, doc.path, row.state);
        UpsertKeepsInv(db, id, row, mid);
        FailedRevisionKeepsAll(mid, RevisionRow(id, hash, key, Failed), done.value, root, doc.path);
      }
    }
  }

  /** What the processed path shows afterwards, for every outcome. */
  lemma ProcessShows(db: Db, root: RootId, doc: Document, registry: Registry, parse: Parsing)
    requires Inv(db) && Faithful(db, parse)
    ensures var (post, outcome) := Process(db, root, doc, registry, parse);
            var parses := parse(registry(doc.fileType), doc.bytes).Some?;
            && (outcome != Failure ==> parses)
            && ListingAt(post, root, doc.path)
               == if outcome != Failure then ListingFor(doc.fileType, doc.bytes, registry, parse)
                  else if !FirstCommitted(db, root, doc) || CurrentOf(db, root, doc.path).Some?
                  then ListingAt(db, root, doc.path)
                  else if parses then Pending else Absent
  {
    if Process(db, root, doc, registry, parse).1 == Failure {
      FailureShows(db, root, doc, registry, parse);
    } else {
      SuccessShows(db, root, doc, registry, parse);
    }
  }

  // ----------------------------------------------------------- deletions

  lemma DeleteSourcesShows(db: Db, gone: set<SourceId>, r: RootId, p: Path)
    requires Inv(db)
    ensures var found := FindSource(db, r, p);
            ListingAt(DeleteSources(db, gone), r, p)
            == if found.Some? && found.value in gone then Absent else ListingAt(db, r, p)
  {
    var post := DeleteSources(db, gone);
    FindSame(db, post, r, p);
    FindGives(db, r, p);
    if FindSource(db, r, p).Some? {
      var s := FindSource(db, r, p).value;
      if s !in gone {
        if db.sources[s].current.Some? {
          ContentSame(db, post, db.sources[s].current.value);
        }
        SameListing(db, post, s);
      }
    }
  }

  /** Deleting one more source continues the deletion of a set. */
  lemma DeleteOneMore(db: Db, gone: set<SourceId>, s: SourceId)
    requires Inv(db) && s in db.sources && s !in gone && gone <= db.sources.Keys
    ensures var mid := DeleteSources(db, gone);
            s in mid.sources && mid.sources[s] == db.sources[s]
                && MarkDeleted(mid, s, db.sources[s]) == DeleteSources(db, gone + {s})
  {
    var mid, whole := DeleteSources(db, gone), DeleteSources(db, gone + {s});
    var post := MarkDeleted(mid, s, db.sources[s]);
    assert post.sources == whole.sources;
    DeleteOneMoreRows(db, gone, s);
  }

  lemma DeleteOneMoreRows(db: Db, gone: set<SourceId>, s: SourceId)
    requires s in db.sources && s !in gone
    ensures MarkDeleted(DeleteSources(db, gone), s, db.sources[s]).fts == DeleteSources(db, gone + {s}).fts
  {
    var post, whole := MarkDeleted(DeleteSources(db, gone), s, db.sources[s]), DeleteSources(db, gone + {s});
    forall k | k in db.fts ensures k in post.fts <==> k in whole.fts {
    }
    assert post.fts.Keys == whole.fts.Keys;
  }

  lemma DeleteNone(db: Db)
    ensures DeleteSources(db, {}) == db
  {
    assert DeleteSources(db, {}).fts == db.fts;
    assert DeleteSources(db, {}).sources == db.sources;
  }

  lemma {:induction false} DeleteSourcesKeepsInv(db: Db, gone: set<SourceId>)
    requires Inv(db) && gone <= db.sources.Keys
    ensures Inv(DeleteSources(db, gone))
    decreases gone
  {
    if gone == {} {
      DeleteNone(db);
    } else {
      var s :| s in gone;
      DeleteSourcesKeepsInv(db, gone - {s});
      DeleteOneMore(db, gone - {s}, s);
      MarkDeletedKeepsInv(DeleteSources(db, gone - {s}), s);
      assert gone - {s} + {s} == gone;
    }
  }

  lemma DeleteSourcesKeepsFaithful(db: Db, gone: set<SourceId>, parse: Parsing)
    requires Faithful(db, parse)
    ensures Faithful(DeleteSources(db, gone), parse)
  {
    var post := DeleteSources(db, gone);
    forall r | r in post.revisions && post.revisions[r].status == Indexed ensures RevisionFaithful(post, r, parse) {
      ContentSame(db, post, r);
    }
  }
}
