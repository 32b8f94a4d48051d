/** What one document, and one transaction, does to the invariant and to what each path shows. */
module IndexingSteps {
  import opened Prelude
  import opened Catalog
  import opened CatalogInvariant
  import opened Indexing

  ghost predicate At(db: Db, s: SourceId, root: RootId, path: Path) {
    s in db.sources && db.sources[s].root == root && db.sources[s].path == path
  }

  lemma FindGives(db: Db, root: RootId, path: Path)
    ensures FindSource(db, root, path).Some? ==> At(db, FindSource(db, root, path).value, root, path)
    ensures FindSource(db, root, path).None? ==> !HasSource(db, root, path)
  {
  }

  /** Two catalogs that place the same identities at a path find the same one there. */
  lemma FindSame(db: Db, post: Db, root: RootId, path: Path)
    requires UniqueSources(db)
    requires forall s {:trigger At(db, s, root, path)} {:trigger At(post, s, root, path)} ::
               At(db, s, root, path) <==> At(post, s, root, path)
    ensures FindSource(post, root, path) == FindSource(db, root, path)
  {
    FindGives(post, root, path);
    if FindSource(post, root, path).Some? {
      var t := FindSource(post, root, path).value;
      assert At(post, t, root, path);
      assert At(db, t, root, path);
      FindSourceUnique(db, t);
    } else {
      FindGives(db, root, path);
      assert FindSource(db, root, path).Some? ==> At(post, FindSource(db, root, path).value, root, path);
    }
  }

  lemma FindFits(db: Db, root: RootId, path: Path, state: SourceState)
    requires UniqueSources(db) && KeysResolve(db) && PointersSound(db)
    requires CurrentOf(db, root, path).Some? ==> state == Active
    ensures UpsertFits(db, IdFor(db, root, path), SourceRow(root, path, CurrentOf(db, root, path), state))
  {
    FindGives(db, root, path);
  }

  // ------------------------------------------------------------- invariant

  lemma SecondCommitKeepsInv(mid: Db, id: SourceId, row: SourceRow, hash: ContentHash, key: ParserKey,
                             parsed: Option<seq<ParsedSegment>>, post: Db)
    requires Inv(mid) && CopyFits(mid, id, row)
    requires SecondCommit(mid, id, row, hash, key, parsed) == Some(post)
    ensures Inv(post)
  {
    if parsed.None? {
      FailedRevisionKeepsInv(mid, RevisionRow(id, hash, key, Failed), post);
    } else {
      PromoteKeepsInv(mid, row, RevisionRow(id, hash, key, Indexed), parsed.value, post);
    }
  }

  lemma StoredCopyFits(db: Db, id: SourceId, row: SourceRow, mid: Db)
    requires UniqueSources(db) && UpsertFits(db, id, row) && UpsertSource(db, id, row) == Some(mid)
    ensures CopyFits(mid, id, row) && mid.sources[id] == row
  {
    UpsertTarget(db, id, row);
  }

  /** Whatever happens to a document, and wherever it stops, the invariant survives. */
  lemma ProcessKeepsInv(db: Db, root: RootId, doc: Document, registry: Registry, parse: Parsing)
    requires Inv(db)
    ensures Inv(Process(db, root, doc, registry, parse).0)
  {
    var id, current := IdFor(db, root, doc.path), CurrentOf(db, root, doc.path);
    var key, hash := registry(doc.fileType), Blake3(doc.bytes);
    if doc.fault != ReadFails && doc.fault != FirstCommitFails {
      if UpToDate(db, current, hash, key) {
        FindFits(db, root, doc.path, Active);
        var row := SourceRow(root, doc.path, current, Active);
        if UpsertSource(db, id, row).Some? {
          UpsertKeepsInv(db, id, row, UpsertSource(db, id, row).value);
        }
      } else {
        var parsed := parse(key, doc.bytes);
        var row := IdentityRow(root, doc.path, current, parsed.Some?);
        FindFits(db, root, doc.path, row.state);
        if UpsertSource(db, id, row).Some? {
          var mid := UpsertSource(db, id, row).value;
          UpsertKeepsInv(db, id, row, mid);
          StoredCopyFits(db, id, row, mid);
          if SecondCommit(mid, id, row, hash, key, parsed).Some? {
            SecondCommitKeepsInv(mid, id, row, hash, key, parsed, SecondCommit(mid, id, row, hash, key, parsed).value);
          }
        }
      }
    }
  }

  // ---------------------------------------------------------- faithfulness

  lemma ContentSame(db: Db, post: Db, r: RevisionId)
    requires forall g :: g in db.segments && db.segments[g].revision == r ==>
             g in post.segments && post.segments[g] == db.segments[g]
    requires forall g :: g in post.segments && post.segments[g].revision == r ==>
             g in db.segments && post.segments[g] == db.segments[g]
    ensures Content(post, r) == Content(db, r)
  {
  }

  lemma PromoteContent(db: Db, at: SourceRow, rev: RevisionRow, parsed: seq<ParsedSegment>, post: Db)
    requires KeysResolve(db) && Promote(db, at, rev, parsed) == Some(post)
    ensures post.revisions[db.next] == rev && Content(post, db.next) == AsSet(parsed)
    ensures forall r :: r in db.revisions ==> Content(post, r) == Content(db, r) && post.revisions[r] == db.revisions[r]
  {
    SegmentRowsAre(parsed, |parsed|, db.next, db.next + 1);
    forall r | r in db.revisions ensures Content(post, r) == Content(db, r) {
      ContentSame(db, post, r);
    }
    forall p | p in parsed ensures p in Content(post, db.next) {
      var i :| 0 <= i < |parsed| && parsed[i] == p;
      PromoteAddsRow(db, at, rev, parsed, post, i);
      assert post.segments[db.next + 1 + i].parsed == p;
    }
    forall g | g in post.segments && post.segments[g].revision == db.next ensures post.segments[g].parsed in parsed {
      assert g > db.next;
    }
  }

  lemma PromoteKeepsFaithful(db: Db, at: SourceRow, rev: RevisionRow, parsed: seq<ParsedSegment>, post: Db,
                             parse: Parsing)
    requires KeysResolve(db) && Faithful(db, parse)
    requires Promote(db, at, rev, parsed) == Some(post)
    requires parse(rev.parser, rev.hash.bytes) == Some(parsed)
    ensures Faithful(post, parse)
  {
    PromoteContent(db, at, rev, parsed, post);
  }

  lemma ProcessKeepsFaithful(db: Db, root: RootId, doc: Document, registry: Registry, parse: Parsing)
    requires Inv(db) && Faithful(db, parse)
    ensures Faithful(Process(db, root, doc, registry, parse).0, parse)
  {
    var id, current := IdFor(db, root, doc.path), CurrentOf(db, root, doc.path);
    var key, hash := registry(doc.fileType), Blake3(doc.bytes);
    var post := Process(db, root, doc, registry, parse).0;
    if UpToDate(db, current, hash, key) {
      forall r | r in post.revisions && post.revisions[r].status == Indexed ensures RevisionFaithful(post, r, parse) {
        ContentSame(db, post, r);
      }
    } else {
      var parsed := parse(key, doc.bytes);
      var row := IdentityRow(root, doc.path, current, parsed.Some?);
      var stored := UpsertSource(db, id, row);
      if stored.Some? {
        var mid := stored.value;
        FindFits(db, root, doc.path, row.state);
        UpsertKeepsInv(db, id, row, mid);
        SecondCommitKeepsFaithful(db, mid, id, row, hash, key, parsed, parse);
      }
    }
  }

  lemma SecondCommitKeepsFaithful(db: Db, mid: Db, id: SourceId, row: SourceRow, hash: ContentHash, key: ParserKey,
                                  parsed: Option<seq<ParsedSegment>>, parse: Parsing)
    requires KeysResolve(mid) && Faithful(db, parse)
    requires mid.revisions == db.revisions && mid.segments == db.segments
    requires parsed == parse(key, hash.bytes)
    ensures Faithful(mid, parse)
    ensures SecondCommit(mid, id, row, hash, key, parsed).Some? ==>
              Faithful(SecondCommit(mid, id, row, hash, key, parsed).value, parse)
  {
    forall r | r in mid.revisions && mid.revisions[r].status == Indexed ensures RevisionFaithful(mid, r, parse) {
      ContentSame(db, mid, r);
    }
    var done := SecondCommit(mid, id, row, hash, key, parsed);
    if done.Some? {
      var post := done.value;
      if parsed.Some? {
        PromoteKeepsFaithful(mid, row, RevisionRow(id, hash, key, Indexed), parsed.value, post, parse);
      } else {
        forall r | r in post.revisions && post.revisions[r].status == Indexed ensures RevisionFaithful(post, r, parse) {
          ContentSame(mid, post, r);
        }
      }
    }
  }
}
