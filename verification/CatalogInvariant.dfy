/** Every transaction of the catalog keeps its invariant. */
module CatalogInvariant {
  import opened Prelude
  import opened Catalog

  lemma FindSourceUnique(db: Db, s: SourceId)
    requires UniqueSources(db) && s in db.sources
    ensures FindSource(db, db.sources[s].root, db.sources[s].path) == Some(s)
  {
    var found := FindSource(db, db.sources[s].root, db.sources[s].path);
    assert SamePlace(db.sources[s], db.sources[found.value]);
  }

  lemma EmptyInv()
    ensures Inv(EMPTY)
  {
  }

  lemma UpsertRootKeepsInv(db: Db, root: RootId)
    requires Inv(db)
    ensures Inv(UpsertRoot(db, root))
  {
    var post := UpsertRoot(db, root);
    assert forall g: nat :: Searchable(db, g) == Searchable(post, g);
  }

  // -------------------------------------------------------- upsert_source_file

  /** What the callers of `upsert_source_file` pass: the stored identity and the stored pointer. */
  ghost predicate UpsertFits(db: Db, id: SourceId, row: SourceRow) {
    && id <= db.next
    && (id in db.sources ==> SamePlace(db.sources[id], row) && row.current == db.sources[id].current)
    && (id !in db.sources ==> !HasSource(db, row.root, row.path) && row.current == None)
    && (row.current.Some? ==> row.state == Active)
  }

  lemma UpsertTarget(db: Db, id: SourceId, row: SourceRow)
    requires UniqueSources(db) && UpsertFits(db, id, row) && row.root in db.roots
    ensures UpsertSource(db, id, row) ==
            Some(db.(sources := db.sources[id := row], next := if id < db.next then db.next else id + 1))
  {
    if id in db.sources {
      FindSourceUnique(db, id);
    }
  }

  lemma UpsertKeepsKeys(db: Db, id: SourceId, row: SourceRow, post: Db)
    requires KeysResolve(db) && PointersSound(db) && UniqueSources(db)
    requires UpsertFits(db, id, row) && UpsertSource(db, id, row) == Some(post)
    ensures KeysResolve(post) && PointersSound(post)
    ensures UniqueSources(post)
  {
    UpsertTarget(db, id, row);
    forall s, t | s in post.sources && t in post.sources && SamePlace(post.sources[s], post.sources[t])
      ensures s == t
    {
      assert s in db.sources && t in db.sources ==> (SamePlace(db.sources[s], db.sources[t]) ==> s == t);
    }
  }

  lemma UpsertKeepsLive(db: Db, id: SourceId, row: SourceRow, post: Db, r: RevisionId)
    requires KeysResolve(db) && PointersSound(db) && UniqueSources(db)
    requires UpsertFits(db, id, row) && UpsertSource(db, id, row) == Some(post)
    ensures Live(post, r) == Live(db, r)
  {
    UpsertTarget(db, id, row);
  }

  lemma UpsertKeepsFts(db: Db, id: SourceId, row: SourceRow, post: Db)
    requires Inv(db)
    requires UpsertFits(db, id, row) && UpsertSource(db, id, row) == Some(post)
    ensures FtsSound(post) && FtsComplete(post) && FtsOnce(post)
  {
    UpsertTarget(db, id, row);
    forall k | k in post.fts
      ensures IsFtsRowOf(post, post.fts[k], post.fts[k].segment) && Live(post, post.fts[k].revision)
    {
      UpsertKeepsLive(db, id, row, post, post.fts[k].revision);
    }
    forall g | g in post.segments && Live(post, post.segments[g].revision)
      ensures Searchable(post, g)
    {
      UpsertKeepsLive(db, id, row, post, db.segments[g].revision);
      var k :| k in db.fts && db.fts[k].segment == g;
    }
  }

  lemma UpsertKeepsInv(db: Db, id: SourceId, row: SourceRow, post: Db)
    requires Inv(db)
    requires UpsertFits(db, id, row) && UpsertSource(db, id, row) == Some(post)
    ensures Inv(post)
  {
    UpsertKeepsKeys(db, id, row, post);
    UpsertKeepsFts(db, id, row, post);
    assert UniqueRevisions(post) && UniqueSegments(post) by { UpsertTarget(db, id, row); }
  }

  // ---------------------------------------------------------- promote_revision

  /** The caller's copy of the source row is the stored one as far as place and pointer go. */
  ghost predicate CopyFits(db: Db, source: SourceId, at: SourceRow) {
    source in db.sources && SamePlace(at, db.sources[source]) && at.current == db.sources[source].current
  }

  lemma NewRowsClash(parsed: seq<ParsedSegment>, rev: RevisionId, i: nat, j: nat)
    requires StorableSegments(parsed) && i < |parsed| && j < |parsed|
    ensures Clash(SegmentRow(rev, parsed[i]), SegmentRow(rev, parsed[j])) ==> i == j
  {
    if i < j {
      assert Apart(parsed[i], parsed[j]);
    } else if j < i {
      assert Apart(parsed[j], parsed[i]);
    }
  }

  lemma PromoteKeepsSegmentKeys(db: Db, at: SourceRow, rev: RevisionRow, parsed: seq<ParsedSegment>, post: Db)
    requires KeysResolve(db) && UniqueSegments(db)
    requires Promote(db, at, rev, parsed) == Some(post)
    ensures UniqueSegments(post)
  {
    SegmentRowsAre(parsed, |parsed|, db.next, db.next + 1);
    var first := db.next + 1;
    forall g, h | g in post.segments && h in post.segments && Clash(post.segments[g], post.segments[h])
      ensures g == h
    {
      if g >= first && h >= first {
        NewRowsClash(parsed, db.next, g - first, h - first);
      } else if g < first && h < first {
        assert Clash(db.segments[g], db.segments[h]);
      }
    }
  }

  lemma PromoteKeepsPointers(db: Db, at: SourceRow, rev: RevisionRow, parsed: seq<ParsedSegment>, post: Db)
    requires KeysResolve(db) && PointersSound(db)
    requires rev.status == Indexed
    requires Promote(db, at, rev, parsed) == Some(post)
    ensures PointersSound(post)
  {
  }

  lemma PromoteKeepsKeys(db: Db, at: SourceRow, rev: RevisionRow, parsed: seq<ParsedSegment>, post: Db)
    requires KeysResolve(db)
    requires Promote(db, at, rev, parsed) == Some(post)
    ensures KeysResolve(post)
  {
    SegmentRowsAre(parsed, |parsed|, db.next, db.next + 1);
    FtsRowsAre(parsed, |parsed|, db.next, rev.source, at, db.next + 1, db.next + 1 + |parsed|);
    forall g | g in post.segments ensures g < post.next && post.segments[g].revision in post.revisions {
      assert g > db.next || post.segments[g] == db.segments[g];
    }
  }

  lemma PromoteKeepsUnique(db: Db, at: SourceRow, rev: RevisionRow, parsed: seq<ParsedSegment>, post: Db)
    requires UniqueSources(db) && UniqueRevisions(db)
    requires Promote(db, at, rev, parsed) == Some(post)
    ensures UniqueSources(post) && UniqueRevisions(post)
  {
    forall s, t | s in post.sources && t in post.sources && SamePlace(post.sources[s], post.sources[t])
      ensures s == t
    {
      assert SamePlace(db.sources[s], db.sources[t]);
    }
    forall r, q | r in post.revisions && q in post.revisions && SameKey(post.revisions[r], post.revisions[q])
      ensures r == q
    {
      if r != db.next && q != db.next {
        assert SameKey(db.revisions[r], db.revisions[q]);
      }
    }
  }

  lemma PromoteLive(db: Db, at: SourceRow, rev: RevisionRow, parsed: seq<ParsedSegment>, post: Db, r: RevisionId)
    requires KeysResolve(db) && PointersSound(db)
    requires CopyFits(db, rev.source, at) && Promote(db, at, rev, parsed) == Some(post)
    ensures Live(post, r) <==> r == db.next || (Live(db, r) && Some(r) != at.current)
  {
  }

  lemma PromoteKeepsOldRow(db: Db, at: SourceRow, rev: RevisionRow, parsed: seq<ParsedSegment>, post: Db, k: RowId)
    requires KeysResolve(db) && PointersSound(db) && CopyFits(db, rev.source, at)
    requires Promote(db, at, rev, parsed) == Some(post)
    requires k in db.fts && Some(db.fts[k].revision) != at.current
    requires IsFtsRowOf(db, db.fts[k], db.fts[k].segment) && Live(db, db.fts[k].revision)
    ensures post.fts[k] == db.fts[k]
    ensures IsFtsRowOf(post, post.fts[k], post.fts[k].segment) && Live(post, post.fts[k].revision)
  {
    SegmentRowsAre(parsed, |parsed|, db.next, db.next + 1);
    FtsRowsAre(parsed, |parsed|, db.next, rev.source, at, db.next + 1, db.next + 1 + |parsed|);
  }

  lemma PromoteAddsRow(db: Db, at: SourceRow, rev: RevisionRow, parsed: seq<ParsedSegment>, post: Db, i: nat)
    requires i < |parsed| && Promote(db, at, rev, parsed) == Some(post)
    ensures var g, k := db.next + 1 + i, db.next + 1 + |parsed| + i;
            && g in post.segments && post.segments[g] == SegmentRow(db.next, parsed[i])
            && k in post.fts
            && post.fts[k] == FtsRow(g, db.next, rev.source, at.root, at.path, parsed[i].anchor, parsed[i].text)
  {
    SegmentRowsAre(parsed, |parsed|, db.next, db.next + 1);
    FtsRowsAre(parsed, |parsed|, db.next, rev.source, at, db.next + 1, db.next + 1 + |parsed|);
  }

  lemma PromoteAddsSoundRow(db: Db, at: SourceRow, rev: RevisionRow, parsed: seq<ParsedSegment>, post: Db, i: nat)
    requires i < |parsed| && CopyFits(db, rev.source, at) && Promote(db, at, rev, parsed) == Some(post)
    ensures var k := db.next + 1 + |parsed| + i;
            k in post.fts && IsFtsRowOf(post, post.fts[k], post.fts[k].segment) && Live(post, post.fts[k].revision)
  {
    PromoteAddsRow(db, at, rev, parsed, post, i);
    assert post.revisions[db.next] == rev;
    assert post.sources[rev.source].current == Some(db.next);
  }

  lemma PromoteKeepsFtsSound(db: Db, at: SourceRow, rev: RevisionRow, parsed: seq<ParsedSegment>, post: Db)
    requires KeysResolve(db) && PointersSound(db) && FtsSound(db)
    requires CopyFits(db, rev.source, at) && Promote(db, at, rev, parsed) == Some(post)
    ensures FtsSound(post)
  {
    FtsRowsAre(parsed, |parsed|, db.next, rev.source, at, db.next + 1, db.next + 1 + |parsed|);
    forall k | k in post.fts
      ensures IsFtsRowOf(post, post.fts[k], post.fts[k].segment) && Live(post, post.fts[k].revision)
    {
      if k > db.next {
        PromoteAddsSoundRow(db, at, rev, parsed, post, k - (db.next + 1 + |parsed|));
      } else {
        PromoteKeepsOldRow(db, at, rev, parsed, post, k);
      }
    }
  }

  lemma PromotedSegment(db: Db, at: SourceRow, rev: RevisionRow, parsed: seq<ParsedSegment>, post: Db, g: SegmentId)
    requires KeysResolve(db) && Promote(db, at, rev, parsed) == Some(post) && g in post.segments
    ensures g < db.next ==> g in db.segments && post.segments[g] == db.segments[g]
    ensures g >= db.next ==> db.next < g <= db.next + |parsed| && post.segments[g].revision == db.next
  {
    SegmentRowsAre(parsed, |parsed|, db.next, db.next + 1);
  }

  lemma PromoteKeepsFtsComplete(db: Db, at: SourceRow, rev: RevisionRow, parsed: seq<ParsedSegment>, post: Db)
    requires KeysResolve(db) && PointersSound(db) && FtsSound(db) && FtsComplete(db)
    requires CopyFits(db, rev.source, at) && Promote(db, at, rev, parsed) == Some(post)
    ensures FtsComplete(post)
  {
    forall g | g in post.segments && Live(post, post.segments[g].revision)
      ensures Searchable(post, g)
    {
      PromotedSegment(db, at, rev, parsed, post, g);
      if g > db.next {
        PromoteAddsRow(db, at, rev, parsed, post, g - (db.next + 1));
      } else {
        PromoteLive(db, at, rev, parsed, post, db.segments[g].revision);
        assert Searchable(db, g);
        var k :| k in db.fts && db.fts[k].segment == g;
        PromoteKeepsOldRow(db, at, rev, parsed, post, k);
      }
    }
  }

  lemma PromoteKeepsFtsOnce(db: Db, at: SourceRow, rev: RevisionRow, parsed: seq<ParsedSegment>, post: Db)
    requires KeysResolve(db) && FtsSound(db) && FtsOnce(db)
    requires Promote(db, at, rev, parsed) == Some(post)
    ensures FtsOnce(post)
  {
    FtsRowsAre(parsed, |parsed|, db.next, rev.source, at, db.next + 1, db.next + 1 + |parsed|);
    forall k, l | k in post.fts && l in post.fts && post.fts[k].segment == post.fts[l].segment
      ensures k == l
    {
      if k < db.next { assert post.fts[k] == db.fts[k] && db.fts[k].segment < db.next; }
      if l < db.next { assert post.fts[l] == db.fts[l] && db.fts[l].segment < db.next; }
    }
  }

  lemma PromoteKeepsInv(db: Db, at: SourceRow, rev: RevisionRow, parsed: seq<ParsedSegment>, post: Db)
    requires Inv(db) && rev.status == Indexed
    requires CopyFits(db, rev.source, at) && Promote(db, at, rev, parsed) == Some(post)
    ensures Inv(post)
  {
    PromoteKeepsSegmentKeys(db, at, rev, parsed, post);
    PromoteKeepsKeys(db, at, rev, parsed, post);
    PromoteKeepsPointers(db, at, rev, parsed, post);
    PromoteKeepsUnique(db, at, rev, parsed, post);
    PromoteKeepsFtsSound(db, at, rev, parsed, post);
    PromoteKeepsFtsComplete(db, at, rev, parsed, post);
    PromoteKeepsFtsOnce(db, at, rev, parsed, post);
  }

  // ------------------------------------------------------- record_parse_failure

  lemma FailedRevisionKeepsKeys(db: Db, rev: RevisionRow, post: Db)
    requires KeysResolve(db) && UniqueRevisions(db) && PointersSound(db)
    requires InsertFailedRevision(db, rev) == Some(post)
    ensures KeysResolve(post) && UniqueRevisions(post) && PointersSound(post)
  {
    forall r, q | r in post.revisions && q in post.revisions && SameKey(post.revisions[r], post.revisions[q])
      ensures r == q
    {
      if r in db.revisions && q in db.revisions {
        assert SameKey(db.revisions[r], db.revisions[q]);
      }
    }
  }

  lemma FailedRevisionKeepsInv(db: Db, rev: RevisionRow, post: Db)
    requires Inv(db)
    requires InsertFailedRevision(db, rev) == Some(post)
    ensures Inv(post)
  {
    FailedRevisionKeepsKeys(db, rev, post);
    assert UniqueSources(post) && UniqueSegments(post);
    assert FtsSound(post);
    forall g | g in post.segments && Live(post, post.segments[g].revision)
      ensures Searchable(post, g)
    {
      var k :| k in db.fts && db.fts[k].segment == g;
    }
  }

  // -------------------------------------------------------- mark_source_deleted

  lemma MarkDeletedKeepsKeys(db: Db, source: SourceId, post: Db)
    requires KeysResolve(db) && UniqueSources(db) && PointersSound(db)
    requires source in db.sources && post == MarkDeleted(db, source, db.sources[source])
    ensures KeysResolve(post) && UniqueSources(post) && PointersSound(post)
  {
    forall s, t | s in post.sources && t in post.sources && SamePlace(post.sources[s], post.sources[t])
      ensures s == t
    {
      assert SamePlace(db.sources[s], db.sources[t]);
    }
  }

  lemma MarkDeletedKeepsFts(db: Db, source: SourceId, post: Db)
    requires PointersSound(db) && FtsSound(db) && FtsComplete(db) && FtsOnce(db)
    requires source in db.sources && post == MarkDeleted(db, source, db.sources[source])
    ensures FtsSound(post) && FtsComplete(post) && FtsOnce(post)
  {
    MarkDeletedKeepsFtsSound(db, source, post);
    MarkDeletedKeepsFtsComplete(db, source, post);
  }

  lemma MarkDeletedKeepsFtsSound(db: Db, source: SourceId, post: Db)
    requires PointersSound(db) && FtsSound(db)
    requires source in db.sources && post == MarkDeleted(db, source, db.sources[source])
    ensures FtsSound(post)
  {
  }

  lemma MarkDeletedKeepsFtsComplete(db: Db, source: SourceId, post: Db)
    requires PointersSound(db) && FtsSound(db) && FtsComplete(db)
    requires source in db.sources && post == MarkDeleted(db, source, db.sources[source])
    ensures FtsComplete(post)
  {
    forall g | g in post.segments && Live(post, post.segments[g].revision)
      ensures Searchable(post, g)
    {
      var k :| k in db.fts && db.fts[k].segment == g;
      assert post.fts[k] == db.fts[k];
    }
  }

  lemma MarkDeletedKeepsInv(db: Db, source: SourceId)
    requires Inv(db) && source in db.sources
    ensures Inv(MarkDeleted(db, source, db.sources[source]))
  {
    var post := MarkDeleted(db, source, db.sources[source]);
    MarkDeletedKeepsKeys(db, source, post);
    MarkDeletedKeepsFts(db, source, post);
  }

  // --------------------------------------------------------- delete_root_derived

  lemma DeleteRootKeepsKeys(db: Db, root: RootId, post: Db)
    requires KeysResolve(db) && PointersSound(db) && UniqueSources(db) && UniqueRevisions(db) && UniqueSegments(db)
    requires post == DeleteRoot(db, root)
    ensures KeysResolve(post) && PointersSound(post)
    ensures UniqueSources(post) && UniqueRevisions(post) && UniqueSegments(post)
  {
  }

  lemma DeleteRootKeepsFts(db: Db, root: RootId, post: Db)
    requires FtsSound(db) && FtsComplete(db) && FtsOnce(db)
    requires post == DeleteRoot(db, root)
    ensures FtsSound(post) && FtsComplete(post) && FtsOnce(post)
  {
    forall g | g in post.segments && Live(post, post.segments[g].revision)
      ensures Searchable(post, g)
    {
      var k :| k in db.fts && db.fts[k].segment == g;
      assert post.fts[k] == db.fts[k];
    }
  }

  lemma DeleteRootKeepsInv(db: Db, root: RootId)
    requires Inv(db)
    ensures Inv(DeleteRoot(db, root))
  {
    DeleteRootKeepsKeys(db, root, DeleteRoot(db, root));
    DeleteRootKeepsFts(db, root, DeleteRoot(db, root));
  }
}
