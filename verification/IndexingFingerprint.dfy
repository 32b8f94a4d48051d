/**
 What `index_fingerprint` hashes: the joined rows of all roots, in the order its
 ORDER BY leaves them.  How the index was reached does not matter, and the order is
 determined exactly when no two roots are tied.
 */
module IndexingFingerprint {
  import opened Prelude
  import opened Sorting
  import opened Catalog
  import opened CatalogInvariant
  import opened Indexing
  import opened IndexingSteps

  /** One hashed line; the text stands for its hash. */
  datatype Line = Line(path: Path, segment: ParsedSegment, hash: ContentHash, parser: ParserKey)

  /** Strict total orders on strings and, through the texts, on text hashes. */
  datatype Collation = Collation(text: (string, string) -> bool, digest: (string, string) -> bool)

  ghost predicate StrictTotal(less: (string, string) -> bool) {
    && (forall a :: !less(a, a))
    && (forall a, b {:trigger less(a, b)} :: a == b || less(a, b) || less(b, a))
    && (forall a, b, c {:trigger less(a, b), less(b, c)} :: less(a, b) && less(b, c) ==> less(a, c))
  }

  ghost predicate Lawful(c: Collation) {
    StrictTotal(c.text) && StrictTotal(c.digest)
  }

  /** ORDER BY relative_path, ordinal, anchor, text_hash. */
  predicate Precedes(c: Collation, a: Line, b: Line) {
    || c.text(a.path, b.path)
    || (a.path == b.path
        && (|| a.segment.ordinal < b.segment.ordinal
            || (a.segment.ordinal == b.segment.ordinal
                && (|| c.text(a.segment.anchor, b.segment.anchor)
                    || (a.segment.anchor == b.segment.anchor && c.digest(a.segment.text, b.segment.text))))))
  }

  // -------------------------------------------------------------- the query

  /** The joins of the query. */
  predicate Joins(db: Db, row: FtsRow) {
    && row.source in db.sources && db.sources[row.source].state == Active
    && db.sources[row.source].current == Some(row.revision)
    && row.segment in db.segments && row.revision in db.revisions
  }

  function Joined(db: Db): set<RowId> {
    set k | k in db.fts && Joins(db, db.fts[k])
  }

  const NO_LINE := Line("", ParsedSegment("", 0, ""), Blake3([]), ParserKey("", ""))

  /** The columns selected for a joined row. */
  function LineAt(db: Db, k: RowId): Line {
    if k !in db.fts || !Joins(db, db.fts[k]) then NO_LINE
    else
      var row := db.fts[k];
      Line(db.sources[row.source].path, db.segments[row.segment].parsed, db.revisions[row.revision].hash,
           db.revisions[row.revision].parser)
  }

  function RootAt(db: Db, k: RowId): RootId
    requires k in Joined(db)
  {
    db.sources[db.fts[k].source].root
  }

  function RowOrder(db: Db, c: Collation): (RowId, RowId) -> bool {
    (k: RowId, l: RowId) => Precedes(c, LineAt(db, k), LineAt(db, l))
  }

  /** An order in which the query may deliver its rows: each joined row once, sorted; ties come as they come. */
  ghost predicate Delivered(db: Db, c: Collation, rows: seq<RowId>) {
    multiset(rows) == multiset(Joined(db)) && Sorted(RowOrder(db, c), rows)
  }

  /** What is hashed, line by line, before the number of lines. */
  function Hashed(db: Db, rows: seq<RowId>): (lines: seq<Line>)
    ensures |lines| == |rows| && forall i :: 0 <= i < |rows| ==> lines[i] == LineAt(db, rows[i])
  {
    if rows == [] then [] else Hashed(db, rows[..|rows| - 1]) + [LineAt(db, rows[|rows| - 1])]
  }

  /** Two rows the ORDER BY does not tell apart, with different lines: their bytes or their parsers differ. */
  ghost predicate TiedRows(db: Db, k: RowId, l: RowId) {
    && k in Joined(db) && l in Joined(db)
    && LineAt(db, k).path == LineAt(db, l).path && LineAt(db, k).segment == LineAt(db, l).segment
    && LineAt(db, k) != LineAt(db, l)
  }

  ghost predicate Tied(db: Db) {
    exists k, l :: TiedRows(db, k, l)
  }

  // ------------------------------------------------------- rows and surfaces

  ghost predicate ShowsLine(shown: Listing, line: Line) {
    shown.Listed? && shown.hash == line.hash && shown.parser == line.parser && line.segment in shown.segments
  }

  /** In one root a path and an ordinal belong to one row: within a root the ORDER BY decides. */
  lemma RowsOfRootAreOrdered(db: Db, k: RowId, l: RowId)
    requires Inv(db) && k in Joined(db) && l in Joined(db) && RootAt(db, k) == RootAt(db, l)
    requires LineAt(db, k).path == LineAt(db, l).path && LineAt(db, k).segment.ordinal == LineAt(db, l).segment.ordinal
    ensures k == l
  {
    var a, b := db.fts[k], db.fts[l];
    FindSourceUnique(db, a.source);
    FindSourceUnique(db, b.source);
    assert Clash(db.segments[a.segment], db.segments[b.segment]);
    assert a.segment == b.segment;
  }

  /** So do a path and an anchor. */
  lemma RowsOfRootAreNamed(db: Db, k: RowId, l: RowId)
    requires Inv(db) && k in Joined(db) && l in Joined(db) && RootAt(db, k) == RootAt(db, l)
    requires LineAt(db, k).path == LineAt(db, l).path && LineAt(db, k).segment.anchor == LineAt(db, l).segment.anchor
    ensures k == l
  {
    var a, b := db.fts[k], db.fts[l];
    FindSourceUnique(db, a.source);
    FindSourceUnique(db, b.source);
    assert Clash(db.segments[a.segment], db.segments[b.segment]);
    assert a.segment == b.segment;
  }

  /** So a tie is between two roots. */
  lemma TieNeedsTwoRoots(db: Db, k: RowId, l: RowId)
    requires Inv(db) && TiedRows(db, k, l)
    ensures RootAt(db, k) != RootAt(db, l)
  {
    if RootAt(db, k) == RootAt(db, l) {
      RowsOfRootAreOrdered(db, k, l);
    }
  }

  /** A row of a root shows in the listing of its path. */
  lemma JoinedRowShows(db: Db, k: RowId)
    requires Inv(db) && k in Joined(db)
    ensures RootAt(db, k) in db.roots && ShowsLine(ListingAt(db, RootAt(db, k), LineAt(db, k).path), LineAt(db, k))
  {
    var row := db.fts[k];
    FindSourceUnique(db, row.source);
    assert IsFtsRowOf(db, row, row.segment);
    assert db.segments[row.segment].parsed in Content(db, row.revision);
  }

  /** What a listing shows comes from a row. */
  lemma ShownLineIsJoined(db: Db, root: RootId, line: Line) returns (k: RowId)
    requires Inv(db) && ShowsLine(ListingAt(db, root, line.path), line)
    ensures k in Joined(db) && RootAt(db, k) == root && LineAt(db, k) == line
  {
    FindGives(db, root, line.path);
    var s := FindSource(db, root, line.path).value;
    var r := db.sources[s].current.value;
    var g :| g in db.segments && db.segments[g].revision == r && db.segments[g].parsed == line.segment;
    assert Live(db, r);
    assert Searchable(db, g);
    k :| k in db.fts && db.fts[k].segment == g;
    assert IsFtsRowOf(db, db.fts[k], g);
  }

  /** The joined rows of a root give exactly the lines its surface shows. */
  lemma ProjectionIsSurface(db: Db, root: RootId, line: Line)
    requires Inv(db)
    ensures ShowsLine(ListingAt(db, root, line.path), line)
            <==> exists k :: k in Joined(db) && RootAt(db, k) == root && LineAt(db, k) == line
  {
    if ShowsLine(ListingAt(db, root, line.path), line) {
      var k := ShownLineIsJoined(db, root, line);
    }
    if k :| k in Joined(db) && RootAt(db, k) == root && LineAt(db, k) == line {
      JoinedRowShows(db, k);
    }
  }

  // ------------------------------------------------------------------ counts

  function RowsWith(db: Db, rows: set<RowId>, line: Line): set<RowId> {
    set k | k in rows && LineAt(db, k) == line
  }

  ghost function RootsShowing(db: Db, line: Line): set<RootId> {
    set r | r in db.roots && ShowsLine(ListingAt(db, r, line.path), line)
  }

  lemma LastOfSet(rows: seq<RowId>, ids: set<RowId>)
    requires multiset(rows) == multiset(ids) && rows != []
    ensures rows[|rows| - 1] in ids && multiset(rows[..|rows| - 1]) == multiset(ids - {rows[|rows| - 1]})
  {
    var init, last := rows[..|rows| - 1], rows[|rows| - 1];
    assert rows == init + [last];
    assert last in multiset(rows);
    assert multiset(ids) == multiset(ids - {last}) + multiset{last};
    assert multiset(init) == multiset(rows) - multiset{last};
  }

  lemma {:induction false} LineCount(db: Db, rows: seq<RowId>, ids: set<RowId>, line: Line)
    requires multiset(rows) == multiset(ids)
    ensures multiset(Hashed(db, rows))[line] == |RowsWith(db, ids, line)|
  {
    if rows == [] {
      assert |multiset(ids)| == |ids| == 0;
      assert RowsWith(db, ids, line) == {};
    } else {
      var init, last := rows[..|rows| - 1], rows[|rows| - 1];
      LastOfSet(rows, ids);
      LineCount(db, init, ids - {last}, line);
      var rest := RowsWith(db, ids - {last}, line);
      assert RowsWith(db, ids, line) == if LineAt(db, last) == line then rest + {last} else rest;
    }
  }

  function RootsOf(db: Db, rows: set<RowId>): set<RootId>
    requires rows <= Joined(db)
  {
    set k | k in rows :: RootAt(db, k)
  }

  /** Rows with one line are in as many roots. */
  lemma OneRowPerRoot(db: Db, rows: set<RowId>, line: Line)
    requires Inv(db) && rows <= Joined(db) && forall k :: k in rows ==> LineAt(db, k) == line
    ensures |RootsOf(db, rows)| == |rows|
  {
    forall k, l {:trigger SameRoot(db, k, l)} | k in rows && l in rows && SameRoot(db, k, l) ensures k == l {
      RowsOfRootAreOrdered(db, k, l);
    }
    RootsApart(db, rows);
  }

  predicate SameRoot(db: Db, k: RowId, l: RowId)
    requires k in Joined(db) && l in Joined(db)
  {
    RootAt(db, k) == RootAt(db, l)
  }

  lemma {:induction false} RootsApart(db: Db, rows: set<RowId>)
    requires rows <= Joined(db)
    requires forall k, l {:trigger SameRoot(db, k, l)} :: k in rows && l in rows && SameRoot(db, k, l) ==> k == l
    ensures |RootsOf(db, rows)| == |rows|
    decreases rows
  {
    if rows == {} {
      assert RootsOf(db, rows) == {};
    } else {
      var k :| k in rows;
      var rest := rows - {k};
      RootsApart(db, rest);
      assert RootsOf(db, rows) == RootsOf(db, rest) + {RootAt(db, k)};
      assert forall l :: l in rest ==> !SameRoot(db, k, l);
      assert RootAt(db, k) !in RootsOf(db, rest);
    }
  }

  /** Each line is hashed once for every root that shows it. */
  lemma HashedOncePerRoot(db: Db, c: Collation, rows: seq<RowId>, line: Line)
    requires Inv(db) && Delivered(db, c, rows)
    ensures multiset(Hashed(db, rows))[line] == |RootsShowing(db, line)|
  {
    var ids := RowsWith(db, Joined(db), line);
    LineCount(db, rows, Joined(db), line);
    OneRowPerRoot(db, ids, line);
    forall r | r in RootsShowing(db, line) ensures r in RootsOf(db, ids) {
      var k := ShownLineIsJoined(db, r, line);
      assert k in ids;
    }
    forall r | r in RootsOf(db, ids) ensures r in RootsShowing(db, line) {
      var k :| k in ids && RootAt(db, k) == r;
      JoinedRowShows(db, k);
    }
    assert RootsShowing(db, line) == RootsOf(db, ids);
  }

  // --------------------------------------------------------- one surface

  /** The two indexes show the same at every path of every root. */
  ghost predicate SameSurface(db: Db, other: Db) {
    forall r, p {:trigger ListingAt(db, r, p)} {:trigger ListingAt(other, r, p)} ::
        ListingAt(db, r, p) == ListingAt(other, r, p)
  }

  lemma ShownInKnownRoot(db: Db, root: RootId, path: Path)
    requires KeysResolve(db)
    ensures ListingAt(db, root, path) != Absent ==> root in db.roots
  {
    FindGives(db, root, path);
  }

  lemma SameRootShows(db: Db, other: Db, line: Line, r: RootId)
    requires Inv(db) && Inv(other) && SameSurface(db, other)
    ensures r in RootsShowing(db, line) <==> r in RootsShowing(other, line)
  {
    assert ListingAt(db, r, line.path) == ListingAt(other, r, line.path);
    ShownInKnownRoot(db, r, line.path);
    ShownInKnownRoot(other, r, line.path);
  }

  lemma SameRootsShow(db: Db, other: Db, line: Line)
    requires Inv(db) && Inv(other) && SameSurface(db, other)
    ensures RootsShowing(db, line) == RootsShowing(other, line)
  {
    forall r ensures r in RootsShowing(db, line) <==> r in RootsShowing(other, line) {
      SameRootShows(db, other, line, r);
    }
  }

  lemma SameCount(db: Db, other: Db, c: Collation, rows: seq<RowId>, others: seq<RowId>, line: Line)
    requires Inv(db) && Inv(other) && SameSurface(db, other) && Delivered(db, c, rows) && Delivered(other, c, others)
    ensures multiset(Hashed(db, rows))[line] == multiset(Hashed(other, others))[line]
  {
    HashedOncePerRoot(db, c, rows, line);
    HashedOncePerRoot(other, c, others, line);
    SameRootsShow(db, other, line);
  }

  lemma EqualCounts(a: seq<Line>, b: seq<Line>)
    requires forall line :: multiset(a)[line] == multiset(b)[line]
    ensures multiset(a) == multiset(b) && |a| == |b|
  {
    SameElements(a, b);
  }

  /** One surface, one multiset of lines, and so one count. */
  lemma SameLines(db: Db, other: Db, c: Collation, rows: seq<RowId>, others: seq<RowId>)
    requires Inv(db) && Inv(other) && SameSurface(db, other) && Delivered(db, c, rows) && Delivered(other, c, others)
    ensures multiset(Hashed(db, rows)) == multiset(Hashed(other, others)) && |rows| == |others|
  {
    var a, b := Hashed(db, rows), Hashed(other, others);
    EqualCounts(a, b) by {
      forall line ensures multiset(a)[line] == multiset(b)[line] {
        SameCount(db, other, c, rows, others, line);
      }
    }
  }

  function LineOrder(c: Collation): (Line, Line) -> bool {
    (a, b) => Precedes(c, a, b)
  }

  lemma PrecedesTransitive(c: Collation, x: Line, y: Line, z: Line)
    requires Lawful(c) && Precedes(c, x, y)
    ensures Precedes(c, y, z) ==> Precedes(c, x, z)
    ensures Precedes(c, x, z) || Precedes(c, z, y)
  {
    assert x.path == z.path || c.text(x.path, z.path) || c.text(z.path, x.path);
    assert y.path == z.path || c.text(y.path, z.path) || c.text(z.path, y.path);
    var a, b, d := x.segment.anchor, y.segment.anchor, z.segment.anchor;
    assert a == d || c.text(a, d) || c.text(d, a);
    assert b == d || c.text(b, d) || c.text(d, b);
    var s, t, u := x.segment.text, y.segment.text, z.segment.text;
    assert s == u || c.digest(s, u) || c.digest(u, s);
  }

  lemma OrdersAreWeak(db: Db, c: Collation)
    requires Lawful(c)
    ensures StrictWeak(LineOrder(c)) && StrictWeak(RowOrder(db, c))
  {
    forall x, y, z | Precedes(c, x, y)
      ensures (Precedes(c, y, z) ==> Precedes(c, x, z)) && (Precedes(c, x, z) || Precedes(c, z, y))
    {
      PrecedesTransitive(c, x, y, z);
    }
  }

  lemma DeliveredIsSorted(db: Db, c: Collation, rows: seq<RowId>)
    requires Delivered(db, c, rows)
    ensures Sorted(LineOrder(c), Hashed(db, rows))
  {
    forall i, j | 0 <= i < j < |rows| ensures !Precedes(c, Hashed(db, rows)[j], Hashed(db, rows)[i]) {
      assert !RowOrder(db, c)(rows[j], rows[i]);
    }
  }

  lemma NeitherPrecedes(c: Collation, a: Line, b: Line)
    requires Lawful(c) && !Precedes(c, a, b) && !Precedes(c, b, a)
    ensures a.path == b.path && a.segment == b.segment
  {
    assert a.path == b.path || c.text(a.path, b.path) || c.text(b.path, a.path);
    var s, t := a.segment, b.segment;
    assert s.anchor == t.anchor || c.text(s.anchor, t.anchor) || c.text(t.anchor, s.anchor);
    assert s.text == t.text || c.digest(s.text, t.text) || c.digest(t.text, s.text);
  }

  lemma UntiedHasNoTies(db: Db, c: Collation, rows: seq<RowId>)
    requires Lawful(c) && Delivered(db, c, rows) && !Tied(db)
    ensures NoTies(LineOrder(c), Hashed(db, rows))
  {
    var lines := Hashed(db, rows);
    forall a, b | a in lines && b in lines && !Precedes(c, a, b) && !Precedes(c, b, a) ensures a == b {
      var i :| 0 <= i < |rows| && lines[i] == a;
      var j :| 0 <= j < |rows| && lines[j] == b;
      NeitherPrecedes(c, a, b);
      assert rows[i] in multiset(rows) && rows[j] in multiset(rows);
      assert !TiedRows(db, rows[i], rows[j]);
    }
  }

  /** Indexes that show the same hash the same lines, and, unless two roots are tied, in the same order. */
  lemma SameSurfaceSameHash(db: Db, other: Db, c: Collation, rows: seq<RowId>, others: seq<RowId>)
    requires Inv(db) && Inv(other) && SameSurface(db, other) && Lawful(c)
    requires Delivered(db, c, rows) && Delivered(other, c, others)
    ensures multiset(Hashed(db, rows)) == multiset(Hashed(other, others)) && |rows| == |others|
    ensures !Tied(db) ==> Hashed(db, rows) == Hashed(other, others)
  {
    SameLines(db, other, c, rows, others);
    if !Tied(db) {
      OrdersAreWeak(db, c);
      DeliveredIsSorted(db, c, rows);
      DeliveredIsSorted(other, c, others);
      UntiedHasNoTies(db, c, rows);
      SortedIsUnique(LineOrder(c), Hashed(db, rows), Hashed(other, others));
    }
  }

  // ------------------------------------------------- when it is determined

  lemma {:induction false} ListOf(ids: set<RowId>) returns (rows: seq<RowId>)
    ensures multiset(rows) == multiset(ids)
    decreases ids
  {
    if ids == {} {
      rows := [];
    } else {
      var k :| k in ids;
      var rest := ListOf(ids - {k});
      rows := rest + [k];
      assert multiset(ids) == multiset(ids - {k}) + multiset{k};
    }
  }

  lemma SomeDelivery(db: Db, c: Collation) returns (rows: seq<RowId>)
    requires Lawful(c)
    ensures Delivered(db, c, rows)
  {
    var list := ListOf(Joined(db));
    OrdersAreWeak(db, c);
    ArrangedIsSorted(RowOrder(db, c), list);
    rows := Arranged(RowOrder(db, c), list);
  }

  /** Tied rows may come in either order. */
  lemma SwappedDelivery(db: Db, c: Collation, rows: seq<RowId>, i: nat, j: nat)
    requires Delivered(db, c, rows) && i < |rows| && j < |rows| && TiedRows(db, rows[i], rows[j])
    ensures Delivered(db, c, rows[i := rows[j]][j := rows[i]])
  {
    var more := rows[i := rows[j]][j := rows[i]];
    forall x, y {:trigger RowOrder(db, c)(more[y], more[x])} | 0 <= x < y < |more|
      ensures !RowOrder(db, c)(more[y], more[x])
    {
      assert !RowOrder(db, c)(rows[y], rows[x]);
    }
  }

  /** Whatever order the query delivers its rows in, the same sequence is hashed. */
  ghost predicate Determined(db: Db, c: Collation) {
    forall rows, others :: Delivered(db, c, rows) && Delivered(db, c, others) ==> Hashed(db, rows) == Hashed(db, others)
  }

  lemma TiedIsUndetermined(db: Db, c: Collation, k: RowId, l: RowId)
    requires Lawful(c) && TiedRows(db, k, l)
    ensures !Determined(db, c)
  {
    var rows := SomeDelivery(db, c);
    assert k in multiset(rows) && l in multiset(rows);
    var i :| 0 <= i < |rows| && rows[i] == k;
    var j :| 0 <= j < |rows| && rows[j] == l;
    SwappedDelivery(db, c, rows, i, j);
    SwappedDiffers(db, c, rows, rows[i := l][j := k], i);
  }

  lemma SwappedDiffers(db: Db, c: Collation, rows: seq<RowId>, others: seq<RowId>, i: nat)
    requires Delivered(db, c, rows) && Delivered(db, c, others) && i < |rows| == |others|
    requires LineAt(db, rows[i]) != LineAt(db, others[i])
    ensures !Determined(db, c)
  {
    assert Hashed(db, rows)[i] == LineAt(db, rows[i]) && Hashed(db, others)[i] == LineAt(db, others[i]);
  }

  /**
   The hashed sequence, and with it the fingerprint, is determined by the index if
   and only if no two roots are tied.
   */
  lemma FingerprintDeterminedExactly(db: Db, c: Collation)
    requires Inv(db) && Lawful(c)
    ensures Determined(db, c) <==> !Tied(db)
  {
    if Tied(db) {
      var k, l :| TiedRows(db, k, l);
      TiedIsUndetermined(db, c, k, l);
    } else {
      forall rows, others | Delivered(db, c, rows) && Delivered(db, c, others)
        ensures Hashed(db, rows) == Hashed(db, others) {
        SameSurfaceSameHash(db, db, c, rows, others);
      }
    }
  }
}
