/** The portable snapshot of snapshot.rs: payload, manifest, and the two validators an import runs. */
module SnapshotFormat {
  import opened Prelude
  import opened Catalog

  /** A root id in printed form. */
  type RootName = string

  datatype FileKind = Markdown | PlainText | OtherKind(name: string)

  datatype PayloadSource = PayloadSource(root: RootName, path: Path, kind: FileKind, current: Option<RevisionId>,
                                         state: SourceState)
  datatype PayloadFts = PayloadFts(text: string, segment: SegmentId, revision: RevisionId, source: SourceId,
                                   root: RootName, path: Path, anchor: string)

  /** The tables of payload.sqlite3; the full-text rows in insertion order. */
  datatype Payload = Payload(roots: map<RootName, string>,
                             sources: map<SourceId, PayloadSource>,
                             revisions: map<RevisionId, RevisionRow>,
                             segments: map<SegmentId, SegmentRow>,
                             fts: seq<PayloadFts>)

  /** What a file holds: a readable payload, or anything SQLite's integrity check refuses. */
  datatype Content = Database(payload: Payload) | Damaged(bytes: Bytes)

  datatype Descriptor = Descriptor(id: RootName, name: string, sourceCount: int, segmentCount: int)
  datatype Counts = Counts(sources: int, revisions: int, segments: int, ftsRows: int)

  /** MANIFEST.json; the checksum stands for the content it was taken of. */
  datatype Manifest = Manifest(version: int, schemaMin: int, schemaMax: int, checksum: Content, roots: seq<Descriptor>,
                               counts: Counts, embeddingSpaces: seq<string>, capabilities: seq<string>)

  const FORMAT_VERSION := 1
  const MAX_ROWS := 1_000_000

  // ----------------------------------------------------------- manifest check

  predicate KnownCapability(c: string) {
    c == "lexical_fts5" || c == "read_only_retrieval" || c == "markdown" || c == "plain_text"
  }

  predicate SchemaOk(m: Manifest) {
    && m.version == FORMAT_VERSION
    && 0 <= m.schemaMin <= m.schemaMax
    && m.schemaMin <= 4 && m.schemaMax >= 2
    && m.embeddingSpaces == []
  }

  predicate CountsOk(c: Counts) {
    && c.sources >= 0 && c.revisions >= 0
    && 0 <= c.segments <= MAX_ROWS && 0 <= c.ftsRows <= MAX_ROWS
  }

  predicate DescriptorOk(d: Descriptor) {
    d.id != "" && d.sourceCount >= 0 && d.segmentCount >= 0
  }

  predicate SameRoot(a: Descriptor, b: Descriptor) {
    a.id == b.id
  }

  ghost predicate RootsDistinct(roots: seq<Descriptor>) {
    forall i, j {:trigger SameRoot(roots[i], roots[j])} :: 0 <= i < j < |roots| ==> !SameRoot(roots[i], roots[j])
  }

  ghost predicate ManifestOk(m: Manifest) {
    && SchemaOk(m)
    && (forall i :: 0 <= i < |m.capabilities| ==> KnownCapability(m.capabilities[i]))
    && (forall i :: 0 <= i < |m.roots| ==> DescriptorOk(m.roots[i]))
    && RootsDistinct(m.roots)
    && CountsOk(m.counts)
  }

  function RootNames(roots: seq<Descriptor>, n: nat): set<RootName>
    requires n <= |roots|
  {
    set i | 0 <= i < n :: roots[i].id
  }

  /** The loop over the declared roots, with its `seen_roots` set. */
  method ValidateRoots(roots: seq<Descriptor>) returns (ok: bool)
    ensures ok <==> (forall i :: 0 <= i < |roots| ==> DescriptorOk(roots[i])) && RootsDistinct(roots)
  {
    var seen: set<RootName> := {};
    for i := 0 to |roots|
      invariant seen == RootNames(roots, i)
      invariant forall j :: 0 <= j < i ==> DescriptorOk(roots[j])
      invariant forall a, b {:trigger SameRoot(roots[a], roots[b])} :: 0 <= a < b < i ==> !SameRoot(roots[a], roots[b])
    {
      var root := roots[i];
      if root.id in seen {
        var j :| 0 <= j < i && roots[j].id == root.id;
        assert SameRoot(roots[j], roots[i]);
        return false;
      }
      if root.id == "" || root.sourceCount < 0 || root.segmentCount < 0 {
        return false;
      }
      seen := seen + {root.id};
    }
    ok := true;
  }

  /** `validate_manifest_compatibility`. */
  method ValidateManifest(m: Manifest) returns (ok: bool)
    ensures ok <==> ManifestOk(m)
  {
    if m.version != FORMAT_VERSION || m.schemaMin < 0 || m.schemaMax < 0 || m.schemaMin > m.schemaMax
       || m.schemaMin > 4 || m.schemaMax < 2 || m.embeddingSpaces != []
    {
      return false;
    }
    for i := 0 to |m.capabilities|
      invariant forall j :: 0 <= j < i ==> KnownCapability(m.capabilities[j])
    {
      if !KnownCapability(m.capabilities[i]) {
        return false;
      }
    }
    var roots := ValidateRoots(m.roots);
    ok := roots && CountsOk(m.counts);
  }

  // ------------------------------------------------------------ payload check

  /** A component `..` between separators. */
  predicate ParentDirAt(p: Path, i: nat) {
    && i + 2 <= |p| && p[i] == '.' && p[i + 1] == '.'
    && (i == 0 || p[i - 1] == '/')
    && (i + 2 == |p| || p[i + 2] == '/')
  }

  /** Neither absolute nor empty, and no component climbs. */
  predicate SafePath(p: Path) {
    p != "" && p[0] != '/' && forall i :: 0 <= i < |p| ==> !ParentDirAt(p, i)
  }

  predicate SupportedKind(k: FileKind) {
    k.Markdown? || k.PlainText?
  }

  ghost predicate CountsMatch(p: Payload, c: Counts) {
    c.segments == |p.segments| && c.ftsRows == |p.fts| && c.sources == |p.sources| && c.revisions == |p.revisions|
  }

  predicate SourcePointsHome(p: Payload, s: PayloadSource) {
    s.state == Active ==> s.current.Some? && s.current.value in p.revisions
  }

  predicate SourceRowOk(m: Manifest, s: PayloadSource) {
    s.root in RootNames(m.roots, |m.roots|) && SafePath(s.path) && SupportedKind(s.kind)
  }

  ghost predicate PayloadOk(content: Content, m: Manifest) {
    && content.Database?
    && var p := content.payload;
    && CountsMatch(p, m.counts)
    && (forall s :: s in p.sources ==> SourcePointsHome(p, p.sources[s]))
    && (forall g :: g in p.segments ==> p.segments[g].revision in p.revisions)
    && (forall i :: 0 <= i < |p.fts| ==> p.fts[i].segment in p.segments)
    && (forall s :: s in p.sources ==> SourceRowOk(m, p.sources[s]))
  }

  /** The loop over the payload's source rows. */
  method ValidateSourceRows(sources: map<SourceId, PayloadSource>, m: Manifest) returns (ok: bool)
    ensures ok <==> forall s :: s in sources ==> SourceRowOk(m, sources[s])
  {
    var todo := sources.Keys;
    while todo != {}
      invariant todo <= sources.Keys
      invariant forall s :: s in sources && s !in todo ==> SourceRowOk(m, sources[s])
    {
      var s :| s in todo;
      if !SourceRowOk(m, sources[s]) {
        return false;
      }
      todo := todo - {s};
    }
    ok := true;
  }

  /** `validate_payload_database`. */
  method ValidatePayload(content: Content, m: Manifest) returns (ok: bool)
    ensures ok <==> PayloadOk(content, m)
  {
    if content.Damaged? {
      return false;
    }
    var p := content.payload;
    if |p.segments| != m.counts.segments || |p.fts| != m.counts.ftsRows
       || |p.sources| != m.counts.sources || |p.revisions| != m.counts.revisions
    {
      return false;
    }
    // Three counting queries: each asks whether any row breaks its rule.
    if exists s :: s in p.sources && !SourcePointsHome(p, p.sources[s]) {
      return false;
    }
    if exists g :: g in p.segments && p.segments[g].revision !in p.revisions {
      return false;
    }
    if exists i :: 0 <= i < |p.fts| && p.fts[i].segment !in p.segments {
      return false;
    }
    ok := ValidateSourceRows(p.sources, m);
  }
}
