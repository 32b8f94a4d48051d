/**
 The embedding tables as embedding_sync.rs changes them, statement by statement,
 and the synchronisation loop, each tied to its function on the tables.
 */
module EmbeddingStore {
  import opened Prelude
  import opened EmbeddingTables
  import opened EmbeddingSync
  import opened EmbeddingTheorems

  /** A row of the `active_segments` query. */
  datatype ActiveSegment = ActiveSegment(id: SegmentId, revision: RevisionId, hash: TextHash)

  /** The segments with this hash, in query order. */
  function RefsOf(segments: seq<ActiveSegment>, n: nat, hash: TextHash): seq<Ref>
    requires n <= |segments|
  {
    if n == 0 then []
    else
      var s := segments[n - 1];
      RefsOf(segments, n - 1, hash) + if s.hash == hash then [Ref(s.id, s.revision)] else []
  }

  ghost predicate HasHash(groups: seq<Group>, hash: TextHash) {
    exists i :: 0 <= i < |groups| && groups[i].hash == hash
  }

  /** The map `by_hash` over the first `n` segments, as a list of its entries. */
  ghost predicate Grouping(groups: seq<Group>, segments: seq<ActiveSegment>, n: nat)
    requires n <= |segments|
  {
    && DistinctHashes(groups)
    && (forall i :: 0 <= i < |groups| ==> groups[i].refs == RefsOf(segments, n, groups[i].hash) && groups[i].refs != [])
    && (forall j :: 0 <= j < n ==> HasHash(groups, segments[j].hash))
  }

  ghost predicate SegmentsFit(t: Tables, segments: seq<ActiveSegment>) {
    forall j :: 0 <= j < |segments| ==>
      segments[j].id in t.segments
          && t.segments[segments[j].id] == StoredSegment(segments[j].revision, segments[j].hash)
  }

  lemma {:induction false} RefsFit(t: Tables, segments: seq<ActiveSegment>, n: nat, hash: TextHash)
    requires n <= |segments| && SegmentsFit(t, segments)
    ensures GroupFits(t, Group(hash, RefsOf(segments, n, hash)))
  {
    if n > 0 {
      RefsFit(t, segments, n - 1, hash);
      assert Group(hash, RefsOf(segments, n - 1, hash)).refs == RefsOf(segments, n - 1, hash);
    }
  }

  lemma GroupingFits(t: Tables, groups: seq<Group>, segments: seq<ActiveSegment>)
    requires Grouping(groups, segments, |segments|) && SegmentsFit(t, segments)
    ensures AllFit(t, groups)
  {
    forall i | 0 <= i < |groups| ensures GroupFits(t, groups[i]) {
      RefsFit(t, segments, |segments|, groups[i].hash);
      assert groups[i] == Group(groups[i].hash, RefsOf(segments, |segments|, groups[i].hash));
    }
  }

  /** How many of the first `n` segments fall in the first `m` groups. */
  ghost function Covered(groups: seq<Group>, m: nat, segments: seq<ActiveSegment>, n: nat): nat
    requires m <= |groups| && n <= |segments|
  {
    if m == 0 then 0 else Covered(groups, m - 1, segments, n) + |RefsOf(segments, n, groups[m - 1].hash)|
  }

  lemma {:induction false} CoveredGrows(groups: seq<Group>, m: nat, segments: seq<ActiveSegment>, n: nat)
    requires m <= |groups| && 0 < n <= |segments| && DistinctHashes(groups)
    ensures Covered(groups, m, segments, n) == Covered(groups, m, segments, n - 1)
            + if exists i :: 0 <= i < m && groups[i].hash == segments[n - 1].hash then 1 else 0
  {
    if m > 0 {
      CoveredGrows(groups, m - 1, segments, n);
      if groups[m - 1].hash == segments[n - 1].hash {
        forall i | 0 <= i < m - 1 ensures groups[i].hash != segments[n - 1].hash {
          assert OtherHash(groups[i], groups[m - 1]);
        }
      }
    }
  }

  lemma {:induction false} CoveredNothing(groups: seq<Group>, m: nat, segments: seq<ActiveSegment>)
    requires m <= |groups|
    ensures Covered(groups, m, segments, 0) == 0
  {
    if m > 0 {
      CoveredNothing(groups, m - 1, segments);
    }
  }

  lemma {:induction false} CoveredAll(groups: seq<Group>, segments: seq<ActiveSegment>, n: nat)
    requires n <= |segments| && DistinctHashes(groups)
    requires forall j :: 0 <= j < n ==> HasHash(groups, segments[j].hash)
    ensures Covered(groups, |groups|, segments, n) == n
  {
    if n == 0 {
      CoveredNothing(groups, |groups|, segments);
    } else {
      CoveredAll(groups, segments, n - 1);
      CoveredGrows(groups, |groups|, segments, n);
      assert HasHash(groups, segments[n - 1].hash);
    }
  }

  lemma {:induction false} CoveredIsSize(groups: seq<Group>, m: nat, segments: seq<ActiveSegment>)
    requires m <= |groups| && forall i :: 0 <= i < |groups| ==>
             groups[i].refs == RefsOf(segments, |segments|, groups[i].hash)
    ensures Size(groups, m) == Covered(groups, m, segments, |segments|)
  {
    if m > 0 {
      CoveredIsSize(groups, m - 1, segments);
    }
  }

  /** Grouping loses and repeats no segment. */
  lemma GroupingSize(groups: seq<Group>, segments: seq<ActiveSegment>)
    requires Grouping(groups, segments, |segments|)
    ensures Size(groups, |groups|) == |segments|
  {
    CoveredAll(groups, segments, |segments|);
    CoveredIsSize(groups, |groups|, segments);
  }

  // ---------------------------------------------------------- the by_hash loop

  /** The map's entry for one hash after `n` segments. */
  ghost predicate EntryIs(byHash: map<TextHash, seq<Ref>>, segments: seq<ActiveSegment>, n: nat, h: TextHash)
    requires n <= |segments|
  {
    && RefsOf(segments, n, h) == (if h in byHash then byHash[h] else [])
    && (h in byHash ==> byHash[h] != [])
  }

  ghost predicate KeysAre(byHash: map<TextHash, seq<Ref>>, segments: seq<ActiveSegment>, n: nat)
    requires n <= |segments|
  {
    && (forall h :: EntryIs(byHash, segments, n, h))
    && (forall j :: 0 <= j < n ==> segments[j].hash in byHash)
  }

  lemma KeysStart(segments: seq<ActiveSegment>)
    ensures KeysAre(map[], segments, 0)
  {
  }

  lemma EntryGrows(byHash: map<TextHash, seq<Ref>>, segments: seq<ActiveSegment>, n: nat, refs: seq<Ref>, h: TextHash)
    requires n < |segments| && EntryIs(byHash, segments, n, h)
    requires refs == if segments[n].hash in byHash then byHash[segments[n].hash] else []
    ensures EntryIs(byHash[segments[n].hash := refs + [Ref(segments[n].id, segments[n].revision)]], segments, n + 1, h)
  {
  }

  lemma KeysGrow(byHash: map<TextHash, seq<Ref>>, segments: seq<ActiveSegment>, n: nat, refs: seq<Ref>)
    requires n < |segments| && KeysAre(byHash, segments, n)
    requires refs == if segments[n].hash in byHash then byHash[segments[n].hash] else []
    ensures KeysAre(byHash[segments[n].hash := refs + [Ref(segments[n].id, segments[n].revision)]], segments, n + 1)
  {
    var more := byHash[segments[n].hash := refs + [Ref(segments[n].id, segments[n].revision)]];
    var m := n + 1;
    forall h ensures EntryIs(more, segments, m, h) {
      EntryGrows(byHash, segments, n, refs, h);
    }
  }

  /** Grouping by text hash; the entries come out in some order of the keys. */
  method GroupByHash(segments: seq<ActiveSegment>) returns (groups: seq<Group>)
    ensures Grouping(groups, segments, |segments|)
  {
    var byHash: map<TextHash, seq<Ref>> := map[];
    var j := 0;
    KeysStart(segments);
    while j < |segments|
      invariant 0 <= j <= |segments| && KeysAre(byHash, segments, j)
    {
      var s := segments[j];
      var refs := if s.hash in byHash then byHash[s.hash] else [];
      KeysGrow(byHash, segments, j, refs);
      byHash := byHash[s.hash := refs + [Ref(s.id, s.revision)]];
      j := j + 1;
    }
    groups := ListEntries(byHash);
    EntriesAreGrouping(byHash, groups, segments);
  }

  lemma EntriesAreGrouping(byHash: map<TextHash, seq<Ref>>, groups: seq<Group>, segments: seq<ActiveSegment>)
    requires KeysAre(byHash, segments, |segments|) && DistinctHashes(groups)
    requires forall i :: 0 <= i < |groups| ==> groups[i].hash in byHash && groups[i].refs == byHash[groups[i].hash]
    requires forall h :: h in byHash ==> HasHash(groups, h)
    ensures Grouping(groups, segments, |segments|)
  {
    forall i | 0 <= i < |groups|
      ensures groups[i].refs == RefsOf(segments, |segments|, groups[i].hash) && groups[i].refs != []
    {
      assert EntryIs(byHash, segments, |segments|, groups[i].hash);
    }
  }

  method ListEntries(byHash: map<TextHash, seq<Ref>>) returns (groups: seq<Group>)
    ensures DistinctHashes(groups)
    ensures forall i :: 0 <= i < |groups| ==> groups[i].hash in byHash && groups[i].refs == byHash[groups[i].hash]
    ensures forall h :: h in byHash ==> HasHash(groups, h)
  {
    var keys := byHash.Keys;
    var todo := keys;
    groups := [];
    while todo != {}
      invariant todo <= keys
      invariant DistinctHashes(groups)
      invariant forall i :: 0 <= i < |groups| ==>
                  groups[i].hash in byHash && groups[i].hash !in todo && groups[i].refs == byHash[groups[i].hash]
      invariant forall h :: h in keys - todo ==> HasHash(groups, h)
    {
      var h :| h in todo;
      ListGrows(groups, Group(h, byHash[h]));
      groups := groups + [Group(h, byHash[h])];
      todo := todo - {h};
    }
  }

  lemma ListGrows(groups: seq<Group>, g: Group)
    requires DistinctHashes(groups) && forall i :: 0 <= i < |groups| ==> groups[i].hash != g.hash
    ensures DistinctHashes(groups + [g]) && HasHash(groups + [g], g.hash)
    ensures forall h :: HasHash(groups, h) ==> HasHash(groups + [g], h)
  {
    var more := groups + [g];
    assert more[|groups|].hash == g.hash;
    forall i, j | 0 <= i < j < |more| ensures OtherHash(more[i], more[j]) {
      if j < |groups| {
        assert OtherHash(groups[i], groups[j]);
      }
    }
    forall h | HasHash(groups, h) ensures HasHash(more, h) {
      var i :| 0 <= i < |groups| && groups[i].hash == h;
      assert more[i].hash == h;
    }
  }

  lemma StopsOrContinues(p: Progress, rest: seq<Group>, call: nat, model: Model, provider: Provider, batch: nat,
                         arith: Arithmetic)
    requires batch > 0 && rest != []
    ensures var n := ChunkSize(rest, batch);
            EmbedAll(p, rest, call, model, provider, batch, arith)
            == match EmbedChunk(p, rest[..n], rest, call, model, provider, arith)
               case Continue(q) => EmbedAll(q, rest[n..], call + 1, model, provider, batch, arith)
               case Stop(q) => Stop(q)
               case Abort(t) => Abort(t)
  {
  }

  /** Counters a run keeps beside the tables. */
  datatype Counters = Counters(space: Option<Space>, linked: nat, failed: nat, hits: nat, inputs: nat,
                               sent: seq<TextHash>, error: Option<ErrorKind>)

  function Together(t: Tables, c: Counters): Progress {
    Progress(t, c.space, c.linked, c.failed, c.hits, c.inputs, c.sent, c.error)
  }

  class Store {
    var segments: map<SegmentId, StoredSegment>
    var spaces: set<Space>
    var active: Option<Space>
    var vectors: map<(Space, TextHash), Cell>
    var links: map<(SegmentId, Space), Link>
    var failures: map<(SegmentId, Space), nat>

    ghost function View(): Tables
      reads this
    {
      Tables(segments, spaces, active, vectors, links, failures)
    }

    constructor ()
      ensures View() == Tables(map[], {}, None, map[], map[], map[])
    {
      segments, spaces, active, vectors, links, failures := map[], {}, None, map[], map[], map[];
    }

    /** `persist_space` and `set_active_space`. */
    method Activate(space: Space) returns (ok: bool)
      modifies this
      ensures var done := ActivateSpace(old(View()), space);
              ok == done.Some? && View() == (if ok then done.value else old(View()))
    {
      var known := if ValidDimensions(space.dimensions) then spaces + {space} else spaces;
      if space !in known {
        return false;
      }
      spaces, active := known, Some(space);
      ok := true;
    }

    /** `link_refs`, one transaction. */
    method LinkGroup(space: Space, hash: TextHash, refs: seq<Ref>)
      modifies this
      ensures View() == LinkRefs(old(View()), space, hash, refs, |refs|)
    {
      var i := 0;
      while i < |refs|
        invariant 0 <= i <= |refs|
        invariant View() == LinkRefs(old(View()), space, hash, refs, i)
      {
        links := links[(refs[i].id, space) := Link(refs[i].revision, hash)];
        failures := failures - {(refs[i].id, space)};
        i := i + 1;
      }
    }

    method FailGroup(space: Space, refs: seq<Ref>)
      modifies this
      ensures View() == FailRefs(old(View()), space, refs, |refs|)
    {
      var i := 0;
      while i < |refs|
        invariant 0 <= i <= |refs|
        invariant View() == FailRefs(old(View()), space, refs, i)
      {
        var key := (refs[i].id, space);
        if key in failures {
          var more := failures[key] + 1;
          failures := failures[key := if more <= MAX_RETRIES then more else MAX_RETRIES];
        } else {
          failures := failures[key := 1];
        }
        i := i + 1;
      }
    }

    /** `record_failures`, one transaction. */
    method RecordFailures(space: Space, groups: seq<Group>)
      modifies this
      ensures View() == FailGroups(old(View()), space, groups, |groups|)
    {
      var i := 0;
      while i < |groups|
        invariant 0 <= i <= |groups|
        invariant View() == FailGroups(old(View()), space, groups, i)
      {
        FailGroup(space, groups[i].refs);
        i := i + 1;
      }
    }

    method DropCorrupt(space: Space, hash: TextHash)
      modifies this
      ensures View() == DropVector(old(View()), space, hash)
    {
      vectors := vectors - {(space, hash)};
      links := map k | k in links && !(k.1 == space && links[k].hash == hash) :: links[k];
    }

    /** The transaction that stores and links an accepted batch. */
    method StoreChunk(space: Space, chunk: seq<Group>, bytes: seq<Encoded>)
      requires |bytes| == |chunk|
      modifies this
      ensures View() == StoreGroups(old(View()), space, chunk, bytes, |chunk|)
    {
      var i := 0;
      while i < |chunk|
        invariant 0 <= i <= |chunk|
        invariant View() == StoreGroups(old(View()), space, chunk, bytes, i)
      {
        vectors := vectors[(space, chunk[i].hash) := Cell(bytes[i].vectorBytes, space.dimensions, bytes[i].madeBy)];
        LinkGroup(space, chunk[i].hash, chunk[i].refs);
        i := i + 1;
      }
    }

    /** One group of the cache pass. */
    method ScanGroup(c: Counters, g: Group, arith: Arithmetic) returns (d: Counters, left: seq<Group>)
      modifies this
      ensures (Together(View(), d), left) == ScanOne(Together(old(View()), c), g, arith)
    {
      d, left := c, [];
      if c.space.None? {
        return c, [g];
      }
      var read := LoadCache(Tables(segments, spaces, active, vectors, links, failures), c.space.value, g.hash, arith);
      if read == Hit {
        LinkGroup(c.space.value, g.hash, g.refs);
        d := c.(hits := c.hits + |g.refs|, linked := c.linked + |g.refs|);
      } else if read == Miss {
        left := [g];
      } else {
        DropCorrupt(c.space.value, g.hash);
        FailGroup(c.space.value, g.refs);
        d := c.(failed := c.failed + |g.refs|, error := FirstError(c.error, CacheCorrupt));
      }
    }

    /** The loop over `by_hash`. */
    method ScanGroups(c: Counters, groups: seq<Group>, arith: Arithmetic) returns (d: Counters, pending: seq<Group>)
      modifies this
      ensures (Together(View(), d), pending) == ScanCache(Together(old(View()), c), groups, |groups|, arith)
    {
      d, pending := c, [];
      var i := 0;
      while i < |groups|
        invariant 0 <= i <= |groups|
        invariant (Together(View(), d), pending) == ScanCache(Together(old(View()), c), groups, i, arith)
      {
        var left;
        d, left := ScanGroup(d, groups[i], arith);
        pending := pending + left;
        i := i + 1;
      }
    }

    method CountFailures(c: Counters, groups: seq<Group>, e: ErrorKind) returns (d: Counters)
      modifies this
      ensures Together(View(), d) == FailPending(Together(old(View()), c), groups, e)
    {
      if c.space.Some? {
        RecordFailures(c.space.value, groups);
      }
      d := c.(failed := c.failed + Size(groups, |groups|), error := FirstError(c.error, e));
    }

    /** An accepted batch; `aborted` is a storage error that ends the run. */
    method StoreAccepted(c: Counters, chunk: seq<Group>, accepted: seq<seq<Component>>, model: Model, arith: Arithmetic)
      returns (d: Counters, aborted: bool)
      requires |accepted| == |chunk| > 0
      modifies this
      ensures StoreBatch(Together(old(View()), c), chunk, accepted, model, arith)
              == if aborted then Abort(View()) else Continue(Together(View(), d))
    {
      d := c;
      var space := if c.space.Some? then c.space.value else Space(model, |accepted[0]|);
      if c.space.None? {
        var ok := Activate(space);
        if !ok {
          return c, true;
        }
      }
      var bytes := EncodeAll(accepted, |accepted|, space.dimensions, model, arith);
      if bytes.None? {
        return c, true;
      }
      StoreChunk(space, chunk, bytes.value);
      d := c.(space := Some(space), linked := c.linked + Size(chunk, |chunk|));
      aborted := false;
    }

    /** One chunk of the provider pass. */
    method EmbedOne(c: Counters, chunk: seq<Group>, rest: seq<Group>, call: nat, model: Model, provider: Provider,
                    arith: Arithmetic)
      returns (d: Counters, stopped: bool, aborted: bool)
      requires |chunk| > 0
      modifies this
      ensures EmbedChunk(Together(old(View()), c), chunk, rest, call, model, provider, arith)
              == if aborted then Abort(View())
                 else if stopped then Stop(Together(View(), d)) else Continue(Together(View(), d))
    {
      stopped, aborted := false, false;
      d := c.(inputs := c.inputs + |chunk|, sent := c.sent + Hashes(chunk));
      var answer := provider(model, call, Hashes(chunk));
      if answer.Refused? {
        stopped := Systemic(answer.error);
        d := CountFailures(d, if stopped then rest else chunk, answer.error);
        return;
      }
      var expected := if d.space.Some? then Some(d.space.value.dimensions) else None;
      var checked := ValidateBatch(answer.batch, |chunk|, expected, arith);
      if checked.Rejected? {
        d := CountFailures(d, chunk, checked.error);
      } else {
        d, aborted := StoreAccepted(d, chunk, checked.vectors, model, arith);
      }
    }

    /** The chunk loop. */
    method EmbedPending(c: Counters, pending: seq<Group>, model: Model, provider: Provider, batch: nat,
                        arith: Arithmetic)
      returns (d: Counters, aborted: bool)
      requires batch > 0
      modifies this
      ensures match EmbedAll(Together(old(View()), c), pending, 0, model, provider, batch, arith)
              case Abort(t) => aborted && View() == t
              case Continue(p) => !aborted && Together(View(), d) == p
              case Stop(p) => !aborted && Together(View(), d) == p
    {
      ghost var goal := EmbedAll(Together(View(), c), pending, 0, model, provider, batch, arith);
      var rest, call := pending, 0;
      d, aborted := c, false;
      while rest != []
        invariant !aborted && EmbedAll(Together(View(), d), rest, call, model, provider, batch, arith) == goal
        decreases |rest|
      {
        StopsOrContinues(Together(View(), d), rest, call, model, provider, batch, arith);
        var n := ChunkSize(rest, batch);
        var stopped;
        d, stopped, aborted := EmbedOne(d, rest[..n], rest, call, model, provider, arith);
        if aborted || stopped {
          return;
        }
        rest, call := rest[n..], call + 1;
      }
    }

    /** `synchronize_with_provider`, given the rows of its two queries. */
    method SynchronizeWithProvider(rows: seq<ActiveSegment>, resolution: Resolution, existing: Option<nat>,
                                   provider: Provider, batch: nat, arith: Arithmetic)
      returns (report: Option<Report>, sent: seq<TextHash>, ghost groups: seq<Group>)
      requires batch > 0 && Inv(View()) && SegmentsFit(View(), rows)
      requires resolution.Resolved? ==> ExistingDimensions(View(), resolution.model, existing)
      modifies this
      ensures Inv(View())
      ensures Grouping(groups, rows, |rows|)
      ensures Synchronize(old(View()), groups, resolution, existing, provider, batch, arith)
              == if report.Some? then Reported(View(), report.value, sent) else StorageFailed(View())
      ensures resolution.Resolved? && report.Some? ==>
                && report.value.linked + report.value.failed == report.value.active == |rows|
                && report.value.missing == report.value.failed
                && (report.value.status == Complete <==> report.value.failed == 0)
                && Distinct(sent) && active == report.value.space
                && (active.Some? ==> active.value.model == resolution.model)
      ensures resolution.Resolved? && report.None? ==>
                var start := StartDimensions(resolution.dimensions, existing);
                if start.None? || ValidDimensions(start.value)
                then ActiveIsOf(View(), resolution.model)
                else View() == old(View())
    {
      var byHash := GroupByHash(rows);
      groups := byHash;
      GroupingFits(View(), byHash, rows);
      GroupingSize(byHash, rows);
      ghost var before := View();
      if resolution.Resolved? {
        SynchronizeKeeps(before, byHash, resolution, existing, provider, batch, arith);
      }
      report, sent := RunGroups(byHash, |rows|, resolution, existing, provider, batch, arith);
    }

    method RunGroups(groups: seq<Group>, total: nat, resolution: Resolution, existing: Option<nat>, provider: Provider,
                     batch: nat, arith: Arithmetic)
      returns (report: Option<Report>, sent: seq<TextHash>)
      requires batch > 0 && total == Size(groups, |groups|)
      modifies this
      ensures Synchronize(old(View()), groups, resolution, existing, provider, batch, arith)
              == if report.Some? then Reported(View(), report.value, sent) else StorageFailed(View())
    {
      sent := [];
      if resolution.Unresolved? {
        return Some(Report(None, total, 0, 0, 0, total, total, FailedRun, Some(resolution.error))), [];
      }
      var model := resolution.model;
      var start := StartDimensions(resolution.dimensions, existing);
      var space, ok := OpenSpace(model, start);
      if !ok {
        return None, [];
      }
      var c, pending := ScanGroups(Counters(space, 0, 0, 0, 0, [], None), groups, arith);
      var aborted;
      c, aborted := EmbedPending(c, pending, model, provider, batch, arith);
      if aborted {
        return None, [];
      }
      var final := Conclude(c, total);
      report, sent := Some(final), c.sent;
    }

    /** The space a run starts with, if its dimensions are known. */
    method OpenSpace(model: Model, start: Option<nat>) returns (space: Option<Space>, ok: bool)
      modifies this
      ensures space == if start.Some? then Some(Space(model, start.value)) else None
      ensures var begun := if start.Some? then ActivateSpace(old(View()), Space(model, start.value))
                           else Some(old(View()).(active := None));
              ok == begun.Some? && View() == (if ok then begun.value else old(View()))
    {
      space, ok := None, true;
      if start.Some? {
        space := Some(Space(model, start.value));
        ok := Activate(space.value);
      } else {
        active := None;
      }
    }

    /** The active space once more, then the report. */
    method Conclude(c: Counters, total: nat) returns (report: Report)
      modifies this
      ensures Finish(Together(old(View()), c), total) == Reported(View(), report, c.sent)
    {
      if c.space.Some? {
        active := c.space;
      }
      var missing := if total >= c.linked then total - c.linked else 0;
      report := Report(c.space, total, c.hits, c.inputs, c.linked, missing, c.failed,
                       if c.failed == 0 && missing == 0 then Complete else Partial,
                       if c.failed > 0 then (if c.error.Some? then c.error else Some(Failed)) else None);
    }
  }
}
