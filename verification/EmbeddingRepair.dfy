/**
 Which runs complete, and which caches two runs repair: with a provider that answers
 well at one dimension, the exact conditions on the tables and on the dimension a run
 starts with.
 */
module EmbeddingRepair {
  import opened Prelude
  import opened EmbeddingTables
  import opened EmbeddingSync
  import opened EmbeddingTheorems
  import opened EmbeddingHealing
  import opened EmbeddingAccounts

  // ------------------------------------------------ runs that start wrong

  lemma ChunkRefused(p: Progress, pending: seq<Group>, n: nat, call: nat, model: Model, wrong: nat, d: nat,
                     provider: Provider, arith: Arithmetic)
    requires d != wrong && d > 0 && WellBehaved(provider, model, d, arith) && p.space == Some(Space(model, wrong))
    requires 0 < n <= |pending|
    ensures var q := p.(inputs := p.inputs + n, sent := p.sent + Hashes(pending[..n]));
            EmbedChunk(p, pending[..n], pending, call, model, provider, arith)
            == Continue(FailPending(q, pending[..n], DimensionMismatch))
  {
    var r := provider(model, call, Hashes(pending[..n]));
    assert WellAnswered(r, |Hashes(pending[..n])|, d, arith);
    assert GoodVector(r.batch[0], d, arith);
  }

  /** A refused chunk changes failure rows only, and leaves the rest of the queue as it was. */
  ghost predicate ChunkFailed(p: Progress, next: Progress, pending: seq<Group>, n: nat, model: Model)
    requires n <= |pending|
  {
    && RunOk(next, model) && next.space == p.space
    && next.t.vectors == p.t.vectors && next.t.spaces == p.t.spaces && next.t.links == p.t.links
    && AllFit(next.t, pending[n..]) && AllMissing(next.t, next.space, model, pending[n..])
       && DistinctHashes(pending[n..])
    && next.failed + Size(pending[n..], |pending| - n) == p.failed + Size(pending, |pending|)
  }

  lemma ChunkFails(p: Progress, pending: seq<Group>, n: nat, call: nat, model: Model, wrong: nat, d: nat,
                   provider: Provider, arith: Arithmetic)
    requires d != wrong && d > 0 && WellBehaved(provider, model, d, arith) && p.space == Some(Space(model, wrong))
    requires 0 < n <= |pending|
    requires RunOk(p, model) && AllFit(p.t, pending) && AllMissing(p.t, p.space, model, pending)
    requires DistinctHashes(pending)
    ensures var turn := EmbedChunk(p, pending[..n], pending, call, model, provider, arith);
            turn.Continue? && ChunkFailed(p, turn.p, pending, n, model)
  {
    ChunkRefused(p, pending, n, call, model, wrong, d, provider, arith);
    TailOk(p.t, p.space, model, pending, n);
    var q := p.(inputs := p.inputs + n, sent := p.sent + Hashes(pending[..n]));
    FailPendingKeeps(q, pending[..n], DimensionMismatch, model);
    FailGroupsLinks(q.t, q.space.value, pending[..n], n);
    FitsAgain(p.t, FailPending(q, pending[..n], DimensionMismatch).t, pending[n..]);
  }

  /** With another dimension than the provider's recorded for the model, every chunk is refused. */
  lemma {:induction false} PassRefuses(p: Progress, pending: seq<Group>, call: nat, model: Model, wrong: nat, d: nat,
                                       provider: Provider, batch: nat, arith: Arithmetic)
    requires batch > 0 && d != wrong && d > 0 && WellBehaved(provider, model, d, arith)
    requires p.space == Some(Space(model, wrong))
    requires RunOk(p, model) && AllFit(p.t, pending) && AllMissing(p.t, p.space, model, pending)
    requires DistinctHashes(pending)
    ensures PassRefused(p, EmbedAll(p, pending, call, model, provider, batch, arith), pending)
    decreases |pending|
  {
    if pending != [] {
      var n := ChunkSize(pending, batch);
      ChunkFails(p, pending, n, call, model, wrong, d, provider, arith);
      var q := EmbedChunk(p, pending[..n], pending, call, model, provider, arith).p;
      PassRefuses(q, pending[n..], call + 1, model, wrong, d, provider, batch, arith);
    }
  }

  /** A pass fails everything pending and stores nothing. */
  ghost predicate PassRefused(p: Progress, turn: Turn, pending: seq<Group>) {
    && turn.Continue? && turn.p.space == p.space && turn.p.failed == p.failed + Size(pending, |pending|)
    && turn.p.t.vectors == p.t.vectors && turn.p.t.spaces == p.t.spaces && turn.p.t.links == p.t.links
  }

  // ------------------------------------------- runs that start right, or open

  lemma {:induction false} NoneCorrupt(t: Tables, space: Space, groups: seq<Group>, n: nat, arith: Arithmetic)
    requires n <= |groups|
    requires forall i :: 0 <= i < n ==> LoadCache(t, space, groups[i].hash, arith) != Corrupt
    ensures CorruptSize(t, space, groups, n, arith) == 0
  {
    if n > 0 {
      NoneCorrupt(t, space, groups, n - 1, arith);
    }
  }

  /** What a run leaves that started with this space, or, when none was known, established it. */
  ghost predicate RunRepaired(t: Tables, r: SyncResult, space: Space, known: bool, groups: seq<Group>,
                              arith: Arithmetic) {
    && r.Reported?
    && r.report.failed == CorruptSize(t, space, groups, |groups|, arith)
    && (forall i :: 0 <= i < |groups| ==> Repaired(t, r.t, space, groups[i], arith))
    && r.t.spaces == (if known || groups != [] then t.spaces + {space} else t.spaces)
    && (groups != [] ==> r.report.space == Some(space))
  }

  lemma HealsWithSpace(t: Tables, groups: seq<Group>, model: Model, dimensions: Option<nat>, existing: Option<nat>,
                       d: nat, provider: Provider, batch: nat, arith: Arithmetic)
    requires batch > 0 && Sync(t, groups, Resolved(model, dimensions), existing)
    requires ValidDimensions(d) && WellBehaved(provider, model, d, arith)
    requires StartDimensions(dimensions, existing) == Some(d)
    ensures RunRepaired(t, Synchronize(t, groups, Resolved(model, dimensions), existing, provider, batch, arith),
                        Space(model, d), true, groups, arith)
  {
    var space := Space(model, d);
    var begun := ActivateSpace(t, space).value;
    Opening(t, groups, model, dimensions, existing, begun);
    ActivateKeepsInv(t, space, begun);
    PassRepairs(Start(begun, Some(space)), groups, model, d, provider, batch, arith);
    CorruptSame(t, begun, space, groups, |groups|, arith);
    var (scanned, pending) := ScanCache(Start(begun, Some(space)), groups, |groups|, arith);
    var q := EmbedAll(scanned, pending, 0, model, provider, batch, arith).p;
    forall i | 0 <= i < |groups| ensures Repaired(t, q.t.(active := Some(space)), space, groups[i], arith) {
      SameRepaired(t, begun, q.t, space, groups[i], arith);
    }
  }

  lemma SameRepaired(t: Tables, begun: Tables, post: Tables, space: Space, g: Group, arith: Arithmetic)
    requires Repaired(begun, post, space, g, arith) && begun.vectors == t.vectors
    ensures Repaired(t, post.(active := Some(space)), space, g, arith)
  {
  }

  lemma {:induction false} CorruptSame(t: Tables, u: Tables, space: Space, groups: seq<Group>, n: nat,
                                       arith: Arithmetic)
    requires n <= |groups| && u.vectors == t.vectors
    ensures CorruptSize(u, space, groups, n, arith) == CorruptSize(t, space, groups, n, arith)
  {
    if n > 0 {
      CorruptSame(t, u, space, groups, n - 1, arith);
    }
  }

  lemma HealsWithoutSpace(t: Tables, groups: seq<Group>, model: Model, existing: Option<nat>, d: nat,
                          provider: Provider, batch: nat, arith: Arithmetic)
    requires batch > 0 && Sync(t, groups, Resolved(model, None), existing) && existing.None?
    requires ValidDimensions(d) && WellBehaved(provider, model, d, arith)
    ensures RunRepaired(t, Synchronize(t, groups, Resolved(model, None), existing, provider, batch, arith),
                        Space(model, d), false, groups, arith)
  {
    var space := Space(model, d);
    var begun := t.(active := None);
    Opening(t, groups, model, None, existing, begun);
    var p := Start(begun, None);
    ScanWithoutSpace(p, groups, |groups|, arith);
    assert groups[..|groups|] == groups;
    PassHeals(p, groups, 0, model, d, provider, batch, arith);
    UnknownSpaceMisses(t, space, groups, arith);
    NoneCorrupt(t, space, groups, |groups|, arith);
    var q := EmbedAll(p, groups, 0, model, provider, batch, arith).p;
    HealedMeansRepaired(t, begun, q.t, space, groups, arith);
  }

  lemma UnknownSpaceMisses(t: Tables, space: Space, groups: seq<Group>, arith: Arithmetic)
    requires VectorsSound(t) && space !in t.spaces
    ensures forall i :: 0 <= i < |groups| ==> LoadCache(t, space, groups[i].hash, arith) == Miss
  {
  }

  lemma UnknownSpaceCompletes(t: Tables, space: Space, groups: seq<Group>, arith: Arithmetic)
    requires VectorsSound(t) && space !in t.spaces
    ensures CorruptSize(t, space, groups, |groups|, arith) == 0
  {
    UnknownSpaceMisses(t, space, groups, arith);
    NoneCorrupt(t, space, groups, |groups|, arith);
  }

  lemma HealedMeansRepaired(t: Tables, begun: Tables, post: Tables, space: Space, groups: seq<Group>, arith: Arithmetic)
    requires forall i :: 0 <= i < |groups| ==> LoadCache(t, space, groups[i].hash, arith) == Miss
    requires forall i :: 0 <= i < |groups| ==> Settled(post, space, groups[i], arith)
    ensures forall i :: 0 <= i < |groups| ==> Repaired(t, post.(active := Some(space)), space, groups[i], arith)
    ensures forall i :: 0 <= i < |groups| ==> Repaired(t, post, space, groups[i], arith)
  {
    forall i | 0 <= i < |groups|
      ensures Repaired(t, post, space, groups[i], arith)
      ensures Repaired(t, post.(active := Some(space)), space, groups[i], arith)
    {
      assert Settled(post, space, groups[i], arith);
    }
  }

  ghost predicate AllCached(t: Tables, space: Space, groups: seq<Group>, arith: Arithmetic) {
    forall i :: 0 <= i < |groups| ==> LoadCache(t, space, groups[i].hash, arith) == Hit
  }

  lemma {:induction false} ScanAllHits(p: Progress, groups: seq<Group>, n: nat, arith: Arithmetic, model: Model)
    requires RunOk(p, model) && p.space.Some? && AllFit(p.t, groups) && DistinctHashes(groups) && n <= |groups|
    requires AllCached(p.t, p.space.value, groups, arith)
    ensures var (q, pending) := ScanCache(p, groups, n, arith); OnlyHits(p, q, pending, groups, n)
  {
    if n > 0 {
      ScanAllHits(p, groups, n - 1, arith, model);
      var (b, pending) := ScanCache(p, groups, n - 1, arith);
      assert LoadCache(b.t, p.space.value, groups[n - 1].hash, arith) == Hit by {
        ScanReaches(p, groups, n - 1, arith, model);
      }
      HitScanned(p, b, pending, groups, n, arith);
    }
  }

  ghost predicate OnlyHits(p: Progress, q: Progress, pending: seq<Group>, groups: seq<Group>, n: nat)
    requires n <= |groups|
  {
    && pending == [] && q.hits == p.hits + Size(groups, n) && q.linked == p.linked + Size(groups, n)
       && q.failed == p.failed
    && q.sent == p.sent && q.space == p.space
  }

  lemma HitScanned(p: Progress, b: Progress, pending: seq<Group>, groups: seq<Group>, n: nat, arith: Arithmetic)
    requires 0 < n <= |groups| && OnlyHits(p, b, pending, groups, n - 1) && b.space.Some?
    requires LoadCache(b.t, b.space.value, groups[n - 1].hash, arith) == Hit
    ensures var (q, more) := ScanOne(b, groups[n - 1], arith); OnlyHits(p, q, pending + more, groups, n)
  {
  }

  /** A run over a cache that holds everything is pure cache hits, whatever the provider would say. */
  lemma FullCacheIsIdle(t: Tables, groups: seq<Group>, model: Model, dimensions: Option<nat>, existing: Option<nat>,
                        d: nat, provider: Provider, batch: nat, arith: Arithmetic)
    requires batch > 0 && Sync(t, groups, Resolved(model, dimensions), existing) && ValidDimensions(d)
    requires groups != [] ==> StartDimensions(dimensions, existing) == Some(d)
    requires StartDimensions(dimensions, existing).None? || StartDimensions(dimensions, existing) == Some(d)
    requires AllCached(t, Space(model, d), groups, arith)
    ensures var r := Synchronize(t, groups, Resolved(model, dimensions), existing, provider, batch, arith);
            && r.Reported? && r.sent == [] && r.report.hits == Size(groups, |groups|)
            && r.report.linked == Size(groups, |groups|) && r.report.status == Complete
  {
    if StartDimensions(dimensions, existing).Some? {
      var begun := ActivateSpace(t, Space(model, d)).value;
      Opening(t, groups, model, dimensions, existing, begun);
      ScanAllHits(Start(begun, Some(Space(model, d))), groups, |groups|, arith, model);
    }
  }

  lemma {:induction false} SizeIsZero(groups: seq<Group>, n: nat)
    requires n <= |groups|
    ensures Size(groups, n) == 0 <==> forall i :: 0 <= i < n ==> groups[i].refs == []
  {
    if n > 0 {
      SizeIsZero(groups, n - 1);
    }
  }

  lemma {:induction false} CorruptIsZero(t: Tables, space: Space, groups: seq<Group>, n: nat, arith: Arithmetic)
    requires n <= |groups|
    ensures CorruptSize(t, space, groups, n, arith) == 0
            <==> forall i :: 0 <= i < n && LoadCache(t, space, groups[i].hash, arith) == Corrupt ==>
                groups[i].refs == []
  {
    if n > 0 {
      CorruptIsZero(t, space, groups, n - 1, arith);
    }
  }

  /** Every segment's text is cached and decodes. */
  ghost predicate AllHit(t: Tables, space: Space, groups: seq<Group>, arith: Arithmetic) {
    forall i :: 0 <= i < |groups| && groups[i].refs != [] ==> LoadCache(t, space, groups[i].hash, arith) == Hit
  }

  /** No segment's cached vector is damaged. */
  ghost predicate Undamaged(t: Tables, space: Space, groups: seq<Group>, arith: Arithmetic) {
    forall i :: 0 <= i < |groups| && groups[i].refs != [] ==> LoadCache(t, space, groups[i].hash, arith) != Corrupt
  }

  /**
   What a run with a wrong dimension leaves of a group: what was cached is linked,
   nothing else is cached any more.
   */
  ghost predicate OnlyHitsLeft(t: Tables, post: Tables, space: Space, g: Group, arith: Arithmetic) {
    if LoadCache(t, space, g.hash, arith) == Hit then Settled(post, space, g, arith)
    else LoadCache(post, space, g.hash, arith) == Miss
  }

  lemma NothingFailedExactly(p: Progress, q: Progress, pending: seq<Group>, space: Space, groups: seq<Group>,
                             arith: Arithmetic)
    requires ScanSettled(p, q, pending, space, groups, |groups|, arith) && PendingOk(q, pending, groups, |groups|)
    ensures CorruptSize(p.t, space, groups, |groups|, arith) + Size(pending, |pending|) == 0 <==>
            AllHit(p.t, space, groups, arith)
  {
    CorruptIsZero(p.t, space, groups, |groups|, arith);
    SizeIsZero(pending, |pending|);
    forall i | 0 <= i < |pending| && AllHit(p.t, space, groups, arith) ensures pending[i].refs == [] {
      assert Among(pending[i], groups, |groups|);
    }
    if Size(pending, |pending|) == 0 {
      forall i | 0 <= i < |groups| && LoadCache(p.t, space, groups[i].hash, arith) == Miss
        ensures groups[i].refs == [] {
        assert groups[i] in pending;
      }
    }
  }

  lemma WrongPass(p: Progress, groups: seq<Group>, model: Model, wrong: nat, d: nat, provider: Provider, batch: nat,
                  arith: Arithmetic)
    requires batch > 0 && RunOk(p, model) && AllFit(p.t, groups) && DistinctHashes(groups)
    requires p.space == Some(Space(model, wrong))
    requires d != wrong && d > 0 && WellBehaved(provider, model, d, arith)
    ensures var (scanned, pending) := ScanCache(p, groups, |groups|, arith);
            var turn := EmbedAll(scanned, pending, 0, model, provider, batch, arith);
            && turn.Continue? && turn.p.space == p.space && turn.p.t.spaces == p.t.spaces
            && (turn.p.failed == p.failed <==> AllHit(p.t, p.space.value, groups, arith))
            && forall i :: 0 <= i < |groups| ==> OnlyHitsLeft(p.t, turn.p.t, p.space.value, groups[i], arith)
  {
    var space := Space(model, wrong);
    AfterScan(p, groups, model, arith);
    var (q, pending) := ScanCache(p, groups, |groups|, arith);
    PassRefuses(q, pending, 0, model, wrong, d, provider, batch, arith);
    NothingFailedExactly(p, q, pending, space, groups, arith);
    StoredNothing(p, q, pending, groups, space, EmbedAll(q, pending, 0, model, provider, batch, arith).p.t, arith);
  }

  lemma StoredNothing(p: Progress, q: Progress, pending: seq<Group>, groups: seq<Group>, space: Space, post: Tables,
                      arith: Arithmetic)
    requires ScanSettled(p, q, pending, space, groups, |groups|, arith) && post.vectors == q.t.vectors
    requires post.links == q.t.links
    ensures forall i :: 0 <= i < |groups| ==> OnlyHitsLeft(p.t, post, space, groups[i], arith)
  {
    forall i | 0 <= i < |groups| ensures OnlyHitsLeft(p.t, post, space, groups[i], arith) {
      assert Scanned(p.t, q.t, space, groups[i], arith);
    }
  }

  /** A run that starts with a wrong dimension. */
  ghost predicate RunRefused(t: Tables, r: SyncResult, space: Space, groups: seq<Group>, arith: Arithmetic) {
    && r.Reported? && r.report.space == Some(space) && r.t.spaces == t.spaces + {space}
    && (r.report.failed == 0 <==> AllHit(t, space, groups, arith))
    && forall i :: 0 <= i < |groups| ==> OnlyHitsLeft(t, r.t, space, groups[i], arith)
  }

  lemma SameVectorsLeft(t: Tables, begun: Tables, post: Tables, space: Space, g: Group, arith: Arithmetic)
    requires OnlyHitsLeft(begun, post, space, g, arith) && begun.vectors == t.vectors
    ensures OnlyHitsLeft(t, post.(active := Some(space)), space, g, arith)
  {
  }

  lemma WrongRun(t: Tables, groups: seq<Group>, model: Model, dimensions: Option<nat>, existing: Option<nat>,
                 wrong: nat, d: nat, provider: Provider, batch: nat, arith: Arithmetic)
    requires batch > 0 && Sync(t, groups, Resolved(model, dimensions), existing)
    requires StartDimensions(dimensions, existing) == Some(wrong) && ValidDimensions(wrong)
    requires d != wrong && d > 0 && WellBehaved(provider, model, d, arith)
    ensures RunRefused(t, Synchronize(t, groups, Resolved(model, dimensions), existing, provider, batch, arith),
                       Space(model, wrong), groups, arith)
  {
    var space := Space(model, wrong);
    var begun := ActivateSpace(t, space).value;
    Opening(t, groups, model, dimensions, existing, begun);
    ActivateKeepsInv(t, space, begun);
    var p := Start(begun, Some(space));
    WrongPass(p, groups, model, wrong, d, provider, batch, arith);
    var (scanned, pending) := ScanCache(p, groups, |groups|, arith);
    var q := EmbedAll(scanned, pending, 0, model, provider, batch, arith).p;
    forall i | 0 <= i < |groups| ensures OnlyHitsLeft(t, q.t.(active := Some(space)), space, groups[i], arith) {
      SameVectorsLeft(t, begun, q.t, space, groups[i], arith);
    }
  }

  // --------------------------------------------------- when a run completes

  /** Nothing is refused at the start, and no text has to be sent, or all that have to can be stored. */
  ghost predicate Completes(t: Tables, groups: seq<Group>, model: Model, start: Option<nat>, d: nat,
                            arith: Arithmetic) {
    start.Some? ==>
      && ValidDimensions(start.value)
      && (|| AllHit(t, Space(model, start.value), groups, arith)
          || (start.value == d && Undamaged(t, Space(model, d), groups, arith)))
  }

  ghost predicate EndsComplete(r: SyncResult) {
    r.Reported? && r.report.status == Complete
  }

  lemma OutOfRangeFails(t: Tables, groups: seq<Group>, model: Model, dimensions: Option<nat>, existing: Option<nat>,
                        provider: Provider, batch: nat, arith: Arithmetic)
    requires batch > 0 && Sync(t, groups, Resolved(model, dimensions), existing)
    requires StartDimensions(dimensions, existing).Some?
    requires !ValidDimensions(StartDimensions(dimensions, existing).value)
    ensures Synchronize(t, groups, Resolved(model, dimensions), existing, provider, batch, arith) == StorageFailed(t)
    ensures dimensions == StartDimensions(dimensions, existing)
  {
  }

  /**
   With a provider that answers well at dimension `d` a run completes if and only if
   it starts with no dimension; or with `d` and no damaged vector; or with another
   storable dimension under which every segment is cached already.
   */
  lemma RunCompletesExactly(t: Tables, groups: seq<Group>, model: Model, dimensions: Option<nat>, existing: Option<nat>,
                            d: nat, provider: Provider, batch: nat, arith: Arithmetic)
    requires batch > 0 && Sync(t, groups, Resolved(model, dimensions), existing)
    requires ValidDimensions(d) && WellBehaved(provider, model, d, arith)
    ensures EndsComplete(Synchronize(t, groups, Resolved(model, dimensions), existing, provider, batch, arith))
            <==> Completes(t, groups, model, StartDimensions(dimensions, existing), d, arith)
  {
    var start := StartDimensions(dimensions, existing);
    SynchronizeKeeps(t, groups, Resolved(model, dimensions), existing, provider, batch, arith);
    if start.None? {
      HealsWithoutSpace(t, groups, model, existing, d, provider, batch, arith);
      UnknownSpaceCompletes(t, Space(model, d), groups, arith);
    } else if start.value == d {
      HealsWithSpace(t, groups, model, dimensions, existing, d, provider, batch, arith);
      CorruptIsZero(t, Space(model, d), groups, |groups|, arith);
    } else if ValidDimensions(start.value) {
      WrongRun(t, groups, model, dimensions, existing, start.value, d, provider, batch, arith);
    } else {
      OutOfRangeFails(t, groups, model, dimensions, existing, provider, batch, arith);
    }
  }

  // ------------------------------------------------- when two runs repair

  ghost function SpacesOf(t: Tables, model: Model): set<Space> {
    set s | s in t.spaces && s.model == model
  }

  /**
   `find_existing_dimensions` reads the model's spaces, whose rows are never
   updated: asked again over the same spaces it gives the same answer.
   */
  ghost predicate AskedAgain(t: Tables, e: Option<nat>, u: Tables, f: Option<nat>, model: Model) {
    ExistingDimensions(u, model, f) && (SpacesOf(u, model) == SpacesOf(t, model) ==> f == e)
  }

  /** Whatever is damaged, two runs will do: the start leaves the dimension open or right, or everything is cached. */
  ghost predicate Heals(t: Tables, groups: seq<Group>, model: Model, start: Option<nat>, d: nat, arith: Arithmetic) {
    start.Some? ==>
        ValidDimensions(start.value) && (start.value == d || AllHit(t, Space(model, start.value), groups, arith))
  }

  /** The dimension the next run starts with. */
  function NextStart(groups: seq<Group>, start: Option<nat>, d: nat): Option<nat> {
    if start.None? && groups != [] then Some(d) else start
  }

  lemma NextStartIs(t: Tables, groups: seq<Group>, model: Model, dimensions: Option<nat>, e: Option<nat>, d: nat,
                    provider: Provider, batch: nat, arith: Arithmetic, f: Option<nat>)
    requires batch > 0 && Sync(t, groups, Resolved(model, dimensions), e)
    requires ValidDimensions(d) && WellBehaved(provider, model, d, arith)
    requires var r := Synchronize(t, groups, Resolved(model, dimensions), e, provider, batch, arith);
             AskedAgain(t, e, r.t, f, model)
    ensures StartDimensions(dimensions, f) == NextStart(groups, StartDimensions(dimensions, e), d)
  {
    var start := StartDimensions(dimensions, e);
    var post := Synchronize(t, groups, Resolved(model, dimensions), e, provider, batch, arith).t;
    if dimensions.None? {
      if start.None? {
        HealsWithoutSpace(t, groups, model, e, d, provider, batch, arith);
        assert groups == [] ==> SpacesOf(post, model) == SpacesOf(t, model);
        assert groups != [] ==> Space(model, d) in post.spaces;
      } else {
        StartIsStored(t, groups, model, e, d, provider, batch, arith);
      }
    }
  }

  lemma StartIsStored(t: Tables, groups: seq<Group>, model: Model, e: Option<nat>, d: nat, provider: Provider,
                      batch: nat, arith: Arithmetic)
    requires batch > 0 && Sync(t, groups, Resolved(model, None), e) && e.Some?
    requires ValidDimensions(d) && WellBehaved(provider, model, d, arith)
    ensures SpacesOf(Synchronize(t, groups, Resolved(model, None), e, provider, batch, arith).t, model)
            == SpacesOf(t, model)
  {
    if e.value == d {
      HealsWithSpace(t, groups, model, None, e, d, provider, batch, arith);
    } else {
      WrongRun(t, groups, model, None, e, e.value, d, provider, batch, arith);
    }
  }

  /** After one run the second completes exactly when two runs repair. */
  lemma FirstRunPrepares(t: Tables, groups: seq<Group>, model: Model, dimensions: Option<nat>, e: Option<nat>, d: nat,
                         provider: Provider, batch: nat, arith: Arithmetic)
    requires batch > 0 && Sync(t, groups, Resolved(model, dimensions), e)
    requires ValidDimensions(d) && WellBehaved(provider, model, d, arith)
    ensures var start := StartDimensions(dimensions, e);
            Completes(Synchronize(t, groups, Resolved(model, dimensions), e, provider, batch, arith).t, groups, model,
                      NextStart(groups, start, d), d, arith)
            <==> Heals(t, groups, model, start, d, arith)
  {
    var start := StartDimensions(dimensions, e);
    var post := Synchronize(t, groups, Resolved(model, dimensions), e, provider, batch, arith).t;
    if start.None? {
      HealsWithoutSpace(t, groups, model, e, d, provider, batch, arith);
      RepairedIsUndamaged(t, post, Space(model, d), groups, arith);
    } else if start.value == d {
      HealsWithSpace(t, groups, model, dimensions, e, d, provider, batch, arith);
      RepairedIsUndamaged(t, post, Space(model, d), groups, arith);
    } else if ValidDimensions(start.value) {
      WrongRun(t, groups, model, dimensions, e, start.value, d, provider, batch, arith);
      HitsStayHits(t, post, Space(model, start.value), groups, arith);
    }
  }

  lemma RepairedIsUndamaged(t: Tables, post: Tables, space: Space, groups: seq<Group>, arith: Arithmetic)
    requires forall i :: 0 <= i < |groups| ==> Repaired(t, post, space, groups[i], arith)
    ensures forall i :: 0 <= i < |groups| ==> LoadCache(post, space, groups[i].hash, arith) != Corrupt
    ensures Undamaged(post, space, groups, arith)
  {
    forall i | 0 <= i < |groups| ensures LoadCache(post, space, groups[i].hash, arith) != Corrupt {
      assert Repaired(t, post, space, groups[i], arith);
    }
  }

  lemma HitsStayHits(t: Tables, post: Tables, space: Space, groups: seq<Group>, arith: Arithmetic)
    requires forall i :: 0 <= i < |groups| ==> OnlyHitsLeft(t, post, space, groups[i], arith)
    ensures AllHit(post, space, groups, arith) <==> AllHit(t, space, groups, arith)
  {
    forall i | 0 <= i < |groups|
      ensures LoadCache(post, space, groups[i].hash, arith) == Hit <==>
              LoadCache(t, space, groups[i].hash, arith) == Hit
    {
      assert OnlyHitsLeft(t, post, space, groups[i], arith);
    }
  }

  /** The next run starts from sound tables that hold the same segments. */
  lemma NextSync(t: Tables, groups: seq<Group>, model: Model, dimensions: Option<nat>, e: Option<nat>,
                 provider: Provider, batch: nat, arith: Arithmetic, f: Option<nat>)
    requires batch > 0 && Sync(t, groups, Resolved(model, dimensions), e)
    requires var r := Synchronize(t, groups, Resolved(model, dimensions), e, provider, batch, arith);
             AskedAgain(t, e, r.t, f, model)
    ensures Sync(Synchronize(t, groups, Resolved(model, dimensions), e, provider, batch, arith).t, groups,
            Resolved(model, dimensions), f)
  {
    SynchronizeKeeps(t, groups, Resolved(model, dimensions), e, provider, batch, arith);
    FitsAgain(t, Synchronize(t, groups, Resolved(model, dimensions), e, provider, batch, arith).t, groups);
  }

  /**
   From any sound state with any damage the second of two runs with a well-behaved
   provider completes if and only if the first starts with no dimension, or with the
   provider's, or with another under which every segment is cached.
   */
  lemma HealsInTwoRunsExactly(t: Tables, groups: seq<Group>, model: Model, dimensions: Option<nat>, d: nat,
                              provider: Provider, batch: nat, arith: Arithmetic, e1: Option<nat>, e2: Option<nat>)
    requires batch > 0 && ValidDimensions(d) && WellBehaved(provider, model, d, arith)
    requires Sync(t, groups, Resolved(model, dimensions), e1)
    requires var r := Synchronize(t, groups, Resolved(model, dimensions), e1, provider, batch, arith);
             AskedAgain(t, e1, r.t, e2, model)
    ensures var r1 := Synchronize(t, groups, Resolved(model, dimensions), e1, provider, batch, arith);
            EndsComplete(Synchronize(r1.t, groups, Resolved(model, dimensions), e2, provider, batch, arith))
            <==> Heals(t, groups, model, StartDimensions(dimensions, e1), d, arith)
  {
    var t1 := Synchronize(t, groups, Resolved(model, dimensions), e1, provider, batch, arith).t;
    NextSync(t, groups, model, dimensions, e1, provider, batch, arith, e2);
    NextStartIs(t, groups, model, dimensions, e1, d, provider, batch, arith, e2);
    FirstRunPrepares(t, groups, model, dimensions, e1, d, provider, batch, arith);
    RunCompletesExactly(t1, groups, model, dimensions, e2, d, provider, batch, arith);
  }

  /** Every active segment of every group is linked to a vector that decodes. */
  ghost predicate AllSettled(t: Tables, space: Space, groups: seq<Group>, arith: Arithmetic) {
    forall i :: 0 <= i < |groups| && groups[i].refs != [] ==> Settled(t, space, groups[i], arith)
  }

  /** A run that sends nothing and hits the cache for every segment. */
  ghost predicate Idle(r: SyncResult, groups: seq<Group>) {
    EndsComplete(r) && r.sent == [] && r.report.hits == r.report.active == Size(groups, |groups|)
  }

  /** The space everything ends in. */
  function RestSpace(model: Model, start: Option<nat>, d: nat): Space {
    Space(model, if start.Some? then start.value else d)
  }

  /** `GroupByHash` lists no hash without a segment. */
  ghost predicate NoneEmpty(groups: seq<Group>) {
    forall i :: 0 <= i < |groups| ==> groups[i].refs != []
  }

  lemma CompleteRunSettles(t: Tables, groups: seq<Group>, model: Model, dimensions: Option<nat>, e: Option<nat>, d: nat,
                           provider: Provider, batch: nat, arith: Arithmetic)
    requires batch > 0 && Sync(t, groups, Resolved(model, dimensions), e)
    requires ValidDimensions(d) && WellBehaved(provider, model, d, arith)
    requires Completes(t, groups, model, StartDimensions(dimensions, e), d, arith)
    ensures AllSettled(Synchronize(t, groups, Resolved(model, dimensions), e, provider, batch, arith).t,
                       RestSpace(model, StartDimensions(dimensions, e), d), groups, arith)
  {
    var start := StartDimensions(dimensions, e);
    var r := Synchronize(t, groups, Resolved(model, dimensions), e, provider, batch, arith);
    if start.None? {
      HealsWithoutSpace(t, groups, model, e, d, provider, batch, arith);
      UnknownSpaceMisses(t, Space(model, d), groups, arith);
    } else if start.value == d {
      HealsWithSpace(t, groups, model, dimensions, e, d, provider, batch, arith);
    } else {
      WrongRun(t, groups, model, dimensions, e, start.value, d, provider, batch, arith);
    }
    forall i | 0 <= i < |groups| && groups[i].refs != []
      ensures Settled(r.t, RestSpace(model, start, d), groups[i], arith) {
      assert start.None? || start.value == d ==> Repaired(t, r.t, Space(model, d), groups[i], arith);
    }
  }

  /** A completed run leaves every segment linked to a vector that decodes, and the run after it idle. */
  lemma CompleteThenIdle(t: Tables, groups: seq<Group>, model: Model, dimensions: Option<nat>, d: nat,
                         provider: Provider, batch: nat, arith: Arithmetic, e: Option<nat>, f: Option<nat>)
    requires batch > 0 && ValidDimensions(d) && WellBehaved(provider, model, d, arith) && NoneEmpty(groups)
    requires Sync(t, groups, Resolved(model, dimensions), e)
    requires EndsComplete(Synchronize(t, groups, Resolved(model, dimensions), e, provider, batch, arith))
    requires var r := Synchronize(t, groups, Resolved(model, dimensions), e, provider, batch, arith);
             AskedAgain(t, e, r.t, f, model)
    ensures var r := Synchronize(t, groups, Resolved(model, dimensions), e, provider, batch, arith);
            && AllSettled(r.t, RestSpace(model, StartDimensions(dimensions, e), d), groups, arith)
            && Idle(Synchronize(r.t, groups, Resolved(model, dimensions), f, provider, batch, arith), groups)
  {
    var start := StartDimensions(dimensions, e);
    var r := Synchronize(t, groups, Resolved(model, dimensions), e, provider, batch, arith);
    RunCompletesExactly(t, groups, model, dimensions, e, d, provider, batch, arith);
    CompleteRunSettles(t, groups, model, dimensions, e, d, provider, batch, arith);
    NextSync(t, groups, model, dimensions, e, provider, batch, arith, f);
    NextStartIs(t, groups, model, dimensions, e, d, provider, batch, arith, f);
    SynchronizeKeeps(r.t, groups, Resolved(model, dimensions), f, provider, batch, arith);
    FullCacheIsIdle(r.t, groups, model, dimensions, f, RestSpace(model, start, d).dimensions, provider, batch, arith);
  }

  /**
   So when two runs repair, the second leaves every active segment linked to a
   vector that decodes, and a third sends nothing and hits the cache for every segment.
   */
  lemma HealsInTwoRuns(t: Tables, groups: seq<Group>, model: Model, dimensions: Option<nat>, d: nat, provider: Provider,
                       batch: nat, arith: Arithmetic, e1: Option<nat>, e2: Option<nat>, e3: Option<nat>)
    requires batch > 0 && ValidDimensions(d) && WellBehaved(provider, model, d, arith) && NoneEmpty(groups)
    requires Sync(t, groups, Resolved(model, dimensions), e1)
    requires Heals(t, groups, model, StartDimensions(dimensions, e1), d, arith)
    requires var r1 := Synchronize(t, groups, Resolved(model, dimensions), e1, provider, batch, arith);
             && AskedAgain(t, e1, r1.t, e2, model)
             && AskedAgain(r1.t, e2,
                Synchronize(r1.t, groups, Resolved(model, dimensions), e2, provider, batch, arith).t, e3, model)
    ensures var r1 := Synchronize(t, groups, Resolved(model, dimensions), e1, provider, batch, arith);
            var r2 := Synchronize(r1.t, groups, Resolved(model, dimensions), e2, provider, batch, arith);
            && r1.Reported? && EndsComplete(r2)
            && AllSettled(r2.t, RestSpace(model, StartDimensions(dimensions, e1), d), groups, arith)
            && Idle(Synchronize(r2.t, groups, Resolved(model, dimensions), e3, provider, batch, arith), groups)
  {
    var t1 := Synchronize(t, groups, Resolved(model, dimensions), e1, provider, batch, arith).t;
    HealsInTwoRunsExactly(t, groups, model, dimensions, d, provider, batch, arith, e1, e2);
    NextSync(t, groups, model, dimensions, e1, provider, batch, arith, e2);
    NextStartIs(t, groups, model, dimensions, e1, d, provider, batch, arith, e2);
    CompleteThenIdle(t1, groups, model, dimensions, d, provider, batch, arith, e2, e3);
    HealingReports(t, groups, model, dimensions, e1, d, provider, batch, arith);
  }

  lemma HealingReports(t: Tables, groups: seq<Group>, model: Model, dimensions: Option<nat>, e: Option<nat>, d: nat,
                       provider: Provider, batch: nat, arith: Arithmetic)
    requires batch > 0 && Sync(t, groups, Resolved(model, dimensions), e)
    requires ValidDimensions(d) && WellBehaved(provider, model, d, arith)
    requires Heals(t, groups, model, StartDimensions(dimensions, e), d, arith)
    ensures Synchronize(t, groups, Resolved(model, dimensions), e, provider, batch, arith).Reported?
  {
    var start := StartDimensions(dimensions, e);
    if start.None? {
      HealsWithoutSpace(t, groups, model, e, d, provider, batch, arith);
    } else if start.value == d {
      HealsWithSpace(t, groups, model, dimensions, e, d, provider, batch, arith);
    } else {
      WrongRun(t, groups, model, dimensions, e, start.value, d, provider, batch, arith);
    }
  }

  // -------------------------------------------------- a cache that stays open

  const SOME_MODEL := Model("m", "digest")

  /** One segment, no vector, and a space of dimension 2 left by an earlier answer. */
  const STALE := Tables(map[0 := StoredSegment(0, "a")], {Space(SOME_MODEL, 2)}, None, map[], map[], map[])

  const ONE_TEXT := [Group("a", [Ref(0, 0)])]

  /** One component for every text. */
  function OneComponent(): Provider {
    (_, _, texts: seq<TextHash>) => Vectors(seq(|texts|, _ => [Finite(1.0)]))
  }

  function Exact(): Arithmetic {
    Arithmetic(v => Some(v), _ => [], (_, _) => Some([]))
  }

  /** The stale dimension, found in the tables or configured, is never repaired: neither of two runs completes. */
  lemma StaleDimensionStays(dimensions: Option<nat>, e2: Option<nat>)
    requires dimensions == None || dimensions == Some(2)
    requires var asked := Resolved(SOME_MODEL, dimensions);
             var r1 := Synchronize(STALE, ONE_TEXT, asked, Some(2), OneComponent(), 1, Exact());
             AskedAgain(STALE, Some(2), r1.t, e2, SOME_MODEL)
    ensures WellBehaved(OneComponent(), SOME_MODEL, 1, Exact())
    ensures var asked := Resolved(SOME_MODEL, dimensions);
            var r1 := Synchronize(STALE, ONE_TEXT, asked, Some(2), OneComponent(), 1, Exact());
            && !EndsComplete(r1)
            && !EndsComplete(Synchronize(r1.t, ONE_TEXT, asked, e2, OneComponent(), 1, Exact()))
  {
    forall call: nat, texts: seq<TextHash>
      ensures WellAnswered(OneComponent()(SOME_MODEL, call, texts), |texts|, 1, Exact())
    {
      var batch := OneComponent()(SOME_MODEL, call, texts).batch;
      forall i | 0 <= i < |texts| ensures GoodVector(batch[i], 1, Exact()) {
        assert batch[i] == [Finite(1.0)];
      }
    }
    StaleIsSound(dimensions);
    assert ONE_TEXT[0].refs != [] && LoadCache(STALE, Space(SOME_MODEL, 2), ONE_TEXT[0].hash, Exact()) == Miss;
    RunCompletesExactly(STALE, ONE_TEXT, SOME_MODEL, dimensions, Some(2), 1, OneComponent(), 1, Exact());
    HealsInTwoRunsExactly(STALE, ONE_TEXT, SOME_MODEL, dimensions, 1, OneComponent(), 1, Exact(), Some(2), e2);
  }

  lemma StaleIsSound(dimensions: Option<nat>)
    ensures Sync(STALE, ONE_TEXT, Resolved(SOME_MODEL, dimensions), Some(2))
  {
  }
}
