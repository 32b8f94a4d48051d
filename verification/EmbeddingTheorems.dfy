/** What every synchronisation run keeps and counts, with any provider and any model. */
module EmbeddingTheorems {
  import opened Prelude
  import opened EmbeddingTables
  import opened EmbeddingSync

  ghost predicate OtherHash(a: Group, b: Group) {
    a.hash != b.hash
  }

  /** One group per text hash. */
  ghost predicate DistinctHashes(groups: seq<Group>) {
    forall i, j {:trigger OtherHash(groups[i], groups[j])} :: 0 <= i < j < |groups| ==> OtherHash(groups[i], groups[j])
  }

  lemma DifferentHash(groups: seq<Group>, i: nat, k: nat)
    requires DistinctHashes(groups) && i < |groups| && k < |groups| && i != k
    ensures groups[i].hash != groups[k].hash
  {
    if i < k {
      assert OtherHash(groups[i], groups[k]);
    } else {
      assert OtherHash(groups[k], groups[i]);
    }
  }

  ghost predicate AllFit(t: Tables, groups: seq<Group>) {
    forall i :: 0 <= i < |groups| ==> GroupFits(t, groups[i])
  }

  lemma FitsAgain(t: Tables, u: Tables, groups: seq<Group>)
    requires AllFit(t, groups) && u.segments == t.segments
    ensures AllFit(u, groups)
  {
    forall i | 0 <= i < |groups| ensures GroupFits(u, groups[i]) {
      assert GroupFits(t, groups[i]);
    }
  }

  /** Groups without a vector in the run's space; while there is none, no space of the model exists. */
  ghost predicate AllMissing(t: Tables, space: Option<Space>, model: Model, groups: seq<Group>) {
    match space
    case Some(s) => forall i :: 0 <= i < |groups| ==> (s, groups[i].hash) !in t.vectors
    case None => forall s :: s in t.spaces ==> s.model != model
  }

  /** The state between two groups or chunks of a run. */
  ghost predicate RunOk(p: Progress, model: Model) {
    && Inv(p.t) && p.t.active == p.space
    && (p.space.Some? ==> p.space.value.model == model && p.space.value in p.t.spaces)
  }

  /** No space of another model is active. */
  ghost predicate ActiveIsOf(t: Tables, model: Model) {
    t.active.Some? ==> t.active.value.model == model
  }

  ghost predicate SubGroups(part: seq<Group>, groups: seq<Group>, n: nat)
    requires n <= |groups|
  {
    forall i :: 0 <= i < |part| ==> Among(part[i], groups, n)
  }

  ghost predicate Among(g: Group, groups: seq<Group>, n: nat)
    requires n <= |groups|
  {
    exists j :: 0 <= j < n && groups[j] == g
  }

  // ------------------------------------------------------------ cache pass

  lemma ScanOneKeeps(p: Progress, g: Group, arith: Arithmetic, model: Model)
    requires RunOk(p, model) && GroupFits(p.t, g)
    ensures var (q, more) := ScanOne(p, g, arith);
            && RunOk(q, model) && q.space == p.space && q.sent == p.sent && q.inputs == p.inputs
            && q.t.segments == p.t.segments && q.t.spaces == p.t.spaces
            && q.t.vectors.Keys <= p.t.vectors.Keys
            && q.linked + q.failed + Size(more, |more|) == p.linked + p.failed + |g.refs|
            && (more == [] || more == [g])
            && (more == [g] ==> q == p && (p.space.Some? ==> (p.space.value, g.hash) !in p.t.vectors))
            && q.hits - p.hits == q.linked - p.linked
  {
    if p.space.Some? {
      var space := p.space.value;
      match LoadCache(p.t, space, g.hash, arith)
      case Hit => LinkRefsKeepsInv(p.t, space, g, |g.refs|);
      case Miss => assert Size([g], 1) == Size([g], 0) + |g.refs|;
      case Corrupt =>
        var dropped := DropVector(p.t, space, g.hash);
        DropVectorKeepsInv(p.t, space, g.hash);
        NoVectorNoLink(dropped, space, g);
        FailRefsKeepsInv(dropped, space, g, |g.refs|);
    } else {
      assert Size([g], 1) == Size([g], 0) + |g.refs|;
    }
  }

  lemma {:induction false} SizeAppend(a: seq<Group>, b: seq<Group>)
    ensures Size(a + b, |a| + |b|) == Size(a, |a|) + Size(b, |b|)
  {
    if b == [] {
      assert a + b == a;
    } else {
      var init := b[..|b| - 1];
      SizeAppend(a, init);
      assert (a + b)[..|a| + |init|] == a + init;
      SizePrefix(a + b, a + init, |a| + |init|);
      SizePrefix(b, init, |init|);
    }
  }

  lemma {:induction false} SizePrefix(a: seq<Group>, b: seq<Group>, n: nat)
    requires n <= |a| && n <= |b| && a[..n] == b[..n]
    ensures Size(a, n) == Size(b, n)
  {
    if n > 0 {
      assert a[n - 1] == a[..n][n - 1] == b[n - 1];
      assert a[..n - 1] == a[..n][..n - 1] == b[..n - 1];
      SizePrefix(a, b, n - 1);
    }
  }

  /** Facts about what the cache pass leaves pending. */
  ghost predicate PendingOk(q: Progress, pending: seq<Group>, groups: seq<Group>, n: nat)
    requires n <= |groups|
  {
    && SubGroups(pending, groups, n) && DistinctHashes(pending)
    && (q.space.Some? ==> forall i :: 0 <= i < |pending| ==> (q.space.value, pending[i].hash) !in q.t.vectors)
  }

  lemma PendingGrows(q: Progress, pending: seq<Group>, groups: seq<Group>, n: nat)
    requires 0 < n <= |groups| && DistinctHashes(groups) && PendingOk(q, pending, groups, n - 1)
    requires q.space.Some? ==> (q.space.value, groups[n - 1].hash) !in q.t.vectors
    ensures PendingOk(q, pending + [groups[n - 1]], groups, n)
  {
    var more := pending + [groups[n - 1]];
    forall i | 0 <= i < |more| ensures Among(more[i], groups, n) {
      assert i < |pending| ==> Among(pending[i], groups, n - 1);
    }
    forall i, j | 0 <= i < j < |more| ensures OtherHash(more[i], more[j]) {
      if j < |pending| {
        assert OtherHash(pending[i], pending[j]);
      } else {
        assert Among(pending[i], groups, n - 1);
        var k :| 0 <= k < n - 1 && groups[k] == pending[i];
        assert OtherHash(groups[k], groups[n - 1]);
      }
    }
  }

  lemma PendingStays(before: Progress, q: Progress, pending: seq<Group>, groups: seq<Group>, n: nat)
    requires 0 < n <= |groups| && PendingOk(before, pending, groups, n - 1)
    requires q.space == before.space && q.t.vectors.Keys <= before.t.vectors.Keys
    ensures PendingOk(q, pending, groups, n)
  {
    forall i | 0 <= i < |pending| ensures Among(pending[i], groups, n) {
      assert Among(pending[i], groups, n - 1);
    }
  }

  /** What the cache pass over the first `n` groups keeps and counts. */
  ghost predicate ScanKept(p: Progress, q: Progress, pending: seq<Group>, groups: seq<Group>, n: nat, model: Model)
    requires n <= |groups|
  {
    && RunOk(q, model) && q.space == p.space && q.sent == p.sent && q.inputs == p.inputs
    && q.t.segments == p.t.segments && q.t.spaces == p.t.spaces
    && q.linked + q.failed + Size(pending, |pending|) == p.linked + p.failed + Size(groups, n)
    && q.hits - p.hits == q.linked - p.linked
    && PendingOk(q, pending, groups, n)
  }

  /** The cache pass conserves segments: linked, failed or pending. */
  lemma {:induction false} ScanCacheKeeps(p: Progress, groups: seq<Group>, n: nat, arith: Arithmetic, model: Model)
    requires RunOk(p, model) && AllFit(p.t, groups) && DistinctHashes(groups) && n <= |groups|
    ensures var (q, pending) := ScanCache(p, groups, n, arith); ScanKept(p, q, pending, groups, n, model)
  {
    if n == 0 {
      ScanKeptAtFirst(p, groups, model);
    } else {
      ScanCacheKeeps(p, groups, n - 1, arith, model);
      var (before, pending) := ScanCache(p, groups, n - 1, arith);
      ScanKeptNext(p, before, pending, groups, n, arith, model);
    }
  }

  lemma ScanKeptAtFirst(p: Progress, groups: seq<Group>, model: Model)
    requires RunOk(p, model)
    ensures ScanKept(p, p, [], groups, 0, model)
  {
  }

  lemma ScanKeptNext(p: Progress, before: Progress, pending: seq<Group>, groups: seq<Group>, n: nat, arith: Arithmetic,
                     model: Model)
    requires 0 < n <= |groups| && AllFit(p.t, groups) && DistinctHashes(groups)
    requires ScanKept(p, before, pending, groups, n - 1, model)
    ensures var (q, more) := ScanOne(before, groups[n - 1], arith); ScanKept(p, q, pending + more, groups, n, model)
  {
    assert GroupFits(p.t, groups[n - 1]);
    assert GroupFits(before.t, groups[n - 1]);
    ScanOneKeeps(before, groups[n - 1], arith, model);
    var (q, more) := ScanOne(before, groups[n - 1], arith);
    SizeAppend(pending, more);
    PendingNext(before, q, more, pending, groups, n);
  }

  /** One more group in the cache pass. */
  lemma PendingNext(before: Progress, q: Progress, more: seq<Group>, pending: seq<Group>, groups: seq<Group>, n: nat)
    requires 0 < n <= |groups| && DistinctHashes(groups) && PendingOk(before, pending, groups, n - 1)
    requires q.space == before.space && q.t.vectors.Keys <= before.t.vectors.Keys
    requires more == [] || more == [groups[n - 1]]
    requires more != [] && before.space.Some? ==> (before.space.value, groups[n - 1].hash) !in before.t.vectors
    ensures PendingOk(q, pending + more, groups, n)
  {
    if more == [] {
      assert pending + more == pending;
      PendingStays(before, q, pending, groups, n);
    } else {
      PendingGrows(q, pending, groups, n);
    }
  }

  // --------------------------------------------------------- provider pass

  lemma FailPendingKeeps(p: Progress, groups: seq<Group>, e: ErrorKind, model: Model)
    requires RunOk(p, model) && AllFit(p.t, groups) && AllMissing(p.t, p.space, model, groups)
    ensures var q := FailPending(p, groups, e);
            && RunOk(q, model) && q.space == p.space && q.sent == p.sent && q.linked == p.linked && q.hits == p.hits
            && q.t.segments == p.t.segments && q.t.spaces == p.t.spaces && q.t.vectors == p.t.vectors
            && q.failed == p.failed + Size(groups, |groups|)
  {
    if p.space.Some? {
      FailGroupsKeepsInv(p.t, p.space.value, groups, |groups|);
    }
  }

  /** Storing touches the vectors of the chunk's own hashes only. */
  lemma {:induction false} StoreGroupsVectors(t: Tables, space: Space, chunk: seq<Group>, bytes: seq<Encoded>, n: nat,
                                              k: (Space, TextHash))
    requires n <= |chunk| && n <= |bytes|
    requires k.0 == space ==> forall i :: 0 <= i < n ==> chunk[i].hash != k.1
    ensures k in StoreGroups(t, space, chunk, bytes, n).vectors <==> k in t.vectors
  {
    if n > 0 {
      StoreGroupsVectors(t, space, chunk, bytes, n - 1, k);
      LinkRefsVectors(StoreVector(StoreGroups(t, space, chunk, bytes, n - 1), space, chunk[n - 1].hash, bytes[n - 1]),
                      space, chunk[n - 1], |chunk[n - 1].refs|);
    }
  }

  lemma {:induction false} LinkRefsVectors(t: Tables, space: Space, g: Group, n: nat)
    requires n <= |g.refs|
    ensures LinkRefs(t, space, g.hash, g.refs, n).vectors == t.vectors
  {
    if n > 0 {
      LinkRefsVectors(t, space, g, n - 1);
    }
  }

  lemma StoreBatchKeeps(p: Progress, pending: seq<Group>, n: nat, vectors: seq<seq<Component>>, model: Model,
                        arith: Arithmetic)
    requires RunOk(p, model) && AllFit(p.t, pending) && AllMissing(p.t, p.space, model, pending)
    requires DistinctHashes(pending)
    requires 0 < n <= |pending| && |vectors| == n
    ensures var turn := StoreBatch(p, pending[..n], vectors, model, arith);
            && (turn.Abort? ==> Inv(turn.t) && ActiveIsOf(turn.t, model) && turn.t.segments == p.t.segments)
            && (turn.Continue? ==>
                  && RunOk(turn.p, model) && turn.p.space.Some? && turn.p.sent == p.sent && turn.p.hits == p.hits
                  && turn.p.t.segments == p.t.segments
                  && turn.p.failed == p.failed && turn.p.linked == p.linked + Size(pending[..n], n)
                  && AllMissing(turn.p.t, turn.p.space, model, pending[n..]))
            && !turn.Stop?
  {
    var chunk := pending[..n];
    var space := if p.space.Some? then p.space.value else Space(model, |vectors[0]|);
    var active := if p.space.Some? then Some(p.t) else ActivateSpace(p.t, space);
    if active.Some? {
      if p.space.None? {
        ActivateKeepsInv(p.t, space, active.value);
      }
      var bytes := EncodeAll(vectors, |vectors|, space.dimensions, model, arith);
      if bytes.Some? {
        StoreGroupsKeepsInv(active.value, space, chunk, bytes.value, n);
        forall i | 0 <= i < |pending[n..]|
          ensures (space, pending[n..][i].hash) !in StoreGroups(active.value, space, chunk, bytes.value, n).vectors
        {
          forall j | 0 <= j < n ensures chunk[j].hash != pending[n..][i].hash {
            assert OtherHash(pending[j], pending[n + i]);
          }
          StoreGroupsVectors(active.value, space, chunk, bytes.value, n, (space, pending[n..][i].hash));
        }
      }
    }
  }

  lemma TailOk(t: Tables, space: Option<Space>, model: Model, pending: seq<Group>, n: nat)
    requires n <= |pending| && AllFit(t, pending) && DistinctHashes(pending)
    ensures AllFit(t, pending[..n]) && AllFit(t, pending[n..]) && DistinctHashes(pending[n..])
    ensures DistinctHashes(pending[..n])
    ensures AllMissing(t, space, model, pending) ==>
            AllMissing(t, space, model, pending[..n]) && AllMissing(t, space, model, pending[n..])
    ensures Size(pending, |pending|) == Size(pending[..n], n) + Size(pending[n..], |pending| - n)
  {
    forall i, j | 0 <= i < j < |pending[n..]| ensures OtherHash(pending[n..][i], pending[n..][j]) {
      assert OtherHash(pending[n + i], pending[n + j]);
    }
    forall i, j | 0 <= i < j < n ensures OtherHash(pending[..n][i], pending[..n][j]) {
      assert OtherHash(pending[i], pending[j]);
    }
    SizeAppend(pending[..n], pending[n..]);
    assert pending[..n] + pending[n..] == pending;
  }

  /** What one turn of the chunk loop keeps. */
  ghost predicate TurnOk(p: Progress, turn: Turn, pending: seq<Group>, n: nat, model: Model)
    requires n <= |pending|
  {
    match turn
    case Continue(q) =>
      && RunOk(q, model) && q.hits == p.hits && q.t.segments == p.t.segments
      && q.sent == p.sent + Hashes(pending[..n])
      && q.linked + q.failed == p.linked + p.failed + Size(pending[..n], n)
      && AllMissing(q.t, q.space, model, pending[n..])
    case Stop(q) =>
      && RunOk(q, model) && q.hits == p.hits && q.t.segments == p.t.segments
      && q.sent == p.sent + Hashes(pending[..n])
      && q.linked + q.failed == p.linked + p.failed + Size(pending, |pending|)
    case Abort(t) => Inv(t) && ActiveIsOf(t, model) && t.segments == p.t.segments
  }

  lemma EmbedChunkKeeps(p: Progress, pending: seq<Group>, n: nat, call: nat, model: Model, provider: Provider,
                        arith: Arithmetic)
    requires RunOk(p, model) && AllFit(p.t, pending) && AllMissing(p.t, p.space, model, pending)
    requires DistinctHashes(pending)
    requires 0 < n <= |pending|
    ensures TurnOk(p, EmbedChunk(p, pending[..n], pending, call, model, provider, arith), pending, n, model)
  {
    var chunk := pending[..n];
    var q := p.(inputs := p.inputs + n, sent := p.sent + Hashes(chunk));
    TailOk(p.t, p.space, model, pending, n);
    match provider(model, call, Hashes(chunk))
    case Refused(e) =>
      if Systemic(e) {
        FailPendingKeeps(q, pending, e, model);
      } else {
        FailPendingKeeps(q, chunk, e, model);
      }
    case Vectors(batch) =>
      match ValidateBatch(batch, n, if q.space.Some? then Some(q.space.value.dimensions) else None, arith)
      case Rejected(e) => FailPendingKeeps(q, chunk, e, model);
      case Accepted(vectors) => StoreBatchKeeps(q, pending, n, vectors, model, arith);
  }

  /** What the whole provider pass keeps and counts. */
  ghost predicate PassOk(p: Progress, turn: Turn, pending: seq<Group>, model: Model) {
    match turn
    case Abort(t) => Inv(t) && ActiveIsOf(t, model) && t.segments == p.t.segments
    case Continue(q) =>
      && RunOk(q, model) && q.hits == p.hits && q.t.segments == p.t.segments && p.sent <= q.sent
      && q.linked + q.failed == p.linked + p.failed + Size(pending, |pending|)
    case Stop(q) =>
      && RunOk(q, model) && q.hits == p.hits && q.t.segments == p.t.segments && p.sent <= q.sent
      && q.linked + q.failed == p.linked + p.failed + Size(pending, |pending|)
  }

  lemma {:induction false} EmbedAllKeeps(p: Progress, pending: seq<Group>, call: nat, model: Model, provider: Provider,
                                         batch: nat, arith: Arithmetic)
    requires batch > 0
    requires RunOk(p, model) && AllFit(p.t, pending) && AllMissing(p.t, p.space, model, pending)
    requires DistinctHashes(pending)
    ensures PassOk(p, EmbedAll(p, pending, call, model, provider, batch, arith), pending, model)
    decreases |pending|
  {
    if pending != [] {
      var n := ChunkSize(pending, batch);
      EmbedChunkKeeps(p, pending, n, call, model, provider, arith);
      TailOk(p.t, p.space, model, pending, n);
      var turn := EmbedChunk(p, pending[..n], pending, call, model, provider, arith);
      if turn.Continue? {
        var q := turn.p;
        assert AllFit(q.t, pending[n..]);
        EmbedAllKeeps(q, pending[n..], call + 1, model, provider, batch, arith);
      }
    }
  }

  // ------------------------------------------------------- each text once

  lemma HashesAppend(a: seq<Group>, b: seq<Group>)
    ensures Hashes(a + b) == Hashes(a) + Hashes(b)
  {
    assert |Hashes(a + b)| == |Hashes(a) + Hashes(b)|;
    forall i | 0 <= i < |a + b| ensures Hashes(a + b)[i] == (Hashes(a) + Hashes(b))[i] {
    }
  }

  /** Between `p` and `q` the texts of the first `m` pending groups went out. */
  ghost predicate SentPrefix(p: Progress, q: Progress, pending: seq<Group>, m: nat)
    requires m <= |pending|
  {
    q.sent == p.sent + Hashes(pending[..m]) && q.inputs == p.inputs + m
  }

  lemma SentOnward(p: Progress, q: Progress, r: Progress, pending: seq<Group>, n: nat, k: nat)
    requires n + k <= |pending| && SentPrefix(p, q, pending, n) && SentPrefix(q, r, pending[n..], k)
    ensures SentPrefix(p, r, pending, n + k)
  {
    var a, b := pending[..n], pending[n..][..k];
    assert a + b == pending[..n + k];
    HashesAppend(a, b);
    AppendAssociates(p.sent, Hashes(a), Hashes(b));
  }

  lemma ChunkSends(p: Progress, pending: seq<Group>, n: nat, call: nat, model: Model, provider: Provider,
                   arith: Arithmetic)
    requires 0 < n <= |pending|
    ensures var turn := EmbedChunk(p, pending[..n], pending, call, model, provider, arith);
            !turn.Abort? ==> SentPrefix(p, turn.p, pending, n)
  {
  }

  /** A pass sends the texts of a prefix of what was pending, in order; all of them unless it stops early. */
  lemma {:induction false} EmbedAllSends(p: Progress, pending: seq<Group>, call: nat, model: Model, provider: Provider,
                                         batch: nat, arith: Arithmetic)
    returns (m: nat)
    requires batch > 0
    ensures m <= |pending|
    ensures var turn := EmbedAll(p, pending, call, model, provider, batch, arith);
            (turn.Continue? ==> m == |pending|) && (!turn.Abort? ==> SentPrefix(p, turn.p, pending, m))
    decreases |pending|
  {
    if pending == [] {
      return 0;
    }
    var n := ChunkSize(pending, batch);
    ChunkSends(p, pending, n, call, model, provider, arith);
    match EmbedChunk(p, pending[..n], pending, call, model, provider, arith)
    case Continue(q) =>
      var k := EmbedAllSends(q, pending[n..], call + 1, model, provider, batch, arith);
      var rest := EmbedAll(q, pending[n..], call + 1, model, provider, batch, arith);
      if !rest.Abort? {
        SentOnward(p, q, rest.p, pending, n, k);
      }
      m := n + k;
    case Stop(_) => m := n;
    case Abort(_) => m := n;
  }

  lemma DistinctHashesSent(groups: seq<Group>, m: nat)
    requires DistinctHashes(groups) && m <= |groups|
    ensures Distinct(Hashes(groups[..m]))
  {
    forall i, j | 0 <= i < j < m ensures Hashes(groups[..m])[i] != Hashes(groups[..m])[j] {
      assert OtherHash(groups[i], groups[j]);
    }
  }

  // --------------------------------------------------------- the whole run

  /** The texts a report accounts for are those of active segments with a resolvable space. */
  ghost predicate Sync(t: Tables, groups: seq<Group>, resolution: Resolution, existing: Option<nat>) {
    && Inv(t) && AllFit(t, groups) && DistinctHashes(groups)
    && (resolution.Resolved? ==> ExistingDimensions(t, resolution.model, existing))
  }

  lemma Opening(t: Tables, groups: seq<Group>, model: Model, dimensions: Option<nat>, existing: Option<nat>,
                begun: Tables)
    requires Sync(t, groups, Resolved(model, dimensions), existing)
    requires var start := StartDimensions(dimensions, existing);
             begun == if start.Some? then (if ActivateSpace(t, Space(model, start.value)).Some?
                                           then ActivateSpace(t, Space(model, start.value)).value else t)
                      else t.(active := None)
    requires var start := StartDimensions(dimensions, existing);
             start.Some? ==> ActivateSpace(t, Space(model, start.value)).Some?
    ensures var start := StartDimensions(dimensions, existing);
            var p := Start(begun, if start.Some? then Some(Space(model, start.value)) else None);
            && RunOk(p, model) && AllFit(p.t, groups)
            && (start.None? ==> AllMissing(p.t, None, model, groups))
            && begun.segments == t.segments
  {
    var start := StartDimensions(dimensions, existing);
    if start.Some? {
      ActivateKeepsInv(t, Space(model, start.value), begun);
    }
  }

  /** Tables and counters of a run that got as far as its report. */
  ghost predicate Balanced(t: Tables, r: SyncResult, total: nat) {
    && r.Reported?
    && r.report.active == total
    && r.report.linked + r.report.failed == total
    && r.report.missing == r.report.failed
    && (r.report.status == Complete <==> r.report.failed == 0)
    && r.report.inputs == |r.sent| && Distinct(r.sent)
    && r.t.active == r.report.space
  }

  lemma FinishBalances(t: Tables, p: Progress, total: nat, model: Model)
    requires RunOk(p, model) && p.linked + p.failed == total && p.inputs == |p.sent| && Distinct(p.sent)
    ensures Balanced(t, Finish(p, total), total) && Inv(Finish(p, total).t)
    ensures Finish(p, total).t.segments == p.t.segments
    ensures Finish(p, total).report.space.Some? ==> Finish(p, total).report.space.value.model == model
  {
  }

  /**
   Any run with a resolved model keeps the tables sound, whatever the provider
   answers; when it reports, every active segment is counted once as linked or
   failed, each text went out at most once, and the active space is the run's.  When
   a storage error ends it, no other model's space is active either, unless the very
   first statement failed on a dimension out of range and nothing changed.
   */
  lemma SynchronizeKeeps(t: Tables, groups: seq<Group>, resolution: Resolution, existing: Option<nat>,
                         provider: Provider, batch: nat, arith: Arithmetic)
    requires batch > 0 && Sync(t, groups, resolution, existing) && resolution.Resolved?
    ensures var r := Synchronize(t, groups, resolution, existing, provider, batch, arith);
            && Inv(r.t) && r.t.segments == t.segments
            && (r.Reported? ==>
                  && Balanced(t, r, Size(groups, |groups|))
                  && (r.report.space.Some? ==> r.report.space.value.model == resolution.model))
            && (r.StorageFailed? ==>
                  var start := StartDimensions(resolution.dimensions, existing);
                  if start.None? || ValidDimensions(start.value) then ActiveIsOf(r.t, resolution.model) else r.t == t)
  {
    var model, dimensions := resolution.model, resolution.dimensions;
    var start := StartDimensions(dimensions, existing);
    var begun := if start.Some? then ActivateSpace(t, Space(model, start.value)) else Some(t.(active := None));
    if begun.Some? {
      Opening(t, groups, model, dimensions, existing, begun.value);
      var space := if start.Some? then Some(Space(model, start.value)) else None;
      RunKeeps(t, Start(begun.value, space), groups, model, provider, batch, arith);
    }
  }

  lemma RunKeeps(t: Tables, p: Progress, groups: seq<Group>, model: Model, provider: Provider, batch: nat,
                 arith: Arithmetic)
    requires batch > 0 && RunOk(p, model) && AllFit(p.t, groups) && DistinctHashes(groups)
    requires p == Start(p.t, p.space) && p.t.segments == t.segments
    requires p.space.None? ==> AllMissing(p.t, None, model, groups)
    ensures var (scanned, pending) := ScanCache(p, groups, |groups|, arith);
            match EmbedAll(scanned, pending, 0, model, provider, batch, arith)
            case Abort(u) => Inv(u) && ActiveIsOf(u, model) && u.segments == t.segments
            case Continue(q) => Done(t, q, groups, model)
            case Stop(q) => Done(t, q, groups, model)
  {
    var (scanned, pending) := ScanCache(p, groups, |groups|, arith);
    ScanCacheKeeps(p, groups, |groups|, arith, model);
    PendingFits(p.t, scanned, pending, groups);
    EmbedAllKeeps(scanned, pending, 0, model, provider, batch, arith);
    var m := EmbedAllSends(scanned, pending, 0, model, provider, batch, arith);
    PassDone(t, p, scanned, pending, EmbedAll(scanned, pending, 0, model, provider, batch, arith), m, groups, model);
  }

  lemma PendingFits(t: Tables, q: Progress, pending: seq<Group>, groups: seq<Group>)
    requires PendingOk(q, pending, groups, |groups|) && AllFit(t, groups) && q.t.segments == t.segments
    ensures AllFit(q.t, pending)
  {
    forall i | 0 <= i < |pending| ensures GroupFits(q.t, pending[i]) {
      assert Among(pending[i], groups, |groups|);
      var j :| 0 <= j < |groups| && groups[j] == pending[i];
      assert GroupFits(t, groups[j]);
    }
  }

  /** A pass over what the cache pass left pending finishes the run. */
  lemma PassDone(t: Tables, p: Progress, scanned: Progress, pending: seq<Group>, turn: Turn, m: nat, groups: seq<Group>,
                 model: Model)
    requires p == Start(p.t, p.space) && p.t.segments == t.segments
    requires ScanKept(p, scanned, pending, groups, |groups|, model)
    requires PassOk(scanned, turn, pending, model) && m <= |pending|
    requires !turn.Abort? ==> SentPrefix(scanned, turn.p, pending, m)
    ensures match turn
            case Abort(u) => Inv(u) && ActiveIsOf(u, model) && u.segments == t.segments
            case Continue(q) => Done(t, q, groups, model)
            case Stop(q) => Done(t, q, groups, model)
  {
    DistinctHashesSent(pending, m);
    if !turn.Abort? {
      assert turn.p.sent == Hashes(pending[..m]);
      FinishBalances(t, turn.p, Size(groups, |groups|), model);
    }
  }

  ghost predicate Done(t: Tables, q: Progress, groups: seq<Group>, model: Model) {
    var r := Finish(q, Size(groups, |groups|));
    && Inv(r.t) && r.t.segments == t.segments && Balanced(t, r, Size(groups, |groups|))
    && (r.report.space.Some? ==> r.report.space.value.model == model)
  }
}
