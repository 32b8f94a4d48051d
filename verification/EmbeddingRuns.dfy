/** Sequences of runs: soundness over every history. */
module EmbeddingRuns {
  import opened Prelude
  import opened EmbeddingTables
  import opened EmbeddingSync
  import opened EmbeddingTheorems
  import opened EmbeddingInterrupts

  // --------------------------------------------------------- every history

  /** What happens to the embedding tables: runs, runs cut short, re-indexing, root removal, damage on disk. */
  datatype Event =
    | SyncRun(groups: seq<Group>, resolution: Resolution, existing: Option<nat>, provider: Provider, batch: nat,
        arith: Arithmetic)
    | SyncStopped(groups: seq<Group>, resolution: Resolution, existing: Option<nat>, provider: Provider, batch: nat,
        arith: Arithmetic,
                  at: StopPoint)
    | Indexed(more: map<SegmentId, StoredSegment>)
    | Removed(gone: set<SegmentId>)
    | Damaged(key: (Space, TextHash), found: seq<byte>, dimensions: nat)

  /** A run sees the segments that are stored when it starts; its batch size is the validated one. */
  ghost predicate Possible(t: Tables, e: Event) {
    e.SyncRun? || e.SyncStopped? ==>
      && e.batch > 0 && AllFit(t, e.groups) && DistinctHashes(e.groups)
      && (e.resolution.Resolved? ==> ExistingDimensions(t, e.resolution.model, e.existing))
  }

  ghost function Next(t: Tables, e: Event): Tables {
    if !Possible(t, e) then t
    else
      match e
      case SyncRun(groups, resolution, existing, provider, batch, arith) =>
        Synchronize(t, groups, resolution, existing, provider, batch, arith).t
      case SyncStopped(groups, resolution, existing, provider, batch, arith, at) =>
        if resolution.Resolved?
        then Interrupted(t, groups, resolution.model, resolution.dimensions, existing, provider, batch, arith, at)
        else t
      case Indexed(more) => AddSegments(t, more)
      case Removed(gone) => RemoveSegments(t, gone)
      case Damaged(key, found, dimensions) => Damage(t, key, found, dimensions)
  }

  const NO_TABLES := Tables(map[], {}, None, map[], map[], map[])

  ghost function History(events: seq<Event>): Tables {
    if events == [] then NO_TABLES else Next(History(events[..|events| - 1]), events[|events| - 1])
  }

  lemma StepKeeps(t: Tables, e: Event)
    requires Inv(t)
    ensures Inv(Next(t, e))
  {
    if Possible(t, e) {
      match e
      case SyncRun(groups, resolution, existing, provider, batch, arith) =>
        if resolution.Resolved? {
          SynchronizeKeeps(t, groups, resolution, existing, provider, batch, arith);
        }
      case SyncStopped(groups, resolution, existing, provider, batch, arith, at) =>
        if resolution.Resolved? {
          InterruptedKeeps(t, groups, resolution.model, resolution.dimensions, existing, provider, batch, arith, at);
        }
      case Indexed(more) => AddSegmentsKeepsInv(t, more);
      case Removed(gone) => RemoveSegmentsKeepsInv(t, gone);
      case Damaged(key, found, dimensions) => DamageKeepsInv(t, key, found, dimensions);
    }
  }

  /**
   After any history: a link carries its segment's own hash and its vector
   exists; a vector row was made by its space's model; no segment is both linked
   and failed in a space; the active space is a known one.
   */
  lemma {:induction false} HistorySound(events: seq<Event>)
    ensures var t := History(events);
            && Inv(t)
            && (forall k :: k in t.links ==>
                  && k.0 in t.segments && t.links[k].hash == t.segments[k.0].hash
                  && (k.1, t.links[k].hash) in t.vectors && k !in t.failures)
            && (forall k :: k in t.vectors ==> MadeFor(t.vectors[k].madeBy, k.0) && ValidDimensions(k.0.dimensions))
            && (t.active.Some? ==> t.active.value in t.spaces)
  {
    if events != [] {
      HistorySound(events[..|events| - 1]);
      StepKeeps(History(events[..|events| - 1]), events[|events| - 1]);
    }
  }
}
