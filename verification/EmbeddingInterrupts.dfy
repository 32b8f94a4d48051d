/** Synchronisation runs that stop between two commits: every state they can leave behind is sound. */
module EmbeddingInterrupts {
  import opened Prelude
  import opened EmbeddingTables
  import opened EmbeddingSync
  import opened EmbeddingTheorems

  /** Where a run stops.  Counts beyond the end mean the end. */
  datatype StopPoint =
    | SpacePersisted                               // the space is stored, not yet active
    | CachePass(groups: nat, dropped: bool)        // so many groups done; the next one's corrupt vector already deleted
    | ProviderPass(turns: nat, inside: Inside)     // so many chunks done

  datatype Inside =
    | Between
    | SpaceStored(dimensions: nat)                 // the answer's space is stored
    | SpaceActive(dimensions: nat)                 // and active, its vectors not yet stored
    | SomeFailed(groups: nat)                      // failures of so many groups recorded

  function Least(a: nat, b: nat): nat {
    if a <= b then a else b
  }

  /** `persist_space`: OR IGNORE hides a failed CHECK. */
  function PersistSpace(t: Tables, space: Space): Tables {
    if ValidDimensions(space.dimensions) then t.(spaces := t.spaces + {space}) else t
  }

  /** The run after so many chunks that let it continue, and the groups still to send. */
  function AfterTurns(p: Progress, pending: seq<Group>, call: nat, model: Model, provider: Provider, batch: nat,
                      arith: Arithmetic, turns: nat): (Progress, seq<Group>)
    requires batch > 0
    decreases turns
  {
    if turns == 0 || pending == [] then (p, pending)
    else
      var n := ChunkSize(pending, batch);
      match EmbedChunk(p, pending[..n], pending, call, model, provider, arith)
      case Continue(q) => AfterTurns(q, pending[n..], call + 1, model, provider, batch, arith, turns - 1)
      case _ => (p, pending)
  }

  function InsideTurn(p: Progress, pending: seq<Group>, model: Model, inside: Inside): Tables {
    match inside
    case Between => p.t
    case SpaceStored(d) => if p.space.None? then PersistSpace(p.t, Space(model, d)) else p.t
    case SpaceActive(d) =>
      if p.space.Some? then p.t
      else
        var active := ActivateSpace(p.t, Space(model, d));
        if active.Some? then active.value else p.t
    case SomeFailed(k) => if p.space.Some? then FailGroups(p.t, p.space.value, pending, Least(k, |pending|)) else p.t
  }

  /** A corrupt vector is deleted before its failures are recorded. */
  function InsideScan(p: Progress, g: Group, arith: Arithmetic): Tables {
    if p.space.Some? && LoadCache(p.t, p.space.value, g.hash, arith) == Corrupt
    then DropVector(p.t, p.space.value, g.hash)
    else p.t
  }

  /** The tables left by a run with a resolved model that stops at this point. */
  function Interrupted(t: Tables, groups: seq<Group>, model: Model, dimensions: Option<nat>, existing: Option<nat>,
                       provider: Provider, batch: nat, arith: Arithmetic, at: StopPoint): Tables
    requires batch > 0
  {
    var start := StartDimensions(dimensions, existing);
    var begun := if start.Some? then ActivateSpace(t, Space(model, start.value)) else Some(t.(active := None));
    if at.SpacePersisted? then if start.Some? then PersistSpace(t, Space(model, start.value)) else t
    else if begun.None? then t
    else
      var p := Start(begun.value, if start.Some? then Some(Space(model, start.value)) else None);
      match at
      case CachePass(n, dropped) =>
        var m := Least(n, |groups|);
        var q := ScanCache(p, groups, m, arith).0;
        if dropped && m < |groups| then InsideScan(q, groups[m], arith) else q.t
      case ProviderPass(turns, inside) =>
        var (scanned, pending) := ScanCache(p, groups, |groups|, arith);
        var (q, rest) := AfterTurns(scanned, pending, 0, model, provider, batch, arith, turns);
        InsideTurn(q, rest, model, inside)
      case SpacePersisted => t
  }

  // ----------------------------------------------------------------- soundness

  lemma PersistKeepsInv(t: Tables, space: Space)
    requires Inv(t)
    ensures Inv(PersistSpace(t, space))
  {
  }

  /** What holds between two chunks. */
  ghost predicate PendingState(p: Progress, pending: seq<Group>, model: Model) {
    RunOk(p, model) && AllFit(p.t, pending) && AllMissing(p.t, p.space, model, pending) && DistinctHashes(pending)
  }

  lemma TurnKeeps(p: Progress, pending: seq<Group>, n: nat, call: nat, model: Model, provider: Provider,
                  arith: Arithmetic)
    requires PendingState(p, pending, model) && 0 < n <= |pending|
    ensures var turn := EmbedChunk(p, pending[..n], pending, call, model, provider, arith);
            turn.Continue? ==> PendingState(turn.p, pending[n..], model)
  {
    EmbedChunkKeeps(p, pending, n, call, model, provider, arith);
    TailOk(p.t, p.space, model, pending, n);
    var turn := EmbedChunk(p, pending[..n], pending, call, model, provider, arith);
    if turn.Continue? {
      FitsAgain(p.t, turn.p.t, pending[n..]);
    }
  }

  lemma {:induction false} AfterTurnsKeeps(p: Progress, pending: seq<Group>, call: nat, model: Model,
                                           provider: Provider, batch: nat, arith: Arithmetic, turns: nat)
    requires batch > 0 && PendingState(p, pending, model)
    ensures var (q, rest) := AfterTurns(p, pending, call, model, provider, batch, arith, turns);
            PendingState(q, rest, model)
    decreases turns
  {
    if turns > 0 && pending != [] {
      var n := ChunkSize(pending, batch);
      TurnKeeps(p, pending, n, call, model, provider, arith);
      var turn := EmbedChunk(p, pending[..n], pending, call, model, provider, arith);
      if turn.Continue? {
        AfterTurnsKeeps(turn.p, pending[n..], call + 1, model, provider, batch, arith, turns - 1);
      }
    }
  }

  lemma InsideTurnKeeps(p: Progress, pending: seq<Group>, model: Model, inside: Inside)
    requires PendingState(p, pending, model)
    ensures Inv(InsideTurn(p, pending, model, inside))
  {
    match inside
    case Between =>
    case SpaceStored(d) => PersistKeepsInv(p.t, Space(model, d));
    case SpaceActive(d) =>
      var active := ActivateSpace(p.t, Space(model, d));
      if active.Some? {
        ActivateKeepsInv(p.t, Space(model, d), active.value);
      }
    case SomeFailed(k) =>
      if p.space.Some? {
        FailGroupsKeepsInv(p.t, p.space.value, pending, Least(k, |pending|));
      }
  }

  lemma InsideScanKeeps(p: Progress, g: Group, arith: Arithmetic)
    requires Inv(p.t)
    ensures Inv(InsideScan(p, g, arith))
  {
    if p.space.Some? {
      DropVectorKeepsInv(p.t, p.space.value, g.hash);
    }
  }

  lemma ScanLeavesPending(p: Progress, groups: seq<Group>, model: Model, arith: Arithmetic)
    requires RunOk(p, model) && AllFit(p.t, groups) && DistinctHashes(groups)
    requires (p.space.None? ==> AllMissing(p.t, None, model, groups))
    ensures var (q, pending) := ScanCache(p, groups, |groups|, arith); PendingState(q, pending, model)
  {
    var (q, pending) := ScanCache(p, groups, |groups|, arith);
    ScanCacheKeeps(p, groups, |groups|, arith, model);
    forall i | 0 <= i < |pending| ensures GroupFits(q.t, pending[i]) {
      assert Among(pending[i], groups, |groups|);
      var j :| 0 <= j < |groups| && groups[j] == pending[i];
      assert GroupFits(p.t, groups[j]);
    }
  }

  /**
   Wherever a run stops, the tables it leaves are sound: in particular no link
   without its vector, no link beside a failure.
   */
  lemma InterruptedKeeps(t: Tables, groups: seq<Group>, model: Model, dimensions: Option<nat>, existing: Option<nat>,
                         provider: Provider, batch: nat, arith: Arithmetic, at: StopPoint)
    requires batch > 0 && Sync(t, groups, Resolved(model, dimensions), existing)
    ensures Inv(Interrupted(t, groups, model, dimensions, existing, provider, batch, arith, at))
  {
    var start := StartDimensions(dimensions, existing);
    var begun := if start.Some? then ActivateSpace(t, Space(model, start.value)) else Some(t.(active := None));
    if at.SpacePersisted? {
      if start.Some? {
        PersistKeepsInv(t, Space(model, start.value));
      }
    } else if begun.Some? {
      Opening(t, groups, model, dimensions, existing, begun.value);
      var p := Start(begun.value, if start.Some? then Some(Space(model, start.value)) else None);
      StartedKeeps(p, groups, model, provider, batch, arith, at);
    }
  }

  lemma StartedKeeps(p: Progress, groups: seq<Group>, model: Model, provider: Provider, batch: nat, arith: Arithmetic,
                     at: StopPoint)
    requires batch > 0 && RunOk(p, model) && AllFit(p.t, groups) && DistinctHashes(groups)
    requires p.space.None? ==> AllMissing(p.t, None, model, groups)
    ensures at.CachePass? ==>
              var m := Least(at.groups, |groups|);
              var q := ScanCache(p, groups, m, arith).0;
              Inv(q.t) && (m < |groups| ==> Inv(InsideScan(q, groups[m], arith)))
    ensures at.ProviderPass? ==>
              var (scanned, pending) := ScanCache(p, groups, |groups|, arith);
              var (q, rest) := AfterTurns(scanned, pending, 0, model, provider, batch, arith, at.turns);
              Inv(InsideTurn(q, rest, model, at.inside))
  {
    match at
    case SpacePersisted =>
    case CachePass(n, _) =>
      var m := Least(n, |groups|);
      ScanCacheKeeps(p, groups, m, arith, model);
      if m < |groups| {
        InsideScanKeeps(ScanCache(p, groups, m, arith).0, groups[m], arith);
      }
    case ProviderPass(turns, inside) =>
      var (scanned, pending) := ScanCache(p, groups, |groups|, arith);
      ScanLeavesPending(p, groups, model, arith);
      AfterTurnsKeeps(scanned, pending, 0, model, provider, batch, arith, turns);
      var (q, rest) := AfterTurns(scanned, pending, 0, model, provider, batch, arith, turns);
      InsideTurnKeeps(q, rest, model, inside);
  }
}
