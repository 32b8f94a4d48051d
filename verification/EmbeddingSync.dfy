/** `synchronize_with_provider` of embedding_sync.rs: cache pass, provider pass, report. */
module EmbeddingSync {
  import opened Prelude
  import opened EmbeddingTables

  datatype ErrorKind =
    | Unavailable | FeatureDisabled | ModelNotFound | ModelChanged | Failed
    | ResponseInvalid | DimensionMismatch | VectorInvalid | CacheCorrupt

  /** `EmbeddingError::systemic`: no later batch of this run can do better. */
  predicate Systemic(e: ErrorKind) {
    e.Unavailable? || e.FeatureDisabled? || e.ModelNotFound? || e.ModelChanged? || e.Failed?
  }

  datatype Response = Vectors(batch: seq<seq<Component>>) | Refused(error: ErrorKind)

  /** An arbitrary provider: its answer may depend on the model asked for, the call's number and the texts. */
  type Provider = (Model, nat, seq<TextHash>) -> Response

  datatype Resolution = Resolved(model: Model, dimensions: Option<nat>) | Unresolved(error: ErrorKind)

  /** `normalize_vector`, the bytes of components, and `decode_vector`, whatever rounding does to them. */
  datatype Arithmetic = Arithmetic(
    normalize: seq<Component> -> Option<seq<Component>>,
    layOut: seq<Component> -> seq<byte>,
    decode: (seq<byte>, nat) -> Option<seq<Component>>)

  datatype CacheRead = Hit | Miss | Corrupt

  /** `load_validated_cache`. */
  function LoadCache(t: Tables, space: Space, hash: TextHash, arith: Arithmetic): CacheRead {
    if (space, hash) !in t.vectors then Miss
    else
      var cell := t.vectors[(space, hash)];
      if cell.dimensions != space.dimensions || arith.decode(cell.vectorBytes, cell.dimensions).None? then Corrupt
      else Hit
  }

  /** `normalize_vector` on the first `n` vectors; an error of any is an error. */
  function NormalizeAll(vectors: seq<seq<Component>>, n: nat, arith: Arithmetic): (out: Option<seq<seq<Component>>>)
    requires n <= |vectors|
    ensures out.Some? ==> |out.value| == n
    ensures out.Some? ==> forall i :: 0 <= i < n ==> arith.normalize(vectors[i]) == Some(out.value[i])
  {
    if n == 0 then Some([])
    else
      var before := NormalizeAll(vectors, n - 1, arith);
      var last := arith.normalize(vectors[n - 1]);
      if before.None? || last.None? then None else Some(before.value + [last.value])
  }

  datatype Checked = Accepted(vectors: seq<seq<Component>>) | Rejected(error: ErrorKind)

  /** `validate_provider_batch`. */
  function ValidateBatch(batch: seq<seq<Component>>, count: nat, expected: Option<nat>, arith: Arithmetic): Checked {
    if |batch| != count || |batch| == 0 then Rejected(ResponseInvalid)
    else if |batch[0]| == 0 then Rejected(VectorInvalid)
    else if expected.Some? && expected.value != |batch[0]| then Rejected(DimensionMismatch)
    else if exists i :: 0 <= i < |batch| && |batch[i]| != |batch[0]| then Rejected(ResponseInvalid)
    else
      var normalized := NormalizeAll(batch, |batch|, arith);
      if normalized.None? then Rejected(VectorInvalid) else Accepted(normalized.value)
  }

  /** `encode_vector`, on a vector the model answered with: the length is checked, then it is normalized again. */
  function Encode(vector: seq<Component>, dimensions: nat, model: Model, arith: Arithmetic): Option<Encoded> {
    if |vector| != dimensions || arith.normalize(vector).None? then None
    else Some(Encoded(arith.layOut(arith.normalize(vector).value), Origin(model, |vector|)))
  }

  /** `encode_vector` on the first `n` vectors of a batch; an error of any is an error. */
  function EncodeAll(vectors: seq<seq<Component>>, n: nat, dimensions: nat, model: Model, arith: Arithmetic)
    : (out: Option<seq<Encoded>>)
    requires n <= |vectors|
    ensures out.Some? ==> |out.value| == n
    ensures out.Some? ==> forall i :: 0 <= i < n ==> Encode(vectors[i], dimensions, model, arith) == Some(out.value[i])
    ensures out.None? ==> exists i :: 0 <= i < n && Encode(vectors[i], dimensions, model, arith).None?
  {
    if n == 0 then Some([])
    else
      var before := EncodeAll(vectors, n - 1, dimensions, model, arith);
      var last := Encode(vectors[n - 1], dimensions, model, arith);
      if before.None? || last.None? then None else Some(before.value + [last.value])
  }

  // ------------------------------------------------------------------ a run

  datatype Progress = Progress(t: Tables, space: Option<Space>, linked: nat, failed: nat, hits: nat, inputs: nat,
                               sent: seq<TextHash>, error: Option<ErrorKind>)

  function Size(groups: seq<Group>, n: nat): nat
    requires n <= |groups|
  {
    if n == 0 then 0 else Size(groups, n - 1) + |groups[n - 1].refs|
  }

  function FirstError(first: Option<ErrorKind>, e: ErrorKind): Option<ErrorKind> {
    if first.Some? then first else Some(e)
  }

  /** One group of the cache pass: linked, failed, or left pending. */
  function ScanOne(p: Progress, g: Group, arith: Arithmetic): (Progress, seq<Group>) {
    if p.space.None? then (p, [g])
    else
      match LoadCache(p.t, p.space.value, g.hash, arith)
      case Hit =>
        (p.(t := LinkRefs(p.t, p.space.value, g.hash, g.refs, |g.refs|),
            hits := p.hits + |g.refs|, linked := p.linked + |g.refs|), [])
      case Miss => (p, [g])
      case Corrupt =>
        (p.(t := FailRefs(DropVector(p.t, p.space.value, g.hash), p.space.value, g.refs, |g.refs|),
            failed := p.failed + |g.refs|, error := FirstError(p.error, CacheCorrupt)), [])
  }

  function ScanCache(p: Progress, groups: seq<Group>, n: nat, arith: Arithmetic): (Progress, seq<Group>)
    requires n <= |groups|
  {
    if n == 0 then (p, [])
    else
      var (before, pending) := ScanCache(p, groups, n - 1, arith);
      var (after, more) := ScanOne(before, groups[n - 1], arith);
      (after, pending + more)
  }

  /** Failures recorded for groups once a space is known; counted in any case. */
  function FailPending(p: Progress, groups: seq<Group>, e: ErrorKind): Progress {
    p.(t := if p.space.Some? then FailGroups(p.t, p.space.value, groups, |groups|) else p.t,
       failed := p.failed + Size(groups, |groups|), error := FirstError(p.error, e))
  }

  datatype Turn = Continue(p: Progress) | Stop(p: Progress) | Abort(t: Tables)

  function Hashes(groups: seq<Group>): (out: seq<TextHash>)
    ensures |out| == |groups| && forall i :: 0 <= i < |groups| ==> out[i] == groups[i].hash
  {
    if groups == [] then [] else Hashes(groups[..|groups| - 1]) + [groups[|groups| - 1].hash]
  }

  /** An accepted batch: establish the space if need be, then store and link in one transaction. */
  function StoreBatch(p: Progress, chunk: seq<Group>, vectors: seq<seq<Component>>, model: Model,
                      arith: Arithmetic): Turn
    requires |vectors| == |chunk| > 0
  {
    var space := if p.space.Some? then p.space.value else Space(model, |vectors[0]|);
    var active := if p.space.Some? then Some(p.t) else ActivateSpace(p.t, space);
    if active.None? then Abort(p.t)
    else
      var bytes := EncodeAll(vectors, |vectors|, space.dimensions, model, arith);
      if bytes.None? then Abort(active.value)
      else Continue(p.(t := StoreGroups(active.value, space, chunk, bytes.value, |chunk|),
                       space := Some(space), linked := p.linked + Size(chunk, |chunk|)))
  }

  /** One chunk; `rest` is the chunk and everything after it. */
  function EmbedChunk(p: Progress, chunk: seq<Group>, rest: seq<Group>, call: nat, model: Model, provider: Provider,
                      arith: Arithmetic): Turn
    requires |chunk| > 0
  {
    var q := p.(inputs := p.inputs + |chunk|, sent := p.sent + Hashes(chunk));
    match provider(model, call, Hashes(chunk))
    case Refused(e) => if Systemic(e) then Stop(FailPending(q, rest, e)) else Continue(FailPending(q, chunk, e))
    case Vectors(batch) =>
      match ValidateBatch(batch, |chunk|, if q.space.Some? then Some(q.space.value.dimensions) else None, arith)
      case Rejected(e) => Continue(FailPending(q, chunk, e))
      case Accepted(vectors) => StoreBatch(q, chunk, vectors, model, arith)
  }

  function ChunkSize(pending: seq<Group>, batch: nat): nat {
    if |pending| <= batch then |pending| else batch
  }

  /** The chunk loop from the first of `pending` on. */
  function EmbedAll(p: Progress, pending: seq<Group>, call: nat, model: Model, provider: Provider, batch: nat,
                    arith: Arithmetic): Turn
    requires batch > 0
    decreases |pending|
  {
    if pending == [] then Continue(p)
    else
      var n := ChunkSize(pending, batch);
      match EmbedChunk(p, pending[..n], pending, call, model, provider, arith)
      case Continue(q) => EmbedAll(q, pending[n..], call + 1, model, provider, batch, arith)
      case Stop(q) => Stop(q)
      case Abort(t) => Abort(t)
  }

  datatype Status = FailedRun | Partial | Complete

  datatype Report = Report(space: Option<Space>, active: nat, hits: nat, inputs: nat, linked: nat, missing: nat,
                           failed: nat, status: Status, error: Option<ErrorKind>)

  datatype SyncResult = Reported(t: Tables, report: Report, sent: seq<TextHash>) | StorageFailed(t: Tables)

  /** The tail of a run: the active space once more, then the report. */
  function Finish(p: Progress, total: nat): SyncResult {
    var missing := if total >= p.linked then total - p.linked else 0;
    Reported(p.t.(active := if p.space.Some? then p.space else p.t.active),
             Report(p.space, total, p.hits, p.inputs, p.linked, missing, p.failed,
                    if p.failed == 0 && missing == 0 then Complete else Partial,
                    if p.failed > 0 then (if p.error.Some? then p.error else Some(Failed)) else None),
             p.sent)
  }

  function Start(t: Tables, space: Option<Space>): Progress {
    Progress(t, space, 0, 0, 0, 0, [], None)
  }

  /** The dimensions the run starts with: the resolved ones, else those of a known space of the model. */
  function StartDimensions(resolved: Option<nat>, existing: Option<nat>): Option<nat> {
    if resolved.Some? then resolved else existing
  }

  /** What `find_existing_dimensions` may find: the newest space of the model, by clock values. */
  ghost predicate ExistingDimensions(t: Tables, model: Model, existing: Option<nat>) {
    && (existing.Some? ==> Space(model, existing.value) in t.spaces)
    && (existing.None? ==> forall s :: s in t.spaces ==> s.model != model)
  }

  function Synchronize(t: Tables, groups: seq<Group>, resolution: Resolution, existing: Option<nat>, provider: Provider,
                       batch: nat, arith: Arithmetic): SyncResult
    requires batch > 0
  {
    var total := Size(groups, |groups|);
    match resolution
    case Unresolved(e) => Reported(t, Report(None, total, 0, 0, 0, total, total, FailedRun, Some(e)), [])
    case Resolved(model, dimensions) =>
      var start := StartDimensions(dimensions, existing);
      var begun := if start.Some? then ActivateSpace(t, Space(model, start.value)) else Some(t.(active := None));
      if begun.None? then StorageFailed(t)
      else
        var space := if start.Some? then Some(Space(model, start.value)) else None;
        var (scanned, pending) := ScanCache(Start(begun.value, space), groups, |groups|, arith);
        match EmbedAll(scanned, pending, 0, model, provider, batch, arith)
        case Continue(p) => Finish(p, total)
        case Stop(p) => Finish(p, total)
        case Abort(u) => StorageFailed(u)
  }
}
