/**
 Whose answer each cache row holds: after a run, exactly the accepted answers of
 its requests are stored, each under the hash of the text it was given for.
 */
module EmbeddingContents {
  import opened Prelude
  import opened EmbeddingTables
  import opened EmbeddingSync
  import opened EmbeddingTheorems
  import opened EmbeddingHealing
  import opened EmbeddingAccounts

  /** What the provider was asked, and when. */
  datatype Request = Request(call: nat, texts: seq<TextHash>)

  /** The requests of a pass whose answers were dealt with before it ended. */
  function Served(p: Progress, pending: seq<Group>, call: nat, model: Model, provider: Provider, batch: nat,
                  arith: Arithmetic): seq<Request>
    requires batch > 0
    decreases |pending|
  {
    if pending == [] then []
    else
      var n := ChunkSize(pending, batch);
      var first := Request(call, Hashes(pending[..n]));
      match EmbedChunk(p, pending[..n], pending, call, model, provider, arith)
      case Continue(q) => [first] + Served(q, pending[n..], call + 1, model, provider, batch, arith)
      case Stop(q) => [first]
      case Abort(t) => []
  }

  /** The answer is one vector per text, all of this many finite components and a norm. */
  ghost predicate Admitted(q: Request, dimensions: nat, model: Model, provider: Provider, arith: Arithmetic) {
    var answer := provider(model, q.call, q.texts);
    answer.Vectors? && ValidateBatch(answer.batch, |q.texts|, Some(dimensions), arith).Accepted?
  }

  /** The bytes are those of `v`, normalized on receipt and once more on encoding. */
  ghost predicate HoldsAnswer(cell: Cell, v: seq<Component>, model: Model, arith: Arithmetic) {
    arith.normalize(v).Some? &&
    var once := arith.normalize(v).value;
    && arith.normalize(once).Some?
    && cell == Cell(arith.layOut(arith.normalize(once).value), |once|, Origin(model, |once|))
  }

  /** The row of the request's i-th text holds its i-th answer. */
  ghost predicate RowStored(u: Tables, space: Space, q: Request, i: nat, model: Model, provider: Provider,
                            arith: Arithmetic)
    requires i < |q.texts|
  {
    var answer := provider(model, q.call, q.texts);
    && (space, q.texts[i]) in u.vectors && answer.Vectors? && i < |answer.batch|
    && HoldsAnswer(u.vectors[(space, q.texts[i])], answer.batch[i], model, arith)
  }

  ghost predicate RequestStored(u: Tables, space: Space, q: Request, model: Model, provider: Provider,
                                arith: Arithmetic) {
    Admitted(q, space.dimensions, model, provider, arith) ==>
      forall i :: 0 <= i < |q.texts| ==> RowStored(u, space, q, i, model, provider, arith)
  }

  ghost predicate AsksFor(q: Request, space: Space, k: (Space, TextHash), model: Model, provider: Provider,
                          arith: Arithmetic) {
    Admitted(q, space.dimensions, model, provider, arith) && k.0 == space && k.1 in q.texts
  }

  ghost predicate Asked(requests: seq<Request>, space: Space, k: (Space, TextHash), model: Model, provider: Provider,
                        arith: Arithmetic) {
    exists j :: 0 <= j < |requests| && AsksFor(requests[j], space, k, model, provider, arith)
  }

  ghost predicate SameRow(t: Tables, u: Tables, k: (Space, TextHash)) {
    k in t.vectors && k in u.vectors && u.vectors[k] == t.vectors[k]
  }

  /** Between `t` and `u` exactly the accepted answers to these requests were stored. */
  ghost predicate Stores(t: Tables, u: Tables, requests: seq<Request>, model: Model, provider: Provider,
                         arith: Arithmetic) {
    match u.active
    case None =>
      && t.active.None?
      && (forall k :: k in u.vectors || k in t.vectors ==> SameRow(t, u, k))
      && (forall j, d :: 0 <= j < |requests| ==> !Admitted(requests[j], d, model, provider, arith))
    case Some(space) =>
      && (t.active.Some? ==> t.active == u.active)
      && (forall j :: 0 <= j < |requests| ==> RequestStored(u, space, requests[j], model, provider, arith))
      && (forall k :: k in t.vectors ==> k in u.vectors)
      && (forall k :: k in u.vectors ==> SameRow(t, u, k) || Asked(requests, space, k, model, provider, arith))
  }

  // ----------------------------------------------------------------- a chunk

  /** The rows of a stored chunk. */
  lemma {:induction false} StoreGroupsRow(t: Tables, space: Space, chunk: seq<Group>, bytes: seq<Encoded>, n: nat,
                                          i: nat)
    requires DistinctHashes(chunk) && i < n <= |chunk| && n <= |bytes|
    ensures var post, k := StoreGroups(t, space, chunk, bytes, n), (space, chunk[i].hash);
            k in post.vectors && post.vectors[k] == Cell(bytes[i].vectorBytes, space.dimensions, bytes[i].madeBy)
  {
    var g := chunk[n - 1];
    var stored := StoreVector(StoreGroups(t, space, chunk, bytes, n - 1), space, g.hash, bytes[n - 1]);
    LinkRefsVectors(stored, space, g, |g.refs|);
    if i < n - 1 {
      StoreGroupsRow(t, space, chunk, bytes, n - 1, i);
      DifferentHash(chunk, i, n - 1);
    }
  }

  /** Every other row is as it was. */
  lemma {:induction false} StoreGroupsOtherRow(t: Tables, space: Space, chunk: seq<Group>, bytes: seq<Encoded>, n: nat,
                                               k: (Space, TextHash))
    requires n <= |chunk| && n <= |bytes|
    requires forall i :: 0 <= i < n ==> k != (space, chunk[i].hash)
    ensures var post := StoreGroups(t, space, chunk, bytes, n);
            (k in post.vectors <==> k in t.vectors) && (k in t.vectors ==> post.vectors[k] == t.vectors[k])
  {
    if n > 0 {
      var g := chunk[n - 1];
      var stored := StoreVector(StoreGroups(t, space, chunk, bytes, n - 1), space, g.hash, bytes[n - 1]);
      LinkRefsVectors(stored, space, g, |g.refs|);
      StoreGroupsOtherRow(t, space, chunk, bytes, n - 1, k);
    }
  }

  /** `normalize_vector` keeps the number of components. */
  ghost predicate KeepsLength(arith: Arithmetic) {
    forall v :: arith.normalize(v).Some? ==> |arith.normalize(v).value| == |v|
  }

  function Known(space: Option<Space>): Option<nat> {
    if space.Some? then Some(space.value.dimensions) else None
  }

  /** An answer turned down now is turned down whatever its length should be. */
  lemma RejectedStays(q: Request, known: Option<nat>, d: nat, model: Model, provider: Provider, arith: Arithmetic)
    requires var answer := provider(model, q.call, q.texts);
             answer.Refused? || ValidateBatch(answer.batch, |q.texts|, known, arith).Rejected?
    requires known.None? || known == Some(d)
    ensures !Admitted(q, d, model, provider, arith)
  {
  }

  lemma NothingStored(t: Tables, u: Tables, q: Request, known: Option<nat>, model: Model, provider: Provider,
                      arith: Arithmetic)
    requires var answer := provider(model, q.call, q.texts);
             answer.Refused? || ValidateBatch(answer.batch, |q.texts|, known, arith).Rejected?
    requires known == Known(t.active) && u.vectors == t.vectors && u.active == t.active
    ensures Stores(t, u, [q], model, provider, arith)
  {
    forall d: nat | known.None? || known == Some(d) ensures !Admitted(q, d, model, provider, arith) {
      RejectedStays(q, known, d, model, provider, arith);
    }
  }

  lemma NothingAsked(t: Tables, u: Tables, model: Model, provider: Provider, arith: Arithmetic)
    requires u.vectors == t.vectors && (t.active.Some? ==> u.active == t.active)
    ensures Stores(t, u, [], model, provider, arith)
  {
  }

  /** One stored batch. */
  lemma BatchStored(t: Tables, active: Tables, space: Space, chunk: seq<Group>, q: Request,
                    batch: seq<seq<Component>>, vectors: seq<seq<Component>>, bytes: seq<Encoded>, model: Model,
                    provider: Provider, arith: Arithmetic)
    requires KeepsLength(arith) && chunk != [] && DistinctHashes(chunk) && q.texts == Hashes(chunk)
    requires provider(model, q.call, q.texts) == Vectors(batch)
    requires ValidateBatch(batch, |chunk|, Known(t.active), arith) == Accepted(vectors) && |vectors| == |chunk|
    requires active.vectors == t.vectors && active.active == Some(space) && (t.active.Some? ==> t.active == Some(space))
    requires EncodeAll(vectors, |vectors|, space.dimensions, model, arith) == Some(bytes)
    requires t.active.None? ==> space.dimensions == |vectors[0]|
    ensures Stores(t, StoreGroups(active, space, chunk, bytes, |chunk|), [q], model, provider, arith)
  {
    var u := StoreGroups(active, space, chunk, bytes, |chunk|);
    StoreGroupsActive(active, space, chunk, bytes, |chunk|);
    NormalizedEach(batch, arith, vectors);
    forall i | 0 <= i < |chunk| ensures RowStored(u, space, q, i, model, provider, arith) {
      StoreGroupsRow(active, space, chunk, bytes, |chunk|, i);
      assert Encode(vectors[i], space.dimensions, model, arith) == Some(bytes[i]);
    }
    assert Admitted(q, space.dimensions, model, provider, arith);
    forall k | k in t.vectors ensures k in u.vectors {
      RowAfter(active, space, chunk, bytes, k);
    }
    forall k | k in u.vectors ensures SameRow(t, u, k) || Asked([q], space, k, model, provider, arith) {
      RowAfter(active, space, chunk, bytes, k);
      if !SameRow(t, u, k) {
        assert AsksFor([q][0], space, k, model, provider, arith);
      }
    }
  }

  lemma NormalizedEach(batch: seq<seq<Component>>, arith: Arithmetic, vectors: seq<seq<Component>>)
    requires NormalizeAll(batch, |batch|, arith) == Some(vectors)
    ensures |vectors| == |batch| && forall i :: 0 <= i < |batch| ==> arith.normalize(batch[i]) == Some(vectors[i])
  {
  }

  lemma {:induction false} StoreGroupsActive(t: Tables, space: Space, chunk: seq<Group>, bytes: seq<Encoded>, n: nat)
    requires n <= |chunk| && n <= |bytes|
    ensures StoreGroups(t, space, chunk, bytes, n).active == t.active
  {
    if n > 0 {
      var g := chunk[n - 1];
      StoreGroupsActive(t, space, chunk, bytes, n - 1);
      var stored := StoreVector(StoreGroups(t, space, chunk, bytes, n - 1), space, g.hash, bytes[n - 1]);
      LinkRefsActive(stored, space, g, |g.refs|);
    }
  }

  lemma {:induction false} LinkRefsActive(t: Tables, space: Space, g: Group, n: nat)
    requires n <= |g.refs|
    ensures LinkRefs(t, space, g.hash, g.refs, n).active == t.active
  {
    if n > 0 {
      LinkRefsActive(t, space, g, n - 1);
    }
  }

  /** A row after a batch is of the batch or as it was. */
  lemma RowAfter(t: Tables, space: Space, chunk: seq<Group>, bytes: seq<Encoded>, k: (Space, TextHash))
    requires DistinctHashes(chunk) && |bytes| == |chunk|
    ensures var u := StoreGroups(t, space, chunk, bytes, |chunk|);
            && (k in t.vectors ==> k in u.vectors)
            && (k in u.vectors ==> SameRow(t, u, k) || (k.0 == space && k.1 in Hashes(chunk)))
  {
    if i :| 0 <= i < |chunk| && k == (space, chunk[i].hash) {
      StoreGroupsRow(t, space, chunk, bytes, |chunk|, i);
      assert Hashes(chunk)[i] == k.1;
    } else {
      StoreGroupsOtherRow(t, space, chunk, bytes, |chunk|, k);
    }
  }

  function TablesOf(turn: Turn): Tables {
    match turn
    case Continue(p) => p.t
    case Stop(p) => p.t
    case Abort(t) => t
  }

  lemma ChunkStores(p: Progress, pending: seq<Group>, n: nat, call: nat, model: Model, provider: Provider,
                    arith: Arithmetic)
    requires RunOk(p, model) && AllFit(p.t, pending) && AllMissing(p.t, p.space, model, pending)
    requires DistinctHashes(pending) && 0 < n <= |pending| && KeepsLength(arith)
    ensures var turn := EmbedChunk(p, pending[..n], pending, call, model, provider, arith);
            var served := if turn.Abort? then [] else [Request(call, Hashes(pending[..n]))];
            Stores(p.t, TablesOf(turn), served, model, provider, arith)
  {
    var chunk := pending[..n];
    var q := p.(inputs := p.inputs + |chunk|, sent := p.sent + Hashes(chunk));
    var request := Request(call, Hashes(chunk));
    TailOk(p.t, p.space, model, pending, n);
    match provider(model, call, Hashes(chunk))
    case Refused(e) =>
      FailedStores(q, if Systemic(e) then pending else chunk, e, request, model, provider, arith);
    case Vectors(batch) =>
      match ValidateBatch(batch, |chunk|, Known(q.space), arith)
      case Rejected(e) => FailedStores(q, chunk, e, request, model, provider, arith);
      case Accepted(vectors) => AcceptedStores(q, chunk, request, batch, vectors, model, provider, arith);
  }

  lemma FailedStores(q: Progress, part: seq<Group>, e: ErrorKind, request: Request, model: Model, provider: Provider,
                     arith: Arithmetic)
    requires RunOk(q, model) && AllFit(q.t, part) && AllMissing(q.t, q.space, model, part)
    requires var answer := provider(model, request.call, request.texts);
             answer.Refused? || ValidateBatch(answer.batch, |request.texts|, Known(q.space), arith).Rejected?
    ensures Stores(q.t, FailPending(q, part, e).t, [request], model, provider, arith)
  {
    FailPendingKeeps(q, part, e, model);
    NothingStored(q.t, FailPending(q, part, e).t, request, Known(q.space), model, provider, arith);
  }

  lemma AcceptedStores(q: Progress, chunk: seq<Group>, request: Request, batch: seq<seq<Component>>,
                       vectors: seq<seq<Component>>, model: Model, provider: Provider, arith: Arithmetic)
    requires q.space == q.t.active && chunk != [] && DistinctHashes(chunk) && KeepsLength(arith)
    requires request.texts == Hashes(chunk) && provider(model, request.call, request.texts) == Vectors(batch)
    requires ValidateBatch(batch, |chunk|, Known(q.space), arith) == Accepted(vectors) && |vectors| == |chunk|
    ensures var turn := StoreBatch(q, chunk, vectors, model, arith);
            && (turn.Abort? ==> Stores(q.t, turn.t, [], model, provider, arith))
            && (turn.Continue? ==> Stores(q.t, turn.p.t, [request], model, provider, arith))
            && !turn.Stop?
  {
    var space := if q.space.Some? then q.space.value else Space(model, |vectors[0]|);
    var active := if q.space.Some? then Some(q.t) else ActivateSpace(q.t, space);
    if active.Some? {
      ActiveKeepsRows(q, active.value, space);
    }
    if active.Some? && EncodeAll(vectors, |vectors|, space.dimensions, model, arith).Some? {
      var bytes := EncodeAll(vectors, |vectors|, space.dimensions, model, arith).value;
      BatchGoesOn(q, chunk, vectors, model, arith, space, active.value, bytes);
      BatchStored(q.t, active.value, space, chunk, request, batch, vectors, bytes, model, provider, arith);
    } else {
      BatchAborts(q, chunk, vectors, model, arith, space, active);
      NothingAsked(q.t, if active.None? then q.t else active.value, model, provider, arith);
    }
  }

  lemma ActiveKeepsRows(q: Progress, active: Tables, space: Space)
    requires q.space == q.t.active
    requires if q.space.Some? then space == q.space.value && active == q.t
             else ActivateSpace(q.t, space) == Some(active)
    ensures active.vectors == q.t.vectors && active.active == Some(space)
    ensures q.t.active.Some? ==> q.t.active == active.active
  {
  }

  lemma BatchAborts(q: Progress, chunk: seq<Group>, vectors: seq<seq<Component>>, model: Model, arith: Arithmetic,
                    space: Space, active: Option<Tables>)
    requires |vectors| == |chunk| > 0
    requires space == if q.space.Some? then q.space.value else Space(model, |vectors[0]|)
    requires active == if q.space.Some? then Some(q.t) else ActivateSpace(q.t, space)
    requires active.Some? ==> EncodeAll(vectors, |vectors|, space.dimensions, model, arith).None?
    ensures StoreBatch(q, chunk, vectors, model, arith) == Abort(if active.None? then q.t else active.value)
  {
  }

  lemma BatchGoesOn(q: Progress, chunk: seq<Group>, vectors: seq<seq<Component>>, model: Model, arith: Arithmetic,
                    space: Space, active: Tables, bytes: seq<Encoded>)
    requires |vectors| == |chunk| > 0
    requires space == if q.space.Some? then q.space.value else Space(model, |vectors[0]|)
    requires Some(active) == if q.space.Some? then Some(q.t) else ActivateSpace(q.t, space)
    requires EncodeAll(vectors, |vectors|, space.dimensions, model, arith) == Some(bytes)
    ensures var turn := StoreBatch(q, chunk, vectors, model, arith);
            turn.Continue? && turn.p.t == StoreGroups(active, space, chunk, bytes, |chunk|)
  {
  }

  // ------------------------------------------------------------------ a pass

  ghost predicate NoTextOf(q: Request, rest: seq<Request>) {
    forall j :: 0 <= j < |rest| ==> TextsApart(q, rest[j])
  }

  ghost predicate TextsApart(q: Request, r: Request) {
    forall h :: h in q.texts ==> h !in r.texts
  }

  lemma StillStored(q: Tables, u: Tables, space: Space, first: Request, rest: seq<Request>, model: Model,
                    provider: Provider, arith: Arithmetic)
    requires q.active == Some(space) == u.active && RequestStored(q, space, first, model, provider, arith)
    requires Stores(q, u, rest, model, provider, arith) && NoTextOf(first, rest)
    ensures RequestStored(u, space, first, model, provider, arith)
  {
    if Admitted(first, space.dimensions, model, provider, arith) {
      forall i | 0 <= i < |first.texts| ensures RowStored(u, space, first, i, model, provider, arith) {
        var k := (space, first.texts[i]);
        assert RowStored(q, space, first, i, model, provider, arith);
        NotAskedFor(first, rest, space, k, model, provider, arith);
        assert SameRow(q, u, k);
      }
    }
  }

  lemma NotAskedFor(first: Request, rest: seq<Request>, space: Space, k: (Space, TextHash), model: Model,
                    provider: Provider, arith: Arithmetic)
    requires NoTextOf(first, rest) && k.1 in first.texts
    ensures !Asked(rest, space, k, model, provider, arith)
  {
    forall j | 0 <= j < |rest| ensures !AsksFor(rest[j], space, k, model, provider, arith) {
      assert TextsApart(first, rest[j]);
    }
  }

  lemma AskedMore(first: Request, rest: seq<Request>, space: Space, k: (Space, TextHash), model: Model,
                  provider: Provider, arith: Arithmetic)
    ensures Asked([first], space, k, model, provider, arith) || Asked(rest, space, k, model, provider, arith) ==>
              Asked([first] + rest, space, k, model, provider, arith)
  {
    var all := [first] + rest;
    if Asked([first], space, k, model, provider, arith) {
      assert AsksFor(all[0], space, k, model, provider, arith);
    }
    if j :| 0 <= j < |rest| && AsksFor(rest[j], space, k, model, provider, arith) {
      assert AsksFor(all[j + 1], space, k, model, provider, arith);
    }
  }

  lemma StoresOnward(t: Tables, q: Tables, u: Tables, first: Request, rest: seq<Request>, model: Model,
                     provider: Provider, arith: Arithmetic)
    requires Stores(t, q, [first], model, provider, arith) && Stores(q, u, rest, model, provider, arith)
    requires NoTextOf(first, rest)
    ensures Stores(t, u, [first] + rest, model, provider, arith)
  {
    var all := [first] + rest;
    match u.active
    case None =>
      forall k | k in u.vectors || k in t.vectors ensures SameRow(t, u, k) {
        assert SameRow(q, u, k) && SameRow(t, q, k);
      }
      forall j, d | 0 <= j < |all| ensures !Admitted(all[j], d, model, provider, arith) {
        if j == 0 {
          assert !Admitted([first][0], d, model, provider, arith);
        } else {
          assert !Admitted(rest[j - 1], d, model, provider, arith);
        }
      }
    case Some(space) => StoresOnwardIn(t, q, u, space, first, rest, model, provider, arith);
  }

  lemma StoresOnwardIn(t: Tables, q: Tables, u: Tables, space: Space, first: Request, rest: seq<Request>,
                       model: Model, provider: Provider, arith: Arithmetic)
    requires Stores(t, q, [first], model, provider, arith) && Stores(q, u, rest, model, provider, arith)
    requires NoTextOf(first, rest) && u.active == Some(space)
    ensures Stores(t, u, [first] + rest, model, provider, arith)
  {
    var all := [first] + rest;
    forall j | 0 <= j < |all| ensures RequestStored(u, space, all[j], model, provider, arith) {
      if j == 0 {
        if q.active.Some? {
          assert RequestStored(q, space, [first][0], model, provider, arith);
          StillStored(q, u, space, first, rest, model, provider, arith);
        } else {
          assert !Admitted([first][0], space.dimensions, model, provider, arith);
        }
      } else {
        assert RequestStored(u, space, rest[j - 1], model, provider, arith);
      }
    }
    forall k | k in u.vectors ensures SameRow(t, u, k) || Asked(all, space, k, model, provider, arith) {
      AskedMore(first, rest, space, k, model, provider, arith);
      if SameRow(q, u, k) && q.active.None? {
        assert SameRow(t, q, k);
      }
    }
    forall k | k in t.vectors ensures k in u.vectors {
      assert q.active.None? ==> SameRow(t, q, k);
    }
  }

  ghost predicate TextsWithin(q: Request, all: seq<TextHash>) {
    forall h :: h in q.texts ==> h in all
  }

  ghost predicate AllWithin(requests: seq<Request>, all: seq<TextHash>) {
    forall j :: 0 <= j < |requests| ==> TextsWithin(requests[j], all)
  }

  lemma WithinMore(first: Request, rest: seq<Request>, others: seq<TextHash>)
    requires AllWithin(rest, others)
    ensures AllWithin([first] + rest, first.texts + others)
  {
    var all := [first] + rest;
    forall j | 0 <= j < |all| ensures TextsWithin(all[j], first.texts + others) {
      assert j > 0 ==> TextsWithin(rest[j - 1], others);
    }
  }

  lemma {:induction false} ServedFromPending(p: Progress, pending: seq<Group>, call: nat, model: Model,
                                             provider: Provider, batch: nat, arith: Arithmetic)
    requires batch > 0
    ensures AllWithin(Served(p, pending, call, model, provider, batch, arith), Hashes(pending))
    decreases |pending|
  {
    if pending != [] {
      var n := ChunkSize(pending, batch);
      HashesAppend(pending[..n], pending[n..]);
      assert pending[..n] + pending[n..] == pending;
      var first := Request(call, Hashes(pending[..n]));
      WithinMore(first, [], Hashes(pending[n..]));
      var turn := EmbedChunk(p, pending[..n], pending, call, model, provider, arith);
      if turn.Continue? {
        ServedFromPending(turn.p, pending[n..], call + 1, model, provider, batch, arith);
        WithinMore(first, Served(turn.p, pending[n..], call + 1, model, provider, batch, arith), Hashes(pending[n..]));
      } else {
        assert [first] + [] == [first];
      }
    }
  }

  lemma ChunkGoesOn(p: Progress, pending: seq<Group>, n: nat, call: nat, model: Model, provider: Provider,
                    arith: Arithmetic)
    requires RunOk(p, model) && AllFit(p.t, pending) && AllMissing(p.t, p.space, model, pending)
    requires DistinctHashes(pending) && 0 < n <= |pending|
    requires EmbedChunk(p, pending[..n], pending, call, model, provider, arith).Continue?
    ensures var q := EmbedChunk(p, pending[..n], pending, call, model, provider, arith).p;
            && RunOk(q, model) && AllFit(q.t, pending[n..]) && AllMissing(q.t, q.space, model, pending[n..])
            && DistinctHashes(pending[n..])
  {
    var q := EmbedChunk(p, pending[..n], pending, call, model, provider, arith).p;
    EmbedChunkKeeps(p, pending, n, call, model, provider, arith);
    TailOk(p.t, p.space, model, pending, n);
    FitsAgain(p.t, q.t, pending[n..]);
  }

  lemma {:induction false} PassStores(p: Progress, pending: seq<Group>, call: nat, model: Model, provider: Provider,
                                      batch: nat, arith: Arithmetic)
    requires batch > 0 && RunOk(p, model) && AllFit(p.t, pending) && AllMissing(p.t, p.space, model, pending)
    requires DistinctHashes(pending) && KeepsLength(arith)
    ensures Stores(p.t, TablesOf(EmbedAll(p, pending, call, model, provider, batch, arith)),
                   Served(p, pending, call, model, provider, batch, arith), model, provider, arith)
    decreases |pending|
  {
    if pending == [] {
      NothingAsked(p.t, p.t, model, provider, arith);
    } else {
      var n := ChunkSize(pending, batch);
      ChunkStores(p, pending, n, call, model, provider, arith);
      var turn := EmbedChunk(p, pending[..n], pending, call, model, provider, arith);
      if turn.Continue? {
        var q := turn.p;
        ChunkGoesOn(p, pending, n, call, model, provider, arith);
        PassStores(q, pending[n..], call + 1, model, provider, batch, arith);
        RestApart(q, pending, n, call, model, provider, batch, arith);
        StoresOnward(p.t, q.t, TablesOf(EmbedAll(q, pending[n..], call + 1, model, provider, batch, arith)),
                     Request(call, Hashes(pending[..n])),
                     Served(q, pending[n..], call + 1, model, provider, batch, arith), model, provider, arith);
      }
    }
  }

  lemma RestApart(q: Progress, pending: seq<Group>, n: nat, call: nat, model: Model, provider: Provider, batch: nat,
                  arith: Arithmetic)
    requires batch > 0 && DistinctHashes(pending) && n <= |pending|
    ensures NoTextOf(Request(call, Hashes(pending[..n])),
                     Served(q, pending[n..], call + 1, model, provider, batch, arith))
  {
    var first := Request(call, Hashes(pending[..n]));
    var rest := Served(q, pending[n..], call + 1, model, provider, batch, arith);
    ServedFromPending(q, pending[n..], call + 1, model, provider, batch, arith);
    forall j | 0 <= j < |rest| ensures TextsApart(first, rest[j]) {
      forall h | h in first.texts ensures h !in rest[j].texts {
        var i :| 0 <= i < n && first.texts[i] == h;
        HashNotIn(pending, n, i);
        assert TextsWithin(rest[j], Hashes(pending[n..]));
      }
    }
  }

  // --------------------------------------------------------- the cache pass

  /** Nothing is written; a row goes if and only if it is damaged and its text's group was read. */
  ghost predicate OnlyDamageDropped(t: Tables, u: Tables, space: Space, groups: seq<Group>, n: nat, arith: Arithmetic)
    requires n <= |groups|
  {
    && (forall k :: k in u.vectors ==> SameRow(t, u, k))
    && (forall k :: k in t.vectors && k !in u.vectors ==> DamagedRow(t, space, k, arith))
    && (forall i :: 0 <= i < n && LoadCache(t, space, groups[i].hash, arith) == Corrupt ==>
          (space, groups[i].hash) !in u.vectors)
  }

  ghost predicate DamagedRow(t: Tables, space: Space, k: (Space, TextHash), arith: Arithmetic) {
    k.0 == space && LoadCache(t, k.0, k.1, arith) == Corrupt
  }

  lemma {:induction false} ScanDrops(p: Progress, groups: seq<Group>, n: nat, arith: Arithmetic, model: Model,
                                     space: Space)
    requires RunOk(p, model) && p.space == Some(space) && AllFit(p.t, groups) && DistinctHashes(groups) && n <= |groups|
    ensures OnlyDamageDropped(p.t, ScanCache(p, groups, n, arith).0.t, space, groups, n, arith)
  {
    if n > 0 {
      ScanDrops(p, groups, n - 1, arith, model, space);
      var b := ScanCache(p, groups, n - 1, arith).0;
      assert b.space == Some(space)
          && LoadCache(b.t, space, groups[n - 1].hash, arith) == LoadCache(p.t, space, groups[n - 1].hash, arith) by {
        ScanReaches(p, groups, n - 1, arith, model);
      }
      DropsNext(p.t, b, groups, n, arith, space);
    }
  }

  lemma DropsNext(t: Tables, b: Progress, groups: seq<Group>, n: nat, arith: Arithmetic, space: Space)
    requires 0 < n <= |groups| && b.space == Some(space) && OnlyDamageDropped(t, b.t, space, groups, n - 1, arith)
    requires LoadCache(b.t, space, groups[n - 1].hash, arith) == LoadCache(t, space, groups[n - 1].hash, arith)
    ensures OnlyDamageDropped(t, ScanOne(b, groups[n - 1], arith).0.t, space, groups, n, arith)
  {
    var g := groups[n - 1];
    match LoadCache(b.t, space, g.hash, arith)
    case Hit => LinkRefsVectors(b.t, space, g, |g.refs|);
    case Miss =>
    case Corrupt => FailRefsSame(DropVector(b.t, space, g.hash), space, g.refs, |g.refs|);
  }

  // --------------------------------------------------------------- whole runs

  /** The requests of a whole run. */
  function RunRequests(t: Tables, groups: seq<Group>, model: Model, dimensions: Option<nat>, existing: Option<nat>,
                       provider: Provider, batch: nat, arith: Arithmetic): seq<Request>
    requires batch > 0
  {
    var start := StartDimensions(dimensions, existing);
    var begun := if start.Some? then ActivateSpace(t, Space(model, start.value)) else Some(t.(active := None));
    if begun.None? then []
    else
      var space := if start.Some? then Some(Space(model, start.value)) else None;
      var (scanned, pending) := ScanCache(Start(begun.value, space), groups, |groups|, arith);
      Served(scanned, pending, 0, model, provider, batch, arith)
  }

  /**
   The rows after a run: every accepted answer is stored under its text, every
   other row is as it was or, if it was damaged and its text is active, gone.
   */
  ghost predicate RunStored(t: Tables, u: Tables, groups: seq<Group>, requests: seq<Request>, model: Model,
                            provider: Provider, arith: Arithmetic) {
    match u.active
    case None => forall k :: k in u.vectors || k in t.vectors ==> SameRow(t, u, k)
    case Some(space) =>
      && (forall j :: 0 <= j < |requests| ==> RequestStored(u, space, requests[j], model, provider, arith))
      && (forall k :: k in u.vectors ==> SameRow(t, u, k) || Asked(requests, space, k, model, provider, arith))
      && (forall k :: k in t.vectors && k !in u.vectors ==> DamagedRow(t, space, k, arith))
      && (forall i :: 0 <= i < |groups| && LoadCache(t, space, groups[i].hash, arith) == Corrupt ==>
            (space, groups[i].hash) !in u.vectors)
  }

  lemma DamagedIsNotPending(q: Progress, pending: seq<Group>, p: Progress, space: Space, groups: seq<Group>, i: nat,
                            arith: Arithmetic)
    requires PendingOk(q, pending, groups, |groups|) && ScanSettled(p, q, pending, space, groups, |groups|, arith)
    requires i < |groups| && LoadCache(p.t, space, groups[i].hash, arith) == Corrupt
    ensures groups[i].hash !in Hashes(pending)
  {
    forall j | 0 <= j < |pending| ensures Hashes(pending)[j] != groups[i].hash {
      assert LoadCache(p.t, space, pending[j].hash, arith) == Miss;
    }
  }

  lemma AskedIsPending(requests: seq<Request>, hashes: seq<TextHash>, space: Space, k: (Space, TextHash), model: Model,
                       provider: Provider, arith: Arithmetic)
    requires AllWithin(requests, hashes) && Asked(requests, space, k, model, provider, arith)
    ensures k.1 in hashes
  {
    var j :| 0 <= j < |requests| && AsksFor(requests[j], space, k, model, provider, arith);
    assert TextsWithin(requests[j], hashes);
  }

  /** The cache pass and the provider pass together, in a known space. */
  lemma KnownStores(p: Progress, groups: seq<Group>, model: Model, provider: Provider, batch: nat, arith: Arithmetic,
                    space: Space)
    requires batch > 0 && RunOk(p, model) && p.space == Some(space) && AllFit(p.t, groups) && DistinctHashes(groups)
    requires KeepsLength(arith)
    ensures var (q, pending) := ScanCache(p, groups, |groups|, arith);
            RunStored(p.t, TablesOf(EmbedAll(q, pending, 0, model, provider, batch, arith)), groups,
                      Served(q, pending, 0, model, provider, batch, arith), model, provider, arith)
  {
    AfterScan(p, groups, model, arith);
    ScanDrops(p, groups, |groups|, arith, model, space);
    var (q, pending) := ScanCache(p, groups, |groups|, arith);
    PassStores(q, pending, 0, model, provider, batch, arith);
    ServedFromPending(q, pending, 0, model, provider, batch, arith);
    ScanThenPass(p, q, pending, TablesOf(EmbedAll(q, pending, 0, model, provider, batch, arith)), groups,
                 Served(q, pending, 0, model, provider, batch, arith), space, model, provider, arith);
  }

  lemma ScanThenPass(p: Progress, q: Progress, pending: seq<Group>, u: Tables, groups: seq<Group>,
                     requests: seq<Request>, space: Space, model: Model, provider: Provider, arith: Arithmetic)
    requires OnlyDamageDropped(p.t, q.t, space, groups, |groups|, arith) && q.t.active == Some(space)
    requires PendingOk(q, pending, groups, |groups|) && ScanSettled(p, q, pending, space, groups, |groups|, arith)
    requires Stores(q.t, u, requests, model, provider, arith) && AllWithin(requests, Hashes(pending))
    ensures RunStored(p.t, u, groups, requests, model, provider, arith)
  {
    forall k | k in u.vectors ensures SameRow(p.t, u, k) || Asked(requests, space, k, model, provider, arith) {
      assert SameRow(q.t, u, k) ==> SameRow(p.t, q.t, k);
    }
    forall i | 0 <= i < |groups| && LoadCache(p.t, space, groups[i].hash, arith) == Corrupt
      ensures (space, groups[i].hash) !in u.vectors
    {
      var k := (space, groups[i].hash);
      DamagedIsNotPending(q, pending, p, space, groups, i, arith);
      if Asked(requests, space, k, model, provider, arith) {
        AskedIsPending(requests, Hashes(pending), space, k, model, provider, arith);
      }
    }
  }

  /** Without a known space everything is pending, and no row of the model exists. */
  lemma OpenStores(p: Progress, groups: seq<Group>, model: Model, provider: Provider, batch: nat, arith: Arithmetic)
    requires batch > 0 && RunOk(p, model) && p.space.None?
    requires AllFit(p.t, groups) && AllMissing(p.t, None, model, groups)
    requires DistinctHashes(groups) && KeepsLength(arith)
    ensures RunStored(p.t, TablesOf(EmbedAll(p, groups, 0, model, provider, batch, arith)), groups,
                      Served(p, groups, 0, model, provider, batch, arith), model, provider, arith)
  {
    PassStores(p, groups, 0, model, provider, batch, arith);
    EmbedAllKeeps(p, groups, 0, model, provider, batch, arith);
    var u := TablesOf(EmbedAll(p, groups, 0, model, provider, batch, arith));
    assert ActiveIsOf(u, model);
    OpenedStores(p.t, u, groups, Served(p, groups, 0, model, provider, batch, arith), model, provider, arith);
  }

  lemma OpenedStores(t: Tables, u: Tables, groups: seq<Group>, requests: seq<Request>, model: Model,
                     provider: Provider, arith: Arithmetic)
    requires VectorsSound(t) && AllMissing(t, None, model, groups) && ActiveIsOf(u, model)
    requires Stores(t, u, requests, model, provider, arith)
    ensures RunStored(t, u, groups, requests, model, provider, arith)
  {
    if u.active.Some? {
      UnknownIsUndamaged(t, u.active.value, model, groups, arith);
    }
  }

  lemma UnknownIsUndamaged(t: Tables, space: Space, model: Model, groups: seq<Group>, arith: Arithmetic)
    requires VectorsSound(t) && AllMissing(t, None, model, groups) && space.model == model
    ensures forall h :: LoadCache(t, space, h, arith) == Miss
  {
  }

  /** Only rows and the active space matter. */
  lemma RunStoredBetween(t: Tables, begun: Tables, u: Tables, post: Tables, groups: seq<Group>, requests: seq<Request>,
                         model: Model, provider: Provider, arith: Arithmetic)
    requires begun.vectors == t.vectors && post.vectors == u.vectors && post.active == u.active
    requires RunStored(begun, u, groups, requests, model, provider, arith)
    ensures RunStored(t, post, groups, requests, model, provider, arith)
  {
    if u.active.Some? {
      var space := u.active.value;
      forall j | 0 <= j < |requests| ensures RequestStored(post, space, requests[j], model, provider, arith) {
        assert RequestStored(u, space, requests[j], model, provider, arith);
        SameStored(u, post, space, requests[j], model, provider, arith);
      }
      forall k | k in t.vectors && k !in post.vectors ensures DamagedRow(t, space, k, arith) {
        assert DamagedRow(begun, space, k, arith);
      }
    }
  }

  lemma SameStored(u: Tables, post: Tables, space: Space, q: Request, model: Model, provider: Provider,
                   arith: Arithmetic)
    requires post.vectors == u.vectors && RequestStored(u, space, q, model, provider, arith)
    ensures RequestStored(post, space, q, model, provider, arith)
  {
    if Admitted(q, space.dimensions, model, provider, arith) {
      forall i | 0 <= i < |q.texts| ensures RowStored(post, space, q, i, model, provider, arith) {
        assert RowStored(u, space, q, i, model, provider, arith);
      }
    }
  }

  /**
   Whatever the provider answers, a run that gets past its opening statements
   stores each accepted answer under the text it was given for, and writes or
   drops no other row but damaged ones of active texts.
   */
  lemma RunStoresAnswers(t: Tables, groups: seq<Group>, model: Model, dimensions: Option<nat>, existing: Option<nat>,
                         provider: Provider, batch: nat, arith: Arithmetic)
    requires batch > 0 && Sync(t, groups, Resolved(model, dimensions), existing) && KeepsLength(arith)
    requires var start := StartDimensions(dimensions, existing); start.Some? ==> ValidDimensions(start.value)
    ensures var r := Synchronize(t, groups, Resolved(model, dimensions), existing, provider, batch, arith);
            RunStored(t, r.t, groups, RunRequests(t, groups, model, dimensions, existing, provider, batch, arith),
                      model, provider, arith)
  {
    var start := StartDimensions(dimensions, existing);
    var begun := if start.Some? then ActivateSpace(t, Space(model, start.value)).value else t.(active := None);
    Opening(t, groups, model, dimensions, existing, begun);
    var p := Start(begun, if start.Some? then Some(Space(model, start.value)) else None);
    if start.Some? {
      KnownStores(p, groups, model, provider, batch, arith, Space(model, start.value));
    } else {
      ScanWithoutSpace(p, groups, |groups|, arith);
      assert groups[..|groups|] == groups;
      OpenStores(p, groups, model, provider, batch, arith);
    }
    var (q, pending) := ScanCache(p, groups, |groups|, arith);
    ScanCacheKeeps(p, groups, |groups|, arith, model);
    PendingFits(p.t, q, pending, groups);
    if start.None? {
      assert AllMissing(q.t, q.space, model, pending);
    }
    EmbedAllKeeps(q, pending, 0, model, provider, batch, arith);
    var turn := EmbedAll(q, pending, 0, model, provider, batch, arith);
    var post := if turn.Abort? then turn.t else Finish(turn.p, Size(groups, |groups|)).t;
    RunStoredBetween(t, begun, TablesOf(turn), post, groups, Served(q, pending, 0, model, provider, batch, arith),
                     model, provider, arith);
  }

  /** The provider answers each text by its own vector, whenever it answers. */
  ghost predicate AnswersBy(provider: Provider, model: Model, v: TextHash -> seq<Component>) {
    forall call: nat, texts: seq<TextHash> :: ByText(provider(model, call, texts), texts, v)
  }

  ghost predicate ByText(answer: Response, texts: seq<TextHash>, v: TextHash -> seq<Component>) {
    answer.Vectors? ==> forall i :: 0 <= i < |texts| && i < |answer.batch| ==> answer.batch[i] == v(texts[i])
  }

  lemma AskedRowIsByText(u: Tables, space: Space, requests: seq<Request>, k: (Space, TextHash), model: Model,
                         provider: Provider, arith: Arithmetic, v: TextHash -> seq<Component>)
    requires AnswersBy(provider, model, v) && k in u.vectors && Asked(requests, space, k, model, provider, arith)
    requires forall j :: 0 <= j < |requests| ==> RequestStored(u, space, requests[j], model, provider, arith)
    ensures HoldsAnswer(u.vectors[k], v(k.1), model, arith)
  {
    var j :| 0 <= j < |requests| && AsksFor(requests[j], space, k, model, provider, arith);
    var q := requests[j];
    assert RequestStored(u, space, q, model, provider, arith);
    var i :| 0 <= i < |q.texts| && q.texts[i] == k.1;
    assert RowStored(u, space, q, i, model, provider, arith);
    assert ByText(provider(model, q.call, q.texts), q.texts, v);
  }

  /** Of a provider that answers each text by its own vector, every row a run writes holds that of its text. */
  lemma RowsHoldTheirText(t: Tables, groups: seq<Group>, model: Model, dimensions: Option<nat>, existing: Option<nat>,
                          provider: Provider, batch: nat, arith: Arithmetic, v: TextHash -> seq<Component>)
    requires batch > 0 && Sync(t, groups, Resolved(model, dimensions), existing) && KeepsLength(arith)
    requires AnswersBy(provider, model, v)
    ensures var r := Synchronize(t, groups, Resolved(model, dimensions), existing, provider, batch, arith);
            forall k :: k in r.t.vectors ==> SameRow(t, r.t, k) || HoldsAnswer(r.t.vectors[k], v(k.1), model, arith)
  {
    var r := Synchronize(t, groups, Resolved(model, dimensions), existing, provider, batch, arith);
    var start := StartDimensions(dimensions, existing);
    if start.None? || ValidDimensions(start.value) {
      RunStoresAnswers(t, groups, model, dimensions, existing, provider, batch, arith);
      var requests := RunRequests(t, groups, model, dimensions, existing, provider, batch, arith);
      forall k | k in r.t.vectors ensures SameRow(t, r.t, k) || HoldsAnswer(r.t.vectors[k], v(k.1), model, arith) {
        if !SameRow(t, r.t, k) {
          AskedRowIsByText(r.t, r.t.active.value, requests, k, model, provider, arith, v);
        }
      }
    } else {
      SynchronizeKeeps(t, groups, Resolved(model, dimensions), existing, provider, batch, arith);
    }
  }

  // ------------------------------------------------------- what was sent, when

  /** The texts of the requests in order. */
  function TextsOf(requests: seq<Request>): seq<TextHash> {
    if requests == [] then [] else requests[0].texts + TextsOf(requests[1..])
  }

  /** Requests are numbered in order. */
  ghost predicate Numbered(requests: seq<Request>, call: nat) {
    forall j :: 0 <= j < |requests| ==> requests[j].call == call + j
  }

  lemma FirstText(first: Request, rest: seq<Request>)
    ensures TextsOf([first] + rest) == first.texts + TextsOf(rest)
  {
    assert ([first] + rest)[1..] == rest;
  }

  lemma {:induction false} ServedIsSent(p: Progress, pending: seq<Group>, call: nat, model: Model, provider: Provider,
                                        batch: nat, arith: Arithmetic)
    requires batch > 0
    ensures var turn := EmbedAll(p, pending, call, model, provider, batch, arith);
            var served := Served(p, pending, call, model, provider, batch, arith);
            && Numbered(served, call)
            && (!turn.Abort? ==> turn.p.sent == p.sent + TextsOf(served))
    decreases |pending|
  {
    if pending != [] {
      var n := ChunkSize(pending, batch);
      var first := Request(call, Hashes(pending[..n]));
      ChunkSends(p, pending, n, call, model, provider, arith);
      FirstText(first, []);
      assert [first] + [] == [first];
      var turn := EmbedChunk(p, pending[..n], pending, call, model, provider, arith);
      if turn.Continue? {
        var q := turn.p;
        var rest := Served(q, pending[n..], call + 1, model, provider, batch, arith);
        ServedIsSent(q, pending[n..], call + 1, model, provider, batch, arith);
        FirstText(first, rest);
        AppendAssociates(p.sent, first.texts, TextsOf(rest));
      }
    }
  }

  lemma PassSends(p: Progress, groups: seq<Group>, model: Model, provider: Provider, batch: nat, arith: Arithmetic)
    requires batch > 0 && p.sent == []
    requires RunOk(p, model) && AllFit(p.t, groups) && DistinctHashes(groups)
    ensures var (q, pending) := ScanCache(p, groups, |groups|, arith);
            var turn := EmbedAll(q, pending, 0, model, provider, batch, arith);
            var served := Served(q, pending, 0, model, provider, batch, arith);
            Numbered(served, 0) && (!turn.Abort? ==> turn.p.sent == TextsOf(served))
  {
    var (q, pending) := ScanCache(p, groups, |groups|, arith);
    ScanSends(p, groups, |groups|, arith);
    ServedIsSent(q, pending, 0, model, provider, batch, arith);
    var texts := TextsOf(Served(q, pending, 0, model, provider, batch, arith));
    assert [] + texts == texts;
  }

  lemma {:induction false} ScanSends(p: Progress, groups: seq<Group>, n: nat, arith: Arithmetic)
    requires n <= |groups|
    ensures ScanCache(p, groups, n, arith).0.sent == p.sent
  {
    if n > 0 {
      ScanSends(p, groups, n - 1, arith);
    }
  }

  /** A run that reports has sent exactly the texts of its requests, the first request being number 0. */
  lemma RequestsAreSent(t: Tables, groups: seq<Group>, model: Model, dimensions: Option<nat>, existing: Option<nat>,
                        provider: Provider, batch: nat, arith: Arithmetic)
    requires batch > 0 && Sync(t, groups, Resolved(model, dimensions), existing)
    ensures var r := Synchronize(t, groups, Resolved(model, dimensions), existing, provider, batch, arith);
            var requests := RunRequests(t, groups, model, dimensions, existing, provider, batch, arith);
            Numbered(requests, 0) && (r.Reported? ==> r.sent == TextsOf(requests))
  {
    var start := StartDimensions(dimensions, existing);
    var begun := if start.Some? then ActivateSpace(t, Space(model, start.value)) else Some(t.(active := None));
    if begun.Some? {
      Opening(t, groups, model, dimensions, existing, begun.value);
      PassSends(Start(begun.value, if start.Some? then Some(Space(model, start.value)) else None), groups, model,
                provider, batch, arith);
    }
  }

  // ------------------------------------------------------------ retry counts

  function Retries(t: Tables, segment: SegmentId, space: Space): nat {
    if (segment, space) in t.failures then t.failures[(segment, space)] else 0
  }

  function Raised(count: nat): nat {
    if count < MAX_RETRIES then count + 1 else MAX_RETRIES
  }

  predicate OtherRef(a: Ref, b: Ref) {
    a.id != b.id
  }

  /** The rows of a query by primary key: no segment twice. */
  ghost predicate RefsApart(refs: seq<Ref>) {
    forall i, j {:trigger OtherRef(refs[i], refs[j])} :: 0 <= i < j < |refs| ==> OtherRef(refs[i], refs[j])
  }

  /** Recording a failure raises each segment's count by one up to the limit, and changes no other count. */
  lemma {:induction false} FailuresRaise(t: Tables, space: Space, refs: seq<Ref>, n: nat, segment: SegmentId, at: Space)
    requires RefsApart(refs) && n <= |refs|
    ensures Retries(FailRefs(t, space, refs, n), segment, at)
            == if at == space && (exists i :: 0 <= i < n && refs[i].id == segment) then Raised(Retries(t, segment, at))
               else Retries(t, segment, at)
  {
    if n > 0 {
      FailuresRaise(t, space, refs, n - 1, segment, at);
      forall i | 0 <= i < n - 1 ensures refs[i].id != refs[n - 1].id {
        assert OtherRef(refs[i], refs[n - 1]);
      }
    }
  }
}
