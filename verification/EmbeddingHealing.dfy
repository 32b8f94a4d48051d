/**
 What a run does to each group, and the cache healing itself: two runs repair
 any damage, a third sends nothing.
 */
module EmbeddingHealing {
  import opened Prelude
  import opened EmbeddingTables
  import opened EmbeddingSync
  import opened EmbeddingTheorems

  /** Every active segment of the group is linked in the space, under the group's hash. */
  ghost predicate LinkedGroup(t: Tables, space: Space, g: Group) {
    forall i :: 0 <= i < |g.refs| ==>
      (g.refs[i].id, space) in t.links && t.links[(g.refs[i].id, space)] == Link(g.refs[i].revision, g.hash)
  }

  /** Same cache entry and same links, as far as this group goes. */
  ghost predicate Untouched(t: Tables, post: Tables, space: Space, g: Group) {
    && ((space, g.hash) in post.vectors <==> (space, g.hash) in t.vectors)
    && ((space, g.hash) in t.vectors ==> post.vectors[(space, g.hash)] == t.vectors[(space, g.hash)])
    && forall i :: 0 <= i < |g.refs| ==>
         var k := (g.refs[i].id, space);
         (k in post.links <==> k in t.links) && (k in t.links ==> post.links[k] == t.links[k])
  }

  // ------------------------------------------------- statements, group by group

  lemma {:induction false} LinkRefsLinks(t: Tables, space: Space, g: Group, n: nat)
    requires GroupFits(t, g) && n <= |g.refs|
    ensures var post := LinkRefs(t, space, g.hash, g.refs, n);
            forall i :: 0 <= i < n ==> (g.refs[i].id, space) in post.links
                                       && post.links[(g.refs[i].id, space)] == Link(g.refs[i].revision, g.hash)
  {
    if n > 0 {
      LinkRefsLinks(t, space, g, n - 1);
    }
  }

  lemma {:induction false} LinkRefsUntouched(t: Tables, space: Space, g: Group, n: nat, other: Group)
    requires GroupFits(t, g) && GroupFits(t, other) && g.hash != other.hash && n <= |g.refs|
    ensures Untouched(t, LinkRefs(t, space, g.hash, g.refs, n), space, other)
  {
    if n > 0 {
      LinkRefsUntouched(t, space, g, n - 1, other);
      assert forall i :: 0 <= i < |other.refs| ==> other.refs[i].id != g.refs[n - 1].id;
    }
  }

  lemma {:induction false} FailRefsSame(t: Tables, space: Space, refs: seq<Ref>, n: nat)
    requires n <= |refs|
    ensures var post := FailRefs(t, space, refs, n);
            post.links == t.links && post.vectors == t.vectors && post.segments == t.segments && post.spaces == t.spaces
  {
    if n > 0 {
      FailRefsSame(t, space, refs, n - 1);
    }
  }

  lemma DropUntouched(t: Tables, space: Space, hash: TextHash, other: Group)
    requires Inv(t) && GroupFits(t, other) && hash != other.hash
    ensures Untouched(t, DropVector(t, space, hash), space, other)
  {
  }

  // ----------------------------------------------------------- cache pass

  /** What the cache pass makes of a group it reached. */
  ghost predicate Scanned(t: Tables, q: Tables, space: Space, g: Group, arith: Arithmetic) {
    match LoadCache(t, space, g.hash, arith)
    case Hit => LoadCache(q, space, g.hash, arith) == Hit && LinkedGroup(q, space, g)
    case Miss => LoadCache(q, space, g.hash, arith) == Miss
    case Corrupt => LoadCache(q, space, g.hash, arith) == Miss
  }

  lemma ScanOneSettles(p: Progress, g: Group, arith: Arithmetic, model: Model)
    requires RunOk(p, model) && p.space.Some? && GroupFits(p.t, g)
    ensures Scanned(p.t, ScanOne(p, g, arith).0.t, p.space.value, g, arith)
    ensures ScanOne(p, g, arith).1 == [] || ScanOne(p, g, arith).1 == [g]
    ensures (ScanOne(p, g, arith).1 == [g] <==> LoadCache(p.t, p.space.value, g.hash, arith) == Miss)
    ensures ScanOne(p, g, arith).0.failed
            == p.failed + if LoadCache(p.t, p.space.value, g.hash, arith) == Corrupt then |g.refs| else 0
  {
    var space := p.space.value;
    match LoadCache(p.t, space, g.hash, arith)
    case Hit =>
      LinkRefsKeepsInv(p.t, space, g, |g.refs|);
      LinkRefsLinks(p.t, space, g, |g.refs|);
    case Miss =>
    case Corrupt => FailRefsSame(DropVector(p.t, space, g.hash), space, g.refs, |g.refs|);
  }

  lemma ScanOneUntouched(p: Progress, g: Group, arith: Arithmetic, model: Model, other: Group)
    requires RunOk(p, model) && p.space.Some? && GroupFits(p.t, g) && GroupFits(p.t, other) && g.hash != other.hash
    ensures Untouched(p.t, ScanOne(p, g, arith).0.t, p.space.value, other)
  {
    var space := p.space.value;
    match LoadCache(p.t, space, g.hash, arith)
    case Hit => LinkRefsUntouched(p.t, space, g, |g.refs|, other);
    case Miss =>
    case Corrupt =>
      DropUntouched(p.t, space, g.hash, other);
      FailRefsSame(DropVector(p.t, space, g.hash), space, g.refs, |g.refs|);
  }

  lemma StillScanned(t: Tables, q: Tables, post: Tables, space: Space, g: Group, arith: Arithmetic)
    requires Scanned(t, q, space, g, arith) && Untouched(q, post, space, g)
    ensures Scanned(t, post, space, g, arith)
  {
  }

  /** The corrupt segments among the first `n` groups. */
  ghost function CorruptSize(t: Tables, space: Space, groups: seq<Group>, n: nat, arith: Arithmetic): nat
    requires n <= |groups|
  {
    if n == 0 then 0
    else CorruptSize(t, space, groups, n - 1, arith)
         + if LoadCache(t, space, groups[n - 1].hash, arith) == Corrupt then |groups[n - 1].refs| else 0
  }

  /** Facts about the cache pass over the first `n` groups. */
  ghost predicate ScanSettled(p: Progress, q: Progress, pending: seq<Group>, space: Space, groups: seq<Group>, n: nat,
                              arith: Arithmetic)
    requires n <= |groups|
  {
    && (forall i :: 0 <= i < n ==> Scanned(p.t, q.t, space, groups[i], arith))
    && (forall i :: n <= i < |groups| ==> Untouched(p.t, q.t, space, groups[i]))
    && (forall i :: 0 <= i < n && LoadCache(p.t, space, groups[i].hash, arith) == Miss ==> groups[i] in pending)
    && (forall i :: 0 <= i < |pending| ==> LoadCache(p.t, space, pending[i].hash, arith) == Miss)
    && q.failed == p.failed + CorruptSize(p.t, space, groups, n, arith)
  }

  lemma ScanOneLeavesOthers(b: Progress, groups: seq<Group>, n: nat, arith: Arithmetic, model: Model)
    requires RunOk(b, model) && b.space.Some? && AllFit(b.t, groups) && DistinctHashes(groups) && 0 < n <= |groups|
    ensures forall i :: 0 <= i < |groups| && i != n - 1 ==>
              Untouched(b.t, ScanOne(b, groups[n - 1], arith).0.t, b.space.value, groups[i])
  {
    forall i | 0 <= i < |groups| && i != n - 1
      ensures Untouched(b.t, ScanOne(b, groups[n - 1], arith).0.t, b.space.value, groups[i])
    {
      assert GroupFits(b.t, groups[i]) && GroupFits(b.t, groups[n - 1]);
      DifferentHash(groups, i, n - 1);
      ScanOneUntouched(b, groups[n - 1], arith, model, groups[i]);
    }
  }

  lemma {:induction false} ScanSettles(p: Progress, groups: seq<Group>, n: nat, arith: Arithmetic, model: Model)
    requires RunOk(p, model) && p.space.Some? && AllFit(p.t, groups) && DistinctHashes(groups) && n <= |groups|
    ensures var (q, pending) := ScanCache(p, groups, n, arith);
            ScanSettled(p, q, pending, p.space.value, groups, n, arith)
  {
    if n == 0 {
      SettledAtFirst(p, p.space.value, groups, arith);
    } else {
      ScanSettles(p, groups, n - 1, arith, model);
      ScanCacheKeeps(p, groups, n - 1, arith, model);
      var (b, pending) := ScanCache(p, groups, n - 1, arith);
      FitsAgain(p.t, b.t, groups);
      SettlesNext(p, b, pending, groups, n, arith, model);
    }
  }

  lemma SettledAtFirst(p: Progress, space: Space, groups: seq<Group>, arith: Arithmetic)
    ensures ScanSettled(p, p, [], space, groups, 0, arith)
  {
  }

  /** One more group in the cache pass. */
  lemma SettlesNext(p: Progress, b: Progress, pending: seq<Group>, groups: seq<Group>, n: nat, arith: Arithmetic,
                    model: Model)
    requires 0 < n <= |groups| && p.space.Some? && RunOk(b, model) && b.space == p.space
    requires AllFit(b.t, groups) && DistinctHashes(groups)
    requires ScanSettled(p, b, pending, p.space.value, groups, n - 1, arith)
    ensures var (q, more) := ScanOne(b, groups[n - 1], arith);
            ScanSettled(p, q, pending + more, p.space.value, groups, n, arith)
  {
    var (q, more) := ScanOne(b, groups[n - 1], arith);
    assert GroupFits(b.t, groups[n - 1]);
    ScanOneSettles(b, groups[n - 1], arith, model);
    ScanOneLeavesOthers(b, groups, n, arith, model);
    SettledOneMore(p, b, q, pending, more, p.space.value, groups, n, arith);
  }

  /** The state in which the cache pass reaches the next group: its cache entry is as it was. */
  lemma ScanReaches(p: Progress, groups: seq<Group>, n: nat, arith: Arithmetic, model: Model)
    requires RunOk(p, model) && p.space.Some? && AllFit(p.t, groups) && DistinctHashes(groups) && n < |groups|
    ensures var b := ScanCache(p, groups, n, arith).0;
            && RunOk(b, model) && b.space == p.space && b.t.segments == p.t.segments && b.sent == p.sent
            && LoadCache(b.t, p.space.value, groups[n].hash, arith)
               == LoadCache(p.t, p.space.value, groups[n].hash, arith)
  {
    ScanCacheKeeps(p, groups, n, arith, model);
    ScanSettles(p, groups, n, arith, model);
    assert Untouched(p.t, ScanCache(p, groups, n, arith).0.t, p.space.value, groups[n]);
  }

  lemma SettledOneMore(p: Progress, b: Progress, q: Progress, pending: seq<Group>, more: seq<Group>, space: Space,
                       groups: seq<Group>, n: nat, arith: Arithmetic)
    requires 0 < n <= |groups| && ScanSettled(p, b, pending, space, groups, n - 1, arith)
    requires Scanned(b.t, q.t, space, groups[n - 1], arith)
    requires more == [groups[n - 1]] <==> LoadCache(b.t, space, groups[n - 1].hash, arith) == Miss
    requires more == [] || more == [groups[n - 1]]
    requires var g := groups[n - 1];
             q.failed == b.failed + if LoadCache(b.t, space, g.hash, arith) == Corrupt then |g.refs| else 0
    requires forall i :: 0 <= i < |groups| && i != n - 1 ==> Untouched(b.t, q.t, space, groups[i])
    ensures ScanSettled(p, q, pending + more, space, groups, n, arith)
  {
    var g := groups[n - 1];
    assert Untouched(p.t, b.t, space, g);
    assert LoadCache(p.t, space, g.hash, arith) == LoadCache(b.t, space, g.hash, arith);
    forall i | 0 <= i < n ensures Scanned(p.t, q.t, space, groups[i], arith) {
      if i < n - 1 {
        StillScanned(p.t, b.t, q.t, space, groups[i], arith);
      }
    }
    forall i | n <= i < |groups| ensures Untouched(p.t, q.t, space, groups[i]) {
      assert Untouched(p.t, b.t, space, groups[i]) && Untouched(b.t, q.t, space, groups[i]);
    }
  }

  // -------------------------------------------------------- provider pass

  /** A vector that survives both normalizations at dimension `d`. */
  ghost predicate GoodVector(v: seq<Component>, d: nat, arith: Arithmetic) {
    && |v| == d
    && arith.normalize(v).Some?
    && |arith.normalize(v).value| == d
    && arith.normalize(arith.normalize(v).value).Some?
    && GoodBytes(arith.layOut(arith.normalize(arith.normalize(v).value).value), d, arith)
  }

  ghost predicate GoodBytes(stored: seq<byte>, d: nat, arith: Arithmetic) {
    arith.decode(stored, d).Some?
  }

  /** The provider answers every request for this model with one good vector per text. */
  ghost predicate WellBehaved(provider: Provider, model: Model, d: nat, arith: Arithmetic) {
    forall call: nat, texts: seq<TextHash> :: WellAnswered(provider(model, call, texts), |texts|, d, arith)
  }

  ghost predicate WellAnswered(r: Response, count: nat, d: nat, arith: Arithmetic) {
    r.Vectors? && |r.batch| == count && forall i :: 0 <= i < count ==> GoodVector(r.batch[i], d, arith)
  }

  lemma {:induction false} NormalizeAllSucceeds(vectors: seq<seq<Component>>, n: nat, arith: Arithmetic)
    requires n <= |vectors| && forall i :: 0 <= i < n ==> arith.normalize(vectors[i]).Some?
    ensures NormalizeAll(vectors, n, arith).Some?
  {
    if n > 0 {
      NormalizeAllSucceeds(vectors, n - 1, arith);
    }
  }

  /** Good answers pass validation and encoding, and what is stored decodes. */
  lemma GoodBatch(batch: seq<seq<Component>>, count: nat, d: nat, expected: Option<nat>, model: Model,
                  arith: Arithmetic)
    returns (vectors: seq<seq<Component>>, bytes: seq<Encoded>)
    requires WellAnswered(Vectors(batch), count, d, arith) && count > 0 && d > 0
    requires (expected.None? || expected == Some(d))
    ensures ValidateBatch(batch, count, expected, arith) == Accepted(vectors)
    ensures |vectors| == count && |vectors[0]| == d
    ensures EncodeAll(vectors, |vectors|, d, model, arith) == Some(bytes) && |bytes| == count
    ensures forall i :: 0 <= i < count ==>
              GoodBytes(bytes[i].vectorBytes, d, arith) && bytes[i].madeBy == Origin(model, d)
  {
    assert GoodVector(batch[0], d, arith);
    NormalizeAllSucceeds(batch, count, arith);
    vectors := NormalizeAll(batch, count, arith).value;
    forall i | 0 <= i < count
      ensures |vectors[i]| == d && arith.normalize(vectors[i]).Some?
      ensures GoodBytes(arith.layOut(arith.normalize(vectors[i]).value), d, arith)
      ensures Encode(vectors[i], d, model, arith).Some?
    {
      assert GoodVector(batch[i], d, arith);
    }
    bytes := EncodeAll(vectors, count, d, model, arith).value;
  }

  /** The group is cached, decodable and linked. */
  ghost predicate Settled(t: Tables, space: Space, g: Group, arith: Arithmetic) {
    LoadCache(t, space, g.hash, arith) == Hit && LinkedGroup(t, space, g)
  }

  lemma StoreOne(t: Tables, space: Space, g: Group, bytes: Encoded, arith: Arithmetic)
    requires GroupFits(t, g) && GoodBytes(bytes.vectorBytes, space.dimensions, arith)
    ensures Settled(LinkRefs(StoreVector(t, space, g.hash, bytes), space, g.hash, g.refs, |g.refs|), space, g, arith)
  {
    var mid := StoreVector(t, space, g.hash, bytes);
    assert GroupFits(mid, g);
    LinkRefsLinks(mid, space, g, |g.refs|);
    LinkRefsVectors(mid, space, g, |g.refs|);
  }

  lemma StoreOneUntouched(t: Tables, space: Space, g: Group, bytes: Encoded, other: Group)
    requires GroupFits(t, g) && GroupFits(t, other) && g.hash != other.hash
    ensures Untouched(t, LinkRefs(StoreVector(t, space, g.hash, bytes), space, g.hash, g.refs, |g.refs|), space, other)
  {
    var mid := StoreVector(t, space, g.hash, bytes);
    assert GroupFits(mid, g) && GroupFits(mid, other);
    LinkRefsUntouched(mid, space, g, |g.refs|, other);
  }

  lemma {:induction false} LinkRefsSegments(t: Tables, space: Space, g: Group, n: nat)
    requires n <= |g.refs|
    ensures LinkRefs(t, space, g.hash, g.refs, n).segments == t.segments
  {
    if n > 0 {
      LinkRefsSegments(t, space, g, n - 1);
    }
  }

  lemma {:induction false} StoreGroupsSegments(t: Tables, space: Space, chunk: seq<Group>, bytes: seq<Encoded>, n: nat)
    requires n <= |chunk| && n <= |bytes|
    ensures StoreGroups(t, space, chunk, bytes, n).segments == t.segments
  {
    if n > 0 {
      StoreGroupsSegments(t, space, chunk, bytes, n - 1);
      var g := chunk[n - 1];
      var stored := StoreVector(StoreGroups(t, space, chunk, bytes, n - 1), space, g.hash, bytes[n - 1]);
      LinkRefsSegments(stored, space, g, |g.refs|);
    }
  }

  lemma {:induction false} StoreGroupsUntouched(t: Tables, space: Space, chunk: seq<Group>, bytes: seq<Encoded>, n: nat,
                                                other: Group)
    requires AllFit(t, chunk) && GroupFits(t, other) && n <= |chunk| && n <= |bytes|
    requires forall i :: 0 <= i < n ==> chunk[i].hash != other.hash
    ensures Untouched(t, StoreGroups(t, space, chunk, bytes, n), space, other)
  {
    if n > 0 {
      StoreGroupsUntouched(t, space, chunk, bytes, n - 1, other);
      StoreGroupsSegments(t, space, chunk, bytes, n - 1);
      var before := StoreGroups(t, space, chunk, bytes, n - 1);
      assert GroupFits(t, chunk[n - 1]);
      assert GroupFits(before, chunk[n - 1]) && GroupFits(before, other);
      StoreOneUntouched(before, space, chunk[n - 1], bytes[n - 1], other);
    }
  }

  lemma {:induction false} StoreGroupsSettles(t: Tables, space: Space, chunk: seq<Group>, bytes: seq<Encoded>, n: nat,
                                              i: nat, arith: Arithmetic)
    requires AllFit(t, chunk) && DistinctHashes(chunk) && i < n <= |chunk| && n <= |bytes|
    requires forall j :: 0 <= j < n ==> GoodBytes(bytes[j].vectorBytes, space.dimensions, arith)
    ensures Settled(StoreGroups(t, space, chunk, bytes, n), space, chunk[i], arith)
  {
    StoreGroupsSegments(t, space, chunk, bytes, n - 1);
    var before := StoreGroups(t, space, chunk, bytes, n - 1);
    assert GroupFits(t, chunk[n - 1]) && GroupFits(t, chunk[i]);
    assert GroupFits(before, chunk[n - 1]) && GroupFits(before, chunk[i]);
    if i == n - 1 {
      StoreOne(before, space, chunk[i], bytes[i], arith);
    } else {
      StoreGroupsSettles(t, space, chunk, bytes, n - 1, i, arith);
      assert OtherHash(chunk[i], chunk[n - 1]);
      StoreOneUntouched(before, space, chunk[n - 1], bytes[n - 1], chunk[i]);
    }
  }

  /** Between `t` and `post` these groups were settled in the space, and no other group was touched. */
  ghost predicate Healed(t: Tables, post: Tables, space: Space, groups: seq<Group>, arith: Arithmetic) {
    && post.segments == t.segments
    && (forall i :: 0 <= i < |groups| ==> Settled(post, space, groups[i], arith))
    && (forall g :: GroupFits(t, g) && g.hash !in Hashes(groups) ==> Untouched(t, post, space, g))
  }

  lemma UntouchedOnward(t: Tables, mid: Tables, post: Tables, space: Space, g: Group)
    requires Untouched(t, mid, space, g) && Untouched(mid, post, space, g)
    ensures Untouched(t, post, space, g)
  {
  }

  lemma HealedStaysSettled(t: Tables, mid: Tables, post: Tables, space: Space, pending: seq<Group>, n: nat,
                           arith: Arithmetic, i: nat)
    requires i < n <= |pending| && DistinctHashes(pending) && GroupFits(t, pending[i])
    requires Healed(t, mid, space, pending[..n], arith) && Healed(mid, post, space, pending[n..], arith)
    ensures Settled(post, space, pending[i], arith)
  {
    HashNotIn(pending, n, i);
    assert GroupFits(mid, pending[i]);
    assert pending[i] == pending[..n][i];
    StillSettled(mid, post, space, pending[i], arith);
  }

  lemma OthersStayUntouched(t: Tables, mid: Tables, post: Tables, space: Space, pending: seq<Group>, n: nat,
                            arith: Arithmetic)
    requires n <= |pending|
    requires Healed(t, mid, space, pending[..n], arith) && Healed(mid, post, space, pending[n..], arith)
    ensures forall g :: GroupFits(t, g) && g.hash !in Hashes(pending) ==> Untouched(t, post, space, g)
  {
    HashesAppend(pending[..n], pending[n..]);
    assert pending[..n] + pending[n..] == pending;
    forall g | GroupFits(t, g) && g.hash !in Hashes(pending) ensures Untouched(t, post, space, g) {
      assert GroupFits(mid, g);
      UntouchedOnward(t, mid, post, space, g);
    }
  }

  lemma HealedOnward(t: Tables, mid: Tables, post: Tables, space: Space, pending: seq<Group>, n: nat, arith: Arithmetic)
    requires n <= |pending| && AllFit(t, pending) && DistinctHashes(pending)
    requires Healed(t, mid, space, pending[..n], arith) && Healed(mid, post, space, pending[n..], arith)
    ensures Healed(t, post, space, pending, arith)
  {
    forall i | 0 <= i < |pending| ensures Settled(post, space, pending[i], arith) {
      if i < n {
        HealedStaysSettled(t, mid, post, space, pending, n, arith, i);
      } else {
        assert pending[i] == pending[n..][i - n];
      }
    }
    OthersStayUntouched(t, mid, post, space, pending, n, arith);
  }

  /** A chunk answered well: stored and linked, in the one space, and nothing else changes. */
  lemma ChunkHeals(p: Progress, pending: seq<Group>, n: nat, call: nat, model: Model, d: nat, provider: Provider,
                   arith: Arithmetic)
    requires RunOk(p, model) && AllFit(p.t, pending) && AllMissing(p.t, p.space, model, pending)
    requires DistinctHashes(pending)
    requires 0 < n <= |pending| && ValidDimensions(d) && WellBehaved(provider, model, d, arith)
    requires p.space.None? || p.space == Some(Space(model, d))
    ensures var turn := EmbedChunk(p, pending[..n], pending, call, model, provider, arith);
            && turn.Continue? && turn.p.failed == p.failed && turn.p.space == Some(Space(model, d))
            && Healed(p.t, turn.p.t, Space(model, d), pending[..n], arith)
            && turn.p.t.spaces == p.t.spaces + {Space(model, d)}
  {
    var space, chunk := Space(model, d), pending[..n];
    var r := provider(model, call, Hashes(chunk));
    assert WellAnswered(r, |Hashes(chunk)|, d, arith);
    TailOk(p.t, p.space, model, pending, n);
    var expected := if p.space.Some? then Some(p.space.value.dimensions) else None;
    var vectors, bytes := GoodBatch(r.batch, n, d, expected, model, arith);
    var active := if p.space.Some? then p.t else ActivateSpace(p.t, space).value;
    if p.space.None? {
      ActivateKeepsInv(p.t, space, active);
    }
    assert AllFit(active, chunk);
    StoreGroupsKeepsInv(active, space, chunk, bytes, n);
    forall i | 0 <= i < n ensures Settled(StoreGroups(active, space, chunk, bytes, n), space, chunk[i], arith) {
      StoreGroupsSettles(active, space, chunk, bytes, n, i, arith);
    }
    forall g | GroupFits(p.t, g) && g.hash !in Hashes(chunk)
      ensures Untouched(p.t, StoreGroups(active, space, chunk, bytes, n), space, g) {
      forall i | 0 <= i < n ensures chunk[i].hash != g.hash {
        assert Hashes(chunk)[i] == chunk[i].hash;
      }
      assert GroupFits(active, g);
      StoreGroupsUntouched(active, space, chunk, bytes, n, g);
    }
  }

  lemma StillSettled(t: Tables, post: Tables, space: Space, g: Group, arith: Arithmetic)
    requires Settled(t, space, g, arith) && Untouched(t, post, space, g)
    ensures Settled(post, space, g, arith)
  {
  }

  /** A pass fails nothing and settles every pending group in the space. */
  ghost predicate PassHealed(p: Progress, turn: Turn, pending: seq<Group>, space: Space, arith: Arithmetic) {
    && turn.Continue? && turn.p.failed == p.failed
    && (pending != [] ==> turn.p.space == Some(space) && turn.p.t.spaces == p.t.spaces + {space})
    && (pending == [] ==> turn.p == p)
    && Healed(p.t, turn.p.t, space, pending, arith)
  }

  /** The provider pass over everything pending. */
  lemma {:induction false} PassHeals(p: Progress, pending: seq<Group>, call: nat, model: Model, d: nat,
                                     provider: Provider, batch: nat, arith: Arithmetic)
    requires RunOk(p, model) && AllFit(p.t, pending) && AllMissing(p.t, p.space, model, pending)
    requires DistinctHashes(pending)
    requires batch > 0 && ValidDimensions(d) && WellBehaved(provider, model, d, arith)
    requires p.space.None? || p.space == Some(Space(model, d))
    ensures PassHealed(p, EmbedAll(p, pending, call, model, provider, batch, arith), pending, Space(model, d), arith)
    decreases |pending|
  {
    if pending != [] {
      var n := ChunkSize(pending, batch);
      ChunkHeals(p, pending, n, call, model, d, provider, arith);
      EmbedChunkKeeps(p, pending, n, call, model, provider, arith);
      TailOk(p.t, p.space, model, pending, n);
      var q := EmbedChunk(p, pending[..n], pending, call, model, provider, arith).p;
      assert AllFit(q.t, pending[n..]);
      PassHeals(q, pending[n..], call + 1, model, d, provider, batch, arith);
      var rest := EmbedAll(q, pending[n..], call + 1, model, provider, batch, arith);
      HealedOnward(p.t, q.t, rest.p.t, Space(model, d), pending, n, arith);
    }
  }

  lemma HashNotIn(pending: seq<Group>, n: nat, i: nat)
    requires DistinctHashes(pending) && i < n <= |pending|
    ensures pending[i].hash !in Hashes(pending[n..])
  {
    forall j | 0 <= j < |pending[n..]| ensures Hashes(pending[n..])[j] != pending[i].hash {
      assert OtherHash(pending[i], pending[n + j]);
    }
  }

  // ---------------------------------------------------------- whole runs

  /** While no space is known the cache pass leaves everything pending. */
  lemma {:induction false} ScanWithoutSpace(p: Progress, groups: seq<Group>, n: nat, arith: Arithmetic)
    requires p.space.None? && n <= |groups|
    ensures ScanCache(p, groups, n, arith) == (p, groups[..n])
  {
    if n > 0 {
      ScanWithoutSpace(p, groups, n - 1, arith);
      assert groups[..n - 1] + [groups[n - 1]] == groups[..n];
    }
  }

  /** What a run with a well-behaved provider leaves of a group. */
  ghost predicate Repaired(t: Tables, post: Tables, space: Space, g: Group, arith: Arithmetic) {
    if LoadCache(t, space, g.hash, arith) == Corrupt then LoadCache(post, space, g.hash, arith) == Miss
    else Settled(post, space, g, arith)
  }

  lemma AfterScan(p: Progress, groups: seq<Group>, model: Model, arith: Arithmetic)
    requires RunOk(p, model) && AllFit(p.t, groups) && DistinctHashes(groups) && p.space.Some?
    ensures var (q, pending) := ScanCache(p, groups, |groups|, arith);
            && RunOk(q, model) && q.space == p.space && q.sent == p.sent
            && q.t.spaces == p.t.spaces && q.t.segments == p.t.segments
            && AllFit(q.t, pending) && PendingOk(q, pending, groups, |groups|)
            && ScanSettled(p, q, pending, p.space.value, groups, |groups|, arith)
  {
    var (q, pending) := ScanCache(p, groups, |groups|, arith);
    ScanCacheKeeps(p, groups, |groups|, arith, model);
    ScanSettles(p, groups, |groups|, arith, model);
    PendingFits(p.t, q, pending, groups);
  }

  lemma PassRepairs(p: Progress, groups: seq<Group>, model: Model, d: nat, provider: Provider, batch: nat,
                    arith: Arithmetic)
    requires batch > 0 && RunOk(p, model) && AllFit(p.t, groups) && DistinctHashes(groups)
    requires ValidDimensions(d) && WellBehaved(provider, model, d, arith) && p.space == Some(Space(model, d))
    ensures var (scanned, pending) := ScanCache(p, groups, |groups|, arith);
            var turn := EmbedAll(scanned, pending, 0, model, provider, batch, arith);
            && turn.Continue? && turn.p.space == p.space
            && turn.p.failed == p.failed + CorruptSize(p.t, Space(model, d), groups, |groups|, arith)
            && turn.p.t.spaces == p.t.spaces
            && forall i :: 0 <= i < |groups| ==> Repaired(p.t, turn.p.t, Space(model, d), groups[i], arith)
  {
    AfterScan(p, groups, model, arith);
    var (q, pending) := ScanCache(p, groups, |groups|, arith);
    RestRepairs(p, q, pending, groups, model, d, provider, batch, arith);
  }

  /** The pass behind a cache scan. */
  lemma RestRepairs(p: Progress, q: Progress, pending: seq<Group>, groups: seq<Group>, model: Model, d: nat,
                    provider: Provider, batch: nat, arith: Arithmetic)
    requires batch > 0 && RunOk(q, model) && AllFit(p.t, groups) && AllFit(q.t, pending) && DistinctHashes(groups)
    requires ValidDimensions(d) && WellBehaved(provider, model, d, arith) && q.space == Some(Space(model, d))
    requires q.t.segments == p.t.segments && PendingOk(q, pending, groups, |groups|)
    requires ScanSettled(p, q, pending, Space(model, d), groups, |groups|, arith)
    ensures PassRepaired(p, q, EmbedAll(q, pending, 0, model, provider, batch, arith), Space(model, d), groups, arith)
  {
    PassHeals(q, pending, 0, model, d, provider, batch, arith);
    var turn := EmbedAll(q, pending, 0, model, provider, batch, arith);
    HealedPassRepairs(p, q, pending, groups, Space(model, d), turn, arith);
  }

  lemma HealedPassRepairs(p: Progress, q: Progress, pending: seq<Group>, groups: seq<Group>, space: Space, turn: Turn,
                          arith: Arithmetic)
    requires q.space == Some(space) && AllFit(p.t, groups) && q.t.segments == p.t.segments && DistinctHashes(groups)
    requires ScanSettled(p, q, pending, space, groups, |groups|, arith) && PendingOk(q, pending, groups, |groups|)
    requires PassHealed(q, turn, pending, space, arith) && space in q.t.spaces
    ensures PassRepaired(p, q, turn, space, groups, arith)
  {
    AllRepaired(p, q, pending, groups, space, turn.p.t, arith);
    assert q.t.spaces + {space} == q.t.spaces;
  }

  /** A pass from `q` fails nothing and leaves every group of the scan from `p` repaired. */
  ghost predicate PassRepaired(p: Progress, q: Progress, turn: Turn, space: Space, groups: seq<Group>,
                               arith: Arithmetic) {
    && turn.Continue? && turn.p.space == q.space && turn.p.failed == q.failed && turn.p.t.spaces == q.t.spaces
    && forall i :: 0 <= i < |groups| ==> Repaired(p.t, turn.p.t, space, groups[i], arith)
  }

  lemma AllRepaired(p: Progress, q: Progress, pending: seq<Group>, groups: seq<Group>, space: Space, post: Tables,
                    arith: Arithmetic)
    requires q.space == Some(space) && AllFit(p.t, groups) && q.t.segments == p.t.segments && DistinctHashes(groups)
    requires ScanSettled(p, q, pending, space, groups, |groups|, arith) && PendingOk(q, pending, groups, |groups|)
    requires Healed(q.t, post, space, pending, arith)
    ensures forall i :: 0 <= i < |groups| ==> Repaired(p.t, post, space, groups[i], arith)
  {
    forall i | 0 <= i < |groups| ensures Repaired(p.t, post, space, groups[i], arith) {
      assert GroupFits(p.t, groups[i]);
      GroupRepaired(p, q, pending, groups, i, space, post, arith);
    }
  }

  lemma GroupRepaired(p: Progress, q: Progress, pending: seq<Group>, groups: seq<Group>, i: nat, space: Space,
                      post: Tables, arith: Arithmetic)
    requires i < |groups| && q.space == Some(space) && GroupFits(q.t, groups[i]) && DistinctHashes(groups)
    requires ScanSettled(p, q, pending, space, groups, |groups|, arith) && PendingOk(q, pending, groups, |groups|)
    requires Healed(q.t, post, space, pending, arith)
    ensures Repaired(p.t, post, space, groups[i], arith)
  {
    var g := groups[i];
    assert Scanned(p.t, q.t, space, g, arith);
    if g !in pending {
      forall j | 0 <= j < |pending| ensures Hashes(pending)[j] != g.hash {
        assert Among(pending[j], groups, |groups|);
        var k :| 0 <= k < |groups| && groups[k] == pending[j];
        DifferentHash(groups, i, k);
      }
      assert Untouched(q.t, post, space, g);
    }
  }
}
