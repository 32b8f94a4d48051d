/**
 The report against the tables: what is counted as linked is linked, what is
 counted as failed has a failure row; and the one mistake no later run repairs.
 */
module EmbeddingAccounts {
  import opened Prelude
  import opened EmbeddingTables
  import opened EmbeddingSync
  import opened EmbeddingTheorems
  import opened EmbeddingHealing

  /** Every active segment of the group is unlinked in the space and has a failure row there. */
  ghost predicate FailedGroup(t: Tables, space: Space, g: Group) {
    forall i :: 0 <= i < |g.refs| ==> (g.refs[i].id, space) in t.failures && (g.refs[i].id, space) !in t.links
  }

  /** The links and failure rows of a group's segments in the space are as before. */
  ghost predicate RowsKept(t: Tables, post: Tables, space: Space, g: Group) {
    forall i :: 0 <= i < |g.refs| ==>
      var k := (g.refs[i].id, space);
      && (k in post.links <==> k in t.links) && (k in t.links ==> post.links[k] == t.links[k])
      && (k in post.failures <==> k in t.failures)
  }

  ghost predicate Accounted(t: Tables, space: Space, g: Group) {
    LinkedGroup(t, space, g) || FailedGroup(t, space, g)
  }

  lemma KeptAccounted(t: Tables, post: Tables, space: Space, g: Group)
    requires RowsKept(t, post, space, g)
    ensures LinkedGroup(t, space, g) <==> LinkedGroup(post, space, g)
    ensures FailedGroup(t, space, g) <==> FailedGroup(post, space, g)
  {
    forall i | 0 <= i < |g.refs| && LinkedGroup(t, space, g)
      ensures (g.refs[i].id, space) in post.links
      ensures post.links[(g.refs[i].id, space)] == Link(g.refs[i].revision, g.hash)
    {
      assert (g.refs[i].id, space) in t.links;
    }
    forall i | 0 <= i < |g.refs| && FailedGroup(t, space, g)
      ensures (g.refs[i].id, space) in post.failures && (g.refs[i].id, space) !in post.links
    {
      assert (g.refs[i].id, space) in t.failures;
    }
  }

  lemma KeptOnward(t: Tables, mid: Tables, post: Tables, space: Space, g: Group)
    requires RowsKept(t, mid, space, g) && RowsKept(mid, post, space, g)
    ensures RowsKept(t, post, space, g)
  {
  }

  // ---------------------------------------------------- statements, by group

  ghost predicate OtherSegments(a: Group, b: Group) {
    forall i, j :: 0 <= i < |a.refs| && 0 <= j < |b.refs| ==> a.refs[i].id != b.refs[j].id
  }

  lemma FitMeansApart(t: Tables, a: Group, b: Group)
    requires GroupFits(t, a) && GroupFits(t, b) && a.hash != b.hash
    ensures OtherSegments(a, b)
  {
  }

  lemma {:induction false} LinkRefsKept(t: Tables, space: Space, g: Group, n: nat, other: Group)
    requires OtherSegments(g, other) && n <= |g.refs|
    ensures RowsKept(t, LinkRefs(t, space, g.hash, g.refs, n), space, other)
  {
    if n > 0 {
      LinkRefsKept(t, space, g, n - 1, other);
    }
  }

  lemma {:induction false} FailRefsKept(t: Tables, space: Space, g: Group, n: nat, other: Group)
    requires OtherSegments(g, other) && n <= |g.refs|
    ensures RowsKept(t, FailRefs(t, space, g.refs, n), space, other)
  {
    if n > 0 {
      FailRefsKept(t, space, g, n - 1, other);
    }
  }

  lemma {:induction false} FailRefsFail(t: Tables, space: Space, g: Group, n: nat)
    requires Unlinked(t, space, g.refs) && n <= |g.refs|
    ensures var post := FailRefs(t, space, g.refs, n);
            post.links == t.links && forall i :: 0 <= i < n ==> (g.refs[i].id, space) in post.failures
  {
    if n > 0 {
      FailRefsFail(t, space, g, n - 1);
    }
  }

  lemma {:induction false} FailGroupsKept(t: Tables, space: Space, groups: seq<Group>, n: nat, other: Group)
    requires AllFit(t, groups) && GroupFits(t, other) && n <= |groups|
    requires forall i :: 0 <= i < n ==> groups[i].hash != other.hash
    ensures RowsKept(t, FailGroups(t, space, groups, n), space, other)
  {
    if n > 0 {
      FailGroupsKept(t, space, groups, n - 1, other);
      assert GroupFits(t, groups[n - 1]);
      FitMeansApart(t, groups[n - 1], other);
      FailRefsKept(FailGroups(t, space, groups, n - 1), space, groups[n - 1], |groups[n - 1].refs|, other);
    }
  }

  lemma {:induction false} FailGroupsFail(t: Tables, space: Space, groups: seq<Group>, n: nat, i: nat)
    requires AllFit(t, groups) && DistinctHashes(groups) && i < n <= |groups|
    requires forall j :: 0 <= j < |groups| ==> Unlinked(t, space, groups[j].refs)
    ensures FailGroups(t, space, groups, n).links == t.links
    ensures FailedGroup(FailGroups(t, space, groups, n), space, groups[i])
    decreases n
  {
    var before := FailGroups(t, space, groups, n - 1);
    FailGroupsLinks(t, space, groups, n - 1);
    assert Unlinked(t, space, groups[n - 1].refs);
    FailRefsFail(before, space, groups[n - 1], |groups[n - 1].refs|);
    if i < n - 1 {
      FailGroupsFail(t, space, groups, n - 1, i);
      assert OtherHash(groups[i], groups[n - 1]);
      assert GroupFits(t, groups[i]) && GroupFits(t, groups[n - 1]);
      FitMeansApart(t, groups[n - 1], groups[i]);
      FailRefsKept(before, space, groups[n - 1], |groups[n - 1].refs|, groups[i]);
      KeptAccounted(before, FailGroups(t, space, groups, n), space, groups[i]);
    } else {
      assert Unlinked(t, space, groups[i].refs);
    }
  }

  lemma {:induction false} FailGroupsLinks(t: Tables, space: Space, groups: seq<Group>, n: nat)
    requires n <= |groups|
    ensures FailGroups(t, space, groups, n).links == t.links
  {
    if n > 0 {
      FailGroupsLinks(t, space, groups, n - 1);
      FailRefsSame(FailGroups(t, space, groups, n - 1), space, groups[n - 1].refs, |groups[n - 1].refs|);
    }
  }

  lemma DropKept(t: Tables, space: Space, hash: TextHash, other: Group)
    requires Inv(t) && GroupFits(t, other) && hash != other.hash
    ensures RowsKept(t, DropVector(t, space, hash), space, other)
  {
  }

  lemma {:induction false} StoreGroupsKept(t: Tables, space: Space, chunk: seq<Group>, bytes: seq<Encoded>, n: nat,
                                           other: Group)
    requires AllFit(t, chunk) && GroupFits(t, other) && n <= |chunk| && n <= |bytes|
    requires forall i :: 0 <= i < n ==> chunk[i].hash != other.hash
    ensures RowsKept(t, StoreGroups(t, space, chunk, bytes, n), space, other)
  {
    if n > 0 {
      StoreGroupsKept(t, space, chunk, bytes, n - 1, other);
      assert GroupFits(t, chunk[n - 1]);
      FitMeansApart(t, chunk[n - 1], other);
      var before := StoreGroups(t, space, chunk, bytes, n - 1);
      var mid := StoreVector(before, space, chunk[n - 1].hash, bytes[n - 1]);
      LinkRefsKept(mid, space, chunk[n - 1], |chunk[n - 1].refs|, other);
    }
  }

  lemma {:induction false} StoreGroupsLink(t: Tables, space: Space, chunk: seq<Group>, bytes: seq<Encoded>, n: nat,
                                           i: nat)
    requires AllFit(t, chunk) && DistinctHashes(chunk) && i < n <= |chunk| && n <= |bytes|
    ensures LinkedGroup(StoreGroups(t, space, chunk, bytes, n), space, chunk[i])
  {
    StoreGroupsSegments(t, space, chunk, bytes, n - 1);
    var before := StoreGroups(t, space, chunk, bytes, n - 1);
    var g := chunk[n - 1];
    var mid := StoreVector(before, space, g.hash, bytes[n - 1]);
    assert GroupFits(t, g) && GroupFits(t, chunk[i]);
    if i == n - 1 {
      assert GroupFits(mid, g);
      LinkRefsLinks(mid, space, g, |g.refs|);
    } else {
      StoreGroupsLink(t, space, chunk, bytes, n - 1, i);
      assert OtherHash(chunk[i], g);
      FitMeansApart(t, g, chunk[i]);
      LinkRefsKept(mid, space, g, |g.refs|, chunk[i]);
      KeptAccounted(mid, StoreGroups(t, space, chunk, bytes, n), space, chunk[i]);
    }
  }

  // ----------------------------------------------------------- cache pass

  /** What the cache pass settles about a group, by what it read for it. */
  ghost predicate ScanAccounted(t: Tables, q: Tables, space: Space, g: Group, arith: Arithmetic) {
    match LoadCache(t, space, g.hash, arith)
    case Hit => LinkedGroup(q, space, g)
    case Miss => true
    case Corrupt => FailedGroup(q, space, g)
  }

  lemma ScanOneAccounts(p: Progress, g: Group, arith: Arithmetic, model: Model)
    requires RunOk(p, model) && p.space.Some? && GroupFits(p.t, g)
    ensures ScanAccounted(p.t, ScanOne(p, g, arith).0.t, p.space.value, g, arith)
  {
    var space := p.space.value;
    match LoadCache(p.t, space, g.hash, arith)
    case Hit => LinkRefsLinks(p.t, space, g, |g.refs|);
    case Miss =>
    case Corrupt =>
      DropVectorKeepsInv(p.t, space, g.hash);
      NoVectorNoLink(DropVector(p.t, space, g.hash), space, g);
      FailRefsFail(DropVector(p.t, space, g.hash), space, g, |g.refs|);
  }

  lemma ScanOneRowsKept(p: Progress, g: Group, arith: Arithmetic, model: Model, other: Group)
    requires RunOk(p, model) && p.space.Some? && GroupFits(p.t, g) && GroupFits(p.t, other) && g.hash != other.hash
    ensures RowsKept(p.t, ScanOne(p, g, arith).0.t, p.space.value, other)
  {
    var space := p.space.value;
    FitMeansApart(p.t, g, other);
    match LoadCache(p.t, space, g.hash, arith)
    case Hit => LinkRefsKept(p.t, space, g, |g.refs|, other);
    case Miss =>
    case Corrupt =>
      DropKept(p.t, space, g.hash, other);
      FailRefsKept(DropVector(p.t, space, g.hash), space, g, |g.refs|, other);
  }

  lemma StillAccounted(t: Tables, q: Tables, post: Tables, space: Space, g: Group, arith: Arithmetic)
    requires ScanAccounted(t, q, space, g, arith) && RowsKept(q, post, space, g)
    ensures ScanAccounted(t, post, space, g, arith)
  {
    KeptAccounted(q, post, space, g);
  }

  lemma {:induction false} ScanAccounts(p: Progress, groups: seq<Group>, n: nat, arith: Arithmetic, model: Model,
                                        i: nat)
    requires RunOk(p, model) && p.space.Some? && AllFit(p.t, groups) && DistinctHashes(groups) && i < n <= |groups|
    ensures ScanAccounted(p.t, ScanCache(p, groups, n, arith).0.t, p.space.value, groups[i], arith)
    decreases n
  {
    ScanReaches(p, groups, n - 1, arith, model);
    var b := ScanCache(p, groups, n - 1, arith).0;
    assert GroupFits(p.t, groups[n - 1]);
    assert GroupFits(b.t, groups[n - 1]);
    if i < n - 1 {
      ScanAccounts(p, groups, n - 1, arith, model, i);
      OtherStaysAccounted(p, b, groups, n, arith, model, i);
    } else {
      ScanOneAccounts(b, groups[n - 1], arith, model);
    }
  }

  lemma OtherStaysAccounted(p: Progress, b: Progress, groups: seq<Group>, n: nat, arith: Arithmetic, model: Model,
                            i: nat)
    requires RunOk(b, model) && b.space.Some? && b.t.segments == p.t.segments && AllFit(p.t, groups)
    requires DistinctHashes(groups) && i < n - 1 < |groups| && ScanAccounted(p.t, b.t, b.space.value, groups[i], arith)
    ensures ScanAccounted(p.t, ScanOne(b, groups[n - 1], arith).0.t, b.space.value, groups[i], arith)
  {
    DifferentHash(groups, i, n - 1);
    assert GroupFits(p.t, groups[i]) && GroupFits(p.t, groups[n - 1]);
    assert GroupFits(b.t, groups[i]) && GroupFits(b.t, groups[n - 1]);
    ScanOneRowsKept(b, groups[n - 1], arith, model, groups[i]);
    StillAccounted(p.t, b.t, ScanOne(b, groups[n - 1], arith).0.t, b.space.value, groups[i], arith);
  }

  // -------------------------------------------------------- provider pass

  function LinkedSize(linked: bool, g: Group): nat {
    if linked then |g.refs| else 0
  }

  /** The active segments of the first `n` groups that are linked. */
  ghost function LinkedTotal(t: Tables, space: Space, groups: seq<Group>, n: nat): nat
    requires n <= |groups|
  {
    if n == 0 then 0
    else LinkedTotal(t, space, groups, n - 1) + LinkedSize(LinkedGroup(t, space, groups[n - 1]), groups[n - 1])
  }

  lemma {:induction false} AllLinked(t: Tables, space: Space, groups: seq<Group>, n: nat)
    requires n <= |groups| && forall i :: 0 <= i < n ==> LinkedGroup(t, space, groups[i])
    ensures LinkedTotal(t, space, groups, n) == Size(groups, n)
  {
    if n > 0 {
      AllLinked(t, space, groups, n - 1);
    }
  }

  lemma {:induction false} NoneLinked(t: Tables, space: Space, groups: seq<Group>, n: nat)
    requires n <= |groups| && forall i :: 0 <= i < n ==> FailedGroup(t, space, groups[i])
    ensures LinkedTotal(t, space, groups, n) == 0
  {
    if n > 0 {
      NoneLinked(t, space, groups, n - 1);
      var g := groups[n - 1];
      assert FailedGroup(t, space, g);
      assert g.refs != [] ==> (g.refs[0].id, space) !in t.links;
    }
  }

  ghost predicate EachAccounted(t: Tables, space: Space, groups: seq<Group>) {
    forall i :: 0 <= i < |groups| ==> Accounted(t, space, groups[i])
  }

  /** Between `t` and `post` no row changed of a group whose hash is not among these. */
  ghost predicate OthersKept(t: Tables, post: Tables, space: Space, groups: seq<Group>) {
    forall g :: GroupFits(t, g) && g.hash !in Hashes(groups) ==> RowsKept(t, post, space, g)
  }

  /** Between `p` and `q` these groups were accounted for, and no other group's rows changed. */
  ghost predicate PassAccounted(p: Progress, q: Progress, space: Space, groups: seq<Group>) {
    && q.t.segments == p.t.segments
    && EachAccounted(q.t, space, groups)
    && q.linked == p.linked + LinkedTotal(q.t, space, groups, |groups|)
    && OthersKept(p.t, q.t, space, groups)
  }

  lemma FailPendingAccounts(p: Progress, groups: seq<Group>, e: ErrorKind, model: Model, space: Space)
    requires RunOk(p, model) && p.space == Some(space) && AllFit(p.t, groups) && AllMissing(p.t, p.space, model, groups)
    requires DistinctHashes(groups)
    ensures PassAccounted(p, FailPending(p, groups, e), space, groups)
  {
    FailPendingKeeps(p, groups, e, model);
    var post := FailPending(p, groups, e).t;
    forall i | 0 <= i < |groups| ensures Unlinked(p.t, space, groups[i].refs) {
      assert GroupFits(p.t, groups[i]);
      NoVectorNoLink(p.t, space, groups[i]);
    }
    forall i | 0 <= i < |groups| ensures FailedGroup(post, space, groups[i]) {
      FailGroupsFail(p.t, space, groups, |groups|, i);
    }
    NoneLinked(post, space, groups, |groups|);
    forall g | GroupFits(p.t, g) && g.hash !in Hashes(groups) ensures RowsKept(p.t, post, space, g) {
      forall i | 0 <= i < |groups| ensures groups[i].hash != g.hash {
        assert Hashes(groups)[i] == groups[i].hash;
      }
      FailGroupsKept(p.t, space, groups, |groups|, g);
    }
  }

  lemma StoreBatchAccounts(p: Progress, chunk: seq<Group>, accepted: seq<seq<Component>>, model: Model,
                           arith: Arithmetic, space: Space)
    requires RunOk(p, model) && p.space == Some(space) && AllFit(p.t, chunk) && DistinctHashes(chunk)
    requires |accepted| == |chunk| > 0
    ensures var turn := StoreBatch(p, chunk, accepted, model, arith);
            turn.Continue? ==> PassAccounted(p, turn.p, space, chunk)
  {
    var bytes := EncodeAll(accepted, |accepted|, space.dimensions, model, arith);
    if bytes.Some? {
      var post := StoreGroups(p.t, space, chunk, bytes.value, |chunk|);
      StoreGroupsSegments(p.t, space, chunk, bytes.value, |chunk|);
      forall i | 0 <= i < |chunk| ensures LinkedGroup(post, space, chunk[i]) {
        StoreGroupsLink(p.t, space, chunk, bytes.value, |chunk|, i);
      }
      AllLinked(post, space, chunk, |chunk|);
      forall g | GroupFits(p.t, g) && g.hash !in Hashes(chunk) ensures RowsKept(p.t, post, space, g) {
        forall i | 0 <= i < |chunk| ensures chunk[i].hash != g.hash {
          assert Hashes(chunk)[i] == chunk[i].hash;
        }
        StoreGroupsKept(p.t, space, chunk, bytes.value, |chunk|, g);
      }
    }
  }

  /** A turn accounts for its chunk, or for all that is left when it stops. */
  ghost predicate ChunkAccounted(p: Progress, turn: Turn, space: Space, pending: seq<Group>, n: nat)
    requires n <= |pending|
  {
    TurnAccounted(p, turn, space, pending[..n], pending)
  }

  ghost predicate TurnAccounted(p: Progress, turn: Turn, space: Space, chunk: seq<Group>, rest: seq<Group>) {
    && (turn.Continue? ==> PassAccounted(p, turn.p, space, chunk) && turn.p.space == p.space)
    && (turn.Stop? ==> PassAccounted(p, turn.p, space, rest) && turn.p.space == p.space)
  }

  lemma EmbedChunkAccounts(p: Progress, pending: seq<Group>, n: nat, call: nat, model: Model, provider: Provider,
                           arith: Arithmetic, space: Space)
    requires RunOk(p, model) && p.space == Some(space) && AllFit(p.t, pending)
    requires AllMissing(p.t, p.space, model, pending)
    requires DistinctHashes(pending) && 0 < n <= |pending|
    ensures ChunkAccounted(p, EmbedChunk(p, pending[..n], pending, call, model, provider, arith), space, pending, n)
  {
    var chunk := pending[..n];
    TailOk(p.t, p.space, model, pending, n);
    AnswerAccounts(p, chunk, pending, call, model, provider, arith, space);
  }

  /** The same, for any chunk and anything left behind it. */
  lemma AnswerAccounts(p: Progress, chunk: seq<Group>, rest: seq<Group>, call: nat, model: Model, provider: Provider,
                       arith: Arithmetic, space: Space)
    requires RunOk(p, model) && p.space == Some(space) && chunk != []
    requires AllFit(p.t, chunk) && AllMissing(p.t, p.space, model, chunk) && DistinctHashes(chunk)
    requires AllFit(p.t, rest) && AllMissing(p.t, p.space, model, rest) && DistinctHashes(rest)
    ensures TurnAccounted(p, EmbedChunk(p, chunk, rest, call, model, provider, arith), space, chunk, rest)
  {
    var q := p.(inputs := p.inputs + |chunk|, sent := p.sent + Hashes(chunk));
    match provider(model, call, Hashes(chunk))
    case Refused(e) => FailedFrom(p, q, if Systemic(e) then rest else chunk, e, model, space);
    case Vectors(batch) =>
      match ValidateBatch(batch, |chunk|, Some(space.dimensions), arith)
      case Rejected(e) => FailedFrom(p, q, chunk, e, model, space);
      case Accepted(accepted) => StoredFrom(p, q, chunk, accepted, model, arith, space);
  }

  lemma FailedFrom(p: Progress, q: Progress, part: seq<Group>, e: ErrorKind, model: Model, space: Space)
    requires RunOk(q, model) && q.space == Some(space) && q.t == p.t && q.linked == p.linked
    requires AllFit(q.t, part) && AllMissing(q.t, q.space, model, part) && DistinctHashes(part)
    ensures PassAccounted(p, FailPending(q, part, e), space, part)
  {
    FailPendingAccounts(q, part, e, model, space);
    AccountedFrom(p, q, FailPending(q, part, e), space, part);
  }

  lemma StoredFrom(p: Progress, q: Progress, chunk: seq<Group>, accepted: seq<seq<Component>>, model: Model,
                   arith: Arithmetic, space: Space)
    requires RunOk(q, model) && q.space == Some(space) && q.t == p.t && q.linked == p.linked
    requires AllFit(q.t, chunk) && DistinctHashes(chunk) && |accepted| == |chunk| > 0
    ensures var turn := StoreBatch(q, chunk, accepted, model, arith);
            turn.Continue? ==> PassAccounted(p, turn.p, space, chunk)
  {
    StoreBatchAccounts(q, chunk, accepted, model, arith, space);
    var turn := StoreBatch(q, chunk, accepted, model, arith);
    if turn.Continue? {
      AccountedFrom(p, q, turn.p, space, chunk);
    }
  }

  /** What is counted and stored decides; what was sent does not. */
  lemma AccountedFrom(p: Progress, q: Progress, r: Progress, space: Space, groups: seq<Group>)
    requires q.t == p.t && q.linked == p.linked && PassAccounted(q, r, space, groups)
    ensures PassAccounted(p, r, space, groups)
  {
  }

  lemma {:induction false} LinkedTotalSplit(t: Tables, space: Space, groups: seq<Group>, n: nat)
    requires n <= |groups|
    ensures LinkedTotal(t, space, groups, |groups|)
            == LinkedTotal(t, space, groups[..n], n) + LinkedTotal(t, space, groups[n..], |groups| - n)
    decreases |groups| - n
  {
    if n == |groups| {
      assert groups[..n] == groups;
    } else {
      LinkedTotalSplit(t, space, groups, n + 1);
      LinkedTotalPrefix(t, space, groups[..n + 1], groups[..n], n);
      LinkedTotalCons(t, space, groups[n..]);
      assert groups[n..][1..] == groups[n + 1..];
    }
  }

  lemma {:induction false} LinkedTotalPrefix(t: Tables, space: Space, a: seq<Group>, b: seq<Group>, n: nat)
    requires n <= |a| && n <= |b| && a[..n] == b[..n]
    ensures LinkedTotal(t, space, a, n) == LinkedTotal(t, space, b, n)
  {
    if n > 0 {
      assert a[n - 1] == a[..n][n - 1] == b[n - 1];
      assert a[..n - 1] == a[..n][..n - 1] == b[..n - 1];
      LinkedTotalPrefix(t, space, a, b, n - 1);
    }
  }

  lemma {:induction false} LinkedTotalCons(t: Tables, space: Space, a: seq<Group>)
    requires a != []
    ensures LinkedTotal(t, space, a, |a|) == LinkedSize(LinkedGroup(t, space, a[0]), a[0])
            + LinkedTotal(t, space, a[1..], |a| - 1)
  {
    if |a| > 1 {
      var init := a[..|a| - 1];
      LinkedTotalCons(t, space, init);
      LinkedTotalPrefix(t, space, a, init, |init|);
      assert init[1..] == a[1..][..|a| - 2];
      LinkedTotalPrefix(t, space, a[1..], init[1..], |a| - 2);
    }
  }

  lemma {:induction false} LinkedTotalSame(t: Tables, post: Tables, space: Space, groups: seq<Group>, n: nat)
    requires n <= |groups| && forall i :: 0 <= i < n ==> RowsKept(t, post, space, groups[i])
    ensures LinkedTotal(post, space, groups, n) == LinkedTotal(t, space, groups, n)
  {
    if n > 0 {
      LinkedTotalSame(t, post, space, groups, n - 1);
      KeptAccounted(t, post, space, groups[n - 1]);
    }
  }

  lemma HeadKept(p: Progress, q: Progress, r: Progress, space: Space, pending: seq<Group>, n: nat)
    requires n <= |pending| && AllFit(p.t, pending) && DistinctHashes(pending)
    requires q.t.segments == p.t.segments && PassAccounted(q, r, space, pending[n..])
    ensures forall i :: 0 <= i < n ==> RowsKept(q.t, r.t, space, pending[..n][i])
  {
    forall i | 0 <= i < n ensures RowsKept(q.t, r.t, space, pending[..n][i]) {
      assert pending[..n][i] == pending[i];
      assert GroupFits(p.t, pending[i]);
      assert GroupFits(q.t, pending[i]);
      HashNotIn(pending, n, i);
    }
  }

  lemma PassOnward(p: Progress, q: Progress, r: Progress, space: Space, pending: seq<Group>, n: nat)
    requires n <= |pending| && AllFit(p.t, pending) && DistinctHashes(pending)
    requires PassAccounted(p, q, space, pending[..n]) && PassAccounted(q, r, space, pending[n..])
    ensures PassAccounted(p, r, space, pending)
  {
    PassOnwardLinked(p, q, r, space, pending, n);
    HeadKept(p, q, r, space, pending, n);
    PassOnwardAccounted(p, q, r, space, pending, n);
    PassOnwardOthers(p.t, q.t, r.t, space, pending, n);
  }

  lemma PassOnwardLinked(p: Progress, q: Progress, r: Progress, space: Space, pending: seq<Group>, n: nat)
    requires n <= |pending| && AllFit(p.t, pending) && DistinctHashes(pending)
    requires PassAccounted(p, q, space, pending[..n]) && PassAccounted(q, r, space, pending[n..])
    ensures r.linked - p.linked == LinkedTotal(r.t, space, pending, |pending|)
  {
    HeadKept(p, q, r, space, pending, n);
    LinkedTotalSame(q.t, r.t, space, pending[..n], n);
    LinkedTotalSplit(r.t, space, pending, n);
  }

  lemma PassOnwardAccounted(p: Progress, q: Progress, r: Progress, space: Space, pending: seq<Group>, n: nat)
    requires n <= |pending|
    requires forall i :: 0 <= i < n ==> RowsKept(q.t, r.t, space, pending[..n][i])
    requires PassAccounted(p, q, space, pending[..n]) && PassAccounted(q, r, space, pending[n..])
    ensures EachAccounted(r.t, space, pending)
  {
    forall i | 0 <= i < |pending| ensures Accounted(r.t, space, pending[i]) {
      if i < n {
        assert Accounted(q.t, space, pending[..n][i]);
        KeptAccounted(q.t, r.t, space, pending[..n][i]);
      } else {
        assert Accounted(r.t, space, pending[n..][i - n]);
      }
    }
  }

  lemma PassOnwardOthers(t: Tables, mid: Tables, post: Tables, space: Space, pending: seq<Group>, n: nat)
    requires n <= |pending| && mid.segments == t.segments
    requires OthersKept(t, mid, space, pending[..n]) && OthersKept(mid, post, space, pending[n..])
    ensures OthersKept(t, post, space, pending)
  {
    HashesAppend(pending[..n], pending[n..]);
    assert pending[..n] + pending[n..] == pending;
    forall g | GroupFits(t, g) && g.hash !in Hashes(pending) ensures RowsKept(t, post, space, g) {
      assert GroupFits(mid, g);
      KeptOnward(t, mid, post, space, g);
    }
  }

  lemma {:induction false} EmbedAllAccounts(p: Progress, pending: seq<Group>, call: nat, model: Model,
                                            provider: Provider, batch: nat, arith: Arithmetic, space: Space)
    requires batch > 0 && RunOk(p, model) && p.space == Some(space) && AllFit(p.t, pending)
    requires AllMissing(p.t, p.space, model, pending) && DistinctHashes(pending)
    ensures var turn := EmbedAll(p, pending, call, model, provider, batch, arith);
            !turn.Abort? ==> PassAccounted(p, turn.p, space, pending) && turn.p.space == p.space
    decreases |pending|
  {
    if pending != [] {
      var n := ChunkSize(pending, batch);
      EmbedChunkKeeps(p, pending, n, call, model, provider, arith);
      EmbedChunkAccounts(p, pending, n, call, model, provider, arith, space);
      TailOk(p.t, p.space, model, pending, n);
      var turn := EmbedChunk(p, pending[..n], pending, call, model, provider, arith);
      if turn.Continue? {
        var q := turn.p;
        assert AllFit(q.t, pending[n..]);
        EmbedAllAccounts(q, pending[n..], call + 1, model, provider, batch, arith, space);
        var rest := EmbedAll(q, pending[n..], call + 1, model, provider, batch, arith);
        if !rest.Abort? {
          PassOnward(p, q, rest.p, space, pending, n);
        }
      }
    }
  }

  // ------------------------------------------------------------ whole runs

  lemma {:induction false} HitsAreLinked(p: Progress, groups: seq<Group>, n: nat, arith: Arithmetic, model: Model,
                                         r: Tables, space: Space)
    requires RunOk(p, model) && p.space == Some(space) && AllFit(p.t, groups) && DistinctHashes(groups) && n <= |groups|
    requires ScansAccounted(p.t, r, space, groups, n, arith)
    ensures ScanLinks(p, groups, n, arith, r, space)
  {
    if n == 0 {
      LinkedNone(p, groups, arith, r, space);
    } else {
      HitsAreLinked(p, groups, n - 1, arith, model, r, space);
      LinkedNext(p, groups, n, arith, model, r, space);
    }
  }

  lemma LinkedNone(p: Progress, groups: seq<Group>, arith: Arithmetic, r: Tables, space: Space)
    ensures ScanLinks(p, groups, 0, arith, r, space)
  {
  }

  lemma LinkedNext(p: Progress, groups: seq<Group>, n: nat, arith: Arithmetic, model: Model, r: Tables, space: Space)
    requires RunOk(p, model) && p.space == Some(space) && AllFit(p.t, groups) && DistinctHashes(groups)
    requires 0 < n <= |groups| && ScanAccounted(p.t, r, space, groups[n - 1], arith)
    requires ScanLinks(p, groups, n - 1, arith, r, space)
    ensures ScanLinks(p, groups, n, arith, r, space)
  {
    var (b, pending) := ScanCache(p, groups, n - 1, arith);
    ScanReaches(p, groups, n - 1, arith, model);
    OneMoreLinked(p, b, pending, groups, n, arith, r, space);
  }

  ghost predicate ScanLinks(p: Progress, groups: seq<Group>, n: nat, arith: Arithmetic, r: Tables, space: Space)
    requires n <= |groups|
  {
    var (q, pending) := ScanCache(p, groups, n, arith);
    LinkedAdds(p, q, pending, groups, n, r, space)
  }

  ghost predicate ScansAccounted(t: Tables, r: Tables, space: Space, groups: seq<Group>, n: nat, arith: Arithmetic)
    requires n <= |groups|
  {
    forall i :: 0 <= i < n ==> ScanAccounted(t, r, space, groups[i], arith)
  }

  /** What `r` links among the first `n` groups was linked by the cache pass or is still pending. */
  ghost predicate LinkedAdds(p: Progress, q: Progress, pending: seq<Group>, groups: seq<Group>, n: nat, r: Tables,
                             space: Space)
    requires n <= |groups|
  {
    LinkedTotal(r, space, groups, n) == q.linked - p.linked + LinkedTotal(r, space, pending, |pending|)
  }

  lemma OneMoreLinked(p: Progress, b: Progress, pending: seq<Group>, groups: seq<Group>, n: nat, arith: Arithmetic,
                      r: Tables, space: Space)
    requires 0 < n <= |groups| && LinkedAdds(p, b, pending, groups, n - 1, r, space) && b.space == Some(space)
    requires LoadCache(b.t, space, groups[n - 1].hash, arith) == LoadCache(p.t, space, groups[n - 1].hash, arith)
    requires ScanAccounted(p.t, r, space, groups[n - 1], arith)
    ensures var (q, more) := ScanOne(b, groups[n - 1], arith); LinkedAdds(p, q, pending + more, groups, n, r, space)
  {
    var g := groups[n - 1];
    var (q, more) := ScanOne(b, g, arith);
    HitIsLinked(b, g, arith, r, space);
    LinkedTotalSplit(r, space, pending + more, |pending|);
    assert (pending + more)[..|pending|] == pending && (pending + more)[|pending|..] == more;
  }

  lemma HitIsLinked(b: Progress, g: Group, arith: Arithmetic, r: Tables, space: Space)
    requires b.space == Some(space) && ScanAccounted(b.t, r, space, g, arith)
    ensures var (q, more) := ScanOne(b, g, arith);
            LinkedSize(LinkedGroup(r, space, g), g) == q.linked - b.linked + LinkedTotal(r, space, more, |more|)
  {
    match LoadCache(b.t, space, g.hash, arith)
    case Hit =>
    case Miss =>
      assert LinkedTotal(r, space, [g], 1) == LinkedTotal(r, space, [g], 0) + LinkedSize(LinkedGroup(r, space, g), g);
    case Corrupt => assert g.refs != [] ==> (g.refs[0].id, space) !in r.links;
  }

  /** A run that knows its space from the start. */
  lemma KnownSpaceAccounts(t: Tables, groups: seq<Group>, model: Model, dimensions: Option<nat>, existing: Option<nat>,
                           provider: Provider, batch: nat, arith: Arithmetic)
    requires batch > 0 && Sync(t, groups, Resolved(model, dimensions), existing)
    requires StartDimensions(dimensions, existing).Some?
    ensures var r := Synchronize(t, groups, Resolved(model, dimensions), existing, provider, batch, arith);
            r.Reported? ==>
              && r.report.space == Some(Space(model, StartDimensions(dimensions, existing).value))
              && (forall i :: 0 <= i < |groups| ==> Accounted(r.t, r.report.space.value, groups[i]))
              && r.report.linked == LinkedTotal(r.t, r.report.space.value, groups, |groups|)
  {
    var space := Space(model, StartDimensions(dimensions, existing).value);
    var begun := ActivateSpace(t, space);
    if begun.Some? {
      Opening(t, groups, model, dimensions, existing, begun.value);
      var p := Start(begun.value, Some(space));
      OpenedRunAccounts(p, groups, model, provider, batch, arith, space);
      var (q, pending) := ScanCache(p, groups, |groups|, arith);
      var turn := EmbedAll(q, pending, 0, model, provider, batch, arith);
      if !turn.Abort? {
        FinishSame(turn.p, space, groups, Size(groups, |groups|));
      }
    }
  }

  lemma OpenedRunAccounts(p: Progress, groups: seq<Group>, model: Model, provider: Provider, batch: nat,
                          arith: Arithmetic, space: Space)
    requires batch > 0 && RunOk(p, model) && p.space == Some(space) && AllFit(p.t, groups) && DistinctHashes(groups)
    ensures var (q, pending) := ScanCache(p, groups, |groups|, arith);
            var turn := EmbedAll(q, pending, 0, model, provider, batch, arith);
            !turn.Abort? ==> RunAccounted(p, turn.p, space, groups)
  {
    AfterScan(p, groups, model, arith);
    var (q, pending) := ScanCache(p, groups, |groups|, arith);
    EmbedAllAccounts(q, pending, 0, model, provider, batch, arith, space);
    var turn := EmbedAll(q, pending, 0, model, provider, batch, arith);
    if !turn.Abort? {
      RunAccounts(p, groups, q, pending, turn.p, model, arith, space);
    }
  }

  /** Between `p` and `r` every group was linked or failed, and the links were counted. */
  ghost predicate RunAccounted(p: Progress, r: Progress, space: Space, groups: seq<Group>) {
    && r.space == Some(space) && (forall i :: 0 <= i < |groups| ==> Accounted(r.t, space, groups[i]))
    && r.linked == p.linked + LinkedTotal(r.t, space, groups, |groups|)
  }

  /** The tail of a run changes no row. */
  lemma FinishSame(q: Progress, space: Space, groups: seq<Group>, total: nat)
    requires q.space == Some(space)
    ensures LinkedTotal(Finish(q, total).t, space, groups, |groups|) == LinkedTotal(q.t, space, groups, |groups|)
    ensures forall i :: 0 <= i < |groups| ==>
            (Accounted(Finish(q, total).t, space, groups[i]) <==> Accounted(q.t, space, groups[i]))
  {
    ActiveIrrelevant(q.t, Some(space), space, groups, |groups|);
    ActiveIrrelevant(q.t.(active := Some(space)), q.t.active, space, groups, |groups|);
    assert q.t.(active := Some(space)).(active := q.t.active) == q.t;
  }

  lemma ActiveIrrelevant(t: Tables, active: Option<Space>, space: Space, groups: seq<Group>, n: nat)
    requires n <= |groups|
    ensures LinkedTotal(t.(active := active), space, groups, n) == LinkedTotal(t, space, groups, n)
    ensures forall i :: 0 <= i < |groups| && Accounted(t, space, groups[i]) ==>
            Accounted(t.(active := active), space, groups[i])
  {
    var u := t.(active := active);
    forall i | 0 <= i < |groups| ensures RowsKept(t, u, space, groups[i]) {
    }
    LinkedTotalSame(t, u, space, groups, n);
    forall i | 0 <= i < |groups| && Accounted(t, space, groups[i]) ensures Accounted(u, space, groups[i]) {
      KeptAccounted(t, u, space, groups[i]);
    }
  }

  lemma RunAccounts(p: Progress, groups: seq<Group>, q: Progress, pending: seq<Group>, r: Progress, model: Model,
                    arith: Arithmetic, space: Space)
    requires RunOk(p, model) && p.space == Some(space) && AllFit(p.t, groups) && DistinctHashes(groups)
    requires (q, pending) == ScanCache(p, groups, |groups|, arith) && q.t.segments == p.t.segments
    requires PendingOk(q, pending, groups, |groups|) && ScanSettled(p, q, pending, space, groups, |groups|, arith)
    requires PassAccounted(q, r, space, pending) && r.space == Some(space)
    ensures RunAccounted(p, r, space, groups)
  {
    forall i | 0 <= i < |groups|
      ensures ScanAccounted(p.t, r.t, space, groups[i], arith) && Accounted(r.t, space, groups[i])
    {
      ScanAccounts(p, groups, |groups|, arith, model, i);
      assert GroupFits(p.t, groups[i]);
      assert GroupFits(q.t, groups[i]);
      GroupAccounted(p, q, pending, groups, i, r, arith, space);
    }
    HitsAreLinked(p, groups, |groups|, arith, model, r.t, space);
  }

  lemma GroupAccounted(p: Progress, q: Progress, pending: seq<Group>, groups: seq<Group>, i: nat, r: Progress,
                       arith: Arithmetic, space: Space)
    requires i < |groups| && DistinctHashes(groups) && GroupFits(q.t, groups[i])
    requires PendingOk(q, pending, groups, |groups|) && ScanSettled(p, q, pending, space, groups, |groups|, arith)
    requires ScanAccounted(p.t, q.t, space, groups[i], arith) && PassAccounted(q, r, space, pending)
    ensures ScanAccounted(p.t, r.t, space, groups[i], arith) && Accounted(r.t, space, groups[i])
  {
    var g := groups[i];
    if g !in pending {
      forall j | 0 <= j < |pending| ensures Hashes(pending)[j] != g.hash {
        assert Among(pending[j], groups, |groups|);
        var k :| 0 <= k < |groups| && groups[k] == pending[j];
        DifferentHash(groups, i, k);
      }
      assert RowsKept(q.t, r.t, space, g);
      StillAccounted(p.t, q.t, r.t, space, g, arith);
    }
  }

  // ------------------------------------------ runs that start without a space

  /** The group's segments have neither a link nor a failure row in any space of the model. */
  ghost predicate NoRows(t: Tables, model: Model, g: Group) {
    forall i, s: Space :: 0 <= i < |g.refs| && s.model == model ==>
        (g.refs[i].id, s) !in t.links && (g.refs[i].id, s) !in t.failures
  }

  lemma UnknownModelHasNoRows(t: Tables, model: Model, g: Group)
    requires Inv(t) && forall s :: s in t.spaces ==> s.model != model
    ensures NoRows(t, model, g)
  {
    forall i, s: Space | 0 <= i < |g.refs| && s.model == model
      ensures (g.refs[i].id, s) !in t.links && (g.refs[i].id, s) !in t.failures
    {
      assert s !in t.spaces;
    }
  }

  lemma NoRowsKept(t: Tables, post: Tables, model: Model, space: Space, g: Group)
    requires NoRows(t, model, g) && RowsKept(t, post, space, g) && space.model == model
    ensures g.refs != [] ==> !Accounted(post, space, g)
    ensures LinkedSize(LinkedGroup(post, space, g), g) == 0
  {
    if g.refs != [] {
      assert (g.refs[0].id, space) !in t.links && (g.refs[0].id, space) !in t.failures;
    }
  }

  lemma {:induction false} UnlinkedTotal(t: Tables, post: Tables, model: Model, space: Space, groups: seq<Group>,
                                         n: nat)
    requires n <= |groups| && space.model == model
    requires forall i :: 0 <= i < n ==> NoRows(t, model, groups[i]) && RowsKept(t, post, space, groups[i])
    ensures LinkedTotal(post, space, groups, n) == 0
  {
    if n > 0 {
      UnlinkedTotal(t, post, model, space, groups, n - 1);
      NoRowsKept(t, post, model, space, groups[n - 1]);
    }
  }

  /** Whether an answer can be stored, when no dimension is known yet. */
  predicate FirstAccepted(r: Response, count: nat, arith: Arithmetic) {
    r.Vectors? && ValidateBatch(r.batch, count, None, arith).Accepted?
  }

  /** A turn without a known space changes nothing but counters, or opens a space and accounts for its chunk in it. */
  ghost predicate ChunkOpened(p: Progress, turn: Turn, pending: seq<Group>, n: nat, accepted: bool)
    requires n <= |pending|
  {
    if accepted then
      && !turn.Stop?
      && (turn.Continue? ==> turn.p.space.Some? && PassAccounted(p, turn.p, turn.p.space.value, pending[..n]))
    else
      !turn.Abort? && turn.p.t == p.t && turn.p.space.None? && turn.p.linked == p.linked
  }

  /** The space the chunk's answer establishes. */
  lemma ChunkOpens(p: Progress, pending: seq<Group>, n: nat, call: nat, model: Model, provider: Provider,
                   arith: Arithmetic)
    requires RunOk(p, model) && p.space.None? && AllFit(p.t, pending) && AllMissing(p.t, None, model, pending)
    requires DistinctHashes(pending) && 0 < n <= |pending|
    ensures ChunkOpened(p, EmbedChunk(p, pending[..n], pending, call, model, provider, arith), pending, n,
                        FirstAccepted(provider(model, call, Hashes(pending[..n])), n, arith))
  {
    var r := provider(model, call, Hashes(pending[..n]));
    if FirstAccepted(r, n, arith) {
      var accepted := ValidateBatch(r.batch, n, None, arith).vectors;
      TailOk(p.t, p.space, model, pending, n);
      BatchOpens(p, pending[..n], accepted, model, arith);
    }
  }

  /** Storing the first accepted batch. */
  lemma BatchOpens(p: Progress, chunk: seq<Group>, accepted: seq<seq<Component>>, model: Model, arith: Arithmetic)
    requires RunOk(p, model) && p.space.None? && AllFit(p.t, chunk) && AllMissing(p.t, None, model, chunk)
    requires DistinctHashes(chunk)
    requires 0 < |chunk| == |accepted|
    ensures var q := p.(inputs := p.inputs + |chunk|, sent := p.sent + Hashes(chunk));
            var turn := StoreBatch(q, chunk, accepted, model, arith);
            !turn.Stop? && (turn.Continue? ==>
                turn.p.space.Some? && PassAccounted(p, turn.p, turn.p.space.value, chunk))
  {
    var space := Space(model, |accepted[0]|);
    var active := ActivateSpace(p.t, space);
    if active.Some? {
      ActivateKeepsInv(p.t, space, active.value);
      var q := p.(inputs := p.inputs + |chunk|, sent := p.sent + Hashes(chunk),
                  t := active.value, space := Some(space));
      FitsAgain(p.t, active.value, chunk);
      StoreBatchAccounts(q, chunk, accepted, model, arith, space);
      var turn := StoreBatch(q, chunk, accepted, model, arith);
      if turn.Continue? {
        OpenedOthers(p, q, turn.p, space, chunk);
      }
    }
  }

  /** Activating a space changes no row. */
  lemma OpenedOthers(p: Progress, q: Progress, r: Progress, space: Space, chunk: seq<Group>)
    requires PassAccounted(q, r, space, chunk)
    requires q.t.links == p.t.links && q.t.failures == p.t.failures && q.t.segments == p.t.segments
    requires q.linked == p.linked
    ensures PassAccounted(p, r, space, chunk)
  {
    forall g | GroupFits(p.t, g) && g.hash !in Hashes(chunk) ensures RowsKept(p.t, r.t, space, g) {
      assert GroupFits(q.t, g);
      assert RowsKept(q.t, r.t, space, g);
    }
  }

  /** What a pass that starts without a space counts and leaves. */
  ghost predicate OpenPass(p: Progress, q: Progress, model: Model, pending: seq<Group>) {
    && q.t.segments == p.t.segments
    && match q.space
       case None => q.linked == p.linked
       case Some(s) =>
         && s.model == model && q.linked == p.linked + LinkedTotal(q.t, s, pending, |pending|)
         && OthersKept(p.t, q.t, s, pending)
  }

  lemma AccountedIsOpenPass(p: Progress, r: Progress, model: Model, pending: seq<Group>, space: Space)
    requires PassAccounted(p, r, space, pending) && r.space == Some(space) && space.model == model
    ensures OpenPass(p, r, model, pending)
  {
  }

  /** A chunk refused before any space is known, and the rest of the pass. */
  lemma RefusedThenOpen(p: Progress, q: Progress, r: Progress, model: Model, pending: seq<Group>, n: nat)
    requires RunOk(p, model) && p.space.None? && AllFit(p.t, pending) && AllMissing(p.t, None, model, pending)
    requires DistinctHashes(pending)
    requires n <= |pending| && q.t == p.t && q.linked == p.linked && OpenPass(q, r, model, pending[n..])
    ensures OpenPass(p, r, model, pending)
    ensures r.space.Some? ==> forall i :: 0 <= i < n && pending[i].refs != [] ==>
            !Accounted(r.t, r.space.value, pending[i])
  {
    if r.space.Some? {
      var s, chunk := r.space.value, pending[..n];
      RefusedStayRowless(p, r, model, pending, n);
      LinkedTotalSplit(r.t, s, pending, n);
      assert OthersKept(p.t, r.t, s, pending) by {
        HashesAppend(chunk, pending[n..]);
        assert chunk + pending[n..] == pending;
      }
    }
  }

  lemma RefusedStayRowless(p: Progress, r: Progress, model: Model, pending: seq<Group>, n: nat)
    requires RunOk(p, model) && AllFit(p.t, pending) && AllMissing(p.t, None, model, pending) && DistinctHashes(pending)
    requires n <= |pending| && r.space.Some? && OpenPass(p, r, model, pending[n..])
    ensures LinkedTotal(r.t, r.space.value, pending[..n], n) == 0
    ensures forall i :: 0 <= i < n && pending[i].refs != [] ==> !Accounted(r.t, r.space.value, pending[i])
  {
    var s, chunk := r.space.value, pending[..n];
    forall i | 0 <= i < n
      ensures NoRows(p.t, model, chunk[i]) && RowsKept(p.t, r.t, s, chunk[i])
      ensures chunk[i].refs != [] ==> !Accounted(r.t, s, chunk[i])
    {
      assert chunk[i] == pending[i] && GroupFits(p.t, pending[i]);
      UnknownModelHasNoRows(p.t, model, chunk[i]);
      HashNotIn(pending, n, i);
      NoRowsKept(p.t, r.t, model, s, chunk[i]);
    }
    UnlinkedTotal(p.t, r.t, model, s, chunk, n);
  }

  /** A chunk that opens the space, and the rest of the pass. */
  lemma OpenedThenRest(p: Progress, pending: seq<Group>, n: nat, q: Progress, call: nat, model: Model,
                       provider: Provider, batch: nat, arith: Arithmetic)
    requires batch > 0 && RunOk(p, model) && p.space.None? && AllFit(p.t, pending)
    requires AllMissing(p.t, None, model, pending)
    requires DistinctHashes(pending) && n <= |pending|
    requires RunOk(q, model) && q.space.Some? && PassAccounted(p, q, q.space.value, pending[..n])
    requires AllMissing(q.t, q.space, model, pending[n..])
    ensures var turn := EmbedAll(q, pending[n..], call, model, provider, batch, arith);
            !turn.Abort? ==> turn.p.space == q.space && PassAccounted(p, turn.p, q.space.value, pending)
  {
    var space := q.space.value;
    TailOk(p.t, p.space, model, pending, n);
    FitsAgain(p.t, q.t, pending[n..]);
    EmbedAllAccounts(q, pending[n..], call, model, provider, batch, arith, space);
    var turn := EmbedAll(q, pending[n..], call, model, provider, batch, arith);
    if !turn.Abort? {
      PassOnward(p, q, turn.p, space, pending, n);
    }
  }

  lemma {:induction false} EmbedAllOpens(p: Progress, pending: seq<Group>, call: nat, model: Model, provider: Provider,
                                         batch: nat, arith: Arithmetic)
    requires batch > 0 && RunOk(p, model) && p.space.None? && AllFit(p.t, pending)
    requires AllMissing(p.t, None, model, pending)
    requires DistinctHashes(pending)
    ensures OpenTurn(p, EmbedAll(p, pending, call, model, provider, batch, arith), model, pending)
    decreases |pending|
  {
    if pending != [] {
      var n := ChunkSize(pending, batch);
      ChunkOpens(p, pending, n, call, model, provider, arith);
      EmbedChunkKeeps(p, pending, n, call, model, provider, arith);
      TailOk(p.t, p.space, model, pending, n);
      var turn := EmbedChunk(p, pending[..n], pending, call, model, provider, arith);
      if turn.Continue? {
        var q := turn.p;
        if q.space.Some? {
          OpenedIsOpenPass(p, pending, n, q, call + 1, model, provider, batch, arith);
        } else {
          EmbedAllOpens(q, pending[n..], call + 1, model, provider, batch, arith);
          var rest := EmbedAll(q, pending[n..], call + 1, model, provider, batch, arith);
          RefusedIsOpenPass(p, q, rest, model, pending, n);
        }
      }
    }
  }

  ghost predicate OpenTurn(p: Progress, turn: Turn, model: Model, pending: seq<Group>) {
    !turn.Abort? ==> OpenPass(p, turn.p, model, pending)
  }

  lemma RefusedIsOpenPass(p: Progress, q: Progress, rest: Turn, model: Model, pending: seq<Group>, n: nat)
    requires RunOk(p, model) && p.space.None? && AllFit(p.t, pending) && AllMissing(p.t, None, model, pending)
    requires DistinctHashes(pending)
    requires n <= |pending| && q.t == p.t && q.linked == p.linked && OpenTurn(q, rest, model, pending[n..])
    ensures OpenTurn(p, rest, model, pending)
  {
    if !rest.Abort? {
      RefusedThenOpen(p, q, rest.p, model, pending, n);
    }
  }

  lemma OpenedIsOpenPass(p: Progress, pending: seq<Group>, n: nat, q: Progress, call: nat, model: Model,
                         provider: Provider, batch: nat, arith: Arithmetic)
    requires batch > 0 && RunOk(p, model) && p.space.None? && AllFit(p.t, pending)
    requires AllMissing(p.t, None, model, pending)
    requires DistinctHashes(pending) && n <= |pending|
    requires RunOk(q, model) && q.space.Some? && PassAccounted(p, q, q.space.value, pending[..n])
    requires AllMissing(q.t, q.space, model, pending[n..])
    ensures OpenTurn(p, EmbedAll(q, pending[n..], call, model, provider, batch, arith), model, pending)
  {
    OpenedThenRest(p, pending, n, q, call, model, provider, batch, arith);
    var rest := EmbedAll(q, pending[n..], call, model, provider, batch, arith);
    if !rest.Abort? {
      AccountedIsOpenPass(p, rest.p, model, pending, q.space.value);
    }
  }

  /** The first answer of a run with everything pending. */
  predicate FirstAnswerAccepted(groups: seq<Group>, model: Model, provider: Provider, batch: nat, arith: Arithmetic)
    requires batch > 0
  {
    var n := ChunkSize(groups, batch);
    FirstAccepted(provider(model, 0, Hashes(groups[..n])), n, arith)
  }

  /** Whether the pass accounts for every group is decided by its first answer. */
  lemma FirstAnswerDecides(p: Progress, pending: seq<Group>, model: Model, provider: Provider, batch: nat,
                           arith: Arithmetic)
    requires batch > 0 && RunOk(p, model) && p.space.None? && AllFit(p.t, pending)
    requires AllMissing(p.t, None, model, pending)
    requires DistinctHashes(pending) && pending != [] && pending[0].refs != []
    ensures var turn := EmbedAll(p, pending, 0, model, provider, batch, arith);
            !turn.Abort? ==>
              if FirstAnswerAccepted(pending, model, provider, batch, arith)
              then turn.p.space.Some? && forall i :: 0 <= i < |pending| ==>
                  Accounted(turn.p.t, turn.p.space.value, pending[i])
              else turn.p.space.Some? ==> !Accounted(turn.p.t, turn.p.space.value, pending[0])
  {
    var n := ChunkSize(pending, batch);
    ChunkOpens(p, pending, n, 0, model, provider, arith);
    EmbedChunkKeeps(p, pending, n, 0, model, provider, arith);
    TailOk(p.t, p.space, model, pending, n);
    var turn := EmbedChunk(p, pending[..n], pending, 0, model, provider, arith);
    if turn.Continue? {
      var rest := EmbedAll(turn.p, pending[n..], 1, model, provider, batch, arith);
      if turn.p.space.Some? {
        OpenedThenRest(p, pending, n, turn.p, 1, model, provider, batch, arith);
      } else {
        EmbedAllOpens(turn.p, pending[n..], 1, model, provider, batch, arith);
        if !rest.Abort? {
          RefusedThenOpen(p, turn.p, rest.p, model, pending, n);
        }
      }
    }
  }

  // ------------------------------------------------------------- the report

  /** The active segments that a report's space links. */
  ghost function LinkedIn(t: Tables, space: Option<Space>, groups: seq<Group>): nat {
    if space.None? then 0 else LinkedTotal(t, space.value, groups, |groups|)
  }

  /** Every active segment is linked or has a failure row in the report's space. */
  ghost predicate AllAccounted(r: SyncResult, groups: seq<Group>)
    requires r.Reported?
  {
    forall i :: 0 <= i < |groups| ==> r.report.space.Some? && Accounted(r.t, r.report.space.value, groups[i])
  }

  lemma OpenRunTells(t: Tables, groups: seq<Group>, model: Model, existing: Option<nat>, provider: Provider, batch: nat,
                     arith: Arithmetic)
    requires batch > 0 && Sync(t, groups, Resolved(model, None), existing) && existing.None?
    requires forall i :: 0 <= i < |groups| ==> groups[i].refs != []
    ensures var r := Synchronize(t, groups, Resolved(model, None), existing, provider, batch, arith);
            r.Reported? ==>
              && r.report.linked == LinkedIn(r.t, r.report.space, groups)
              && (AllAccounted(r, groups) <==>
                 groups == [] || FirstAnswerAccepted(groups, model, provider, batch, arith))
  {
    var begun := t.(active := None);
    Opening(t, groups, model, None, existing, begun);
    var p := Start(begun, None);
    ScanWithoutSpace(p, groups, |groups|, arith);
    assert groups[..|groups|] == groups;
    EmbedAllOpens(p, groups, 0, model, provider, batch, arith);
    if groups != [] {
      FirstAnswerDecides(p, groups, model, provider, batch, arith);
    }
    var turn := EmbedAll(p, groups, 0, model, provider, batch, arith);
    if !turn.Abort? && turn.p.space.Some? {
      FinishSame(turn.p, turn.p.space.value, groups, Size(groups, |groups|));
    }
  }

  /**
   When a run reports, `linked` is the number of active segments linked in its
   space.  Every other one has a failure row there if and only if the space was
   known from the start or the first answer is accepted: what is refused while no
   space is known is counted, but cannot be recorded.
   */
  lemma ReportTellsTheTables(t: Tables, groups: seq<Group>, model: Model, dimensions: Option<nat>,
                             existing: Option<nat>, provider: Provider, batch: nat, arith: Arithmetic)
    requires batch > 0 && Sync(t, groups, Resolved(model, dimensions), existing)
    requires forall i :: 0 <= i < |groups| ==> groups[i].refs != []
    ensures var r := Synchronize(t, groups, Resolved(model, dimensions), existing, provider, batch, arith);
            r.Reported? ==>
              && r.report.linked == LinkedIn(r.t, r.report.space, groups)
              && (AllAccounted(r, groups)
                  <==> || StartDimensions(dimensions, existing).Some? || groups == []
                       || FirstAnswerAccepted(groups, model, provider, batch, arith))
  {
    if StartDimensions(dimensions, existing).Some? {
      KnownSpaceAccounts(t, groups, model, dimensions, existing, provider, batch, arith);
    } else {
      OpenRunTells(t, groups, model, existing, provider, batch, arith);
    }
  }

  // -------------------------------------------------- a refusal not recorded

  const NEW_MODEL := Model("m", "digest")
  const TWO_STORED := map[0 := StoredSegment(0, "a"), 1 := StoredSegment(0, "b")]
  const TWO_SEGMENTS := Tables(TWO_STORED, {}, None, map[], map[], map[])
  const TWO_TEXTS := [Group("a", [Ref(0, 0)]), Group("b", [Ref(1, 0)])]

  /** The first request is refused, every later one answered. */
  function RefusesOnce(): Provider {
    (_, call: nat, texts: seq<TextHash>) =>
      if call == 0 then Refused(ResponseInvalid) else Vectors(seq(|texts|, _ => [Finite(1.0)]))
  }

  function AsGiven(): Arithmetic {
    Arithmetic(v => Some(v), _ => [], (_, _) => Some([]))
  }

  /** One text refused and one stored, in chunks of one: the report counts a failure that no row records. */
  lemma RefusalIsLost()
    ensures var r := Synchronize(TWO_SEGMENTS, TWO_TEXTS, Resolved(NEW_MODEL, None), None, RefusesOnce(), 1, AsGiven());
            && r.Reported? && r.report.failed == 1 && r.report.linked == 1
            && r.report.space == Some(Space(NEW_MODEL, 1)) && !Accounted(r.t, Space(NEW_MODEL, 1), TWO_TEXTS[0])
  {
    var p, groups := Start(TWO_SEGMENTS, None), TWO_TEXTS;
    ScanWithoutSpace(p, groups, 2, AsGiven());
    assert groups[..2] == groups;
    LostRun(p);
    LostInvariant(p);
    assert !FirstAnswerAccepted(groups, NEW_MODEL, RefusesOnce(), 1, AsGiven());
    FirstAnswerDecides(p, groups, NEW_MODEL, RefusesOnce(), 1, AsGiven());
    var turn := EmbedAll(p, groups, 0, NEW_MODEL, RefusesOnce(), 1, AsGiven());
    FinishSame(turn.p, Space(NEW_MODEL, 1), groups, Size(groups, 2));
  }

  lemma LostInvariant(p: Progress)
    requires p == Start(TWO_SEGMENTS, None)
    ensures RunOk(p, NEW_MODEL) && AllFit(p.t, TWO_TEXTS) && AllMissing(p.t, None, NEW_MODEL, TWO_TEXTS)
    ensures DistinctHashes(TWO_TEXTS)
  {
  }

  lemma LostRun(p: Progress)
    requires p == Start(TWO_SEGMENTS, None)
    ensures var turn := EmbedAll(p, TWO_TEXTS, 0, NEW_MODEL, RefusesOnce(), 1, AsGiven());
            turn.Continue? && turn.p.failed == 1 && turn.p.linked == 1 && turn.p.space == Some(Space(NEW_MODEL, 1))
  {
    LostFirst(p);
    var turn := EmbedChunk(p, TWO_TEXTS[..1], TWO_TEXTS, 0, NEW_MODEL, RefusesOnce(), AsGiven());
    assert TWO_TEXTS[1..] == [TWO_TEXTS[1]];
    LostSecond(turn.p);
    assert EmbedAll(p, TWO_TEXTS, 0, NEW_MODEL, RefusesOnce(), 1, AsGiven())
           == EmbedAll(turn.p, TWO_TEXTS[1..], 1, NEW_MODEL, RefusesOnce(), 1, AsGiven());
  }

  ghost predicate AfterRefusal(q: Progress) {
    q.t == TWO_SEGMENTS && q.space.None? && q.failed == 1 && q.linked == 0
  }

  lemma LostFirst(p: Progress)
    requires p == Start(TWO_SEGMENTS, None)
    ensures var turn := EmbedChunk(p, TWO_TEXTS[..1], TWO_TEXTS, 0, NEW_MODEL, RefusesOnce(), AsGiven());
            turn.Continue? && AfterRefusal(turn.p)
  {
    var chunk := TWO_TEXTS[..1];
    assert chunk == [TWO_TEXTS[0]];
    assert Size(chunk, 1) == Size(chunk, 0) + 1;
    OpenChunkRefused(p, chunk, TWO_TEXTS, 0, NEW_MODEL, RefusesOnce(), AsGiven(), ResponseInvalid);
  }

  /** A refusal while no space is known is counted only. */
  lemma OpenChunkRefused(p: Progress, chunk: seq<Group>, rest: seq<Group>, call: nat, model: Model, provider: Provider,
                         arith: Arithmetic, e: ErrorKind)
    requires chunk != [] && p.space.None? && provider(model, call, Hashes(chunk)) == Refused(e) && !Systemic(e)
    ensures var turn := EmbedChunk(p, chunk, rest, call, model, provider, arith);
            && turn.Continue? && turn.p.t == p.t && turn.p.space.None?
            && turn.p.failed == p.failed + Size(chunk, |chunk|) && turn.p.linked == p.linked
  {
  }

  /** The first answer while no space is known opens one. */
  lemma OpenChunkStored(p: Progress, chunk: seq<Group>, rest: seq<Group>, call: nat, model: Model, provider: Provider,
                        arith: Arithmetic, vectors: seq<seq<Component>>)
    requires chunk != [] && p.space.None? && provider(model, call, Hashes(chunk)).Vectors? && |vectors| == |chunk|
    requires ValidateBatch(provider(model, call, Hashes(chunk)).batch, |chunk|, None, arith) == Accepted(vectors)
    requires ActivateSpace(p.t, Space(model, |vectors[0]|)).Some?
    requires EncodeAll(vectors, |vectors|, |vectors[0]|, model, arith).Some?
    ensures var turn := EmbedChunk(p, chunk, rest, call, model, provider, arith);
            && turn.Continue? && turn.p.failed == p.failed && turn.p.linked == p.linked + Size(chunk, |chunk|)
            && turn.p.space == Some(Space(model, |vectors[0]|))
  {
  }

  lemma LostBatch(batch: seq<seq<Component>>)
    requires batch == [[Finite(1.0)]]
    ensures ValidateBatch(batch, 1, None, AsGiven()) == Accepted(batch)
    ensures EncodeAll(batch, 1, 1, NEW_MODEL, AsGiven()).Some?
  {
    assert AsGiven().normalize(batch[0]) == Some(batch[0]);
    NormalizeAllSucceeds(batch, 1, AsGiven());
    assert NormalizeAll(batch, 1, AsGiven()).value == batch;
    assert Encode(batch[0], 1, NEW_MODEL, AsGiven()).Some?;
  }

  lemma LostSecond(q: Progress)
    requires AfterRefusal(q)
    ensures var turn := EmbedAll(q, [TWO_TEXTS[1]], 1, NEW_MODEL, RefusesOnce(), 1, AsGiven());
            turn.Continue? && turn.p.failed == 1 && turn.p.linked == 1 && turn.p.space == Some(Space(NEW_MODEL, 1))
  {
    var chunk := [TWO_TEXTS[1]];
    assert chunk[..1] == chunk && chunk[1..] == [];
    assert Hashes(chunk) == ["b"];
    var batch := [[Finite(1.0)]];
    assert RefusesOnce()(NEW_MODEL, 1, Hashes(chunk)).batch == batch;
    LostBatch(batch);
    assert Size(chunk, 1) == Size(chunk, 0) + 1;
    OpenChunkStored(q, chunk, chunk, 1, NEW_MODEL, RefusesOnce(), AsGiven(), batch);
    var turn := EmbedChunk(q, chunk, chunk, 1, NEW_MODEL, RefusesOnce(), AsGiven());
    assert EmbedAll(q, chunk, 1, NEW_MODEL, RefusesOnce(), 1, AsGiven())
           == EmbedAll(turn.p, [], 2, NEW_MODEL, RefusesOnce(), 1, AsGiven());
  }
}
