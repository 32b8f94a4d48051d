/**
 The embedding tables (migrations/0004) and the statements embedding_sync.rs
 issues against them, with their foreign-key cascades.
 */
module EmbeddingTables {
  import opened Prelude

  type SegmentId = nat
  type RevisionId = nat

  /** A BLAKE3 text hash, taken as collision free: the text stands for it. */
  type TextHash = string

  newtype byte = b: int | 0 <= b < 256

  datatype Component = Finite(value: real) | NonFinite

  datatype Model = Model(name: string, digest: string)

  /** `es_<hash>` of provider, model, digest, dimensions, normalization and contract: identified with its preimage. */
  datatype Space = Space(model: Model, dimensions: nat)

  /** Who made a vector: the model the provider was asked for, and the length of its answer. */
  datatype Origin = Origin(model: Model, length: nat)

  /** What `encode_vector` makes of one vector of an accepted answer. */
  datatype Encoded = Encoded(vectorBytes: seq<byte>, madeBy: Origin)

  /** A cache row.  `madeBy` is no column: it travels with the vector from the answer to the row. */
  datatype Cell = Cell(vectorBytes: seq<byte>, dimensions: nat, madeBy: Origin)

  datatype Link = Link(revision: RevisionId, hash: TextHash)
  datatype StoredSegment = StoredSegment(revision: RevisionId, hash: TextHash)

  datatype Tables = Tables(
    segments: map<SegmentId, StoredSegment>,
    spaces: set<Space>,
    active: Option<Space>,
    vectors: map<(Space, TextHash), Cell>,
    links: map<(SegmentId, Space), Link>,
    failures: map<(SegmentId, Space), nat>)

  const MAX_DIMENSIONS := 65536
  const MAX_RETRIES := 1000000

  /** An active segment as the sync reads it; its hash is the one of its group. */
  datatype Ref = Ref(id: SegmentId, revision: RevisionId)
  datatype Group = Group(hash: TextHash, refs: seq<Ref>)

  /** CHECK(dimensions > 0 AND dimensions <= 65536). */
  predicate ValidDimensions(d: nat) {
    0 < d <= MAX_DIMENSIONS
  }

  // ------------------------------------------------------------- statements

  /** `persist_space` then `set_active_space`: OR IGNORE hides a failed CHECK, the foreign key does not. */
  function ActivateSpace(t: Tables, space: Space): Option<Tables> {
    var spaces := if ValidDimensions(space.dimensions) then t.spaces + {space} else t.spaces;
    if space in spaces then Some(t.(spaces := spaces, active := Some(space))) else None
  }

  /** One INSERT OR REPLACE into segment_embeddings and the DELETE of a failure row. */
  function LinkOne(t: Tables, space: Space, hash: TextHash, r: Ref): Tables {
    t.(links := t.links[(r.id, space) := Link(r.revision, hash)], failures := t.failures - {(r.id, space)})
  }

  /** The first `n` references of a group linked. */
  function LinkRefs(t: Tables, space: Space, hash: TextHash, refs: seq<Ref>, n: nat): Tables
    requires n <= |refs|
  {
    if n == 0 then t else LinkOne(LinkRefs(t, space, hash, refs, n - 1), space, hash, refs[n - 1])
  }

  function StoreVector(t: Tables, space: Space, hash: TextHash, bytes: Encoded): Tables {
    t.(vectors := t.vectors[(space, hash) := Cell(bytes.vectorBytes, space.dimensions, bytes.madeBy)])
  }

  /** The first `n` groups of a chunk stored and linked. */
  function StoreGroups(t: Tables, space: Space, chunk: seq<Group>, bytes: seq<Encoded>, n: nat): Tables
    requires n <= |chunk| && n <= |bytes|
  {
    if n == 0 then t
    else
      var before := StoreGroups(t, space, chunk, bytes, n - 1);
      var g := chunk[n - 1];
      LinkRefs(StoreVector(before, space, g.hash, bytes[n - 1]), space, g.hash, g.refs, |g.refs|)
  }

  function FailOne(t: Tables, space: Space, r: Ref): Tables {
    var key := (r.id, space);
    var retries := if key !in t.failures then 1
                   else if t.failures[key] + 1 <= MAX_RETRIES then t.failures[key] + 1 else MAX_RETRIES;
    t.(failures := t.failures[key := retries])
  }

  function FailRefs(t: Tables, space: Space, refs: seq<Ref>, n: nat): Tables
    requires n <= |refs|
  {
    if n == 0 then t else FailOne(FailRefs(t, space, refs, n - 1), space, refs[n - 1])
  }

  /** `record_failures` on the first `n` groups. */
  function FailGroups(t: Tables, space: Space, groups: seq<Group>, n: nat): Tables
    requires n <= |groups|
  {
    if n == 0 then t
    else FailRefs(FailGroups(t, space, groups, n - 1), space, groups[n - 1].refs, |groups[n - 1].refs|)
  }

  /** DELETE FROM embedding_vectors, cascading to the links that name the row. */
  function DropVector(t: Tables, space: Space, hash: TextHash): Tables {
    t.(vectors := t.vectors - {(space, hash)},
       links := map k | k in t.links && !(k.1 == space && t.links[k].hash == hash) :: t.links[k])
  }

  // -------------------------------------------------------- the index's side

  /** New segments with fresh identifiers. */
  function AddSegments(t: Tables, more: map<SegmentId, StoredSegment>): Tables {
    t.(segments := more + t.segments)
  }

  /** Segments deleted with their root; links and failures go with them. */
  function RemoveSegments(t: Tables, gone: set<SegmentId>): Tables {
    t.(segments := t.segments - gone,
       links := map k | k in t.links && k.0 !in gone :: t.links[k],
       failures := map k | k in t.failures && k.0 !in gone :: t.failures[k])
  }

  /** Disk damage: the bytes and the dimensions column of any row may become anything. */
  function Damage(t: Tables, key: (Space, TextHash), found: seq<byte>, dimensions: nat): Tables {
    if key in t.vectors then t.(vectors := t.vectors[key := Cell(found, dimensions, t.vectors[key].madeBy)]) else t
  }

  // -------------------------------------------------------------- invariant

  /** Every link is its segment's hash and revision, and names a vector row. */
  ghost predicate LinksSound(t: Tables) {
    forall k :: k in t.links ==>
      && k.0 in t.segments
      && t.segments[k.0] == StoredSegment(t.links[k].revision, t.links[k].hash)
      && (k.1, t.links[k].hash) in t.vectors
  }

  /** A vector fit for a space: answered by the space's model, in the space's length. */
  ghost predicate MadeFor(origin: Origin, space: Space) {
    origin.model == space.model && origin.length == space.dimensions
  }

  /** Every vector row sits in a known space and was made by that space's model, in its dimensions. */
  ghost predicate VectorsSound(t: Tables) {
    forall k :: k in t.vectors ==> k.0 in t.spaces && MadeFor(t.vectors[k].madeBy, k.0)
  }

  /** No segment is both linked and failed in one space; failure rows resolve. */
  ghost predicate FailuresSound(t: Tables) {
    forall k :: k in t.failures ==>
        k !in t.links && k.0 in t.segments && k.1 in t.spaces && 0 < t.failures[k] <= MAX_RETRIES
  }

  ghost predicate SpacesSound(t: Tables) {
    && (t.active.Some? ==> t.active.value in t.spaces)
    && (forall s :: s in t.spaces ==> ValidDimensions(s.dimensions))
  }

  ghost predicate Inv(t: Tables) {
    LinksSound(t) && VectorsSound(t) && FailuresSound(t) && SpacesSound(t)
  }

  /** The references of a group are stored segments with the group's hash. */
  ghost predicate GroupFits(t: Tables, g: Group) {
    forall i :: 0 <= i < |g.refs| ==>
      g.refs[i].id in t.segments && t.segments[g.refs[i].id] == StoredSegment(g.refs[i].revision, g.hash)
  }

  // --------------------------------------------- every statement keeps it

  lemma ActivateKeepsInv(t: Tables, space: Space, post: Tables)
    requires Inv(t) && ActivateSpace(t, space) == Some(post)
    ensures Inv(post) && post.active == Some(space) && space in post.spaces
    ensures post.segments == t.segments && post.vectors == t.vectors && post.links == t.links
    ensures post.failures == t.failures
    ensures t.spaces <= post.spaces
  {
  }

  lemma {:induction false} LinkRefsKeepsInv(t: Tables, space: Space, g: Group, n: nat)
    requires Inv(t) && GroupFits(t, g) && (space, g.hash) in t.vectors && n <= |g.refs|
    ensures var post := LinkRefs(t, space, g.hash, g.refs, n);
            && Inv(post) && post.segments == t.segments && post.vectors == t.vectors
            && post.spaces == t.spaces && post.active == t.active
  {
    if n > 0 {
      LinkRefsKeepsInv(t, space, g, n - 1);
    }
  }

  lemma StoreVectorKeepsInv(t: Tables, space: Space, hash: TextHash, bytes: Encoded)
    requires Inv(t) && space in t.spaces && MadeFor(bytes.madeBy, space)
    ensures Inv(StoreVector(t, space, hash, bytes))
  {
  }

  /**
   An answer stored in a space keeps the tables sound when the space is the
   answering model's, in the answer's length.
   */
  lemma {:induction false} StoreGroupsKeepsInv(t: Tables, space: Space, chunk: seq<Group>, bytes: seq<Encoded>, n: nat)
    requires Inv(t) && space in t.spaces && n <= |chunk| && n <= |bytes|
    requires forall i :: 0 <= i < n ==> MadeFor(bytes[i].madeBy, space)
    requires forall i :: 0 <= i < |chunk| ==> GroupFits(t, chunk[i])
    ensures var post := StoreGroups(t, space, chunk, bytes, n);
            Inv(post) && post.segments == t.segments && post.spaces == t.spaces && post.active == t.active
  {
    if n > 0 {
      StoreGroupsKeepsInv(t, space, chunk, bytes, n - 1);
      var before := StoreGroups(t, space, chunk, bytes, n - 1);
      var g := chunk[n - 1];
      StoreVectorKeepsInv(before, space, g.hash, bytes[n - 1]);
      LinkRefsKeepsInv(StoreVector(before, space, g.hash, bytes[n - 1]), space, g, |g.refs|);
    }
  }

  /** None of these references is linked in the space. */
  ghost predicate Unlinked(t: Tables, space: Space, refs: seq<Ref>) {
    forall i :: 0 <= i < |refs| ==> (refs[i].id, space) !in t.links
  }

  /** A segment is linked only under its own hash, so without a vector for the hash the group is unlinked. */
  lemma NoVectorNoLink(t: Tables, space: Space, g: Group)
    requires Inv(t) && GroupFits(t, g) && (space, g.hash) !in t.vectors
    ensures Unlinked(t, space, g.refs)
  {
  }

  lemma {:induction false} FailRefsKeepsInv(t: Tables, space: Space, g: Group, n: nat)
    requires Inv(t) && GroupFits(t, g) && Unlinked(t, space, g.refs) && space in t.spaces && n <= |g.refs|
    ensures var post := FailRefs(t, space, g.refs, n);
            && Inv(post) && post.segments == t.segments && post.vectors == t.vectors && post.links == t.links
            && post.spaces == t.spaces && post.active == t.active
  {
    if n > 0 {
      FailRefsKeepsInv(t, space, g, n - 1);
    }
  }

  lemma {:induction false} FailGroupsKeepsInv(t: Tables, space: Space, groups: seq<Group>, n: nat)
    requires Inv(t) && space in t.spaces && n <= |groups|
    requires forall i :: 0 <= i < |groups| ==> GroupFits(t, groups[i]) && (space, groups[i].hash) !in t.vectors
    ensures var post := FailGroups(t, space, groups, n);
            && Inv(post) && post.segments == t.segments && post.vectors == t.vectors && post.links == t.links
            && post.spaces == t.spaces && post.active == t.active
  {
    if n > 0 {
      FailGroupsKeepsInv(t, space, groups, n - 1);
      var before := FailGroups(t, space, groups, n - 1);
      NoVectorNoLink(before, space, groups[n - 1]);
      FailRefsKeepsInv(before, space, groups[n - 1], |groups[n - 1].refs|);
    }
  }

  lemma DropVectorKeepsInv(t: Tables, space: Space, hash: TextHash)
    requires Inv(t)
    ensures Inv(DropVector(t, space, hash))
  {
  }

  lemma AddSegmentsKeepsInv(t: Tables, more: map<SegmentId, StoredSegment>)
    requires Inv(t)
    ensures Inv(AddSegments(t, more))
  {
  }

  lemma RemoveSegmentsKeepsInv(t: Tables, gone: set<SegmentId>)
    requires Inv(t)
    ensures Inv(RemoveSegments(t, gone))
  {
  }

  lemma DamageKeepsInv(t: Tables, key: (Space, TextHash), found: seq<byte>, dimensions: nat)
    requires Inv(t)
    ensures Inv(Damage(t, key, found, dimensions))
  {
  }
}
