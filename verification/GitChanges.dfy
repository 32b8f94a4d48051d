/** git.rs: NUL-delimited `git diff --name-status` output to root-relative changes. */
module GitChanges {
  import opened Prelude
  import Sorting

  newtype byte = b: int | 0 <= b < 256

  type Bytes = seq<byte>

  const NUL: byte := 0
  const SLASH: byte := 0x2F
  const DOT: byte := 0x2E
  const LETTER_A: byte := 0x41
  const LETTER_C: byte := 0x43
  const LETTER_D: byte := 0x44
  const LETTER_R: byte := 0x52

  /** A relative path as the sequence of its components, which is how `Path` compares. */
  type Path = seq<Bytes>

  datatype Kind = Added | Deleted | Modified

  datatype Change = Change(path: Path, kind: Kind)

  // ------------------------------------------------------------------ chunks

  function NonEmpty(chunk: Bytes): seq<Bytes> {
    if chunk == [] then [] else [chunk]
  }

  /** The nonempty pieces between separators, `current` being the one under way. */
  function Split(bytes: Bytes, at: byte, current: Bytes): seq<Bytes> {
    if bytes == [] then NonEmpty(current)
    else if bytes[0] == at then NonEmpty(current) + Split(bytes[1..], at, [])
    else Split(bytes[1..], at, current + [bytes[0]])
  }

  ghost predicate AllValid(chunks: seq<Bytes>, utf8: Bytes -> bool) {
    forall i :: 0 <= i < |chunks| ==> utf8(chunks[i])
  }

  lemma SplitStep(bytes: Bytes, at: byte, i: nat, done: seq<Bytes>, current: Bytes)
    requires i < |bytes|
    ensures done + Split(bytes[i..], at, current)
            == if bytes[i] == at then done + NonEmpty(current) + Split(bytes[i + 1..], at, [])
               else done + Split(bytes[i + 1..], at, current + [bytes[i]])
  {
    assert bytes[i..][1..] == bytes[i + 1..];
    var rest := Split(bytes[i + 1..], at, []);
    assert done + (NonEmpty(current) + rest) == done + NonEmpty(current) + rest;
  }

  method SplitAt(bytes: Bytes, at: byte) returns (chunks: seq<Bytes>)
    ensures chunks == Split(bytes, at, [])
  {
    chunks := [];
    var current: Bytes := [];
    assert bytes[0..] == bytes;
    for i := 0 to |bytes|
      invariant chunks + Split(bytes[i..], at, current) == Split(bytes, at, [])
    {
      SplitStep(bytes, at, i, chunks, current);
      if bytes[i] == at {
        chunks, current := chunks + NonEmpty(current), [];
      } else {
        current := current + [bytes[i]];
      }
    }
    chunks := chunks + NonEmpty(current);
  }

  /** `split_z`: an error when any chunk is not UTF-8. */
  method SplitZ(bytes: Bytes, utf8: Bytes -> bool) returns (chunks: Option<seq<Bytes>>)
    ensures var all := Split(bytes, NUL, []);
            if AllValid(all, utf8) then chunks == Some(all) else chunks == None
  {
    var all := SplitAt(bytes, NUL);
    for i := 0 to |all|
      invariant forall j :: 0 <= j < i ==> utf8(all[j])
    {
      if !utf8(all[i]) {
        return None;
      }
    }
    chunks := Some(all);
  }

  // ------------------------------------------------------------------- paths

  const DOT_DOT: Bytes := [DOT, DOT]

  /** `Path::components` of a relative path: a leading `.` stays, a later one does not. */
  function Components(text: Bytes): Path {
    var parts := Split(text, SLASH, []);
    if parts != [] && text[0] == DOT && parts[0] == [DOT]
    then [parts[0]] + WithoutDots(parts[1..])
    else WithoutDots(parts)
  }

  function WithoutDots(parts: seq<Bytes>): Path {
    if parts == [] then [] else (if parts[0] == [DOT] then [] else [parts[0]]) + WithoutDots(parts[1..])
  }

  /** `map_repo_path_to_root`. */
  function MapToRoot(prefix: Path, text: Bytes): Option<Path> {
    if text == [] || text[0] == SLASH then None
    else
      var path := Components(text);
      if DOT_DOT in path then None
      else if prefix <= path then Some(path[|prefix|..])
      else None
  }

  /** What is kept of a path: exactly a safe path below the prefix, less the prefix. */
  lemma MapIsStrip(prefix: Path, text: Bytes, rel: Path)
    ensures MapToRoot(prefix, text) == Some(rel)
            <==> text != [] && text[0] != SLASH && DOT_DOT !in Components(text) && Components(text) == prefix + rel
  {
    var path := Components(text);
    if path == prefix + rel {
      assert path[|prefix|..] == rel;
    }
  }

  /** A component that `Path::components` passes on: it names something and stays where it is. */
  predicate Normal(part: Bytes) {
    part != [] && SLASH !in part && part != [DOT] && part != DOT_DOT
  }

  predicate NormalPath(path: Path) {
    path != [] && forall i :: 0 <= i < |path| ==> Normal(path[i])
  }

  /** A path as Git prints it. */
  function Joined(path: Path): Bytes
    requires path != []
  {
    if |path| == 1 then path[0] else path[0] + [SLASH] + Joined(path[1..])
  }

  lemma {:induction false} SplitLast(chunk: Bytes, at: byte, current: Bytes)
    requires at !in chunk
    ensures Split(chunk, at, current) == NonEmpty(current + chunk)
  {
    if chunk == [] {
      assert current + chunk == current;
    } else {
      SplitLast(chunk[1..], at, current + [chunk[0]]);
      assert current + [chunk[0]] + chunk[1..] == current + chunk;
    }
  }

  lemma {:induction false} SplitUndoesJoin(path: Path)
    requires NormalPath(path)
    ensures Split(Joined(path), SLASH, []) == path
  {
    assert Normal(path[0]) && [] + path[0] == path[0];
    if |path| == 1 {
      SplitLast(path[0], SLASH, []);
    } else {
      SplitUndoesJoin(path[1..]);
      SplitChunk(path[0], SLASH, Joined(path[1..]), []);
      assert [path[0]] + path[1..] == path;
    }
  }

  lemma {:induction false} NormalHasNoDots(path: Path)
    requires forall i :: 0 <= i < |path| ==> Normal(path[i])
    ensures WithoutDots(path) == path
  {
    if path != [] {
      NormalHasNoDots(path[1..]);
      assert [path[0]] + path[1..] == path;
    }
  }

  /**
   A path written out and mapped comes back as what lies below the root, or as
   nothing when the root's prefix is no prefix of it: a file of the root keeps its
   root-relative path, and no file outside is taken for one inside.
   */
  lemma PrintedPathMaps(prefix: Path, path: Path)
    requires NormalPath(path)
    ensures MapToRoot(prefix, Joined(path)) == if prefix <= path then Some(path[|prefix|..]) else None
    ensures forall rel :: path == prefix + rel ==> MapToRoot(prefix, Joined(path)) == Some(rel)
  {
    var text := Joined(path);
    SplitUndoesJoin(path);
    NormalHasNoDots(path);
    assert Normal(path[0]) && text[0] == path[0][0];
    assert Components(text) == path;
    if rel :| path == prefix + rel {
      MapIsStrip(prefix, text, rel);
    }
  }

  // ------------------------------------------------------------------ records

  function ChangeAt(prefix: Path, text: Bytes, kind: Kind): seq<Change> {
    var rel := MapToRoot(prefix, text);
    if rel.None? then [] else [Change(rel.value, kind)]
  }

  /** Rename or copy. */
  predicate TwoPaths(status: Bytes)
    requires status != []
  {
    status[0] == LETTER_R || status[0] == LETTER_C
  }

  function KindOf(status: Bytes): Kind
    requires status != []
  {
    if status[0] == LETTER_D then Deleted else if status[0] == LETTER_A then Added else Modified
  }

  ghost predicate NoEmpty(parts: seq<Bytes>) {
    forall i :: 0 <= i < |parts| ==> parts[i] != []
  }

  /** Chunks of the record that starts with this status. */
  function RecordLength(status: Bytes): nat
    requires status != []
  {
    if TwoPaths(status) then 3 else 2
  }

  /** The changes of the complete record at `i`. */
  function ChangesHere(parts: seq<Bytes>, i: nat, prefix: Path): seq<Change>
    requires i < |parts| && parts[i] != [] && i + RecordLength(parts[i]) <= |parts|
  {
    if TwoPaths(parts[i]) then ChangeAt(prefix, parts[i + 1], Deleted) + ChangeAt(prefix, parts[i + 2], Added)
    else ChangeAt(prefix, parts[i + 1], KindOf(parts[i]))
  }

  /** The changes the chunks from `i` on describe; an incomplete last record is dropped. */
  function Changes(parts: seq<Bytes>, i: nat, prefix: Path): seq<Change>
    requires i <= |parts| && NoEmpty(parts)
    decreases |parts| - i
  {
    if i == |parts| || i + RecordLength(parts[i]) > |parts| then []
    else ChangesHere(parts, i, prefix) + Changes(parts, i + RecordLength(parts[i]), prefix)
  }

  lemma {:induction false} SplitNoEmpty(bytes: Bytes, at: byte, current: Bytes)
    ensures NoEmpty(Split(bytes, at, current))
  {
    if bytes != [] {
      if bytes[0] == at {
        SplitNoEmpty(bytes[1..], at, []);
      } else {
        SplitNoEmpty(bytes[1..], at, current + [bytes[0]]);
      }
    }
  }

  method PushMapped(out: seq<Change>, prefix: Path, text: Bytes, kind: Kind) returns (pushed: seq<Change>)
    ensures pushed == out + ChangeAt(prefix, text, kind)
  {
    var rel := MapToRoot(prefix, text);
    pushed := if rel.Some? then out + [Change(rel.value, kind)] else out;
  }

  /** One complete record. */
  method PushRecord(parts: seq<Bytes>, index: nat, prefix: Path, out: seq<Change>) returns (pushed: seq<Change>)
    requires index < |parts| && parts[index] != [] && index + RecordLength(parts[index]) <= |parts|
    ensures pushed == out + ChangesHere(parts, index, prefix)
  {
    if TwoPaths(parts[index]) {
      pushed := PushMapped(out, prefix, parts[index + 1], Deleted);
      pushed := PushMapped(pushed, prefix, parts[index + 2], Added);
    } else {
      pushed := PushMapped(out, prefix, parts[index + 1], KindOf(parts[index]));
    }
  }

  ghost predicate Reached(parts: seq<Bytes>, index: nat, prefix: Path, out: seq<Change>, goal: seq<Change>)
    requires index <= |parts| && NoEmpty(parts)
  {
    out + Changes(parts, index, prefix) == goal
  }

  lemma RecordPushed(parts: seq<Bytes>, index: nat, prefix: Path, out: seq<Change>, goal: seq<Change>)
    requires index < |parts| && NoEmpty(parts) && Reached(parts, index, prefix, out, goal)
    ensures var next := index + RecordLength(parts[index]);
            if next > |parts| then out == goal
                else Reached(parts, next, prefix, out + ChangesHere(parts, index, prefix), goal)
  {
    var next := index + RecordLength(parts[index]);
    if next > |parts| {
      assert out + [] == out;
    } else {
      var here, more := ChangesHere(parts, index, prefix), Changes(parts, next, prefix);
      assert out + (here + more) == out + here + more;
    }
  }

  /** The index loop over the chunks. */
  method ParseParts(parts: seq<Bytes>, prefix: Path, before: seq<Change>) returns (out: seq<Change>)
    requires NoEmpty(parts)
    ensures out == before + Changes(parts, 0, prefix)
  {
    ghost var goal := before + Changes(parts, 0, prefix);
    out := before;
    var index: nat := 0;
    while index < |parts|
      invariant index <= |parts| && Reached(parts, index, prefix, out, goal)
    {
      RecordPushed(parts, index, prefix, out, goal);
      var length := RecordLength(parts[index]);
      if index + length > |parts| {
        return;
      }
      out := PushRecord(parts, index, prefix, out);
      index := index + length;
    }
    assert out + [] == out;
  }

  /** `parse_name_status_z`: appends to `before`, or fails without a change. */
  method ParseNameStatusZ(bytes: Bytes, prefix: Path, utf8: Bytes -> bool, before: seq<Change>)
    returns (out: Option<seq<Change>>)
    ensures NoEmpty(Split(bytes, NUL, []))
    ensures var parts := Split(bytes, NUL, []);
            if AllValid(parts, utf8) then out == Some(before + Changes(parts, 0, prefix)) else out == None
  {
    SplitNoEmpty(bytes, NUL, []);
    var parts := SplitZ(bytes, utf8);
    if parts.None? {
      return None;
    }
    var changes := ParseParts(parts.value, prefix, before);
    out := Some(changes);
  }

  // -------------------------------------------------------------- round trip

  /** A record of the diff: a status letter with its score, and one path, or two for a rename or copy. */
  datatype Record = OnePath(status: Bytes, path: Bytes) | Moved(status: Bytes, from: Bytes, to: Bytes)

  /** No chunk of a record is empty or holds a separator, and the status says how many paths follow. */
  predicate Chunk(b: Bytes) {
    b != [] && NUL !in b
  }

  predicate RecordOk(r: Record) {
    match r
    case OnePath(status, path) => Chunk(status) && Chunk(path) && !TwoPaths(status)
    case Moved(status, from, to) => Chunk(status) && Chunk(from) && Chunk(to) && TwoPaths(status)
  }

  predicate RecordsOk(records: seq<Record>) {
    forall i :: 0 <= i < |records| ==> RecordOk(records[i])
  }

  function Chunks(r: Record): seq<Bytes> {
    match r
    case OnePath(status, path) => [status, path]
    case Moved(status, from, to) => [status, from, to]
  }

  function AllChunks(records: seq<Record>): seq<Bytes> {
    if records == [] then [] else Chunks(records[0]) + AllChunks(records[1..])
  }

  /** NUL-terminated chunks. */
  function Print(chunks: seq<Bytes>): Bytes {
    if chunks == [] then [] else chunks[0] + [NUL] + Print(chunks[1..])
  }

  function ChangesOf(r: Record, prefix: Path): seq<Change>
    requires RecordOk(r)
  {
    match r
    case OnePath(status, path) => ChangeAt(prefix, path, KindOf(status))
    case Moved(_, from, to) => ChangeAt(prefix, from, Deleted) + ChangeAt(prefix, to, Added)
  }

  function AllChanges(records: seq<Record>, prefix: Path): seq<Change>
    requires RecordsOk(records)
  {
    if records == [] then [] else ChangesOf(records[0], prefix) + AllChanges(records[1..], prefix)
  }

  lemma {:induction false} SplitChunk(chunk: Bytes, at: byte, rest: Bytes, current: Bytes)
    requires at !in chunk
    ensures Split(chunk + [at] + rest, at, current) == NonEmpty(current + chunk) + Split(rest, at, [])
    decreases |chunk|
  {
    var all := chunk + [at] + rest;
    if chunk == [] {
      assert all[1..] == rest;
      assert current + chunk == current;
    } else {
      assert all[1..] == chunk[1..] + [at] + rest;
      SplitChunk(chunk[1..], at, rest, current + [chunk[0]]);
      assert current + [chunk[0]] + chunk[1..] == current + chunk;
    }
  }

  /** Printing chunks and splitting them again. */
  lemma {:induction false} SplitUndoesPrint(chunks: seq<Bytes>)
    requires forall i :: 0 <= i < |chunks| ==> Chunk(chunks[i])
    ensures Split(Print(chunks), NUL, []) == chunks
  {
    if chunks != [] {
      SplitUndoesPrint(chunks[1..]);
      SplitChunk(chunks[0], NUL, Print(chunks[1..]), []);
      assert [] + chunks[0] == chunks[0];
      assert [chunks[0]] + chunks[1..] == chunks;
    }
  }

  lemma {:induction false} AllChunksOk(records: seq<Record>)
    requires RecordsOk(records)
    ensures forall i :: 0 <= i < |AllChunks(records)| ==> Chunk(AllChunks(records)[i])
  {
    if records != [] {
      AllChunksOk(records[1..]);
      assert RecordOk(records[0]);
    }
  }

  lemma RecordRead(parts: seq<Bytes>, i: nat, r: Record, rest: seq<Bytes>, prefix: Path)
    requires RecordOk(r) && i <= |parts| && parts[i..] == Chunks(r) + rest
    ensures var n := |Chunks(r)|;
            && i + n <= |parts| && parts[i] != [] && RecordLength(parts[i]) == n
            && ChangesHere(parts, i, prefix) == ChangesOf(r, prefix)
            && parts[i + n..] == rest
  {
    var n := |Chunks(r)|;
    assert forall k :: 0 <= k < n ==> parts[i + k] == parts[i..][k];
    assert parts[i + n..] == parts[i..][n..];
  }

  lemma ChangesStep(parts: seq<Bytes>, i: nat, records: seq<Record>, prefix: Path, rest: seq<Change>)
    requires records != [] && RecordsOk(records) && i < |parts| && NoEmpty(parts)
    requires var next := i + RecordLength(parts[i]); next <= |parts| && Changes(parts, next, prefix) == rest
    requires ChangesHere(parts, i, prefix) == ChangesOf(records[0], prefix) && AllChanges(records[1..], prefix) == rest
    ensures Changes(parts, i, prefix) == AllChanges(records, prefix)
  {
  }

  lemma TailReads(parts: seq<Bytes>, i: nat, tail: seq<Bytes>, prefix: Path)
    requires i <= |parts| && NoEmpty(parts) && parts[i..] == [] + tail && Incomplete(tail)
    ensures Changes(parts, i, prefix) == []
  {
    assert parts[i..] == tail;
    assert tail != [] ==> parts[i] == tail[0];
  }

  /** Chunks of whole records, then a tail too short to be a record. */
  lemma {:induction false} RecordsRead(parts: seq<Bytes>, i: nat, records: seq<Record>, tail: seq<Bytes>, prefix: Path)
    requires i <= |parts| && NoEmpty(parts) && parts[i..] == AllChunks(records) + tail
    requires RecordsOk(records)
    requires Incomplete(tail)
    ensures Changes(parts, i, prefix) == AllChanges(records, prefix)
    decreases |records|
  {
    if records == [] {
      TailReads(parts, i, tail, prefix);
    } else {
      var next := FirstRecordRead(parts, i, records, tail, prefix);
      RecordsRead(parts, next, records[1..], tail, prefix);
      ChangesStep(parts, i, records, prefix, AllChanges(records[1..], prefix));
    }
  }

  lemma FirstRecordRead(parts: seq<Bytes>, i: nat, records: seq<Record>, tail: seq<Bytes>, prefix: Path)
    returns (next: nat)
    requires i <= |parts| && records != [] && RecordsOk(records) && parts[i..] == AllChunks(records) + tail
    ensures i < |parts| && next == i + RecordLength(parts[i]) <= |parts|
    ensures parts[next..] == AllChunks(records[1..]) + tail
    ensures ChangesHere(parts, i, prefix) == ChangesOf(records[0], prefix)
  {
    var rest := AllChunks(records[1..]) + tail;
    assert AllChunks(records) + tail == Chunks(records[0]) + rest;
    RecordRead(parts, i, records[0], rest, prefix);
    next := i + |Chunks(records[0])|;
  }

  /** Nothing, or the start of a record without its last path. */
  predicate Incomplete(tail: seq<Bytes>) {
    tail == [] || (tail[0] != [] && |tail| < RecordLength(tail[0]))
  }

  /** Printing any list of records and parsing it returns each record's changes in order. */
  lemma PrintedRecordsParse(records: seq<Record>, prefix: Path)
    requires RecordsOk(records)
    ensures var parts := Split(Print(AllChunks(records)), NUL, []);
            NoEmpty(parts) && Changes(parts, 0, prefix) == AllChanges(records, prefix)
  {
    AllChunksOk(records);
    SplitUndoesPrint(AllChunks(records));
    var parts := AllChunks(records);
    assert parts[0..] == parts == AllChunks(records) + [];
    RecordsRead(parts, 0, records, [], prefix);
  }

  /** What Git says of a path below the root: a letter, for some letters a score, and one path or two. */
  datatype Edit =
    | Created(path: Path) | Removed(path: Path) | Touched(letter: byte, path: Path)
    | Renamed(score: Bytes, from: Path, to: Path) | Copied(score: Bytes, from: Path, to: Path)

  predicate PrintablePath(path: Path) {
    NormalPath(path) && forall i :: 0 <= i < |path| ==> NUL !in path[i]
  }

  predicate EditOk(e: Edit, prefix: Path) {
    match e
    case Created(path) => PrintablePath(prefix + path)
    case Removed(path) => PrintablePath(prefix + path)
    case Touched(letter, path) =>
      letter !in {NUL, 'A' as byte, 'D' as byte, 'R' as byte, 'C' as byte} && PrintablePath(prefix + path)
    case Renamed(score, from, to) => NUL !in score && PrintablePath(prefix + from) && PrintablePath(prefix + to)
    case Copied(score, from, to) => NUL !in score && PrintablePath(prefix + from) && PrintablePath(prefix + to)
  }

  /** The record that Git prints. */
  function RecordOf(e: Edit, prefix: Path): Record
    requires EditOk(e, prefix)
  {
    match e
    case Created(path) => OnePath(['A' as byte], Joined(prefix + path))
    case Removed(path) => OnePath(['D' as byte], Joined(prefix + path))
    case Touched(letter, path) => OnePath([letter], Joined(prefix + path))
    case Renamed(score, from, to) => Moved(['R' as byte] + score, Joined(prefix + from), Joined(prefix + to))
    case Copied(score, from, to) => Moved(['C' as byte] + score, Joined(prefix + from), Joined(prefix + to))
  }

  /** A rename or copy is the deletion of the old path and the addition of the new one. */
  function Meant(e: Edit): seq<Change> {
    match e
    case Created(path) => [Change(path, Added)]
    case Removed(path) => [Change(path, Deleted)]
    case Touched(_, path) => [Change(path, Modified)]
    case Renamed(_, from, to) => [Change(from, Deleted), Change(to, Added)]
    case Copied(_, from, to) => [Change(from, Deleted), Change(to, Added)]
  }

  predicate EditsOk(edits: seq<Edit>, prefix: Path) {
    forall i :: 0 <= i < |edits| ==> EditOk(edits[i], prefix)
  }

  function RecordsOf(edits: seq<Edit>, prefix: Path): seq<Record>
    requires EditsOk(edits, prefix)
  {
    if edits == [] then [] else [RecordOf(edits[0], prefix)] + RecordsOf(edits[1..], prefix)
  }

  function AllMeant(edits: seq<Edit>): seq<Change> {
    if edits == [] then [] else Meant(edits[0]) + AllMeant(edits[1..])
  }

  lemma {:induction false} JoinedHasNoNul(path: Path)
    requires PrintablePath(path)
    ensures Chunk(Joined(path))
  {
    if |path| > 1 {
      JoinedHasNoNul(path[1..]);
    }
  }

  lemma PrintedChange(prefix: Path, path: Path, kind: Kind)
    requires PrintablePath(prefix + path)
    ensures Chunk(Joined(prefix + path)) && ChangeAt(prefix, Joined(prefix + path), kind) == [Change(path, kind)]
  {
    JoinedHasNoNul(prefix + path);
    PrintedPathMaps(prefix, prefix + path);
    assert (prefix + path)[|prefix|..] == path;
  }

  lemma EditRead(e: Edit, prefix: Path)
    requires EditOk(e, prefix)
    ensures RecordOk(RecordOf(e, prefix)) && ChangesOf(RecordOf(e, prefix), prefix) == Meant(e)
  {
    match e
    case Created(path) => PrintedChange(prefix, path, Added);
    case Removed(path) => PrintedChange(prefix, path, Deleted);
    case Touched(_, path) => PrintedChange(prefix, path, Modified);
    case Renamed(_, from, to) =>
      PrintedChange(prefix, from, Deleted);
      PrintedChange(prefix, to, Added);
    case Copied(_, from, to) =>
      PrintedChange(prefix, from, Deleted);
      PrintedChange(prefix, to, Added);
  }

  lemma {:induction false} EditsRead(edits: seq<Edit>, prefix: Path)
    requires EditsOk(edits, prefix)
    ensures RecordsOk(RecordsOf(edits, prefix))
    ensures AllChanges(RecordsOf(edits, prefix), prefix) == AllMeant(edits)
  {
    if edits != [] {
      EditRead(edits[0], prefix);
      EditsRead(edits[1..], prefix);
      assert RecordsOf(edits, prefix)[1..] == RecordsOf(edits[1..], prefix);
    }
  }

  /** What Git prints of a list of edits under the root is read back as the changes those edits are. */
  lemma EditsParse(edits: seq<Edit>, prefix: Path)
    requires EditsOk(edits, prefix)
    ensures var parts := Split(Print(AllChunks(RecordsOf(edits, prefix))), NUL, []);
            NoEmpty(parts) && Changes(parts, 0, prefix) == AllMeant(edits)
  {
    EditsRead(edits, prefix);
    PrintedRecordsParse(RecordsOf(edits, prefix), prefix);
  }

  /** Output cut off inside its last record still gives the changes of the records before it. */
  lemma CutOutputParses(records: seq<Record>, tail: seq<Bytes>, prefix: Path)
    requires RecordsOk(records)
    requires Incomplete(tail) && forall i :: 0 <= i < |tail| ==> Chunk(tail[i])
    ensures var parts := Split(Print(AllChunks(records) + tail), NUL, []);
            NoEmpty(parts) && Changes(parts, 0, prefix) == AllChanges(records, prefix)
  {
    AllChunksOk(records);
    var parts := AllChunks(records) + tail;
    SplitUndoesPrint(parts);
    assert parts[0..] == parts;
    RecordsRead(parts, 0, records, tail, prefix);
  }

  // ------------------------------------------------------------------- dedupe

  /** A strict total order on paths. */
  ghost predicate StrictTotal(less: (Path, Path) -> bool) {
    && (forall a :: !less(a, a))
    && (forall a, b {:trigger less(a, b)} :: a == b || less(a, b) || less(b, a))
    && (forall a, b, c {:trigger less(a, b), less(b, c)} :: less(a, b) && less(b, c) ==> less(a, c))
  }

  /** The kinds in the order of their names. */
  function KindRank(k: Kind): nat {
    match k case Added => 0 case Deleted => 1 case Modified => 2
  }

  predicate Precedes(less: (Path, Path) -> bool, a: Change, b: Change) {
    less(a.path, b.path) || (a.path == b.path && KindRank(a.kind) < KindRank(b.kind))
  }

  /** The comparator of `sort_by`: the path's bytes, then the kind. */
  function Precedence(less: (Path, Path) -> bool): (Change, Change) -> bool {
    (a: Change, b: Change) => Precedes(less, a, b)
  }

  ghost predicate StrictlyAscending(less: (Path, Path) -> bool, changes: seq<Change>) {
    forall i, j {:trigger Precedes(less, changes[i], changes[j])} :: 0 <= i < j < |changes| ==>
        Precedes(less, changes[i], changes[j])
  }

  lemma PrecedesTotal(less: (Path, Path) -> bool, a: Change, b: Change)
    requires StrictTotal(less)
    ensures a == b || Precedes(less, a, b) || Precedes(less, b, a)
    ensures !(Precedes(less, a, b) && Precedes(less, b, a)) && !Precedes(less, a, a)
  {
    assert a.path == b.path || less(a.path, b.path) || less(b.path, a.path);
  }

  lemma PrecedesTransitive(less: (Path, Path) -> bool, a: Change, b: Change, c: Change)
    requires StrictTotal(less) && !Precedes(less, b, a) && Precedes(less, b, c)
    ensures Precedes(less, a, c)
  {
    PrecedesTotal(less, a, b);
  }

  lemma PrecedenceIsOrder(less: (Path, Path) -> bool)
    requires StrictTotal(less)
    ensures Sorting.StrictWeak(Precedence(less))
  {
    var below := Precedence(less);
    forall a, b ensures !below(a, a) && (below(a, b) ==> !below(b, a)) {
      PrecedesTotal(less, a, b);
    }
    forall a, b, c {:trigger below(a, b), below(b, c)} | below(a, b) && below(b, c) ensures below(a, c) {
      PrecedesTotal(less, a, b);
      PrecedesTransitive(less, a, b, c);
    }
    forall a, b, c | below(a, b) ensures below(a, c) || below(c, b) {
      PrecedesTotal(less, a, c);
    }
  }

  /** `dedupe_changes`: sort, then drop repeats of the element before. */
  method DedupeChanges(less: (Path, Path) -> bool, changes: seq<Change>) returns (out: seq<Change>)
    requires StrictTotal(less)
    ensures StrictlyAscending(less, out) && forall c :: c in out <==> c in changes
  {
    PrecedenceIsOrder(less);
    var sorted := Sorting.Sort(Precedence(less), changes);
    Sorting.SameElements(sorted, changes);
    out := [];
    for n := 0 to |sorted|
      invariant StrictlyAscending(less, out) && forall c :: c in out <==> c in sorted[..n]
      invariant if n == 0 then out == [] else out != [] && out[|out| - 1] == sorted[n - 1]
    {
      assert sorted[..n + 1] == sorted[..n] + [sorted[n]];
      if out == [] || out[|out| - 1] != sorted[n] {
        if out != [] {
          NextIsGreater(less, sorted, n, out);
        }
        out := out + [sorted[n]];
      }
    }
    assert sorted[..|sorted|] == sorted;
  }

  lemma NextIsGreater(less: (Path, Path) -> bool, sorted: seq<Change>, n: nat, out: seq<Change>)
    requires StrictTotal(less) && Sorting.Sorted(Precedence(less), sorted) && 0 < n < |sorted|
    requires StrictlyAscending(less, out)
    requires out != [] && out[|out| - 1] == sorted[n - 1] && sorted[n] != sorted[n - 1]
    ensures StrictlyAscending(less, out + [sorted[n]])
  {
    var more, last := out + [sorted[n]], out[|out| - 1];
    assert !Precedence(less)(sorted[n], sorted[n - 1]);
    PrecedesTotal(less, last, sorted[n]);
    forall i, j {:trigger Precedes(less, more[i], more[j])} | 0 <= i < j < |more|
      ensures Precedes(less, more[i], more[j]) {
      if j < |out| {
        assert Precedes(less, out[i], out[j]);
      } else if i < |out| - 1 {
        assert Precedes(less, out[i], last);
        PrecedesTotal(less, out[i], last);
        PrecedesTransitive(less, out[i], last, sorted[n]);
      }
    }
  }

  /**
   The strictly ascending list of a set of changes is unique, so the result does
   not depend on the input's order or repeats.
   */
  lemma {:induction false} AscendingIsUnique(less: (Path, Path) -> bool, a: seq<Change>, b: seq<Change>)
    requires StrictTotal(less) && StrictlyAscending(less, a) && StrictlyAscending(less, b)
    requires forall c :: c in a <==> c in b
    ensures a == b
    decreases |a|
  {
    if a == [] {
      assert forall i :: 0 <= i < |b| ==> b[i] in b;
    } else {
      assert a[0] in a && a[0] in b && b[0] in a;
      SameFirst(less, a, b);
      TailMembers(less, a);
      TailMembers(less, b);
      TailAscends(less, a);
      TailAscends(less, b);
      AscendingIsUnique(less, a[1..], b[1..]);
    }
  }

  lemma SameFirst(less: (Path, Path) -> bool, a: seq<Change>, b: seq<Change>)
    requires StrictTotal(less) && StrictlyAscending(less, a) && StrictlyAscending(less, b) && a != [] && b != []
    requires a[0] in b && b[0] in a
    ensures a[0] == b[0]
  {
    var i :| 0 <= i < |b| && b[i] == a[0];
    var j :| 0 <= j < |a| && a[j] == b[0];
    assert i > 0 ==> Precedes(less, b[0], b[i]);
    assert j > 0 ==> Precedes(less, a[0], a[j]);
    PrecedesTotal(less, a[0], b[0]);
  }

  lemma FirstNotLater(less: (Path, Path) -> bool, a: seq<Change>)
    requires StrictTotal(less) && StrictlyAscending(less, a) && a != []
    ensures a[0] !in a[1..]
  {
    PrecedesTotal(less, a[0], a[0]);
    forall i | 0 <= i < |a[1..]| ensures a[1..][i] != a[0] {
      assert Precedes(less, a[0], a[i + 1]);
    }
  }

  lemma TailMembers(less: (Path, Path) -> bool, a: seq<Change>)
    requires StrictTotal(less) && StrictlyAscending(less, a) && a != []
    ensures forall c :: c in a[1..] <==> c in a && c != a[0]
  {
    FirstNotLater(less, a);
    assert a == [a[0]] + a[1..];
  }

  lemma TailAscends(less: (Path, Path) -> bool, a: seq<Change>)
    requires StrictlyAscending(less, a) && a != []
    ensures StrictlyAscending(less, a[1..])
  {
    forall i, j {:trigger Precedes(less, a[1..][i], a[1..][j])} | 0 <= i < j < |a[1..]|
      ensures Precedes(less, a[1..][i], a[1..][j]) {
      assert Precedes(less, a[i + 1], a[j + 1]);
    }
  }
}
