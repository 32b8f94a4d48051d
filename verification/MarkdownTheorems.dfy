/** Anchors, ordinals and heading paths, for every event sequence. */
module MarkdownTheorems {
  import opened Prelude
  import opened TextTools
  import opened Markdown

  // ---------------------------------------------------------------- anchors

  /** The two halves of an anchor, read back from its text. */
  function BaseOf(anchor: string): string {
    anchor[..IndexOf(anchor, '~', 0)]
  }

  function CountOf(anchor: string): nat {
    var i := IndexOf(anchor, '~', 0);
    if i == |anchor| then 1 else Value(anchor[i + 1..])
  }

  lemma AnchorParts(base: string, count: nat)
    requires '~' !in base && count > 0
    ensures BaseOf(Anchor(base, count)) == base && CountOf(Anchor(base, count)) == count
  {
    var a := Anchor(base, count);
    IndexFound(a, '~', 0, |base|);
    if count > 1 {
      DecimalReadsBack(count);
      assert a[..|base|] == base;
      assert a[|base| + 1..] == Decimal(count);
    }
  }

  /** Anchors in use were handed out by the counters. */
  ghost predicate Counted(segments: seq<Segment>, anchors: map<string, nat>) {
    forall i :: 0 <= i < |segments| ==>
      BaseOf(segments[i].anchor) in anchors && CountOf(segments[i].anchor) <= anchors[BaseOf(segments[i].anchor)]
  }

  predicate SameAnchor(a: Segment, b: Segment) {
    a.anchor == b.anchor
  }

  ghost predicate AnchorsDistinct(segments: seq<Segment>) {
    forall i, j {:trigger SameAnchor(segments[i], segments[j])} :: 0 <= i < j < |segments| ==>
        !SameAnchor(segments[i], segments[j])
  }

  ghost predicate AnchorsUnhashed(segments: seq<Segment>) {
    forall i :: 0 <= i < |segments| ==> '#' !in segments[i].anchor
  }

  ghost predicate OrdinalsArePositions(segments: seq<Segment>, ordinal: nat) {
    ordinal == |segments| && forall i :: 0 <= i < |segments| ==> segments[i].ordinal == i
  }

  // --------------------------------------------------------------- headings

  /** Every later heading is deeper. */
  ghost predicate VisibleAt(headings: seq<Entry>, i: nat)
    requires i < |headings|
  {
    forall j :: i < j < |headings| ==> headings[i].0 < headings[j].0
  }

  /** The headings whose level is below that of every heading since, in order. */
  ghost function Visible(headings: seq<Entry>, n: nat): seq<Entry>
    requires n <= |headings|
  {
    if n == 0 then [] else Visible(headings, n - 1) + if VisibleAt(headings, n - 1) then [headings[n - 1]] else []
  }

  lemma RetainPlus(stack: seq<Entry>, e: Entry, level: nat)
    ensures Retain(stack + [e], level) == Retain(stack, level) + if e.0 < level then [e] else []
  {
    assert (stack + [e])[..|stack|] == stack;
  }

  lemma VisibleAtPlus(headings: seq<Entry>, e: Entry, i: nat)
    requires i < |headings|
    ensures VisibleAt(headings + [e], i) <==> VisibleAt(headings, i) && headings[i].0 < e.0
  {
    var more := headings + [e];
    if VisibleAt(more, i) {
      assert more[|headings|] == e;
      forall j | i < j < |headings| ensures headings[i].0 < headings[j].0 {
        assert more[j] == headings[j];
      }
    }
  }

  lemma {:induction false} VisibleRetained(headings: seq<Entry>, e: Entry, n: nat)
    requires n <= |headings|
    ensures Visible(headings + [e], n) == Retain(Visible(headings, n), e.0)
  {
    if n > 0 {
      VisibleRetained(headings, e, n - 1);
      VisibleAtPlus(headings, e, n - 1);
      RetainPlus(Visible(headings, n - 1), headings[n - 1], e.0);
      assert Visible(headings, n - 1) + [] == Visible(headings, n - 1);
    }
  }

  /** A new heading retains the stack's shallower entries and comes last. */
  lemma VisibleGrows(headings: seq<Entry>, e: Entry)
    ensures Visible(headings + [e], |headings| + 1) == Retain(Visible(headings, |headings|), e.0) + [e]
  {
    VisibleRetained(headings, e, |headings|);
    assert (headings + [e])[|headings|] == e;
  }

  /** The anchors' bases of the heading segments. */
  function HeadingBases(segments: seq<Segment>, n: nat): seq<string>
    requires n <= |segments|
  {
    if n == 0 then []
    else
      var last := segments[n - 1];
      HeadingBases(segments, n - 1) + if last.kind == Heading then [BaseOf(last.anchor)] else []
  }

  /** What they ought to be: the path of the headings visible from each. */
  ghost function PathsOf(headings: seq<Entry>, n: nat): seq<string>
    requires n <= |headings|
  {
    if n == 0 then [] else PathsOf(headings, n - 1) + ["heading:" + Path(Visible(headings[..n], n))]
  }

  lemma {:induction false} HeadingBasesPlus(segments: seq<Segment>, g: Segment, n: nat)
    requires n <= |segments|
    ensures HeadingBases(segments + [g], n) == HeadingBases(segments, n)
  {
    if n > 0 {
      HeadingBasesPlus(segments, g, n - 1);
    }
  }

  lemma {:induction false} PathsOfPlus(headings: seq<Entry>, e: Entry, n: nat)
    requires n <= |headings|
    ensures PathsOf(headings + [e], n) == PathsOf(headings, n)
  {
    if n > 0 {
      PathsOfPlus(headings, e, n - 1);
      assert (headings + [e])[..n] == headings[..n];
    }
  }

  // --------------------------------------------------------- bases and slugs

  /** No delimiter of an anchor's count, and none of a reference's anchor. */
  ghost predicate Bare(s: string) {
    '~' !in s && '#' !in s
  }

  /** Nor the delimiter of a path. */
  ghost predicate Plain(s: string) {
    Bare(s) && '/' !in s
  }

  ghost predicate AllPlain(stack: seq<Entry>) {
    forall i :: 0 <= i < |stack| ==> Plain(stack[i].1)
  }

  predicate SlugChar(c: char) {
    'a' <= c <= 'z' || '0' <= c <= '9' || c == '-'
  }

  /** Lower-case letters, digits and single inner dashes. */
  ghost predicate SlugShaped(s: string) {
    && s != "" && s[0] != '-' && s[|s| - 1] != '-'
    && (forall i :: 0 <= i < |s| ==> SlugChar(s[i]))
    && (forall i :: 0 <= i < |s| - 1 && s[i] == '-' ==> s[i + 1] != '-')
  }

  lemma {:induction false} SlugSoFarShape(s: string, n: nat)
    requires n <= |s|
    ensures var slug := SlugSoFar(s, n);
            && (slug != "" ==> slug[0] != '-')
            && (forall i :: 0 <= i < |slug| ==> SlugChar(slug[i]))
            && (forall i :: 0 <= i < |slug| - 1 && slug[i] == '-' ==> slug[i + 1] != '-')
  {
    if n > 0 {
      SlugSoFarShape(s, n - 1);
    }
  }

  lemma SlugShape(s: string)
    ensures SlugShaped(Slug(s)) && Plain(Slug(s))
  {
    SlugSoFarShape(s, |s|);
    RightEdge(SlugSoFar(s, |s|), c => c == '-');
    assert forall i :: 0 <= i < |Slug(s)| ==> SlugChar(Slug(s)[i]);
  }

  lemma {:induction false} PathPlain(stack: seq<Entry>)
    requires AllPlain(stack)
    ensures Bare(Path(stack))
  {
    if stack != [] {
      PathPlain(stack[1..]);
      assert Slugs(stack)[1..] == Slugs(stack[1..]);
    }
  }

  lemma {:induction false} RetainPlain(stack: seq<Entry>, level: nat)
    requires AllPlain(stack)
    ensures AllPlain(Retain(stack, level))
  {
    if stack != [] {
      RetainPlain(stack[..|stack| - 1], level);
    }
  }

  lemma NamesPlain()
    ensures Bare("paragraph:") && Bare("blockquote:") && Bare("list:") && Bare("table:") && Bare("code-fence:")
  {
  }

  lemma DecimalPlain(n: nat)
    ensures Bare(Decimal(n))
  {
    assert '~' !in DIGITS && '#' !in DIGITS;
  }

  // --------------------------------------------------------------- invariant

  ghost predicate SegmentsSound(segments: seq<Segment>, ordinal: nat, anchors: map<string, nat>) {
    && OrdinalsArePositions(segments, ordinal) && Counted(segments, anchors)
    && AnchorsDistinct(segments) && AnchorsUnhashed(segments)
  }

  ghost predicate HeadingsSound(segments: seq<Segment>, stack: seq<Entry>, headings: seq<Entry>) {
    && stack == Visible(headings, |headings|) && AllPlain(stack)
    && HeadingBases(segments, |segments|) == PathsOf(headings, |headings|)
  }

  ghost predicate Sound(o: Output) {
    SegmentsSound(o.segments, o.ordinal, o.anchors) && HeadingsSound(o.segments, o.stack, o.headings)
  }

  lemma PushSegments(o: Output, kind: Kind, base: string, text: string)
    requires SegmentsSound(o.segments, o.ordinal, o.anchors) && Bare(base)
    ensures var post := Push(o, kind, base, text); SegmentsSound(post.segments, post.ordinal, post.anchors)
  {
    var post := Push(o, kind, base, text);
    var n := |o.segments|;
    AnchorParts(base, post.anchors[base]);
    DecimalPlain(post.anchors[base]);
    forall i, j {:trigger SameAnchor(post.segments[i], post.segments[j])} | 0 <= i < j < |post.segments|
      ensures !SameAnchor(post.segments[i], post.segments[j])
    {
      if j < n {
        assert !SameAnchor(o.segments[i], o.segments[j]);
      } else {
        assert CountOf(o.segments[i].anchor) <= o.anchors[BaseOf(o.segments[i].anchor)];
      }
    }
  }

  /** The pushed segment is the last, and its anchor is new. */
  lemma PushedIsNew(o: Output, kind: Kind, base: string, text: string)
    ensures SegmentsSound(o.segments, o.ordinal, o.anchors) && Bare(base) ==>
              var post := Push(o, kind, base, text);
              && SegmentsSound(post.segments, post.ordinal, post.anchors)
              && |post.segments| == |o.segments| + 1 && post.segments[..|o.segments|] == o.segments
              && post.segments[|o.segments|].ordinal == |o.segments|
                 && BaseOf(post.segments[|o.segments|].anchor) == base
              && forall i :: 0 <= i < |o.segments| ==> post.segments[i].anchor != post.segments[|o.segments|].anchor
  {
    if SegmentsSound(o.segments, o.ordinal, o.anchors) && Bare(base) {
      var post := Push(o, kind, base, text);
      PushSegments(o, kind, base, text);
      AnchorParts(base, post.anchors[base]);
      forall i | 0 <= i < |o.segments| ensures post.segments[i].anchor != post.segments[|o.segments|].anchor {
        assert !SameAnchor(post.segments[i], post.segments[|o.segments|]);
      }
    }
  }

  lemma PushHeadings(o: Output, kind: Kind, base: string, text: string)
    requires Bare(base)
    ensures var post := Push(o, kind, base, text);
            HeadingBases(post.segments, |post.segments|)
            == HeadingBases(o.segments, |o.segments|) + if kind == Heading then [base] else []
  {
    var post := Push(o, kind, base, text);
    AnchorParts(base, post.anchors[base]);
    HeadingBasesPlus(o.segments, post.segments[|o.segments|], |o.segments|);
  }

  /** Pushing anything but a heading. */
  lemma PushKeeps(o: Output, kind: Kind, base: string, text: string)
    requires Sound(o) && Bare(base) && kind != Heading
    ensures Sound(Push(o, kind, base, text))
  {
    PushSegments(o, kind, base, text);
    PushHeadings(o, kind, base, text);
  }

  lemma {:induction false} PushPiecesKeeps(o: Output, kind: Kind, base: string, pieces: seq<string>, n: nat)
    requires Sound(o) && Bare(base) && kind != Heading && n <= |pieces|
    ensures Sound(PushPieces(o, kind, base, pieces, n))
  {
    if n > 0 {
      PushPiecesKeeps(o, kind, base, pieces, n - 1);
      PushKeeps(PushPieces(o, kind, base, pieces, n - 1), kind, base, pieces[n - 1]);
    }
  }

  lemma PushSplitKeeps(o: Output, kind: Kind, base: string, text: string)
    requires Sound(o) && Bare(base) && kind != Heading
    ensures Sound(PushSplit(o, kind, base, text))
  {
    var pieces := SplitOversized(text, MAX_SEGMENT_CHARS);
    PushPiecesKeeps(o, kind, base, pieces, |pieces|);
  }

  lemma PushHeadingKeeps(o: Output, level: nat, text: string)
    requires Sound(o)
    ensures Sound(PushHeading(o, level, text))
  {
    var slug := Slug(text);
    SlugShape(text);
    var stack := Retain(o.stack, level) + [(level, slug)];
    var a := o.(stack := stack, headings := o.headings + [(level, slug)]);
    var titled := a.(title := Some(text));
    PushSegments(titled, DocumentTitle, "title:" + slug, text);
    PushHeadings(titled, DocumentTitle, "title:" + slug, text);
    var b := if a.title.None? && level == 1 then Push(titled, DocumentTitle, "title:" + slug, text) else a;
    HeadingPushed(o, b, (level, slug), text);
  }

  /** The heading segment itself, on a stack that has been brought up to date. */
  lemma HeadingPushed(o: Output, c: Output, entry: Entry, text: string)
    requires HeadingsSound(o.segments, o.stack, o.headings) && Plain(entry.1)
    requires SegmentsSound(c.segments, c.ordinal, c.anchors)
    requires c.stack == Retain(o.stack, entry.0) + [entry] && c.headings == o.headings + [entry]
    requires HeadingBases(c.segments, |c.segments|) == HeadingBases(o.segments, |o.segments|)
    ensures Sound(Push(c, Heading, "heading:" + Path(c.stack), text))
  {
    RetainPlain(o.stack, entry.0);
    PathPlain(c.stack);
    var base := "heading:" + Path(c.stack);
    PushSegments(c, Heading, base, text);
    PushHeadings(c, Heading, base, text);
    NextPath(o.stack, o.headings, entry);
  }

  lemma NextPath(stack: seq<Entry>, headings: seq<Entry>, entry: Entry)
    requires stack == Visible(headings, |headings|)
    ensures var more, next := headings + [entry], Retain(stack, entry.0) + [entry];
            next == Visible(more, |more|)
                && PathsOf(more, |more|) == PathsOf(headings, |headings|) + ["heading:" + Path(next)]
  {
    VisibleGrows(headings, entry);
    PathsOfPlus(headings, entry, |headings|);
    var more := headings + [entry];
    assert more[..|more|] == more;
  }

  lemma EndTagKeeps(s: State, e: Event)
    requires Sound(s.out)
    ensures Sound(EndTag(s, e).out)
  {
    match e
    case EndHeading => HeadingKeeps(s);
    case EndParagraph => ParagraphKeeps(s);
    case EndQuote => QuoteKeeps(s);
    case EndList => ListKeeps(s);
    case EndCode => CodeKeeps(s);
    case EndTable => TableKeeps(s);
    case _ =>
  }

  lemma HeadingKeeps(s: State)
    requires Sound(s.out)
    ensures Sound(FinishHeading(s).out)
  {
    PushHeadingKeeps(s.out, s.mode.level, Trim(s.buf.text));
  }

  lemma ParagraphKeeps(s: State)
    requires Sound(s.out)
    ensures Sound(FinishParagraph(s).out)
  {
    NamesPlain();
    NumberedSplitKeeps(s.out, Paragraph, "paragraph:", s.seen.paragraphs + 1, Trim(s.buf.text));
  }

  lemma QuoteKeeps(s: State)
    requires Sound(s.out)
    ensures Sound(FinishQuote(s).out)
  {
    NamesPlain();
    NumberedKeeps(s.out, Blockquote, "blockquote:", s.seen.quotes + 1, Trim(s.buf.quote));
  }

  lemma ListKeeps(s: State)
    requires Sound(s.out)
    ensures Sound(FinishList(s).out)
  {
    NamesPlain();
    NumberedKeeps(s.out, List, "list:", s.seen.lists + 1, Trim(s.buf.list));
  }

  lemma TableKeeps(s: State)
    requires Sound(s.out)
    ensures Sound(FinishTable(s).out)
  {
    NamesPlain();
    NumberedKeeps(s.out, Table, "table:", s.seen.tables + 1, Trim(s.buf.table));
  }

  lemma NumberedKeeps(o: Output, kind: Kind, name: string, n: nat, text: string)
    requires Sound(o) && Bare(name) && kind != Heading
    ensures Sound(Push(o, kind, name + Decimal(n), text))
  {
    DecimalPlain(n);
    PushKeeps(o, kind, name + Decimal(n), text);
  }

  lemma NumberedSplitKeeps(o: Output, kind: Kind, name: string, n: nat, text: string)
    requires Sound(o) && Bare(name) && kind != Heading
    ensures Sound(PushSplit(o, kind, name + Decimal(n), text))
  {
    DecimalPlain(n);
    PushSplitKeeps(o, kind, name + Decimal(n), text);
  }

  lemma CodeKeeps(s: State)
    requires Sound(s.out)
    ensures Sound(FinishCode(s).out)
  {
    NamesPlain();
    SlugShape(s.buf.lang);
    var name, text := "code-fence:" + CodeLang(s.buf.lang) + ":", TrimRight(s.buf.code, IsNewline);
    NumberedSplitKeeps(s.out, CodeFence, name, s.seen.codes + 1, text);
  }

  /** Only ends of tags produce output. */
  lemma BufferingProducesNothing(s: State, e: Event)
    requires !Ends(e)
    ensures Handle(s, e).out == s.out
  {
  }

  lemma {:induction false} HandleAllKeeps(s: State, events: seq<Event>, n: nat)
    requires Sound(s.out) && n <= |events|
    ensures Sound(HandleAll(s, events, n).out)
  {
    if n > 0 {
      HandleAllKeeps(s, events, n - 1);
      var before := HandleAll(s, events, n - 1);
      if Ends(events[n - 1]) {
        EndTagKeeps(before, events[n - 1]);
      } else {
        BufferingProducesNothing(before, events[n - 1]);
      }
    }
  }

  lemma BeginSound(front: Option<string>, frontTitle: Option<string>)
    ensures Sound(Begin(front, frontTitle))
  {
    if front.Some? {
      PushKeeps(NO_OUTPUT.(title := frontTitle), Frontmatter, "frontmatter", front.value);
    }
  }

  /**
   For every front matter, body and event sequence: no two segments share an
   anchor, no anchor holds a `#`, ordinals are positions (so both UNIQUE clauses
   on segments hold), and the heading segments' anchors are, in order, the paths of
   the headings visible from each, up to the suffix that tells repeated paths apart.
   */
  lemma ParsedSegmentsAreSound(front: Option<string>, frontTitle: Option<string>, body: string, events: seq<Event>)
    ensures var o := ParseEvents(front, frontTitle, body, events);
            && AnchorsDistinct(o.segments) && AnchorsUnhashed(o.segments)
            && (forall i :: 0 <= i < |o.segments| ==> o.segments[i].ordinal == i)
            && o.stack == Visible(o.headings, |o.headings|)
            && HeadingBases(o.segments, |o.segments|) == PathsOf(o.headings, |o.headings|)
  {
    BeginSound(front, frontTitle);
    var start := INITIAL.(out := Begin(front, frontTitle));
    HandleAllKeeps(start, events, |events|);
    FallbackKeeps(HandleAll(start, events, |events|).out, body);
  }

  lemma FallbackKeeps(o: Output, body: string)
    requires Sound(o)
    ensures Sound(Fallback(o, body))
  {
    PushKeeps(o, Paragraph, "paragraph:1", Trim(body));
  }

  // ------------------------------------------------------------------ pieces

  function Concat(pieces: seq<string>): string {
    if pieces == [] then "" else pieces[0] + Concat(pieces[1..])
  }

  predicate BreakChar(c: char) {
    c == '\n' || c == ' '
  }

  /** A piece that is not the last ends at a break, or is full and holds none. */
  ghost predicate CutWell(piece: string, max: nat) {
    && 0 < |piece| <= max
    && (BreakChar(piece[|piece| - 1]) || (|piece| == max && forall i :: 0 <= i < |piece| ==> !BreakChar(piece[i])))
  }

  lemma {:induction false} PiecesAre(text: string, start: nat, max: nat)
    requires start <= |text| && max > 0
    ensures var pieces := Pieces(text, start, max);
            && Concat(pieces) == text[start..]
            && (forall i :: 0 <= i < |pieces| ==> 0 < |pieces[i]| <= max)
            && (forall i :: 0 <= i < |pieces| - 1 ==> CutWell(pieces[i], max))
    decreases |text| - start
  {
    if start < |text| {
      var end := PieceEnd(text, start, max);
      PiecesAre(text, end, max);
      var pieces := Pieces(text, start, max);
      assert pieces[1..] == Pieces(text, end, max);
      assert text[start..end] + text[end..] == text[start..];
      if end < |text| {
        PieceCutWell(text, start, max);
      }
    }
  }

  lemma PieceCutWell(text: string, start: nat, max: nat)
    requires start < |text| && max > 0 && PieceEnd(text, start, max) < |text|
    ensures CutWell(text[start..PieceEnd(text, start, max)], max)
  {
    var end := PieceEnd(text, start, max);
    var piece := text[start..end];
    assert forall i :: 0 <= i < |piece| ==> piece[i] == text[start + i];
  }

  /** Splitting loses nothing and keeps every piece within the limit. */
  lemma SplitIsLossless(text: string, max: nat)
    ensures var (pieces, limit) := (SplitOversized(text, max), PieceLimit(max));
            && Concat(pieces) == text && pieces != []
            && (forall i :: 0 <= i < |pieces| ==> |pieces[i]| <= limit)
            && (forall i :: 0 <= i < |pieces| - 1 ==> CutWell(pieces[i], limit))
  {
    if |text| > PieceLimit(max) {
      PiecesAre(text, 0, PieceLimit(max));
      assert text[0..] == text;
    } else {
      assert Concat([text]) == text + Concat([]);
    }
  }
}
