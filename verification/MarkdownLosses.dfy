/**
 Where a document's text goes, for every stream of events however nested: into
 segments, into what is still being gathered, or away.
 */
module MarkdownLosses {
  import opened Prelude
  import opened TextTools
  import opened Markdown
  import opened MarkdownTheorems
  import opened MarkdownText

  /** The characters that the parser neither trims off nor puts in itself. */
  predicate Ink(c: char) {
    !IsWhitespace(c) && c != '-' && c != '|' && c != '(' && c != ')'
  }

  /** How often a character occurs in a text. */
  function Has(text: string, c: char): nat {
    if text == "" then 0 else Has(text[..|text| - 1], c) + if text[|text| - 1] == c then 1 else 0
  }

  ghost predicate NoInk(text: string) {
    forall c :: Ink(c) ==> Has(text, c) == 0
  }

  /** In the segments, but for the title, which its heading repeats. */
  function Shown(segments: seq<Segment>, c: char): nat {
    if segments == [] then 0
    else
      var last := segments[|segments| - 1];
      Shown(segments[..|segments| - 1], c) + if last.kind.DocumentTitle? then 0 else Has(last.text, c)
  }

  /** In the labels and targets of the links that are open. */
  function InLinks(links: seq<(string, string)>, c: char): nat {
    if links == [] then 0
    else
      var last := links[|links| - 1];
      InLinks(links[..|links| - 1], c) + Has(last.0, c) + Has(last.1, c)
  }

  function Gathered(b: Buffers, c: char): nat {
    Has(b.text, c) + Has(b.quote, c) + Has(b.list, c) + Has(b.code, c) + Has(b.table, c) + InLinks(b.links, c)
  }

  /** The text that comes with an event. */
  function GivenBy(e: Event): string {
    match e
    case Words(value) => value
    case StartLink(url) => url
    case _ => ""
  }

  function Given(events: seq<Event>, c: char): nat {
    if events == [] then 0 else Given(events[..|events| - 1], c) + Has(GivenBy(events[|events| - 1]), c)
  }

  /** Some block is open that takes text. */
  predicate Takes(m: Mode) {
    m.inHeading || m.inParagraph || m.inQuote || m.inItem || m.inTable
  }

  /** The text that an event throws away: what no open block takes, and what a new block finds in its buffer. */
  function Discarded(s: State, e: Event): string {
    match e
    case Words(value) => if s.mode.inCode || s.buf.links != [] || Takes(s.mode) then "" else value
    case EndLink =>
      if s.buf.links == [] || Takes(s.mode) then ""
      else
        var last := s.buf.links[|s.buf.links| - 1];
        last.0 + last.1
    case StartHeading(_) => s.buf.text
    case StartParagraph => if s.mode.inList || s.mode.inQuote || s.mode.inTable then "" else s.buf.text
    case StartQuote => s.buf.quote
    case StartCode(_) => s.buf.code
    case StartTable => s.buf.table
    case _ => ""
  }

  /** The text that the event at `i` throws away. */
  function ThrownAt(s: State, events: seq<Event>, i: nat): string
    requires i < |events|
  {
    Discarded(HandleAll(s, events, i), events[i])
  }

  function Thrown(s: State, events: seq<Event>, n: nat, c: char): nat
    requires n <= |events|
  {
    if n == 0 then 0 else Thrown(s, events, n - 1, c) + Has(ThrownAt(s, events, n - 1), c)
  }

  // ---------------------------------------------------------------- trimming

  lemma {:induction false} HasAppend(a: string, b: string, c: char)
    ensures Has(a + b, c) == Has(a, c) + Has(b, c)
  {
    if b == "" {
      assert a + b == a;
    } else {
      assert (a + b)[..|a + b| - 1] == a + b[..|b| - 1];
      HasAppend(a, b[..|b| - 1], c);
    }
  }

  /** A single character that is none of them adds nothing. */
  lemma HasOther(a: string, d: char, c: char)
    requires d != c
    ensures Has(a + [d], c) == Has(a, c)
  {
    assert (a + [d])[..|a|] == a;
  }

  lemma {:induction false} TrimLeftKeeps(s: string, drop: char -> bool, c: char)
    requires !drop(c)
    ensures Has(TrimLeft(s, drop), c) == Has(s, c)
  {
    if s != "" && drop(s[0]) {
      assert s == [s[0]] + s[1..];
      HasAppend([s[0]], s[1..], c);
      TrimLeftKeeps(s[1..], drop, c);
    }
  }

  lemma {:induction false} TrimRightKeeps(s: string, drop: char -> bool, c: char)
    requires !drop(c)
    ensures Has(TrimRight(s, drop), c) == Has(s, c)
  {
    if s != "" && drop(s[|s| - 1]) {
      assert s == s[..|s| - 1] + [s[|s| - 1]];
      HasAppend(s[..|s| - 1], [s[|s| - 1]], c);
      TrimRightKeeps(s[..|s| - 1], drop, c);
    }
  }

  lemma TrimKeeps(s: string, c: char)
    requires Ink(c)
    ensures Has(Trim(s), c) == Has(s, c)
  {
    TrimLeftKeeps(s, IsWhitespace, c);
    TrimRightKeeps(TrimLeft(s, IsWhitespace), IsWhitespace, c);
  }

  // ----------------------------------------------------------------- pushing

  lemma PushShows(o: Output, kind: Kind, base: string, text: string, c: char)
    ensures Shown(Push(o, kind, base, text).segments, c)
            == Shown(o.segments, c) + if kind.DocumentTitle? then 0 else Has(text, c)
  {
    assert Push(o, kind, base, text).segments[..|o.segments|] == o.segments;
  }

  lemma {:induction false} ConcatSnoc(pieces: seq<string>, last: string)
    ensures Concat(pieces + [last]) == Concat(pieces) + last
  {
    if pieces == [] {
      assert Concat([last]) == last + Concat([]);
    } else {
      assert (pieces + [last])[1..] == pieces[1..] + [last];
      ConcatSnoc(pieces[1..], last);
    }
  }

  lemma ConcatNext(pieces: seq<string>, n: nat, c: char)
    requires 0 < n <= |pieces|
    ensures Has(Concat(pieces[..n]), c) == Has(Concat(pieces[..n - 1]), c) + Has(pieces[n - 1], c)
  {
    assert pieces[..n] == pieces[..n - 1] + [pieces[n - 1]];
    ConcatSnoc(pieces[..n - 1], pieces[n - 1]);
    HasAppend(Concat(pieces[..n - 1]), pieces[n - 1], c);
  }

  lemma {:induction false} PiecesShow(o: Output, kind: Kind, base: string, pieces: seq<string>, n: nat, c: char)
    requires n <= |pieces| && !kind.DocumentTitle?
    ensures Shown(PushPieces(o, kind, base, pieces, n).segments, c)
            == Shown(o.segments, c) + Has(Concat(pieces[..n]), c)
  {
    if n > 0 {
      PiecesShow(o, kind, base, pieces, n - 1, c);
      PushShows(PushPieces(o, kind, base, pieces, n - 1), kind, base, pieces[n - 1], c);
      ConcatNext(pieces, n, c);
    }
  }

  lemma SplitShows(o: Output, kind: Kind, base: string, text: string, c: char)
    requires !kind.DocumentTitle?
    ensures Shown(PushSplit(o, kind, base, text).segments, c) == Shown(o.segments, c) + Has(text, c)
  {
    var pieces := SplitOversized(text, MAX_SEGMENT_CHARS);
    PiecesShow(o, kind, base, pieces, |pieces|, c);
    assert pieces[..|pieces|] == pieces;
    SplitIsLossless(text, MAX_SEGMENT_CHARS);
  }

  lemma HeadingShows(o: Output, level: nat, text: string, c: char)
    ensures Shown(PushHeading(o, level, text).segments, c) == Shown(o.segments, c) + Has(text, c)
  {
    var slug := Slug(text);
    var stack := Retain(o.stack, level) + [(level, slug)];
    var a := o.(stack := stack, headings := o.headings + [(level, slug)]);
    var b := if a.title.None? && level == 1
             then Push(a.(title := Some(text)), DocumentTitle, "title:" + slug, text) else a;
    PushShows(a.(title := Some(text)), DocumentTitle, "title:" + slug, text, c);
    PushShows(b, Heading, "heading:" + Path(stack), text, c);
  }

  // --------------------------------------------------------------- one event

  /** Everything accounted for after this event. */
  ghost predicate Balanced(s: State, e: Event, c: char) {
    var post := Handle(s, e);
    Shown(post.out.segments, c) + Gathered(post.buf, c) + Has(Discarded(s, e), c)
    == Shown(s.out.segments, c) + Gathered(s.buf, c) + Has(GivenBy(e), c)
  }

  lemma AppendBalances(b: Buffers, m: Mode, value: string, c: char)
    ensures Gathered(AppendText(b, m, value), c) == Gathered(b, c) + if Takes(m) then Has(value, c) else 0
  {
    HasAppend(b.text, value, c);
    HasAppend(b.quote, value, c);
    HasAppend(b.list, value, c);
    HasAppend(b.table, value, c);
  }

  lemma LinkGrows(links: seq<(string, string)>, last: (string, string), c: char)
    ensures InLinks(links + [last], c) == InLinks(links, c) + Has(last.0, c) + Has(last.1, c)
  {
    assert (links + [last])[..|links|] == links;
  }

  lemma WordsBalance(s: State, value: string, c: char)
    ensures Balanced(s, Words(value), c)
  {
    if s.mode.inCode {
      HasAppend(s.buf.code, value, c);
    } else if s.buf.links == [] {
      AppendBalances(s.buf, s.mode, value, c);
    } else {
      LabelBalances(s, value, c);
    }
  }

  lemma LabelBalances(s: State, value: string, c: char)
    requires !s.mode.inCode && s.buf.links != []
    ensures Balanced(s, Words(value), c)
  {
    var init, last := s.buf.links[..|s.buf.links| - 1], s.buf.links[|s.buf.links| - 1];
    HasAppend(last.0, value, c);
    LinkGrows(init, (last.0 + value, last.1), c);
  }

  lemma RenderedInk(shown: string, url: string, c: char)
    requires Ink(c)
    ensures Has(if shown == "" then url else shown + " (" + url + ")", c) == Has(shown, c) + Has(url, c)
  {
    assert shown + " (" == shown + [' '] + ['('];
    HasOther(shown, ' ', c);
    HasOther(shown + [' '], '(', c);
    HasAppend(shown + " (", url, c);
    HasOther(shown + " (" + url, ')', c);
  }

  lemma LinkBalances(s: State, c: char)
    requires Ink(c)
    ensures Balanced(s, EndLink, c)
  {
    if s.buf.links != [] {
      var init, last := s.buf.links[..|s.buf.links| - 1], s.buf.links[|s.buf.links| - 1];
      var text := if last.0 == "" then last.1 else last.0 + " (" + last.1 + ")";
      AppendBalances(s.buf.(links := init), s.mode, text, c);
      RenderedInk(last.0, last.1, c);
      HasAppend(last.0, last.1, c);
      LinkClosed(s.buf, init, last, c);
    }
  }

  lemma LinkClosed(b: Buffers, init: seq<(string, string)>, last: (string, string), c: char)
    requires b.links == init + [last]
    ensures Gathered(b, c) == Gathered(b.(links := init), c) + Has(last.0, c) + Has(last.1, c)
  {
    LinkGrows(init, last, c);
  }

  lemma HeadingBalances(s: State, c: char)
    requires Ink(c)
    ensures Balanced(s, EndHeading, c)
  {
    TrimKeeps(s.buf.text, c);
    HeadingShows(s.out, s.mode.level, Trim(s.buf.text), c);
  }

  lemma ParagraphBalances(s: State, c: char)
    requires Ink(c)
    ensures Balanced(s, EndParagraph, c)
  {
    TrimKeeps(s.buf.text, c);
    SplitShows(s.out, Paragraph, "paragraph:" + Decimal(s.seen.paragraphs + 1), Trim(s.buf.text), c);
  }

  lemma QuoteBalances(s: State, c: char)
    requires Ink(c)
    ensures Balanced(s, EndQuote, c)
  {
    TrimKeeps(s.buf.quote, c);
    PushShows(s.out, Blockquote, "blockquote:" + Decimal(s.seen.quotes + 1), Trim(s.buf.quote), c);
  }

  lemma ListBalances(s: State, c: char)
    requires Ink(c)
    ensures Balanced(s, EndList, c)
  {
    TrimKeeps(s.buf.list, c);
    PushShows(s.out, List, "list:" + Decimal(s.seen.lists + 1), Trim(s.buf.list), c);
  }

  lemma CodeBalances(s: State, c: char)
    requires Ink(c)
    ensures Balanced(s, EndCode, c)
  {
    TrimRightKeeps(s.buf.code, IsNewline, c);
    SplitShows(s.out, CodeFence, "code-fence:" + CodeLang(s.buf.lang) + ":" + Decimal(s.seen.codes + 1),
               TrimRight(s.buf.code, IsNewline), c);
  }

  lemma TableBalances(s: State, c: char)
    requires Ink(c)
    ensures Balanced(s, EndTable, c)
  {
    TrimKeeps(s.buf.table, c);
    PushShows(s.out, Table, "table:" + Decimal(s.seen.tables + 1), Trim(s.buf.table), c);
  }

  /** A bar or a line break is no ink. */
  lemma CellBalances(s: State, e: Event, c: char)
    requires Ink(c) && (e.StartCell? || e.EndTableHead? || e.EndTableRow?)
    ensures Balanced(s, e, c)
  {
    HasOther(s.buf.table, '|', c);
    HasOther(s.buf.table, '\n', c);
  }

  lemma ItemBalances(s: State, c: char)
    requires Ink(c)
    ensures Balanced(s, StartItem, c)
  {
    var lines := if s.buf.list == "" then "" else s.buf.list + "\n";
    HasOther(s.buf.list, '\n', c);
    DashInk(lines, c);
  }

  lemma DashInk(lines: string, c: char)
    requires Ink(c)
    ensures Has(lines + "- ", c) == Has(lines, c)
  {
    assert lines + "- " == lines + ['-'] + [' '];
    HasOther(lines, '-', c);
    HasOther(lines + ['-'], ' ', c);
  }

  lemma StartBalances(s: State, e: Event, c: char)
    requires e.StartHeading? || e.StartParagraph?
    ensures Balanced(s, e, c)
  {
  }

  lemma BufferStartBalances(s: State, e: Event, c: char)
    requires e.StartQuote? || e.StartCode? || e.StartTable?
    ensures Balanced(s, e, c)
  {
  }

  lemma LinkStartBalances(s: State, url: string, c: char)
    ensures Balanced(s, StartLink(url), c)
  {
    LinkGrows(s.buf.links, ("", url), c);
  }

  lemma BreakBalances(s: State, c: char)
    requires Ink(c)
    ensures Balanced(s, Break, c)
  {
    AppendBalances(s.buf, s.mode, " ", c);
    BlankInk(c);
  }

  lemma BlankInk(c: char)
    requires Ink(c)
    ensures Has(" ", c) == 0
  {
    HasOther("", ' ', c);
    assert "" + [' '] == " ";
  }

  lemma QuietBalances(s: State, e: Event, c: char)
    requires e.StartList? || e.EndItem? || e.Rule? || e.Ignored?
    ensures Balanced(s, e, c)
  {
  }

  lemma EventBalances(s: State, e: Event, c: char)
    requires Ink(c)
    ensures Balanced(s, e, c)
  {
    match e
    case Words(value) => WordsBalance(s, value, c);
    case StartLink(url) => LinkStartBalances(s, url, c);
    case EndLink => LinkBalances(s, c);
    case EndHeading => HeadingBalances(s, c);
    case EndParagraph => ParagraphBalances(s, c);
    case EndQuote => QuoteBalances(s, c);
    case EndList => ListBalances(s, c);
    case EndCode => CodeBalances(s, c);
    case EndTable => TableBalances(s, c);
    case Break => BreakBalances(s, c);
    case StartItem => ItemBalances(s, c);
    case StartCell => CellBalances(s, e, c);
    case EndTableHead => CellBalances(s, e, c);
    case EndTableRow => CellBalances(s, e, c);
    case StartHeading(_) => StartBalances(s, e, c);
    case StartParagraph => StartBalances(s, e, c);
    case StartQuote => BufferStartBalances(s, e, c);
    case StartCode(_) => BufferStartBalances(s, e, c);
    case StartTable => BufferStartBalances(s, e, c);
    case _ => QuietBalances(s, e, c);
  }

  // -------------------------------------------------------------- a document

  /** What came is in the segments, still gathered, or thrown away. */
  lemma {:induction false} RunBalances(s: State, events: seq<Event>, n: nat, c: char)
    requires n <= |events| && Ink(c)
    ensures var post := HandleAll(s, events, n);
            Shown(post.out.segments, c) + Gathered(post.buf, c) + Thrown(s, events, n, c)
            == Shown(s.out.segments, c) + Gathered(s.buf, c) + Given(events[..n], c)
  {
    if n > 0 {
      RunBalances(s, events, n - 1, c);
      EventBalances(HandleAll(s, events, n - 1), events[n - 1], c);
      GivenNext(events, n, c);
    }
  }

  lemma GivenNext(events: seq<Event>, n: nat, c: char)
    requires 0 < n <= |events|
    ensures Given(events[..n], c) == Given(events[..n - 1], c) + Has(GivenBy(events[n - 1]), c)
  {
    assert events[..n][..n - 1] == events[..n - 1];
  }

  ghost predicate ThrowsNone(s: State, events: seq<Event>, n: nat, c: char)
    requires n <= |events|
  {
    forall i :: 0 <= i < n ==> Has(ThrownAt(s, events, i), c) == 0
  }

  lemma {:induction false} ThrownExactly(s: State, events: seq<Event>, n: nat, c: char)
    requires n <= |events|
    ensures Thrown(s, events, n, c) == 0 <==> ThrowsNone(s, events, n, c)
  {
    if n > 0 {
      ThrownExactly(s, events, n - 1, c);
      ThrowsNext(s, events, n, c);
    }
  }

  lemma ThrowsNext(s: State, events: seq<Event>, n: nat, c: char)
    requires 0 < n <= |events|
    ensures ThrowsNone(s, events, n, c)
            <==> ThrowsNone(s, events, n - 1, c) && Has(ThrownAt(s, events, n - 1), c) == 0
  {
  }

  /** The state before the first event. */
  function Opening(front: Option<string>, frontTitle: Option<string>): State {
    INITIAL.(out := Begin(front, frontTitle))
  }

  lemma OpeningShows(front: Option<string>, frontTitle: Option<string>, c: char)
    ensures Shown(Opening(front, frontTitle).out.segments, c) == (if front.Some? then Has(front.value, c) else 0)
    ensures Gathered(Opening(front, frontTitle).buf, c) == 0
  {
    if front.Some? {
      PushShows(NO_OUTPUT.(title := frontTitle), Frontmatter, "frontmatter", front.value, c);
    }
  }

  /** A character is in the segments as often as in the document's text. */
  ghost predicate Kept(front: Option<string>, frontTitle: Option<string>, events: seq<Event>, c: char) {
    Shown(HandleAll(Opening(front, frontTitle), events, |events|).out.segments, c)
    == (if front.Some? then Has(front.value, c) else 0) + Given(events, c)
  }

  /**
   All of a document's text is in its segments exactly when no event throws ink away
   and the last one leaves none behind.
   */
  lemma AllTextIsKeptExactly(front: Option<string>, frontTitle: Option<string>, events: seq<Event>)
    ensures var s := Opening(front, frontTitle);
            (forall c :: Ink(c) ==> Kept(front, frontTitle, events, c))
            <==> && (forall i :: 0 <= i < |events| ==> NoInk(ThrownAt(s, events, i)))
                 && (forall c :: Ink(c) ==> Gathered(HandleAll(s, events, |events|).buf, c) == 0)
  {
    var s := Opening(front, frontTitle);
    forall c | Ink(c)
      ensures Kept(front, frontTitle, events, c)
              <==> ThrowsNone(s, events, |events|, c) && Gathered(HandleAll(s, events, |events|).buf, c) == 0
    {
      KeptExactly(front, frontTitle, events, c);
    }
    NoneThrown(s, events);
  }

  lemma NoneThrown(s: State, events: seq<Event>)
    ensures (forall i :: 0 <= i < |events| ==> NoInk(ThrownAt(s, events, i)))
            <==> forall c :: Ink(c) ==> ThrowsNone(s, events, |events|, c)
  {
  }

  lemma KeptExactly(front: Option<string>, frontTitle: Option<string>, events: seq<Event>, c: char)
    requires Ink(c)
    ensures var (s, n) := (Opening(front, frontTitle), |events|);
            Kept(front, frontTitle, events, c)
            <==> ThrowsNone(s, events, n, c) && Gathered(HandleAll(s, events, n).buf, c) == 0
  {
    var s, n := Opening(front, frontTitle), |events|;
    OpeningShows(front, frontTitle, c);
    RunBalances(s, events, n, c);
    ThrownExactly(s, events, n, c);
    assert events[..n] == events;
  }

  // ----------------------------------------------------------- what gets lost

  function NestedQuote(outer: Line, inner: Line): seq<Event> {
    [StartQuote] + LineEvents(outer) + ([StartQuote] + LineEvents(inner) + [EndQuote])
  }

  /** A quote within a quote: whatever the outer one said before it is gone. */
  lemma NestedQuoteLosesTheOuter(s: State, outer: Line, inner: Line)
    requires Idle(s)
    ensures Done(s, RunEvents(s, NestedQuote(outer, inner) + [EndQuote]), One(Blockquote, Trim(LineText(inner))))
  {
    var mid := RunEvents(s, [StartQuote] + LineEvents(outer));
    RunFirst(s, StartQuote, LineEvents(outer));
    QuoteStarts(s);
    LineRuns(Quoting(s, ""), outer);
    QuoteHolds(s, LineText(outer));
    assert mid == Quoting(s, LineText(outer));
    RunAppend(s, [StartQuote] + LineEvents(outer), [StartQuote] + LineEvents(inner) + [EndQuote]);
    RunBlock(mid, StartQuote, LineEvents(inner), EndQuote);
    InnerQuoteStarts(s, LineText(outer));
    LineRuns(Quoting(s, ""), inner);
    QuoteHolds(s, LineText(inner));
    QuoteEnds(s, LineText(inner));
    RunAppend(s, NestedQuote(outer, inner), [EndQuote]);
    RunOne(RunEvents(s, NestedQuote(outer, inner)), EndQuote);
    SecondEnd(RunEvents(s, NestedQuote(outer, inner)));
  }

  lemma InnerQuoteStarts(s: State, text: string)
    requires Idle(s)
    ensures Handle(Quoting(s, text), StartQuote) == Quoting(s, "")
  {
  }

  lemma SecondEnd(s: State)
    requires Idle(s)
    ensures Handle(s, EndQuote) == s
  {
  }

  function ItemBegun(line: Line): seq<Event> {
    [StartList] + ([StartItem] + LineEvents(line))
  }

  /** A list of one item, to the end of the list within it. */
  function NestedList(outer: Line, inner: Line): seq<Event> {
    ItemBegun(outer) + (ItemBegun(inner) + [EndItem] + [EndList])
  }

  /** A list within an item: its end is the end of both, and what the item says after it is gone. */
  lemma NestedListLosesTheRest(s: State, outer: Line, inner: Line, after: Line)
    requires Idle(s)
    ensures Done(s, RunEvents(s, NestedList(outer, inner) + (LineEvents(after) + [EndItem] + [EndList])),
                 One(List, Trim("- " + LineText(outer) + "\n" + "- " + LineText(inner))))
  {
    RunAppend(s, NestedList(outer, inner), LineEvents(after) + [EndItem] + [EndList]);
    NestedListRuns(s, outer, inner);
    ListEnds(s, "- " + LineText(outer) + "\n" + "- " + LineText(inner));
    DropsTheRest(RunEvents(s, NestedList(outer, inner)), after);
  }

  lemma NestedListRuns(s: State, outer: Line, inner: Line)
    requires Idle(s)
    ensures RunEvents(s, NestedList(outer, inner))
            == Handle(Listing(s, "- " + LineText(outer) + "\n" + "- " + LineText(inner)), EndList)
  {
    RunAppend(s, ItemBegun(outer), ItemBegun(inner) + [EndItem] + [EndList]);
    BeginsItem(s, outer);
    NestedEnds(s, "- " + LineText(outer), inner);
  }

  lemma DropsTheRest(s: State, after: Line)
    requires Idle(s)
    ensures RunEvents(s, LineEvents(after) + [EndItem] + [EndList]) == s
  {
    RunAppend(s, LineEvents(after) + [EndItem], [EndList]);
    RunAppend(s, LineEvents(after), [EndItem]);
    DropsText(s, after);
    NothingToEnd(s);
    RunOne(s, EndItem);
    RunOne(s, EndList);
  }

  lemma BeginsItem(s: State, line: Line)
    requires Idle(s)
    ensures RunEvents(s, ItemBegun(line)) == Itemizing(s, "- " + LineText(line))
  {
    RunFirst(s, StartList, [StartItem] + LineEvents(line));
    ListStarts(s);
    RunFirst(Listing(s, ""), StartItem, LineEvents(line));
    ItemStarts(s, "");
    assert "" + "- " == "- ";
    LineRuns(Itemizing(s, "- "), line);
    ItemHolds(s, "- ", LineText(line));
  }

  lemma NestedEnds(s: State, text: string, line: Line)
    requires Idle(s) && text != ""
    ensures RunEvents(Itemizing(s, text), ItemBegun(line) + [EndItem] + [EndList])
            == Handle(Listing(s, text + "\n" + "- " + LineText(line)), EndList)
  {
    var open, longer := Itemizing(s, text), text + "\n" + "- ";
    RunAppend(open, ItemBegun(line) + [EndItem], [EndList]);
    RunAppend(open, ItemBegun(line), [EndItem]);
    RunFirst(open, StartList, [StartItem] + LineEvents(line));
    RunFirst(open, StartItem, LineEvents(line));
    InnerItemStarts(s, text);
    LineRuns(Itemizing(s, longer), line);
    ItemHolds(s, longer, LineText(line));
    RunOne(Itemizing(s, longer + LineText(line)), EndItem);
    ItemEnds(s, longer + LineText(line));
    RunOne(Listing(s, longer + LineText(line)), EndList);
  }

  lemma InnerItemStarts(s: State, text: string)
    requires Idle(s) && text != ""
    ensures Handle(Itemizing(s, text), StartList) == Itemizing(s, text)
    ensures Handle(Itemizing(s, text), StartItem) == Itemizing(s, text + "\n" + "- ")
  {
  }

  /** Text outside of every block goes nowhere. */
  lemma DropsText(s: State, line: Line)
    requires Idle(s)
    ensures RunEvents(s, LineEvents(line)) == s
  {
    LineRuns(s, line);
  }

  lemma NothingToEnd(s: State)
    requires Idle(s)
    ensures Handle(s, EndItem) == s && Handle(s, EndList) == s
  {
  }

  // ------------------------------------------------------ breaks within a link

  /** A label as it reads in the document. */
  function InPlace(inner: seq<Piece>): string {
    if inner == [] then ""
    else
      (match inner[0]
       case Word(value) => value
       case Gap => " "
       case Mark => "") + InPlace(inner[1..])
  }

  ghost predicate Blank(text: string) {
    forall k :: 0 <= k < |text| ==> text[k] == ' '
  }

  /** No line break comes after a word. */
  ghost predicate BreaksFirst(inner: seq<Piece>) {
    inner == []
    || (BreaksFirst(inner[1..]) && (inner[0].Word? && !Blank(inner[0].value) ==> Gaps(inner[1..]) == ""))
  }

  lemma {:induction false} GapsAreBlank(inner: seq<Piece>)
    ensures Blank(Gaps(inner)) && (Gaps(inner) == "" ==> InPlace(inner) == WordsOf(inner) && BreaksFirst(inner))
  {
    if inner != [] {
      GapsAreBlank(inner[1..]);
      assert "" + WordsOf(inner[1..]) == WordsOf(inner[1..]);
    }
  }

  /** Blanks in front of a word and blanks behind it are two texts. */
  lemma {:induction false} BlanksShift(blanks: string, word: string, a: string, b: string)
    requires Blank(blanks) && blanks != "" && !Blank(word)
    ensures blanks + (word + a) != word + b
  {
    var (left, right) := (blanks + (word + a), word + b);
    assert left[0] == ' ' && right[0] == word[0];
    if word[0] == ' ' {
      assert forall k :: 0 <= k < |word| - 1 ==> word[1..][k] == word[k + 1];
      BlanksShift(blanks, word[1..], a, b);
      assert right[1..] == word[1..] + b;
      assert left[1..] == blanks + (word[1..] + a);
    }
  }

  lemma Cancels(front: string, a: string, b: string)
    ensures front + a == front + b <==> a == b
  {
    assert (front + a)[|front|..] == a && (front + b)[|front|..] == b;
  }

  lemma CancelsEnd(a: string, b: string, rest: string)
    ensures a + rest == b + rest <==> a == b
  {
    if a + rest == b + rest {
      assert |a + rest| == |a| + |rest| && |b + rest| == |b| + |rest|;
      assert a == (a + rest)[..|a|] == (b + rest)[..|b|] == b;
    }
  }

  lemma WordFirst(value: string, gaps: string, words: string, placed: string)
    requires Blank(gaps) && gaps != ""
    ensures gaps + (value + words) == value + placed <==> Blank(value) && gaps + words == placed
  {
    if Blank(value) {
      assert gaps + (value + words) == value + (gaps + words);
      Cancels(value, gaps + words, placed);
    } else {
      BlanksShift(gaps, value, words, placed);
    }
  }

  lemma GapFirst(gaps: string, words: string, placed: string)
    ensures (" " + gaps) + words == " " + placed <==> gaps + words == placed
  {
    assert (" " + gaps) + words == " " + (gaps + words);
    Cancels(" ", gaps + words, placed);
  }

  lemma {:induction false} LabelOrder(inner: seq<Piece>)
    ensures Gaps(inner) + WordsOf(inner) == InPlace(inner) <==> BreaksFirst(inner)
  {
    if inner != [] {
      var rest := inner[1..];
      LabelOrder(rest);
      GapsAreBlank(inner);
      GapsAreBlank(rest);
      assert "" + Gaps(rest) == Gaps(rest) && "" + WordsOf(rest) == WordsOf(rest);
      match inner[0]
      case Word(value) =>
        if Gaps(rest) != "" {
          WordFirst(value, Gaps(rest), WordsOf(rest), InPlace(rest));
        }
      case Gap =>
        GapFirst(Gaps(rest), WordsOf(rest), InPlace(rest));
      case Mark =>
        assert "" + InPlace(rest) == InPlace(rest);
    }
  }

  /** A link reads in the document's order exactly when no line break in its label comes after a word. */
  lemma LinkReadsInOrderExactly(url: string, inner: seq<Piece>)
    requires WordsOf(inner) != ""
    ensures InlineText(Link(url, inner)) == InPlace(inner) + " (" + url + ")" <==> BreaksFirst(inner)
  {
    var (read, rest) := (Gaps(inner) + WordsOf(inner), " (" + url + ")");
    LabelOrder(inner);
    assert InlineText(Link(url, inner)) == read + rest by {
      assert Gaps(inner) + ((WordsOf(inner) + " (") + url + ")") == read + rest;
    }
    assert InPlace(inner) + " (" + url + ")" == InPlace(inner) + rest;
    CancelsEnd(read, InPlace(inner), rest);
  }
}
