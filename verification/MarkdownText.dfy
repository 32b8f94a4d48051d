/**
 No text is lost: documents of blocks and inline text, printed as the events a
 tokenizer gives for them, come back as segments with the text of each block.
 */
module MarkdownText {
  import opened Prelude
  import opened TextTools
  import opened Markdown
  import opened MarkdownTheorems

  // ------------------------------------------------------------- inline text

  /** Inside a label: text or code, a line break, or markup such as emphasis. */
  datatype Piece = Word(value: string) | Gap | Mark

  datatype Inline = Text(value: string) | Space | Markup | Link(url: string, inner: seq<Piece>)

  type Line = seq<Inline>

  function PieceEvent(p: Piece): Event {
    match p
    case Word(value) => Words(value)
    case Gap => Break
    case Mark => Ignored
  }

  function PieceEvents(inner: seq<Piece>): seq<Event> {
    if inner == [] then [] else [PieceEvent(inner[0])] + PieceEvents(inner[1..])
  }

  function InlineEvents(i: Inline): seq<Event> {
    match i
    case Text(value) => [Words(value)]
    case Space => [Break]
    case Markup => [Ignored]
    case Link(url, inner) => [StartLink(url)] + PieceEvents(inner) + [EndLink]
  }

  function LineEvents(line: Line): seq<Event> {
    if line == [] then [] else InlineEvents(line[0]) + LineEvents(line[1..])
  }

  function WordsOf(inner: seq<Piece>): string {
    if inner == [] then "" else (if inner[0].Word? then inner[0].value else "") + WordsOf(inner[1..])
  }

  /** A blank for each break in the label: they come before the link, not inside it. */
  function Gaps(inner: seq<Piece>): string {
    if inner == [] then "" else (if inner[0].Gap? then " " else "") + Gaps(inner[1..])
  }

  function LinkText(shown: string, url: string): string {
    if shown == "" then url else shown + " (" + url + ")"
  }

  function InlineText(i: Inline): string {
    match i
    case Text(value) => value
    case Space => " "
    case Markup => ""
    case Link(url, inner) => Gaps(inner) + LinkText(WordsOf(inner), url)
  }

  /** What a line of inline text reads as. */
  function LineText(line: Line): string {
    if line == [] then "" else InlineText(line[0]) + LineText(line[1..])
  }

  // ------------------------------------------------------------ running events

  function RunEvents(s: State, events: seq<Event>): State {
    HandleAll(s, events, |events|)
  }

  lemma {:induction false} HandlePrefix(s: State, a: seq<Event>, b: seq<Event>, n: nat)
    requires n <= |a| && n <= |b| && a[..n] == b[..n]
    ensures HandleAll(s, a, n) == HandleAll(s, b, n)
  {
    if n > 0 {
      assert a[n - 1] == a[..n][n - 1] == b[n - 1];
      assert a[..n - 1] == a[..n][..n - 1] == b[..n - 1];
      HandlePrefix(s, a, b, n - 1);
    }
  }

  lemma {:induction false} RunAppend(s: State, a: seq<Event>, b: seq<Event>)
    ensures RunEvents(s, a + b) == RunEvents(RunEvents(s, a), b)
  {
    if b == [] {
      assert a + b == a;
    } else {
      var init, last := b[..|b| - 1], b[|b| - 1];
      RunAppend(s, a, init);
      assert (a + b)[..|a| + |init|] == a + init;
      HandlePrefix(s, a + b, a + init, |a + init|);
      HandlePrefix(RunEvents(s, a), b, init, |init|);
    }
  }

  lemma RunOne(s: State, e: Event)
    ensures RunEvents(s, [e]) == Handle(s, e)
  {
    assert HandleAll(s, [e], 0) == s;
  }

  lemma RunFirst(s: State, e: Event, rest: seq<Event>)
    ensures RunEvents(s, [e] + rest) == RunEvents(Handle(s, e), rest)
  {
    RunAppend(s, [e], rest);
    RunOne(s, e);
  }

  // ---------------------------------------------------- inline text is appended

  /** `value` at the end of the buffer of the block that is open. */
  function With(s: State, value: string): State {
    s.(buf := AppendText(s.buf, s.mode, value))
  }

  lemma WithTwice(s: State, a: string, b: string)
    ensures With(With(s, a), b) == With(s, a + b)
  {
    AppendAssociates(s.buf.text, a, b);
    AppendAssociates(s.buf.quote, a, b);
    AppendAssociates(s.buf.list, a, b);
    AppendAssociates(s.buf.table, a, b);
  }

  lemma WithNothing(s: State)
    ensures With(s, "") == s
  {
    assert s.buf.text + "" == s.buf.text && s.buf.quote + "" == s.buf.quote;
    assert s.buf.list + "" == s.buf.list && s.buf.table + "" == s.buf.table;
  }

  function Labelled(s: State, shown: string, url: string): State {
    s.(buf := s.buf.(links := [(shown, url)]))
  }

  lemma WordInLabel(s: State, shown: string, url: string, value: string)
    requires !s.mode.inCode
    ensures Handle(Labelled(s, shown, url), Words(value)) == Labelled(s, shown + value, url)
  {
  }

  lemma GapInLabel(s: State, shown: string, url: string)
    ensures Handle(Labelled(s, shown, url), Break) == Labelled(With(s, " "), shown, url)
  {
  }

  lemma {:induction false} LabelRuns(s: State, inner: seq<Piece>, shown: string, url: string)
    requires !s.mode.inCode
    ensures RunEvents(Labelled(s, shown, url), PieceEvents(inner))
            == Labelled(With(s, Gaps(inner)), shown + WordsOf(inner), url)
    decreases inner
  {
    if inner == [] {
      WithNothing(s);
      assert shown + "" == shown;
    } else {
      var rest := inner[1..];
      RunFirst(Labelled(s, shown, url), PieceEvent(inner[0]), PieceEvents(rest));
      match inner[0]
      case Word(value) =>
        WordInLabel(s, shown, url, value);
        LabelRuns(s, rest, shown + value, url);
        AppendAssociates(shown, value, WordsOf(rest));
        assert "" + Gaps(rest) == Gaps(rest);
      case Gap =>
        GapInLabel(s, shown, url);
        LabelRuns(With(s, " "), rest, shown, url);
        WithTwice(s, " ", Gaps(rest));
        assert "" + WordsOf(rest) == WordsOf(rest);
      case Mark =>
        LabelRuns(s, rest, shown, url);
        assert "" + WordsOf(rest) == WordsOf(rest) && "" + Gaps(rest) == Gaps(rest);
    }
  }

  /** A link is rendered at its end. */
  lemma LinkRuns(s: State, url: string, inner: seq<Piece>)
    requires s.buf.links == [] && !s.mode.inCode
    ensures RunEvents(s, InlineEvents(Link(url, inner))) == With(s, InlineText(Link(url, inner)))
  {
    var shown := WordsOf(inner);
    RunAppend(s, [StartLink(url)] + PieceEvents(inner), [EndLink]);
    RunFirst(s, StartLink(url), PieceEvents(inner));
    assert [] + [("", url)] == [("", url)];
    assert Handle(s, StartLink(url)) == Labelled(s, "", url);
    LabelRuns(s, inner, "", url);
    assert "" + shown == shown;
    RunOne(Labelled(With(s, Gaps(inner)), shown, url), EndLink);
    LinkEnds(With(s, Gaps(inner)), shown, url);
    WithTwice(s, Gaps(inner), LinkText(shown, url));
  }

  lemma LinkEnds(s: State, shown: string, url: string)
    requires s.buf.links == []
    ensures Handle(Labelled(s, shown, url), EndLink) == With(s, LinkText(shown, url))
  {
    assert [(shown, url)][..0] == [];
  }

  lemma InlineRuns(s: State, i: Inline)
    requires s.buf.links == [] && !s.mode.inCode
    ensures RunEvents(s, InlineEvents(i)) == With(s, InlineText(i))
  {
    match i
    case Text(value) => RunOne(s, Words(value));
    case Space => RunOne(s, Break);
    case Markup =>
      RunOne(s, Ignored);
      WithNothing(s);
    case Link(url, inner) => LinkRuns(s, url, inner);
  }

  /** A line leaves its text at the end of the open block's buffer, and changes nothing else. */
  lemma {:induction false} LineRuns(s: State, line: Line)
    requires s.buf.links == [] && !s.mode.inCode
    ensures RunEvents(s, LineEvents(line)) == With(s, LineText(line))
    decreases line
  {
    if line == [] {
      WithNothing(s);
    } else {
      RunAppend(s, InlineEvents(line[0]), LineEvents(line[1..]));
      InlineRuns(s, line[0]);
      LineRuns(With(s, InlineText(line[0])), line[1..]);
      WithTwice(s, InlineText(line[0]), LineText(line[1..]));
    }
  }

  // ------------------------------------------------------------------- blocks

  /** Inline text in a container: by itself, or in a paragraph of its own, whose tags count for nothing there. */
  datatype Part = Bare(line: Line) | Wrapped(line: Line)

  datatype Block =
    | HeadingBlock(level: nat, line: Line)
    | ParagraphBlock(line: Line)
    | QuoteBlock(parts: seq<Part>)
    | ListBlock(items: seq<seq<Part>>)
    | CodeBlock(lang: string, lines: seq<string>)
    | TableBlock(head: seq<Line>, rows: seq<seq<Line>>)
    | RuleBlock

  function PartEvents(part: Part): seq<Event> {
    match part
    case Bare(line) => LineEvents(line)
    case Wrapped(line) => [StartParagraph] + LineEvents(line) + [EndParagraph]
  }

  function PartsEvents(parts: seq<Part>): seq<Event> {
    if parts == [] then [] else PartEvents(parts[0]) + PartsEvents(parts[1..])
  }

  function ItemsEvents(items: seq<seq<Part>>): seq<Event> {
    if items == [] then []
    else ItemsEvents(items[..|items| - 1]) + ([StartItem] + PartsEvents(items[|items| - 1]) + [EndItem])
  }

  function CodeEvents(lines: seq<string>): seq<Event> {
    if lines == [] then [] else CodeEvents(lines[..|lines| - 1]) + [Words(lines[|lines| - 1])]
  }

  function CellsEvents(cells: seq<Line>): seq<Event> {
    if cells == [] then []
    else CellsEvents(cells[..|cells| - 1]) + ([StartCell] + LineEvents(cells[|cells| - 1]) + [Ignored])
  }

  function RowsEvents(rows: seq<seq<Line>>): seq<Event> {
    if rows == [] then []
    else RowsEvents(rows[..|rows| - 1]) + ([Ignored] + CellsEvents(rows[|rows| - 1]) + [EndTableRow])
  }

  function TableEvents(head: seq<Line>, rows: seq<seq<Line>>): seq<Event> {
    [Ignored] + CellsEvents(head) + [EndTableHead] + RowsEvents(rows)
  }

  function BlockEvents(b: Block): seq<Event> {
    match b
    case HeadingBlock(level, line) => [StartHeading(level)] + LineEvents(line) + [EndHeading]
    case ParagraphBlock(line) => [StartParagraph] + LineEvents(line) + [EndParagraph]
    case QuoteBlock(parts) => [StartQuote] + PartsEvents(parts) + [EndQuote]
    case ListBlock(items) => [StartList] + ItemsEvents(items) + [EndList]
    case CodeBlock(lang, lines) => [StartCode(lang)] + CodeEvents(lines) + [EndCode]
    case TableBlock(head, rows) => [StartTable] + TableEvents(head, rows) + [EndTable]
    case RuleBlock => [Rule]
  }

  // --------------------------------------------------------- what blocks read as

  /** The parts of a container run on: nothing separates two paragraphs of a quote. */
  function PartsText(parts: seq<Part>): string {
    if parts == [] then "" else LineText(parts[0].line) + PartsText(parts[1..])
  }

  /** A dash before each item, a line for each. */
  function ItemsText(items: seq<seq<Part>>): string {
    if items == [] then ""
    else
      (if |items| == 1 then "" else ItemsText(items[..|items| - 1]) + "\n") + "- " + PartsText(items[|items| - 1])
  }

  function CodeText(lines: seq<string>): string {
    if lines == [] then "" else CodeText(lines[..|lines| - 1]) + lines[|lines| - 1]
  }

  /** Cells behind `before`: a bar before each that does not start a line. */
  function CellsText(before: string, cells: seq<Line>): string {
    if cells == [] then before
    else
      var so := CellsText(before, cells[..|cells| - 1]);
      so + (if so == "" || EndsWith(so, '\n') then "" else "|") + LineText(cells[|cells| - 1])
  }

  function Ended(text: string): string {
    if EndsWith(text, '\n') then text else text + "\n"
  }

  function RowsText(before: string, rows: seq<seq<Line>>): string {
    if rows == [] then before else Ended(CellsText(RowsText(before, rows[..|rows| - 1]), rows[|rows| - 1]))
  }

  function TableText(head: seq<Line>, rows: seq<seq<Line>>): string {
    var first := CellsText("", head);
    RowsText(if first == "" then "" else first + "\n", rows)
  }

  /** A segment's kind and text for each of these texts. */
  function Tagged(kind: Kind, texts: seq<string>): (out: seq<(Kind, string)>)
    ensures |out| == |texts| && forall i :: 0 <= i < |texts| ==> out[i] == (kind, texts[i])
  {
    if texts == [] then [] else Tagged(kind, texts[..|texts| - 1]) + [(kind, texts[|texts| - 1])]
  }

  function One(kind: Kind, text: string): seq<(Kind, string)> {
    if text == "" then [] else [(kind, text)]
  }

  /** The segments of a block, given the title so far. */
  function BlockShape(b: Block, title: Option<string>): seq<(Kind, string)> {
    match b
    case HeadingBlock(level, line) =>
      var text := Trim(LineText(line));
      if title.None? && level == 1 then One(DocumentTitle, text) + One(Heading, text) else One(Heading, text)
    case ParagraphBlock(line) =>
      var text := Trim(LineText(line));
      if text == "" then [] else Tagged(Paragraph, SplitOversized(text, MAX_SEGMENT_CHARS))
    case QuoteBlock(parts) => One(Blockquote, Trim(PartsText(parts)))
    case ListBlock(items) => One(List, Trim(ItemsText(items)))
    case CodeBlock(lang, lines) =>
      Tagged(CodeFence, SplitOversized(TrimRight(CodeText(lines), IsNewline), MAX_SEGMENT_CHARS))
    case TableBlock(head, rows) => One(Table, Trim(TableText(head, rows)))
    case RuleBlock => []
  }

  /** The first heading of level 1 with text is the title, unless there is one. */
  function NextTitle(b: Block, title: Option<string>): Option<string> {
    if title.None? && b.HeadingBlock? && b.level == 1 && Trim(LineText(b.line)) != "" then Some(Trim(LineText(b.line)))
    else title
  }

  // --------------------------------------------------------- segments' shapes

  function Shape(segments: seq<Segment>): (out: seq<(Kind, string)>)
    ensures |out| == |segments|
    ensures forall i :: 0 <= i < |segments| ==> out[i] == (segments[i].kind, segments[i].text)
  {
    if segments == [] then []
    else
      var last := segments[|segments| - 1];
      Shape(segments[..|segments| - 1]) + [(last.kind, last.text)]
  }

  /** These segments came behind; the title is as it was. */
  ghost predicate Grew(o: Output, post: Output, more: seq<(Kind, string)>) {
    Shape(post.segments) == Shape(o.segments) + more && post.title == o.title
  }

  lemma GrewOnward(o: Output, mid: Output, post: Output, more: seq<(Kind, string)>, further: seq<(Kind, string)>)
    requires Grew(o, mid, more) && Grew(mid, post, further)
    ensures Grew(o, post, more + further)
  {
    AppendAssociates(Shape(o.segments), more, further);
  }

  lemma GrewNothing(o: Output)
    ensures Grew(o, o, [])
  {
    assert Shape(o.segments) + [] == Shape(o.segments);
  }

  lemma PushShape(o: Output, kind: Kind, base: string, text: string)
    ensures Grew(o, Push(o, kind, base, text), [(kind, text)])
  {
    var post := Push(o, kind, base, text);
    assert post.segments[..|o.segments|] == o.segments;
  }

  lemma TaggedNext(kind: Kind, texts: seq<string>, n: nat)
    requires 0 < n <= |texts|
    ensures Tagged(kind, texts[..n]) == Tagged(kind, texts[..n - 1]) + [(kind, texts[n - 1])]
  {
  }

  lemma {:induction false} PiecesShape(o: Output, kind: Kind, base: string, pieces: seq<string>, n: nat)
    requires n <= |pieces|
    ensures Grew(o, PushPieces(o, kind, base, pieces, n), Tagged(kind, pieces[..n]))
  {
    if n == 0 {
      GrewNothing(o);
    } else {
      PiecesShape(o, kind, base, pieces, n - 1);
      var before := PushPieces(o, kind, base, pieces, n - 1);
      PushShape(before, kind, base, pieces[n - 1]);
      TaggedNext(kind, pieces, n);
      GrewOnward(o, before, Push(before, kind, base, pieces[n - 1]), Tagged(kind, pieces[..n - 1]),
                 [(kind, pieces[n - 1])]);
    }
  }

  lemma SplitShape(o: Output, kind: Kind, base: string, text: string)
    ensures Grew(o, PushSplit(o, kind, base, text), Tagged(kind, SplitOversized(text, MAX_SEGMENT_CHARS)))
  {
    var pieces := SplitOversized(text, MAX_SEGMENT_CHARS);
    PiecesShape(o, kind, base, pieces, |pieces|);
    assert pieces[..|pieces|] == pieces;
  }

  // ----------------------------------------------------------------- a block

  /** Between two blocks nothing is open and nothing is gathered. */
  ghost predicate Idle(s: State) {
    s.buf == NO_TEXT && s.mode == TOP_LEVEL.(level := s.mode.level)
  }

  /** The block's segments came out, and nothing of it is left. */
  ghost predicate BlockDone(s: State, post: State, b: Block) {
    && Idle(post) && Shape(post.out.segments) == Shape(s.out.segments) + BlockShape(b, s.out.title)
    && post.out.title == NextTitle(b, s.out.title)
  }

  /** The open block came out with this shape, and nothing of it is left. */
  ghost predicate Done(s: State, post: State, shape: seq<(Kind, string)>) {
    Idle(post) && Grew(s.out, post.out, shape)
  }

  lemma Concludes(s: State, post: State, b: Block)
    requires !b.HeadingBlock? && Done(s, post, BlockShape(b, s.out.title))
    ensures BlockDone(s, post, b)
  {
  }

  lemma RunBlock(s: State, start: Event, body: seq<Event>, end: Event)
    ensures RunEvents(s, [start] + body + [end]) == Handle(RunEvents(Handle(s, start), body), end)
  {
    RunAppend(s, [start] + body, [end]);
    RunFirst(s, start, body);
    RunOne(RunEvents(Handle(s, start), body), end);
  }

  lemma HeadingRuns(s: State, level: nat, line: Line)
    requires Idle(s)
    ensures BlockDone(s, RunEvents(s, BlockEvents(HeadingBlock(level, line))), HeadingBlock(level, line))
  {
    var open := Handle(s, StartHeading(level));
    RunBlock(s, StartHeading(level), LineEvents(line), EndHeading);
    LineRuns(open, line);
    assert "" + LineText(line) == LineText(line);
    var text := Trim(LineText(line));
    if text == "" {
      GrewNothing(s.out);
    } else {
      HeadingPushes(s.out, level, text);
    }
  }

  lemma HeadingPushes(o: Output, level: nat, text: string)
    requires text != ""
    ensures var post := PushHeading(o, level, text);
            && Shape(post.segments)
               == Shape(o.segments) + (if o.title.None? && level == 1 then One(DocumentTitle, text) + One(Heading, text)
                                       else One(Heading, text))
            && post.title == if o.title.None? && level == 1 then Some(text) else o.title
  {
    var slug := Slug(text);
    var stack := Retain(o.stack, level) + [(level, slug)];
    var a := o.(stack := stack, headings := o.headings + [(level, slug)]);
    var titled := a.(title := Some(text));
    PushShape(titled, DocumentTitle, "title:" + slug, text);
    var b := if a.title.None? && level == 1 then Push(titled, DocumentTitle, "title:" + slug, text) else a;
    PushShape(b, Heading, "heading:" + Path(stack), text);
    AppendAssociates(Shape(o.segments), [(DocumentTitle, text)], [(Heading, text)]);
  }

  lemma ParagraphRuns(s: State, line: Line)
    requires Idle(s)
    ensures BlockDone(s, RunEvents(s, BlockEvents(ParagraphBlock(line))), ParagraphBlock(line))
  {
    RunBlock(s, StartParagraph, LineEvents(line), EndParagraph);
    ParagraphStarts(s);
    LineRuns(Writing(s, ""), line);
    assert With(Writing(s, ""), LineText(line)) == Writing(s, LineText(line));
    ParagraphEnds(s, LineText(line));
  }

  function Writing(s: State, text: string): State {
    s.(mode := s.mode.(inParagraph := true), buf := s.buf.(text := text))
  }

  lemma ParagraphStarts(s: State)
    requires Idle(s)
    ensures Handle(s, StartParagraph) == Writing(s, "")
  {
  }

  lemma ParagraphEnds(s: State, text: string)
    requires Idle(s)
    ensures Done(s, Handle(Writing(s, text), EndParagraph),
                 if Trim(text) == "" then [] else Tagged(Paragraph, SplitOversized(Trim(text), MAX_SEGMENT_CHARS)))
  {
    GrewNothing(s.out);
    SplitShape(s.out, Paragraph, "paragraph:" + Decimal(s.seen.paragraphs + 1), Trim(text));
  }

  // ------------------------------------------------------------- containers

  /** Where paragraph tags count for nothing. */
  ghost predicate InContainer(s: State) {
    && s.buf.links == [] && !s.mode.inCode && !s.mode.inParagraph && !s.mode.inHeading
    && (s.mode.inList || s.mode.inQuote || s.mode.inTable)
  }

  lemma PartRuns(s: State, part: Part)
    requires InContainer(s)
    ensures RunEvents(s, PartEvents(part)) == With(s, LineText(part.line))
  {
    LineRuns(s, part.line);
    if part.Wrapped? {
      RunBlock(s, StartParagraph, LineEvents(part.line), EndParagraph);
    }
  }

  lemma {:induction false} PartsRun(s: State, parts: seq<Part>)
    requires InContainer(s)
    ensures RunEvents(s, PartsEvents(parts)) == With(s, PartsText(parts))
    decreases parts
  {
    if parts == [] {
      WithNothing(s);
    } else {
      RunAppend(s, PartEvents(parts[0]), PartsEvents(parts[1..]));
      PartRuns(s, parts[0]);
      PartsRun(With(s, LineText(parts[0].line)), parts[1..]);
      WithTwice(s, LineText(parts[0].line), PartsText(parts[1..]));
    }
  }

  function Quoting(s: State, text: string): State {
    s.(mode := s.mode.(inQuote := true), buf := s.buf.(quote := text))
  }

  lemma QuoteStarts(s: State)
    requires Idle(s)
    ensures Handle(s, StartQuote) == Quoting(s, "")
  {
  }

  lemma QuoteHolds(s: State, text: string)
    requires Idle(s)
    ensures With(Quoting(s, ""), text) == Quoting(s, text)
  {
    assert "" + text == text;
  }

  lemma QuoteEnds(s: State, text: string)
    requires Idle(s)
    ensures Done(s, Handle(Quoting(s, text), EndQuote), One(Blockquote, Trim(text)))
  {
    GrewNothing(s.out);
    PushShape(s.out, Blockquote, "blockquote:" + Decimal(s.seen.quotes + 1), Trim(text));
  }

  lemma QuoteRuns(s: State, parts: seq<Part>)
    requires Idle(s)
    ensures BlockDone(s, RunEvents(s, BlockEvents(QuoteBlock(parts))), QuoteBlock(parts))
  {
    RunBlock(s, StartQuote, PartsEvents(parts), EndQuote);
    QuoteStarts(s);
    PartsRun(Quoting(s, ""), parts);
    QuoteHolds(s, PartsText(parts));
    QuoteEnds(s, PartsText(parts));
  }

  function Listing(s: State, text: string): State {
    s.(mode := s.mode.(inList := true), buf := s.buf.(list := text))
  }

  function Itemizing(s: State, text: string): State {
    s.(mode := s.mode.(inList := true, inItem := true), buf := s.buf.(list := text))
  }

  lemma ItemStarts(s: State, text: string)
    requires Idle(s)
    ensures Handle(Listing(s, text), StartItem) == Itemizing(s, (if text == "" then "" else text + "\n") + "- ")
  {
  }

  lemma ItemHolds(s: State, text: string, more: string)
    requires Idle(s)
    ensures With(Itemizing(s, text), more) == Itemizing(s, text + more)
  {
  }

  lemma ItemEnds(s: State, text: string)
    requires Idle(s)
    ensures Handle(Itemizing(s, text), EndItem) == Listing(s, text)
  {
  }

  lemma ItemRuns(s: State, text: string, item: seq<Part>)
    requires Idle(s)
    ensures RunEvents(Listing(s, text), [StartItem] + PartsEvents(item) + [EndItem])
            == Listing(s, (if text == "" then "" else text + "\n") + "- " + PartsText(item))
  {
    var dash := (if text == "" then "" else text + "\n") + "- ";
    RunBlock(Listing(s, text), StartItem, PartsEvents(item), EndItem);
    ItemStarts(s, text);
    PartsRun(Itemizing(s, dash), item);
    ItemHolds(s, dash, PartsText(item));
    ItemEnds(s, dash + PartsText(item));
  }

  lemma {:induction false} ItemsRun(s: State, items: seq<seq<Part>>)
    requires Idle(s)
    ensures RunEvents(Listing(s, ""), ItemsEvents(items)) == Listing(s, ItemsText(items))
    ensures items != [] ==> ItemsText(items) != ""
  {
    if items != [] {
      var init, last := items[..|items| - 1], items[|items| - 1];
      ItemsRun(s, init);
      RunAppend(Listing(s, ""), ItemsEvents(init), [StartItem] + PartsEvents(last) + [EndItem]);
      ItemRuns(s, ItemsText(init), last);
    }
  }

  lemma ListRuns(s: State, items: seq<seq<Part>>)
    requires Idle(s)
    ensures BlockDone(s, RunEvents(s, BlockEvents(ListBlock(items))), ListBlock(items))
  {
    RunBlock(s, StartList, ItemsEvents(items), EndList);
    ListStarts(s);
    ItemsRun(s, items);
    ListEnds(s, ItemsText(items));
  }

  lemma ListStarts(s: State)
    requires Idle(s)
    ensures Handle(s, StartList) == Listing(s, "")
  {
  }

  lemma ListEnds(s: State, text: string)
    requires Idle(s)
    ensures Done(s, Handle(Listing(s, text), EndList), One(List, Trim(text)))
  {
    GrewNothing(s.out);
    PushShape(s.out, List, "list:" + Decimal(s.seen.lists + 1), Trim(text));
  }

  function Coding(s: State, lang: string, code: string): State {
    s.(mode := s.mode.(inCode := true), buf := s.buf.(code := code, lang := lang))
  }

  lemma {:induction false} LinesRun(s: State, lang: string, lines: seq<string>)
    ensures RunEvents(Coding(s, lang, ""), CodeEvents(lines)) == Coding(s, lang, CodeText(lines))
  {
    if lines != [] {
      var init := lines[..|lines| - 1];
      LinesRun(s, lang, init);
      RunAppend(Coding(s, lang, ""), CodeEvents(init), [Words(lines[|lines| - 1])]);
      RunOne(Coding(s, lang, CodeText(init)), Words(lines[|lines| - 1]));
    }
  }

  lemma CodeRuns(s: State, lang: string, lines: seq<string>)
    requires Idle(s)
    ensures BlockDone(s, RunEvents(s, BlockEvents(CodeBlock(lang, lines))), CodeBlock(lang, lines))
  {
    RunBlock(s, StartCode(lang), CodeEvents(lines), EndCode);
    CodeStarts(s, lang);
    LinesRun(s, lang, lines);
    CodeEnds(s, lang, CodeText(lines));
  }

  lemma CodeStarts(s: State, lang: string)
    requires Idle(s)
    ensures Handle(s, StartCode(lang)) == Coding(s, lang, "")
  {
  }

  lemma CodeLeaves(s: State, lang: string, code: string)
    requires Idle(s)
    ensures var post := Handle(Coding(s, lang, code), EndCode);
            && Idle(post)
            && post.out == PushSplit(s.out, CodeFence,
                                     "code-fence:" + CodeLang(lang) + ":" + Decimal(s.seen.codes + 1),
                                     TrimRight(code, IsNewline))
  {
  }

  lemma CodeEnds(s: State, lang: string, code: string)
    requires Idle(s)
    ensures Done(s, Handle(Coding(s, lang, code), EndCode),
                 Tagged(CodeFence, SplitOversized(TrimRight(code, IsNewline), MAX_SEGMENT_CHARS)))
  {
    CodeLeaves(s, lang, code);
    SplitShape(s.out, CodeFence, "code-fence:" + CodeLang(lang) + ":" + Decimal(s.seen.codes + 1),
               TrimRight(code, IsNewline));
  }

  function Tabling(s: State, text: string): State {
    s.(mode := s.mode.(inTable := true), buf := s.buf.(table := text))
  }

  lemma CellStarts(s: State, text: string)
    requires Idle(s)
    ensures Handle(Tabling(s, text), StartCell)
            == Tabling(s, text + if text == "" || EndsWith(text, '\n') then "" else "|")
  {
    assert text + "" == text;
  }

  lemma CellHolds(s: State, text: string, more: string)
    requires Idle(s)
    ensures With(Tabling(s, text), more) == Tabling(s, text + more)
  {
  }

  lemma HeadEnds(s: State, text: string)
    ensures Handle(Tabling(s, text), EndTableHead) == Tabling(s, if text == "" then "" else text + "\n")
  {
  }

  lemma RowEnds(s: State, text: string)
    ensures Handle(Tabling(s, text), EndTableRow) == Tabling(s, Ended(text))
  {
  }

  lemma CellRuns(s: State, text: string, cell: Line)
    requires Idle(s)
    ensures RunEvents(Tabling(s, text), [StartCell] + LineEvents(cell) + [Ignored])
            == Tabling(s, text + (if text == "" || EndsWith(text, '\n') then "" else "|") + LineText(cell))
  {
    var barred := text + if text == "" || EndsWith(text, '\n') then "" else "|";
    RunBlock(Tabling(s, text), StartCell, LineEvents(cell), Ignored);
    CellStarts(s, text);
    LineRuns(Tabling(s, barred), cell);
    CellHolds(s, barred, LineText(cell));
  }

  lemma {:induction false} CellsRun(s: State, before: string, cells: seq<Line>)
    requires Idle(s)
    ensures RunEvents(Tabling(s, before), CellsEvents(cells)) == Tabling(s, CellsText(before, cells))
  {
    if cells != [] {
      var init, last := cells[..|cells| - 1], cells[|cells| - 1];
      CellsRun(s, before, init);
      RunAppend(Tabling(s, before), CellsEvents(init), [StartCell] + LineEvents(last) + [Ignored]);
      CellRuns(s, CellsText(before, init), last);
    }
  }

  lemma RowRuns(s: State, before: string, row: seq<Line>)
    requires Idle(s)
    ensures RunEvents(Tabling(s, before), [Ignored] + CellsEvents(row) + [EndTableRow])
            == Tabling(s, Ended(CellsText(before, row)))
  {
    RunBlock(Tabling(s, before), Ignored, CellsEvents(row), EndTableRow);
    CellsRun(s, before, row);
    RowEnds(s, CellsText(before, row));
  }

  lemma {:induction false} RowsRun(s: State, before: string, rows: seq<seq<Line>>)
    requires Idle(s)
    ensures RunEvents(Tabling(s, before), RowsEvents(rows)) == Tabling(s, RowsText(before, rows))
  {
    if rows != [] {
      var init, last := rows[..|rows| - 1], rows[|rows| - 1];
      RowsRun(s, before, init);
      RunAppend(Tabling(s, before), RowsEvents(init), [Ignored] + CellsEvents(last) + [EndTableRow]);
      RowRuns(s, RowsText(before, init), last);
    }
  }

  lemma TableBodyRuns(s: State, head: seq<Line>, rows: seq<seq<Line>>)
    requires Idle(s)
    ensures RunEvents(Tabling(s, ""), TableEvents(head, rows)) == Tabling(s, TableText(head, rows))
  {
    var first := CellsText("", head);
    RunAppend(Tabling(s, ""), [Ignored] + CellsEvents(head) + [EndTableHead], RowsEvents(rows));
    RunBlock(Tabling(s, ""), Ignored, CellsEvents(head), EndTableHead);
    CellsRun(s, "", head);
    var begun := if first == "" then "" else first + "\n";
    HeadEnds(s, first);
    RowsRun(s, begun, rows);
  }

  lemma TableReaches(s: State, head: seq<Line>, rows: seq<seq<Line>>)
    requires Idle(s)
    ensures RunEvents(s, [StartTable] + TableEvents(head, rows) + [EndTable])
            == Handle(Tabling(s, TableText(head, rows)), EndTable)
  {
    RunBlock(s, StartTable, TableEvents(head, rows), EndTable);
    TableStarts(s);
    TableBodyRuns(s, head, rows);
  }

  lemma TableRuns(s: State, head: seq<Line>, rows: seq<seq<Line>>)
    requires Idle(s)
    ensures BlockDone(s, RunEvents(s, BlockEvents(TableBlock(head, rows))), TableBlock(head, rows))
  {
    TableReaches(s, head, rows);
    TableEnds(s, TableText(head, rows));
    Concludes(s, Handle(Tabling(s, TableText(head, rows)), EndTable), TableBlock(head, rows));
  }

  lemma TableStarts(s: State)
    requires Idle(s)
    ensures Handle(s, StartTable) == Tabling(s, "")
  {
  }

  lemma TableEnds(s: State, text: string)
    requires Idle(s)
    ensures Done(s, Handle(Tabling(s, text), EndTable), One(Table, Trim(text)))
  {
    GrewNothing(s.out);
    PushShape(s.out, Table, "table:" + Decimal(s.seen.tables + 1), Trim(text));
  }

  lemma BlockRuns(s: State, b: Block)
    requires Idle(s)
    ensures BlockDone(s, RunEvents(s, BlockEvents(b)), b)
  {
    match b
    case HeadingBlock(level, line) => HeadingRuns(s, level, line);
    case ParagraphBlock(line) => ParagraphRuns(s, line);
    case QuoteBlock(parts) => QuoteRuns(s, parts);
    case ListBlock(items) => ListRuns(s, items);
    case CodeBlock(lang, lines) => CodeRuns(s, lang, lines);
    case TableBlock(head, rows) => TableRuns(s, head, rows);
    case RuleBlock =>
      RunOne(s, Rule);
      GrewNothing(s.out);
  }

  // --------------------------------------------------------------- a document

  function DocumentEvents(blocks: seq<Block>): seq<Event> {
    if blocks == [] then [] else DocumentEvents(blocks[..|blocks| - 1]) + BlockEvents(blocks[|blocks| - 1])
  }

  function TitleAfter(blocks: seq<Block>, title: Option<string>): Option<string> {
    if blocks == [] then title else NextTitle(blocks[|blocks| - 1], TitleAfter(blocks[..|blocks| - 1], title))
  }

  function DocumentShape(blocks: seq<Block>, title: Option<string>): seq<(Kind, string)> {
    if blocks == [] then []
    else
      var init := blocks[..|blocks| - 1];
      DocumentShape(init, title) + BlockShape(blocks[|blocks| - 1], TitleAfter(init, title))
  }

  lemma {:induction false} BlocksRun(s: State, blocks: seq<Block>)
    requires Idle(s)
    ensures var post := RunEvents(s, DocumentEvents(blocks));
            && Idle(post) && Shape(post.out.segments) == Shape(s.out.segments) + DocumentShape(blocks, s.out.title)
            && post.out.title == TitleAfter(blocks, s.out.title)
  {
    if blocks == [] {
      GrewNothing(s.out);
    } else {
      var init, last := blocks[..|blocks| - 1], blocks[|blocks| - 1];
      BlocksRun(s, init);
      RunAppend(s, DocumentEvents(init), BlockEvents(last));
      var mid := RunEvents(s, DocumentEvents(init));
      BlockRuns(mid, last);
      AppendAssociates(Shape(s.out.segments), DocumentShape(init, s.out.title), BlockShape(last, mid.out.title));
    }
  }

  /** Front matter, then the blocks; or all of the body when that gives nothing. */
  function Expected(front: Option<string>, frontTitle: Option<string>, body: string, blocks: seq<Block>)
    : seq<(Kind, string)>
  {
    var all := (if front.Some? then [(Frontmatter, front.value)] else [])
               + DocumentShape(blocks, if front.Some? then frontTitle else None);
    if all == [] then One(Paragraph, Trim(body)) else all
  }

  lemma BeginShape(front: Option<string>, frontTitle: Option<string>)
    ensures var o := Begin(front, frontTitle);
            && Shape(o.segments) == (if front.Some? then [(Frontmatter, front.value)] else [])
            && o.title == if front.Some? then frontTitle else None
  {
    if front.Some? {
      PushShape(NO_OUTPUT.(title := frontTitle), Frontmatter, "frontmatter", front.value);
    }
  }

  lemma FallbackShape(o: Output, body: string)
    ensures var post := Fallback(o, body);
            && Shape(post.segments)
               == (if Shape(o.segments) == [] then One(Paragraph, Trim(body)) else Shape(o.segments))
            && post.title == o.title
  {
    PushShape(o, Paragraph, "paragraph:1", Trim(body));
  }

  /**
   A document's segments have, in order, exactly the kinds and texts of its blocks:
   nothing is lost, nothing of one block gets into another's segment.
   */
  lemma DocumentTexts(front: Option<string>, frontTitle: Option<string>, body: string, blocks: seq<Block>)
    ensures var o := ParseEvents(front, frontTitle, body, DocumentEvents(blocks));
            && Shape(o.segments) == Expected(front, frontTitle, body, blocks)
            && o.title == TitleAfter(blocks, if front.Some? then frontTitle else None)
  {
    var start := INITIAL.(out := Begin(front, frontTitle));
    BlocksRun(start, blocks);
    BeginShape(front, frontTitle);
    FallbackShape(RunEvents(start, DocumentEvents(blocks)).out, body);
  }

  // ----------------------------------------------------- paragraphs and tables

  /** The pieces of a paragraph, put together again. */
  lemma ParagraphReadsBack(line: Line, title: Option<string>)
    ensures var shape := BlockShape(ParagraphBlock(line), title);
            && Concat(Texts(shape)) == Trim(LineText(line))
            && forall i :: 0 <= i < |shape| ==> shape[i].0 == Paragraph && |shape[i].1| <= MAX_SEGMENT_CHARS
  {
    var text := Trim(LineText(line));
    SplitIsLossless(text, MAX_SEGMENT_CHARS);
    TaggedTexts(Paragraph, SplitOversized(text, MAX_SEGMENT_CHARS));
  }

  function Texts(shape: seq<(Kind, string)>): (out: seq<string>)
    ensures |out| == |shape| && forall i :: 0 <= i < |shape| ==> out[i] == shape[i].1
  {
    if shape == [] then [] else Texts(shape[..|shape| - 1]) + [shape[|shape| - 1].1]
  }

  lemma TaggedTexts(kind: Kind, texts: seq<string>)
    ensures Texts(Tagged(kind, texts)) == texts
  {
  }

  function LineTexts(cells: seq<Line>): (out: seq<string>)
    ensures |out| == |cells| && forall i :: 0 <= i < |cells| ==> out[i] == LineText(cells[i])
  {
    if cells == [] then [] else LineTexts(cells[..|cells| - 1]) + [LineText(cells[|cells| - 1])]
  }

  /** Text that does not end a line. */
  predicate Inside(text: string) {
    text != "" && !EndsWith(text, '\n')
  }

  predicate AtStart(text: string) {
    text == "" || EndsWith(text, '\n')
  }

  /** A row with text in each cell. */
  predicate Filled(cells: seq<Line>) {
    cells != [] && forall i :: 0 <= i < |cells| ==> Inside(LineText(cells[i]))
  }

  function RowText(cells: seq<Line>): string {
    Join(LineTexts(cells), "|")
  }

  function RowLines(rows: seq<seq<Line>>): string {
    if rows == [] then "" else RowLines(rows[..|rows| - 1]) + RowText(rows[|rows| - 1]) + "\n"
  }

  lemma NextCell(so: string, before: string, row: string, last: string)
    requires so == before + row && Inside(last) && Inside(so)
    ensures so + "|" + last == before + (row + "|" + last) && Inside(so + "|" + last)
  {
  }

  lemma FirstCell(before: string, last: string)
    requires Inside(last)
    ensures Inside(before + "" + last) && before + "" + last == before + last
  {
  }

  lemma OneCell(cells: seq<Line>)
    requires |cells| == 1
    ensures RowText(cells) == LineText(cells[0])
  {
    assert LineTexts(cells) == [LineText(cells[0])];
  }

  lemma MoreCells(cells: seq<Line>)
    requires |cells| > 1
    ensures RowText(cells) == RowText(cells[..|cells| - 1]) + "|" + LineText(cells[|cells| - 1])
  {
    JoinSnoc(LineTexts(cells[..|cells| - 1]), LineText(cells[|cells| - 1]), "|");
  }

  lemma {:induction false} CellsJoin(before: string, cells: seq<Line>)
    requires Filled(cells) && AtStart(before)
    ensures CellsText(before, cells) == before + RowText(cells) && Inside(CellsText(before, cells))
  {
    var init, last := cells[..|cells| - 1], LineText(cells[|cells| - 1]);
    assert Inside(last);
    if init == [] {
      assert CellsText(before, init) == before;
      FirstCell(before, last);
      OneCell(cells);
    } else {
      assert forall i :: 0 <= i < |init| ==> init[i] == cells[i];
      CellsJoin(before, init);
      NextCell(CellsText(before, init), before, RowText(init), last);
      MoreCells(cells);
    }
  }

  lemma NextRow(so: string, before: string, lines: string, row: string)
    requires so == before + lines && Inside(so + row)
    ensures Ended(so + row) == before + (lines + row + "\n") && AtStart(Ended(so + row))
  {
  }

  lemma {:induction false} RowsJoin(before: string, rows: seq<seq<Line>>)
    requires AtStart(before) && forall i :: 0 <= i < |rows| ==> Filled(rows[i])
    ensures RowsText(before, rows) == before + RowLines(rows) && AtStart(RowsText(before, rows))
  {
    if rows == [] {
      assert before + "" == before;
    } else {
      var init, last := rows[..|rows| - 1], rows[|rows| - 1];
      RowsJoin(before, init);
      CellsJoin(RowsText(before, init), last);
      NextRow(RowsText(before, init), before, RowLines(init), RowText(last));
    }
  }

  /** A table without empty cells reads as its rows, cells between bars, each on a line of its own. */
  lemma FilledTableText(head: seq<Line>, rows: seq<seq<Line>>)
    requires Filled(head) && forall i :: 0 <= i < |rows| ==> Filled(rows[i])
    ensures TableText(head, rows) == RowText(head) + "\n" + RowLines(rows)
  {
    CellsJoin("", head);
    assert "" + RowText(head) == RowText(head);
    assert AtStart(RowText(head) + "\n");
    RowsJoin(RowText(head) + "\n", rows);
  }
}
