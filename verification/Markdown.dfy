/** parsing/markdown.rs: how an event stream becomes segments, as functions on the parser's state. */
module Markdown {
  import opened Prelude
  import opened TextTools

  const MAX_SEGMENT_CHARS: nat := 8192

  datatype Kind = DocumentTitle | Heading | Paragraph | Blockquote | List | CodeFence | Table | Frontmatter

  datatype Segment = Segment(kind: Kind, anchor: string, ordinal: nat, text: string)

  /** A heading's level and slug. */
  type Entry = (nat, string)

  /** The events of the tokenizer that the parser reacts to; the rest are `Ignored`. */
  datatype Event =
    | StartHeading(level: nat) | StartParagraph | StartQuote | StartList | StartItem | StartCode(lang: string)
    | StartTable | StartCell | StartLink(url: string)
    | EndHeading | EndParagraph | EndQuote | EndList | EndItem | EndCode | EndTable | EndTableHead | EndTableRow
    | EndLink
    | Words(value: string) | Break | Rule | Ignored

  /** What has been produced.  `headings` is no field of the source: it remembers every heading finished so far. */
  datatype Output = Output(segments: seq<Segment>, title: Option<string>, ordinal: nat, anchors: map<string, nat>,
                           stack: seq<Entry>, headings: seq<Entry>)

  /** What is being gathered; a link is its text so far and its target. */
  datatype Buffers = Buffers(text: string, quote: string, list: string, code: string, lang: string, table: string,
                             links: seq<(string, string)>)

  /** Where in the document the next event falls. */
  datatype Mode = Mode(inHeading: bool, level: nat, inParagraph: bool, inQuote: bool, inList: bool, inItem: bool,
                       inCode: bool, inTable: bool)

  datatype Counters = Counters(paragraphs: nat, lists: nat, quotes: nat, codes: nat, tables: nat, warnings: nat)

  /** `MarkdownParseState`, its fields grouped. */
  datatype State = State(out: Output, buf: Buffers, mode: Mode, seen: Counters)

  const NO_OUTPUT := Output([], None, 0, map[], [], [])
  const NO_TEXT := Buffers("", "", "", "", "", "", [])
  const TOP_LEVEL := Mode(false, 1, false, false, false, false, false, false)
  const NONE_SEEN := Counters(0, 0, 0, 0, 0, 0)
  const INITIAL := State(NO_OUTPUT, NO_TEXT, TOP_LEVEL, NONE_SEEN)

  // ------------------------------------------------------------------ slugs

  predicate IsAlphanumeric(c: char) {
    'a' <= c <= 'z' || 'A' <= c <= 'Z' || '0' <= c <= '9'
  }

  function Lower(c: char): char {
    if 'A' <= c <= 'Z' then (c as int + 32) as char else c
  }

  /** The slug of the first `n` characters, before its trailing dash goes. */
  function SlugSoFar(s: string, n: nat): string
    requires n <= |s|
  {
    if n == 0 then ""
    else
      var before, c := SlugSoFar(s, n - 1), s[n - 1];
      if IsAlphanumeric(c) then before + [Lower(c)]
      else if before != "" && before[|before| - 1] != '-' then before + "-"
      else before
  }

  function Slug(s: string): string {
    var slug := TrimRight(SlugSoFar(s, |s|), c => c == '-');
    if slug == "" then "section" else slug
  }

  // ----------------------------------------------------------------- pieces

  /** `rposition` of a break among the characters from `start` below `end`; one past it, or `start`. */
  function LastBreak(text: string, start: nat, end: nat): (k: nat)
    requires start <= end <= |text|
    ensures start <= k <= end
    ensures k > start ==> text[k - 1] == '\n' || text[k - 1] == ' '
    ensures forall i :: k <= i < end ==> text[i] != '\n' && text[i] != ' '
    decreases end - start
  {
    if end == start then start
    else if text[end - 1] == '\n' || text[end - 1] == ' ' then end
    else LastBreak(text, start, end - 1)
  }

  /** Where the piece starting at `start` ends. */
  function PieceEnd(text: string, start: nat, max: nat): (end: nat)
    requires start < |text| && max > 0
    ensures start < end <= |text| && end - start <= max
  {
    if start + max >= |text| then |text|
    else
      var k := LastBreak(text, start, start + max);
      if k > start then k else start + max
  }

  function Pieces(text: string, start: nat, max: nat): seq<string>
    requires start <= |text| && max > 0
    decreases |text| - start
  {
    if start == |text| then []
    else
      var end := PieceEnd(text, start, max);
      [text[start..end]] + Pieces(text, end, max)
  }

  /** `max_chars.max(1)`: a limit of no characters is taken as one. */
  function PieceLimit(max: nat): (limit: nat)
    ensures limit > 0
  {
    if max == 0 then 1 else max
  }

  /** `split_oversized`. */
  function SplitOversized(text: string, max: nat): seq<string> {
    if |text| <= PieceLimit(max) then [text] else Pieces(text, 0, PieceLimit(max))
  }

  // ----------------------------------------------------------------- pushing

  /** The anchor of the `count`-th segment with this base. */
  function Anchor(base: string, count: nat): string {
    if count == 1 then base else base + "~" + Decimal(count)
  }

  /** `push`. */
  function Push(o: Output, kind: Kind, base: string, text: string): Output {
    var count := (if base in o.anchors then o.anchors[base] else 0) + 1;
    o.(segments := o.segments + [Segment(kind, Anchor(base, count), o.ordinal, text)],
       anchors := o.anchors[base := count],
       ordinal := o.ordinal + 1)
  }

  function PushPieces(o: Output, kind: Kind, base: string, pieces: seq<string>, n: nat): Output
    requires n <= |pieces|
  {
    if n == 0 then o else Push(PushPieces(o, kind, base, pieces, n - 1), kind, base, pieces[n - 1])
  }

  /** `retain(|level| level < new)`. */
  function Retain(stack: seq<Entry>, level: nat): seq<Entry> {
    if stack == [] then []
    else Retain(stack[..|stack| - 1], level) + if stack[|stack| - 1].0 < level then [stack[|stack| - 1]] else []
  }

  function Slugs(stack: seq<Entry>): seq<string> {
    if stack == [] then [] else [stack[0].1] + Slugs(stack[1..])
  }

  function Path(stack: seq<Entry>): string {
    Join(Slugs(stack), "/")
  }

  // -------------------------------------------------------------- end of tags

  /** The segments of a heading with text. */
  function PushHeading(o: Output, level: nat, text: string): Output {
    var slug := Slug(text);
    var stack := Retain(o.stack, level) + [(level, slug)];
    var a := o.(stack := stack, headings := o.headings + [(level, slug)]);
    var b := if a.title.None? && level == 1
             then Push(a.(title := Some(text)), DocumentTitle, "title:" + slug, text) else a;
    Push(b, Heading, "heading:" + Path(stack), text)
  }

  function FinishHeading(s: State): State {
    var text := Trim(s.buf.text);
    s.(mode := s.mode.(inHeading := false), buf := s.buf.(text := ""),
       out := if text == "" then s.out else PushHeading(s.out, s.mode.level, text))
  }

  /** A paragraph or code block, in pieces. */
  function PushSplit(o: Output, kind: Kind, base: string, text: string): Output {
    var pieces := SplitOversized(text, MAX_SEGMENT_CHARS);
    PushPieces(o, kind, base, pieces, |pieces|)
  }

  function FinishParagraph(s: State): State {
    var st := s.(mode := s.mode.(inParagraph := false), buf := s.buf.(text := ""));
    var text, n := Trim(s.buf.text), s.seen.paragraphs + 1;
    if text == "" then st
    else st.(seen := s.seen.(paragraphs := n), out := PushSplit(s.out, Paragraph, "paragraph:" + Decimal(n), text))
  }

  function FinishQuote(s: State): State {
    var st := s.(mode := s.mode.(inQuote := false), buf := s.buf.(quote := ""));
    var text, n := Trim(s.buf.quote), s.seen.quotes + 1;
    if text == "" then st
    else st.(seen := s.seen.(quotes := n), out := Push(s.out, Blockquote, "blockquote:" + Decimal(n), text))
  }

  function FinishList(s: State): State {
    var st := s.(mode := s.mode.(inList := false), buf := s.buf.(list := ""));
    var text, n := Trim(s.buf.list), s.seen.lists + 1;
    if text == "" then st
    else st.(seen := s.seen.(lists := n), out := Push(s.out, List, "list:" + Decimal(n), text))
  }

  function CodeLang(lang: string): string {
    if lang == "" then "text" else Slug(lang)
  }

  /** An empty code block still makes a segment. */
  function FinishCode(s: State): State {
    var n := s.seen.codes + 1;
    var base := "code-fence:" + CodeLang(s.buf.lang) + ":" + Decimal(n);
    State(PushSplit(s.out, CodeFence, base, TrimRight(s.buf.code, IsNewline)),
          s.buf.(code := "", lang := ""), s.mode.(inCode := false), s.seen.(codes := n))
  }

  function FinishTable(s: State): State {
    var st := s.(mode := s.mode.(inTable := false), buf := s.buf.(table := ""));
    var text, n := Trim(s.buf.table), s.seen.tables + 1;
    if text == "" then st
    else st.(seen := s.seen.(tables := n), out := Push(s.out, Table, "table:" + Decimal(n), text))
  }

  // ------------------------------------------------------------------ events

  function AppendText(b: Buffers, m: Mode, value: string): Buffers {
    if m.inHeading || m.inParagraph then b.(text := b.text + value)
    else if m.inQuote then b.(quote := b.quote + value)
    else if m.inItem then b.(list := b.list + value)
    else if m.inTable then b.(table := b.table + value)
    else b
  }

  function TextOrCode(b: Buffers, m: Mode, value: string): Buffers {
    if m.inCode then b.(code := b.code + value)
    else if b.links != [] then
      var last := b.links[|b.links| - 1];
      b.(links := b.links[..|b.links| - 1] + [(last.0 + value, last.1)])
    else AppendText(b, m, value)
  }

  predicate IsNewline(c: char) {
    c == '\n'
  }

  predicate EndsWith(s: string, c: char) {
    s != "" && s[|s| - 1] == c
  }

  function StartTag(s: State, e: Event): State {
    match e
    case StartHeading(level) => s.(mode := s.mode.(inHeading := true, level := level), buf := s.buf.(text := ""))
    case StartParagraph =>
      if !s.mode.inList && !s.mode.inQuote && !s.mode.inTable
      then s.(mode := s.mode.(inParagraph := true), buf := s.buf.(text := "")) else s
    case StartQuote => s.(mode := s.mode.(inQuote := true), buf := s.buf.(quote := ""))
    case StartList => s.(mode := s.mode.(inList := true))
    case StartItem =>
      s.(mode := s.mode.(inItem := true),
          buf := s.buf.(list := (if s.buf.list == "" then "" else s.buf.list + "\n") + "- "))
    case StartCode(lang) => s.(mode := s.mode.(inCode := true), buf := s.buf.(code := "", lang := lang))
    case StartTable => s.(mode := s.mode.(inTable := true), buf := s.buf.(table := ""))
    case StartCell =>
      if s.mode.inTable && s.buf.table != "" && !EndsWith(s.buf.table, '\n')
      then s.(buf := s.buf.(table := s.buf.table + "|")) else s
    case StartLink(url) => s.(buf := s.buf.(links := s.buf.links + [("", url)]))
    case _ => s
  }

  function EndLinkTag(b: Buffers, m: Mode): Buffers {
    if b.links == [] then b
    else
      var (shown, url) := b.links[|b.links| - 1];
      AppendText(b.(links := b.links[..|b.links| - 1]), m, if shown == "" then url else shown + " (" + url + ")")
  }

  function EndTag(s: State, e: Event): State {
    match e
    case EndHeading => FinishHeading(s)
    case EndParagraph => if s.mode.inParagraph then FinishParagraph(s) else s
    case EndQuote => FinishQuote(s)
    case EndList => FinishList(s)
    case EndItem => s.(mode := s.mode.(inItem := false))
    case EndCode => FinishCode(s)
    case EndTable => FinishTable(s)
    case EndTableHead =>
      if s.mode.inTable && s.buf.table != "" then s.(buf := s.buf.(table := s.buf.table + "\n")) else s
    case EndTableRow =>
      if s.mode.inTable && !EndsWith(s.buf.table, '\n') then s.(buf := s.buf.(table := s.buf.table + "\n")) else s
    case EndLink => s.(buf := EndLinkTag(s.buf, s.mode))
    case _ => s
  }

  predicate Ends(e: Event) {
    e.EndHeading? || e.EndParagraph? || e.EndQuote? || e.EndList? || e.EndItem? || e.EndCode? || e.EndTable?
    || e.EndTableHead? || e.EndTableRow? || e.EndLink?
  }

  /** `handle_event`. */
  function Handle(s: State, e: Event): State {
    match e
    case Words(value) => s.(buf := TextOrCode(s.buf, s.mode, value))
    case Break => s.(buf := AppendText(s.buf, s.mode, " "))
    case Rule => s.(seen := s.seen.(warnings := s.seen.warnings + 1))
    case Ignored => s
    case _ => if Ends(e) then EndTag(s, e) else StartTag(s, e)
  }

  function HandleAll(s: State, events: seq<Event>, n: nat): State
    requires n <= |events|
  {
    if n == 0 then s else Handle(HandleAll(s, events, n - 1), events[n - 1])
  }

  /** The output before the first event: front matter, when there is any, is the first segment. */
  function Begin(front: Option<string>, frontTitle: Option<string>): Output {
    if front.None? then NO_OUTPUT else Push(NO_OUTPUT.(title := frontTitle), Frontmatter, "frontmatter", front.value)
  }

  /** A document that gave no segment becomes one paragraph. */
  function Fallback(o: Output, body: string): Output {
    var trimmed := Trim(body);
    if o.segments == [] && trimmed != "" then Push(o, Paragraph, "paragraph:1", trimmed) else o
  }

  /** `parse_markdown`, given the front matter, its title and the tokenizer's events for the body. */
  function ParseEvents(front: Option<string>, frontTitle: Option<string>, body: string, events: seq<Event>): Output {
    Fallback(HandleAll(INITIAL.(out := Begin(front, frontTitle)), events, |events|).out, body)
  }
}
