/** The parser as the source holds it: one mutable state, updated by each event. */
module MarkdownParser {
  import opened Prelude
  import opened TextTools
  import opened Markdown
  import opened MarkdownTheorems

  /** `slugify`. */
  method Slugify(input: string) returns (slug: string)
    ensures slug == Slug(input)
  {
    slug := "";
    var previousDash := false;
    for i := 0 to |input|
      invariant slug == SlugSoFar(input, i)
      invariant previousDash <==> EndsWith(slug, '-')
    {
      var ch := input[i];
      if IsAlphanumeric(ch) {
        slug := slug + [Lower(ch)];
        previousDash := false;
      } else if !previousDash && slug != "" {
        slug := slug + "-";
        previousDash := true;
      }
    }
    ghost var whole := slug;
    while EndsWith(slug, '-')
      decreases |slug|
      invariant TrimRight(slug, c => c == '-') == TrimRight(whole, c => c == '-')
    {
      slug := slug[..|slug| - 1];
    }
    if slug == "" {
      slug := "section";
    }
  }

  /** The backwards search for a break. */
  method FindBreak(text: string, start: nat, end: nat) returns (k: nat)
    requires start <= end <= |text|
    ensures k == LastBreak(text, start, end)
  {
    k := end;
    while k > start && text[k - 1] != '\n' && text[k - 1] != ' '
      invariant start <= k <= end && LastBreak(text, start, k) == LastBreak(text, start, end)
    {
      k := k - 1;
    }
  }

  /** Where the loop cuts: behind the last break in reach, or at the limit. */
  method FindEnd(text: string, start: nat, limit: nat) returns (end: nat)
    requires start < |text| && limit > 0
    ensures end == PieceEnd(text, start, limit)
  {
    var hardEnd := if start + limit < |text| then start + limit else |text|;
    end := hardEnd;
    if hardEnd < |text| {
      var candidate := FindBreak(text, start, hardEnd);
      if candidate > start {
        end := candidate;
      }
    }
  }

  lemma PiecesStep(done: seq<string>, text: string, start: nat, limit: nat)
    requires start < |text| && limit > 0
    ensures var end := PieceEnd(text, start, limit);
            done + Pieces(text, start, limit) == done + [text[start..end]] + Pieces(text, end, limit)
  {
    var end := PieceEnd(text, start, limit);
    var piece, rest := [text[start..end]], Pieces(text, end, limit);
    assert done + (piece + rest) == done + piece + rest;
  }

  /** `split_oversized`. */
  method Split(text: string, max: nat) returns (pieces: seq<string>)
    ensures pieces == SplitOversized(text, max)
  {
    var limit := if max > 1 then max else 1;
    if |text| <= limit {
      return [text];
    }
    pieces := [];
    var start := 0;
    while start < |text|
      invariant 0 <= start <= |text| && pieces + Pieces(text, start, limit) == Pieces(text, 0, limit)
    {
      var end := FindEnd(text, start, limit);
      PiecesStep(pieces, text, start, limit);
      pieces := pieces + [text[start..end]];
      start := end;
    }
    assert pieces + [] == pieces;
  }

  class Parser {
    var out: Output
    var buf: Buffers
    var mode: Mode
    var seen: Counters

    ghost function View(): State
      reads this
    {
      State(out, buf, mode, seen)
    }

    constructor ()
      ensures View() == INITIAL
    {
      out, buf, mode, seen := NO_OUTPUT, NO_TEXT, TOP_LEVEL, NONE_SEEN;
    }

    /** `push`: the new segment comes last, under the next ordinal and an anchor no segment before it has. */
    method PushSegment(kind: Kind, base: string, content: string)
      modifies `out
      ensures out == Push(old(out), kind, base, content)
      ensures SegmentsSound(old(out.segments), old(out.ordinal), old(out.anchors)) && Bare(base) ==>
                && SegmentsSound(out.segments, out.ordinal, out.anchors)
                && |out.segments| == |old(out.segments)| + 1 && out.segments[..|out.segments| - 1] == old(out.segments)
                && out.segments[|out.segments| - 1].ordinal == |old(out.segments)|
                && BaseOf(out.segments[|out.segments| - 1].anchor) == base
                && forall i :: 0 <= i < |old(out.segments)| ==>
                   out.segments[i].anchor != out.segments[|out.segments| - 1].anchor
    {
      ghost var was := out;
      var count := (if base in out.anchors then out.anchors[base] else 0) + 1;
      var anchor := if count == 1 then base else base + "~" + Decimal(count);
      out := out.(anchors := out.anchors[base := count],
                  segments := out.segments + [Segment(kind, anchor, out.ordinal, content)],
                  ordinal := out.ordinal + 1);
      PushedIsNew(was, kind, base, content);
    }

    method PushAll(kind: Kind, base: string, content: string)
      modifies `out
      ensures out == PushSplit(old(out), kind, base, content)
    {
      var pieces := Split(content, MAX_SEGMENT_CHARS);
      for i := 0 to |pieces|
        invariant out == PushPieces(old(out), kind, base, pieces, i)
      {
        PushSegment(kind, base, pieces[i]);
      }
    }

    /** `retain` on the heading stack. */
    method RetainBelow(level: nat) returns (kept: seq<Entry>)
      ensures kept == Retain(out.stack, level)
    {
      kept := [];
      for i := 0 to |out.stack|
        invariant kept == Retain(out.stack[..i], level)
      {
        assert out.stack[..i + 1][..i] == out.stack[..i];
        if out.stack[i].0 < level {
          kept := kept + [out.stack[i]];
        }
      }
      assert out.stack[..|out.stack|] == out.stack;
    }

    method PushHeadingSegments(level: nat, content: string)
      modifies `out
      ensures out == PushHeading(old(out), level, content)
    {
      var slug := Slugify(content);
      var kept := RetainBelow(level);
      out := out.(stack := kept + [(level, slug)], headings := out.headings + [(level, slug)]);
      var path := Path(out.stack);
      if out.title.None? && level == 1 {
        out := out.(title := Some(content));
        PushSegment(DocumentTitle, "title:" + slug, content);
      }
      PushSegment(Heading, "heading:" + path, content);
    }

    method HeadingDone()
      modifies this
      ensures View() == FinishHeading(old(View()))
    {
      mode := mode.(inHeading := false);
      var content := Trim(buf.text);
      buf := buf.(text := "");
      if content != "" {
        PushHeadingSegments(mode.level, content);
      }
    }

    method ParagraphDone()
      modifies this
      ensures View() == FinishParagraph(old(View()))
    {
      mode := mode.(inParagraph := false);
      var content := Trim(buf.text);
      buf := buf.(text := "");
      if content != "" {
        seen := seen.(paragraphs := seen.paragraphs + 1);
        PushAll(Paragraph, "paragraph:" + Decimal(seen.paragraphs), content);
      }
    }

    method QuoteDone()
      modifies this
      ensures View() == FinishQuote(old(View()))
    {
      mode := mode.(inQuote := false);
      var content := Trim(buf.quote);
      buf := buf.(quote := "");
      if content != "" {
        seen := seen.(quotes := seen.quotes + 1);
        PushSegment(Blockquote, "blockquote:" + Decimal(seen.quotes), content);
      }
    }

    method ListDone()
      modifies this
      ensures View() == FinishList(old(View()))
    {
      mode := mode.(inList := false);
      var content := Trim(buf.list);
      buf := buf.(list := "");
      if content != "" {
        seen := seen.(lists := seen.lists + 1);
        PushSegment(List, "list:" + Decimal(seen.lists), content);
      }
    }

    method CodeDone()
      modifies this
      ensures View() == FinishCode(old(View()))
    {
      mode := mode.(inCode := false);
      seen := seen.(codes := seen.codes + 1);
      var slug := "text";
      if buf.lang != "" {
        slug := Slugify(buf.lang);
      }
      var content := TrimRight(buf.code, IsNewline);
      buf := buf.(code := "", lang := "");
      PushAll(CodeFence, "code-fence:" + slug + ":" + Decimal(seen.codes), content);
    }

    method TableDone()
      modifies this
      ensures View() == FinishTable(old(View()))
    {
      mode := mode.(inTable := false);
      var content := Trim(buf.table);
      buf := buf.(table := "");
      if content != "" {
        seen := seen.(tables := seen.tables + 1);
        PushSegment(Table, "table:" + Decimal(seen.tables), content);
      }
    }

    /** `append_text`. */
    method Append(value: string)
      modifies `buf
      ensures buf == AppendText(old(buf), mode, value)
    {
      if mode.inHeading || mode.inParagraph {
        buf := buf.(text := buf.text + value);
      } else if mode.inQuote {
        buf := buf.(quote := buf.quote + value);
      } else if mode.inItem {
        buf := buf.(list := buf.list + value);
      } else if mode.inTable {
        buf := buf.(table := buf.table + value);
      }
    }

    /** `text_or_code`. */
    method AddText(value: string)
      modifies `buf
      ensures buf == TextOrCode(old(buf), mode, value)
    {
      if mode.inCode {
        buf := buf.(code := buf.code + value);
      } else if buf.links != [] {
        var last := buf.links[|buf.links| - 1];
        buf := buf.(links := buf.links[..|buf.links| - 1] + [(last.0 + value, last.1)]);
      } else {
        Append(value);
      }
    }

    method LinkDone()
      modifies `buf
      ensures buf == EndLinkTag(old(buf), mode)
    {
      if buf.links != [] {
        var (shown, url) := buf.links[|buf.links| - 1];
        buf := buf.(links := buf.links[..|buf.links| - 1]);
        Append(if shown == "" then url else shown + " (" + url + ")");
      }
    }

    /** `start_tag`. */
    method OpenTag(e: Event)
      modifies this
      ensures View() == StartTag(old(View()), e)
    {
      match e
      case StartHeading(level) => mode, buf := mode.(inHeading := true, level := level), buf.(text := "");
      case StartParagraph =>
        if !mode.inList && !mode.inQuote && !mode.inTable {
          mode, buf := mode.(inParagraph := true), buf.(text := "");
        }
      case StartQuote => mode, buf := mode.(inQuote := true), buf.(quote := "");
      case StartList => mode := mode.(inList := true);
      case StartItem =>
        mode := mode.(inItem := true);
        if buf.list != "" {
          buf := buf.(list := buf.list + "\n");
        }
        buf := buf.(list := buf.list + "- ");
      case StartCode(lang) => mode, buf := mode.(inCode := true), buf.(code := "", lang := lang);
      case StartTable => mode, buf := mode.(inTable := true), buf.(table := "");
      case StartCell =>
        if mode.inTable && buf.table != "" && !EndsWith(buf.table, '\n') {
          buf := buf.(table := buf.table + "|");
        }
      case StartLink(url) => buf := buf.(links := buf.links + [("", url)]);
      case _ =>
    }

    /** `end_tag`. */
    method CloseTag(e: Event)
      modifies this
      ensures View() == EndTag(old(View()), e)
    {
      match e
      case EndHeading => HeadingDone();
      case EndParagraph =>
        if mode.inParagraph {
          ParagraphDone();
        }
      case EndQuote => QuoteDone();
      case EndList => ListDone();
      case EndItem => mode := mode.(inItem := false);
      case EndCode => CodeDone();
      case EndTable => TableDone();
      case EndTableHead =>
        if mode.inTable && buf.table != "" {
          buf := buf.(table := buf.table + "\n");
        }
      case EndTableRow =>
        if mode.inTable && !EndsWith(buf.table, '\n') {
          buf := buf.(table := buf.table + "\n");
        }
      case EndLink => LinkDone();
      case _ =>
    }

    /** `handle_event`. */
    method HandleEvent(e: Event)
      modifies this
      ensures View() == Handle(old(View()), e)
    {
      if e.Words? {
        AddText(e.value);
      } else if e.Break? {
        Append(" ");
      } else if e.Rule? {
        seen := seen.(warnings := seen.warnings + 1);
      } else if Ends(e) {
        CloseTag(e);
      } else {
        OpenTag(e);
      }
    }

    method HandleEvents(events: seq<Event>)
      modifies this
      ensures View() == HandleAll(old(View()), events, |events|)
    {
      for i := 0 to |events|
        invariant View() == HandleAll(old(View()), events, i)
      {
        HandleEvent(events[i]);
      }
    }
  }

  /** `parse_markdown`, given the front matter, its title and the tokenizer's events for the body. */
  method ParseMarkdown(front: Option<string>, frontTitle: Option<string>, body: string, events: seq<Event>)
    returns (title: Option<string>, segments: seq<Segment>)
    ensures var o := ParseEvents(front, frontTitle, body, events); title == o.title && segments == o.segments
    ensures AnchorsDistinct(segments) && forall i :: 0 <= i < |segments| ==> segments[i].ordinal == i
  {
    ParsedSegmentsAreSound(front, frontTitle, body, events);
    var parser := new Parser();
    if front.Some? {
      if frontTitle.Some? {
        parser.out := parser.out.(title := frontTitle);
      }
      parser.PushSegment(Frontmatter, "frontmatter", front.value);
    }
    assert parser.View() == INITIAL.(out := Begin(front, frontTitle));
    parser.HandleEvents(events);
    if parser.out.segments == [] {
      var trimmed := Trim(body);
      if trimmed != "" {
        parser.PushSegment(Paragraph, "paragraph:1", trimmed);
      }
    }
    title, segments := parser.out.title, parser.out.segments;
  }
}
