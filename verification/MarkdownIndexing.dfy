/** What the Markdown parser produces is what the index can store. */
module MarkdownIndexing {
  import opened Prelude
  import C = Catalog
  import opened Markdown
  import opened MarkdownTheorems

  /** The columns of a segment that the index keeps. */
  function ForIndex(segments: seq<Segment>): (out: seq<C.ParsedSegment>)
    ensures |out| == |segments|
    ensures forall i :: 0 <= i < |segments| ==>
            out[i] == C.ParsedSegment(segments[i].anchor, segments[i].ordinal, segments[i].text)
  {
    if segments == [] then []
    else
      var last := segments[|segments| - 1];
      ForIndex(segments[..|segments| - 1]) + [C.ParsedSegment(last.anchor, last.ordinal, last.text)]
  }

  /** No Markdown document violates the UNIQUE clauses on (revision, ordinal) and (revision, anchor). */
  lemma MarkdownIsStorable(front: Option<string>, frontTitle: Option<string>, body: string, events: seq<Event>)
    ensures C.StorableSegments(ForIndex(ParseEvents(front, frontTitle, body, events).segments))
  {
    ParsedSegmentsAreSound(front, frontTitle, body, events);
    var segments := ParseEvents(front, frontTitle, body, events).segments;
    var out := ForIndex(segments);
    forall i, j {:trigger C.Apart(out[i], out[j])} | 0 <= i < j < |out| ensures C.Apart(out[i], out[j]) {
      assert !SameAnchor(segments[i], segments[j]);
    }
  }
}
