/**
  The two line scans behind the `cursor.*PrecedingText` and `cursor.*FollowingText`
  environment commands: from a position they walk away line by line until they reach a
  line that is not blank, and they hand the range from there to the position to
  `getText`. The model returns that range; reading the text of a range is the editor's.
*/
module LineScan {

  /** A zero-based line and character offset. */
  datatype Position = Position(line: nat, character: nat)

  datatype Range = Range(start: Position, end: Position)

  /** A document as its lines. `firstNonWhitespace` is the editor's
      `firstNonWhitespaceCharacterIndex` of a line's text, which is the text's length for a
      line of whitespace only. */
  datatype TextDocument = TextDocument(lines: seq<string>, firstNonWhitespace: string -> nat)

  /** A line whose first non-whitespace character is at its end. */
  predicate Blank(doc: TextDocument, k: nat)
    requires k < |doc.lines|
  {
    doc.firstNonWhitespace(doc.lines[k]) == |doc.lines[k]|
  }

  /** `s` is where the preceding text of a position on line `p` starts: the nearest line
      above `p` that is not blank, where line 0 is taken without being looked at, and every
      line between it and `p` is blank. */
  predicate PrecedingStart(doc: TextDocument, p: nat, s: nat)
    requires p < |doc.lines|
  {
    && (s == 0 || (s < p && !Blank(doc, s)))
    && forall k :: s < k < p ==> Blank(doc, k)
  }

  /** `e` is where the following text of a position on line `p` ends: the nearest line
      below `p` that is not blank, where the last line is taken without being looked at,
      and every line between `p` and it is blank. */
  predicate FollowingEnd(doc: TextDocument, p: nat, e: nat)
    requires p < |doc.lines|
  {
    && e < |doc.lines|
    && (e == |doc.lines| - 1 || (p < e && !Blank(doc, e)))
    && forall k :: p < k < e ==> Blank(doc, k)
  }

  /** `getPrecedingText`: the range from the start of the nearest non-blank line above the
      position (or from the start of the document) to the position. */
  method PrecedingRange(doc: TextDocument, position: Position) returns (r: Range)
    requires position.line < |doc.lines|
    ensures r.end == position && r.start.character == 0
    ensures PrecedingStart(doc, position.line, r.start.line)
  {
    var line: int := position.line - 1;
    while line > 0
      invariant -1 <= line < position.line
      invariant forall k :: line < k < position.line ==> Blank(doc, k)
    {
      if !Blank(doc, line) {
        return Range(Position(line, 0), position);
      }
      line := line - 1;
    }
    return Range(Position(0, 0), position);
  }

  /** `getFollowingText`: the range from the position to the end of the nearest non-blank
      line below it (or to the end of the document). */
  method FollowingRange(doc: TextDocument, position: Position) returns (r: Range)
    requires position.line < |doc.lines|
    ensures r.start == position
    ensures FollowingEnd(doc, position.line, r.end.line)
    ensures r.end.character == |doc.lines[r.end.line]|
  {
    var last := |doc.lines| - 1;
    var line := position.line + 1;
    while line < last
      invariant position.line < line <= |doc.lines|
      invariant forall k :: position.line < k < line ==> Blank(doc, k)
    {
      if !Blank(doc, line) {
        return Range(position, Position(line, |doc.lines[line]|));
      }
      line := line + 1;
    }
    return Range(position, Position(last, |doc.lines[last]|));
  }

  /** Exactly one line satisfies `PrecedingStart`, so the scan's answer is determined. */
  lemma PrecedingStartUnique(doc: TextDocument, p: nat, s1: nat, s2: nat)
    requires p < |doc.lines|
    requires PrecedingStart(doc, p, s1) && PrecedingStart(doc, p, s2)
    ensures s1 == s2
  {
  }

  /** Exactly one line satisfies `FollowingEnd`. */
  lemma FollowingEndUnique(doc: TextDocument, p: nat, e1: nat, e2: nat)
    requires p < |doc.lines|
    requires FollowingEnd(doc, p, e1) && FollowingEnd(doc, p, e2)
    ensures e1 == e2
  {
  }

  /** The preceding text never starts below the position, and on a non-blank line directly
      above it starts there. */
  lemma PrecedingStartBounds(doc: TextDocument, p: nat, s: nat)
    requires p < |doc.lines| && PrecedingStart(doc, p, s)
    ensures s <= p
    ensures p > 1 && !Blank(doc, p - 1) ==> s == p - 1
  {
  }

  /** The following text never ends above the position, and on a non-blank line directly
      below it (that is not the last line) ends there. */
  lemma FollowingEndBounds(doc: TextDocument, p: nat, e: nat)
    requires p < |doc.lines| && FollowingEnd(doc, p, e)
    ensures p <= e
    ensures p + 1 < |doc.lines| - 1 && !Blank(doc, p + 1) ==> e == p + 1
  {
  }
}
