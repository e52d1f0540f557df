/**
 RangeExtract: the span of one line that a timestamp field occupies.

 A delimited field lies between the end of the first start-delimiter match and the
 first end-delimiter match in the rest of the line; a placeholder field is the exact
 span of the first match of its pattern. Both look at one line and report either
 nothing or one single-line range.
 */
module RangeExtract {
  import opened Matching

  /** A half-open column range `[start, end)` on line `line`. */
  datatype Range = Range(line: nat, start: nat, end: nat) {
    predicate IsEmpty() { start == end }

    /** The range lies inside the text of its line. */
    predicate Within(text: string) { start <= end <= |text| }
  }

  /** What the line currently holds inside the range. */
  function Content(text: string, r: Range): string
    requires r.Within(text)
  {
    text[r.start..r.end]
  }

  /**
   The range between a start delimiter and an end delimiter on line `lineNo`: it starts where
   the first start match ends, and the end delimiter is searched only in the text after it.
   */
  function TextRangeBetween(lineNo: nat, text: string, startPattern: Matcher, endPattern: Matcher): (r: Option<Range>)
    ensures r.None? <==>
      startPattern(text).None? || endPattern(text[startPattern(text).value.End()..]).None?
    ensures r.Some? ==> r.value.line == lineNo && r.value.Within(text)
    ensures r.Some? ==> r.value.start == startPattern(text).value.End()
    ensures r.Some? ==> endPattern(text[r.value.start..]).value.index == r.value.end - r.value.start
  {
    match startPattern(text)
    case None => None
    case Some(s) =>
      var rangeStart := s.index + s.length;
      match endPattern(text[rangeStart..])
      case None => None
      case Some(e) => Some(Range(lineNo, rangeStart, rangeStart + e.index))
  }

  /** The exact span of the first match of `pattern` on line `lineNo`. */
  function TextRange(lineNo: nat, text: string, pattern: Matcher): (r: Option<Range>)
    ensures r.Some? <==> pattern(text).Some?
    ensures r.Some? ==> r.value.line == lineNo && r.value.Within(text)
    ensures r.Some? ==> r.value.start == pattern(text).value.index
    ensures r.Some? ==> r.value.end - r.value.start == pattern(text).value.length
  {
    match pattern(text)
    case None => None
    case Some(m) => Some(Range(lineNo, m.index, m.index + m.length))
  }

  /**
   With the end delimiter `$`, a delimited range is found whenever the start delimiter is,
   it always reaches the end of the line, and it is empty exactly when the start match does.
   */
  lemma BetweenEndAnchor(lineNo: nat, text: string, startPattern: Matcher, endPattern: Matcher)
    requires forall t :: endPattern(t) == EndAnchor(t)
    ensures TextRangeBetween(lineNo, text, startPattern, endPattern).Some? <==> startPattern(text).Some?
    ensures TextRangeBetween(lineNo, text, startPattern, endPattern).Some? ==>
      TextRangeBetween(lineNo, text, startPattern, endPattern).value.end == |text|
    ensures TextRangeBetween(lineNo, text, startPattern, endPattern).Some? ==>
      (TextRangeBetween(lineNo, text, startPattern, endPattern).value.IsEmpty() <==>
       startPattern(text).value.End() == |text|)
  {
    if startPattern(text).Some? {
      var rest := text[startPattern(text).value.End()..];
      assert endPattern(rest) == EndAnchor(rest);
    }
  }

  /** A placeholder found by literal search holds exactly that literal, at its leftmost occurrence. */
  lemma LiteralRange(lineNo: nat, text: string, lit: string)
    ensures TextRange(lineNo, text, (t: string) => LiteralMatch(lit, t)).Some? <==>
      exists j :: 0 <= j && OccursAt(lit, text, j)
    ensures TextRange(lineNo, text, (t: string) => LiteralMatch(lit, t)).Some? ==>
      var r := TextRange(lineNo, text, (t: string) => LiteralMatch(lit, t)).value;
      Content(text, r) == lit && forall j :: 0 <= j < r.start ==> !OccursAt(lit, text, j)
  {
    var m := LiteralMatch(lit, text);
    if m.None? {
      assert forall j :: 0 <= j ==> !OccursAt(lit, text, j);
    } else {
      assert OccursAt(lit, text, m.value.index);
    }
  }
}
