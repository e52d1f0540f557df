/**
 Scenarios: the extension's behaviour on a few concrete lines and documents.

 Where a scenario depends on a regular expression, it states, as a requirement on the
 engine, the first match a JavaScript engine reports on that very line.
 */
module Scenarios {
  import opened Matching
  import opened LineWindow
  import opened RangeExtract
  import opened EditPlanner
  import opened PlanProperties

  /** Windows of a ten-line and a three-line document. */
  lemma WindowExamples()
    ensures Window(5, 10) == [0, 1, 2, 3, 4]
    ensures Window(-3, 10) == [9, 8, 7]
    ensures Window(0, 10) == []
    ensures Window(100, 3) == [0, 1, 2]
  {
    assert Window(5, 10)[4] == 4;
  }

  /** `Created: ` searched with itself as a literal start and `$` as end: an empty range at column 9. */
  lemma CreatedSlotExample()
    ensures TextRangeBetween(0, "Created: ", (t: string) => LiteralMatch("Created: ", t), EndAnchor) ==
      Some(Range(0, 9, 9))
  {
    assert OccursAt("Created: ", "Created: ", 0);
    assert LiteralMatch("Created: ", "Created: ") == Some(Match(0, 9));
  }

  /** An empty `Created: ` slot receives the creation stamp followed by the suffix. */
  lemma EmptyCreatedIsStamped(p: Pass)
    requires AnchorsAtEnd(p.engine) && p.cfg.birthTimeEnd == "$"
    requires p.engine(p.cfg.birthTimeStart, "Created: ") == Some(Match(0, 9))
    ensures BirthEdit(p, 0, "Created: ") == Some(Edit(Birth, Range(0, 9, 9), StampText(p, p.birth)))
  {
    var text := "Created: ";
    assert |text| == 9;
    DefaultBirthEnd(p, 0, text);
    assert BirthSlot(p, 0, text).value.start == 9;
  }

  /** A `Created:` slot that already holds a date is left alone. */
  lemma FilledCreatedIsKept(p: Pass)
    requires AnchorsAtEnd(p.engine) && p.cfg.birthTimeEnd == "$"
    requires p.engine(p.cfg.birthTimeStart, "Created: 2020/01/01 10:00:00 by alice") == Some(Match(0, 9))
    ensures BirthEdit(p, 0, "Created: 2020/01/01 10:00:00 by alice") == None
  {
    var text := "Created: 2020/01/01 10:00:00 by alice";
    assert |text| == 37;
    DefaultBirthEnd(p, 0, text);
  }

  /** A `Last-Modified:` slot that holds a date is rewritten from column 15 to the end of the line. */
  lemma FilledModifiedIsRewritten(p: Pass)
    requires AnchorsAtEnd(p.engine) && p.cfg.modifiedTimeEnd == "$"
    requires p.engine(p.cfg.modifiedTimeStart, "Last-Modified: 2020/01/01 10:00:00 by alice") == Some(Match(0, 15))
    ensures ModifiedEdit(p, 0, "Last-Modified: 2020/01/01 10:00:00 by alice") ==
      Some(Edit(Modified, Range(0, 15, 43), StampText(p, p.now)))
  {
    var text := "Last-Modified: 2020/01/01 10:00:00 by alice";
    assert |text| == 43;
    DefaultModifiedEnd(p, 0, text);
  }

  /** The TeX placeholder is replaced in a LaTeX document and left alone in a Markdown one. */
  lemma TexPlaceholderOnlyInTex(p: Pass, text: string)
    requires p.engine(p.cfg.texPlaceholder, text).Some?
    ensures TexEdit(p, "latex", 0, text).Some?
    ensures TexEdit(p, "latex", 0, text).value.newText == p.fmt.toFormat(p.birth, p.cfg.texFormat)
    ensures TexEdit(p, "markdown", 0, text) == None
  {
  }
}
