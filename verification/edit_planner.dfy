/**
 EditPlanner: the edits one save asks the editor to apply before the file is written.

 For every line of the window, three fields are looked at in a fixed order:
 - the birth stamp, written only into an empty slot, so that an existing value is never
   overwritten;
 - the TeX placeholder, replaced by the creation date, only in TeX documents;
 - the modified stamp, rewritten on every save whatever the slot holds.
 A document whose file name the filter rejects gets no edits at all.
 */
module EditPlanner {
  import opened Matching
  import opened LineWindow
  import opened RangeExtract
  import opened Configuration

  datatype Field = Birth | Tex | Modified

  /** The position of a field among the checks made on one line. */
  function Rank(f: Field): nat {
    match f
    case Birth => 0
    case Tex => 1
    case Modified => 2
  }

  /** A replacement of one range, tagged with the field it fills. */
  datatype Edit = Edit(field: Field, range: Range, newText: string)

  datatype Document = Document(fileName: string, languageId: string, lines: seq<string>)

  /**
   What one save reads besides the document: the settings, the regular-expression engine,
   the date formatter, the file's creation instant and the current instant.
   */
  datatype Pass = Pass(cfg: Config, engine: Engine, fmt: Formatter, birth: Instant, now: Instant)

  predicate IsTexLanguage(languageId: string) {
    languageId == "tex" || languageId == "latex" || languageId == "doctex"
  }

  /** The document is scanned only when its file name matches the filter somewhere. */
  predicate Accepts(p: Pass, doc: Document) {
    p.engine(p.cfg.fileNamePattern, doc.fileName).Some?
  }

  function BirthSlot(p: Pass, lineNo: nat, text: string): Option<Range> {
    TextRangeBetween(lineNo, text, Compile(p.engine, p.cfg.birthTimeStart), Compile(p.engine, p.cfg.birthTimeEnd))
  }

  function ModifiedSlot(p: Pass, lineNo: nat, text: string): Option<Range> {
    TextRangeBetween(lineNo, text, Compile(p.engine, p.cfg.modifiedTimeStart), Compile(p.engine, p.cfg.modifiedTimeEnd))
  }

  function TexSlot(p: Pass, lineNo: nat, text: string): Option<Range> {
    TextRange(lineNo, text, Compile(p.engine, p.cfg.texPlaceholder))
  }

  /** The stamp written into birth and modified slots: the configured format, or ISO-8601 when it is empty, then the suffix. */
  function StampText(p: Pass, t: Instant): string {
    Render(p.fmt, t, p.cfg.luxonFormat) + p.cfg.tsSuffix
  }

  /** The birth stamp: the creation stamp, into a birth slot that holds nothing. */
  function BirthEdit(p: Pass, lineNo: nat, text: string): Option<Edit> {
    match BirthSlot(p, lineNo, text)
    case None => None
    case Some(range) =>
      if range.IsEmpty() then Some(Edit(Birth, range, StampText(p, p.birth))) else None
  }

  /** The TeX creation date: into the placeholder of a TeX document. */
  function TexEdit(p: Pass, languageId: string, lineNo: nat, text: string): Option<Edit> {
    if IsTexLanguage(languageId) then
      match TexSlot(p, lineNo, text)
      case None => None
      case Some(range) => Some(Edit(Tex, range, p.fmt.toFormat(p.birth, p.cfg.texFormat)))
    else None
  }

  /** The modified stamp: the current stamp, into the modified slot. */
  function ModifiedEdit(p: Pass, lineNo: nat, text: string): Option<Edit> {
    match ModifiedSlot(p, lineNo, text)
    case None => None
    case Some(range) => Some(Edit(Modified, range, StampText(p, p.now)))
  }

  /**
   A birth stamp is written only when the birth slot is found and holds nothing, so existing
   content is never overwritten; it is the creation instant in ISO-8601 when the format is
   empty and in the token format otherwise, followed by the suffix.
   */
  lemma BirthPolicy(p: Pass, lineNo: nat, text: string)
    ensures var r := BirthEdit(p, lineNo, text);
      && (r.Some? <==> BirthSlot(p, lineNo, text).Some? && Content(text, BirthSlot(p, lineNo, text).value) == "")
      && (r.Some? ==> r.value.field == Birth && r.value.range == BirthSlot(p, lineNo, text).value)
      && (r.Some? ==> r.value.range.line == lineNo && r.value.range.Within(text))
      && (r.Some? && p.cfg.luxonFormat == "" ==> r.value.newText == p.fmt.toIso(p.birth) + p.cfg.tsSuffix)
      && (r.Some? && p.cfg.luxonFormat != "" ==>
           r.value.newText == p.fmt.toFormat(p.birth, p.cfg.luxonFormat) + p.cfg.tsSuffix)
  {
  }

  /**
   A TeX edit is made exactly in TeX documents whose line matches the placeholder; it writes
   the creation instant in the TeX format, with no suffix and no ISO fallback.
   */
  lemma TexPolicy(p: Pass, languageId: string, lineNo: nat, text: string)
    ensures var r := TexEdit(p, languageId, lineNo, text);
      && (r.Some? <==> IsTexLanguage(languageId) && TexSlot(p, lineNo, text).Some?)
      && (r.Some? ==> r.value.field == Tex && r.value.range == TexSlot(p, lineNo, text).value)
      && (r.Some? ==> r.value.range.line == lineNo && r.value.range.Within(text))
      && (r.Some? ==> r.value.newText == p.fmt.toFormat(p.birth, p.cfg.texFormat))
  {
  }

  /**
   A modified stamp is written whenever the modified slot is found, whatever it holds; it is
   the current instant in ISO-8601 when the format is empty and in the token format otherwise,
   followed by the suffix.
   */
  lemma ModifiedPolicy(p: Pass, lineNo: nat, text: string)
    ensures var r := ModifiedEdit(p, lineNo, text);
      && (r.Some? <==> ModifiedSlot(p, lineNo, text).Some?)
      && (r.Some? ==> r.value.field == Modified && r.value.range == ModifiedSlot(p, lineNo, text).value)
      && (r.Some? ==> r.value.range.line == lineNo && r.value.range.Within(text))
      && (r.Some? && p.cfg.luxonFormat == "" ==> r.value.newText == p.fmt.toIso(p.now) + p.cfg.tsSuffix)
      && (r.Some? && p.cfg.luxonFormat != "" ==>
           r.value.newText == p.fmt.toFormat(p.now, p.cfg.luxonFormat) + p.cfg.tsSuffix)
  {
  }

  function AsSeq(o: Option<Edit>): seq<Edit> {
    if o.Some? then [o.value] else []
  }

  /** The edits of one line: birth, then TeX, then modified, each when it applies. */
  function LineEdits(p: Pass, languageId: string, lineNo: nat, text: string): seq<Edit> {
    AsSeq(BirthEdit(p, lineNo, text)) + AsSeq(TexEdit(p, languageId, lineNo, text)) + AsSeq(ModifiedEdit(p, lineNo, text))
  }

  /**
   A line gets at most three edits, all on that line and inside it, in the field order birth,
   TeX, modified, and exactly the ones the three field checks call for.
   */
  lemma LineEditsShape(p: Pass, languageId: string, lineNo: nat, text: string)
    ensures var r := LineEdits(p, languageId, lineNo, text);
      && |r| <= 3
      && (forall i :: 0 <= i < |r| ==> r[i].range.line == lineNo && r[i].range.Within(text))
      && (forall i, j :: 0 <= i < j < |r| ==> Rank(r[i].field) < Rank(r[j].field))
      && (forall x :: x in r <==>
           BirthEdit(p, lineNo, text) == Some(x) ||
           TexEdit(p, languageId, lineNo, text) == Some(x) ||
           ModifiedEdit(p, lineNo, text) == Some(x))
  {
    BirthPolicy(p, lineNo, text);
    TexPolicy(p, languageId, lineNo, text);
    ModifiedPolicy(p, lineNo, text);
    FieldsInOrder(BirthEdit(p, lineNo, text), TexEdit(p, languageId, lineNo, text), ModifiedEdit(p, lineNo, text), lineNo, text);
  }

  /** One optional edit for each field, on one line, joined in field order. */
  lemma FieldsInOrder(b: Option<Edit>, t: Option<Edit>, m: Option<Edit>, lineNo: nat, text: string)
    requires b.Some? ==> b.value.field == Birth && b.value.range.line == lineNo && b.value.range.Within(text)
    requires t.Some? ==> t.value.field == Tex && t.value.range.line == lineNo && t.value.range.Within(text)
    requires m.Some? ==> m.value.field == Modified && m.value.range.line == lineNo && m.value.range.Within(text)
    ensures var r := AsSeq(b) + AsSeq(t) + AsSeq(m);
      && |r| <= 3
      && (forall i :: 0 <= i < |r| ==> r[i].range.line == lineNo && r[i].range.Within(text))
      && (forall i, j :: 0 <= i < j < |r| ==> Rank(r[i].field) < Rank(r[j].field))
      && (forall x :: x in r <==> b == Some(x) || t == Some(x) || m == Some(x))
  {
    var r := AsSeq(b) + AsSeq(t) + AsSeq(m);
    forall i | 0 <= i < |r| ensures Some(r[i]) in [b, t, m] {
    }
  }

  /** The edits of a line, the line being given by its index in the document. */
  function EditsAt(p: Pass, doc: Document, l: nat): seq<Edit>
    requires l < |doc.lines|
  {
    LineEdits(p, doc.languageId, l, doc.lines[l])
  }

  /** The edits of the lines `ws`, line after line. */
  function PlanLines(p: Pass, doc: Document, ws: seq<nat>): seq<Edit>
    requires forall k :: 0 <= k < |ws| ==> ws[k] < |doc.lines|
    decreases |ws|
  {
    if ws == [] then []
    else
      var l := ws[|ws| - 1];
      PlanLines(p, doc, ws[..|ws| - 1]) + EditsAt(p, doc, l)
  }

  /** Scanning one more line appends that line's edits. */
  lemma PlanLinesStep(p: Pass, doc: Document, ws: seq<nat>, n: nat)
    requires forall k :: 0 <= k < |ws| ==> ws[k] < |doc.lines|
    requires n < |ws|
    ensures PlanLines(p, doc, ws[..n + 1]) == PlanLines(p, doc, ws[..n]) + EditsAt(p, doc, ws[n])
  {
    assert ws[..n + 1][..n] == ws[..n];
  }

  /** Every edit of `es` lies on one of the lines `ws` and inside that line's text. */
  predicate OnLines(es: seq<Edit>, lines: seq<string>, ws: seq<nat>) {
    forall i :: 0 <= i < |es| ==>
      es[i].range.line in ws && es[i].range.line < |lines| && es[i].range.Within(lines[es[i].range.line])
  }

  lemma OnLinesConcat(a: seq<Edit>, b: seq<Edit>, lines: seq<string>, ws: seq<nat>)
    requires ws != []
    requires OnLines(a, lines, ws[..|ws| - 1]) && OnLines(b, lines, [ws[|ws| - 1]])
    ensures OnLines(a + b, lines, ws)
  {
    var r := a + b;
    forall i | 0 <= i < |r|
      ensures r[i].range.line in ws && r[i].range.line < |lines| && r[i].range.Within(lines[r[i].range.line])
    {
      if i < |a| {
        assert r[i] == a[i];
        var k :| 0 <= k < |ws| - 1 && ws[..|ws| - 1][k] == a[i].range.line;
        assert ws[k] == a[i].range.line;
      } else {
        assert r[i] == b[i - |a|];
      }
    }
  }

  /** The lines `ws` get at most three edits each, each on one of those lines and inside its text. */
  lemma {:induction false} PlanLinesShape(p: Pass, doc: Document, ws: seq<nat>)
    requires forall k :: 0 <= k < |ws| ==> ws[k] < |doc.lines|
    ensures |PlanLines(p, doc, ws)| <= 3 * |ws|
    ensures OnLines(PlanLines(p, doc, ws), doc.lines, ws)
    decreases |ws|
  {
    if ws != [] {
      var init := ws[..|ws| - 1];
      var last := ws[|ws| - 1];
      PlanLinesShape(p, doc, init);
      LineEditsShape(p, doc.languageId, last, doc.lines[last]);
      OnLinesConcat(PlanLines(p, doc, init), EditsAt(p, doc, last), doc.lines, ws);
    }
  }

  /**
   A save gets at most three edits per window line, each on a line of the window and inside
   that line's text.
   */
  lemma PlanShape(p: Pass, doc: Document)
    ensures |Plan(p, doc)| <= 3 * |Window(p.cfg.lineLimit, |doc.lines|)|
    ensures forall i :: 0 <= i < |Plan(p, doc)| ==>
      var e := Plan(p, doc)[i];
      e.range.line < |doc.lines| && Covers(p.cfg.lineLimit, |doc.lines|, e.range.line) &&
      e.range.Within(doc.lines[e.range.line])
  {
    if Accepts(p, doc) {
      PlanLinesShape(p, doc, Window(p.cfg.lineLimit, |doc.lines|));
    }
  }

  /** Everything the extension asks to apply before the document is saved. */
  function Plan(p: Pass, doc: Document): seq<Edit> {
    if !Accepts(p, doc) then [] else PlanLines(p, doc, Window(p.cfg.lineLimit, |doc.lines|))
  }

  /** The body of the save hook's loop: the birth, TeX and modified checks of one line, in that order. */
  method CheckLine(p: Pass, languageId: string, iLine: nat, text: string) returns (lineEdits: seq<Edit>)
    ensures lineEdits == LineEdits(p, languageId, iLine, text)
  {
    lineEdits := [];
    var birthEdit := BirthEdit(p, iLine, text);
    if birthEdit.Some? {
      lineEdits := lineEdits + [birthEdit.value];
    }
    assert lineEdits == AsSeq(birthEdit);
    var texEdit := TexEdit(p, languageId, iLine, text);
    if texEdit.Some? {
      lineEdits := lineEdits + [texEdit.value];
    }
    assert lineEdits == AsSeq(birthEdit) + AsSeq(texEdit);
    var modifiedEdit := ModifiedEdit(p, iLine, text);
    if modifiedEdit.Some? {
      lineEdits := lineEdits + [modifiedEdit.value];
    }
    assert lineEdits == AsSeq(birthEdit) + AsSeq(texEdit) + AsSeq(modifiedEdit);
  }

  /**
   The save hook as the extension writes it: filter on the file name, then for each line of the
   window push the birth, TeX and modified edits that apply.
   */
  method OnWillSaveTextDocument(p: Pass, doc: Document) returns (edits: seq<Edit>)
    ensures edits == Plan(p, doc)
  {
    edits := [];
    if !Accepts(p, doc) {
      return;
    }
    var lineIndices := GetIndexRangeUntil(p.cfg.lineLimit, |doc.lines|);
    var n := 0;
    while n < |lineIndices|
      invariant 0 <= n <= |lineIndices|
      invariant edits == PlanLines(p, doc, lineIndices[..n])
    {
      var iLine := lineIndices[n];
      var lineEdits := CheckLine(p, doc.languageId, iLine, doc.lines[iLine]);
      PlanLinesStep(p, doc, lineIndices, n);
      edits := edits + lineEdits;
      n := n + 1;
    }
    assert lineIndices[..n] == lineIndices;
  }
}
