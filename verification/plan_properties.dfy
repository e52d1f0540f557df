/**
 PlanProperties: what the edits of one save promise, over every document and setting.

 - Edits come in scan order: line after line in window order, and on each line
   birth before TeX before modified; hence at most one edit per field per line.
 - A birth stamp only ever fills an empty slot; every empty slot in the window is filled.
 - A modified stamp is written into every slot found in the window, whatever it holds.
 - TeX placeholders are replaced only in TeX documents.
 */
module PlanProperties {
  import opened Matching
  import opened LineWindow
  import opened RangeExtract
  import opened Configuration
  import opened EditPlanner

  /** `x` is emitted before `y` when scanning lines in the given direction. */
  predicate EditBefore(x: Edit, y: Edit, ascending: bool) {
    || Precedes(x.range.line, y.range.line, ascending)
    || (x.range.line == y.range.line && Rank(x.field) < Rank(y.field))
  }

  predicate InScanOrder(edits: seq<Edit>, ascending: bool) {
    forall i, j :: 0 <= i < j < |edits| ==> EditBefore(edits[i], edits[j], ascending)
  }

  /** An edit is planned for the lines `ws` exactly when one of those lines calls for it. */
  lemma {:induction false} PlanLinesMembership(p: Pass, doc: Document, ws: seq<nat>)
    requires forall k :: 0 <= k < |ws| ==> ws[k] < |doc.lines|
    ensures forall x :: x in PlanLines(p, doc, ws) <==>
      exists k :: 0 <= k < |ws| && x in EditsAt(p, doc, ws[k])
    decreases |ws|
  {
    if ws != [] {
      var init := ws[..|ws| - 1];
      PlanLinesMembership(p, doc, init);
      forall x | x in PlanLines(p, doc, ws)
        ensures exists k :: 0 <= k < |ws| && x in EditsAt(p, doc, ws[k])
      {
        if x in PlanLines(p, doc, init) {
          var k :| 0 <= k < |init| && x in EditsAt(p, doc, init[k]);
          assert ws[k] == init[k];
        } else {
          assert x in EditsAt(p, doc, ws[|ws| - 1]);
        }
      }
      forall x | exists k :: 0 <= k < |ws| && x in EditsAt(p, doc, ws[k])
        ensures x in PlanLines(p, doc, ws)
      {
        var k :| 0 <= k < |ws| && x in EditsAt(p, doc, ws[k]);
        if k < |ws| - 1 {
          assert ws[k] == init[k];
        }
      }
    }
  }

  /**
   An edit is planned for the document exactly when the file name passes the filter and a
   line of the window calls for it.
   */
  lemma PlanMembership(p: Pass, doc: Document, x: Edit)
    ensures x in Plan(p, doc) <==>
      Accepts(p, doc) &&
      exists l :: 0 <= l < |doc.lines| && Covers(p.cfg.lineLimit, |doc.lines|, l) && x in EditsAt(p, doc, l)
  {
    var w := Window(p.cfg.lineLimit, |doc.lines|);
    PlanLinesMembership(p, doc, w);
    if Accepts(p, doc) && x !in Plan(p, doc) {
      forall l | 0 <= l < |doc.lines| && Covers(p.cfg.lineLimit, |doc.lines|, l)
        ensures x !in EditsAt(p, doc, l)
      {
        assert l in w;
        var k :| 0 <= k < |w| && w[k] == l;
      }
    }
  }

  /** The edits of the lines `ws`, scanned in a fixed direction, come out in scan order. */
  lemma {:induction false} PlanLinesInScanOrder(p: Pass, doc: Document, ws: seq<nat>, ascending: bool)
    requires forall k :: 0 <= k < |ws| ==> ws[k] < |doc.lines|
    requires Monotone(ws, ascending)
    ensures InScanOrder(PlanLines(p, doc, ws), ascending)
    decreases |ws|
  {
    if ws != [] {
      var init := ws[..|ws| - 1];
      var last := ws[|ws| - 1];
      PlanLinesInScanOrder(p, doc, init, ascending);
      PlanLinesShape(p, doc, init);
      LineEditsShape(p, doc.languageId, last, doc.lines[last]);
      var a := PlanLines(p, doc, init);
      var b := EditsAt(p, doc, last);
      forall i, j | 0 <= i < |a| && 0 <= j < |b| ensures EditBefore(a[i], b[j], ascending) {
        var k :| 0 <= k < |init| && init[k] == a[i].range.line;
        assert Precedes(ws[k], ws[|ws| - 1], ascending);
      }
      ConcatInScanOrder(a, b, ascending);
    }
  }

  /** Two runs of edits in scan order, the first wholly before the second, join in scan order. */
  lemma ConcatInScanOrder(a: seq<Edit>, b: seq<Edit>, ascending: bool)
    requires InScanOrder(a, ascending) && InScanOrder(b, ascending)
    requires forall i, j :: 0 <= i < |a| && 0 <= j < |b| ==> EditBefore(a[i], b[j], ascending)
    ensures InScanOrder(a + b, ascending)
  {
    var r := a + b;
    forall i, j | 0 <= i < j < |r| ensures EditBefore(r[i], r[j], ascending) {
      if j < |a| {
        assert r[i] == a[i] && r[j] == a[j];
      } else if i >= |a| {
        assert r[i] == b[i - |a|] && r[j] == b[j - |a|];
      } else {
        assert r[i] == a[i] && r[j] == b[j - |a|];
      }
    }
  }

  /**
   The edits of a save come out in scan order: top-down for a positive line limit, bottom-up
   otherwise, and on each line birth, TeX, modified.
   */
  lemma PlanInScanOrder(p: Pass, doc: Document)
    ensures InScanOrder(Plan(p, doc), p.cfg.lineLimit > 0)
  {
    if Accepts(p, doc) {
      PlanLinesInScanOrder(p, doc, Window(p.cfg.lineLimit, |doc.lines|), p.cfg.lineLimit > 0);
    }
  }

  /** No line gets two edits for the same field, so a line gets at most three edits. */
  lemma OneEditPerFieldPerLine(p: Pass, doc: Document)
    ensures forall i, j :: 0 <= i < j < |Plan(p, doc)| ==>
      Plan(p, doc)[i].range.line != Plan(p, doc)[j].range.line || Plan(p, doc)[i].field != Plan(p, doc)[j].field
  {
    PlanInScanOrder(p, doc);
    var r := Plan(p, doc);
    forall i, j | 0 <= i < j < |r| ensures r[i].range.line != r[j].range.line || r[i].field != r[j].field {
      assert EditBefore(r[i], r[j], p.cfg.lineLimit > 0);
    }
  }

  /** A planned edit comes from the check of its own field on its own line, a line of the window. */
  lemma EditOrigin(p: Pass, doc: Document, x: Edit) returns (l: nat)
    requires x in Plan(p, doc)
    ensures l < |doc.lines| && Covers(p.cfg.lineLimit, |doc.lines|, l) && x.range.line == l
    ensures x.field == Birth ==> BirthEdit(p, l, doc.lines[l]) == Some(x)
    ensures x.field == Tex ==> TexEdit(p, doc.languageId, l, doc.lines[l]) == Some(x)
    ensures x.field == Modified ==> ModifiedEdit(p, l, doc.lines[l]) == Some(x)
  {
    PlanMembership(p, doc, x);
    l :| 0 <= l < |doc.lines| && Covers(p.cfg.lineLimit, |doc.lines|, l) && x in EditsAt(p, doc, l);
    LineEditsShape(p, doc.languageId, l, doc.lines[l]);
    BirthPolicy(p, l, doc.lines[l]);
    TexPolicy(p, doc.languageId, l, doc.lines[l]);
    ModifiedPolicy(p, l, doc.lines[l]);
  }

  /**
   A birth stamp never overwrites anything: every birth edit fills a birth slot that is empty,
   and writes the creation instant followed by the suffix.
   */
  lemma BirthNeverOverwrites(p: Pass, doc: Document)
    ensures forall x :: x in Plan(p, doc) && x.field == Birth ==>
      && x.range.line < |doc.lines|
      && BirthSlot(p, x.range.line, doc.lines[x.range.line]) == Some(x.range)
      && Content(doc.lines[x.range.line], x.range) == ""
      && x.newText == StampText(p, p.birth)
  {
    forall x | x in Plan(p, doc) && x.field == Birth
      ensures x.range.line < |doc.lines| && BirthSlot(p, x.range.line, doc.lines[x.range.line]) == Some(x.range)
      ensures Content(doc.lines[x.range.line], x.range) == "" && x.newText == StampText(p, p.birth)
    {
      var l := EditOrigin(p, doc, x);
      BirthPolicy(p, l, doc.lines[l]);
    }
  }

  /** Every empty birth slot in the window of an accepted document is filled. */
  lemma EmptyBirthSlotFilled(p: Pass, doc: Document, l: nat)
    requires Accepts(p, doc) && l < |doc.lines| && Covers(p.cfg.lineLimit, |doc.lines|, l)
    requires BirthSlot(p, l, doc.lines[l]).Some?
    requires Content(doc.lines[l], BirthSlot(p, l, doc.lines[l]).value) == ""
    ensures Edit(Birth, BirthSlot(p, l, doc.lines[l]).value, StampText(p, p.birth)) in Plan(p, doc)
  {
    var x := Edit(Birth, BirthSlot(p, l, doc.lines[l]).value, StampText(p, p.birth));
    assert x in EditsAt(p, doc, l);
    PlanMembership(p, doc, x);
  }

  /**
   A modified stamp is always refreshed: every modified slot found in the window of an
   accepted document is rewritten with the current instant, whatever it holds now.
   */
  lemma ModifiedAlwaysRefreshed(p: Pass, doc: Document, l: nat)
    requires Accepts(p, doc) && l < |doc.lines| && Covers(p.cfg.lineLimit, |doc.lines|, l)
    requires ModifiedSlot(p, l, doc.lines[l]).Some?
    ensures Edit(Modified, ModifiedSlot(p, l, doc.lines[l]).value, StampText(p, p.now)) in Plan(p, doc)
  {
    var x := Edit(Modified, ModifiedSlot(p, l, doc.lines[l]).value, StampText(p, p.now));
    assert x in EditsAt(p, doc, l);
    PlanMembership(p, doc, x);
  }

  /** Every modified edit rewrites a modified slot with the current instant and the suffix. */
  lemma ModifiedEditsAreSlots(p: Pass, doc: Document)
    ensures forall x :: x in Plan(p, doc) && x.field == Modified ==>
      && x.range.line < |doc.lines|
      && ModifiedSlot(p, x.range.line, doc.lines[x.range.line]) == Some(x.range)
      && x.newText == StampText(p, p.now)
  {
    forall x | x in Plan(p, doc) && x.field == Modified
      ensures x.range.line < |doc.lines| && ModifiedSlot(p, x.range.line, doc.lines[x.range.line]) == Some(x.range)
      ensures x.newText == StampText(p, p.now)
    {
      var l := EditOrigin(p, doc, x);
      ModifiedPolicy(p, l, doc.lines[l]);
    }
  }

  /**
   TeX placeholders are replaced only in TeX documents, by the creation date in the TeX format,
   with no suffix.
   */
  lemma TexOnlyInTexDocuments(p: Pass, doc: Document)
    ensures forall x :: x in Plan(p, doc) && x.field == Tex ==>
      && IsTexLanguage(doc.languageId)
      && x.range.line < |doc.lines|
      && TexSlot(p, x.range.line, doc.lines[x.range.line]) == Some(x.range)
      && x.newText == p.fmt.toFormat(p.birth, p.cfg.texFormat)
  {
    forall x | x in Plan(p, doc) && x.field == Tex
      ensures IsTexLanguage(doc.languageId) && x.range.line < |doc.lines|
      ensures TexSlot(p, x.range.line, doc.lines[x.range.line]) == Some(x.range)
      ensures x.newText == p.fmt.toFormat(p.birth, p.cfg.texFormat)
    {
      var l := EditOrigin(p, doc, x);
      TexPolicy(p, doc.languageId, l, doc.lines[l]);
    }
  }

  /** A document that is not TeX gets no TeX edit, whatever its lines hold. */
  lemma NoTexEditOutsideTex(p: Pass, doc: Document)
    requires !IsTexLanguage(doc.languageId)
    ensures forall i :: 0 <= i < |Plan(p, doc)| ==> Plan(p, doc)[i].field != Tex
  {
    TexOnlyInTexDocuments(p, doc);
    forall i | 0 <= i < |Plan(p, doc)| ensures Plan(p, doc)[i].field != Tex {
      assert Plan(p, doc)[i] in Plan(p, doc);
    }
  }

  /** A document whose file name fails the filter gets no edit, whatever its lines hold. */
  lemma FilteredOutGetsNothing(p: Pass, doc: Document, lines: seq<string>)
    requires !Accepts(p, doc)
    ensures Plan(p, doc.(lines := lines)) == []
  {
  }

  /**
   With the default end delimiter `$`, the birth slot runs to the end of the line, so a birth
   stamp is written exactly when the start delimiter's first match ends the line.
   */
  lemma DefaultBirthEnd(p: Pass, lineNo: nat, text: string)
    requires AnchorsAtEnd(p.engine) && p.cfg.birthTimeEnd == "$"
    ensures BirthEdit(p, lineNo, text).Some? <==>
      p.engine(p.cfg.birthTimeStart, text).Some? && p.engine(p.cfg.birthTimeStart, text).value.End() == |text|
    ensures BirthSlot(p, lineNo, text).Some? ==> BirthSlot(p, lineNo, text).value.end == |text|
  {
    BetweenEndAnchor(lineNo, text, Compile(p.engine, p.cfg.birthTimeStart), Compile(p.engine, p.cfg.birthTimeEnd));
  }

  /**
   With the default end delimiter `$`, a modified slot is found, and so rewritten, exactly when
   the start delimiter matches; it spans everything after the delimiter.
   */
  lemma DefaultModifiedEnd(p: Pass, lineNo: nat, text: string)
    requires AnchorsAtEnd(p.engine) && p.cfg.modifiedTimeEnd == "$"
    ensures ModifiedEdit(p, lineNo, text).Some? <==> p.engine(p.cfg.modifiedTimeStart, text).Some?
    ensures ModifiedEdit(p, lineNo, text).Some? ==>
      ModifiedEdit(p, lineNo, text).value.range.start == p.engine(p.cfg.modifiedTimeStart, text).value.End() &&
      ModifiedEdit(p, lineNo, text).value.range.end == |text|
  {
    BetweenEndAnchor(lineNo, text, Compile(p.engine, p.cfg.modifiedTimeStart), Compile(p.engine, p.cfg.modifiedTimeEnd));
  }

  /**
   Under the default settings, with an engine that reads `$` as the end of the line: a birth
   stamp is written exactly when the first `[cC]reated *: ` match ends the line, a modified
   slot is rewritten exactly when `[lL]ast[ -][mM]odified *: ` matches, and both stamps are the
   default token format followed by `" by "` and the user name.
   */
  lemma DefaultSettingsOnLine(p: Pass, user: string, lineNo: nat, text: string)
    requires p.cfg == Resolve(Unset(), user) && AnchorsAtEnd(p.engine)
    ensures BirthEdit(p, lineNo, text).Some? <==>
      p.engine("[cC]reated *: ", text).Some? && p.engine("[cC]reated *: ", text).value.End() == |text|
    ensures BirthEdit(p, lineNo, text).Some? ==>
      BirthEdit(p, lineNo, text).value.range.end == |text| &&
      BirthEdit(p, lineNo, text).value.newText == p.fmt.toFormat(p.birth, "yyyy/MM/dd HH:mm:ss") + " by " + user
    ensures ModifiedEdit(p, lineNo, text).Some? <==> p.engine("[lL]ast[ -][mM]odified *: ", text).Some?
    ensures ModifiedEdit(p, lineNo, text).Some? ==>
      ModifiedEdit(p, lineNo, text).value.range.end == |text| &&
      ModifiedEdit(p, lineNo, text).value.newText == p.fmt.toFormat(p.now, "yyyy/MM/dd HH:mm:ss") + " by " + user
  {
    DefaultBirthEnd(p, lineNo, text);
    DefaultModifiedEnd(p, lineNo, text);
    BirthPolicy(p, lineNo, text);
    ModifiedPolicy(p, lineNo, text);
  }

  /**
   The default TeX placeholder has no metacharacters: in a TeX document it is replaced exactly
   when it occurs on the line, at its leftmost occurrence.
   */
  lemma LiteralTexPlaceholder(p: Pass, languageId: string, lineNo: nat, text: string)
    requires SearchesLiterally(p.engine, p.cfg.texPlaceholder) && IsTexLanguage(languageId)
    ensures TexEdit(p, languageId, lineNo, text).Some? <==>
      exists j :: 0 <= j && OccursAt(p.cfg.texPlaceholder, text, j)
    ensures TexEdit(p, languageId, lineNo, text).Some? ==>
      var r := TexEdit(p, languageId, lineNo, text).value.range;
      Content(text, r) == p.cfg.texPlaceholder && forall j :: 0 <= j < r.start ==> !OccursAt(p.cfg.texPlaceholder, text, j)
  {
    var lit := p.cfg.texPlaceholder;
    var m := LiteralMatch(lit, text);
    assert p.engine(lit, text) == m;
    if m.None? {
      assert forall j :: 0 <= j ==> !OccursAt(lit, text, j);
    } else {
      assert OccursAt(lit, text, m.value.index);
    }
  }
}
