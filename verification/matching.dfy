/**
 Matching: the abstract regular-expression layer the edit planner searches lines with.

 The extension compiles each configured pattern with JavaScript's `RegExp` and asks
 `String.prototype.match` for the first (leftmost) match. That engine is not modelled:
 an `Engine` is any function from a pattern source and a text to an optional match,
 constrained only by the one fact every caller relies on, namely that a match lies
 inside the searched text. Two matchers are given concretely: the end-of-line
 anchor `$` and a leftmost search for a literal pattern.
 */
module Matching {

  datatype Option<T> = None | Some(value: T)

  /** A match found in a text: where it starts and how many characters it spans. */
  datatype Match = Match(index: nat, length: nat) {
    /** The position just past the matched text. */
    function End(): nat { index + length }
  }

  /** A reported match never reaches past the end of the text it was found in. */
  predicate WithinText(m: Option<Match>, text: string) {
    m.Some? ==> m.value.End() <= |text|
  }

  function NeverMatches(text: string): Option<Match> { None }

  function NoEngine(pattern: string, text: string): Option<Match> { None }

  /** A compiled pattern: the first match in a text, if any. */
  type Matcher = f: string -> Option<Match> | forall t :: WithinText(f(t), t) witness NeverMatches

  /** A regular-expression engine: the first match of a pattern source in a text, if any. */
  type Engine = e: (string, string) -> Option<Match> | forall p, t :: WithinText(e(p, t), t) witness NoEngine

  /** The pattern compiled by the engine. */
  function Compile(e: Engine, source: string): Matcher
  {
    (t: string) => e(source, t)
  }

  /** The anchor `$` on a single line: it matches, with nothing, at the line's end. */
  function EndAnchor(text: string): Option<Match>
  {
    Some(Match(|text|, 0))
  }

  /** An engine treats `$` as the end-of-text anchor. */
  ghost predicate AnchorsAtEnd(e: Engine) {
    forall t :: e("$", t) == EndAnchor(t)
  }

  /** `lit` occurs in `text` starting at position `j`. */
  predicate OccursAt(lit: string, text: string, j: nat) {
    j + |lit| <= |text| && text[j..j + |lit|] == lit
  }

  /** The leftmost occurrence of `lit` in `text` at or after `from`. */
  function FindLiteral(lit: string, text: string, from: nat): (r: Option<nat>)
    ensures r.Some? ==> from <= r.value && OccursAt(lit, text, r.value)
    ensures r.Some? ==> forall j :: from <= j < r.value ==> !OccursAt(lit, text, j)
    ensures r.None? ==> forall j :: from <= j ==> !OccursAt(lit, text, j)
    decreases |text| - from
  {
    if from + |lit| > |text| then None
    else if text[from..from + |lit|] == lit then Some(from)
    else FindLiteral(lit, text, from + 1)
  }

  /** The first match of a pattern without metacharacters: the leftmost occurrence of its text. */
  function LiteralMatch(lit: string, text: string): (m: Option<Match>)
    ensures WithinText(m, text)
    ensures m.Some? ==> m.value.length == |lit| && OccursAt(lit, text, m.value.index)
    ensures m.Some? ==> forall j :: 0 <= j < m.value.index ==> !OccursAt(lit, text, j)
    ensures m.None? <==> forall j :: 0 <= j ==> !OccursAt(lit, text, j)
  {
    match FindLiteral(lit, text, 0)
    case None => None
    case Some(k) => Some(Match(k, |lit|))
  }

  /** An engine searches the metacharacter-free pattern `lit` as plain text. */
  ghost predicate SearchesLiterally(e: Engine, lit: string) {
    forall t :: e(lit, t) == LiteralMatch(lit, t)
  }
}
