/**
 LineWindow: which lines of a document one save scans.

 A positive limit scans the first `limit` lines from the top, never more lines than the
 document has. A limit of zero or below scans the last `-limit` lines from the bottom
 upward, so a limit of zero scans nothing.
 */
module LineWindow {

  function Min(a: int, b: int): int { if a <= b then a else b }

  function Max(a: int, b: int): int { if a >= b then a else b }

  /** `a` comes strictly before `b` in the given scan direction. */
  predicate Precedes(a: nat, b: nat, ascending: bool) {
    if ascending then a < b else a > b
  }

  /** Every index comes strictly before every later one in the scan direction. */
  predicate Monotone(ws: seq<nat>, ascending: bool) {
    forall i, j :: 0 <= i < j < |ws| ==> Precedes(ws[i], ws[j], ascending)
  }

  predicate NoDuplicates(ws: seq<nat>) {
    forall i, j :: 0 <= i < j < |ws| ==> ws[i] != ws[j]
  }

  /** The lines a window covers, as an interval of line indices. */
  predicate Covers(limit: int, count: nat, x: int) {
    if limit > 0 then 0 <= x < Min(limit, count)
    else Max(count + limit, 0) <= x < count
  }

  /**
   The window as the extension computes it: top-down and ascending for a positive limit,
   bottom-up and descending otherwise.
   */
  function Window(limit: int, count: nat): (w: seq<nat>)
    ensures forall k :: 0 <= k < |w| ==> w[k] < count
    ensures Monotone(w, limit > 0)
    ensures forall x :: x in w <==> Covers(limit, count, x)
    ensures limit > 0 ==> |w| == Min(limit, count)
    ensures limit <= 0 ==> |w| == Min(-limit, count)
  {
    if limit > 0 then
      var w := seq(Min(limit, count), (k: int) requires 0 <= k < Min(limit, count) => k as nat);
      assert forall x :: x in w <==> Covers(limit, count, x) by {
        forall x | Covers(limit, count, x) ensures x in w {
          assert w[x] == x;
        }
      }
      w
    else
      var lo := Max(count + limit, 0);
      var w := seq(count - lo, (k: int) requires 0 <= k < count - lo => (count - 1 - k) as nat);
      assert forall x :: x in w <==> Covers(limit, count, x) by {
        forall x | Covers(limit, count, x) ensures x in w {
          assert w[count - 1 - x] == x;
        }
      }
      w
  }

  /** Position `k` of the window holds line `k` top-down, or line `count - 1 - k` bottom-up. */
  lemma WindowElements(limit: int, count: nat)
    ensures limit > 0 ==> forall k :: 0 <= k < |Window(limit, count)| ==> Window(limit, count)[k] == k
    ensures limit <= 0 ==> forall k :: 0 <= k < |Window(limit, count)| ==> Window(limit, count)[k] == count - 1 - k
  {
  }

  /** The window is empty exactly when the limit is zero or the document has no lines. */
  lemma WindowEmpty(limit: int, count: nat)
    ensures |Window(limit, count)| == 0 <==> limit == 0 || count == 0
  {
  }

  /** No line is scanned twice, whichever direction the window runs. */
  lemma WindowHasNoDuplicates(limit: int, count: nat)
    ensures NoDuplicates(Window(limit, count))
  {
    var w := Window(limit, count);
    forall i, j | 0 <= i < j < |w| ensures w[i] != w[j] {
      assert Precedes(w[i], w[j], limit > 0);
    }
  }

  /**
   The index loops of the extension: counting up from 0 while below `min(limit, count)`,
   or counting down from `count - 1` while at least `max(count + limit, 0)`.
   */
  method GetIndexRangeUntil(limit: int, count: nat) returns (indices: seq<nat>)
    ensures indices == Window(limit, count)
  {
    indices := [];
    if limit > 0 {
      var i := 0;
      var iMax := Min(limit, count);
      while i < iMax
        invariant 0 <= i <= iMax
        invariant |indices| == i
        invariant forall k :: 0 <= k < i ==> indices[k] == k
      {
        indices := indices + [i];
        i := i + 1;
      }
    } else {
      var i := count - 1;
      var iMin := Max(count + limit, 0);
      while i >= iMin
        invariant iMin - 1 <= i <= count - 1
        invariant |indices| == count - 1 - i
        invariant forall k :: 0 <= k < |indices| ==> indices[k] == count - 1 - k
      {
        indices := indices + [i];
        i := i - 1;
      }
    }
  }
}
