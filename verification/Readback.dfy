/** What a reader may make of a written list, and how the outcomes of reading
    two parts combine. */
module Readback {
  import opened Common

  /** The two lists disagree at an index both have. */
  ghost predicate Differ<T>(a: seq<T>, b: seq<T>) {
    exists i :: 0 <= i < |a| && i < |b| && a[i] != b[i]
  }

  /** All of the list when it was safe to write, otherwise a refusal or a wrong
      element where one was expected. */
  ghost predicate Outcome<T>(safe: bool, written: seq<T>, read: Option<seq<T>>) {
    if safe then read == Some(written)
    else read.None? || Differ(read.value, written)
  }

  function Both<T>(ra: Option<seq<T>>, rb: Option<seq<T>>): Option<seq<T>> {
    if ra.Some? && rb.Some? then Some(ra.value + rb.value) else None
  }

  lemma DifferExtends<T>(a: seq<T>, b: seq<T>, a': seq<T>, b': seq<T>)
    requires Differ(a, b)
    ensures Differ(a + a', b + b')
  {
    var i :| 0 <= i < |a| && i < |b| && a[i] != b[i];
    assert (a + a')[i] != (b + b')[i];
  }

  lemma DifferShifts<T>(p: seq<T>, a: seq<T>, b: seq<T>)
    requires Differ(a, b)
    ensures Differ(p + a, p + b)
  {
    var i :| 0 <= i < |a| && i < |b| && a[i] != b[i];
    assert (p + a)[|p| + i] != (p + b)[|p| + i];
  }

  /** Reading one part and then the other. */
  lemma OutcomesJoin<T>(safeA: bool, a: seq<T>, safeB: bool, b: seq<T>, ra: Option<seq<T>>, rb: Option<seq<T>>)
    requires Outcome(safeA, a, ra)
    requires safeA ==> Outcome(safeB, b, rb)
    ensures Outcome(safeA && safeB, a + b, Both(ra, rb))
  {
    if ra.Some? && rb.Some? {
      if !safeA {
        DifferExtends(ra.value, a, rb.value, b);
      } else if !safeB {
        DifferShifts(a, rb.value, b);
      }
    }
  }

  /** One element, read as `r`. */
  lemma OneOutcome<T>(safe: bool, x: T, r: Option<T>)
    requires if safe then r == Some(x) else r.None? || r.value != x
    ensures Outcome(safe, [x], if r.Some? then Some([r.value]) else None)
  {
    if !safe && r.Some? {
      assert [r.value][0] != [x][0];
    }
  }

  /** A wrong first element spoils the list, whatever follows. */
  lemma BadHead<T>(written: seq<T>, read: Option<seq<T>>)
    requires written != []
    requires read.Some? ==> read.value != [] && read.value[0] != written[0]
    ensures Outcome(false, written, read)
  {
    if read.Some? {
      assert read.value[0] != written[0];
    }
  }
}
