/** Row iterators of `ir_impl.go`: one result set (`rowIter`), and a list of
    queries flattened into one stream (`multiQueriesChunkIter`). */
module RowIters {
  import opened Common
  import opened RowText

  /** What the server makes of one query: an error at once, or some rows after
      which the result may break off, and whether closing it then fails. */
  datatype Answer = Refused | Answered(rows: seq<Record>, breaks: bool, closeFails: bool)

  /** `sql.Rows`: how many rows `Next` has moved to, and whether it has reported the end. */
  datatype Cursor = Cursor(answer: Answer, moved: nat, ended: bool)

  predicate ValidCursor(c: Cursor) {
    c.answer.Answered? && c.moved <= |c.answer.rows| && (c.ended ==> c.moved == |c.answer.rows|)
  }

  /** `Rows.Next`, with its result. */
  function Advance(c: Cursor): (r: (Cursor, bool))
    requires ValidCursor(c)
    ensures ValidCursor(r.0) && r.0.answer == c.answer
  {
    if c.moved < |c.answer.rows| then (c.(moved := c.moved + 1), true) else (c.(ended := true), false)
  }

  lemma FirstRow(answer: Answer)
    requires answer.Answered?
    ensures ValidCursor(Cursor(answer, 0, false))
    ensures var (c, more) := Advance(Cursor(answer, 0, false));
            if more then OnRow(c, answer) && c.moved == 1 && answer.rows[0..] == answer.rows
            else Done(c, answer) && answer.rows == []
  {
  }

  /** The cursor of an answer whose rows are used up. */
  predicate Done(c: Cursor, answer: Answer) {
    ValidCursor(c) && c.answer == answer && c.ended
  }

  /** A cursor that stands on a row of its answer. */
  predicate OnRow(c: Cursor, answer: Answer) {
    ValidCursor(c) && c.answer == answer && !c.ended && c.moved > 0
  }

  /** Moving on takes the current row from the front of what is left. */
  lemma NextRow(c: Cursor, answer: Answer, more: seq<Record>)
    requires OnRow(c, answer)
    ensures var (d, found) := Advance(c);
            var left := answer.rows[c.moved - 1..] + more;
            if found then OnRow(d, answer) && answer.rows[d.moved - 1..] + more == left[1..]
            else Done(d, answer) && more == left[1..]
  {
  }

  lemma DoneMeans(c: Cursor, answer: Answer)
    requires Done(c, answer)
    ensures answer.Answered? && c.answer == answer && CursorErr(c) == answer.breaks
  {
  }

  /** `Rows.Err`: a broken result shows once its rows are used up. */
  predicate CursorErr(c: Cursor) {
    c.ended && c.answer.Answered? && c.answer.breaks
  }

  // ---- what a list of queries should yield ----

  /** A query whose failure stops the stream; a failing close goes unnoticed only
      behind the last query. */
  predicate Stops(a: Answer, last: bool) {
    a.Refused? || a.breaks || (a.closeFails && !last)
  }

  function RowsIn(a: Answer): seq<Record> {
    if a.Refused? then [] else a.rows
  }

  /** The rows up to the first failure. */
  function Yielded(answers: seq<Answer>): seq<Record> {
    if answers == [] then []
    else if Stops(answers[0], |answers| == 1) then RowsIn(answers[0])
    else RowsIn(answers[0]) + Yielded(answers[1..])
  }

  predicate Failing(answers: seq<Answer>) {
    answers != [] && (Stops(answers[0], |answers| == 1) || Failing(answers[1..]))
  }

  function AllRows(answers: seq<Answer>): seq<Record> {
    if answers == [] then [] else RowsIn(answers[0]) + AllRows(answers[1..])
  }

  predicate BadAnswer(a: Answer, anotherFollows: bool) {
    match a
    case Refused => true
    case Answered(_, breaks, closeFails) => breaks || (closeFails && anotherFollows)
  }

  /** Without a failure the stream is the concatenation of all results; with one
      it is a part of it from the front. It fails exactly when some query is refused,
      breaks off, or fails to close before another one. */
  lemma {:induction false} YieldsConcatenation(answers: seq<Answer>)
    ensures Yielded(answers) <= AllRows(answers)
    ensures !Failing(answers) ==> Yielded(answers) == AllRows(answers)
    ensures Failing(answers) <==> exists i :: 0 <= i < |answers| && BadAnswer(answers[i], i < |answers| - 1)
  {
    if answers != [] {
      YieldsConcatenation(answers[1..]);
      if Failing(answers) && !Stops(answers[0], |answers| == 1) {
        var i :| 0 <= i < |answers| - 1 && BadAnswer(answers[1..][i], i < |answers| - 2);
        assert BadAnswer(answers[i + 1], i + 1 < |answers| - 1);
      }
      if i :| 0 <= i < |answers| && BadAnswer(answers[i], i < |answers| - 1) {
        if i > 0 {
          assert BadAnswer(answers[1..][i - 1], i - 1 < |answers| - 2);
        }
      }
    }
  }

  /** What comes after the rows of query `id - 1`: further rows, and whether an
      error ends them. */
  function Pending(answers: seq<Answer>, id: nat): (seq<Record>, bool)
    requires id <= |answers|
  {
    if id > 0 && Stops(answers[id - 1], id == |answers|) then ([], true)
    else (Yielded(answers[id..]), Failing(answers[id..]))
  }

  lemma PendingStep(answers: seq<Answer>, id: nat)
    requires id < |answers|
    requires id > 0 ==> !Stops(answers[id - 1], false)
    ensures answers[id].Answered? && answers[id].rows == [] ==> Pending(answers, id) == Pending(answers, id + 1)
    ensures answers[id].Answered? ==> Pending(answers, id) == (answers[id].rows + Pending(answers, id + 1).0, Pending(answers, id + 1).1)
    ensures answers[id].Refused? ==> Pending(answers, id) == ([], true)
  {
    assert answers[id..][1..] == answers[id + 1..];
    var a := answers[id];
    assert RowsIn(a) + [] == RowsIn(a);
    assert [] + Pending(answers, id + 1).0 == Pending(answers, id + 1).0;
  }

  lemma StoppedHere(answers: seq<Answer>, id: nat)
    requires 0 < id <= |answers|
    ensures var a := answers[id - 1];
            if a.Refused? || a.breaks || (a.closeFails && id < |answers|) then Pending(answers, id) == ([], true)
            else !Stops(a, id == |answers|)
  {
  }

  lemma PendingEnds(answers: seq<Answer>)
    ensures Pending(answers, |answers|) == ([], answers != [] && Stops(answers[|answers| - 1], true))
    ensures Pending(answers, 0) == (Yielded(answers), Failing(answers))
  {
    assert answers[|answers|..] == [] && answers[0..] == answers;
  }

  // ---- many queries ----

  class MultiQueriesChunkIter {
    const answers: seq<Answer>
    /** The rows of the stream, counted from 0, that cannot be converted, and how
        many rows have been passed. */
    const undecodable: set<nat>
    var passed: nat
    var rows: Option<Cursor>
    var hasNext: bool
    var id: nat
    var err: bool

    ghost predicate Valid()
      reads this
    {
      && id <= |answers|
      && (rows.Some? <==> id > 0)
      && (rows.Some? ==> ValidCursor(rows.value) && rows.value.answer == answers[id - 1])
      && (err ==> !hasNext)
      && (hasNext ==> rows.Some? && rows.value.moved > 0 && !rows.value.ended)
      && (!hasNext && !err ==> id == |answers| && (rows.Some? ==> rows.value.ended))
    }

    /** The rows still to be decoded, the current one first. */
    ghost function Left(): seq<Record>
      requires Valid()
      reads this
    {
      if !hasNext then [] else answers[id - 1].rows[rows.value.moved - 1..] + Pending(answers, id).0
    }

    /** Whether the stream will end, or has ended, in an error. */
    ghost predicate Fails()
      requires Valid()
      reads this
    {
      err || Pending(answers, id).1
    }

    constructor (answers: seq<Answer>, undecodable: set<nat>)
      ensures Valid() && this.answers == answers && this.undecodable == undecodable && passed == 0
      ensures Left() == Yielded(answers) && Fails() == Failing(answers)
    {
      this.answers, this.undecodable, passed := answers, undecodable, 0;
      rows, hasNext, id, err := None, false, 0, false;
      new;
      PendingEnds(answers);
      NextRows();
    }

    /** `nextRows`: the first row of the next query that has one. */
    method NextRows()
      requires id <= |answers| && !err && !hasNext
      requires rows.Some? <==> id > 0
      requires rows.Some? ==> Done(rows.value, answers[id - 1])
      modifies `rows, `hasNext, `id, `err
      ensures Valid()
      ensures Left() == Pending(answers, old(id)).0 && Fails() == Pending(answers, old(id)).1
    {
      hide *;
      PendingEnds(answers);
      ghost var pending := Pending(answers, id);
      if id >= |answers| {
        hasNext := false;
        Settled();
        return;
      }
      while id < |answers|
        invariant id <= |answers| && !err && !hasNext
        invariant rows.Some? <==> id > 0
        invariant rows.Some? ==> Done(rows.value, answers[id - 1])
        invariant Pending(answers, id) == pending
      {
        if rows.Some? {
          DoneMeans(rows.value, answers[id - 1]);
          StoppedHere(answers, id);
          if rows.value.answer.closeFails {
            hasNext, err := false, true;
            break;
          }
          if CursorErr(rows.value) {
            hasNext, err := false, true;
            break;
          }
        }
        PendingStep(answers, id);
        var answer := answers[id];
        if answer.Refused? {
          hasNext, err := false, true;
          break;
        }
        FirstRow(answer);
        id := id + 1;
        var (c, more) := Advance(Cursor(answer, 0, false));
        rows, hasNext := Some(c), more;
        if hasNext {
          break;
        }
      }
      Settled();
    }

    /** The three ways the search for a row ends. */
    lemma Settled()
      requires id <= |answers|
      requires rows.Some? <==> id > 0
      requires rows.Some? ==> (if hasNext then OnRow(rows.value, answers[id - 1]) else Done(rows.value, answers[id - 1]))
      requires if err then !hasNext else hasNext || id == |answers|
      requires hasNext ==> id > 0
      ensures Valid()
      ensures Left() == (if hasNext then answers[id - 1].rows[rows.value.moved - 1..] + Pending(answers, id).0 else [])
      ensures Fails() == (err || Pending(answers, id).1)
    {
      hide Pending, Stops, Advance;
    }

    lemma Standing()
      requires Valid() && hasNext
      ensures !err && 0 < id <= |answers| && rows.Some? && ValidCursor(rows.value) && OnRow(rows.value, answers[id - 1])
      ensures Left() == answers[id - 1].rows[rows.value.moved - 1..] + Pending(answers, id).0
      ensures Fails() == Pending(answers, id).1
    {
      hide Pending;
    }

    /** `Next`. */
    method Next()
      requires Valid() && hasNext
      modifies this
      ensures Valid() && Left() == old(Left())[1..] && Fails() == old(Fails()) && passed == old(passed) + 1
    {
      hide *;
      Standing();
      passed := passed + 1;
      if !err {
        NextRow(rows.value, answers[id - 1], Pending(answers, id).0);
        var (c, more) := Advance(rows.value);
        rows, hasNext := Some(c), more;
        if hasNext {
          Settled();
        } else {
          NextRows();
        }
      }
    }

    /** The current row cannot be converted. */
    predicate BadRow()
      reads this
    {
      hasNext && passed in undecodable
    }

    /** `Decode`: the current row, or an error of the conversion. */
    method Decode() returns (row: Option<Record>)
      requires Valid()
      ensures row.Some? <==> hasNext && !BadRow()
      ensures row.Some? ==> row.value == Left()[0]
    {
      if err || rows.None? || !hasNext {
        return None;
      }
      if passed in undecodable {
        return None;
      }
      row := Some(rows.value.answer.rows[rows.value.moved - 1]);
    }

    /** `Error`. */
    predicate Error()
      reads this
    {
      err || (rows.Some? && CursorErr(rows.value))
    }

    lemma BadRowMeans()
      ensures BadRow() <==> hasNext && passed in undecodable
    {
    }

    lemma LeftIff()
      requires Valid()
      ensures hasNext <==> Left() != []
    {
    }

    lemma ErrorMeans()
      requires Valid() && Error()
      ensures Fails()
    {
      PendingEnds(answers);
    }

    lemma ErrorAtEnd()
      requires Valid() && !hasNext
      ensures Error() == Fails() && Left() == []
    {
      PendingEnds(answers);
    }
  }

  // ---- one query ----

  /** `rowIter`: the same contract with a single result. */
  class RowIter {
    var rows: Cursor
    var hasNext: bool

    ghost predicate Valid()
      reads this
    {
      ValidCursor(rows) && if hasNext then rows.moved > 0 && !rows.ended else rows.ended
    }

    ghost function Left(): seq<Record>
      requires Valid()
      reads this
    {
      if hasNext then rows.answer.rows[rows.moved - 1..] else []
    }

    constructor (answer: Answer)
      requires answer.Answered?
      ensures Valid() && rows.answer == answer && Left() == Yielded([answer])
    {
      var (c, more) := Advance(Cursor(answer, 0, false));
      rows, hasNext := c, more;
      new;
      assert [answer][1..] == [];
    }

    method Next()
      requires Valid() && hasNext
      modifies this
      ensures Valid() && rows.answer == old(rows.answer) && Left() == old(Left())[1..]
    {
      var (c, more) := Advance(rows);
      rows, hasNext := c, more;
    }

    lemma ErrorAtEnd()
      requires Valid() && !hasNext
      ensures CursorErr(rows) == Failing([rows.answer])
    {
      assert [rows.answer][1..] == [];
    }
  }

  lemma DecodableNone(undecodable: set<nat>)
    ensures forall a :: Decodable(undecodable, a, a)
  {
  }

  /** One row more, and a bad row. */
  lemma DecodableOne(undecodable: set<nat>, a: nat, b: nat, c: nat)
    requires a <= b < c && Decodable(undecodable, a, b)
    ensures b !in undecodable ==> Decodable(undecodable, a, b + 1)
    ensures b in undecodable ==> !Decodable(undecodable, a, c)
  {
  }

  lemma MoveOne<T>(out: seq<T>, left: seq<T>)
    requires left != []
    ensures out + left == (out + [left[0]]) + left[1..]
  {
  }

  /** None of the rows from `a` on and before `b` is undecodable. */
  ghost predicate Decodable(undecodable: set<nat>, a: nat, b: nat) {
    forall j :: a <= j < b ==> j !in undecodable
  }

  /** Any reader that decodes and moves on to the end gets the concatenation of
      all results, or learns of an error, exactly when a query or a row has one:
      never a short stream reported as complete. */
  method Drain(answers: seq<Answer>, undecodable: set<nat>) returns (out: seq<Record>, failed: bool)
    ensures out <= AllRows(answers)
    ensures !failed ==> out == AllRows(answers)
    ensures failed <==> Failing(answers) || !Decodable(undecodable, 0, |Yielded(answers)|)
  {
    var iter := new MultiQueriesChunkIter(answers, undecodable);
    YieldsConcatenation(answers);
    hide *;
    hide Decodable;
    out := [];
    DecodableNone(undecodable);
    while iter.hasNext
      invariant fresh(iter) && iter.Valid() && iter.answers == answers && iter.undecodable == undecodable
      invariant out + iter.Left() == Yielded(answers) && iter.Fails() == Failing(answers)
      invariant iter.passed == |out| && Decodable(undecodable, 0, |out|)
      decreases |iter.Left()|
    {
      iter.LeftIff();
      iter.BadRowMeans();
      DecodableOne(undecodable, 0, |out|, |Yielded(answers)|);
      var row := iter.Decode();
      if row.None? {
        return out, true;
      }
      MoveOne(out, iter.Left());
      out := out + [row.value];
      iter.Next();
    }
    iter.ErrorAtEnd();
    failed := iter.Error();
  }
}
