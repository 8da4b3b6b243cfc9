/** `BaseConn.QuerySQL` of `conn.go`: a query that is tried again on a rebuilt
    connection, its half-gathered result reset in between. */
module QueryRetry {
  import opened RowText
  import opened RowIters

  const ATTEMPTS := 3

  /** What one attempt meets: whether the connection can be rebuilt, what the query
      answers, and whether the context is cancelled before the next attempt. */
  datatype Try = Try(rebuilds: bool, answer: Answer, cancelled: bool)

  /** `simpleQueryWithArgs` succeeds when the query is answered and its rows do not
      break off; an error of closing them is dropped. */
  predicate Good(t: Try) {
    t.answer.Answered? && !t.answer.breaks
  }

  /** Attempt `i` is made and succeeds; the first one needs no rebuild, and without
      a way to rebuild none does. */
  predicate Succeeds(tries: seq<Try>, canRebuild: bool, i: nat)
    requires i < |tries|
  {
    && (forall j :: 0 <= j < i ==> !tries[j].cancelled)
    && (i == 0 || !canRebuild || tries[i].rebuilds) && Good(tries[i])
  }

  class BaseConn {
    const canRebuild: bool
    var attempt: nat
    /** What the row handler has gathered, over all attempts so far. */
    var results: seq<Record>

    ghost predicate Valid()
      reads this
    {
      attempt == if canRebuild then ATTEMPTS else 1
    }

    constructor (canRebuild: bool)
      ensures Valid() && this.canRebuild == canRebuild && results == []
    {
      this.canRebuild := canRebuild;
      attempt, results := if canRebuild then ATTEMPTS else 1, [];
    }

    /** A query succeeds exactly when one of the attempts does; its result is that
        of the first such attempt and holds nothing of those before; and the next
        query has all its attempts again. */
    method QuerySQL(tries: seq<Try>) returns (ok: bool)
      requires Valid() && |tries| >= ATTEMPTS
      modifies this
      ensures Valid()
      ensures ok <==> exists i :: 0 <= i < (if canRebuild then 3 else 1) && Succeeds(tries, canRebuild, i)
      ensures forall i :: 0 <= i < (if canRebuild then 3 else 1) && Succeeds(tries, canRebuild, i)
                          && (forall j :: 0 <= j < i ==> !Succeeds(tries, canRebuild, j))
                ==> results == tries[i].answer.rows
    {
      var retryTime := 0;
      ok := false;
      results := [];
      while attempt > 0
        invariant retryTime + attempt == old(attempt)
        invariant forall j :: 0 <= j < retryTime ==> !tries[j].cancelled
        invariant forall j :: 0 <= j < retryTime ==> !Succeeds(tries, canRebuild, j)
        invariant results == []
        decreases attempt
      {
        var t := tries[retryTime];
        retryTime := retryTime + 1;
        if retryTime == 1 || !canRebuild || t.rebuilds {
          results := results + RowsIn(t.answer);
          if t.answer.Answered? && !t.answer.breaks {
            assert Succeeds(tries, canRebuild, retryTime - 1);
            ok := true;
            break;
          }
          results := [];
        }
        if t.cancelled {
          break;
        }
        attempt := attempt - 1;
      }
      attempt := if canRebuild then ATTEMPTS else 1;
    }
  }
}
