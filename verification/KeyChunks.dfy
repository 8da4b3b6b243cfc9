/** Splitting a table by an integer key (`concurrentDumpTable`), with the user
    filter around each chunk, and what all splitters share. */
module KeyChunks {
  import opened Common
  import opened SqlExpr
  import opened Decimal

  // ---- the condition of one query ----

  /** `buildWhereCondition`: both conditions in brackets when both are there. */
  function Condition(user: seq<Token>, where: seq<Token>): seq<Token> {
    if user != [] && where != [] then [LP] + user + [RP] + ([AndKw] + ([LP] + where + [RP]))
    else user + where
  }

  /** A query without a condition returns every row. */
  predicate QuerySelects(condition: seq<Token>, row: Row) {
    condition == [] || Selects(condition, row)
  }

  lemma ConditionMeaning(user: seq<Token>, where: seq<Token>, row: Row)
    requires user != [] ==> ParseAll(user).Some?
    requires where != [] && ParseAll(where).Some?
    ensures QuerySelects(Condition(user, where), row)
       <==> QuerySelects(Condition(user, []), row) && Selects(where, row)
  {
    if user == [] {
      assert Condition([], where) == where && Condition(user, []) == [];
    } else {
      assert Condition(user, []) == user;
      var e, w := ParseAll(user).value, ParseAll(where).value;
      var right := [LP] + where + [RP];
      ParseBracketed(user, [AndKw] + right);
      ParseBracketed(where, []);
      assert [LP] + where + [RP] + [] == right;
      var all := Condition(user, where);
      assert all == [LP] + user + [RP] + ([AndKw] + right);
      TailStep(1, e, right, w, []);
      ParseOperand(1, all, e, [AndKw] + right);
      ConjunctIsAll(all, And(e, w));
    }
  }

  // ---- chunk tasks and how often they return a row ----

  datatype ChunkTask = ChunkTask(condition: seq<Token>, index: nat, total: int)

  /** How many of the queries return the row. */
  function Times(tasks: seq<ChunkTask>, row: Row): nat {
    if tasks == [] then 0
    else (if QuerySelects(tasks[0].condition, row) then 1 else 0) + Times(tasks[1..], row)
  }

  lemma {:induction false} TimesNone(tasks: seq<ChunkTask>, row: Row)
    requires forall i :: 0 <= i < |tasks| ==> !QuerySelects(tasks[i].condition, row)
    ensures Times(tasks, row) == 0
  {
    if tasks != [] { TimesNone(tasks[1..], row); }
  }

  lemma {:induction false} TimesOnce(tasks: seq<ChunkTask>, row: Row, k: nat)
    requires k < |tasks|
    requires forall i :: 0 <= i < |tasks| ==> (QuerySelects(tasks[i].condition, row) <==> i == k)
    ensures Times(tasks, row) == 1
  {
    if k == 0 {
      TimesNone(tasks[1..], row);
    } else {
      TimesOnce(tasks[1..], row, k - 1);
    }
  }

  /** The channel of `sendTaskToChan`: a send is refused once the context is done,
      which it is after `budget` more sends. */
  class TaskChan {
    var sent: seq<ChunkTask>
    var budget: nat

    constructor (budget: nat)
      ensures sent == [] && this.budget == budget
    {
      sent := [];
      this.budget := budget;
    }

    method Send(task: ChunkTask) returns (ctxDone: bool)
      modifies this
      ensures ctxDone <==> old(budget) == 0
      ensures sent == if ctxDone then old(sent) else old(sent) + [task]
      ensures budget == if ctxDone then old(budget) else old(budget) - 1
    {
      ctxDone := budget == 0;
      if !ctxDone {
        sent := sent + [task];
        budget := budget - 1;
      }
    }
  }

  // ---- integer keys ----

  const TWO63: nat := 0x8000_0000_0000_0000
  const TWO64: nat := 0x1_0000_0000_0000_0000

  /** `big.Int.Uint64` and every `uint64` result: the low 64 bits. */
  function U64(x: nat): (r: nat)
    ensures r < TWO64
  {
    x % TWO64
  }

  /** Go's conversion of a `uint64` to `int`. */
  function AsInt(x: nat): int
    requires x < TWO64
  {
    if x < TWO63 then x else x - TWO64
  }

  /** The key distance covered by one chunk, for key spread `d` and `n` wanted chunks. */
  function EstimatedStep(d: nat, n: nat): nat
    requires n >= 1
  {
    U64(U64(d) / n + 1)
  }

  function TotalChunks(d: nat, n: nat): (total: nat)
    requires 1 <= n < TWO64
    ensures total < TWO64
  {
    if EstimatedStep(d, n) == 1 then U64(U64(d) + 1) else n
  }

  /** `field >= lo AND field < hi`, after `field IS NULL OR` when asked. */
  function ChunkWhere(field: string, lo: int, hi: int, withNull: bool): seq<Token> {
    (if withNull then [Ident(field), IsNullKw, OrKw] else [])
    + ([LP] + RangeTokens(field, lo, hi) + [RP])
  }

  /** Where chunk `i` starts. */
  function Start(minv: int, step: nat, i: nat): int {
    minv + i * step
  }

  /** The `i`-th task of a table whose keys start at `minv`. */
  function IntTask(user: seq<Token>, field: string, minv: int, step: nat, total: int, i: nat): ChunkTask {
    var lo := Start(minv, step, i);
    ChunkTask(Condition(user, ChunkWhere(field, lo, lo + step, user == [] && i == 0)), i, total)
  }

  /** How often the chunk loop runs. */
  function ChunkCount(d: nat, step: nat): nat
    requires step > 0
  {
    d / step + 1
  }

  lemma MulMonotone(a: int, b: int, c: nat)
    requires a <= b
    ensures a * c <= b * c
  {
  }

  lemma DivUnique(y: nat, step: nat, i: nat)
    requires step > 0
    ensures i * step <= y < i * step + step <==> i == y / step
    ensures i * step <= y <==> i <= y / step
  {
    var q := y / step;
    assert q * step <= y < q * step + step;
    if i < q {
      MulMonotone(i + 1, q, step);
    } else if q < i {
      MulMonotone(q + 1, i, step);
    }
  }

  lemma QuotientBounds(y: nat, step: nat)
    requires step > 0
    ensures 0 <= y / step <= y
    ensures step <= y ==> y / step >= 1
    ensures step >= 2 ==> 2 * (y / step) <= y
  {
    DivUnique(y, step, y / step);
    DivUnique(y, step, 1);
    MulMonotone(1, step, y / step);
    if step >= 2 {
      MulMonotone(2, step, y / step);
    }
  }

  /** The estimates at the head of `concurrentDumpTable`. */
  method EstimateChunks(spread: nat, count: nat, rows: nat) returns (step: nat, totalChunks: nat)
    requires 1 <= rows <= count < TWO64
    ensures 1 <= count / rows < TWO64
    ensures step == EstimatedStep(spread, count / rows)
    ensures totalChunks == TotalChunks(spread, count / rows)
  {
    var estimatedChunks := count / rows;
    QuotientBounds(count, rows);
    step := EstimatedStep(spread, estimatedChunks);
    totalChunks := estimatedChunks;
    if step == 1 {
      totalChunks := U64(U64(spread) + 1);
    }
  }

  /** Whether the loop sends an `i`-th task; with a step of 0 it always does. */
  predicate Due(d: nat, step: nat, i: nat) {
    step == 0 || i < ChunkCount(d, step)
  }

  lemma LoopGuard(minv: int, maxv: int, step: nat, i: nat)
    requires minv <= maxv
    ensures Start(minv, step, i) <= maxv <==> Due(maxv - minv, step, i)
    ensures Start(minv, step, i + 1) == Start(minv, step, i) + step
    ensures Start(minv, step, 0) == minv
  {
    if step > 0 {
      DivUnique(maxv - minv, step, i);
    }
    assert (i + 1) * step == i * step + step;
  }

  /** How many tasks are sent when the context lasts for `budget` sends. */
  function Sends(d: nat, step: nat, budget: nat): nat {
    if step == 0 then budget else Min(budget, ChunkCount(d, step))
  }

  lemma SendsIs(d: nat, step: nat, budget: nat, n: nat)
    requires n <= budget
    requires n == 0 || Due(d, step, n - 1)
    ensures n == budget || !Due(d, step, n) ==> n == Sends(d, step, budget)
  {
  }

  lemma TaskAt(user: seq<Token>, field: string, minv: int, step: nat, total: int, i: nat, lo: int)
    requires lo == Start(minv, step, i)
    ensures ChunkTask(Condition(user, ChunkWhere(field, lo, lo + step, user == [] && i == 0)), i, total)
         == IntTask(user, field, minv, step, total, i)
  {
  }

  /** The tasks sent so far are the first ones of the plan. */
  ghost predicate Planned(tasks: seq<ChunkTask>, user: seq<Token>, field: string, minv: int, step: nat, total: int) {
    forall i :: 0 <= i < |tasks| ==> tasks[i] == IntTask(user, field, minv, step, total, i)
  }

  lemma PlannedStep(tasks: seq<ChunkTask>, user: seq<Token>, field: string, minv: int, step: nat, total: int)
    ensures Planned([], user, field, minv, step, total)
    ensures Planned(tasks, user, field, minv, step, total) ==>
              Planned(tasks + [IntTask(user, field, minv, step, total, |tasks|)], user, field, minv, step, total)
  {
    hide IntTask;
  }

  /** The loop of `concurrentDumpTable`: the planned tasks in order, up to the last
      one or the end of the context, which alone ends it when the step is 0. */
  method SendChunks(user: seq<Token>, field: string, minv: int, maxv: int, step: nat, total: int, ch: TaskChan)
      returns (ctxDone: bool)
    requires minv <= maxv && ch.sent == []
    modifies ch
    ensures |ch.sent| == Sends(maxv - minv, step, old(ch.budget))
    ensures ctxDone <==> Due(maxv - minv, step, old(ch.budget))
    ensures Planned(ch.sent, user, field, minv, step, total)
  {
    hide *;
    var cutoff := minv;
    var chunkIndex := 0;
    var nullCondition := user == [];
    LoopGuard(minv, maxv, step, 0);
    PlannedStep([], user, field, minv, step, total);
    while maxv >= cutoff
      invariant cutoff == Start(minv, step, chunkIndex)
      invariant nullCondition <==> user == [] && chunkIndex == 0
      invariant |ch.sent| == chunkIndex == old(ch.budget) - ch.budget
      invariant chunkIndex == 0 || Due(maxv - minv, step, chunkIndex - 1)
      invariant Planned(ch.sent, user, field, minv, step, total)
      decreases ch.budget
    {
      var nextCutOff := cutoff + step;
      var where := ChunkWhere(field, cutoff, nextCutOff, nullCondition);
      nullCondition := false;
      var task := ChunkTask(Condition(user, where), chunkIndex, total);
      TaskAt(user, field, minv, step, total, chunkIndex, cutoff);
      LoopGuard(minv, maxv, step, chunkIndex);
      PlannedStep(ch.sent, user, field, minv, step, total);
      SendsIs(maxv - minv, step, old(ch.budget), chunkIndex);
      ctxDone := ch.Send(task);
      if ctxDone {
        return;
      }
      cutoff := nextCutOff;
      chunkIndex := chunkIndex + 1;
    }
    LoopGuard(minv, maxv, step, chunkIndex);
    SendsIs(maxv - minv, step, old(ch.budget), chunkIndex);
    NeverDueAgain(maxv - minv, step, chunkIndex, old(ch.budget));
    ctxDone := false;
  }

  /** Wide enough for at most `n` chunks, and no narrower step is. */
  ghost predicate LeastStep(d: nat, n: nat, step: nat) {
    && step > 0 && ChunkCount(d, step) <= n
    && forall s: nat :: 0 < s < step ==> ChunkCount(d, s) > n
  }

  /** The step is the least one that needs no more chunks than were wanted, unless
      it wraps to zero. */
  lemma StepIsLeast(d: nat, n: nat)
    requires 1 <= n && d < TWO64
    ensures EstimatedStep(d, n) > 0 <==> LeastStep(d, n, EstimatedStep(d, n))
  {
    if EstimatedStep(d, n) > 0 {
      var q, step := d / n, EstimatedStep(d, n);
      StepIsPlain(d, n);
      hide EstimatedStep;
      DivUnique(d, n, q);
      assert n * step == q * n + n;
      DivUnique(d, step, n);
      forall s: nat | 0 < s < step ensures ChunkCount(d, s) > n {
        MulMonotone(s, q, n);
        assert n * s == s * n;
        DivUnique(d, s, n);
      }
    }
  }

  lemma StepIsPlain(d: nat, n: nat)
    requires 1 <= n && d < TWO64 && EstimatedStep(d, n) > 0
    ensures EstimatedStep(d, n) == d / n + 1
  {
    QuotientBounds(d, n);
    LowBits(d);
    LowBits(d / n + 1);
    hide U64;
  }

  lemma LowBits(x: nat)
    requires x <= TWO64
    ensures U64(x) == if x < TWO64 then x else 0
  {
  }

  lemma NeverDueAgain(d: nat, step: nat, i: nat, j: nat)
    requires !Due(d, step, i) && i <= j
    ensures !Due(d, step, j)
  {
  }

  /** `concurrentDumpTable` from the estimates on: chunks as narrow as `count / rows`
      of them allow. */
  method ConcurrentDumpTable(user: seq<Token>, field: string, minv: int, maxv: int, count: nat, rows: nat, ch: TaskChan)
      returns (ctxDone: bool)
    requires 1 <= rows <= count < TWO64 && minv <= maxv && ch.sent == []
    modifies ch
    ensures 1 <= count / rows < TWO64
    ensures |ch.sent| == Sends(maxv - minv, EstimatedStep(maxv - minv, count / rows), old(ch.budget))
    ensures ctxDone <==> Due(maxv - minv, EstimatedStep(maxv - minv, count / rows), old(ch.budget))
    ensures Planned(ch.sent, user, field, minv, EstimatedStep(maxv - minv, count / rows),
                    AsInt(TotalChunks(maxv - minv, count / rows)))
    ensures maxv - minv < TWO64 && EstimatedStep(maxv - minv, count / rows) > 0 ==>
              LeastStep(maxv - minv, count / rows, EstimatedStep(maxv - minv, count / rows))
  {
    var step, totalChunks := EstimateChunks(maxv - minv, count, rows);
    ctxDone := SendChunks(user, field, minv, maxv, step, AsInt(totalChunks), ch);
    if maxv - minv < TWO64 {
      StepIsLeast(maxv - minv, count / rows);
    }
  }

  // ---- coverage ----

  /** The server reads digits, a sign in front or not, as the number they denote. */
  ghost predicate ReadsDecimals(row: Row) {
    forall s: string :: s != "" && AllDigits(s) ==> row.lit(s) == Number(s) && row.lit("-" + s) == -(Number(s) as int)
  }

  lemma DecReads(n: int, row: Row)
    requires ReadsDecimals(row)
    ensures row.lit(Dec(n)) == n
  {
    NumberOfDigits(if n < 0 then -n else n);
    hide Digits, Number;
  }

  function RangeTokens(field: string, lo: int, hi: int): seq<Token> {
    [Ident(field), Gt, Eq, Lit(Dec(lo)), AndKw, Ident(field), Lt, Lit(Dec(hi))]
  }

  function RangeExpr(field: string, lo: int, hi: int): Expr {
    And(Compare(field, AtLeast, Dec(lo)), Compare(field, Less, Dec(hi)))
  }

  lemma RangeParses(field: string, lo: int, hi: int)
    ensures ParseAll(RangeTokens(field, lo, hi)) == Some(RangeExpr(field, lo, hi))
    ensures Parse(1, [LP] + RangeTokens(field, lo, hi) + [RP]) == Some((RangeExpr(field, lo, hi), []))
  {
    var inner := RangeTokens(field, lo, hi);
    var r := CompareTokens(field, Less, Dec(hi));
    var el, er := Compare(field, AtLeast, Dec(lo)), Compare(field, Less, Dec(hi));
    assert inner == CompareTokens(field, AtLeast, Dec(lo)) + ([AndKw] + r);
    assert r + [] == r;
    ParseCompare(field, AtLeast, Dec(lo), [AndKw] + r);
    ParseCompare(field, Less, Dec(hi), []);
    hide Parse, CompareTokens;
    ParseOperand(1, inner, el, [AndKw] + r);
    TailStep(1, el, r, er, []);
    ConjunctIsAll(inner, And(el, er));
    ParseBracketedConjunct(inner, []);
    assert [LP] + inner + [RP] + [] == [LP] + inner + [RP];
  }

  lemma ChunkWhereMeaning(field: string, lo: int, hi: int, withNull: bool, row: Row)
    requires ReadsDecimals(row)
    ensures ParseAll(ChunkWhere(field, lo, hi, withNull)).Some?
    ensures Selects(ChunkWhere(field, lo, hi, withNull), row)
       <==> match row.col(field)
            case None => withNull
            case Some(x) => lo <= x < hi
  {
    RangeParses(field, lo, hi);
    var bracketed := [LP] + RangeTokens(field, lo, hi) + [RP];
    DecReads(lo, row);
    DecReads(hi, row);
    hide Parse, ParseAll, RangeTokens;
    assert Eval(RangeExpr(field, lo, hi), row)
        == if row.col(field).Some? then Truth(lo <= row.col(field).value < hi) else Unknown;
    if withNull {
      assert Eval(Or(NullTest(field), RangeExpr(field, lo, hi)), row)
          == if row.col(field).Some? then Truth(lo <= row.col(field).value < hi) else True;
      NullOrParses(field, bracketed, RangeExpr(field, lo, hi));
      assert ChunkWhere(field, lo, hi, true) == [Ident(field), IsNullKw, OrKw] + bracketed;
    } else {
      assert ChunkWhere(field, lo, hi, false) == bracketed;
      ConjunctIsAll(bracketed, RangeExpr(field, lo, hi));
    }
  }

  lemma NullOrParses(field: string, ts: seq<Token>, e: Expr)
    requires Parse(1, ts) == Some((e, []))
    ensures ParseAll([Ident(field), IsNullKw, OrKw] + ts) == Some(Or(NullTest(field), e))
  {
    var all := [Ident(field), IsNullKw, OrKw] + ts;
    assert all[2..] == [OrKw] + ts;
    assert Parse(3, all) == Some((NullTest(field), [OrKw] + ts));
    assert Parse(2, all) == Some((NullTest(field), [OrKw] + ts));
    ParseOperand(1, all, NullTest(field), [OrKw] + ts);
    assert Tail(1, NullTest(field), [OrKw] + ts) == Some((NullTest(field), [OrKw] + ts));
    ParseOperand(0, all, NullTest(field), [OrKw] + ts);
    TailStep(0, NullTest(field), ts, e, []);
  }

  /** All tasks of the table, for a filter that is one condition on its own. */
  ghost predicate IntPlan(tasks: seq<ChunkTask>, user: seq<Token>, field: string, minv: int, maxv: int, step: nat,
                          total: int)
    requires step > 0
  {
    && minv <= maxv
    && (user != [] ==> ParseAll(user).Some?)
    && |tasks| == ChunkCount(maxv - minv, step)
    && Planned(tasks, user, field, minv, step, total)
  }

  /** The one chunk that owns a row, if any does. */
  function Owner(user: seq<Token>, field: string, minv: int, step: nat, row: Row): Option<nat>
    requires step > 0
  {
    if !QuerySelects(Condition(user, []), row) then None
    else
      match row.col(field)
      case None => if user == [] then Some(0) else None
      case Some(x) => if x < minv then None else Some((x - minv) / step)
  }

  lemma KeyInChunk(x: int, minv: int, step: nat, i: nat)
    requires step > 0
    ensures Start(minv, step, i) <= x < Start(minv, step, i) + step <==> minv <= x && i == (x - minv) / step
  {
    if x >= minv {
      DivUnique(x - minv, step, i);
    }
  }

  lemma OwnerIs(user: seq<Token>, field: string, minv: int, step: nat, row: Row, i: nat)
    requires step > 0
    ensures Owner(user, field, minv, step, row) == Some(i) <==>
              && QuerySelects(Condition(user, []), row)
              && match row.col(field)
                 case None => user == [] && i == 0
                 case Some(x) => Start(minv, step, i) <= x < Start(minv, step, i) + step
  {
    hide Start, QuerySelects;
    if row.col(field).Some? {
      KeyInChunk(row.col(field).value, minv, step, i);
    }
  }

  lemma IntTaskSelects(user: seq<Token>, field: string, minv: int, step: nat, total: int, i: nat, row: Row)
    requires ReadsDecimals(row) && step > 0
    requires user != [] ==> ParseAll(user).Some?
    ensures QuerySelects(IntTask(user, field, minv, step, total, i).condition, row)
       <==> Owner(user, field, minv, step, row) == Some(i)
  {
    hide *;
    var lo := Start(minv, step, i);
    var where := ChunkWhere(field, lo, lo + step, user == [] && i == 0);
    TaskAt(user, field, minv, step, total, i, lo);
    ChunkWhereMeaning(field, lo, lo + step, user == [] && i == 0, row);
    ChunkWhereIsThere(field, lo, lo + step, user == [] && i == 0);
    ConditionMeaning(user, where, row);
    OwnerIs(user, field, minv, step, row, i);
  }

  lemma ChunkWhereIsThere(field: string, lo: int, hi: int, withNull: bool)
    ensures ChunkWhere(field, lo, hi, withNull) != []
  {
  }

  /** Every row of the unchunked query is returned by exactly one chunk query;
      with a user filter the rows whose key is NULL are the exception, and no
      chunk returns them. `minv`/`maxv` bound the keys the filter lets through. */
  lemma {:induction false} IntChunksCoverOnce(tasks: seq<ChunkTask>, user: seq<Token>, field: string, minv: int,
                                              maxv: int, step: nat, total: int, row: Row)
    requires step > 0 && IntPlan(tasks, user, field, minv, maxv, step, total) && ReadsDecimals(row)
    requires QuerySelects(Condition(user, []), row) && row.col(field).Some? ==> minv <= row.col(field).value <= maxv
    ensures Times(tasks, row)
         == if QuerySelects(Condition(user, []), row) && (user == [] || row.col(field).Some?) then 1 else 0
    ensures row.col(field).None? && user == [] ==> QuerySelects(tasks[0].condition, row)
  {
    var owner := Owner(user, field, minv, step, row);
    forall i | 0 <= i < |tasks|
      ensures QuerySelects(tasks[i].condition, row) <==> owner == Some(i)
    {
      IntTaskSelects(user, field, minv, step, total, i, row);
    }
    OwnerInRange(user, field, minv, maxv, step, row);
    OwnerCounts(tasks, row, owner);
  }

  lemma OwnerInRange(user: seq<Token>, field: string, minv: int, maxv: int, step: nat, row: Row)
    requires step > 0 && minv <= maxv
    requires QuerySelects(Condition(user, []), row) && row.col(field).Some? ==> minv <= row.col(field).value <= maxv
    ensures var owner := Owner(user, field, minv, step, row);
            && (owner.Some? ==> owner.value < ChunkCount(maxv - minv, step))
            && (owner.Some? <==> QuerySelects(Condition(user, []), row) && (user == [] || row.col(field).Some?))
            && (row.col(field).None? && user == [] ==> owner == Some(0))
  {
    assert user == [] ==> QuerySelects(Condition(user, []), row);
    hide Condition, QuerySelects;
    if row.col(field).Some? && QuerySelects(Condition(user, []), row) {
      var x := row.col(field).value;
      QuotientOfKey(x - minv, maxv - minv, step);
      assert Owner(user, field, minv, step, row) == Some((x - minv) / step);
    }
  }

  lemma OwnerCounts(tasks: seq<ChunkTask>, row: Row, owner: Option<nat>)
    requires owner.Some? ==> owner.value < |tasks|
    requires forall i :: 0 <= i < |tasks| ==> (QuerySelects(tasks[i].condition, row) <==> owner == Some(i))
    ensures Times(tasks, row) == if owner.Some? then 1 else 0
  {
    hide QuerySelects;
    if owner.Some? {
      TimesOnce(tasks, row, owner.value);
    } else {
      TimesNone(tasks, row);
    }
  }

  lemma QuotientOfKey(x: nat, y: nat, step: nat)
    requires x <= y && step > 0
    ensures x / step < ChunkCount(y, step)
  {
    DivUnique(x, step, x / step);
    DivUnique(y, step, x / step);
  }

  // ---- how many chunks, and when the loop ends ----

  /** The step wraps to zero in one corner only. */
  lemma StepWrapsOnlyOnce(d: nat, n: nat)
    requires n >= 1
    ensures EstimatedStep(d, n) == 0 <==> n == 1 && d % TWO64 == TWO64 - 1
  {
    QuotientBounds(U64(d), n);
  }

  /** The loop variable passes the largest key after finitely many rounds
      exactly when the step is not zero. */
  lemma LoopEndsIff(minv: int, maxv: int, step: nat)
    requires minv <= maxv
    ensures (exists k: nat :: PastEnd(minv, maxv, step, k)) <==> step > 0
  {
    if step > 0 {
      var k := maxv - minv + 1;
      assert k * step >= k;
      assert PastEnd(minv, maxv, step, k);
    }
  }

  predicate PastEnd(minv: int, maxv: int, step: nat, k: nat) {
    maxv < minv + k * step
  }

  /** The announced total is an upper bound of the chunk count, equal to it when
      the step is 1, and in general equal exactly when the last of the wanted
      chunks still starts inside the key range. */
  lemma ChunkCountBounded(d: nat, n: nat)
    requires 1 <= n < TWO64 && d < TWO64 && EstimatedStep(d, n) > 0
    ensures ChunkCount(d, EstimatedStep(d, n)) <= TotalChunks(d, n)
    ensures ChunkCount(d, EstimatedStep(d, n)) == TotalChunks(d, n)
       <==> EstimatedStep(d, n) == 1 || (n - 1) * EstimatedStep(d, n) <= d
  {
    var q, step := d / n, EstimatedStep(d, n);
    StepIsPlain(d, n);
    assert U64(d) == d;
    hide EstimatedStep, U64;
    DivUnique(d, n, q);
    assert d < n * step by { assert n * step == q * n + n; }
    DivUnique(d, step, n);
    DivUnique(d, step, n - 1);
    if step == 1 {
      DivUnique(d, 1, d);
    }
  }

  // ---- the finish-table callback ----

  /** How often `handleTask` reports the table finished over these tasks. */
  function FinishReports(tasks: seq<ChunkTask>): nat {
    if tasks == [] then 0
    else (if tasks[0].index + 1 == tasks[0].total then 1 else 0) + FinishReports(tasks[1..])
  }

  lemma {:induction false} ReportsFrom(tasks: seq<ChunkTask>, first: nat, total: int)
    requires forall i :: 0 <= i < |tasks| ==> tasks[i].index == first + i && tasks[i].total == total
    ensures FinishReports(tasks) == if first < total <= first + |tasks| then 1 else 0
  {
    if tasks != [] {
      ReportsFrom(tasks[1..], first + 1, total);
    }
  }

  /** A table is reported finished at most once, and exactly when the announced
      total is the real number of chunks and fits an `int`. */
  lemma FinishedAtMostOnce(tasks: seq<ChunkTask>, user: seq<Token>, field: string, minv: int, maxv: int, n: nat)
    requires minv <= maxv && 1 <= n < TWO64 && maxv - minv < TWO64
    requires EstimatedStep(maxv - minv, n) > 0
    requires IntPlan(tasks, user, field, minv, maxv, EstimatedStep(maxv - minv, n), AsInt(TotalChunks(maxv - minv, n)))
    ensures FinishReports(tasks) <= 1
    ensures FinishReports(tasks) == 1 <==> |tasks| == TotalChunks(maxv - minv, n) && TotalChunks(maxv - minv, n) < TWO63
  {
    ChunkCountBounded(maxv - minv, n);
    ReportsFrom(tasks, 0, AsInt(TotalChunks(maxv - minv, n)));
  }
}
