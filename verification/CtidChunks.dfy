/** Heap tables without an integer key: chunks of contiguous blocks
    (`concurrentDumpTableByCtid`). A ctid (block, offset) is the number
    block * OFFSETS + offset, which has the order of the pair. */
module CtidChunks {
  import opened Common
  import opened SqlExpr
  import opened Decimal
  import opened KeyChunks

  const OFFSETS: nat := 65536

  function Ctid(block: nat, offset: nat): nat
    requires offset < OFFSETS
  {
    block * OFFSETS + offset
  }

  lemma CtidOrder(b1: nat, o1: nat, b2: nat, o2: nat)
    requires o1 < OFFSETS && o2 < OFFSETS
    ensures Ctid(b1, o1) < Ctid(b2, o2) <==> b1 < b2 || (b1 == b2 && o1 < o2)
  {
  }

  /** The literal `'(<block>,0)'`. */
  function CtidLit(block: nat): string {
    "'(" + Digits(block) + ",0)'"
  }

  /** The server reads a quoted pair with offset 0 as the first address of the block. */
  ghost predicate ReadsCtids(row: Row) {
    forall s: string :: s != "" && AllDigits(s) ==> row.lit("'(" + s + ",0)'") == Ctid(Number(s), 0)
  }

  lemma CtidReads(block: nat, row: Row)
    requires ReadsCtids(row)
    ensures row.lit(CtidLit(block)) == Ctid(block, 0)
  {
    NumberOfDigits(block);
    hide Digits, Number, Ctid;
  }

  /** Pages per chunk for `wanted` chunks: never zero, never more than all pages. */
  function BlockStep(pages: nat, wanted: nat): (step: nat)
    requires pages >= 1 && wanted >= 1
    ensures 1 <= step <= pages
  {
    QuotientBounds(pages, wanted);
    if pages / wanted < 1 then 1 else pages / wanted
  }

  function BlockChunks(pages: nat, step: nat): nat
    requires step >= 1 && pages >= 1
  {
    (pages + step - 1) / step
  }

  function CtidWhere(lo: nat, hi: nat, last: bool): seq<Token> {
    if last then CompareTokens("ctid", AtLeast, CtidLit(lo))
    else CompareTokens("ctid", AtLeast, CtidLit(lo)) + ([AndKw] + CompareTokens("ctid", Less, CtidLit(hi)))
  }

  function BlockStart(step: nat, i: nat): nat {
    i * step
  }

  /** Task `i`; the last one has no upper end. */
  function CtidTask(user: seq<Token>, pages: nat, step: nat, total: int, i: nat): ChunkTask {
    var lo := BlockStart(step, i);
    ChunkTask(Condition(user, CtidWhere(lo, lo + step, lo + step >= pages)), i, total)
  }

  lemma BlockGuard(pages: nat, step: nat, i: nat)
    requires step >= 1 && pages >= 1
    ensures BlockStart(step, i) < pages <==> i < BlockChunks(pages, step)
    ensures BlockStart(step, i + 1) == BlockStart(step, i) + step
    ensures BlockStart(step, 0) == 0
  {
    DivUnique(pages + step - 1, step, i + 1);
    assert (i + 1) * step == i * step + step;
  }

  lemma CtidTaskAt(user: seq<Token>, pages: nat, step: nat, total: int, i: nat, lo: nat)
    requires lo == BlockStart(step, i)
    ensures ChunkTask(Condition(user, CtidWhere(lo, lo + step, lo + step >= pages)), i, total)
         == CtidTask(user, pages, step, total, i)
  {
  }

  function Wanted(count: nat, rows: nat): (e: nat)
    requires rows >= 1
    ensures e >= 1
  {
    if count / rows < 1 then 1 else count / rows
  }

  /** Step and chunk count, as computed before the loop. */
  method EstimateBlocks(pages: nat, count: nat, rows: nat) returns (step: nat, totalChunks: nat)
    requires rows >= 1 && pages >= 1
    ensures step == BlockStep(pages, Wanted(count, rows))
    ensures totalChunks == BlockChunks(pages, step)
  {
    var estChunks := count / rows;
    if estChunks < 1 {
      estChunks := 1;
    }
    QuotientBounds(pages, estChunks);
    assert estChunks == Wanted(count, rows);
    step := BlockStepOf(pages, estChunks);
    totalChunks := (pages + step - 1) / step;
  }

  method BlockStepOf(pages: nat, estChunks: nat) returns (step: nat)
    requires pages >= 1 && estChunks >= 1
    ensures step == BlockStep(pages, estChunks)
  {
    step := pages / estChunks;
    if step < 1 {
      step := 1;
    }
    assert step <= pages by { QuotientBounds(pages, estChunks); }
    if step > pages {
      step := pages;
    }
  }

  // ---- how many chunks ----

  /** `e` chunks are wanted: the table gets at least `e` and fewer than `2e`,
      or one chunk a page when there are fewer pages than that. */
  lemma BlockChunksBounded(pages: nat, e: nat)
    requires pages >= 1 && e >= 1
    ensures var total := BlockChunks(pages, BlockStep(pages, e));
            if e <= pages then e <= total <= 2 * e - 1 else total == pages
  {
    var step := BlockStep(pages, e);
    var q := pages / e;
    DivUnique(pages, e, q);
    if e <= pages {
      DivUnique(pages, e, 1);
      assert step == q;
      var y := pages + step - 1;
      assert e * step <= y;
      DivUnique(y, step, e);
      assert y < (2 * e) * step by {
        assert pages < q * e + e;
        MulMonotone(1, step, e);
        MulMonotone(0, step - 1, e - 1);
        TwiceBound(pages, e, step);
      }
      DivUnique(y, step, 2 * e);
    } else {
      assert q == 0 by { DivUnique(pages, e, 0); }
      DivUnique(pages, 1, pages);
    }
  }

  lemma TwiceBound(pages: nat, e: nat, step: nat)
    requires e >= 1 && step >= 1 && pages < step * e + e
    ensures pages + step - 1 < (2 * e) * step
  {
    // e + step - 1 <= e * step, since (e - 1) * (step - 1) >= 0
    assert (e - 1) * (step - 1) == e * step - e - step + 1;
    assert (e - 1) * (step - 1) >= 0;
  }

  /** The number of chunks for `n` wanted ones: at least `n` and fewer than `2n`, one
      a page when there are fewer pages, and one when less than one is wanted. */
  predicate AsWanted(pages: nat, n: nat, total: nat) {
    if n == 0 then total == 1
    else if n <= pages then n <= total <= 2 * n - 1
    else total == pages
  }

  lemma CountAsWanted(pages: nat, count: nat, rows: nat)
    requires pages >= 1 && rows >= 1
    ensures AsWanted(pages, count / rows, BlockChunks(pages, BlockStep(pages, Wanted(count, rows))))
  {
    BlockChunksBounded(pages, Wanted(count, rows));
    hide BlockChunks, BlockStep;
  }

  // ---- the tasks ----

  /** `concurrentDumpTableByCtid` from the page count on. */
  method ConcurrentDumpTableByCtid(user: seq<Token>, pages: int, count: nat, rows: nat, ch: TaskChan)
      returns (dispatched: bool, ctxDone: bool)
    requires rows >= 1 && ch.sent == []
    modifies ch
    ensures dispatched <==> pages >= 1
    ensures !dispatched ==> ch.sent == [] && !ctxDone
    ensures dispatched ==>
      var step := BlockStep(pages, Wanted(count, rows));
      var total := BlockChunks(pages, step);
      && AsWanted(pages, count / rows, total)
      && |ch.sent| == Min(old(ch.budget), total)
      && (ctxDone <==> old(ch.budget) < total)
      && forall i :: 0 <= i < |ch.sent| ==> ch.sent[i] == CtidTask(user, pages, step, total, i)
  {
    hide *;
    if pages <= 0 {
      return false, false;
    }
    var step, totalChunks := EstimateBlocks(pages, count, rows);
    CountAsWanted(pages, count, rows);
    var chunkIndex := 0;
    var blockStart := 0;
    BlockGuard(pages, step, 0);
    while blockStart < pages
      invariant blockStart == BlockStart(step, chunkIndex)
      invariant |ch.sent| == chunkIndex == old(ch.budget) - ch.budget && chunkIndex <= BlockChunks(pages, step)
      invariant forall i :: 0 <= i < |ch.sent| ==> ch.sent[i] == CtidTask(user, pages, step, totalChunks, i)
      decreases pages - blockStart
    {
      var blockEnd := blockStart + step;
      var where := CtidWhere(blockStart, blockEnd, blockEnd >= pages);
      var task := ChunkTask(Condition(user, where), chunkIndex, totalChunks);
      CtidTaskAt(user, pages, step, totalChunks, chunkIndex, blockStart);
      BlockGuard(pages, step, chunkIndex);
      ctxDone := ch.Send(task);
      if ctxDone {
        MinIs(old(ch.budget), totalChunks, chunkIndex);
        return true, true;
      }
      chunkIndex := chunkIndex + 1;
      blockStart := blockEnd;
    }
    BlockGuard(pages, step, chunkIndex);
    MinIs(old(ch.budget), totalChunks, chunkIndex);
    return true, false;
  }

  // ---- coverage ----

  lemma CtidWhereMeaning(lo: nat, hi: nat, last: bool, row: Row, block: nat, offset: nat)
    requires ReadsCtids(row) && offset < OFFSETS
    requires row.col("ctid") == Some(Ctid(block, offset))
    ensures CtidWhere(lo, hi, last) != [] && ParseAll(CtidWhere(lo, hi, last)).Some?
    ensures Selects(CtidWhere(lo, hi, last), row) <==> lo <= block && (last || block < hi)
  {
    var l, r := CompareTokens("ctid", AtLeast, CtidLit(lo)), CompareTokens("ctid", Less, CtidLit(hi));
    var el, er := Compare("ctid", AtLeast, CtidLit(lo)), Compare("ctid", Less, CtidLit(hi));
    CtidReads(lo, row);
    CtidReads(hi, row);
    CtidOrder(block, offset, lo, 0);
    CtidOrder(block, offset, hi, 0);
    ParseCompare("ctid", AtLeast, CtidLit(lo), []);
    assert l + [] == l;
    ParseCompare("ctid", AtLeast, CtidLit(lo), [AndKw] + r);
    ParseCompare("ctid", Less, CtidLit(hi), []);
    assert r + [] == r;
    var x := Ctid(block, offset);
    assert Eval(el, row) == Truth(x >= Ctid(lo, 0)) && Eval(er, row) == Truth(x < Ctid(hi, 0));
    assert Eval(And(el, er), row) == Truth(lo <= block < hi);
    hide Parse, ParseAll, Ctid, CtidLit, Eval;
    if last {
      ParseOperand(1, l, el, []);
      assert Tail(1, el, []) == Some((el, []));
      ConjunctIsAll(l, el);
    } else {
      ParseOperand(1, l + ([AndKw] + r), el, [AndKw] + r);
      TailStep(1, el, r, er, []);
      ConjunctIsAll(l + ([AndKw] + r), And(el, er));
    }
  }

  ghost predicate CtidPlan(tasks: seq<ChunkTask>, user: seq<Token>, pages: nat, step: nat, total: int)
    requires step >= 1 && pages >= 1
  {
    && (user != [] ==> ParseAll(user).Some?)
    && |tasks| == BlockChunks(pages, step)
    && forall i :: 0 <= i < |tasks| ==> tasks[i] == CtidTask(user, pages, step, total, i)
  }

  /** The chunk a block belongs to; blocks past the counted pages go to the last. */
  function BlockOwner(pages: nat, step: nat, block: nat): nat
    requires step >= 1 && pages >= 1
  {
    if block < pages then block / step else BlockChunks(pages, step) - 1
  }

  lemma BlockInChunk(pages: nat, step: nat, block: nat, i: nat)
    requires step >= 1 && pages >= 1 && i < BlockChunks(pages, step)
    ensures var lo := BlockStart(step, i);
            (lo <= block && (lo + step >= pages || block < lo + step)) <==> i == BlockOwner(pages, step, block)
    ensures BlockOwner(pages, step, block) < BlockChunks(pages, step)
  {
    var n := BlockChunks(pages, step);
    BlockGuard(pages, step, i);
    BlockGuard(pages, step, i + 1);
    BlockGuard(pages, step, 0);
    DivUnique(block, step, i);
    if block < pages {
      DivUnique(block, step, block / step);
      BlockGuard(pages, step, block / step);
      if i < block / step {
        MulMonotone(i + 1, block / step, step);
      }
    } else if i < n - 1 {
      assert BlockStart(step, i + 1) < pages;
    }
  }

  /** Every row of the heap, rows on pages added since the count included, is
      returned by exactly one chunk query when the filter lets it through. */
  lemma CtidChunksCoverOnce(tasks: seq<ChunkTask>, user: seq<Token>, pages: nat, step: nat, total: int, row: Row,
                            block: nat, offset: nat)
    requires step >= 1 && pages >= 1 && CtidPlan(tasks, user, pages, step, total)
    requires ReadsCtids(row) && offset < OFFSETS && row.col("ctid") == Some(Ctid(block, offset))
    ensures Times(tasks, row) == if QuerySelects(Condition(user, []), row) then 1 else 0
  {
    var owner := if QuerySelects(Condition(user, []), row) then Some(BlockOwner(pages, step, block)) else None;
    forall i | 0 <= i < |tasks|
      ensures QuerySelects(tasks[i].condition, row) <==> owner == Some(i)
    {
      CtidTaskSelects(user, pages, step, total, i, row, block, offset);
    }
    assert 0 < BlockChunks(pages, step) by { BlockGuard(pages, step, 0); }
    BlockInChunk(pages, step, block, 0);
    OwnerCounts(tasks, row, owner);
  }

  lemma CtidTaskSelects(user: seq<Token>, pages: nat, step: nat, total: int, i: nat, row: Row, block: nat, offset: nat)
    requires step >= 1 && pages >= 1 && i < BlockChunks(pages, step)
    requires user != [] ==> ParseAll(user).Some?
    requires ReadsCtids(row) && offset < OFFSETS && row.col("ctid") == Some(Ctid(block, offset))
    ensures QuerySelects(CtidTask(user, pages, step, total, i).condition, row)
       <==> QuerySelects(Condition(user, []), row) && i == BlockOwner(pages, step, block)
  {
    hide *;
    var lo := BlockStart(step, i);
    CtidTaskAt(user, pages, step, total, i, lo);
    CtidWhereMeaning(lo, lo + step, lo + step >= pages, row, block, offset);
    ConditionMeaning(user, CtidWhere(lo, lo + step, lo + step >= pages), row);
    BlockInChunk(pages, step, block, i);
  }
}
