/** The text of SQL data files (`WriteInsert`): rows grouped into statements and
    files by the byte limits, and the roll bounds this grouping keeps. */
module SqlFile {
  import opened Common
  import opened Quoting

  // ---- what stands before the rows ----

  /** The table and columns an INSERT names; no columns means all of them. */
  datatype Target = Target(schema: string, table: string, columns: seq<string>)

  function QuotedList(names: seq<string>, q: char): string {
    if names == [] then ""
    else if |names| == 1 then Quoted(names[0], q)
    else Quoted(names[0], q) + "," + QuotedList(names[1..], q)
  }

  /** `insertStatementPrefix`. */
  function InsertPrefix(d: Dialect, t: Target): string {
    "INSERT INTO " + (QuoteQName(d, t.schema, t.table)
    + ((if t.columns != [] then " (" + QuotedList(t.columns, IdentQuote(d)) + ")" else "") + " VALUES\n"))
  }

  /** The SET block at the head of a data file. */
  function Preamble(d: Dialect): seq<string> {
    match d
    case Pg => ["SET standard_conforming_strings = on;", "SET client_encoding = 'UTF8';", "SET search_path = pg_catalog;"]
    case MySql => ["/*!40101 SET NAMES utf8mb4 */;", "/*!40014 SET FOREIGN_KEY_CHECKS=0 */;",
                   "/*!40014 SET UNIQUE_CHECKS=0 */;", "SET sql_mode='NO_BACKSLASH_ESCAPES';"]
  }

  function Lines(ls: seq<string>): string {
    if ls == [] then "" else ls[0] + "\n" + Lines(ls[1..])
  }

  /** `EffectivePreamble`, as written. */
  function PreambleText(d: Dialect, noPreamble: bool): string {
    if noPreamble then "" else Lines(Preamble(d))
  }

  // ---- rows in statements ----

  /** Zero means "no limit". */
  datatype Limits = Limits(fileSize: nat, statementSize: nat)

  /** `ShouldSwitchFile`. */
  predicate FileFull(l: Limits, fileBytes: nat) {
    l.fileSize != 0 && fileBytes >= l.fileSize
  }

  /** `ShouldSwitchStatement`. */
  predicate StatementFull(l: Limits, fileBytes: nat, statementBytes: nat) {
    FileFull(l, fileBytes) || (l.statementSize != 0 && statementBytes >= l.statementSize)
  }

  /** The statements of one file, from the row about to be written on:
      `fileBytes` and `statementBytes` have been counted, the current statement
      is the first one, and two bytes are counted for the mark after each row. */
  function Statements(l: Limits, prefix: nat, fileBytes: nat, statementBytes: nat,
                      texts: seq<string>): (r: seq<seq<string>>)
    requires texts != []
    ensures r != [] && r[0] != []
    decreases |texts|
  {
    var t := texts[0];
    var f, s := fileBytes + |t| + 2, statementBytes + |t| + 2;
    if |texts| > 1 && !StatementFull(l, f, s) then
      var r := Statements(l, prefix, f, s, texts[1..]);
      [[t] + r[0]] + r[1..]
    else if |texts| == 1 || FileFull(l, f) then [[t]]
    else [[t]] + Statements(l, prefix, f + prefix, prefix, texts[1..])
  }

  /** Rows separated by ",\n" and closed by ";\n". */
  function Body(texts: seq<string>): string {
    if texts == [] then ""
    else if |texts| == 1 then texts[0] + ";\n" else texts[0] + ",\n" + Body(texts[1..])
  }

  predicate NoneEmpty(stmts: seq<seq<string>>) {
    forall i :: 0 <= i < |stmts| ==> stmts[i] != []
  }

  function Render(prefix: string, stmts: seq<seq<string>>): string {
    if stmts == [] then "" else prefix + Body(stmts[0]) + Render(prefix, stmts[1..])
  }

  /** What is still to be written of a file whose current statement has been opened. */
  function Rest(prefix: string, stmts: seq<seq<string>>): string
    requires stmts != []
  {
    Body(stmts[0]) + Render(prefix, stmts[1..])
  }

  // ---- one row at a time ----

  /** Whether the current statement goes on after the first of `texts`. */
  predicate GoesOn(l: Limits, fileBytes: nat, statementBytes: nat, texts: seq<string>)
    requires texts != []
  {
    |texts| > 1 && !StatementFull(l, fileBytes + |texts[0]| + 2, statementBytes + |texts[0]| + 2)
  }

  /** Whether the file ends there. */
  predicate EndsFile(l: Limits, fileBytes: nat, texts: seq<string>)
    requires texts != []
  {
    |texts| == 1 || FileFull(l, fileBytes + |texts[0]| + 2)
  }

  /** The statements after the first row, when the file goes on. */
  function Later(l: Limits, prefix: nat, fileBytes: nat, statementBytes: nat, texts: seq<string>): seq<seq<string>>
    requires |texts| > 1
  {
    var f, s := fileBytes + |texts[0]| + 2, statementBytes + |texts[0]| + 2;
    if GoesOn(l, fileBytes, statementBytes, texts) then Statements(l, prefix, f, s, texts[1..])
    else Statements(l, prefix, f + prefix, prefix, texts[1..])
  }

  lemma StatementsStep(l: Limits, prefix: nat, fileBytes: nat, statementBytes: nat, texts: seq<string>)
    requires texts != []
    ensures var all := Statements(l, prefix, fileBytes, statementBytes, texts);
            if GoesOn(l, fileBytes, statementBytes, texts) then
              var r := Later(l, prefix, fileBytes, statementBytes, texts);
              r != [] && r[0] != [] && all == [[texts[0]] + r[0]] + r[1..]
            else if EndsFile(l, fileBytes, texts) then all == [[texts[0]]]
            else all == [[texts[0]]] + Later(l, prefix, fileBytes, statementBytes, texts)
                 && Later(l, prefix, fileBytes, statementBytes, texts) != []
  {
  }

  /** Every statement has a row. */
  lemma {:induction false} StatementsNoneEmpty(l: Limits, prefix: nat, fileBytes: nat, statementBytes: nat,
                                               texts: seq<string>)
    requires texts != []
    ensures NoneEmpty(Statements(l, prefix, fileBytes, statementBytes, texts))
    decreases |texts|
  {
    hide Statements;
    StatementsStep(l, prefix, fileBytes, statementBytes, texts);
    var f, s := fileBytes + |texts[0]| + 2, statementBytes + |texts[0]| + 2;
    if GoesOn(l, fileBytes, statementBytes, texts) {
      StatementsNoneEmpty(l, prefix, f, s, texts[1..]);
    } else if !EndsFile(l, fileBytes, texts) {
      StatementsNoneEmpty(l, prefix, f + prefix, prefix, texts[1..]);
    }
  }

  lemma FlatGoesOn(t: string, r: seq<seq<string>>)
    requires r != []
    ensures Flat([[t] + r[0]] + r[1..]) == [t] + Flat(r)
  {
    var all := [[t] + r[0]] + r[1..];
    assert all[1..] == r[1..] && all[0] == [t] + r[0];
    FlatIs(all);
    FlatIs(r);
    hide Flat;
    Regroup([t], r[0], Flat(r[1..]));
  }

  lemma FlatIs(r: seq<seq<string>>)
    requires r != []
    ensures Flat(r) == r[0] + Flat(r[1..])
  {
  }

  lemma FlatOpens(t: string, r: seq<seq<string>>)
    ensures Flat([[t]] + r) == [t] + Flat(r)
    ensures Flat([[t]]) == [t]
  {
    assert ([[t]] + r)[1..] == r;
    assert [[t]][1..] == [];
  }

  lemma ConsPrefix(t: string, used: seq<string>, texts: seq<string>)
    requires texts != [] && t == texts[0] && used <= texts[1..]
    ensures [t] + used <= texts
  {
  }

  /** The rows of one file are the next rows of the table, in order, at least one. */
  lemma {:induction false} StatementsTakePrefix(l: Limits, prefix: nat, fileBytes: nat, statementBytes: nat,
                                                texts: seq<string>)
    requires texts != []
    ensures var used := Flat(Statements(l, prefix, fileBytes, statementBytes, texts));
            used != [] && used <= texts
    decreases |texts|
  {
    hide Statements;
    StatementsStep(l, prefix, fileBytes, statementBytes, texts);
    var t := texts[0];
    var f, s := fileBytes + |t| + 2, statementBytes + |t| + 2;
    FlatOpens(t, []);
    if GoesOn(l, fileBytes, statementBytes, texts) {
      StatementsTakePrefix(l, prefix, f, s, texts[1..]);
      var r := Later(l, prefix, fileBytes, statementBytes, texts);
      hide *;
      FlatGoesOn(t, r);
      ConsPrefix(t, Flat(r), texts);
    } else if !EndsFile(l, fileBytes, texts) {
      StatementsTakePrefix(l, prefix, f + prefix, prefix, texts[1..]);
      var r := Later(l, prefix, fileBytes, statementBytes, texts);
      hide *;
      FlatOpens(t, r);
      ConsPrefix(t, Flat(r), texts);
    }
  }

  lemma RestGoesOn(prefix: string, t: string, r: seq<seq<string>>)
    requires r != [] && r[0] != []
    ensures Rest(prefix, [[t] + r[0]] + r[1..]) == t + ",\n" + Rest(prefix, r)
  {
    var all := [[t] + r[0]] + r[1..];
    assert all[1..] == r[1..] && all[0][1..] == r[0];
  }

  lemma RestOpens(prefix: string, t: string, r: seq<seq<string>>)
    requires r != []
    ensures Rest(prefix, [[t]] + r) == t + ";\n" + prefix + Rest(prefix, r)
    ensures Rest(prefix, [[t]]) == t + ";\n"
  {
    assert ([[t]] + r)[1..] == r;
    assert [[t]][1..] == [];
  }

  /** After the row: a comma when the statement goes on, else a semicolon; then
      the next statement opens with its prefix, or the file ends. */
  lemma RestStep(l: Limits, prefix: string, fileBytes: nat, statementBytes: nat, texts: seq<string>)
    requires texts != []
    ensures var t := texts[0];
            var all := Statements(l, |prefix|, fileBytes, statementBytes, texts);
            if GoesOn(l, fileBytes, statementBytes, texts) then
              var r := Later(l, |prefix|, fileBytes, statementBytes, texts);
              r != [] && Rest(prefix, all) == t + ",\n" + Rest(prefix, r) && Flat(all) == [t] + Flat(r)
            else if EndsFile(l, fileBytes, texts) then
              Rest(prefix, all) == t + ";\n" && Flat(all) == [t]
            else
              var r := Later(l, |prefix|, fileBytes, statementBytes, texts);
              r != [] && Rest(prefix, all) == t + ";\n" + prefix + Rest(prefix, r) && Flat(all) == [t] + Flat(r)
  {
    StatementsStep(l, |prefix|, fileBytes, statementBytes, texts);
    var goesOn, ends := GoesOn(l, fileBytes, statementBytes, texts), EndsFile(l, fileBytes, texts);
    hide *;
    FlatOpens(texts[0], []);
    RestOpens(prefix, texts[0], [[]]);
    if goesOn {
      var r := Later(l, |prefix|, fileBytes, statementBytes, texts);
      FlatGoesOn(texts[0], r);
      RestGoesOn(prefix, texts[0], r);
    } else if !ends {
      var r := Later(l, |prefix|, fileBytes, statementBytes, texts);
      FlatOpens(texts[0], r);
      RestOpens(prefix, texts[0], r);
    }
  }

  // ---- roll bounds of files ----

  /** The file counter after the last row is the number of bytes written. */
  function FinalBytes(l: Limits, prefix: string, fileBytes: nat, statementBytes: nat, texts: seq<string>): nat
    requires texts != []
  {
    fileBytes + |Rest(prefix, Statements(l, |prefix|, fileBytes, statementBytes, texts))|
  }

  /** A file that leaves rows over has reached the limit. */
  lemma {:induction false} LeftoverMeansFull(l: Limits, prefix: string, fileBytes: nat, statementBytes: nat,
                                             texts: seq<string>)
    requires texts != []
    requires |Flat(Statements(l, |prefix|, fileBytes, statementBytes, texts))| < |texts|
    ensures FileFull(l, FinalBytes(l, prefix, fileBytes, statementBytes, texts))
    decreases |texts|
  {
    hide Statements, Rest, Flat;
    var t := texts[0];
    var f, s := fileBytes + |t| + 2, statementBytes + |t| + 2;
    RestStep(l, prefix, fileBytes, statementBytes, texts);
    if GoesOn(l, fileBytes, statementBytes, texts) {
      LeftoverMeansFull(l, prefix, f, s, texts[1..]);
    } else if !EndsFile(l, fileBytes, texts) {
      LeftoverMeansFull(l, prefix, f + |prefix|, |prefix|, texts[1..]);
    }
  }

  /** With more than one row, the limit is overshot by less than the last row,
      its mark and one statement prefix. */
  lemma {:induction false} OvershootBounded(l: Limits, prefix: string, fileBytes: nat, statementBytes: nat,
                                            texts: seq<string>)
    requires texts != [] && l.fileSize != 0
    requires |Flat(Statements(l, |prefix|, fileBytes, statementBytes, texts))| > 1
    ensures var used := Flat(Statements(l, |prefix|, fileBytes, statementBytes, texts));
            FinalBytes(l, prefix, fileBytes, statementBytes, texts) < l.fileSize + |prefix| + |used[|used| - 1]| + 2
    decreases |texts|
  {
    hide Statements, Rest, Flat;
    var t := texts[0];
    var goesOn := GoesOn(l, fileBytes, statementBytes, texts);
    RestStep(l, prefix, fileBytes, statementBytes, texts);
    assert !FileFull(l, fileBytes + |t| + 2);
    var f' := if goesOn then fileBytes + |t| + 2 else fileBytes + |t| + 2 + |prefix|;
    var s' := if goesOn then statementBytes + |t| + 2 else |prefix|;
    var r := Statements(l, |prefix|, f', s', texts[1..]);
    assert r == Later(l, |prefix|, fileBytes, statementBytes, texts);
    assert FinalBytes(l, prefix, fileBytes, statementBytes, texts) == FinalBytes(l, prefix, f', s', texts[1..]);
    StatementsTakePrefix(l, |prefix|, f', s', texts[1..]);
    assert ([t] + Flat(r))[|Flat(r)|] == Flat(r)[|Flat(r)| - 1];
    if |Flat(r)| > 1 {
      OvershootBounded(l, prefix, f', s', texts[1..]);
    } else {
      SingleRowBytes(l, prefix, f', s', texts[1..]);
      assert Flat(r)[0] == texts[1..][0];
    }
  }

  lemma SingleRowBytes(l: Limits, prefix: string, fileBytes: nat, statementBytes: nat, texts: seq<string>)
    requires texts != []
    requires |Flat(Statements(l, |prefix|, fileBytes, statementBytes, texts))| == 1
    ensures FinalBytes(l, prefix, fileBytes, statementBytes, texts) == fileBytes + |texts[0]| + 2
  {
    hide Statements, Rest, Flat;
    RestStep(l, prefix, fileBytes, statementBytes, texts);
    LaterHasRows(l, |prefix|, fileBytes, statementBytes, texts);
  }

  lemma LaterHasRows(l: Limits, prefix: nat, fileBytes: nat, statementBytes: nat, texts: seq<string>)
    requires texts != []
    ensures |texts| > 1 ==> Flat(Later(l, prefix, fileBytes, statementBytes, texts)) != []
  {
    hide Statements, Flat;
    if |texts| > 1 {
      var f, s := fileBytes + |texts[0]| + 2, statementBytes + |texts[0]| + 2;
      StatementsTakePrefix(l, prefix, f, s, texts[1..]);
      StatementsTakePrefix(l, prefix, f + prefix, prefix, texts[1..]);
    }
  }

  // ---- roll bounds of statements ----

  /** Bytes counted for statement `i`: the first one may have been begun before. */
  function StatementBytes(prefix: nat, begun: nat, stmts: seq<seq<string>>, i: nat): nat
    requires i < |stmts|
  {
    (if i == 0 then begun else prefix) + |Body(stmts[i])|
  }

  /** A statement with another one after it reached the statement limit, and a
      statement of several rows overshoots it by less than its last row. */
  predicate StatementInBounds(l: Limits, prefix: nat, begun: nat, stmts: seq<seq<string>>, i: nat)
    requires i < |stmts| && stmts[i] != []
  {
    var bytes := StatementBytes(prefix, begun, stmts, i);
    && (i < |stmts| - 1 ==> l.statementSize != 0 && bytes >= l.statementSize)
    && (l.statementSize != 0 && |stmts[i]| > 1 ==> bytes < l.statementSize + |stmts[i][|stmts[i]| - 1]| + 2)
  }

  lemma {:induction false} StatementBounds(l: Limits, prefix: nat, fileBytes: nat, begun: nat, texts: seq<string>,
                                           i: nat)
    requires texts != []
    requires i < |Statements(l, prefix, fileBytes, begun, texts)|
    ensures NoneEmpty(Statements(l, prefix, fileBytes, begun, texts))
    ensures StatementInBounds(l, prefix, begun, Statements(l, prefix, fileBytes, begun, texts), i)
    decreases |texts|
  {
    hide Statements;
    StatementsNoneEmpty(l, prefix, fileBytes, begun, texts);
    StatementsStep(l, prefix, fileBytes, begun, texts);
    var t := texts[0];
    var f, s := fileBytes + |t| + 2, begun + |t| + 2;
    var all := Statements(l, prefix, fileBytes, begun, texts);
    if GoesOn(l, fileBytes, begun, texts) {
      var r := Later(l, prefix, fileBytes, begun, texts);
      StatementsNoneEmpty(l, prefix, f, s, texts[1..]);
      StatementBounds(l, prefix, f, s, texts[1..], i);
      assert !StatementFull(l, f, s);
      hide FileFull, Later, GoesOn, NoneEmpty;
      BoundsGoOn(l, prefix, f, begun, t, r, i);
    } else if EndsFile(l, fileBytes, texts) {
      BodyOfOne(t);
    } else {
      var r := Later(l, prefix, fileBytes, begun, texts);
      BodyOfOne(t);
      if i > 0 {
        StatementBounds(l, prefix, f + prefix, prefix, texts[1..], i - 1);
        assert all[i] == r[i - 1];
      }
    }
  }

  lemma BodyOfOne(t: string)
    ensures |Body([t])| == |t| + 2
  {
  }

  lemma BoundsGoOn(l: Limits, prefix: nat, f: nat, begun: nat, t: string, r: seq<seq<string>>, i: nat)
    requires i < |r| && r[0] != [] && r[i] != []
    requires !StatementFull(l, f, begun + |t| + 2)
    requires StatementInBounds(l, prefix, begun + |t| + 2, r, i)
    ensures StatementInBounds(l, prefix, begun, [[t] + r[0]] + r[1..], i)
  {
    var all := [[t] + r[0]] + r[1..];
    if i == 0 {
      assert all[0][1..] == r[0];
      if |r[0]| == 1 {
        assert r[0] == [r[0][0]];
        BodyOfOne(r[0][0]);
      }
    } else {
      assert all[i] == r[i];
    }
  }

  // ---- the files of one chunk ----

  /** What every file of a chunk shares. */
  datatype Layout = Layout(limits: Limits, preamble: string, prefix: string)

  /** The statements of the next file. */
  function FileStatements(c: Layout, texts: seq<string>): (r: seq<seq<string>>)
    requires texts != []
    ensures r != []
  {
    Statements(c.limits, |c.prefix|, |c.preamble| + |c.prefix|, |c.prefix|, texts)
  }

  /** How many rows it takes. */
  function FileRows(c: Layout, texts: seq<string>): (n: nat)
    requires texts != []
    ensures 1 <= n <= |texts|
  {
    StatementsTakePrefix(c.limits, |c.prefix|, |c.preamble| + |c.prefix|, |c.prefix|, texts);
    |Flat(FileStatements(c, texts))|
  }

  function FileText(c: Layout, texts: seq<string>): (s: string)
    requires texts != []
    ensures s != ""
  {
    StatementsNoneEmpty(c.limits, |c.prefix|, |c.preamble| + |c.prefix|, |c.prefix|, texts);
    BodyNotEmpty(FileStatements(c, texts)[0]);
    c.preamble + Render(c.prefix, FileStatements(c, texts))
  }

  lemma BodyNotEmpty(texts: seq<string>)
    requires texts != []
    ensures Body(texts) != ""
  {
  }

  lemma FileRowsAreNext(c: Layout, texts: seq<string>)
    requires texts != []
    ensures Flat(FileStatements(c, texts)) == texts[..FileRows(c, texts)]
    ensures NoneEmpty(FileStatements(c, texts))
  {
    StatementsTakePrefix(c.limits, |c.prefix|, |c.preamble| + |c.prefix|, |c.prefix|, texts);
    StatementsNoneEmpty(c.limits, |c.prefix|, |c.preamble| + |c.prefix|, |c.prefix|, texts);
  }

  /** Without a file limit one file takes everything. */
  lemma UnlimitedFileTakesAll(c: Layout, texts: seq<string>)
    requires texts != [] && c.limits.fileSize == 0
    ensures FileRows(c, texts) == |texts|
  {
    if FileRows(c, texts) < |texts| {
      LeftoverMeansFull(c.limits, c.prefix, |c.preamble| + |c.prefix|, |c.prefix|, texts);
    }
  }

  /** A file is the preamble and then its statements, the first prefix first. */
  lemma FileTextSplits(c: Layout, texts: seq<string>)
    requires texts != []
    ensures var stmts := FileStatements(c, texts);
            var after := Rest(c.prefix, stmts);
            FileText(c, texts) == c.preamble + (c.prefix + after) && Render(c.prefix, stmts) == c.prefix + after
  {
    hide Statements;
    var stmts := FileStatements(c, texts);
    assert Render(c.prefix, stmts) == c.prefix + Rest(c.prefix, stmts);
  }

  lemma FileTextBytes(c: Layout, texts: seq<string>)
    requires texts != []
    ensures |FileText(c, texts)| == FinalBytes(c.limits, c.prefix, |c.preamble| + |c.prefix|, |c.prefix|, texts)
  {
    var st := FileStatements(c, texts);
    assert Render(c.prefix, st) == c.prefix + Rest(c.prefix, st);
  }

  /** Every file but the last reaches the limit, and a file of several rows
      overshoots it by less than a prefix, its last row and the mark after it. */
  lemma FileRollBounds(c: Layout, texts: seq<string>)
    requires texts != []
    ensures FileRows(c, texts) < |texts| ==>
              c.limits.fileSize != 0 && |FileText(c, texts)| >= c.limits.fileSize
    ensures c.limits.fileSize != 0 && FileRows(c, texts) > 1 ==>
              |FileText(c, texts)| < c.limits.fileSize + |c.prefix| + |texts[FileRows(c, texts) - 1]| + 2
  {
    FileTextBytes(c, texts);
    FileRowsAreNext(c, texts);
    var n := FileRows(c, texts);
    if n < |texts| {
      LeftoverMeansFull(c.limits, c.prefix, |c.preamble| + |c.prefix|, |c.prefix|, texts);
    }
    if c.limits.fileSize != 0 && n > 1 {
      OvershootBounded(c.limits, c.prefix, |c.preamble| + |c.prefix|, |c.prefix|, texts);
      assert texts[..n][n - 1] == texts[n - 1];
    }
  }

  /** The same for every statement of the file, counted with its own prefix. */
  lemma StatementRollBounds(c: Layout, texts: seq<string>, i: nat)
    requires texts != [] && i < |FileStatements(c, texts)|
    ensures NoneEmpty(FileStatements(c, texts))
    ensures StatementInBounds(c.limits, |c.prefix|, |c.prefix|, FileStatements(c, texts), i)
  {
    StatementBounds(c.limits, |c.prefix|, |c.preamble| + |c.prefix|, |c.prefix|, texts, i);
  }

  // ---- a file while it is being written ----

  /** `out` has been written of a file that will be `whole` and take `total`
      rows; `done` rows are in, `fileBytes` counts the bytes. */
  datatype Progress = Progress(whole: string, total: nat, out: string, done: nat, fileBytes: nat)

  predicate Counted(p: Progress) {
    p.fileBytes == |p.out|
  }

  predicate FileDone(p: Progress) {
    Counted(p) && p.whole == p.out && p.total == p.done
  }

  /** A statement is open, and `texts` are the rows not yet written. */
  predicate InStatement(c: Layout, p: Progress, statementBytes: nat, texts: seq<string>)
    requires texts != []
  {
    var stmts := Statements(c.limits, |c.prefix|, p.fileBytes, statementBytes, texts);
    Counted(p) && p.whole == p.out + Rest(c.prefix, stmts) && p.total == p.done + |Flat(stmts)|
  }

  /** The next statement has not been opened. */
  predicate Between(c: Layout, p: Progress, texts: seq<string>)
    requires texts != []
  {
    var stmts := Statements(c.limits, |c.prefix|, p.fileBytes + |c.prefix|, |c.prefix|, texts);
    Counted(p) && p.whole == p.out + (c.prefix + Rest(c.prefix, stmts)) && p.total == p.done + |Flat(stmts)|
  }

  function Start(c: Layout, texts: seq<string>): Progress
    requires texts != []
  {
    Progress(FileText(c, texts), FileRows(c, texts), c.preamble, 0, |c.preamble|)
  }

  lemma FileStarts(c: Layout, texts: seq<string>)
    requires texts != []
    ensures Between(c, Start(c, texts), texts)
  {
    FileTextSplits(c, texts);
    hide Statements, Rest, Flat;
  }

  function Opened(c: Layout, p: Progress): Progress {
    p.(out := p.out + c.prefix, fileBytes := p.fileBytes + |c.prefix|)
  }

  lemma StatementOpens(c: Layout, p: Progress, texts: seq<string>)
    requires texts != [] && Between(c, p, texts)
    ensures InStatement(c, Opened(c, p), |c.prefix|, texts)
  {
    hide Statements, Rest, Flat;
    var stmts := Statements(c.limits, |c.prefix|, p.fileBytes + |c.prefix|, |c.prefix|, texts);
    Regroup(p.out, c.prefix, Rest(c.prefix, stmts));
  }

  /** The state after a row and its mark. */
  function Added(p: Progress, t: string, mark: string): Progress {
    p.(out := p.out + t + mark, done := p.done + 1, fileBytes := p.fileBytes + (|t| + 2))
  }

  /** What one turn of the row loop does: a comma when the statement goes on;
      otherwise a semicolon, and then the file is done or a new statement is due. */
  lemma RowAdded(c: Layout, p: Progress, statementBytes: nat, texts: seq<string>)
    requires texts != [] && InStatement(c, p, statementBytes, texts)
    ensures var t, more := texts[0], texts[1..];
            var f, s := p.fileBytes + |t| + 2, statementBytes + |t| + 2;
            if more != [] && !StatementFull(c.limits, f, s) then InStatement(c, Added(p, t, ",\n"), s, more)
            else if more == [] || FileFull(c.limits, f) then FileDone(Added(p, t, ";\n"))
            else Between(c, Added(p, t, ";\n"), more)
  {
    var t, more := texts[0], texts[1..];
    RestStep(c.limits, c.prefix, p.fileBytes, statementBytes, texts);
    hide Statements, Rest, Flat, StatementFull, FileFull;
    if GoesOn(c.limits, p.fileBytes, statementBytes, texts) {
      RegroupRow(p.out, t, ",\n", Rest(c.prefix, Later(c.limits, |c.prefix|, p.fileBytes, statementBytes, texts)));
    } else if EndsFile(c.limits, p.fileBytes, texts) {
      RegroupRow(p.out, t, ";\n", "");
    } else {
      var r := Rest(c.prefix, Later(c.limits, |c.prefix|, p.fileBytes, statementBytes, texts));
      RegroupRow(p.out, t, ";\n", c.prefix + r);
      Regroup(t + ";\n", c.prefix, r);
    }
  }

  lemma RegroupRow(out: string, t: string, mark: string, rest: string)
    ensures out + (t + mark + rest) == out + t + mark + rest
    ensures out + (t + mark) == out + t + mark
  {
  }

  // ---- a stream that breaks off ----

  /** Fewer rows fill a file no further than all of them do. */
  lemma {:induction false} TakenOfPart(l: Limits, prefix: nat, f: nat, s: nat, a: seq<string>, b: seq<string>)
    requires a != []
    ensures |Flat(Statements(l, prefix, f, s, a))| == Min(|Flat(Statements(l, prefix, f, s, a + b))|, |a|)
    decreases |a|
  {
    hide Statements, Flat;
    var t := a[0];
    assert (a + b)[0] == t && (a + b)[1..] == a[1..] + b;
    TakenStep(l, prefix, f, s, a);
    TakenStep(l, prefix, f, s, a + b);
    if |a| > 1 {
      TakenOfPart(l, prefix, f + |t| + 2, s + |t| + 2, a[1..], b);
      TakenOfPart(l, prefix, f + |t| + 2 + prefix, prefix, a[1..], b);
    } else if b != [] {
      TakenAtLeastOne(l, prefix, f + |t| + 2, s + |t| + 2, b);
      TakenAtLeastOne(l, prefix, f + |t| + 2 + prefix, prefix, b);
      assert a[1..] + b == b;
    }
  }

  lemma TakenAtLeastOne(l: Limits, prefix: nat, f: nat, s: nat, texts: seq<string>)
    requires texts != []
    ensures 1 <= |Flat(Statements(l, prefix, f, s, texts))| <= |texts|
  {
    StatementsTakePrefix(l, prefix, f, s, texts);
  }

  lemma TakenStep(l: Limits, prefix: nat, f: nat, s: nat, texts: seq<string>)
    requires texts != []
    ensures |Flat(Statements(l, prefix, f, s, texts))|
         == var f', s' := f + |texts[0]| + 2, s + |texts[0]| + 2;
            if |texts| == 1 || FileFull(l, f') then 1
            else 1 + |Flat(Statements(l, prefix, if StatementFull(l, f', s') then f' + prefix else f',
                                      if StatementFull(l, f', s') then prefix else s', texts[1..]))|
  {
    RestStep(l, seq(prefix, _ => ' '), f, s, texts);
    hide Statements, Flat, Rest;
  }
}
