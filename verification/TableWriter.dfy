/** Writing the data files of a chunk: `WriteInsert` and `WriteInsertInCsv` of
    `writer_util.go`, `tryToWriteTableData` and `WriteTableData` of `writer.go`. */
module TableWriter {
  import opened Common
  import opened Quoting
  import opened RowText
  import opened SqlFile
  import opened CsvText
  import opened DataFiles
  import opened RowIters
  import opened Storage
  import opened WriterPipe
  import opened FileNames

  /** A buffer this long is handed to the pipe. */
  const LENGTH_LIMIT := 1048576

  /** What a write of the rows `left` owes when it succeeds: the next file under
      its name, and the rows it took gone from the iterator. */
  ghost predicate FileWritten(dump: Dump, kinds: seq<ColKind>, name: string, before: map<string, string>,
                              after: map<string, string>,
                              left: seq<Record>, rest: seq<Record>, counter: nat)
    requires Table(kinds, left) && left != []
  {
    var f, texts := FormatOf(dump), Items(EncodingOf(dump), kinds, left);
    && after == (if Content(f, texts) == "" then before else before[name := Content(f, texts)])
    && counter == Taken(f, texts) && rest == left[counter..]
  }

  lemma IsWritten(dump: Dump, kinds: seq<ColKind>, name: string, before: map<string, string>, left: seq<Record>,
                  counter: nat, out: string)
    requires Table(kinds, left) && left != []
    requires var f, texts := FormatOf(dump), Items(EncodingOf(dump), kinds, left);
             out == Content(f, texts) && counter == Taken(f, texts)
    ensures counter <= |left|
    ensures FileWritten(dump, kinds, name, before, if out == "" then before else before[name := out], left, left[counter..], counter)
  {
    hide Content, Taken;
  }

  /** A full buffer goes to the pipe, and a fresh one is taken. */
  method HandOver(wp: Pipe, bf: string) returns (bf': string, ok: bool)
    requires wp.Valid() && !wp.errTaken
    modifies wp, wp.w, wp.w.store
    ensures wp.Valid()
    ensures !ok ==> wp.errOccurs || wp.w.store.interrupted > old(wp.w.store.interrupted)
    ensures wp.w.store.interrupted >= old(wp.w.store.interrupted)
    ensures ok ==> wp.w.store.interrupted == old(wp.w.store.interrupted)
    ensures ok ==> !wp.errTaken && wp.sent + bf' == old(wp.sent) + bf
    ensures bf == "" ==> ok
    ensures wp.currentFileSize == old(wp.currentFileSize) && wp.currentStatementSize == old(wp.currentStatementSize)
  {
    hide *;
    bf', ok := bf, true;
    LongIsNotEmpty(bf);
    if |bf| >= LENGTH_LIMIT {
      var r := wp.TrySend(bf);
      if r != Sent {
        return bf, false;
      }
      assert (wp.sent) + "" == wp.sent;
      bf' := "";
    }
  }

  lemma LongIsNotEmpty(bf: string)
    ensures bf == "" ==> |bf| < LENGTH_LIMIT
  {
  }

  /** The end of both writers: the last buffer, the end of the pipe, and the errors
      of the iterator and of the pipe. */
  method FinishFile(wp: Pipe, iter: MultiQueriesChunkIter, bf: string) returns (ok: bool)
    requires wp.Valid() && !wp.errTaken && iter.Valid()
    modifies wp, wp.w, wp.w.store`files, wp.w.store`unclosed, wp.w.store`failed
    ensures wp.w.Valid() && Only(wp.base, wp.w.store.files, {wp.w.name})
    ensures OnlyUnclosed(wp.unclosedBase, wp.w.store.unclosed, wp.w.name)
    ensures !wp.w.initDone ==> wp.w.store.unclosed == wp.unclosedBase
    ensures wp.w.store.failed >= wp.failedBase
    ensures !ok ==> wp.w.store.failed > wp.failedBase || iter.Fails()
    ensures ok ==> wp.w.store.failed == wp.failedBase && !wp.w.err
    ensures ok ==> var out := old(wp.sent) + bf;
              && wp.w.store.files == (if out == "" then wp.base else wp.base[wp.w.name := out])
              && wp.w.somethingIsWritten == (out != "")
    ensures old(wp.sent) + bf == "" ==> wp.w.store.files == wp.base && !wp.w.initDone
    ensures ok && iter.Left() == [] ==> !iter.Fails()
  {
    hide *;
    assert wp.sent + "" == wp.sent;
    if |bf| > 0 {
      wp.Send(bf);
    }
    wp.CloseAndWait();
    wp.Touched();
    wp.NothingSent();
    iter.LeftIff();
    if !iter.hasNext {
      iter.ErrorAtEnd();
    }
    if iter.Error() {
      iter.ErrorMeans();
      return false;
    }
    var failed := wp.Error();
    ok := !failed;
  }

  // ---- SQL ----

  /** Where the row loop stands: `at` rows are in, `out` is what the pipe was
      given and the buffer holds. */
  function At(c: Layout, texts: seq<string>, out: string, at: nat, fileBytes: nat): Progress
    requires texts != []
  {
    Progress(FileText(c, texts), FileRows(c, texts), out, at, fileBytes)
  }

  /** Before a statement: the file is done when no row is left. */
  predicate Ready(c: Layout, texts: seq<string>, out: string, at: nat, fileBytes: nat)
    requires texts != []
  {
    at <= |texts| && var p := At(c, texts, out, at, fileBytes);
    if at == |texts| then FileDone(p) else Between(c, p, texts[at..])
  }

  /** Inside a statement. */
  predicate Inside(c: Layout, texts: seq<string>, out: string, at: nat, fileBytes: nat, statementBytes: nat)
    requires texts != []
  {
    at <= |texts| && var p := At(c, texts, out, at, fileBytes);
    if at == |texts| then FileDone(p) else InStatement(c, p, statementBytes, texts[at..])
  }

  /** The file is complete. */
  predicate Complete(c: Layout, texts: seq<string>, out: string, at: nat, fileBytes: nat)
    requires texts != []
  {
    at <= |texts| && FileDone(At(c, texts, out, at, fileBytes))
  }

  lemma Begins(c: Layout, texts: seq<string>)
    requires texts != []
    ensures Ready(c, texts, c.preamble, 0, |c.preamble|)
  {
    FileStarts(c, texts);
    assert texts[0..] == texts;
    hide FileText, FileRows, Between;
  }

  lemma Opens(c: Layout, texts: seq<string>, out: string, at: nat, fileBytes: nat)
    requires texts != [] && at < |texts| && Ready(c, texts, out, at, fileBytes)
    ensures Inside(c, texts, out + c.prefix, at, fileBytes + |c.prefix|, |c.prefix|)
  {
    hide FileText, FileRows, Between, InStatement;
    StatementOpens(c, At(c, texts, out, at, fileBytes), texts[at..]);
  }

  /** What holds after a row `t` and its mark: the statement goes on behind a comma;
      otherwise, behind a semicolon, a new statement is due or the file is complete. */
  ghost predicate Stepped(c: Layout, texts: seq<string>, sent: string, bf: string, at: nat, f: nat, s: nat)
    requires texts != [] && at < |texts|
  {
    var more, switch := at + 1 < |texts|, StatementFull(c.limits, f, s);
    var bf' := bf + (if more && !switch then ",\n" else ";\n");
    && (more && !switch ==> Inside(c, texts, sent + bf', at + 1, f, s))
    && (!more ==> Inside(c, texts, sent + bf', at + 1, f, s))
    && (more && switch && !FileFull(c.limits, f) ==> Ready(c, texts, sent + bf', at + 1, f))
    && (!more || FileFull(c.limits, f) ==> Complete(c, texts, sent + bf', at + 1, f))
    && (FileFull(c.limits, f) ==> switch)
  }

  lemma AddsRow(c: Layout, texts: seq<string>, sent: string, bf: string, at: nat, f: nat, s: nat)
    requires texts != [] && at < |texts| && Inside(c, texts, sent + bf, at, f, s)
    ensures Stepped(c, texts, sent, bf + texts[at], at, f + (|texts[at]| + 2), s + (|texts[at]| + 2))
  {
    RowAddedAt(c, texts, sent + bf, at, f, s);
    hide FileFull, StatementFull, Inside, Ready, Complete;
    Regroup3(sent, bf, texts[at], ",\n");
    Regroup3(sent, bf, texts[at], ";\n");
  }

  lemma RowAddedAt(c: Layout, texts: seq<string>, out: string, at: nat, f: nat, s: nat)
    requires texts != [] && at < |texts| && Inside(c, texts, out, at, f, s)
    ensures var t := texts[at];
            var f', s' := f + (|t| + 2), s + (|t| + 2);
            && (at + 1 < |texts| && !StatementFull(c.limits, f', s') ==> Inside(c, texts, out + t + ",\n", at + 1, f', s'))
            && (at + 1 == |texts| ==> Inside(c, texts, out + t + ";\n", at + 1, f', s'))
            && (at + 1 < |texts| && StatementFull(c.limits, f', s') && !FileFull(c.limits, f') ==>
                 Ready(c, texts, out + t + ";\n", at + 1, f'))
            && (at + 1 == |texts| || FileFull(c.limits, f') ==> Complete(c, texts, out + t + ";\n", at + 1, f'))
            && (FileFull(c.limits, f') ==> StatementFull(c.limits, f', s'))
  {
    var t := texts[at];
    var f', s' := f + (|t| + 2), s + (|t| + 2);
    assert FileFull(c.limits, f') ==> StatementFull(c.limits, f', s');
    assert texts[at..][1..] == texts[at + 1..];
    InsideMeans(c, texts, out, at, f, s);
    RowAdded(c, At(c, texts, out, at, f), s, texts[at..]);
    AddedAt(c, texts, out, at, f, t, ",\n");
    AddedAt(c, texts, out, at, f, t, ";\n");
    hide *;
    IsInside(c, texts, out + t + ",\n", at + 1, f', s');
    IsInside(c, texts, out + t + ";\n", at + 1, f', s');
  }

  lemma InsideMeans(c: Layout, texts: seq<string>, out: string, at: nat, f: nat, s: nat)
    requires texts != [] && at < |texts| && Inside(c, texts, out, at, f, s)
    ensures InStatement(c, At(c, texts, out, at, f), s, texts[at..])
  {
    hide At, InStatement;
  }

  lemma IsInside(c: Layout, texts: seq<string>, out: string, at: nat, f: nat, s: nat)
    requires texts != [] && at <= |texts|
    ensures at < |texts| && InStatement(c, At(c, texts, out, at, f), s, texts[at..]) ==> Inside(c, texts, out, at, f, s)
    ensures at < |texts| && Between(c, At(c, texts, out, at, f), texts[at..]) ==> Ready(c, texts, out, at, f)
    ensures FileDone(At(c, texts, out, at, f)) ==> Complete(c, texts, out, at, f)
    ensures at == |texts| && FileDone(At(c, texts, out, at, f)) ==> Inside(c, texts, out, at, f, s)
  {
    hide At, InStatement, Between, FileDone;
  }

  lemma AddedAt(c: Layout, texts: seq<string>, out: string, at: nat, f: nat, t: string, mark: string)
    requires texts != []
    ensures Added(At(c, texts, out, at, f), t, mark) == At(c, texts, out + t + mark, at + 1, f + (|t| + 2))
    ensures At(c, texts, out, at, f).fileBytes == f
  {
    hide FileText, FileRows;
  }

  /** `Stepped`, for the mark the loop chose. */
  lemma SteppedMeans(c: Layout, texts: seq<string>, sent: string, bf: string, at: nat, f: nat, s: nat, mark: string)
    requires texts != [] && at < |texts| && Stepped(c, texts, sent, bf, at, f, s)
    requires mark == if at + 1 < |texts| && !StatementFull(c.limits, f, s) then ",\n" else ";\n"
    ensures at + 1 == |texts| || !StatementFull(c.limits, f, s) ==> Inside(c, texts, sent + (bf + mark), at + 1, f, s)
    ensures StatementFull(c.limits, f, s) ==> Ended(c, texts, sent + (bf + mark), at + 1, f)
  {
    hide Inside, Ready, Complete, StatementFull, FileFull;
  }

  lemma CompleteMeans(c: Layout, texts: seq<string>, out: string, at: nat, fileBytes: nat)
    requires texts != [] && Complete(c, texts, out, at, fileBytes)
    ensures out == FileText(c, texts) && at == FileRows(c, texts) && out != ""
    ensures fileBytes == |out|
  {
  }

  lemma ReadyAtEnd(c: Layout, texts: seq<string>, out: string, at: nat, f: nat)
    requires texts != []
    ensures at == |texts| && Ready(c, texts, out, at, f) ==> Complete(c, texts, out, at, f)
  {
  }

  lemma EndedMeans(c: Layout, texts: seq<string>, out: string, at: nat, f: nat)
    requires texts != [] && Ended(c, texts, out, at, f)
    ensures if FileFull(c.limits, f) || at == |texts| then Complete(c, texts, out, at, f) else Ready(c, texts, out, at, f)
    ensures at == |texts| ==> Ready(c, texts, out, at, f)
  {
  }

  lemma RowTextAt(d: Dialect, kinds: seq<ColKind>, left: seq<Record>, i: nat)
    requires Table(kinds, left) && i < |left|
    ensures |left[i]| == |kinds| && Items(SqlRow(d), kinds, left)[i] == RowSql(d, kinds, left[i])
  {
    ItemAt(SqlRow(d), kinds, left, i);
  }

  lemma Layouts(dump: Dump, kinds: seq<ColKind>, left: seq<Record>)
    requires dump.SqlDump? && Table(kinds, left)
    ensures FormatOf(dump).Sql? && EncodingOf(dump) == SqlRow(dump.d)
    ensures |Items(SqlRow(dump.d), kinds, left)| == |left|
    ensures left != [] ==>
              var c, texts := FormatOf(dump).layout, Items(SqlRow(dump.d), kinds, left);
              Content(FormatOf(dump), texts) == FileText(c, texts) && Taken(FormatOf(dump), texts) == FileRows(c, texts)
  {
    hide FileText, FileRows, PreambleText, InsertPrefix;
  }

  lemma Regroup3(sent: string, bf: string, a: string, b: string)
    ensures sent + (bf + a + b) == sent + bf + a + b
    ensures sent + (bf + a) == sent + bf + a
    ensures (sent + bf) + "" == sent + bf
  {
  }

  /** The current row behind what is in the buffer, or nothing when it cannot be decoded. */
  method AppendRow(d: Dialect, kinds: seq<ColKind>, iter: MultiQueriesChunkIter, bf: string) returns (r: Option<string>)
    requires iter.Valid() && iter.hasNext && iter.Left() != [] && |iter.Left()[0]| == |kinds|
    ensures r.None? <==> kinds != [] && iter.BadRow()
    ensures r.Some? ==> r.value == bf + RowSql(d, kinds, iter.Left()[0])
  {
    hide *;
    if kinds != [] {
      var row := iter.Decode();
      if row.None? {
        return None;
      }
      var out := WriteToBuffer(d, kinds, row.value, bf);
      return Some(out);
    } else {
      EmptyRowText(d, kinds, iter.Left()[0]);
      return Some(bf + "()");
    }
  }

  lemma EmptyRowText(d: Dialect, kinds: seq<ColKind>, row: Record)
    requires |row| == |kinds|
    ensures kinds == [] ==> RowSql(d, kinds, row) == "()"
  {
  }

  /** The inner loop of `WriteInsert`: the rows of one statement. */
  method WriteStatement(c: Layout, d: Dialect, kinds: seq<ColKind>, iter: MultiQueriesChunkIter, wp: Pipe,
                        bf: string, counter: nat,
                        ghost left: seq<Record>) returns (counter': nat, bf': string, ok: bool)
    requires Table(kinds, left) && counter < |left|
    requires iter.Valid() && iter.Left() == left[counter..]
    requires wp.Valid() && !wp.errTaken && wp.limits == c.limits
    requires var texts := Items(SqlRow(d), kinds, left);
             Inside(c, texts, wp.sent + bf, counter, wp.currentFileSize, wp.currentStatementSize)
    modifies iter, wp, wp.w, wp.w.store
    ensures iter.Valid() && iter.Fails() == old(iter.Fails()) && wp.Valid()
    ensures iter.passed + |iter.Left()| == old(iter.passed + |iter.Left()|) && iter.passed >= old(iter.passed)
    ensures wp.w.store.interrupted >= old(wp.w.store.interrupted)
    ensures !ok ==> wp.errOccurs || wp.w.store.interrupted > old(wp.w.store.interrupted) || (kinds != [] && iter.BadRow())
    ensures ok ==> wp.w.store.interrupted == old(wp.w.store.interrupted)
    ensures ok && kinds != [] ==> Decodable(iter.undecodable, old(iter.passed), iter.passed)
    ensures ok ==> !wp.errTaken && counter < counter' <= |left| && iter.Left() == left[counter'..]
    ensures ok ==> Ended(c, Items(SqlRow(d), kinds, left), wp.sent + bf', counter', wp.currentFileSize)
  {
    hide *;
    counter', bf' := counter, bf;
    ghost var texts := Items(SqlRow(d), kinds, left);
    iter.LeftIff();
    DecodableNone(iter.undecodable);
    while iter.hasNext
      invariant iter.Valid() && iter.Fails() == old(iter.Fails()) && (iter.hasNext <==> iter.Left() != [])
      invariant wp.Valid() && !wp.errTaken && wp.w.store.interrupted == old(wp.w.store.interrupted)
      invariant iter.passed + |iter.Left()| == old(iter.passed + |iter.Left()|) && old(iter.passed) <= iter.passed
      invariant kinds != [] ==> Decodable(iter.undecodable, old(iter.passed), iter.passed)
      invariant counter <= counter' <= |left| && iter.Left() == left[counter'..] && (counter' == counter ==> iter.hasNext)
      invariant Inside(c, texts, wp.sent + bf', counter', wp.currentFileSize, wp.currentStatementSize)
      decreases |iter.Left()|
    {
      AddsRow(c, texts, wp.sent, bf', counter', wp.currentFileSize, wp.currentStatementSize);
      RowTextAt(d, kinds, left, counter');
      PassesRow(iter.undecodable, kinds, old(iter.passed), iter.passed);
      iter.BadRowMeans();
      var lastBfSize := |bf'|;
      var written := AppendRow(d, kinds, iter, bf');
      if written.None? {
        return counter', bf', false;
      }
      bf' := written.value;
      counter' := counter' + 1;
      wp.AddFileSize(|bf'| - lastBfSize + 2);
      iter.Next();
      iter.LeftIff();
      wp.SwitchMeans();
      var shouldSwitch := wp.ShouldSwitchStatement();
      var mark := if iter.hasNext && !shouldSwitch then ",\n" else ";\n";
      SteppedMeans(c, texts, wp.sent, bf', counter' - 1, wp.currentFileSize, wp.currentStatementSize, mark);
      bf' := bf' + mark;
      bf', ok := HandOver(wp, bf');
      if !ok {
        return;
      }
      if shouldSwitch {
        break;
      }
    }
    EndsStatement(c, texts, wp.sent + bf', counter', wp.currentFileSize, wp.currentStatementSize);
    ok := true;
  }

  lemma PassesRow(undecodable: set<nat>, kinds: seq<ColKind>, a: nat, b: nat)
    requires a <= b && (kinds != [] ==> Decodable(undecodable, a, b))
    ensures kinds != [] && b !in undecodable ==> Decodable(undecodable, a, b + 1)
  {
  }

  lemma DecodableChains(undecodable: set<nat>, a: nat, b: nat, c: nat)
    requires a <= b <= c
    ensures Decodable(undecodable, a, c) <==> Decodable(undecodable, a, b) && Decodable(undecodable, b, c)
  {
  }

  /** Behind the mark of a statement's last row: the file is complete, or the next statement is due. */
  predicate Ended(c: Layout, texts: seq<string>, out: string, at: nat, fileBytes: nat)
    requires texts != []
  {
    if FileFull(c.limits, fileBytes) || at == |texts| then Complete(c, texts, out, at, fileBytes) else Ready(c, texts, out, at, fileBytes)
  }

  lemma EndsStatement(c: Layout, texts: seq<string>, out: string, at: nat, f: nat, s: nat)
    requires texts != []
    ensures at == |texts| && Inside(c, texts, out, at, f, s) ==> Ended(c, texts, out, at, f)
  {
  }

  /** `WriteInsert`: rows into statements of one file, by way of the pipe. */
  method WriteInsert(dump: Dump, kinds: seq<ColKind>, iter: MultiQueriesChunkIter,
                     w: FileWriter) returns (counter: nat, ok: bool)
    requires dump.SqlDump? && iter.Valid() && Table(kinds, iter.Left())
    requires w.Valid() && !w.initDone
    modifies iter, w, w.store
    ensures iter.Valid() && w.Valid() && Only(old(w.store.files), w.store.files, {w.name})
    ensures OnlyUnclosed(old(w.store.unclosed), w.store.unclosed, w.name)
    ensures !w.initDone ==> w.store.unclosed == old(w.store.unclosed)
    ensures w.store.failed >= old(w.store.failed) && w.store.interrupted >= old(w.store.interrupted)
    ensures iter.Fails() == old(iter.Fails()) && iter.passed + |iter.Left()| == old(iter.passed + |iter.Left()|)
    ensures iter.passed >= old(iter.passed)
    ensures !ok ==> w.store.failed > old(w.store.failed) || w.store.interrupted > old(w.store.interrupted)
                    || iter.Fails() || (kinds != [] && iter.BadRow())
    ensures ok ==> w.store.failed == old(w.store.failed) && w.store.interrupted == old(w.store.interrupted) && !w.err
    ensures ok && kinds != [] ==> Decodable(iter.undecodable, old(iter.passed), iter.passed)
    ensures old(iter.Left()) == [] ==> w.store.files == old(w.store.files) && !w.initDone && iter.Left() == []
    ensures ok && old(iter.Left()) != [] ==>
              FileWritten(dump, kinds, w.name, old(w.store.files), w.store.files, old(iter.Left()), iter.Left(), counter)
              && w.somethingIsWritten
    ensures ok && iter.Left() == [] ==> !iter.Fails()
  {
    hide *;
    counter := 0;
    iter.LeftIff();
    DecodableNone(iter.undecodable);
    OnlySame(w.store.files, {w.name});
    UnclosedSame(w.store.unclosed, w.name);
    w.Unwritten();
    if !iter.hasNext {
      iter.ErrorAtEnd();
      return 0, !iter.Error();
    }
    ghost var left := iter.Left();
    Layouts(dump, kinds, left);
    var c := FormatOf(dump).layout;
    var d := dump.d;
    ghost var texts := Items(SqlRow(d), kinds, left);

    var wp := new Pipe(w, c.limits);
    var bf := c.preamble;
    wp.currentFileSize := wp.currentFileSize + |bf|;
    Begins(c, texts);
    assert "" + bf == bf;

    while iter.hasNext
      invariant iter.Valid() && iter.Fails() == old(iter.Fails()) && (iter.hasNext <==> iter.Left() != [])
      invariant wp.Valid() && fresh(wp) && wp.w == w && wp.base == old(w.store.files) && !wp.errTaken && wp.limits == c.limits
      invariant wp.unclosedBase == old(w.store.unclosed) && wp.failedBase == old(w.store.failed)
      invariant w.store.interrupted == old(w.store.interrupted)
      invariant iter.passed + |iter.Left()| == old(iter.passed + |iter.Left()|) && old(iter.passed) <= iter.passed
      invariant kinds != [] ==> Decodable(iter.undecodable, old(iter.passed), iter.passed)
      invariant counter <= |left| && iter.Left() == left[counter..]
      invariant Ready(c, texts, wp.sent + bf, counter, wp.currentFileSize)
      decreases |iter.Left()|
    {
      wp.currentStatementSize := 0;
      Opens(c, texts, wp.sent + bf, counter, wp.currentFileSize);
      Regroup3(wp.sent, bf, c.prefix, "");
      bf := bf + c.prefix;
      wp.AddFileSize(|c.prefix|);
      var more: bool;
      ghost var passed := iter.passed;
      counter, bf, more := WriteStatement(c, d, kinds, iter, wp, bf, counter, left);
      wp.Touched();
      if !more {
        wp.Cancel();
        return counter, false;
      }
      DecodableChains(iter.undecodable, old(iter.passed), passed, iter.passed);
      wp.SwitchMeans();
      iter.LeftIff();
      EndedMeans(c, texts, wp.sent + bf, counter, wp.currentFileSize);
      if wp.ShouldSwitchFile() {
        break;
      }
    }
    ReadyAtEnd(c, texts, wp.sent + bf, counter, wp.currentFileSize);
    CompleteMeans(c, texts, wp.sent + bf, counter, wp.currentFileSize);
    IsWritten(dump, kinds, w.name, old(w.store.files), left, counter, wp.sent + bf);
    ok := FinishFile(wp, iter, bf);
  }

  // ---- CSV ----

  /** `at` lines are in below the header; the file ends with the line that fills it. */
  predicate LinesIn(limit: nat, header: string, texts: seq<string>, out: string, at: nat, fileBytes: nat)
    requires texts != []
  {
    && at <= |texts| && fileBytes == |out| && out == header + Flat(texts[..at])
    && var total := LinesTaken(limit, |header|, texts);
       if at < total then total == at + LinesTaken(limit, fileBytes, texts[at..]) else at == total
  }

  lemma FirstLine(limit: nat, header: string, texts: seq<string>)
    requires texts != []
    ensures LinesIn(limit, header, texts, header, 0, |header|) && LinesTaken(limit, |header|, texts) > 0
  {
    assert texts[0..] == texts && texts[..0] == [];
    assert header + "" == header;
  }

  lemma AddsLine(limit: nat, header: string, texts: seq<string>, sent: string, bf: string, at: nat, f: nat)
    requires texts != [] && LinesIn(limit, header, texts, sent + bf, at, f) && at < LinesTaken(limit, |header|, texts)
    ensures at < |texts|
    ensures var t := texts[at];
            && LinesIn(limit, header, texts, sent + (bf + t), at + 1, f + |t|)
            && (at + 1 == LinesTaken(limit, |header|, texts) <==> FileFull(Limits(limit, 0), f + |t|) || at + 1 == |texts|)
  {
    var t := texts[at];
    LinesStep(limit, f, texts, at);
    hide Flat, FileFull, LinesTaken;
    assert Flat(texts[..at + 1]) == Flat(texts[..at]) + t by {
      assert texts[..at + 1] == texts[..at] + [t];
      FlatAppend(texts[..at], t);
    }
    Regroup(sent, bf, t);
    Regroup(header, Flat(texts[..at]), t);
  }

  lemma LinesStep(limit: nat, f: nat, texts: seq<string>, at: nat)
    requires at < |texts|
    ensures LinesTaken(limit, f, texts[at..])
         == if at + 1 == |texts| || FileFull(Limits(limit, 0), f + |texts[at]|) then 1
            else 1 + LinesTaken(limit, f + |texts[at]|, texts[at + 1..])
  {
    assert texts[at..][1..] == texts[at + 1..];
  }

  lemma LinesMean(limit: nat, header: string, texts: seq<string>, out: string, at: nat, f: nat)
    requires texts != [] && LinesIn(limit, header, texts, out, at, f)
    ensures at <= LinesTaken(limit, |header|, texts)
    ensures at == LinesTaken(limit, |header|, texts) ==> out == Content(Csv(limit, header), texts)
    ensures f == |out|
  {
  }

  /** A file that ends up empty is empty all along. */
  lemma EmptySoFar(limit: nat, header: string, texts: seq<string>, out: string, at: nat, f: nat)
    requires texts != [] && LinesIn(limit, header, texts, out, at, f)
    ensures Content(Csv(limit, header), texts) == "" ==> out == ""
  {
    var total := LinesTaken(limit, |header|, texts);
    assert texts[..total] == texts[..at] + texts[at..total];
    FlatConcat(texts[..at], texts[at..total]);
    hide Flat, LinesTaken;
  }

  lemma EmptyParts(a: string, b: string)
    ensures a + b == "" ==> a == "" && b == ""
  {
  }

  lemma CsvParts(dump: Dump, kinds: seq<ColKind>, left: seq<Record>)
    requires dump.CsvDump? && Table(kinds, left)
    ensures FormatOf(dump) == Csv(dump.limit, Header(dump.o, dump.noHeader, dump.names)) && EncodingOf(dump) == CsvRow(dump.o)
    ensures |Items(CsvRow(dump.o), kinds, left)| == |left|
    ensures left != [] ==>
              var texts := Items(CsvRow(dump.o), kinds, left);
              Taken(FormatOf(dump), texts) == LinesTaken(dump.limit, |Header(dump.o, dump.noHeader, dump.names)|, texts)
  {
    hide Header, LinesTaken;
  }

  lemma LineTextAt(o: CsvOption, kinds: seq<ColKind>, left: seq<Record>, i: nat)
    requires Table(kinds, left) && i < |left|
    ensures |left[i]| == |kinds| && Items(CsvRow(o), kinds, left)[i] == CsvLine(o, kinds, left[i])
  {
    ItemAt(CsvRow(o), kinds, left, i);
  }

  /** The current row as a CSV line behind what is in the buffer. */
  method AppendLine(o: CsvOption, kinds: seq<ColKind>, iter: MultiQueriesChunkIter,
                    bf: string) returns (r: Option<string>)
    requires iter.Valid() && iter.hasNext && iter.Left() != [] && |iter.Left()[0]| == |kinds|
    ensures r.None? <==> kinds != [] && iter.BadRow()
    ensures r.Some? ==> r.value == bf + CsvLine(o, kinds, iter.Left()[0])
  {
    hide *;
    var out := bf;
    EmptyLineText(o, kinds, iter.Left()[0]);
    if kinds != [] {
      var row := iter.Decode();
      if row.None? {
        return None;
      }
      out := WriteToBufferInCsv(o, kinds, row.value, out);
      LineText(o, kinds, row.value, bf);
    }
    return Some(out + o.lineTerminator);
  }

  lemma EmptyLineText(o: CsvOption, kinds: seq<ColKind>, row: Record)
    requires |row| == |kinds|
    ensures kinds == [] ==> CsvLine(o, kinds, row) == o.lineTerminator
  {
  }

  lemma LineText(o: CsvOption, kinds: seq<ColKind>, row: Record, bf: string)
    requires |row| == |kinds|
    ensures bf + CsvLine(o, kinds, row) == bf + CsvValues(o, kinds, row) + o.lineTerminator
  {
    hide CsvValues;
    Regroup(bf, CsvValues(o, kinds, row), o.lineTerminator);
  }

  /** One turn of the loop of `WriteInsertInCsv`: a line into the buffer, and a full
      buffer to the pipe. */
  method AddLine(dump: Dump, kinds: seq<ColKind>, iter: MultiQueriesChunkIter, wp: Pipe, bf: string,
                 ghost counter: nat, ghost left: seq<Record>) returns (bf': string, ok: bool)
    requires dump.CsvDump? && Table(kinds, left) && counter < |left|
    requires iter.Valid() && iter.hasNext && iter.Left() == left[counter..]
    requires wp.Valid() && !wp.errTaken && wp.limits == Limits(dump.limit, 0)
    requires var texts, header := Items(CsvRow(dump.o), kinds, left), Header(dump.o, dump.noHeader, dump.names);
             && LinesIn(dump.limit, header, texts, wp.sent + bf, counter, wp.currentFileSize)
             && counter < LinesTaken(dump.limit, |header|, texts)
    modifies iter, wp, wp.w, wp.w.store
    ensures iter.Valid() && iter.Fails() == old(iter.Fails()) && wp.Valid()
    ensures iter.passed + |iter.Left()| == old(iter.passed + |iter.Left()|) && iter.passed >= old(iter.passed)
    ensures wp.w.store.interrupted >= old(wp.w.store.interrupted)
    ensures !ok ==> wp.errOccurs || wp.w.store.interrupted > old(wp.w.store.interrupted) || (kinds != [] && iter.BadRow())
    ensures ok ==> wp.w.store.interrupted == old(wp.w.store.interrupted)
    ensures ok && kinds != [] ==> Decodable(iter.undecodable, old(iter.passed), iter.passed)
    ensures ok ==>
              var texts, header := Items(CsvRow(dump.o), kinds, left), Header(dump.o, dump.noHeader, dump.names);
              && !wp.errTaken && iter.Left() == left[counter + 1..]
              && LinesIn(dump.limit, header, texts, wp.sent + bf', counter + 1, wp.currentFileSize)
              && (counter + 1 == LinesTaken(dump.limit, |header|, texts)
                  <==> FileFull(wp.limits, wp.currentFileSize) || counter + 1 == |left|)
    ensures Content(FormatOf(dump), Items(EncodingOf(dump), kinds, left)) == "" ==> wp.sent == ""
  {
    hide *;
    CsvParts(dump, kinds, left);
    var o := dump.o;
    ghost var texts, header := Items(CsvRow(o), kinds, left), Header(o, dump.noHeader, dump.names);
    EmptySoFar(dump.limit, header, texts, wp.sent + bf, counter, wp.currentFileSize);
    EmptyParts(wp.sent, bf);
    AddsLine(dump.limit, header, texts, wp.sent, bf, counter, wp.currentFileSize);
    LineTextAt(o, kinds, left, counter);
    DecodableNone(iter.undecodable);
    PassesRow(iter.undecodable, kinds, iter.passed, iter.passed);
    iter.BadRowMeans();
    var lastBfSize := |bf|;
    var written := AppendLine(o, kinds, iter, bf);
    if written.None? {
      return bf, false;
    }
    bf' := written.value;
    wp.currentFileSize := wp.currentFileSize + (|bf'| - lastBfSize);
    EmptySoFar(dump.limit, header, texts, wp.sent + bf', counter + 1, wp.currentFileSize);
    EmptyParts(wp.sent, bf');
    ghost var out := wp.sent + bf';
    bf', ok := HandOver(wp, bf');
    if !ok {
      return;
    }
    EmptyParts(wp.sent, bf');
    iter.Next();
  }

  /** `WriteInsertInCsv`: the header, then lines until the file is full. */
  method WriteInsertInCsv(dump: Dump, kinds: seq<ColKind>, iter: MultiQueriesChunkIter,
                          w: FileWriter) returns (counter: nat, ok: bool)
    requires dump.CsvDump? && iter.Valid() && Table(kinds, iter.Left())
    requires w.Valid() && !w.initDone
    modifies iter, w, w.store
    ensures iter.Valid() && w.Valid() && Only(old(w.store.files), w.store.files, {w.name})
    ensures OnlyUnclosed(old(w.store.unclosed), w.store.unclosed, w.name)
    ensures !w.initDone ==> w.store.unclosed == old(w.store.unclosed)
    ensures w.store.failed >= old(w.store.failed) && w.store.interrupted >= old(w.store.interrupted)
    ensures iter.Fails() == old(iter.Fails()) && iter.passed + |iter.Left()| == old(iter.passed + |iter.Left()|)
    ensures iter.passed >= old(iter.passed)
    ensures !ok ==> w.store.failed > old(w.store.failed) || w.store.interrupted > old(w.store.interrupted)
                    || iter.Fails() || (kinds != [] && iter.BadRow())
    ensures ok ==> w.store.failed == old(w.store.failed) && w.store.interrupted == old(w.store.interrupted) && !w.err
    ensures ok && kinds != [] ==> Decodable(iter.undecodable, old(iter.passed), iter.passed)
    ensures old(iter.Left()) == [] ==> w.store.files == old(w.store.files) && !w.initDone && iter.Left() == []
    ensures ok && old(iter.Left()) != [] ==>
              FileWritten(dump, kinds, w.name, old(w.store.files), w.store.files, old(iter.Left()), iter.Left(), counter)
    ensures ok && old(iter.Left()) != [] ==>
              w.somethingIsWritten == (Content(FormatOf(dump), Items(EncodingOf(dump), kinds, old(iter.Left()))) != "")
    ensures old(iter.Left()) != [] && Content(FormatOf(dump), Items(EncodingOf(dump), kinds, old(iter.Left()))) == "" ==>
              w.store.files == old(w.store.files) && !w.initDone
    ensures ok && iter.Left() == [] ==> !iter.Fails()
  {
    hide *;
    counter := 0;
    iter.LeftIff();
    DecodableNone(iter.undecodable);
    OnlySame(w.store.files, {w.name});
    UnclosedSame(w.store.unclosed, w.name);
    w.Unwritten();
    if !iter.hasNext {
      iter.ErrorAtEnd();
      return 0, !iter.Error();
    }
    ghost var left := iter.Left();
    CsvParts(dump, kinds, left);
    var o := dump.o;
    ghost var texts := Items(CsvRow(o), kinds, left);
    ghost var header := Header(o, dump.noHeader, dump.names);
    ghost var total := LinesTaken(dump.limit, |header|, texts);

    var wp := new Pipe(w, Limits(dump.limit, 0));
    var bf := WriteHeader(o, dump.noHeader, dump.names);
    wp.currentFileSize := wp.currentFileSize + |bf|;
    FirstLine(dump.limit, header, texts);
    assert "" + bf == bf;

    while iter.hasNext
      invariant iter.Valid() && iter.Fails() == old(iter.Fails()) && (iter.hasNext <==> iter.Left() != [])
      invariant wp.Valid() && fresh(wp) && wp.w == w && wp.base == old(w.store.files) && !wp.errTaken && wp.limits == Limits(dump.limit, 0)
      invariant wp.unclosedBase == old(w.store.unclosed) && wp.failedBase == old(w.store.failed)
      invariant w.store.interrupted == old(w.store.interrupted)
      invariant iter.passed + |iter.Left()| == old(iter.passed + |iter.Left()|) && old(iter.passed) <= iter.passed
      invariant kinds != [] ==> Decodable(iter.undecodable, old(iter.passed), iter.passed)
      invariant counter <= |left| && iter.Left() == left[counter..]
      invariant LinesIn(dump.limit, header, texts, wp.sent + bf, counter, wp.currentFileSize)
      invariant if iter.hasNext then counter < total else counter == total
      decreases |iter.Left()|
    {
      ghost var passed := iter.passed;
      var added: bool;
      bf, added := AddLine(dump, kinds, iter, wp, bf, counter, left);
      wp.Touched();
      if !added {
        wp.Cancel();
        return counter, false;
      }
      counter := counter + 1;
      DecodableChains(iter.undecodable, old(iter.passed), passed, iter.passed);
      iter.LeftIff();
      wp.SwitchMeans();
      if wp.ShouldSwitchFile() {
        break;
      }
    }
    LinesMean(dump.limit, header, texts, wp.sent + bf, counter, wp.currentFileSize);
    IsWritten(dump, kinds, w.name, old(w.store.files), left, counter, wp.sent + bf);
    ok := FinishFile(wp, iter, bf);
  }

  // ---- the files of a chunk ----

  /** Contents under the names of a chunk, from file `k` on. */
  function Named(id: ChunkId, k: nat, contents: seq<string>): map<string, string>
    decreases |contents|
  {
    if contents == [] then map[]
    else map[NameAt(id, k) := contents[0]] + Named(id, k + 1, contents[1..])
  }

  /** The names of files `k` to `n - 1`. */
  ghost function Names(id: ChunkId, k: nat, n: nat): set<string> {
    set j | k <= j < n :: NameAt(id, j)
  }

  lemma {:induction false} NamedKeys(id: ChunkId, k: nat, contents: seq<string>)
    ensures Named(id, k, contents).Keys == Names(id, k, k + |contents|)
    decreases |contents|
  {
    hide NameAt;
    if contents != [] {
      NamedKeys(id, k + 1, contents[1..]);
    }
  }

  /** Writing file `k` leaves the same store still to be reached. */
  lemma NamedStep(files: map<string, string>, id: ChunkId, k: nat, content: string, more: seq<string>)
    ensures files + Named(id, k, [content] + more) == files[NameAt(id, k) := content] + Named(id, k + 1, more)
  {
    assert ([content] + more)[1..] == more;
    hide NameAt;
  }

  lemma NamedNothing(files: map<string, string>, id: ChunkId, k: nat)
    ensures files + Named(id, k, []) == files
  {
  }

  lemma NameAmong(id: ChunkId, k: nat, n: nat)
    requires k < n
    ensures {NameAt(id, k)} <= Names(id, 0, n)
  {
  }

  lemma FileWrittenMeans(dump: Dump, kinds: seq<ColKind>, name: string, before: map<string, string>,
                         after: map<string, string>,
                         left: seq<Record>, rest: seq<Record>, counter: nat)
    requires Table(kinds, left) && left != [] && FileWritten(dump, kinds, name, before, after, left, rest, counter)
    ensures 0 < counter <= |left| && rest == left[counter..]
    ensures var f, texts := FormatOf(dump), Items(EncodingOf(dump), kinds, left);
            && counter == Taken(f, texts)
            && after == (if Content(f, texts) == "" then before else before[name := Content(f, texts)])
  {
    hide Content;
  }

  /** One file, in the format of the dump. */
  method WriteFile(dump: Dump, kinds: seq<ColKind>, iter: MultiQueriesChunkIter,
                   w: FileWriter) returns (counter: nat, ok: bool)
    requires iter.Valid() && Table(kinds, iter.Left())
    requires w.Valid() && !w.initDone
    modifies iter, w, w.store
    ensures iter.Valid() && w.Valid() && Only(old(w.store.files), w.store.files, {w.name})
    ensures OnlyUnclosed(old(w.store.unclosed), w.store.unclosed, w.name)
    ensures !w.initDone ==> w.store.unclosed == old(w.store.unclosed)
    ensures w.store.failed >= old(w.store.failed) && w.store.interrupted >= old(w.store.interrupted)
    ensures iter.Fails() == old(iter.Fails()) && iter.passed + |iter.Left()| == old(iter.passed + |iter.Left()|)
    ensures iter.passed >= old(iter.passed)
    ensures !ok ==> w.store.failed > old(w.store.failed) || w.store.interrupted > old(w.store.interrupted)
                    || iter.Fails() || (kinds != [] && iter.BadRow())
    ensures ok ==> w.store.failed == old(w.store.failed) && w.store.interrupted == old(w.store.interrupted) && !w.err
    ensures ok && kinds != [] ==> Decodable(iter.undecodable, old(iter.passed), iter.passed)
    ensures old(iter.Left()) == [] ==> w.store.files == old(w.store.files) && !w.initDone && iter.Left() == []
    ensures ok && old(iter.Left()) != [] ==>
              FileWritten(dump, kinds, w.name, old(w.store.files), w.store.files, old(iter.Left()), iter.Left(), counter)
    ensures ok && old(iter.Left()) != [] ==>
              w.somethingIsWritten == (Content(FormatOf(dump), Items(EncodingOf(dump), kinds, old(iter.Left()))) != "")
    ensures old(iter.Left()) != [] && Content(FormatOf(dump), Items(EncodingOf(dump), kinds, old(iter.Left()))) == "" ==>
              w.store.files == old(w.store.files) && !w.initDone
    ensures ok && iter.Left() == [] ==> !iter.Fails()
  {
    hide *;
    if dump.SqlDump? {
      SqlContent(dump, kinds, iter.Left());
      counter, ok := WriteInsert(dump, kinds, iter, w);
    } else {
      counter, ok := WriteInsertInCsv(dump, kinds, iter, w);
    }
  }

  lemma SqlContent(dump: Dump, kinds: seq<ColKind>, rows: seq<Record>)
    requires dump.SqlDump? && Table(kinds, rows)
    ensures rows != [] ==> Content(FormatOf(dump), Items(EncodingOf(dump), kinds, rows)) != ""
  {
    if rows != [] {
      LivelyContent(dump, kinds, rows);
    }
  }

  /** The first `k` files of a chunk have been closed. */
  ghost predicate AllClosed(id: ChunkId, k: nat, unclosed: set<string>) {
    forall j :: 0 <= j < k ==> NameAt(id, j) !in unclosed
  }

  lemma ClosesOne(id: ChunkId, k: nat, before: set<string>, after: set<string>)
    ensures AllClosed(id, 0, before)
    ensures AllClosed(id, k, before) && OnlyUnclosed(before, after, NameAt(id, k)) && NameAt(id, k) !in after ==>
              AllClosed(id, k + 1, after)
  {
    hide NameAt;
    var name := NameAt(id, k);
    if AllClosed(id, k, before) && OnlyUnclosed(before, after, name) && name !in after {
      forall j | 0 <= j < k ensures NameAt(id, j) !in after {
        assert NameAt(id, j) !in before;
        assert NameAt(id, j) in after - {name} <==> NameAt(id, j) in before - {name};
      }
    }
  }

  /** `tryToWriteTableData`: file after file until no row is left. What it
      leaves behind on success is decided by the rows alone, and closed; on an
      error it has touched no name outside the chunk's. It succeeds exactly when
      nothing went wrong: no operation of the storage failed, nothing was
      interrupted, and the rows came without an error and could be converted. */
  method TryToWriteTableData(dump: Dump, kinds: seq<ColKind>, iter: MultiQueriesChunkIter, store: Store,
                             namer: OutputFileNamer) returns (ok: bool)
    requires iter.Valid() && Table(kinds, iter.Left()) && namer.fileIndex == 0
    modifies iter, store, namer
    ensures var contents := FilesOf(dump, kinds, old(iter.Left()));
            && (ok ==> store.files == old(store.files) + Named(namer.id, 0, contents))
            && (ok ==> AllClosed(namer.id, |contents|, store.unclosed))
            && Only(old(store.files), store.files, Names(namer.id, 0, |contents|))
    ensures ok <==> && store.failed == old(store.failed) && store.interrupted == old(store.interrupted)
                    && !old(iter.Fails())
                    && (kinds == [] || Decodable(iter.undecodable, old(iter.passed), old(iter.passed + |iter.Left()|)))
    ensures store.failed >= old(store.failed) && store.interrupted >= old(store.interrupted)
  {
    hide *;
    var fileName := namer.NextName();
    ghost var k := 0;
    ghost var rows := iter.Left();
    ghost var contents := FilesOf(dump, kinds, rows);
    ghost var names := Names(namer.id, 0, |contents|);
    ghost var target := store.files + Named(namer.id, 0, contents);
    OnlySame(store.files, names);
    ClosesOne(namer.id, 0, store.unclosed, store.unclosed);
    DecodableNone(iter.undecodable);
    while true
      invariant iter.Valid() && Table(kinds, iter.Left()) && iter.Fails() == old(iter.Fails())
      invariant namer.fileIndex == k + 1 && fileName == NameAt(namer.id, k)
      invariant store.files + Named(namer.id, k, FilesOf(dump, kinds, iter.Left())) == target
      invariant |contents| == k + |FilesOf(dump, kinds, iter.Left())|
      invariant Only(old(store.files), store.files, names)
      invariant AllClosed(namer.id, k, store.unclosed)
      invariant store.failed == old(store.failed) && store.interrupted == old(store.interrupted)
      invariant iter.passed + |iter.Left()| == old(iter.passed + |iter.Left()|) && old(iter.passed) <= iter.passed
      invariant kinds != [] ==> Decodable(iter.undecodable, old(iter.passed), iter.passed)
      decreases |iter.Left()|
    {
      ghost var left := iter.Left();
      ghost var before, unclosed, passed := store.files, store.unclosed, iter.passed;
      var fileWriter := new FileWriter(store, fileName);
      var n, written := WriteFile(dump, kinds, iter, fileWriter);
      ghost var after, halfway := store.files, store.unclosed;
      fileWriter.Unwritten();
      var closed := fileWriter.TearDown();
      UnclosedChains(unclosed, halfway, store.unclosed, fileName);
      ClosesOne(namer.id, k, unclosed, store.unclosed);
      RowsPassed(kinds, iter, old(iter.passed), passed, old(iter.passed + |iter.Left()|));
      OnlyChains(before, after, store.files, {fileName});
      TouchedInside(dump, kinds, left, namer.id, k, old(store.files), before, store.files, names);
      if !written {
        return false;
      }
      if !closed {
        return false;
      }
      FileIsDone(dump, kinds, left, iter.Left(), namer.id, k, before, store.files, n);
      if !fileWriter.somethingIsWritten {
        break;
      }
      if FileSize(FormatOf(dump)) == 0 {
        break;
      }
      fileName := namer.NextName();
      k := k + 1;
    }
    ok := true;
  }

  /** What the rows passed so far, and a row that cannot be converted, say of all rows. */
  lemma RowsPassed(kinds: seq<ColKind>, iter: MultiQueriesChunkIter, a: nat, b: nat, c: nat)
    requires iter.Valid() && a <= b && iter.passed + |iter.Left()| == c
    requires kinds != [] ==> Decodable(iter.undecodable, a, b)
    ensures kinds != [] && b <= iter.passed && Decodable(iter.undecodable, b, iter.passed) ==>
              Decodable(iter.undecodable, a, iter.passed)
    ensures iter.BadRow() && a <= iter.passed ==> !Decodable(iter.undecodable, a, c)
  {
    iter.LeftIff();
    hide *;
    hide Decodable;
    iter.BadRowMeans();
    if kinds != [] && b <= iter.passed {
      DecodableChains(iter.undecodable, a, b, iter.passed);
    }
    if iter.BadRow() && a <= iter.passed {
      BadRowCounts(iter.undecodable, a, iter.passed, c);
    }
  }

  lemma BadRowCounts(undecodable: set<nat>, a: nat, b: nat, c: nat)
    requires a <= b < c && b in undecodable
    ensures !Decodable(undecodable, a, c)
  {
  }

  /** A file written in part or in full is one of the chunk's. */
  lemma TouchedInside(dump: Dump, kinds: seq<ColKind>, left: seq<Record>, id: ChunkId, k: nat,
                      start: map<string, string>, before: map<string, string>, after: map<string, string>, names: set<string>)
    requires Table(kinds, left)
    requires Only(before, after, {NameAt(id, k)}) && Only(start, before, names)
    requires left == [] || Content(FormatOf(dump), Items(EncodingOf(dump), kinds, left)) == "" ==> after == before
    requires names == Names(id, 0, k + |FilesOf(dump, kinds, left)|)
    ensures Only(start, after, names)
  {
    hide *;
    if left != [] && Content(FormatOf(dump), Items(EncodingOf(dump), kinds, left)) != "" {
      FilesStep(dump, kinds, left);
      NameAmong(id, k, k + |FilesOf(dump, kinds, left)|);
      OnlyGrows(before, after, {NameAt(id, k)}, names);
      OnlyChains(start, before, after, names);
    }
  }

  /** After a file the target is as near as the rows left say; without a further
      file it has been reached. */
  lemma FileIsDone(dump: Dump, kinds: seq<ColKind>, left: seq<Record>, rest: seq<Record>, id: ChunkId, k: nat,
                   before: map<string, string>, after: map<string, string>, counter: nat)
    requires Table(kinds, left)
    requires left == [] ==> rest == [] && after == before
    requires left != [] ==> FileWritten(dump, kinds, NameAt(id, k), before, after, left, rest, counter)
    ensures |rest| < |left| || left == []
    ensures Table(kinds, rest)
    ensures var f := FormatOf(dump);
            var target := before + Named(id, k, FilesOf(dump, kinds, left));
            if left == [] || Content(f, Items(EncodingOf(dump), kinds, left)) == "" then
              target == after && rest == [] && FilesOf(dump, kinds, left) == []
            else if FileSize(f) == 0 then target == after && rest == [] && |FilesOf(dump, kinds, left)| == 1
            else target == after + Named(id, k + 1, FilesOf(dump, kinds, rest))
                 && |FilesOf(dump, kinds, left)| == 1 + |FilesOf(dump, kinds, rest)|
  {
    hide *;
    if left == [] {
      NoFiles(dump, kinds);
      NamedNothing(after, id, k);
    } else {
      FileWrittenMeans(dump, kinds, NameAt(id, k), before, after, left, rest, counter);
      FilesStep(dump, kinds, left);
      NamedNothing(after, id, k);
      NamedNothing(after, id, k + 1);
      EmptyTakesAll(dump, kinds, left);
      var f, texts := FormatOf(dump), Items(EncodingOf(dump), kinds, left);
      var more := if FileSize(f) == 0 then [] else FilesOf(dump, kinds, rest);
      NamedStep(before, id, k, Content(f, texts), more);
    }
  }

  // ---- retries ----

  /** `dumpChunkBackoffer` and `noopBackoffer`; delays in milliseconds. */
  class Backoffer {
    const isNoop: bool
    var attempt: nat
    var delayTime: nat

    /** `newRebuildConnBackOffer`. */
    constructor (shouldRetry: bool)
      ensures isNoop == !shouldRetry && attempt == (if shouldRetry then 3 else 1) && delayTime == 50
    {
      isNoop := !shouldRetry;
      attempt, delayTime := if shouldRetry then 3 else 1, 50;
    }

    method NextBackoff() returns (delay: nat)
      requires attempt > 0
      modifies this
      ensures attempt == old(attempt) - 1
      ensures delay == (if isNoop then 0 else Min(2 * old(delayTime), 200))
           && (delayTime == if isNoop then old(delayTime) else 2 * old(delayTime))
    {
      attempt := attempt - 1;
      if isNoop {
        return 0;
      }
      delayTime := 2 * delayTime;
      delay := if delayTime > 200 then 200 else delayTime;
    }
  }

  /** What an attempt meets: whether the connection can be rebuilt and the query
      started, what the queries answer, and which rows cannot be converted. */
  datatype Attempt = Attempt(rebuilds: bool, starts: bool, answers: seq<Answer>, undecodable: set<nat>)

  /** An attempt that only the storage or the end of the context can spoil. */
  ghost predicate Sound(a: Attempt, kinds: seq<ColKind>, first: bool) {
    && (first || a.rebuilds) && a.starts && !Failing(a.answers)
    && (kinds == [] || Decodable(a.undecodable, 0, |Yielded(a.answers)|))
  }

  /** How many of the first `n` attempts are sound. */
  ghost function SoundOnes(attempts: seq<Attempt>, kinds: seq<ColKind>, n: nat): nat
    requires n <= |attempts|
  {
    if n == 0 then 0 else SoundOnes(attempts, kinds, n - 1) + if Sound(attempts[n - 1], kinds, n == 1) then 1 else 0
  }

  lemma SoundStep(attempts: seq<Attempt>, kinds: seq<ColKind>, n: nat)
    requires n < |attempts|
    ensures SoundOnes(attempts, kinds, 0) == 0
    ensures SoundOnes(attempts, kinds, n + 1)
         == SoundOnes(attempts, kinds, n) + if Sound(attempts[n], kinds, n == 0) then 1 else 0
  {
    hide Sound;
  }

  lemma SoundMeans(a: Attempt, kinds: seq<ColKind>, first: bool)
    ensures Sound(a, kinds, first) <==>
              && (first || a.rebuilds) && a.starts && !Failing(a.answers)
              && (kinds == [] || Decodable(a.undecodable, 0, |Yielded(a.answers)|))
  {
  }

  /** Every attempt sees the same rows, or a front part of them and then an error. */
  ghost predicate SameRows(attempts: seq<Attempt>, rows: seq<Record>) {
    forall i :: 0 <= i < |attempts| ==>
      && Yielded(attempts[i].answers) <= rows
      && (!Failing(attempts[i].answers) ==> Yielded(attempts[i].answers) == rows)
  }

  lemma SeenRows(attempts: seq<Attempt>, i: nat, kinds: seq<ColKind>, rows: seq<Record>)
    requires SameRows(attempts, rows) && i < |attempts| && Table(kinds, rows)
    ensures Yielded(attempts[i].answers) <= rows && Table(kinds, Yielded(attempts[i].answers))
    ensures !Failing(attempts[i].answers) ==> Yielded(attempts[i].answers) == rows
  {
    var part := Yielded(attempts[i].answers);
    assert rows == part + rows[|part|..];
    TableSplits(kinds, part, rows[|part|..]);
  }

  /** What the store should hold of a chunk. */
  ghost predicate ChunkStored(dump: Dump, kinds: seq<ColKind>, rows: seq<Record>, id: ChunkId, before: map<string,
                              string>, after: map<string, string>)
    requires Table(kinds, rows)
  {
    after == before + Named(id, 0, FilesOf(dump, kinds, rows))
  }

  /** Leftovers of failed attempts are all overwritten. */
  lemma OverwritesAll(dump: Dump, kinds: seq<ColKind>, rows: seq<Record>, id: ChunkId, start: map<string, string>,
                      dirty: map<string, string>)
    requires Table(kinds, rows)
    requires Only(start, dirty, Names(id, 0, |FilesOf(dump, kinds, rows)|))
    ensures dirty + Named(id, 0, FilesOf(dump, kinds, rows)) == start + Named(id, 0, FilesOf(dump, kinds, rows))
  {
    NamedKeys(id, 0, FilesOf(dump, kinds, rows));
    hide *;
    Overlay(start, dirty, Named(id, 0, FilesOf(dump, kinds, rows)));
  }

  lemma Overlay(a: map<string, string>, b: map<string, string>, m: map<string, string>)
    requires Only(a, b, m.Keys)
    ensures b + m == a + m
  {
  }

  lemma FrontTouchesLess(dump: Dump, kinds: seq<ColKind>, part: seq<Record>, rows: seq<Record>, id: ChunkId,
                         a: map<string, string>, b: map<string, string>)
    requires Table(kinds, rows) && part <= rows
    ensures Table(kinds, part)
    ensures Only(a, b, Names(id, 0, |FilesOf(dump, kinds, part)|)) ==> Only(a, b, Names(id, 0, |FilesOf(dump, kinds, rows)|))
  {
    assert rows == part + rows[|part|..];
    hide FilesOf, Table;
    FilesOfFront(dump, kinds, part, rows[|part|..]);
    hide NameAt;
    if Only(a, b, Names(id, 0, |FilesOf(dump, kinds, part)|)) {
      OnlyGrows(a, b, Names(id, 0, |FilesOf(dump, kinds, part)|), Names(id, 0, |FilesOf(dump, kinds, rows)|));
    }
  }

  /** `WriteTableData`: whatever fails, and however often, an attempt that ends
      without an error leaves exactly the files of one clean run, closed; and no
      attempt touches a name that is not one of those files. An error means that
      every attempt allowed was spoiled: unless the context was done, the storage
      has failed at least once for each attempt that nothing else had spoiled. */
  method WriteTableData(dump: Dump, kinds: seq<ColKind>, attempts: seq<Attempt>, canRebuild: bool, store: Store,
                        db: string, table: string, chunk: nat, rowsSet: bool, ext: string, ghost rows: seq<Record>) returns (ok: bool)
    requires Table(kinds, rows)
    requires |attempts| >= 3 && SameRows(attempts, rows)
    modifies store
    ensures var id := ChunkId(db, table, chunk, PickFormat(rowsSet, FileSize(FormatOf(dump)) != 0), ext);
            && (ok ==> ChunkStored(dump, kinds, rows, id, old(store.files), store.files))
            && (ok ==> AllClosed(id, |FilesOf(dump, kinds, rows)|, store.unclosed))
            && Only(old(store.files), store.files, Names(id, 0, |FilesOf(dump, kinds, rows)|))
    ensures var allowed := if canRebuild then 3 else 1;
            && (ok ==> exists i :: 0 <= i < allowed && Sound(attempts[i], kinds, i == 0))
            && (!ok && store.interrupted == old(store.interrupted) ==>
                 store.failed >= old(store.failed) + SoundOnes(attempts, kinds, allowed))
  {
    hide *;
    var backoff := new Backoffer(canRebuild);
    var retryTime := 0;
    var fileSize := FileSize(FormatOf(dump)) != 0;
    ghost var id := ChunkId(db, table, chunk, PickFormat(rowsSet, fileSize), ext);
    ghost var names := Names(id, 0, |FilesOf(dump, kinds, rows)|);
    OnlySame(store.files, names);
    SoundStep(attempts, kinds, 0);
    while backoff.attempt > 0
      invariant fresh(backoff) && retryTime + backoff.attempt == if canRebuild then 3 else 1
      invariant Only(old(store.files), store.files, names)
      invariant store.interrupted >= old(store.interrupted)
      invariant store.interrupted == old(store.interrupted) ==>
                  store.failed >= old(store.failed) + SoundOnes(attempts, kinds, retryTime)
      decreases backoff.attempt
    {
      ghost var before := store.files;
      SoundStep(attempts, kinds, retryTime);
      retryTime := retryTime + 1;
      var attempt := attempts[retryTime - 1];
      SoundMeans(attempt, kinds, retryTime == 1);
      SeenRows(attempts, retryTime - 1, kinds, rows);
      var done := false;
      if (retryTime == 1 || attempt.rebuilds) && attempt.starts {
        var iter := new MultiQueriesChunkIter(attempt.answers, attempt.undecodable);
        var namer := new OutputFileNamer(db, table, chunk, rowsSet, fileSize, ext);
        ghost var part := iter.Left();
        done := TryToWriteTableData(dump, kinds, iter, store, namer);
        FrontTouchesLess(dump, kinds, part, rows, id, before, store.files);
        OnlyChains(old(store.files), before, store.files, names);
        if done {
          OverwritesAll(dump, kinds, rows, id, old(store.files), before);
          IsStored(dump, kinds, rows, id, old(store.files));
        }
      }
      if done {
        return true;
      }
      var cancelled: bool := *;
      if cancelled {
        store.interrupted := store.interrupted + 1;
        return false;
      }
      var _ := backoff.NextBackoff();
    }
    ok := false;
  }

  lemma IsStored(dump: Dump, kinds: seq<ColKind>, rows: seq<Record>, id: ChunkId, before: map<string, string>)
    requires Table(kinds, rows)
    ensures ChunkStored(dump, kinds, rows, id, before, before + Named(id, 0, FilesOf(dump, kinds, rows)))
  {
  }
}
