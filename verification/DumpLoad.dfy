/** Dump and load: the data files of a chunk, read back by the two loaders. */
module DumpLoad {
  import opened Common
  import opened BackslashText
  import opened Quoting
  import opened RowText
  import opened SqlFile
  import opened CsvText
  import opened DataFiles
  import opened Readback
  import SqlLoad
  import CsvLoad

  /** Rows that survive the trip in one file: numeric texts are written without
      quotes, and backslashes in texts as they are. */
  predicate SafeFile(g: Grammar, dump: Dump, kinds: seq<ColKind>, rows: seq<Record>)
    requires Table(kinds, rows)
  {
    match dump
    case SqlDump(_, _, _, noPreamble) => SqlLoad.PlainRows(SqlLoad.Behind(g, noPreamble), kinds, rows)
    case CsvDump(o, _, noHeader, names) => CsvLoad.SafeFile(o, noHeader, names, kinds, rows)
  }

  /** The same, file by file. */
  predicate Safe(g: Grammar, dump: Dump, kinds: seq<ColKind>, rows: seq<Record>)
    requires Table(kinds, rows)
    decreases |rows|
  {
    if rows == [] then true
    else
      var n := Taken(FormatOf(dump), Items(EncodingOf(dump), kinds, rows));
      assert Table(kinds, rows[..n]) && Table(kinds, rows[n..]) by { ItemsSplit(EncodingOf(dump), kinds, rows, n); }
      SafeFile(g, dump, kinds, rows[..n]) && Safe(g, dump, kinds, rows[n..])
  }

  /** SQL goes to a server of its dialect, whose session starts with the grammar
      `g`; CSV has settings that spoil a file (`CsvLoad.Usable`). */
  ghost predicate Readable(g: Grammar, dump: Dump) {
    match dump
    case SqlDump(d, _, _, _) => ReadBy(g, d)
    case CsvDump(o, _, _, _) => CsvLoad.Usable(o)
  }

  function LoadFile(g: Grammar, dump: Dump, kinds: seq<ColKind>, s: string): Option<seq<Record>>
    requires Readable(g, dump)
  {
    match dump
    case SqlDump(_, target, _, _) => SqlLoad.LoadFile(g, target, kinds, s)
    case CsvDump(o, _, noHeader, names) => CsvLoad.LoadCsvFile(o, noHeader, names, kinds, s)
  }

  /** The rows of all files, in file order. */
  function LoadFiles(g: Grammar, dump: Dump, kinds: seq<ColKind>, files: seq<string>): Option<seq<Record>>
    requires Readable(g, dump)
  {
    if files == [] then Some([])
    else Both(LoadFile(g, dump, kinds, files[0]), LoadFiles(g, dump, kinds, files[1..]))
  }

  lemma FileReads(g: Grammar, dump: Dump, kinds: seq<ColKind>, rows: seq<Record>)
    requires Readable(g, dump) && rows != [] && Table(kinds, rows)
    ensures var texts := Items(EncodingOf(dump), kinds, rows);
            var f := FormatOf(dump);
            && Table(kinds, rows[..Taken(f, texts)])
            && var taken := rows[..Taken(f, texts)];
               Outcome(SafeFile(g, dump, kinds, taken), taken, LoadFile(g, dump, kinds, Content(f, texts)))
  {
    hide Table, Items, Outcome, InsertPrefix, PreambleText, Header, FileRows, FileText, CsvText.LinesTaken, Flat;
    hide SqlLoad.PlainRows, SqlLoad.LoadFile, CsvLoad.Usable, CsvLoad.SafeFile, CsvLoad.LoadCsvFile;
    match dump
    case SqlDump(d, target, l, noPreamble) =>
      SqlLoad.FileReads(FormatOf(dump).layout, d, g, target, noPreamble, kinds, rows);
    case CsvDump(o, limit, noHeader, names) =>
      CsvLoad.FileReads(o, limit, noHeader, names, kinds, rows);
  }

  lemma NoFilesRead(g: Grammar, dump: Dump, kinds: seq<ColKind>)
    requires Readable(g, dump)
    ensures var none: seq<Record> := [];
            && Table(kinds, none) && Safe(g, dump, kinds, none)
            && FilesOf(dump, kinds, none) == [] && Outcome(true, none, LoadFiles(g, dump, kinds, []))
  {
  }

  lemma SafeStep(g: Grammar, dump: Dump, kinds: seq<ColKind>, rows: seq<Record>)
    requires rows != [] && Table(kinds, rows)
    ensures var n := Taken(FormatOf(dump), Items(EncodingOf(dump), kinds, rows));
            && Table(kinds, rows[..n]) && Table(kinds, rows[n..])
            && (Safe(g, dump, kinds, rows) <==> SafeFile(g, dump, kinds, rows[..n]) && Safe(g, dump, kinds, rows[n..]))
  {
    var n := Taken(FormatOf(dump), Items(EncodingOf(dump), kinds, rows));
    ItemsSplit(EncodingOf(dump), kinds, rows, n);
    hide Table, Items, Taken, FormatOf, EncodingOf, SafeFile;
  }

  /** SQL rows are safe whatever file they go into. */
  lemma {:induction false} SqlSafeIsPlain(g: Grammar, dump: Dump, kinds: seq<ColKind>, rows: seq<Record>)
    requires dump.SqlDump? && Table(kinds, rows)
    ensures Safe(g, dump, kinds, rows) <==> SqlLoad.PlainRows(SqlLoad.Behind(g, dump.noPreamble), kinds, rows)
    decreases |rows|
  {
    hide Table, Items, Taken, FormatOf, EncodingOf;
    if rows != [] {
      hide Safe, SqlLoad.PlainRows, SqlLoad.Behind;
      SafeStep(g, dump, kinds, rows);
      var n := Taken(FormatOf(dump), Items(EncodingOf(dump), kinds, rows));
      assert rows == rows[..n] + rows[n..];
      SqlLoad.PlainRowsSplit(SqlLoad.Behind(g, dump.noPreamble), kinds, rows[..n], rows[n..]);
      SqlSafeIsPlain(g, dump, kinds, rows[n..]);
    }
  }

  /** CSV rows, and the header, that are safe by the next token alone. */
  predicate LocalCsv(dump: Dump, kinds: seq<ColKind>, rows: seq<Record>)
    requires dump.CsvDump? && Table(kinds, rows)
  {
    rows == [] || (CsvLoad.LocalHeader(dump.o, dump.noHeader, dump.names) && CsvLoad.LocalRows(dump.o, kinds, rows))
  }

  /** Such rows are safe whatever file they go into; with separate tokens no other
      rows are. */
  lemma {:induction false} CsvSafeByToken(g: Grammar, dump: Dump, kinds: seq<ColKind>, rows: seq<Record>)
    requires dump.CsvDump? && Table(kinds, rows)
    ensures LocalCsv(dump, kinds, rows) ==> Safe(g, dump, kinds, rows)
    ensures CsvLoad.Separate(dump.o) ==> (Safe(g, dump, kinds, rows) <==> LocalCsv(dump, kinds, rows))
    decreases |rows|
  {
    hide Table, Items, Taken, FormatOf, EncodingOf, CsvLoad.Separate;
    if rows != [] {
      hide Safe, CsvLoad.LocalRows, CsvLoad.LocalHeader, CsvLoad.SafeFile;
      SafeStep(g, dump, kinds, rows);
      var n := Taken(FormatOf(dump), Items(EncodingOf(dump), kinds, rows));
      assert rows == rows[..n] + rows[n..];
      CsvLoad.LocalRowsSplit(dump.o, kinds, rows[..n], rows[n..]);
      CsvLoad.LocalFileDecides(dump.o, dump.noHeader, dump.names, kinds, rows[..n]);
      CsvSafeByToken(g, dump, kinds, rows[n..]);
      if rows[n..] == [] {
        CsvLoad.NoLocalRows(dump.o, kinds);
      }
    }
  }

  lemma LoadFilesCons(g: Grammar, dump: Dump, kinds: seq<ColKind>, first: string, more: seq<string>)
    requires Readable(g, dump)
    ensures LoadFiles(g, dump, kinds, [first] + more) == Both(LoadFile(g, dump, kinds, first), LoadFiles(g, dump, kinds, more))
    ensures LoadFiles(g, dump, kinds, [first]) == LoadFile(g, dump, kinds, first)
  {
    assert ([first] + more)[1..] == more;
    assert [first][1..] == [];
    var r := LoadFile(g, dump, kinds, first);
    if r.Some? {
      assert r.value + [] == r.value;
    }
  }

  lemma ReadableIsLively(g: Grammar, dump: Dump)
    requires Readable(g, dump)
    ensures Lively(dump)
  {
  }

  lemma {:induction false} FilesRead(g: Grammar, dump: Dump, kinds: seq<ColKind>, rows: seq<Record>)
    requires Readable(g, dump) && Table(kinds, rows)
    ensures Outcome(Safe(g, dump, kinds, rows), rows, LoadFiles(g, dump, kinds, FilesOf(dump, kinds, rows)))
    decreases |rows|
  {
    ReadableIsLively(g, dump);
    hide *;
    if rows == [] {
      NoFilesRead(g, dump, kinds);
    } else {
      var f, texts := FormatOf(dump), Items(EncodingOf(dump), kinds, rows);
      var n := Taken(f, texts);
      LivelyContent(dump, kinds, rows);
      FilesStep(dump, kinds, rows);
      var a, b := rows[..n], rows[n..];
      assert rows == a + b;
      SafeStep(g, dump, kinds, rows);
      FileReads(g, dump, kinds, rows);
      var first := Content(f, texts);
      LoadFilesCons(g, dump, kinds, first, FilesOf(dump, kinds, b));
      if FileSize(f) == 0 {
        NoFilesRead(g, dump, kinds);
        assert a == rows && b == [] && [first] + [] == [first];
      } else {
        if SafeFile(g, dump, kinds, a) {
          FilesRead(g, dump, kinds, b);
        }
        OutcomesJoin(SafeFile(g, dump, kinds, a), a, Safe(g, dump, kinds, b), b, LoadFile(g, dump, kinds, first),
                     LoadFiles(g, dump, kinds, FilesOf(dump, kinds, b)));
      }
    }
  }

  lemma OutcomeDecides(safe: bool, rows: seq<Record>, r: Option<seq<Record>>)
    requires Outcome(safe, rows, r)
    ensures r == Some(rows) <==> safe
  {
  }

  /** Whatever the rows, the dialect and the byte limits, loading the SQL files of
      a chunk in order gives back the row sequence, NULL apart from the empty
      string and bytes equal, exactly when every numeric text is plain (no quote,
      comma, bracket or semicolon in it, and not `NULL`) and, in a MySQL session
      where a backslash escapes and no SET block says otherwise, every backslash of
      a text stands in front of a `%` or a `_`. */
  lemma SqlDumpLoadsBack(g: Grammar, d: Dialect, target: Target, l: Limits, noPreamble: bool, kinds: seq<ColKind>,
                         rows: seq<Record>)
    requires Table(kinds, rows) && ReadBy(g, d)
    ensures var dump := SqlDump(d, target, l, noPreamble);
            var back := LoadFiles(g, dump, kinds, FilesOf(dump, kinds, rows)) == Some(rows);
            back <==> SqlLoad.PlainRows(SqlLoad.Behind(g, noPreamble), kinds, rows)
  {
    var dump := SqlDump(d, target, l, noPreamble);
    hide FilesOf, LoadFiles, Outcome, Safe, SqlLoad.PlainRows, SqlLoad.Behind, Table;
    SqlSafeIsPlain(g, dump, kinds, rows);
    FilesRead(g, dump, kinds, rows);
    OutcomeDecides(Safe(g, dump, kinds, rows), rows, LoadFiles(g, dump, kinds, FilesOf(dump, kinds, rows)));
  }

  /** The same for CSV, header line included: the rows come back exactly when each
      bare text, in front of what follows it in its file, hides no token and does
      not begin with the delimiter, and no number is the null text. Rows that pass
      by the next token alone come back in any file, and with separate tokens no
      others do. */
  lemma CsvDumpLoadsBack(g: Grammar, o: CsvOption, limit: nat, noHeader: bool, names: seq<string>, kinds: seq<ColKind>,
                         rows: seq<Record>)
    requires CsvLoad.Usable(o) && Table(kinds, rows)
    ensures var dump := CsvDump(o, limit, noHeader, names);
            var back := LoadFiles(g, dump, kinds, FilesOf(dump, kinds, rows)) == Some(rows);
            && (back <==> Safe(g, dump, kinds, rows))
            && (LocalCsv(dump, kinds, rows) ==> back)
            && (CsvLoad.Separate(o) ==> (back <==> LocalCsv(dump, kinds, rows)))
  {
    var dump := CsvDump(o, limit, noHeader, names);
    hide FilesOf, LoadFiles, Outcome, Safe, LocalCsv, CsvLoad.Usable, CsvLoad.Separate, Table;
    CsvSafeByToken(g, dump, kinds, rows);
    FilesRead(g, dump, kinds, rows);
    OutcomeDecides(Safe(g, dump, kinds, rows), rows, LoadFiles(g, dump, kinds, FilesOf(dump, kinds, rows)));
  }

  /** A `money` column is typed as a number, and its text carries commas. */
  lemma MoneyIsNotPlain(g: Grammar, d: Dialect, target: Target, l: Limits, noPreamble: bool)
    requires ReadBy(g, d)
    ensures var dump := SqlDump(d, target, l, noPreamble);
            var rows: seq<Record> := [[Some("$1,234.00")]];
            && Table([Number], rows)
            && LoadFiles(g, dump, [Number], FilesOf(dump, [Number], rows)) != Some(rows)
  {
    var rows: seq<Record> := [[Some("$1,234.00")]];
    var behind := SqlLoad.Behind(g, noPreamble);
    assert Special("$1,234.00"[2]);
    assert !PlainValue(behind, [Number][0], rows[0][0]);
    assert !PlainRow(behind, [Number], rows[0]);
    SqlDumpLoadsBack(g, d, target, l, noPreamble, [Number], rows);
    hide FilesOf, LoadFiles;
  }

  /** Without the SET block, the default for TiDB, a session in which backslashes
      escape reads another text. With the block it does not. */
  lemma BackslashNeedsTheBlock(target: Target, l: Limits, noPreamble: bool)
    ensures var dump := SqlDump(MySql, target, l, noPreamble);
            var rows: seq<Record> := [[Some("C:\\new")]];
            && Table([Text], rows)
            && (LoadFiles(MySqlGrammar(true), dump, [Text], FilesOf(dump, [Text], rows)) == Some(rows) <==> !noPreamble)
  {
    var rows: seq<Record> := [[Some("C:\\new")]];
    var behind := SqlLoad.Behind(MySqlGrammar(true), noPreamble);
    LosesBackslash();
    assert PlainValue(behind, [Text][0], rows[0][0]) <==> !noPreamble by { hide KeepsBackslashes; }
    assert PlainRow(behind, [Text], rows[0]) <==> !noPreamble by { hide PlainValue; }
    SqlDumpLoadsBack(MySqlGrammar(true), MySql, target, l, noPreamble, [Text], rows);
    hide FilesOf, LoadFiles, PlainRow;
  }

  lemma LosesBackslash()
    ensures !KeepsBackslashes("C:\\new")
  {
    assert "C:\\new"[1..] == ":\\new" && ":\\new"[1..] == "\\new";
  }
}
