/** The two file formats behind one interface, and the files of one chunk. */
module DataFiles {
  import opened Common
  import opened Quoting
  import opened RowText
  import opened SqlFile
  import opened CsvText

  // ---- the texts of rows ----

  /** How a single row becomes bytes. */
  datatype Encoding = SqlRow(d: Dialect) | CsvRow(o: CsvOption)

  function Encode(e: Encoding, kinds: seq<ColKind>, row: Record): string
    requires |row| == |kinds|
  {
    match e
    case SqlRow(d) => RowSql(d, kinds, row)
    case CsvRow(o) => CsvLine(o, kinds, row)
  }

  predicate Table(kinds: seq<ColKind>, rows: seq<Record>) {
    forall i :: 0 <= i < |rows| ==> WellTyped(kinds, rows[i])
  }

  function Items(e: Encoding, kinds: seq<ColKind>, rows: seq<Record>): (texts: seq<string>)
    requires Table(kinds, rows)
    ensures |texts| == |rows|
  {
    if rows == [] then []
    else
      assert forall i :: 0 <= i < |rows| - 1 ==> rows[1..][i] == rows[i + 1];
      [Encode(e, kinds, rows[0])] + Items(e, kinds, rows[1..])
  }

  lemma TableSplits(kinds: seq<ColKind>, a: seq<Record>, b: seq<Record>)
    requires Table(kinds, a + b)
    ensures Table(kinds, a) && Table(kinds, b)
  {
    forall i | 0 <= i < |a| ensures WellTyped(kinds, a[i]) { assert a[i] == (a + b)[i]; }
    forall i | 0 <= i < |b| ensures WellTyped(kinds, b[i]) { assert b[i] == (a + b)[|a| + i]; }
  }

  lemma {:induction false} ItemsConcat(e: Encoding, kinds: seq<ColKind>, a: seq<Record>, b: seq<Record>)
    requires Table(kinds, a + b)
    ensures Table(kinds, a) && Table(kinds, b)
    ensures Items(e, kinds, a + b) == Items(e, kinds, a) + Items(e, kinds, b)
  {
    hide Encode, WellTyped;
    TableSplits(kinds, a, b);
    if a == [] {
      assert a + b == b;
    } else {
      assert (a + b)[1..] == a[1..] + b && (a + b)[0] == a[0];
      assert a + b == [a[0]] + (a[1..] + b);
      TableSplits(kinds, [a[0]], a[1..] + b);
      ItemsConcat(e, kinds, a[1..], b);
    }
  }

  /** The texts of the rows from the `n`th on, and of those before. */
  lemma ItemsSplit(e: Encoding, kinds: seq<ColKind>, rows: seq<Record>, n: nat)
    requires Table(kinds, rows) && n <= |rows|
    ensures Table(kinds, rows[..n]) && Table(kinds, rows[n..])
    ensures Items(e, kinds, rows)[..n] == Items(e, kinds, rows[..n])
    ensures Items(e, kinds, rows)[n..] == Items(e, kinds, rows[n..])
  {
    hide *;
    assert rows == rows[..n] + rows[n..];
    ItemsConcat(e, kinds, rows[..n], rows[n..]);
  }

  lemma {:induction false} ItemAt(e: Encoding, kinds: seq<ColKind>, rows: seq<Record>, i: nat)
    requires Table(kinds, rows) && i < |rows|
    ensures |rows[i]| == |kinds| && Items(e, kinds, rows)[i] == Encode(e, kinds, rows[i])
  {
    hide Encode;
    assert WellTyped(kinds, rows[i]);
    if i > 0 {
      assert Table(kinds, rows[1..]) by {
        assert rows == [rows[0]] + rows[1..];
        TableSplits(kinds, [rows[0]], rows[1..]);
      }
      ItemAt(e, kinds, rows[1..], i - 1);
    }
  }

  // ---- files ----

  /** What `WriteInsert` or `WriteInsertInCsv` makes of a list of row texts: SQL
      rows with their layout, or CSV lines below a header. */
  datatype Format = Sql(layout: Layout) | Csv(limit: nat, header: string)

  function FileSize(f: Format): nat {
    match f
    case Sql(c) => c.limits.fileSize
    case Csv(limit, _) => limit
  }

  /** How many of the row texts the next file takes. */
  function Taken(f: Format, texts: seq<string>): (n: nat)
    requires texts != []
    ensures 1 <= n <= |texts|
  {
    match f
    case Sql(c) => FileRows(c, texts)
    case Csv(limit, header) => LinesTaken(limit, |header|, texts)
  }

  /** The content of the next file. */
  function Content(f: Format, texts: seq<string>): string
    requires texts != []
  {
    match f
    case Sql(c) => FileText(c, texts)
    case Csv(limit, header) => header + Flat(texts[..Taken(f, texts)])
  }

  /** The contents of the files of one chunk, in order. A file that would be
      empty is not created, and ends the chunk. */
  function ChunkFiles(f: Format, texts: seq<string>): seq<string>
    decreases |texts|
  {
    if texts == [] || Content(f, texts) == "" then []
    else [Content(f, texts)] + if FileSize(f) == 0 then [] else ChunkFiles(f, texts[Taken(f, texts)..])
  }

  /** Without a file limit one file takes everything. */
  lemma UnlimitedTakesAll(f: Format, texts: seq<string>)
    requires texts != [] && FileSize(f) == 0
    ensures Taken(f, texts) == |texts|
  {
    match f
    case Sql(c) => UnlimitedFileTakesAll(c, texts);
    case Csv(_, header) => LineRollBounds(0, |header|, texts);
  }

  /** Bytes a file may run past the limit when it holds several rows: less than
      its last row, plus the mark after it and a statement prefix in SQL. */
  function Slack(f: Format): nat {
    match f
    case Sql(c) => |c.prefix| + 2
    case Csv(_, _) => 0
  }

  /** Every file but the last reaches the limit, and none of several rows passes
      it by a whole further row. */
  lemma RollBounds(f: Format, texts: seq<string>)
    requires texts != []
    ensures Taken(f, texts) < |texts| ==> FileSize(f) != 0 && |Content(f, texts)| >= FileSize(f)
    ensures FileSize(f) != 0 && Taken(f, texts) > 1 ==>
              |Content(f, texts)| < FileSize(f) + |texts[Taken(f, texts) - 1]| + Slack(f)
  {
    match f
    case Sql(c) => FileRollBounds(c, texts);
    case Csv(limit, header) => LineRollBounds(limit, |header|, texts);
  }

  // ---- a stream that breaks off ----

  lemma TakenOfFirstPart(f: Format, a: seq<string>, b: seq<string>)
    requires a != []
    ensures Taken(f, a) == Min(Taken(f, a + b), |a|)
  {
    match f
    case Sql(c) => TakenOfPart(c.limits, |c.prefix|, |c.preamble| + |c.prefix|, |c.prefix|, a, b);
    case Csv(limit, header) => LinesOfPart(limit, |header|, a, b);
  }

  lemma ContentOfFirstPart(f: Format, a: seq<string>, b: seq<string>)
    requires a != [] && Content(f, a + b) == ""
    ensures Content(f, a) == ""
  {
    TakenOfFirstPart(f, a, b);
    if f.Csv? {
      var m, n := Taken(f, a), Taken(f, a + b);
      var all := (a + b)[..n];
      assert all == a[..m] + all[m..];
      FlatConcat(a[..m], all[m..]);
    }
  }

  /** The front part of a chunk's rows goes into no more files than all its rows. */
  lemma {:induction false} FilesOfFirstPart(f: Format, a: seq<string>, b: seq<string>)
    ensures |ChunkFiles(f, a)| <= |ChunkFiles(f, a + b)|
    decreases |a|
  {
    hide Taken, Content;
    if a == [] {
    } else if Content(f, a + b) == "" {
      ContentOfFirstPart(f, a, b);
    } else {
      TakenOfFirstPart(f, a, b);
      var m, n := Taken(f, a), Taken(f, a + b);
      if m == n {
        assert (a + b)[n..] == a[n..] + b;
        FilesOfFirstPart(f, a[n..], b);
      } else {
        assert a[m..] == [];
      }
    }
  }

  // ---- what a dump is told to write ----

  /** The settings that decide the bytes of a table's data files. */
  datatype Dump =
    | SqlDump(d: Dialect, target: Target, limits: Limits, noPreamble: bool)
    | CsvDump(o: CsvOption, limit: nat, noHeader: bool, names: seq<string>)

  function EncodingOf(dump: Dump): Encoding {
    match dump
    case SqlDump(d, _, _, _) => SqlRow(d)
    case CsvDump(o, _, _, _) => CsvRow(o)
  }

  function FormatOf(dump: Dump): Format {
    match dump
    case SqlDump(d, target, l, noPreamble) => Sql(Layout(l, PreambleText(d, noPreamble), InsertPrefix(d, target)))
    case CsvDump(o, limit, noHeader, names) => Csv(limit, Header(o, noHeader, names))
  }

  /** The files one chunk of the table should leave behind. */
  function FilesOf(dump: Dump, kinds: seq<ColKind>, rows: seq<Record>): seq<string>
    requires Table(kinds, rows)
  {
    ChunkFiles(FormatOf(dump), Items(EncodingOf(dump), kinds, rows))
  }

  /** Every row leaves at least one byte: only a CSV dump without a line
      terminator can write empty rows. */
  predicate Lively(dump: Dump) {
    dump.CsvDump? ==> dump.o.lineTerminator != ""
  }

  lemma LivelyContent(dump: Dump, kinds: seq<ColKind>, rows: seq<Record>)
    requires Lively(dump) && rows != [] && Table(kinds, rows)
    ensures Content(FormatOf(dump), Items(EncodingOf(dump), kinds, rows)) != ""
  {
    if dump.CsvDump? {
      var f, texts := FormatOf(dump), Items(EncodingOf(dump), kinds, rows);
      FlatSplitsFirst(texts, Taken(f, texts));
      assert texts[0] == CsvLine(dump.o, kinds, rows[0]) != "";
    }
  }

  /** The files of a chunk, first file first. */
  lemma FilesStep(dump: Dump, kinds: seq<ColKind>, rows: seq<Record>)
    requires rows != [] && Table(kinds, rows)
    ensures var f, texts := FormatOf(dump), Items(EncodingOf(dump), kinds, rows);
            var n := Taken(f, texts);
            && Table(kinds, rows[n..])
            && (Content(f, texts) == "" ==> FilesOf(dump, kinds, rows) == [])
            && (Content(f, texts) != "" ==>
                 FilesOf(dump, kinds, rows) == [Content(f, texts)] + (if FileSize(f) == 0 then [] else FilesOf(dump, kinds, rows[n..])))
            && (FileSize(f) == 0 ==> n == |rows|)
  {
    hide *;
    var f, texts := FormatOf(dump), Items(EncodingOf(dump), kinds, rows);
    var n := Taken(f, texts);
    ItemsSplit(EncodingOf(dump), kinds, rows, n);
    if FileSize(f) == 0 {
      UnlimitedTakesAll(f, texts);
    }
    FilesOfStep(dump, kinds, rows, rows[n..]);
  }

  lemma FilesOfStep(dump: Dump, kinds: seq<ColKind>, rows: seq<Record>, rest: seq<Record>)
    requires rows != [] && Table(kinds, rows) && Table(kinds, rest)
    requires var f, texts := FormatOf(dump), Items(EncodingOf(dump), kinds, rows);
             texts[Taken(f, texts)..] == Items(EncodingOf(dump), kinds, rest)
    ensures FilesOf(dump, kinds, rows)
         == var f, texts := FormatOf(dump), Items(EncodingOf(dump), kinds, rows);
            if Content(f, texts) == "" then []
            else [Content(f, texts)] + (if FileSize(f) == 0 then [] else FilesOf(dump, kinds, rest))
  {
    hide Table, Items, Taken, Content, FormatOf, EncodingOf, FileSize;
  }

  lemma NoFiles(dump: Dump, kinds: seq<ColKind>)
    ensures Table(kinds, []) && FilesOf(dump, kinds, []) == []
  {
  }

  /** The front part of the rows goes into no more files than all of them. */
  lemma FilesOfFront(dump: Dump, kinds: seq<ColKind>, a: seq<Record>, b: seq<Record>)
    requires Table(kinds, a + b)
    ensures Table(kinds, a) && |FilesOf(dump, kinds, a)| <= |FilesOf(dump, kinds, a + b)|
  {
    hide Table, Items, ChunkFiles, FormatOf, EncodingOf;
    ItemsConcat(EncodingOf(dump), kinds, a, b);
    FilesOfFirstPart(FormatOf(dump), Items(EncodingOf(dump), kinds, a), Items(EncodingOf(dump), kinds, b));
  }

  /** A file that would be empty takes all rows that are left. */
  lemma EmptyTakesAll(dump: Dump, kinds: seq<ColKind>, rows: seq<Record>)
    requires rows != [] && Table(kinds, rows)
    ensures var f, texts := FormatOf(dump), Items(EncodingOf(dump), kinds, rows);
            Content(f, texts) == "" ==> Taken(f, texts) == |rows| && rows[Taken(f, texts)..] == []
  {
    hide *;
    RollBounds(FormatOf(dump), Items(EncodingOf(dump), kinds, rows));
  }

  lemma {:induction false} FlatEmpty(texts: seq<string>)
    ensures Flat(texts) == "" <==> forall i :: 0 <= i < |texts| ==> texts[i] == ""
  {
    if texts != [] {
      FlatEmpty(texts[1..]);
      if Flat(texts) == "" {
        forall i | 0 <= i < |texts| ensures texts[i] == "" {
          assert i > 0 ==> texts[1..][i - 1] == texts[i];
        }
      }
    }
  }

  /** Rows leave no file behind, and no error either, exactly when the header and
      all their lines are empty; SQL always leaves one. */
  lemma NoFileIff(dump: Dump, kinds: seq<ColKind>, rows: seq<Record>)
    requires rows != [] && Table(kinds, rows)
    ensures FilesOf(dump, kinds, rows) == []
       <==> && dump.CsvDump? && Header(dump.o, dump.noHeader, dump.names) == ""
            && forall i :: 0 <= i < |rows| ==> WellTyped(kinds, rows[i]) && CsvLine(dump.o, kinds, rows[i]) == ""
  {
    if dump.CsvDump? {
      NoCsvFileIff(dump, kinds, rows);
    } else {
      SqlLeavesFile(dump, kinds, rows);
    }
    hide *;
  }

  lemma SqlLeavesFile(dump: Dump, kinds: seq<ColKind>, rows: seq<Record>)
    requires dump.SqlDump? && rows != [] && Table(kinds, rows)
    ensures FilesOf(dump, kinds, rows) != []
  {
    FilesStep(dump, kinds, rows);
    LivelyContent(dump, kinds, rows);
    hide FilesOf, Items, Content, Taken;
  }

  lemma NoCsvFileIff(dump: Dump, kinds: seq<ColKind>, rows: seq<Record>)
    requires dump.CsvDump? && rows != [] && Table(kinds, rows)
    ensures FilesOf(dump, kinds, rows) == []
       <==> && Header(dump.o, dump.noHeader, dump.names) == ""
            && forall i :: 0 <= i < |rows| ==> WellTyped(kinds, rows[i]) && CsvLine(dump.o, kinds, rows[i]) == ""
  {
    var f, texts := FormatOf(dump), Items(EncodingOf(dump), kinds, rows);
    FilesStep(dump, kinds, rows);
    EmptyTakesAll(dump, kinds, rows);
    var n := Taken(f, texts);
    hide Items, Taken, Header, CsvLine, WellTyped, FilesOf;
    forall i | 0 <= i < |rows| ensures WellTyped(kinds, rows[i]) && |rows[i]| == |kinds| && texts[i] == CsvLine(dump.o, kinds, rows[i]) {
      ItemAt(CsvRow(dump.o), kinds, rows, i);
    }
    FlatEmpty(texts[..n]);
    assert n == |rows| ==> texts[..n] == texts;
  }

  /** An empty number before an empty line terminator is such a row. */
  lemma NoTerminatorLosesRows(limit: nat)
    ensures var dump := CsvDump(CsvOption("N", ",", "\"", "", Utf8), limit, true, []);
            var rows: seq<Record> := [[Some("")]];
            Table([Number], rows) && FilesOf(dump, [Number], rows) == []
  {
    var dump := CsvDump(CsvOption("N", ",", "\"", "", Utf8), limit, true, []);
    var rows: seq<Record> := [[Some("")]];
    assert CsvLine(dump.o, [Number], rows[0]) == "";
    NoFileIff(dump, [Number], rows);
  }
}
