/** A loader of SQL data files, written from the grammars of the targets alone, and
    the proof that it returns exactly the dumped rows. */
module SqlLoad {
  import opened Common
  import opened Quoting
  import opened RowText
  import opened SqlFile
  import opened DataFiles
  import opened Readback

  // ---- the loader ----

  /** What delimits an identifier: a double quote in ISO/IEC 9075-2, section 5.2,
      which PostgreSQL follows, and a backquote in MySQL. */
  function IdentifierQuote(g: Grammar): char {
    match g
    case PgGrammar => '"'
    case MySqlGrammar(_) => '`'
  }

  function ReadIdent(q: char, s: string): (r: Option<(string, string)>)
    ensures r.Some? ==> |r.value.1| < |s|
  {
    if s != "" && s[0] == q then ReadQuoted(s[1..], q) else None
  }

  function ReadIdents(q: char, s: string): (r: Option<(seq<string>, string)>)
    ensures r.Some? ==> |r.value.1| < |s|
    decreases |s|
  {
    match ReadIdent(q, s)
    case None => None
    case Some((name, rest)) =>
      if rest != "" && rest[0] == ',' then
        match ReadIdents(q, rest[1..])
        case None => None
        case Some((names, after)) => Some(([name] + names, after))
      else Some(([name], rest))
  }

  function ReadQName(q: char, s: string): (r: Option<((string, string), string)>)
    ensures r.Some? ==> |r.value.1| < |s|
  {
    match ReadIdent(q, s)
    case None => None
    case Some((first, rest)) =>
      if rest != "" && rest[0] == '.' then
        match ReadIdent(q, rest[1..])
        case None => None
        case Some((second, after)) => Some(((first, second), after))
      else Some((("", first), rest))
  }

  function Skip(word: string, s: string): (r: Option<string>)
    ensures r.Some? ==> |r.value| <= |s|
  {
    if word <= s then Some(s[|word|..]) else None
  }

  function ReadColumns(q: char, s: string): (r: Option<(seq<string>, string)>)
    ensures r.Some? ==> |r.value.1| <= |s|
  {
    match Skip(" (", s)
    case None => Some(([], s))
    case Some(inner) =>
      match ReadIdents(q, inner)
      case None => None
      case Some((names, rest)) =>
        match Skip(")", rest)
        case None => None
        case Some(after) => Some((names, after))
  }

  function ReadInsert(g: Grammar, s: string): (r: Option<(Target, string)>)
    ensures r.Some? ==> |r.value.1| < |s|
  {
    var q := IdentifierQuote(g);
    match Skip("INSERT INTO ", s)
    case None => None
    case Some(a) =>
      match ReadQName(q, a)
      case None => None
      case Some(((schema, table), b)) =>
        match ReadColumns(q, b)
        case None => None
        case Some((columns, c)) =>
          match Skip(" VALUES\n", c)
          case None => None
          case Some(rest) => Some((Target(schema, table, columns), rest))
  }

  /** Rows separated by ",\n" up to ";\n". */
  function ReadTuples(g: Grammar, kinds: seq<ColKind>, s: string): (r: Option<(seq<Record>, string)>)
    ensures r.Some? ==> |r.value.1| < |s|
    decreases |s|
  {
    match ReadRow(g, kinds, s)
    case None => None
    case Some((row, rest)) =>
      if ",\n" <= rest then
        match ReadTuples(g, kinds, rest[2..])
        case None => None
        case Some((rows, after)) => Some(([row] + rows, after))
      else if ";\n" <= rest then Some(([row], rest[2..]))
      else None
  }

  /** All statements of a file, each of which must insert into `target`. */
  function ReadStatements(g: Grammar, target: Target, kinds: seq<ColKind>, s: string): Option<seq<Record>>
    decreases |s|
  {
    if s == "" then Some([])
    else
      match ReadInsert(g, s)
      case None => None
      case Some((t, body)) =>
        if t != target then None
        else
          match ReadTuples(g, kinds, body)
          case None => None
          case Some((rows, rest)) =>
            match ReadStatements(g, target, kinds, rest)
            case None => None
            case Some(more) => Some(rows + more)
  }

  /** The line up to the first line end, and what follows it. */
  function CutLine(s: string): (r: Option<(string, string)>)
    ensures r.Some? ==> |r.value.1| < |s|
  {
    if s == "" then None
    else if s[0] == '\n' then Some(("", s[1..]))
    else match CutLine(s[1..]) case None => None case Some((line, rest)) => Some(([s[0]] + line, rest))
  }

  predicate Mentions(s: string, word: string) {
    word <= s || (s != "" && Mentions(s[1..], word))
  }

  /** A line that does not begin with `word`, or goes on with `value`. */
  predicate Only(word: string, value: string, line: string) {
    word <= line ==> line[|word|..] == value
  }

  /** What a setting makes of the grammar. The bytes of the file are UTF-8, PostgreSQL
      must read standard literals, and `sql_mode` decides whether a backslash escapes
      in MySQL. */
  function Setting(g: Grammar, line: string): Option<Grammar> {
    match g
    case PgGrammar =>
      if Only("SET standard_conforming_strings", " = on;", line) && Only("SET client_encoding", " = 'UTF8';", line) then Some(g)
      else None
    case MySqlGrammar(_) =>
      if "SET sql_mode=" <= line then Some(MySqlGrammar(!Mentions(line, "NO_BACKSLASH_ESCAPES")))
      else if Only("/*!40101 SET NAMES", " utf8mb4 */;", line) then Some(g)
      else None
  }

  predicate IsSetting(s: string) {
    "SET " <= s || "/*!" <= s
  }

  /** The settings at the head of a file, one a line, and the grammar behind them. */
  function ReadSettings(g: Grammar, s: string): (r: Option<(Grammar, string)>)
    decreases |s|
  {
    if !IsSetting(s) then Some((g, s))
    else
      match CutLine(s)
      case None => None
      case Some((line, rest)) =>
        match Setting(g, line)
        case None => None
        case Some(g') => ReadSettings(g', rest)
  }

  /** A data file, read in a session that starts with the grammar `g`. */
  function LoadFile(g: Grammar, target: Target, kinds: seq<ColKind>, s: string): Option<seq<Record>> {
    match ReadSettings(g, s)
    case None => None
    case Some((g', body)) => ReadStatements(g', target, kinds, body)
  }

  // ---- reading back the prefix ----

  lemma SkipWord(word: string, s: string)
    ensures Skip(word, word + s) == Some(s)
  {
    assert (word + s)[|word|..] == s;
  }

  predicate NotQuote(q: char, rest: string) {
    rest == "" || rest[0] != q
  }

  lemma IdentReads(q: char, name: string, rest: string)
    requires NotQuote(q, rest)
    ensures ReadIdent(q, Quoted(name, q) + rest) == Some((name, rest))
  {
    ReadQuotedOfDoubled(name, q, rest);
    assert (Quoted(name, q) + rest)[1..] == Doubled(name, q) + [q] + rest;
  }

  lemma QNameReads(d: Dialect, schema: string, table: string, rest: string)
    requires rest != "" && rest[0] == ' '
    ensures ReadQName(IdentQuote(d), QuoteQName(d, schema, table) + rest) == Some(((schema, table), rest))
  {
    var q := IdentQuote(d);
    hide ReadIdent, Quoted;
    if schema == "" {
      IdentReads(q, table, rest);
    } else {
      var second := Quoted(table, q) + rest;
      IdentReads(q, table, rest);
      IdentReads(q, schema, "." + second);
      assert QuoteQName(d, schema, table) + rest == Quoted(schema, q) + ("." + second);
      assert ("." + second)[1..] == second;
    }
  }

  lemma {:induction false} IdentsRead(q: char, names: seq<string>, rest: string)
    requires q != ',' && q != ')'
    requires names != []
    ensures ReadIdents(q, QuotedList(names, q) + (")" + rest)) == Some((names, ")" + rest))
  {
    hide ReadIdent, ReadIdents, Quoted;
    var end := ")" + rest;
    var s := QuotedList(names, q) + end;
    if |names| == 1 {
      assert names == [names[0]];
      IdentReads(q, names[0], end);
      ReadIdentsLast(q, s, names[0], end);
    } else {
      var tail := QuotedList(names[1..], q) + end;
      IdentsRead(q, names[1..], rest);
      IdentReads(q, names[0], "," + tail);
      assert s == Quoted(names[0], q) + ("," + tail);
      ReadIdentsMore(q, s, names[0], tail);
      assert names == [names[0]] + names[1..];
    }
  }

  lemma ReadIdentsLast(q: char, s: string, name: string, rest: string)
    requires ReadIdent(q, s) == Some((name, rest)) && rest != "" && rest[0] == ')'
    ensures ReadIdents(q, s) == Some(([name], rest))
  {
  }

  lemma ReadIdentsMore(q: char, s: string, name: string, tail: string)
    requires ReadIdent(q, s) == Some((name, "," + tail))
    ensures ReadIdents(q, s)
         == match ReadIdents(q, tail)
            case None => None
            case Some((names, after)) => Some(([name] + names, after))
  {
    assert ("," + tail)[1..] == tail;
  }

  lemma ColumnsRead(d: Dialect, columns: seq<string>, rest: string)
    ensures var text := if columns != [] then " (" + QuotedList(columns, IdentQuote(d)) + ")" else "";
            ReadColumns(IdentQuote(d), text + (" VALUES\n" + rest)) == Some((columns, " VALUES\n" + rest))
  {
    var q := IdentQuote(d);
    var end := " VALUES\n" + rest;
    if columns == [] {
      assert "" + end == end;
      assert end[1] == 'V';
    } else {
      var inner := QuotedList(columns, q) + (")" + end);
      assert " (" + QuotedList(columns, q) + ")" + end == " (" + inner;
      SkipWord(" (", inner);
      IdentsRead(q, columns, end);
      SkipWord(")", end);
    }
  }

  lemma InsertReads(d: Dialect, g: Grammar, t: Target, rest: string)
    requires ReadBy(g, d)
    ensures ReadInsert(g, InsertPrefix(d, t) + rest) == Some((t, rest))
  {
    var q := IdentQuote(d);
    assert q == IdentifierQuote(g);
    var cols := if t.columns != [] then " (" + QuotedList(t.columns, q) + ")" else "";
    var c := " VALUES\n" + rest;
    var b := cols + c;
    var a := QuoteQName(d, t.schema, t.table) + b;
    assert InsertPrefix(d, t) + rest == "INSERT INTO " + a;
    assert b[0] == ' ';
    SkipWord("INSERT INTO ", a);
    QNameReads(d, t.schema, t.table, b);
    ColumnsRead(d, t.columns, rest);
    SkipWord(" VALUES\n", rest);
    hide Skip, ReadQName, ReadColumns;
  }

  // ---- reading back the rows ----

  predicate PlainRows(g: Grammar, kinds: seq<ColKind>, rows: seq<Record>)
    requires Table(kinds, rows)
  {
    forall i :: 0 <= i < |rows| ==> PlainRow(g, kinds, rows[i])
  }

  lemma PlainRowsSplit(g: Grammar, kinds: seq<ColKind>, a: seq<Record>, b: seq<Record>)
    requires Table(kinds, a + b)
    ensures Table(kinds, a) && Table(kinds, b)
    ensures PlainRows(g, kinds, a + b) <==> PlainRows(g, kinds, a) && PlainRows(g, kinds, b)
  {
    TableSplits(kinds, a, b);
    if PlainRows(g, kinds, a + b) {
      forall i | 0 <= i < |a| ensures PlainRow(g, kinds, a[i]) { assert a[i] == (a + b)[i]; }
      forall i | 0 <= i < |b| ensures PlainRow(g, kinds, b[i]) { assert b[i] == (a + b)[|a| + i]; }
    }
  }

  lemma NoRowsRead(g: Grammar, kinds: seq<ColKind>)
    ensures var none: seq<Record> := [];
            Table(kinds, none) && PlainRows(g, kinds, none) && Outcome(true, none, Some(none))
  {
  }

  function RowsOf(r: Option<(seq<Record>, string)>): Option<seq<Record>> {
    if r.Some? then Some(r.value.0) else None
  }

  lemma ReadTuplesHead(g: Grammar, kinds: seq<ColKind>, s: string)
    ensures ReadTuples(g, kinds, s).Some? ==>
              && ReadRow(g, kinds, s).Some?
              && ReadTuples(g, kinds, s).value.0 != []
              && ReadTuples(g, kinds, s).value.0[0] == ReadRow(g, kinds, s).value.0
  {
  }

  lemma ReadTuplesMore(g: Grammar, kinds: seq<ColKind>, s: string, row: Record, tail: string)
    requires ReadRow(g, kinds, s) == Some((row, ",\n" + tail))
    ensures ReadTuples(g, kinds, s)
         == match ReadTuples(g, kinds, tail)
            case None => None
            case Some((rows, after)) => Some(([row] + rows, after))
  {
    assert (",\n" + tail)[2..] == tail;
  }

  lemma ReadTuplesEnd(g: Grammar, kinds: seq<ColKind>, s: string, row: Record, rest: string)
    requires ReadRow(g, kinds, s) == Some((row, ";\n" + rest))
    ensures ReadTuples(g, kinds, s) == Some(([row], rest))
  {
    assert (";\n" + rest)[2..] == rest && (";\n" + rest)[0] == ';';
  }

  /** How the tuples of a text were read: safe ones as themselves, with `rest` left over. */
  ghost predicate TuplesOutcome(safe: bool, rows: seq<Record>, rest: string, r: Option<(seq<Record>, string)>) {
    Outcome(safe, rows, RowsOf(r)) && (safe ==> r == Some((rows, rest)))
  }

  lemma LastTuple(g: Grammar, kinds: seq<ColKind>, s: string, safe: bool, row: Record, rest: string)
    requires RowOutcome(safe, row, ";\n" + rest, ReadRow(g, kinds, s))
    ensures TuplesOutcome(safe, [row], rest, ReadTuples(g, kinds, s))
  {
    hide ReadTuples, ReadRow, Outcome;
    if safe {
      ReadTuplesEnd(g, kinds, s, row, rest);
      OneOutcome(true, row, Some(row));
    } else {
      ReadTuplesHead(g, kinds, s);
      BadHead([row], RowsOf(ReadTuples(g, kinds, s)));
    }
  }

  lemma MoreTuples(g: Grammar, kinds: seq<ColKind>, s: string, safe: bool, row: Record, tail: string,
                   moreSafe: bool, more: seq<Record>, rest: string)
    requires RowOutcome(safe, row, ",\n" + tail, ReadRow(g, kinds, s))
    requires TuplesOutcome(moreSafe, more, rest, ReadTuples(g, kinds, tail))
    ensures TuplesOutcome(safe && moreSafe, [row] + more, rest, ReadTuples(g, kinds, s))
  {
    hide ReadTuples, ReadRow, Outcome;
    if safe {
      ReadTuplesMore(g, kinds, s, row, tail);
      OneOutcome(true, row, Some(row));
      OutcomesJoin(true, [row], moreSafe, more, Some([row]), RowsOf(ReadTuples(g, kinds, tail)));
    } else {
      ReadTuplesHead(g, kinds, s);
      BadHead([row] + more, RowsOf(ReadTuples(g, kinds, s)));
    }
  }

  lemma ItemsHead(d: Dialect, g: Grammar, kinds: seq<ColKind>, rows: seq<Record>)
    requires rows != [] && Table(kinds, rows)
    ensures WellTyped(kinds, rows[0]) && |rows[0]| == |kinds| && Table(kinds, rows[1..])
    ensures Items(SqlRow(d), kinds, rows) == [RowSql(d, kinds, rows[0])] + Items(SqlRow(d), kinds, rows[1..])
    ensures PlainRows(g, kinds, rows) <==> PlainRow(g, kinds, rows[0]) && PlainRows(g, kinds, rows[1..])
  {
    var one := [rows[0]];
    assert rows == one + rows[1..] && one[0] == rows[0];
    PlainRowsSplit(g, kinds, one, rows[1..]);
  }

  lemma BodyHead(t: string, more: seq<string>, rest: string)
    ensures more == [] ==> Body([t] + more) + rest == t + (";\n" + rest)
    ensures more != [] ==> Body([t] + more) + rest == t + (",\n" + (Body(more) + rest))
  {
    assert ([t] + more)[1..] == more;
  }

  lemma {:induction false} TuplesRead(d: Dialect, g: Grammar, kinds: seq<ColKind>, rows: seq<Record>, rest: string)
    requires rows != [] && Table(kinds, rows) && ReadBy(g, d)
    ensures TuplesOutcome(PlainRows(g, kinds, rows), rows, rest, ReadTuples(g, kinds, Body(Items(SqlRow(d), kinds, rows)) + rest))
  {
    hide *;
    var row, more := rows[0], rows[1..];
    ItemsHead(d, g, kinds, rows);
    var text := RowSql(d, kinds, row);
    BodyHead(text, Items(SqlRow(d), kinds, more), rest);
    var s := Body(Items(SqlRow(d), kinds, rows)) + rest;
    assert rows == [row] + more;
    if more == [] {
      assert rows == [row];
      RowReads(d, g, kinds, row, ";\n" + rest);
      NoRowsRead(g, kinds);
      LastTuple(g, kinds, s, PlainRow(g, kinds, row), row, rest);
    } else {
      var tail := Body(Items(SqlRow(d), kinds, more)) + rest;
      RowReads(d, g, kinds, row, ",\n" + tail);
      TuplesRead(d, g, kinds, more, rest);
      MoreTuples(g, kinds, s, PlainRow(g, kinds, row), row, tail, PlainRows(g, kinds, more), more, rest);
    }
  }

  // ---- reading back statements, files and chunks ----

  lemma {:induction false} StatementsRead(d: Dialect, g: Grammar, target: Target, kinds: seq<ColKind>, stmts: seq<seq<string>>,
                                          rows: seq<Record>)
    requires ReadBy(g, d)
    requires NoneEmpty(stmts) && Table(kinds, rows) && Flat(stmts) == Items(SqlRow(d), kinds, rows)
    ensures Outcome(PlainRows(g, kinds, rows), rows, ReadStatements(g, target, kinds, Render(InsertPrefix(d, target), stmts)))
  {
    if stmts == [] {
      assert rows == [];
    } else {
      var n := |stmts[0]|;
      var a, b := rows[..n], rows[n..];
      assert rows == a + b;
      ItemsConcat(SqlRow(d), kinds, a, b);
      assert stmts[0] == Flat(stmts)[..n] == Items(SqlRow(d), kinds, a);
      assert Flat(stmts[1..]) == Flat(stmts)[n..] == Items(SqlRow(d), kinds, b);
      StatementsRead(d, g, target, kinds, stmts[1..], b);
      var prefix := InsertPrefix(d, target);
      var rest := Render(prefix, stmts[1..]);
      var body := Body(stmts[0]) + rest;
      assert Render(prefix, stmts) == prefix + body;
      InsertReads(d, g, target, body);
      TuplesRead(d, g, kinds, a, rest);
      hide InsertPrefix, ReadInsert, Body, Items, Render;
      OneStatementRead(d, g, target, kinds, prefix + body, body, a, b, rest);
    }
  }

  lemma OneStatementRead(d: Dialect, g: Grammar, target: Target, kinds: seq<ColKind>, s: string, body: string, a: seq<Record>,
                       b: seq<Record>, rest: string)
    requires s != "" && ReadInsert(g, s) == Some((target, body))
    requires Table(kinds, a + b) && Table(kinds, a) && Table(kinds, b)
    requires TuplesOutcome(PlainRows(g, kinds, a), a, rest, ReadTuples(g, kinds, body))
    requires Outcome(PlainRows(g, kinds, b), b, ReadStatements(g, target, kinds, rest))
    ensures Outcome(PlainRows(g, kinds, a + b), a + b, ReadStatements(g, target, kinds, s))
  {
    hide ReadInsert, ReadTuples, Table, PlainRows, Outcome;
    var r := ReadTuples(g, kinds, body);
    PlainRowsSplit(g, kinds, a, b);
    var more := if r.Some? then ReadStatements(g, target, kinds, r.value.1) else None;
    OutcomesJoin(PlainRows(g, kinds, a), a, PlainRows(g, kinds, b), b, RowsOf(r), more);
  }

  // ---- settings ----

  /** The grammar behind the SET block, if there is one. */
  function Behind(g: Grammar, noPreamble: bool): Grammar {
    if noPreamble || g.PgGrammar? then g else MySqlGrammar(false)
  }

  lemma {:induction false} LineCut(line: string, rest: string)
    requires '\n' !in line
    ensures CutLine(line + "\n" + rest) == Some((line, rest))
  {
    var s := line + "\n" + rest;
    if line == "" {
      assert s == "\n" + rest && s[1..] == rest;
    } else {
      LineCut(line[1..], rest);
      assert s[1..] == line[1..] + "\n" + rest && s[0] == line[0];
      assert line == [line[0]] + line[1..];
    }
  }

  lemma PrefixStays(word: string, line: string, rest: string)
    requires word <= line
    ensures word <= line + "\n" + rest
  {
  }

  lemma SettingReads(g: Grammar, line: string, rest: string)
    requires '\n' !in line && IsSetting(line)
    ensures ReadSettings(g, line + "\n" + rest)
         == match Setting(g, line) case None => None case Some(g') => ReadSettings(g', rest)
  {
    LineCut(line, rest);
    hide CutLine, Setting;
    if "SET " <= line {
      PrefixStays("SET ", line, rest);
    } else {
      PrefixStays("/*!", line, rest);
    }
  }

  /** All lines are settings, by which `g` becomes `g'`. */
  predicate AllSet(g: Grammar, ls: seq<string>, g': Grammar)
    decreases |ls|
  {
    if ls == [] then g == g'
    else '\n' !in ls[0] && IsSetting(ls[0]) && Setting(g, ls[0]).Some? && AllSet(Setting(g, ls[0]).value, ls[1..], g')
  }

  lemma {:induction false} SettingsRead(g: Grammar, ls: seq<string>, g': Grammar, rest: string)
    requires AllSet(g, ls, g') && !IsSetting(rest)
    ensures ReadSettings(g, Lines(ls) + rest) == Some((g', rest))
    decreases |ls|
  {
    hide IsSetting, Setting;
    if ls == [] {
      assert "" + rest == rest;
    } else {
      var tail := Lines(ls[1..]) + rest;
      assert Lines(ls) + rest == ls[0] + "\n" + tail;
      SettingReads(g, ls[0], tail);
      SettingsRead(Setting(g, ls[0]).value, ls[1..], g', rest);
    }
  }

  lemma {:induction false} MentionsInside(a: string, word: string, b: string)
    ensures Mentions(a + (word + b), word)
  {
    if a == "" {
      assert a + (word + b) == word + b;
      assert word <= word + b;
    } else {
      assert (a + (word + b))[1..] == a[1..] + (word + b);
      MentionsInside(a[1..], word, b);
    }
  }

  /** `line` is a setting that makes `g'` of `g`. */
  predicate Sets(g: Grammar, line: string, g': Grammar) {
    '\n' !in line && IsSetting(line) && Setting(g, line) == Some(g')
  }

  lemma OnlyThis(word: string, value: string)
    ensures Only(word, value, word + value)
  {
    assert (word + value)[|word|..] == value;
  }

  lemma OnlyOther(word: string, value: string, line: string, k: nat)
    requires k < |word| && k < |line| && word[k] != line[k]
    ensures Only(word, value, line)
  {
  }

  lemma PgSets(line: string)
    requires '\n' !in line && IsSetting(line)
    requires Only("SET standard_conforming_strings", " = on;", line) && Only("SET client_encoding", " = 'UTF8';", line)
    ensures Sets(PgGrammar, line, PgGrammar)
  {
    hide Only, IsSetting;
  }

  lemma ConformingText()
    ensures "SET standard_conforming_strings" + " = on;" == "SET standard_conforming_strings = on;"
    ensures "SET " <= "SET standard_conforming_strings = on;"
  {
  }

  lemma ConformingIsOneLine()
    ensures '\n' !in "SET standard_conforming_strings = on;"
  {
  }

  lemma EncodingText()
    ensures "SET client_encoding" + " = 'UTF8';" == "SET client_encoding = 'UTF8';"
    ensures "SET " <= "SET client_encoding = 'UTF8';"
  {
  }

  lemma EncodingIsOneLine()
    ensures '\n' !in "SET client_encoding = 'UTF8';"
  {
  }

  lemma PathText()
    ensures '\n' !in "SET search_path = pg_catalog;" && "SET " <= "SET search_path = pg_catalog;"
  {
  }

  lemma SetIsSetting(line: string)
    requires "SET " <= line || "/*!" <= line
    ensures IsSetting(line)
  {
  }

  lemma ConformingLine()
    ensures Sets(PgGrammar, "SET standard_conforming_strings = on;", PgGrammar)
  {
    hide *;
    ConformingText();
    ConformingIsOneLine();
    SetIsSetting("SET standard_conforming_strings = on;");
    OnlyThis("SET standard_conforming_strings", " = on;");
    OnlyOther("SET client_encoding", " = 'UTF8';", "SET standard_conforming_strings = on;", 4);
    PgSets("SET standard_conforming_strings = on;");
  }

  lemma EncodingLine()
    ensures Sets(PgGrammar, "SET client_encoding = 'UTF8';", PgGrammar)
  {
    hide *;
    EncodingText();
    EncodingIsOneLine();
    SetIsSetting("SET client_encoding = 'UTF8';");
    OnlyThis("SET client_encoding", " = 'UTF8';");
    OnlyOther("SET standard_conforming_strings", " = on;", "SET client_encoding = 'UTF8';", 4);
    PgSets("SET client_encoding = 'UTF8';");
  }

  lemma PathLine()
    ensures Sets(PgGrammar, "SET search_path = pg_catalog;", PgGrammar)
  {
    hide *;
    PathText();
    SetIsSetting("SET search_path = pg_catalog;");
    OnlyOther("SET client_encoding", " = 'UTF8';", "SET search_path = pg_catalog;", 4);
    OnlyOther("SET standard_conforming_strings", " = on;", "SET search_path = pg_catalog;", 5);
    PgSets("SET search_path = pg_catalog;");
  }

  lemma ModeSet(g: Grammar, line: string)
    requires g.MySqlGrammar? && "SET sql_mode=" <= line && Mentions(line, "NO_BACKSLASH_ESCAPES")
    ensures Setting(g, line) == Some(MySqlGrammar(false))
  {
    hide Mentions, Only;
  }

  lemma ModeMentions()
    ensures Mentions("SET sql_mode='NO_BACKSLASH_ESCAPES';", "NO_BACKSLASH_ESCAPES")
  {
    hide *;
    assert "SET sql_mode='" + ("NO_BACKSLASH_ESCAPES" + "';") == "SET sql_mode='NO_BACKSLASH_ESCAPES';";
    MentionsInside("SET sql_mode='", "NO_BACKSLASH_ESCAPES", "';");
  }

  lemma ModeBegins()
    ensures "SET sql_mode=" <= "SET sql_mode='NO_BACKSLASH_ESCAPES';"
    ensures "SET " <= "SET sql_mode='NO_BACKSLASH_ESCAPES';"
  {
  }

  lemma ModeLine(g: Grammar)
    requires g.MySqlGrammar?
    ensures Sets(g, "SET sql_mode='NO_BACKSLASH_ESCAPES';", MySqlGrammar(false))
  {
    ModeMentions();
    ModeBegins();
    hide Mentions, Setting, Only;
    ModeSet(g, "SET sql_mode='NO_BACKSLASH_ESCAPES';");
  }

  lemma CommentLine(g: Grammar, line: string)
    requires g.MySqlGrammar? && |line| >= 3 && line[0] == '/' && line[1] == '*' && line[2] == '!'
    requires '\n' !in line && Only("/*!40101 SET NAMES", " utf8mb4 */;", line)
    ensures Sets(g, line, g)
  {
    assert "/*!" <= line;
    hide Only, Mentions;
  }

  lemma NamesText()
    ensures "/*!40101 SET NAMES" + " utf8mb4 */;" == "/*!40101 SET NAMES utf8mb4 */;"
  {
  }

  lemma NamesIsOneLine()
    ensures '\n' !in "/*!40101 SET NAMES utf8mb4 */;"
  {
  }

  lemma NamesLine(g: Grammar)
    requires g.MySqlGrammar?
    ensures Sets(g, "/*!40101 SET NAMES utf8mb4 */;", g)
  {
    hide *;
    NamesText();
    NamesIsOneLine();
    OnlyThis("/*!40101 SET NAMES", " utf8mb4 */;");
    CommentLine(g, "/*!40101 SET NAMES utf8mb4 */;");
  }

  lemma KeyIsOneLine()
    ensures '\n' !in "/*!40014 SET FOREIGN_KEY_CHECKS=0 */;"
  {
  }

  lemma KeyLine(g: Grammar)
    requires g.MySqlGrammar?
    ensures Sets(g, "/*!40014 SET FOREIGN_KEY_CHECKS=0 */;", g)
  {
    hide *;
    KeyIsOneLine();
    OnlyOther("/*!40101 SET NAMES", " utf8mb4 */;", "/*!40014 SET FOREIGN_KEY_CHECKS=0 */;", 5);
    CommentLine(g, "/*!40014 SET FOREIGN_KEY_CHECKS=0 */;");
  }

  lemma UniqueIsOneLine()
    ensures '\n' !in "/*!40014 SET UNIQUE_CHECKS=0 */;"
  {
  }

  lemma UniqueLine(g: Grammar)
    requires g.MySqlGrammar?
    ensures Sets(g, "/*!40014 SET UNIQUE_CHECKS=0 */;", g)
  {
    hide *;
    UniqueIsOneLine();
    OnlyOther("/*!40101 SET NAMES", " utf8mb4 */;", "/*!40014 SET UNIQUE_CHECKS=0 */;", 5);
    CommentLine(g, "/*!40014 SET UNIQUE_CHECKS=0 */;");
  }

  lemma SetsFirst(g: Grammar, line: string, h: Grammar, ls: seq<string>, g': Grammar)
    requires Sets(g, line, h) && AllSet(h, ls, g')
    ensures AllSet(g, [line] + ls, g')
  {
    assert ([line] + ls)[1..] == ls;
    hide Setting, IsSetting;
  }

  lemma ThreeLines(g: Grammar, a: string, b: string, c: string, g': Grammar)
    requires Sets(g, a, g) && Sets(g, b, g) && Sets(g, c, g')
    ensures AllSet(g, [a, b, c], g')
  {
    hide *;
    NothingSet(g');
    SetsFirst(g, c, g', [], g');
    SetsFirst(g, b, g, [c] + [], g');
    SetsFirst(g, a, g, [b] + ([c] + []), g');
    assert [a] + ([b] + ([c] + [])) == [a, b, c];
  }

  lemma FourLines(g: Grammar, a: string, b: string, c: string, d: string, g': Grammar)
    requires Sets(g, a, g) && Sets(g, b, g) && Sets(g, c, g) && Sets(g, d, g')
    ensures AllSet(g, [a, b, c, d], g')
  {
    hide *;
    ThreeLines(g, b, c, d, g');
    SetsFirst(g, a, g, [b, c, d], g');
    assert [a] + [b, c, d] == [a, b, c, d];
  }

  lemma NothingSet(g: Grammar)
    ensures AllSet(g, [], g) && Lines([]) == ""
  {
  }

  /** The SET block leaves literals whose quotes alone are doubled. */
  lemma PreambleSets(d: Dialect, g: Grammar)
    requires ReadBy(g, d)
    ensures AllSet(g, Preamble(d), Behind(g, false))
  {
    hide AllSet, Sets;
    match d
    case Pg =>
      ConformingLine();
      EncodingLine();
      PathLine();
      ThreeLines(g, "SET standard_conforming_strings = on;", "SET client_encoding = 'UTF8';",
                 "SET search_path = pg_catalog;", PgGrammar);
    case MySql =>
      NamesLine(g);
      KeyLine(g);
      UniqueLine(g);
      ModeLine(g);
      FourLines(g, "/*!40101 SET NAMES utf8mb4 */;", "/*!40014 SET FOREIGN_KEY_CHECKS=0 */;",
                "/*!40014 SET UNIQUE_CHECKS=0 */;", "SET sql_mode='NO_BACKSLASH_ESCAPES';", MySqlGrammar(false));
  }

  lemma FileBegins(d: Dialect, target: Target, s: string)
    ensures !IsSetting(InsertPrefix(d, target) + s)
  {
    assert (InsertPrefix(d, target) + s)[0] == 'I';
  }

  lemma LoadFileSkips(d: Dialect, g: Grammar, noPreamble: bool, target: Target, kinds: seq<ColKind>, s: string)
    requires ReadBy(g, d)
    ensures LoadFile(g, target, kinds, PreambleText(d, noPreamble) + (InsertPrefix(d, target) + s))
         == ReadStatements(Behind(g, noPreamble), target, kinds, InsertPrefix(d, target) + s)
  {
    var body := InsertPrefix(d, target) + s;
    FileBegins(d, target, s);
    PreambleSets(d, g);
    hide InsertPrefix, ReadStatements, ReadSettings, AllSet, IsSetting;
    if noPreamble {
      SettingsRead(g, [], g, body);
      NothingSet(g);
    } else {
      SettingsRead(g, Preamble(d), Behind(g, false), body);
    }
  }

  predicate IsLayoutOf(c: Layout, d: Dialect, target: Target, noPreamble: bool) {
    c.preamble == PreambleText(d, noPreamble) && c.prefix == InsertPrefix(d, target)
  }

  lemma LayoutParts(c: Layout, d: Dialect, target: Target, noPreamble: bool)
    requires IsLayoutOf(c, d, target, noPreamble)
    ensures c.preamble == PreambleText(d, noPreamble) && c.prefix == InsertPrefix(d, target)
  {
  }

  lemma FileTextReads(c: Layout, d: Dialect, g: Grammar, target: Target, noPreamble: bool, kinds: seq<ColKind>,
                      texts: seq<string>)
    requires texts != [] && IsLayoutOf(c, d, target, noPreamble) && ReadBy(g, d)
    ensures LoadFile(g, target, kinds, FileText(c, texts))
         == ReadStatements(Behind(g, noPreamble), target, kinds, Render(c.prefix, FileStatements(c, texts)))
  {
    hide *;
    FileTextSplits(c, texts);
    LayoutParts(c, d, target, noPreamble);
    LoadFileSkips(d, g, noPreamble, target, kinds, Rest(c.prefix, FileStatements(c, texts)));
  }

  /** Without the SET block a file is made of INSERT statements alone. */
  lemma BareFile(c: Layout, d: Dialect, target: Target, texts: seq<string>)
    requires texts != [] && IsLayoutOf(c, d, target, true)
    ensures FileText(c, texts) == Render(c.prefix, FileStatements(c, texts)) && !IsSetting(FileText(c, texts))
  {
    FileTextSplits(c, texts);
    LayoutParts(c, d, target, true);
    FileBegins(d, target, Rest(c.prefix, FileStatements(c, texts)));
    hide FileText, FileStatements, Rest, InsertPrefix, IsSetting;
    assert PreambleText(d, true) == "";
    assert forall s: string :: "" + s == s;
  }

  /** One file: the rows it took, exactly when they are plain in the grammar that
      holds behind its settings. */
  lemma FileReads(c: Layout, d: Dialect, g: Grammar, target: Target, noPreamble: bool, kinds: seq<ColKind>,
                  rows: seq<Record>)
    requires rows != [] && Table(kinds, rows) && IsLayoutOf(c, d, target, noPreamble) && ReadBy(g, d)
    ensures var texts := Items(SqlRow(d), kinds, rows);
            && Table(kinds, rows[..FileRows(c, texts)])
            && var taken := rows[..FileRows(c, texts)];
               Outcome(PlainRows(Behind(g, noPreamble), kinds, taken), taken, LoadFile(g, target, kinds, FileText(c, texts)))
  {
    hide *;
    var texts := Items(SqlRow(d), kinds, rows);
    LayoutParts(c, d, target, noPreamble);
    FileTextReads(c, d, g, target, noPreamble, kinds, texts);
    FileRowsAreNext(c, texts);
    var n := FileRows(c, texts);
    var stmts := FileStatements(c, texts);
    assert rows == rows[..n] + rows[n..];
    ItemsConcat(SqlRow(d), kinds, rows[..n], rows[n..]);
    assert texts[..n] == Items(SqlRow(d), kinds, rows[..n]);
    BehindReads(d, g, noPreamble);
    StatementsRead(d, Behind(g, noPreamble), target, kinds, stmts, rows[..n]);
  }

  lemma BehindReads(d: Dialect, g: Grammar, noPreamble: bool)
    requires ReadBy(g, d)
    ensures ReadBy(Behind(g, noPreamble), d)
  {
  }
}
