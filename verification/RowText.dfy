/** One row as SQL text (`sql_type.go`, `BytesLiteral` of `dialect.go`), and the
    loader's reading of such a row. A column value is NULL (`None`) or its bytes. */
module RowText {
  import opened Common
  import opened BackslashText
  import opened HexText
  import opened Quoting

  /** The three row receivers. */
  datatype ColKind = Number | Text | Binary

  type Value = Option<string>
  type Record = seq<Value>

  // ---- writing ----

  /** `escapeSQL`. */
  function EscapeSql(s: string): string {
    ReplaceAll(s, "'", "''")
  }

  function BytesLiteral(d: Dialect, b: string): string {
    match d
    case Pg => "'\\x" + Hex(b, false) + "'"
    case MySql => if b == "" then "X''" else "X'" + Hex(b, true) + "'"
  }

  function ValueText(d: Dialect, kind: ColKind, v: Value): string {
    match v
    case None => "NULL"
    case Some(s) =>
      match kind
      case Number => s
      case Text => "'" + EscapeSql(s) + "'"
      case Binary => BytesLiteral(d, s)
  }

  function ValuesText(d: Dialect, kinds: seq<ColKind>, row: Record): string
    requires |row| == |kinds|
  {
    if kinds == [] then ""
    else if |kinds| == 1 then ValueText(d, kinds[0], row[0])
    else ValueText(d, kinds[0], row[0]) + "," + ValuesText(d, kinds[1..], row[1..])
  }

  function RowSql(d: Dialect, kinds: seq<ColKind>, row: Record): string
    requires |row| == |kinds|
  {
    "(" + ValuesText(d, kinds, row) + ")"
  }

  /** `RowReceiverArr.WriteToBuffer`. */
  method WriteToBuffer(d: Dialect, kinds: seq<ColKind>, row: Record, bf: string) returns (out: string)
    requires |row| == |kinds|
    ensures out == bf + RowSql(d, kinds, row)
  {
    hide ValueText;
    var text := "";
    for i := 0 to |kinds|
      invariant text + ValuesText(d, kinds[i..], row[i..]) == ValuesText(d, kinds, row)
    {
      var rest := ValuesText(d, kinds[i + 1..], row[i + 1..]);
      assert kinds[i..][1..] == kinds[i + 1..] && row[i..][1..] == row[i + 1..];
      text := text + ValueText(d, kinds[i], row[i]);
      if i != |kinds| - 1 {
        text := text + ",";
      }
    }
    out := bf + ("(" + text + ")");
  }

  // ---- reading ----

  /** The SQL a loader reads: that of PostgreSQL, with the literals of ISO/IEC
      9075-2, or that of MySQL and TiDB, where a backslash may be an escape
      character in string literals, as the session's `sql_mode` says. */
  datatype Grammar = PgGrammar | MySqlGrammar(escapes: bool)

  /** The grammars of a dialect's target. */
  predicate ReadBy(g: Grammar, d: Dialect) {
    match d
    case Pg => g.PgGrammar?
    case MySql => g.MySqlGrammar?
  }

  predicate Escapes(g: Grammar) {
    g.MySqlGrammar? && g.escapes
  }

  function ReadLiteral(g: Grammar, s: string): (r: Option<(string, string)>)
    ensures r.Some? ==> |r.value.1| < |s|
  {
    if Escapes(g) then ReadEscaped(s) else ReadQuoted(s, '\'')
  }

  /** What ends a bare token. */
  predicate Special(c: char) {
    c in {',', '(', ')', '\'', ';'}
  }

  function ReadBare(s: string): (r: (string, string))
    ensures |r.1| <= |s|
  {
    if s == "" || Special(s[0]) then ("", s)
    else var (tok, rest) := ReadBare(s[1..]); ([s[0]] + tok, rest)
  }

  /** The literal a loader finds in a column of the given kind. A numeric column
      takes a bare token, a text column a quoted string, a binary column the
      dialect's binary literal; each takes NULL. */
  function ReadValue(g: Grammar, kind: ColKind, s: string): (r: Option<(Value, string)>)
    ensures r.Some? ==> |r.value.1| <= |s|
  {
    var (tok, rest) := ReadBare(s);
    match kind
    case Number => Some((if tok == "NULL" then None else Some(tok), rest))
    case Text =>
      if s != "" && s[0] == '\'' then
        match ReadLiteral(g, s[1..])
        case None => None
        case Some((body, after)) => Some((Some(body), after))
      else if tok == "NULL" then Some((None, rest)) else None
    case Binary =>
      var open := if g.PgGrammar? then "'\\x" else "X'";
      if open <= s then
        match ReadQuoted(s[|open|..], '\'')
        case None => None
        case Some((body, after)) =>
          match Unhex(body, g.MySqlGrammar?)
          case None => None
          case Some(b) => Some((Some(b), after))
      else if tok == "NULL" then Some((None, rest)) else None
  }

  function ReadValues(g: Grammar, kinds: seq<ColKind>, s: string): (r: Option<(Record, string)>)
    ensures r.Some? ==> |r.value.1| < |s| && |r.value.0| == |kinds|
    decreases |kinds|
  {
    if kinds == [] then
      if s != "" && s[0] == ')' then Some(([], s[1..])) else None
    else
      match ReadValue(g, kinds[0], s)
      case None => None
      case Some((v, rest)) =>
        if |kinds| == 1 then
          if rest != "" && rest[0] == ')' then Some(([v], rest[1..])) else None
        else if rest != "" && rest[0] == ',' then
          match ReadValues(g, kinds[1..], rest[1..])
          case None => None
          case Some((vs, after)) => Some(([v] + vs, after))
        else None
  }

  function ReadRow(g: Grammar, kinds: seq<ColKind>, s: string): (r: Option<(Record, string)>)
    ensures r.Some? ==> |r.value.1| < |s| && |r.value.0| == |kinds|
  {
    if s != "" && s[0] == '(' then ReadValues(g, kinds, s[1..]) else None
  }

  // ---- the two agree, exactly on plain numbers ----

  /** A row of the table: one value a column, bytes in the binary ones. */
  predicate WellTyped(kinds: seq<ColKind>, row: Record) {
    && |row| == |kinds|
    && forall i :: 0 <= i < |row| ==> (kinds[i] == Binary && row[i].Some? ==> IsBytes(row[i].value))
  }

  /** A numeric text that survives unquoted. */
  predicate PlainNumber(t: string) {
    t != "NULL" && forall i :: 0 <= i < |t| ==> !Special(t[i])
  }

  /** Numbers must be plain and, where a backslash escapes, texts keep theirs. */
  predicate PlainValue(g: Grammar, kind: ColKind, v: Value) {
    && (kind == Number && v.Some? ==> PlainNumber(v.value))
    && (kind == Text && v.Some? && Escapes(g) ==> KeepsBackslashes(v.value))
  }

  predicate PlainRow(g: Grammar, kinds: seq<ColKind>, row: Record)
    requires |row| == |kinds|
  {
    forall i :: 0 <= i < |row| ==> PlainValue(g, kinds[i], row[i])
  }

  predicate EndsValue(rest: string) {
    rest != "" && rest[0] in {',', ')'}
  }

  lemma {:induction false} ReadBareStops(t: string, rest: string)
    requires rest != "" && Special(rest[0])
    ensures (forall i :: 0 <= i < |t| ==> !Special(t[i])) ==> ReadBare(t + rest) == (t, rest)
    ensures ReadBare(t + rest).0 == t ==> forall i :: 0 <= i < |t| ==> !Special(t[i])
  {
    if t == "" {
      assert t + rest == rest;
    } else {
      assert (t + rest)[1..] == t[1..] + rest && (t + rest)[0] == t[0];
      ReadBareStops(t[1..], rest);
      if !Special(t[0]) {
        var tok := ReadBare(t[1..] + rest).0;
        assert ReadBare(t + rest).0 == [t[0]] + tok;
        assert t == [t[0]] + t[1..];
        if ReadBare(t + rest).0 == t {
          assert tok == ([t[0]] + tok)[1..] == t[1..];
          forall i | 0 <= i < |t| ensures !Special(t[i]) {
            if i > 0 { assert t[i] == t[1..][i - 1]; }
          }
        }
      }
    }
  }

  lemma NullReads(g: Grammar, kind: ColKind, rest: string)
    requires EndsValue(rest)
    ensures ReadValue(g, kind, "NULL" + rest) == Some((None, rest))
  {
    ReadBareStops("NULL", rest);
    var s := "NULL" + rest;
    assert s[0] == 'N';
  }

  lemma TextReads(d: Dialect, g: Grammar, t: string, rest: string)
    requires EndsValue(rest)
    ensures var r := ReadValue(g, Text, ValueText(d, Text, Some(t)) + rest);
            if Escapes(g) && !KeepsBackslashes(t) then r.None? || r.value.0 != Some(t) else r == Some((Some(t), rest))
  {
    ReplaceAllDoubles(t, '\'');
    ReadQuotedOfDoubled(t, '\'', rest);
    EscapedReads(t, rest);
    var s := ValueText(d, Text, Some(t)) + rest;
    assert s[0] == '\'' && s[1..] == Doubled(t, '\'') + "'" + rest;
    hide ReadEscaped, ReadQuoted, Doubled, KeepsBackslashes, ReadBare, ReplaceAll;
  }

  lemma BinaryReads(d: Dialect, g: Grammar, b: string, rest: string)
    requires ReadBy(g, d)
    requires EndsValue(rest) && IsBytes(b)
    ensures ReadValue(g, Binary, ValueText(d, Binary, Some(b)) + rest) == Some((Some(b), rest))
  {
    var upper := d == MySql;
    var open := if d == Pg then "'\\x" else "X'";
    var tail := Hex(b, upper) + "'" + rest;
    assert ValueText(d, Binary, Some(b)) + rest == open + tail;
    UnhexOfHex(b, upper);
    ReadQuotedOfDoubled(Hex(b, upper), '\'', rest);
    hide Hex, Unhex, ReadQuoted, Doubled, ReadBare;
    assert (open + tail)[|open|..] == tail;
  }

  /** A value reads back as itself exactly when it is plain. */
  lemma ValueReads(d: Dialect, g: Grammar, kind: ColKind, v: Value, rest: string)
    requires ReadBy(g, d)
    requires EndsValue(rest)
    requires kind == Binary && v.Some? ==> IsBytes(v.value)
    ensures PlainValue(g, kind, v) ==> ReadValue(g, kind, ValueText(d, kind, v) + rest) == Some((v, rest))
    ensures !PlainValue(g, kind, v) ==>
              var r := ReadValue(g, kind, ValueText(d, kind, v) + rest); r.None? || r.value.0 != v
  {
    match v
    case None => NullReads(g, kind, rest);
    case Some(s) =>
      match kind
      case Number => ReadBareStops(s, rest);
      case Text => TextReads(d, g, s, rest);
      case Binary => BinaryReads(d, g, s, rest);
  }

  lemma ReadValuesHead(g: Grammar, kinds: seq<ColKind>, s: string)
    requires kinds != []
    ensures ReadValues(g, kinds, s).Some? ==>
              var head := ReadValue(g, kinds[0], s);
              head.Some? && ReadValues(g, kinds, s).value.0[0] == head.value.0
  {
  }

  lemma ReadValuesLast(g: Grammar, kinds: seq<ColKind>, s: string, v: Value, rest: string)
    requires |kinds| == 1 && ReadValue(g, kinds[0], s) == Some((v, ")" + rest))
    ensures ReadValues(g, kinds, s) == Some(([v], rest))
  {
    assert (")" + rest)[1..] == rest;
  }

  lemma ReadValuesCons(g: Grammar, kinds: seq<ColKind>, s: string, v: Value, tail: string)
    requires |kinds| > 1 && ReadValue(g, kinds[0], s) == Some((v, "," + tail))
    ensures ReadValues(g, kinds, s)
         == match ReadValues(g, kinds[1..], tail)
            case None => None
            case Some((vs, after)) => Some(([v] + vs, after))
  {
    assert ("," + tail)[1..] == tail;
  }

  lemma SplitValues(d: Dialect, kinds: seq<ColKind>, row: Record, rest: string)
    requires WellTyped(kinds, row) && kinds != []
    ensures WellTyped(kinds[1..], row[1..]) && |row| == |kinds|
    ensures kinds[0] == Binary && row[0].Some? ==> IsBytes(row[0].value)
    ensures ValuesText(d, kinds, row) + (")" + rest)
         == var v := ValueText(d, kinds[0], row[0]);
            if |kinds| == 1 then v + (")" + rest)
            else v + ("," + (ValuesText(d, kinds[1..], row[1..]) + (")" + rest)))
  {
    forall i | 0 <= i < |row| - 1 ensures kinds[1..][i] == Binary && row[1..][i].Some? ==> IsBytes(row[1..][i].value) {
      assert kinds[1..][i] == kinds[i + 1] && row[1..][i] == row[i + 1];
    }
    hide ValueText;
  }

  /** `r` is the row and what follows it when the row was safe to write; otherwise
      a refusal or another row. */
  predicate RowOutcome(safe: bool, row: Record, rest: string, r: Option<(Record, string)>) {
    if safe then r == Some((row, rest)) else r.None? || r.value.0 != row
  }

  lemma ConsOutcome(safe: bool, row: Record, rest: string, r: Option<(Record, string)>)
    requires row != [] && RowOutcome(safe, row[1..], rest, r)
    ensures RowOutcome(safe, row, rest, match r case None => None case Some((vs, after)) => Some(([row[0]] + vs, after)))
  {
    if r.Some? {
      ConsEqual(row[0], r.value.0, row);
    }
  }

  lemma NoValues(d: Dialect, g: Grammar, rest: string)
    ensures ValuesText(d, [], []) + (")" + rest) == ")" + rest
    ensures ReadValues(g, [], ")" + rest) == Some(([], rest))
    ensures PlainRow(g, [], [])
  {
    assert (")" + rest)[1..] == rest;
  }

  lemma {:induction false} ValuesRead(d: Dialect, g: Grammar, kinds: seq<ColKind>, row: Record, rest: string)
    requires ReadBy(g, d)
    requires WellTyped(kinds, row)
    ensures RowOutcome(PlainRow(g, kinds, row), row, rest, ReadValues(g, kinds, ValuesText(d, kinds, row) + (")" + rest)))
    decreases |kinds|
  {
    hide ValueText, ValuesText, ReadValue, ReadValues, PlainRow, PlainValue, EndsValue, WellTyped;
    if kinds == [] {
      assert row == [] by { EmptyRow(kinds, row); }
      NoValues(d, g, rest);
    } else {
      SplitValues(d, kinds, row, rest);
      PlainRowSplits(g, kinds, row);
      var s := ValuesText(d, kinds, row) + (")" + rest);
      ReadValuesHead(g, kinds, s);
      if |kinds| == 1 {
        EndsValueIs(')', rest);
        EmptyRow(kinds[1..], row[1..]);
        assert kinds[1..] == [] && row[1..] == [];
        NoValues(d, g, rest);
        ValueReads(d, g, kinds[0], row[0], ")" + rest);
        if PlainValue(g, kinds[0], row[0]) {
          ReadValuesLast(g, kinds, s, row[0], rest);
          assert row == [row[0]];
        }
      } else {
        var tail := ValuesText(d, kinds[1..], row[1..]) + (")" + rest);
        EndsValueIs(',', tail);
        ValueReads(d, g, kinds[0], row[0], "," + tail);
        if PlainValue(g, kinds[0], row[0]) {
          ValuesRead(d, g, kinds[1..], row[1..], rest);
          ReadValuesCons(g, kinds, s, row[0], tail);
          ConsOutcome(PlainRow(g, kinds[1..], row[1..]), row, rest, ReadValues(g, kinds[1..], tail));
        }
      }
    }
  }

  lemma EmptyRow(kinds: seq<ColKind>, row: Record)
    requires WellTyped(kinds, row)
    ensures kinds == [] ==> row == []
  {
  }

  lemma EndsValueIs(c: char, rest: string)
    requires c in {',', ')'}
    ensures EndsValue([c] + rest)
  {
  }

  lemma PlainRowSplits(g: Grammar, kinds: seq<ColKind>, row: Record)
    requires |row| == |kinds| > 0
    ensures PlainRow(g, kinds, row) <==> PlainValue(g, kinds[0], row[0]) && PlainRow(g, kinds[1..], row[1..])
  {
    if PlainValue(g, kinds[0], row[0]) && PlainRow(g, kinds[1..], row[1..]) {
      forall i | 0 <= i < |row| ensures PlainValue(g, kinds[i], row[i]) {
        if i > 0 { assert PlainValue(g, kinds[1..][i - 1], row[1..][i - 1]); }
      }
    }
    if PlainRow(g, kinds, row) {
      forall i | 0 <= i < |row| - 1 ensures PlainValue(g, kinds[1..][i], row[1..][i]) {
        assert PlainValue(g, kinds[i + 1], row[i + 1]);
      }
    }
  }

  /** A row reads back as itself, and nothing after it is consumed, exactly when
      its numeric texts are plain. */
  lemma RowReads(d: Dialect, g: Grammar, kinds: seq<ColKind>, row: Record, rest: string)
    requires ReadBy(g, d)
    requires WellTyped(kinds, row)
    ensures RowOutcome(PlainRow(g, kinds, row), row, rest, ReadRow(g, kinds, RowSql(d, kinds, row) + rest))
  {
    ValuesRead(d, g, kinds, row, rest);
    var body := ValuesText(d, kinds, row) + (")" + rest);
    assert RowSql(d, kinds, row) + rest == "(" + body;
    hide *;
    ReadRowOpens(g, kinds, body);
  }

  lemma ReadRowOpens(g: Grammar, kinds: seq<ColKind>, body: string)
    ensures ReadRow(g, kinds, "(" + body) == ReadValues(g, kinds, body)
  {
    assert ("(" + body)[1..] == body;
  }
}
