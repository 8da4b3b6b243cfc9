/** A reader of CSV files after section 2 of RFC 4180, with the separator, the
    line terminator and the delimiter as parameters, and the proof of what it
    makes of dumped files. */
module CsvLoad {
  import opened Common
  import opened Base64Text
  import opened HexText
  import opened Delimiting
  import opened Quoting
  import opened RowText
  import opened CsvText
  import opened DataFiles
  import opened Readback

  /** Some byte of the delimiter is no digit of the binary format that is written. */
  predicate NoDigits(o: CsvOption) {
    match o.binaryFormat
    case Utf8 => true
    case HexDigits => exists i :: 0 <= i < |o.delimiter| && HexValue(o.delimiter[i], false).None?
    case Base64Digits => exists i :: 0 <= i < |o.delimiter| && !In64(o.delimiter[i])
  }

  /** Non-empty tokens, neither of which begins the other; and no delimiter, or one
      that does not overlap itself, is not made of digits alone, and begins with a
      byte that is in no token. */
  predicate Usable(o: CsvOption) {
    && o.separator != "" && o.lineTerminator != ""
    && !(o.separator <= o.lineTerminator) && !(o.lineTerminator <= o.separator)
    && (o.delimiter != "" ==>
         && Unbordered(o.delimiter) && NoDigits(o)
         && o.delimiter[0] !in o.separator && o.delimiter[0] !in o.lineTerminator)
  }

  // ---- the reader ----

  datatype Field = Delimited(text: string) | Bare(text: string)

  /** A bare field runs up to the next separator or line terminator. */
  function ReadToken(o: CsvOption, s: string): (r: (string, string))
    ensures |r.1| <= |s|
  {
    if s == "" || o.separator <= s || o.lineTerminator <= s then ("", s)
    else var (tok, rest) := ReadToken(o, s[1..]); ([s[0]] + tok, rest)
  }

  predicate Opened(o: CsvOption, s: string) {
    o.delimiter != "" && o.delimiter <= s
  }

  function ReadField(o: CsvOption, s: string): (r: Option<(Field, string)>)
    requires Usable(o)
    ensures r.Some? ==> |r.value.1| <= |s|
  {
    if Opened(o, s) then
      match ReadDelimited(s[|o.delimiter|..], o.delimiter)
      case None => None
      case Some((body, rest)) => Some((Field.Delimited(body), rest))
    else
      var (tok, rest) := ReadToken(o, s);
      Some((Bare(tok), rest))
  }

  /** The text of a value between its delimiters. */
  function Decode(o: CsvOption, kind: ColKind, t: string): Option<Value> {
    if kind == Binary && o.binaryFormat == HexDigits then
      if Unhex(t, false).Some? then Some(Unhex(t, false)) else None
    else if kind == Binary && o.binaryFormat == Base64Digits then
      if Unbase64(t).Some? then Some(Unbase64(t)) else None
    else Some(Some(t))
  }

  /** Numbers are bare, and everything is when there is no delimiter. */
  predicate IsBare(o: CsvOption, kind: ColKind) {
    kind == Number || o.delimiter == ""
  }

  /** Only a bare null text is NULL. */
  function Interpret(o: CsvOption, kind: ColKind, f: Field): Option<Value> {
    match f
    case Bare(t) =>
      if t == o.nullValue then Some(None)
      else if IsBare(o, kind) then Decode(o, kind, t)
      else None
    case Delimited(t) => if kind == Number then None else Decode(o, kind, t)
  }

  function ReadCsvValue(o: CsvOption, kind: ColKind, s: string): (r: Option<(Value, string)>)
    requires Usable(o)
    ensures r.Some? ==> |r.value.1| <= |s|
  {
    match ReadField(o, s)
    case None => None
    case Some((f, rest)) =>
      match Interpret(o, kind, f)
      case None => None
      case Some(v) => Some((v, rest))
  }

  /** The next `|kinds|` fields, which must be exactly one line. */
  function ReadLine(o: CsvOption, kinds: seq<ColKind>, s: string): (r: Option<(Record, string)>)
    requires Usable(o)
    ensures r.Some? ==> |r.value.1| < |s|
    decreases |kinds|
  {
    if kinds == [] then
      if o.lineTerminator <= s then Some(([], s[|o.lineTerminator|..])) else None
    else
      match ReadCsvValue(o, kinds[0], s)
      case None => None
      case Some((v, rest)) =>
        if |kinds| == 1 then
          if o.lineTerminator <= rest then Some(([v], rest[|o.lineTerminator|..])) else None
        else if o.separator <= rest then
          match ReadLine(o, kinds[1..], rest[|o.separator|..])
          case None => None
          case Some((vs, after)) => Some(([v] + vs, after))
        else None
  }

  function ReadLines(o: CsvOption, kinds: seq<ColKind>, s: string): Option<seq<Record>>
    requires Usable(o)
    decreases |s|
  {
    if s == "" then Some([])
    else
      match ReadLine(o, kinds, s)
      case None => None
      case Some((row, rest)) =>
        match ReadLines(o, kinds, rest)
        case None => None
        case Some(rows) => Some([row] + rows)
  }

  /** A file whose first line, unless switched off, must be the header. */
  function LoadCsvFile(o: CsvOption, noHeader: bool, names: seq<string>, kinds: seq<ColKind>,
                       s: string): Option<seq<Record>>
    requires Usable(o)
  {
    if noHeader || names == [] then ReadLines(o, kinds, s)
    else
      match ReadLine(o, TextKinds(|names|), s)
      case None => None
      case Some((header, rest)) => if header == NameRow(names) then ReadLines(o, kinds, rest) else None
  }

  // ---- which texts survive bare ----

  predicate Starts(o: CsvOption, s: string) {
    o.separator <= s || o.lineTerminator <= s
  }

  /** No token starts inside `t` when `following` stands behind it. */
  predicate RunsUpTo(o: CsvOption, t: string, following: string) {
    t == "" || (!Starts(o, t + following) && RunsUpTo(o, t[1..], following))
  }

  predicate BareSafe(o: CsvOption, t: string, following: string) {
    !Opened(o, t + following) && RunsUpTo(o, t, following)
  }

  /** Whether a value of a column of this kind survives in front of `following`. */
  predicate SafeValue(o: CsvOption, kind: ColKind, v: Value, following: string) {
    match v
    case None => BareSafe(o, o.nullValue, following)
    case Some(_) =>
      IsBare(o, kind) ==> CsvValue(o, kind, v) != o.nullValue && BareSafe(o, CsvValue(o, kind, v), following)
  }

  /** What stands behind the first value of a line. */
  function Following(o: CsvOption, kinds: seq<ColKind>, row: Record, after: string): string
    requires |row| == |kinds| > 0
  {
    if |kinds| == 1 then o.lineTerminator + after else o.separator + (CsvLine(o, kinds[1..], row[1..]) + after)
  }

  predicate SafeRow(o: CsvOption, kinds: seq<ColKind>, row: Record, after: string)
    requires |row| == |kinds|
    decreases |kinds|
  {
    if kinds == [] then true
    else SafeValue(o, kinds[0], row[0], Following(o, kinds, row, after)) && SafeRow(o, kinds[1..], row[1..], after)
  }

  /** The rows of one file. */
  predicate SafeRows(o: CsvOption, kinds: seq<ColKind>, rows: seq<Record>)
    requires Table(kinds, rows)
    decreases |rows|
  {
    if rows == [] then true
    else
      assert Table(kinds, rows[1..]) by { LaterRows(kinds, rows); }
      assert WellTyped(kinds, rows[0]);
      SafeRow(o, kinds, rows[0], Flat(Items(CsvRow(o), kinds, rows[1..]))) && SafeRows(o, kinds, rows[1..])
  }

  lemma LaterRows(kinds: seq<ColKind>, rows: seq<Record>)
    requires rows != [] && Table(kinds, rows)
    ensures Table(kinds, rows[1..])
  {
    assert rows == [rows[0]] + rows[1..];
    TableSplits(kinds, [rows[0]], rows[1..]);
  }

  /** Texts that share no byte with the tokens and do not begin like the delimiter
      are safe in front of any token. */
  lemma {:induction false} DisjointTextIsSafe(o: CsvOption, t: string, mark: string, rest: string)
    requires Usable(o) && (mark == o.separator || mark == o.lineTerminator)
    requires forall i :: 0 <= i < |t| ==> t[i] !in o.separator && t[i] !in o.lineTerminator
    requires t != "" && o.delimiter != "" ==> t[0] != o.delimiter[0]
    ensures BareSafe(o, t, mark + rest)
  {
    DisjointRuns(o, t, mark + rest);
    if t == "" {
      assert (t + (mark + rest))[0] == mark[0];
    } else {
      assert (t + (mark + rest))[0] == t[0];
    }
  }

  lemma {:induction false} DisjointRuns(o: CsvOption, t: string, following: string)
    requires Usable(o)
    requires forall i :: 0 <= i < |t| ==> t[i] !in o.separator && t[i] !in o.lineTerminator
    ensures RunsUpTo(o, t, following)
  {
    if t != "" {
      assert (t + following)[0] == t[0] != o.separator[0];
      assert t[0] != o.lineTerminator[0];
      DisjointRuns(o, t[1..], following);
    }
  }

  // ---- one value ----

  lemma TokenHere(o: CsvOption, mark: string, rest: string)
    requires mark == o.separator || mark == o.lineTerminator
    ensures ReadToken(o, mark + rest) == ("", mark + rest)
  {
    assert mark <= mark + rest;
  }

  lemma TokenGoesOn(o: CsvOption, c: char, s: string)
    ensures !(o.separator <= [c] + s) && !(o.lineTerminator <= [c] + s) ==>
              ReadToken(o, [c] + s) == ([c] + ReadToken(o, s).0, ReadToken(o, s).1)
    ensures o.separator <= [c] + s || o.lineTerminator <= [c] + s ==> ReadToken(o, [c] + s).0 == ""
  {
    assert ([c] + s)[1..] == s;
  }

  /** A text is read up to the token behind it exactly when no token starts inside it. */
  lemma {:induction false} TokenReads(o: CsvOption, t: string, mark: string, rest: string)
    requires mark == o.separator || mark == o.lineTerminator
    ensures var r := ReadToken(o, t + (mark + rest));
            if RunsUpTo(o, t, mark + rest) then r == (t, mark + rest) else r.0 != t
  {
    hide ReadToken;
    if t == "" {
      TokenHere(o, mark, rest);
      assert t + (mark + rest) == mark + rest;
    } else {
      var s := t[1..] + (mark + rest);
      assert t + (mark + rest) == [t[0]] + s;
      assert t == [t[0]] + t[1..];
      TokenGoesOn(o, t[0], s);
      if !Starts(o, t + (mark + rest)) {
        TokenReads(o, t[1..], mark, rest);
        ConsEqual(t[0], ReadToken(o, s).0, t);
      }
    }
  }

  /** A bare text is read as itself exactly when it is safe. */
  lemma BareReads(o: CsvOption, t: string, mark: string, rest: string)
    requires Usable(o) && (mark == o.separator || mark == o.lineTerminator)
    ensures var r := ReadField(o, t + (mark + rest));
            if BareSafe(o, t, mark + rest) then r == Some((Bare(t), mark + rest))
            else r.Some? ==> r.value.0 != Bare(t)
  {
    hide RunsUpTo, ReadToken, Opened, ReadDelimited;
    if !Opened(o, t + (mark + rest)) {
      TokenReads(o, t, mark, rest);
    }
  }

  lemma NotDelimiter(o: CsvOption, mark: string, rest: string)
    requires Usable(o) && o.delimiter != "" && (mark == o.separator || mark == o.lineTerminator)
    ensures !(o.delimiter <= mark + rest)
  {
    assert (mark + rest)[0] == mark[0];
  }

  lemma FieldOpens(o: CsvOption, s: string)
    requires Usable(o) && o.delimiter != ""
    ensures ReadField(o, o.delimiter + s)
         == match ReadDelimited(s, o.delimiter)
            case None => None
            case Some((body, rest)) => Some((Field.Delimited(body), rest))
  {
    assert (o.delimiter + s)[|o.delimiter|..] == s;
    hide ReadDelimited;
  }

  lemma DelimitedParts(o: CsvOption, body: string, rest: string)
    ensures CsvText.Delimited(o, body) + rest == o.delimiter + (body + (o.delimiter + rest))
    ensures o.delimiter == "" ==> CsvText.Delimited(o, body) == body
  {
  }

  lemma DelimitedReads(o: CsvOption, body: string, mark: string, rest: string)
    requires Usable(o) && o.delimiter != "" && (mark == o.separator || mark == o.lineTerminator)
    ensures ReadField(o, CsvText.Delimited(o, ReplaceAll(body, o.delimiter, o.delimiter + o.delimiter)) + (mark + rest))
         == Some((Field.Delimited(body), mark + rest))
  {
    var d := o.delimiter;
    var text := ReplaceAll(body, d, d + d);
    NotDelimiter(o, mark, rest);
    assert Unbordered(d);
    hide *;
    DelimitedParts(o, text, mark + rest);
    FieldOpens(o, text + (d + (mark + rest)));
    DelimitedReadsBack(body, d, mark + rest);
  }

  /** What stands between the delimiters of a value. */
  function Plain(o: CsvOption, kind: ColKind, t: string): string {
    if kind == Binary && o.binaryFormat == HexDigits then Hex(t, false)
    else if kind == Binary && o.binaryFormat == Base64Digits then Base64(t)
    else t
  }

  lemma {:induction false} HexHasOnly(b: string, c: char)
    requires HexValue(c, false).None?
    ensures c !in Hex(b, false)
  {
    if b != "" {
      HexHasOnly(b[1..], c);
      HexDigitReads(b[0] as int / 16 % 16, false);
      HexDigitReads(b[0] as int % 16, false);
      hide HexValue, HexDigit;
    }
  }

  lemma Base64HasOnly(b: string, c: char)
    requires !In64(c)
    ensures c !in Base64(b)
  {
    AllIn64(b);
    hide In64, Base64;
  }

  /** Digits need no doubling, and get none. */
  lemma ValueDelimited(o: CsvOption, kind: ColKind, t: string)
    requires Usable(o) && o.delimiter != "" && kind != Number
    ensures CsvValue(o, kind, Some(t))
         == CsvText.Delimited(o, ReplaceAll(Plain(o, kind, t), o.delimiter, o.delimiter + o.delimiter))
  {
    hide HexValue, In64, Hex, Base64, ReplaceAll, CsvText.Delimited;
    if kind == Binary && o.binaryFormat == HexDigits {
      var i :| 0 <= i < |o.delimiter| && HexValue(o.delimiter[i], false).None?;
      HexHasOnly(t, o.delimiter[i]);
      Undoubled(Hex(t, false), o.delimiter, o.delimiter[i]);
    } else if kind == Binary && o.binaryFormat == Base64Digits {
      var i :| 0 <= i < |o.delimiter| && !In64(o.delimiter[i]);
      Base64HasOnly(t, o.delimiter[i]);
      Undoubled(Base64(t), o.delimiter, o.delimiter[i]);
    }
  }

  lemma ValueBare(o: CsvOption, kind: ColKind, t: string)
    requires IsBare(o, kind)
    ensures CsvValue(o, kind, Some(t)) == Plain(o, kind, t)
  {
    hide Hex, Base64;
    DelimitedParts(o, Plain(o, kind, t), "");
  }

  /** Decoding gives back the value, and only from its own text. */
  lemma DecodePlain(o: CsvOption, kind: ColKind, t: string, other: string)
    requires kind == Binary ==> IsBytes(t)
    ensures Decode(o, kind, Plain(o, kind, t)) == Some(Some(t))
    ensures other != Plain(o, kind, t) ==> Decode(o, kind, other) != Some(Some(t))
    ensures Decode(o, kind, other) != Some(None)
  {
    hide Hex, Base64, Unhex, Unbase64;
    if kind == Binary && o.binaryFormat == HexDigits {
      UnhexOfHex(t, false);
      if Unhex(other, false) == Some(t) { HexOfUnhex(other, false); }
    } else if kind == Binary && o.binaryFormat == Base64Digits {
      Unbase64OfBase64(t);
      if Unbase64(other) == Some(t) { Base64OfUnbase64(other); }
    }
  }

  lemma ReadValueIs(o: CsvOption, kind: ColKind, s: string)
    requires Usable(o)
    ensures ReadCsvValue(o, kind, s)
         == match ReadField(o, s)
            case None => None
            case Some((f, rest)) =>
              match Interpret(o, kind, f)
              case None => None
              case Some(v) => Some((v, rest))
  {
  }

  lemma ReadFieldOpened(o: CsvOption, s: string)
    requires Usable(o)
    ensures ReadField(o, s).Some? ==> (ReadField(o, s).value.0.Delimited? <==> Opened(o, s))
  {
    hide ReadDelimited, ReadToken, Opened;
  }

  lemma NullReads(o: CsvOption, kind: ColKind, mark: string, rest: string)
    requires Usable(o) && (mark == o.separator || mark == o.lineTerminator)
    ensures var r := ReadCsvValue(o, kind, o.nullValue + (mark + rest));
            if BareSafe(o, o.nullValue, mark + rest) then r == Some((None, mark + rest)) else r.None? || r.value.0 != None
  {
    var s := o.nullValue + (mark + rest);
    BareReads(o, o.nullValue, mark, rest);
    ReadValueIs(o, kind, s);
    hide ReadField, ReadCsvValue, BareSafe, Decode, Usable;
    if ReadField(o, s).Some? {
      var f := ReadField(o, s).value.0;
      NoneOnlyFromNull(o, kind, f);
    }
  }

  lemma NoneOnlyFromNull(o: CsvOption, kind: ColKind, f: Field)
    ensures Interpret(o, kind, f) == Some(None) <==> f == Bare(o.nullValue)
  {
    hide Hex, Unhex, Unbase64;
  }

  /** A value that is written bare. */
  lemma BareValueReads(o: CsvOption, kind: ColKind, t: string, mark: string, rest: string)
    requires Usable(o) && (mark == o.separator || mark == o.lineTerminator) && IsBare(o, kind)
    requires kind == Binary ==> IsBytes(t)
    ensures var text := Plain(o, kind, t);
            var r := ReadCsvValue(o, kind, text + (mark + rest));
            if text != o.nullValue && BareSafe(o, text, mark + rest) then r == Some((Some(t), mark + rest))
            else r.None? || r.value.0 != Some(t)
  {
    var text := Plain(o, kind, t);
    var s := text + (mark + rest);
    BareReads(o, text, mark, rest);
    ReadValueIs(o, kind, s);
    ReadFieldOpened(o, s);
    DecodePlain(o, kind, t, text);
    hide ReadField, ReadCsvValue, BareSafe, Decode, Plain, Usable, Opened;
    if ReadField(o, s).Some? {
      var f := ReadField(o, s).value.0;
      if f.Bare? {
        DecodePlain(o, kind, t, f.text);
      } else {
        OpenedIsNoNumber(o, kind, s);
      }
    }
  }

  lemma OpenedIsNoNumber(o: CsvOption, kind: ColKind, s: string)
    requires Opened(o, s) && IsBare(o, kind)
    ensures kind == Number
  {
  }

  /** A value reads back as itself exactly when it is safe. */
  lemma CsvValueReads(o: CsvOption, kind: ColKind, v: Value, mark: string, rest: string)
    requires Usable(o) && (mark == o.separator || mark == o.lineTerminator)
    requires kind == Binary && v.Some? ==> IsBytes(v.value)
    ensures var r := ReadCsvValue(o, kind, CsvValue(o, kind, v) + (mark + rest));
            if SafeValue(o, kind, v, mark + rest) then r == Some((v, mark + rest)) else r.None? || r.value.0 != v
  {
    hide BareSafe, ReadCsvValue, Plain, Usable;
    match v
    case None => NullReads(o, kind, mark, rest);
    case Some(t) =>
      if IsBare(o, kind) {
        ValueBare(o, kind, t);
        BareValueReads(o, kind, t, mark, rest);
      } else {
        DelimitedValueReads(o, kind, t, mark, rest);
      }
  }

  lemma DelimitedValueReads(o: CsvOption, kind: ColKind, t: string, mark: string, rest: string)
    requires Usable(o) && (mark == o.separator || mark == o.lineTerminator) && !IsBare(o, kind)
    requires kind == Binary ==> IsBytes(t)
    ensures ReadCsvValue(o, kind, CsvValue(o, kind, Some(t)) + (mark + rest)) == Some((Some(t), mark + rest))
  {
    ValueDelimited(o, kind, t);
    DelimitedReads(o, Plain(o, kind, t), mark, rest);
    ReadValueIs(o, kind, CsvValue(o, kind, Some(t)) + (mark + rest));
    DecodePlain(o, kind, t, "");
    hide CsvText.Delimited, CsvValue, ReadField, ReadCsvValue, Decode, Plain, Usable, ReplaceAll;
  }

  // ---- lines ----

  lemma ReadLineHead(o: CsvOption, kinds: seq<ColKind>, s: string)
    requires Usable(o) && kinds != []
    ensures ReadLine(o, kinds, s).Some? ==>
              var head := ReadCsvValue(o, kinds[0], s);
              && head.Some? && ReadLine(o, kinds, s).value.0 != []
              && ReadLine(o, kinds, s).value.0[0] == head.value.0
  {
  }

  lemma ReadLineLast(o: CsvOption, kinds: seq<ColKind>, s: string, v: Value, rest: string)
    requires Usable(o)
    requires |kinds| == 1 && ReadCsvValue(o, kinds[0], s) == Some((v, o.lineTerminator + rest))
    ensures ReadLine(o, kinds, s) == Some(([v], rest))
  {
    assert (o.lineTerminator + rest)[|o.lineTerminator|..] == rest;
  }

  lemma ReadLineCons(o: CsvOption, kinds: seq<ColKind>, s: string, v: Value, tail: string)
    requires Usable(o)
    requires |kinds| > 1 && ReadCsvValue(o, kinds[0], s) == Some((v, o.separator + tail))
    ensures ReadLine(o, kinds, s)
         == match ReadLine(o, kinds[1..], tail)
            case None => None
            case Some((vs, after)) => Some(([v] + vs, after))
  {
    assert (o.separator + tail)[|o.separator|..] == tail;
  }

  lemma ReadLineEmpty(o: CsvOption, rest: string)
    requires Usable(o)
    ensures ReadLine(o, [], o.lineTerminator + rest) == Some(([], rest))
  {
    assert (o.lineTerminator + rest)[|o.lineTerminator|..] == rest;
  }

  lemma SplitLine(o: CsvOption, kinds: seq<ColKind>, row: Record, rest: string)
    requires WellTyped(kinds, row) && kinds != []
    ensures WellTyped(kinds[1..], row[1..]) && |row| == |kinds|
    ensures kinds[0] == Binary && row[0].Some? ==> IsBytes(row[0].value)
    ensures CsvLine(o, kinds, row) + rest
         == var v := CsvValue(o, kinds[0], row[0]);
            if |kinds| == 1 then v + (o.lineTerminator + rest)
            else v + (o.separator + (CsvLine(o, kinds[1..], row[1..]) + rest))
  {
    forall i | 0 <= i < |row| - 1 ensures kinds[1..][i] == Binary && row[1..][i].Some? ==> IsBytes(row[1..][i].value) {
      assert kinds[1..][i] == kinds[i + 1] && row[1..][i] == row[i + 1];
    }
    hide CsvValue;
  }

  lemma {:induction false} LineReads(o: CsvOption, kinds: seq<ColKind>, row: Record, rest: string)
    requires Usable(o) && WellTyped(kinds, row)
    ensures RowOutcome(SafeRow(o, kinds, row, rest), row, rest, ReadLine(o, kinds, CsvLine(o, kinds, row) + rest))
  {
    hide SafeValue, ReadLine, ReadCsvValue, CsvValue, Usable, CsvLine;
    var s := CsvLine(o, kinds, row) + rest;
    if kinds == [] {
      assert s == o.lineTerminator + rest by { EmptyLine(o, rest); }
      ReadLineEmpty(o, rest);
    } else {
      SplitLine(o, kinds, row, rest);
      var mark := if |kinds| == 1 then o.lineTerminator else o.separator;
      var tail := if |kinds| == 1 then rest else CsvLine(o, kinds[1..], row[1..]) + rest;
      CsvValueReads(o, kinds[0], row[0], mark, tail);
      ReadLineHead(o, kinds, s);
      assert Following(o, kinds, row, rest) == mark + tail;
      if SafeValue(o, kinds[0], row[0], mark + tail) {
        if |kinds| == 1 {
          ReadLineLast(o, kinds, s, row[0], rest);
          assert row == [row[0]];
        } else {
          LineReads(o, kinds[1..], row[1..], rest);
          ReadLineCons(o, kinds, s, row[0], tail);
          ConsOutcome(SafeRow(o, kinds[1..], row[1..], rest), row, rest, ReadLine(o, kinds[1..], tail));
        }
      }
    }
  }

  lemma EmptyLine(o: CsvOption, rest: string)
    ensures CsvLine(o, [], []) + rest == o.lineTerminator + rest
  {
    assert "" + o.lineTerminator == o.lineTerminator;
  }

  // ---- files ----

  lemma ReadLinesHead(o: CsvOption, kinds: seq<ColKind>, s: string)
    requires Usable(o) && s != ""
    ensures ReadLines(o, kinds, s).Some? ==>
              && ReadLine(o, kinds, s).Some?
              && ReadLines(o, kinds, s).value != []
              && ReadLines(o, kinds, s).value[0] == ReadLine(o, kinds, s).value.0
  {
  }

  lemma ReadLinesMore(o: CsvOption, kinds: seq<ColKind>, s: string, row: Record, rest: string)
    requires Usable(o) && s != "" && ReadLine(o, kinds, s) == Some((row, rest))
    ensures ReadLines(o, kinds, s) == Both(Some([row]), ReadLines(o, kinds, rest))
  {
  }

  lemma OneLine(o: CsvOption, kinds: seq<ColKind>, s: string, safe: bool, row: Record, rest: string, moreSafe: bool,
                more: seq<Record>)
    requires Usable(o) && s != ""
    requires RowOutcome(safe, row, rest, ReadLine(o, kinds, s))
    requires Outcome(moreSafe, more, ReadLines(o, kinds, rest))
    ensures Outcome(safe && moreSafe, [row] + more, ReadLines(o, kinds, s))
  {
    hide ReadLine, ReadLines, Outcome, Usable;
    if safe {
      ReadLinesMore(o, kinds, s, row, rest);
      OneOutcome(true, row, Some(row));
      OutcomesJoin(true, [row], moreSafe, more, Some([row]), ReadLines(o, kinds, rest));
    } else {
      ReadLinesHead(o, kinds, s);
      BadHead([row] + more, ReadLines(o, kinds, s));
    }
  }

  lemma NoLines(o: CsvOption, kinds: seq<ColKind>)
    requires Usable(o)
    ensures var none: seq<Record> := [];
            && Table(kinds, none) && SafeRows(o, kinds, none)
            && Flat(Items(CsvRow(o), kinds, none)) == "" && Outcome(true, none, ReadLines(o, kinds, ""))
  {
  }

  lemma LinesHead(o: CsvOption, kinds: seq<ColKind>, rows: seq<Record>)
    requires Usable(o) && rows != [] && Table(kinds, rows)
    ensures WellTyped(kinds, rows[0]) && |rows[0]| == |kinds| && Table(kinds, rows[1..])
    ensures var text, later := Flat(Items(CsvRow(o), kinds, rows)), Flat(Items(CsvRow(o), kinds, rows[1..]));
            && text == CsvLine(o, kinds, rows[0]) + later && text != ""
            && (SafeRows(o, kinds, rows) <==> SafeRow(o, kinds, rows[0], later) && SafeRows(o, kinds, rows[1..]))
  {
    LaterRows(kinds, rows);
    assert WellTyped(kinds, rows[0]);
    hide SafeRow;
  }

  lemma {:induction false} LinesRead(o: CsvOption, kinds: seq<ColKind>, rows: seq<Record>)
    requires Usable(o) && Table(kinds, rows)
    ensures Outcome(SafeRows(o, kinds, rows), rows, ReadLines(o, kinds, Flat(Items(CsvRow(o), kinds, rows))))
  {
    hide *;
    if rows == [] {
      NoLines(o, kinds);
    } else {
      LinesHead(o, kinds, rows);
      LinesRead(o, kinds, rows[1..]);
      var rest := Flat(Items(CsvRow(o), kinds, rows[1..]));
      LineReads(o, kinds, rows[0], rest);
      OneLine(o, kinds, CsvLine(o, kinds, rows[0]) + rest, SafeRow(o, kinds, rows[0], rest), rows[0], rest,
              SafeRows(o, kinds, rows[1..]), rows[1..]);
      assert rows == [rows[0]] + rows[1..];
    }
  }

  /** Whether the header survives, which it does whatever the names are when there is
      a delimiter. */
  predicate SafeHeader(o: CsvOption, noHeader: bool, names: seq<string>, after: string) {
    noHeader || names == [] || SafeRow(o, TextKinds(|names|), NameRow(names), after)
  }

  lemma {:induction false} DelimitedRowSafe(o: CsvOption, kinds: seq<ColKind>, row: Record, after: string)
    requires |row| == |kinds| && o.delimiter != ""
    requires forall i :: 0 <= i < |row| ==> kinds[i] == Text && row[i].Some?
    ensures SafeRow(o, kinds, row, after)
  {
    if kinds != [] {
      DelimitedRowSafe(o, kinds[1..], row[1..], after);
    }
  }

  lemma DelimitedHeaderSafe(o: CsvOption, noHeader: bool, names: seq<string>, after: string)
    requires o.delimiter != ""
    ensures SafeHeader(o, noHeader, names, after)
  {
    DelimitedRowSafe(o, TextKinds(|names|), NameRow(names), after);
  }

  /** The lines of a file are reached exactly when its header is safe. */
  lemma HeaderReads(o: CsvOption, noHeader: bool, names: seq<string>, kinds: seq<ColKind>, s: string)
    requires Usable(o)
    ensures LoadCsvFile(o, noHeader, names, kinds, Header(o, noHeader, names) + s)
         == if SafeHeader(o, noHeader, names, s) then ReadLines(o, kinds, s) else None
  {
    hide ReadLines, ReadLine, CsvLine, Usable, SafeRow;
    if noHeader || names == [] {
      assert Header(o, noHeader, names) + s == s;
    } else {
      LineReads(o, TextKinds(|names|), NameRow(names), s);
    }
  }

  /** The rows of one file with its header. */
  predicate SafeFile(o: CsvOption, noHeader: bool, names: seq<string>, kinds: seq<ColKind>, rows: seq<Record>)
    requires Table(kinds, rows)
  {
    SafeHeader(o, noHeader, names, Flat(Items(CsvRow(o), kinds, rows))) && SafeRows(o, kinds, rows)
  }

  /** One file: the header, then the lines it took, which come back exactly when
      each bare text is safe in front of what follows it in the file. */
  lemma FileReads(o: CsvOption, limit: nat, noHeader: bool, names: seq<string>, kinds: seq<ColKind>, rows: seq<Record>)
    requires Usable(o) && rows != [] && Table(kinds, rows)
    ensures var texts := Items(CsvRow(o), kinds, rows);
            var f := Csv(limit, Header(o, noHeader, names));
            && Table(kinds, rows[..Taken(f, texts)])
            && var taken := rows[..Taken(f, texts)];
               Outcome(SafeFile(o, noHeader, names, kinds, taken), taken, LoadCsvFile(o, noHeader, names, kinds, Content(f, texts)))
  {
    hide *;
    hide Usable, SafeFile;
    var texts := Items(CsvRow(o), kinds, rows);
    var f := Csv(limit, Header(o, noHeader, names));
    var n := Taken(f, texts);
    ItemsSplit(CsvRow(o), kinds, rows, n);
    CsvContent(limit, f.header, texts);
    LinesRead(o, kinds, rows[..n]);
    HeaderReads(o, noHeader, names, kinds, Flat(texts[..n]));
    SafeFileIs(o, noHeader, names, kinds, rows[..n]);
    RefusedOutcome(rows[..n]);
  }

  lemma SafeFileIs(o: CsvOption, noHeader: bool, names: seq<string>, kinds: seq<ColKind>, rows: seq<Record>)
    requires Table(kinds, rows)
    ensures SafeFile(o, noHeader, names, kinds, rows)
       <==> SafeHeader(o, noHeader, names, Flat(Items(CsvRow(o), kinds, rows))) && SafeRows(o, kinds, rows)
  {
  }

  lemma RefusedOutcome(rows: seq<Record>)
    ensures Outcome(false, rows, None)
  {
  }

  lemma CsvContent(limit: nat, header: string, texts: seq<string>)
    requires texts != []
    ensures Content(Csv(limit, header), texts) == header + Flat(texts[..Taken(Csv(limit, header), texts)])
  {
  }

  // ---- safety seen from the next token alone ----

  /** No token starts at the head of `s`, whatever follows `s`. */
  predicate Clear(o: CsvOption, s: string) {
    && !(o.separator <= s) && !(o.lineTerminator <= s)
    && !(s < o.separator) && !(s < o.lineTerminator)
  }

  /** The first token met in `t` followed by `mark` is that `mark`. */
  predicate MarkEnds(o: CsvOption, t: string, mark: string) {
    t == "" || (Clear(o, t + mark) && MarkEnds(o, t[1..], mark))
  }

  /** No delimiter starts at the head of `s`, whatever follows `s`. */
  predicate NotOpened(o: CsvOption, s: string) {
    o.delimiter == "" || (!(o.delimiter <= s) && !(s < o.delimiter))
  }

  predicate LocalText(o: CsvOption, t: string, mark: string) {
    NotOpened(o, t + mark) && MarkEnds(o, t, mark)
  }

  predicate LocalValue(o: CsvOption, kind: ColKind, v: Value, mark: string) {
    match v
    case None => LocalText(o, o.nullValue, mark)
    case Some(_) =>
      IsBare(o, kind) ==> CsvValue(o, kind, v) != o.nullValue && LocalText(o, CsvValue(o, kind, v), mark)
  }

  predicate LocalRow(o: CsvOption, kinds: seq<ColKind>, row: Record)
    requires |row| == |kinds|
  {
    if kinds == [] then true
    else
      && LocalValue(o, kinds[0], row[0], if |kinds| == 1 then o.lineTerminator else o.separator)
      && LocalRow(o, kinds[1..], row[1..])
  }

  predicate LocalRows(o: CsvOption, kinds: seq<ColKind>, rows: seq<Record>)
    requires Table(kinds, rows)
  {
    forall i :: 0 <= i < |rows| ==> WellTyped(kinds, rows[i]) && LocalRow(o, kinds, rows[i])
  }

  ghost predicate Inside(a: string, b: string) {
    exists i :: 0 <= i <= |b| - |a| && b[i..][..|a|] == a
  }

  /** Neither token occurs in the other or in the delimiter, as with "," and "\r\n"
      and a quote. */
  ghost predicate Separate(o: CsvOption) {
    && !Inside(o.separator, o.lineTerminator) && !Inside(o.lineTerminator, o.separator)
    && !Inside(o.separator, o.delimiter) && !Inside(o.lineTerminator, o.delimiter)
  }

  /** Whether a token starts in `t + mark` does not depend on what follows, when the tokens are separate. */
  lemma ClearDecides(o: CsvOption, t: string, mark: string, rest: string)
    requires t != "" && (mark == o.separator || mark == o.lineTerminator)
    requires Separate(o) || Clear(o, t + mark)
    ensures Clear(o, t + mark) <==> !(o.separator <= t + (mark + rest)) && !(o.lineTerminator <= t + (mark + rest))
  {
    var s := t + mark;
    assert t + (mark + rest) == s + rest;
    PrefixDecides(o.separator, s, rest);
    PrefixDecides(o.lineTerminator, s, rest);
    PrefixInside(t, mark, o.separator);
    PrefixInside(t, mark, o.lineTerminator);
    hide Inside;
  }

  lemma PrefixInside(t: string, mark: string, k: string)
    ensures t + mark < k ==> Inside(mark, k)
  {
    if t + mark < k {
      assert k[|t|..][..|mark|] == mark;
    }
  }

  lemma PrefixDecides(k: string, s: string, rest: string)
    ensures k <= s ==> k <= s + rest
    ensures k <= s + rest ==> k <= s || s < k
  {
    if k <= s + rest && |k| > |s| {
      assert forall i :: 0 <= i < |s| ==> k[i] == (s + rest)[i] == s[i];
    }
  }

  lemma {:induction false} LocalTextDecides(o: CsvOption, t: string, mark: string, rest: string)
    requires mark == o.separator || mark == o.lineTerminator
    ensures MarkEnds(o, t, mark) ==> RunsUpTo(o, t, mark + rest)
    ensures Separate(o) ==> (MarkEnds(o, t, mark) <==> RunsUpTo(o, t, mark + rest))
  {
    hide Separate, Clear;
    if t != "" {
      LocalTextDecides(o, t[1..], mark, rest);
      if Separate(o) || Clear(o, t + mark) {
        ClearDecides(o, t, mark, rest);
      }
    }
  }

  lemma OpenedDecides(o: CsvOption, t: string, mark: string, rest: string)
    requires mark == o.separator || mark == o.lineTerminator
    ensures NotOpened(o, t + mark) ==> !Opened(o, t + (mark + rest))
    ensures Separate(o) ==> (NotOpened(o, t + mark) <==> !Opened(o, t + (mark + rest)))
  {
    Regroup(t, mark, rest);
    PrefixDecides(o.delimiter, t + mark, rest);
    PrefixInside(t, mark, o.delimiter);
    hide Inside;
  }

  lemma LocalValueDecides(o: CsvOption, kind: ColKind, v: Value, mark: string, rest: string)
    requires mark == o.separator || mark == o.lineTerminator
    ensures LocalValue(o, kind, v, mark) ==> SafeValue(o, kind, v, mark + rest)
    ensures Separate(o) ==> (LocalValue(o, kind, v, mark) <==> SafeValue(o, kind, v, mark + rest))
  {
    var t := if v.None? then o.nullValue else CsvValue(o, kind, v);
    LocalTextDecides(o, t, mark, rest);
    OpenedDecides(o, t, mark, rest);
    hide Separate, MarkEnds, RunsUpTo, CsvValue, NotOpened, Opened;
  }

  lemma {:induction false} LocalRowDecides(o: CsvOption, kinds: seq<ColKind>, row: Record, after: string)
    requires |row| == |kinds|
    ensures LocalRow(o, kinds, row) ==> SafeRow(o, kinds, row, after)
    ensures Separate(o) ==> (LocalRow(o, kinds, row) <==> SafeRow(o, kinds, row, after))
    decreases |kinds|
  {
    hide Separate, LocalValue, SafeValue, CsvLine;
    if kinds != [] {
      LocalRowDecides(o, kinds[1..], row[1..], after);
      if |kinds| == 1 {
        LocalValueDecides(o, kinds[0], row[0], o.lineTerminator, after);
      } else {
        LocalValueDecides(o, kinds[0], row[0], o.separator, CsvLine(o, kinds[1..], row[1..]) + after);
      }
    }
  }

  lemma LocalRowsSplit(o: CsvOption, kinds: seq<ColKind>, a: seq<Record>, b: seq<Record>)
    requires Table(kinds, a + b)
    ensures Table(kinds, a) && Table(kinds, b)
    ensures LocalRows(o, kinds, a + b) <==> LocalRows(o, kinds, a) && LocalRows(o, kinds, b)
  {
    TableSplits(kinds, a, b);
    hide LocalRow, WellTyped;
    if LocalRows(o, kinds, a + b) {
      forall i | 0 <= i < |a| ensures WellTyped(kinds, a[i]) && LocalRow(o, kinds, a[i]) { assert a[i] == (a + b)[i]; }
      forall i | 0 <= i < |b| ensures WellTyped(kinds, b[i]) && LocalRow(o, kinds, b[i]) { assert b[i] == (a + b)[|a| + i]; }
    }
  }

  /** Rows whose bare texts cannot run into the next token are safe in any file;
      when neither token occurs in the other, no other rows are. */
  lemma {:induction false} LocalRowsDecide(o: CsvOption, kinds: seq<ColKind>, rows: seq<Record>)
    requires Table(kinds, rows)
    ensures LocalRows(o, kinds, rows) ==> SafeRows(o, kinds, rows)
    ensures Separate(o) ==> (LocalRows(o, kinds, rows) <==> SafeRows(o, kinds, rows))
    decreases |rows|
  {
    hide Separate, LocalRow, SafeRow, WellTyped, Flat, Items;
    if rows != [] {
      LaterRows(kinds, rows);
      assert rows == [rows[0]] + rows[1..];
      LocalRowsSplit(o, kinds, [rows[0]], rows[1..]);
      LocalRowsDecide(o, kinds, rows[1..]);
      assert WellTyped(kinds, rows[0]);
      WidthOf(kinds, rows[0]);
      LocalRowDecides(o, kinds, rows[0], Flat(Items(CsvRow(o), kinds, rows[1..])));
      OneLocalRow(o, kinds, rows[0]);
    }
  }

  predicate LocalHeader(o: CsvOption, noHeader: bool, names: seq<string>) {
    noHeader || names == [] || LocalRow(o, TextKinds(|names|), NameRow(names))
  }

  lemma NoLocalRows(o: CsvOption, kinds: seq<ColKind>)
    ensures Table(kinds, []) && LocalRows(o, kinds, [])
  {
  }

  lemma LocalFileDecides(o: CsvOption, noHeader: bool, names: seq<string>, kinds: seq<ColKind>, rows: seq<Record>)
    requires Table(kinds, rows)
    ensures LocalHeader(o, noHeader, names) && LocalRows(o, kinds, rows) ==> SafeFile(o, noHeader, names, kinds, rows)
    ensures Separate(o) ==>
              (LocalHeader(o, noHeader, names) && LocalRows(o, kinds, rows) <==> SafeFile(o, noHeader, names, kinds, rows))
  {
    LocalRowsDecide(o, kinds, rows);
    if !noHeader && names != [] {
      LocalRowDecides(o, TextKinds(|names|), NameRow(names), Flat(Items(CsvRow(o), kinds, rows)));
    }
    hide Separate, LocalRow, LocalRows, SafeRow, SafeRows, Items;
  }

  lemma WidthOf(kinds: seq<ColKind>, row: Record)
    requires WellTyped(kinds, row)
    ensures |row| == |kinds|
  {
  }

  lemma OneLocalRow(o: CsvOption, kinds: seq<ColKind>, row: Record)
    requires WellTyped(kinds, row)
    ensures Table(kinds, [row]) && (LocalRows(o, kinds, [row]) <==> LocalRow(o, kinds, row))
  {
    assert [row][0] == row;
  }

  /** Two bytes suffice to spoil a number that contains no token at all. */
  lemma FreeOfTokensIsNotEnough(rest: string)
    ensures var o := CsvOption("N", "||", "\"", "\n", Utf8);
            && Usable(o) && Separate(o)
            && !Inside("||", "1|") && !Inside("\n", "1|")
            && !SafeValue(o, Number, Some("1|"), "||" + rest)
  {
    var o := CsvOption("N", "||", "\"", "\n", Utf8);
    assert forall i :: 0 <= i <= 1 ==> "||"[i..][..1][0] == '|';
    assert "||"[0] == '|' && "\n"[0] == '\n' && "\""[0..][..1][0] == '"';
    assert "1|"[1..] == "|";
    var following := "||" + rest;
    assert "|" + following == "||" + ("|" + rest);
    assert Starts(o, "|" + following);
    assert !RunsUpTo(o, "|", following);
    assert !RunsUpTo(o, "1|", following);
    assert "1|"[0..][..2][0] == '1';
    assert "1|"[0..][..1][0] == '1' && "1|"[1..][..1][0] == '|';
  }
}
