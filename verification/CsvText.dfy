/** One line of a CSV data file (`escapeCSV` and the CSV halves of the receivers
    in `sql_type.go`), the header line of `WriteInsertInCsv`, and how lines fill files. */
module CsvText {
  import opened Common
  import opened Base64Text
  import opened HexText
  import opened Quoting
  import opened RowText
  import opened SqlFile

  datatype BinaryFormat = Utf8 | HexDigits | Base64Digits

  datatype CsvOption = CsvOption(nullValue: string, separator: string, delimiter: string, lineTerminator: string,
                                 binaryFormat: BinaryFormat)

  /** `escapeCSV`. */
  function EscapeCsv(o: CsvOption, s: string): string {
    if o.delimiter != "" then ReplaceAll(s, o.delimiter, o.delimiter + o.delimiter) else s
  }

  function Delimited(o: CsvOption, body: string): string {
    o.delimiter + body + o.delimiter
  }

  function CsvValue(o: CsvOption, kind: ColKind, v: Value): string {
    match v
    case None => o.nullValue
    case Some(s) =>
      match kind
      case Number => s
      case Text => Delimited(o, EscapeCsv(o, s))
      case Binary =>
        match o.binaryFormat
        case Utf8 => Delimited(o, EscapeCsv(o, s))
        case HexDigits => Delimited(o, Hex(s, false))
        case Base64Digits => Delimited(o, Base64(s))
  }

  function CsvValues(o: CsvOption, kinds: seq<ColKind>, row: Record): string
    requires |row| == |kinds|
  {
    if kinds == [] then ""
    else if |kinds| == 1 then CsvValue(o, kinds[0], row[0])
    else CsvValue(o, kinds[0], row[0]) + (o.separator + CsvValues(o, kinds[1..], row[1..]))
  }

  function CsvLine(o: CsvOption, kinds: seq<ColKind>, row: Record): string
    requires |row| == |kinds|
  {
    CsvValues(o, kinds, row) + o.lineTerminator
  }

  /** `RowReceiverArr.WriteToBufferInCsv`. */
  method WriteToBufferInCsv(o: CsvOption, kinds: seq<ColKind>, row: Record, bf: string) returns (out: string)
    requires |row| == |kinds|
    ensures out == bf + CsvValues(o, kinds, row)
  {
    hide *;
    out := bf;
    LoopEnds(o, kinds, row);
    for i := 0 to |kinds|
      invariant out + CsvValues(o, kinds[i..], row[i..]) == bf + CsvValues(o, kinds, row)
    {
      LoopStep(o, kinds, row, i);
      out := out + CsvValue(o, kinds[i], row[i]);
      if i != |kinds| - 1 {
        out := out + o.separator;
      }
    }
  }

  lemma LoopEnds(o: CsvOption, kinds: seq<ColKind>, row: Record)
    requires |row| == |kinds|
    ensures CsvValues(o, kinds[|kinds|..], row[|row|..]) == ""
    ensures kinds[0..] == kinds && row[0..] == row
  {
  }

  lemma LoopStep(o: CsvOption, kinds: seq<ColKind>, row: Record, i: nat)
    requires |row| == |kinds| && i < |row|
    ensures CsvValues(o, kinds[i..], row[i..])
         == CsvValue(o, kinds[i], row[i])
            + ((if i != |kinds| - 1 then o.separator else "") + CsvValues(o, kinds[i + 1..], row[i + 1..]))
  {
    hide CsvValue;
    assert kinds[i..][1..] == kinds[i + 1..] && row[i..][1..] == row[i + 1..];
  }

  // ---- the header ----

  function TextKinds(n: nat): seq<ColKind> {
    seq(n, _ => Text)
  }

  function NameRow(names: seq<string>): Record {
    seq(|names|, i requires 0 <= i < |names| => Some(names[i]))
  }

  /** The header is a line of text values, left out when there are no columns. */
  function Header(o: CsvOption, noHeader: bool, names: seq<string>): string {
    if noHeader || names == [] then "" else CsvLine(o, TextKinds(|names|), NameRow(names))
  }

  /** The header loop of `WriteInsertInCsv`. */
  method WriteHeader(o: CsvOption, noHeader: bool, names: seq<string>) returns (bf: string)
    ensures bf == Header(o, noHeader, names)
  {
    hide *;
    bf := "";
    NoHeader(o, noHeader, names);
    if !noHeader && |names| != 0 {
      NamesLeftEnds(o, names);
      for i := 0 to |names|
        invariant bf + NamesLeft(o, names, i) == NamesLeft(o, names, 0)
      {
        NamesLeftStep(o, names, i);
        Appended(bf, Delimited(o, EscapeCsv(o, names[i])), o.separator, NamesLeft(o, names, i + 1));
        bf := bf + Delimited(o, EscapeCsv(o, names[i]));
        if i != |names| - 1 {
          bf := bf + o.separator;
        }
      }
      assert bf + "" == bf;
      HeaderEnds(o, noHeader, names);
      bf := bf + o.lineTerminator;
    }
  }

  lemma Appended(bf: string, text: string, mark: string, rest: string)
    ensures bf + (text + (mark + rest)) == ((bf + text) + mark) + rest
    ensures bf + (text + ("" + rest)) == (bf + text) + rest
  {
  }

  /** The part of the header from column `i` on. */
  function NamesLeft(o: CsvOption, names: seq<string>, i: nat): string
    requires i <= |names|
  {
    CsvValues(o, TextKinds(|names|)[i..], NameRow(names)[i..])
  }

  lemma NamesLeftStep(o: CsvOption, names: seq<string>, i: nat)
    requires i < |names|
    ensures NamesLeft(o, names, i)
         == Delimited(o, EscapeCsv(o, names[i])) + ((if i != |names| - 1 then o.separator else "") + NamesLeft(o, names, i + 1))
  {
    hide CsvValues, EscapeCsv;
    LoopStep(o, TextKinds(|names|), NameRow(names), i);
  }

  lemma NamesLeftEnds(o: CsvOption, names: seq<string>)
    ensures NamesLeft(o, names, |names|) == ""
  {
    LoopEnds(o, TextKinds(|names|), NameRow(names));
  }

  lemma HeaderEnds(o: CsvOption, noHeader: bool, names: seq<string>)
    requires !noHeader && names != []
    ensures Header(o, noHeader, names) == NamesLeft(o, names, 0) + o.lineTerminator
  {
    LoopEnds(o, TextKinds(|names|), NameRow(names));
  }

  lemma NoHeader(o: CsvOption, noHeader: bool, names: seq<string>)
    ensures noHeader || names == [] ==> Header(o, noHeader, names) == ""
  {
  }

  // ---- the lines of one file ----

  /** How many of the lines the next file takes, `fileBytes` having been counted. */
  function LinesTaken(limit: nat, fileBytes: nat, lines: seq<string>): (n: nat)
    requires lines != []
    ensures 1 <= n <= |lines|
    decreases |lines|
  {
    var f := fileBytes + |lines[0]|;
    if |lines| == 1 || FileFull(Limits(limit, 0), f) then 1
    else 1 + LinesTaken(limit, f, lines[1..])
  }

  lemma FlatSplitsFirst(lines: seq<string>, n: nat)
    requires 1 <= n <= |lines|
    ensures Flat(lines[..n]) == lines[0] + Flat(lines[1..][..n - 1])
  {
    assert lines[..n][1..] == lines[1..][..n - 1];
  }

  /** A file that leaves lines over has reached the limit; one of several lines
      overshoots it by less than its last line. */
  lemma {:induction false} LineRollBounds(limit: nat, fileBytes: nat, lines: seq<string>)
    requires lines != []
    ensures var n := LinesTaken(limit, fileBytes, lines);
            var bytes := fileBytes + |Flat(lines[..n])|;
            && (n < |lines| ==> limit != 0 && bytes >= limit)
            && (limit != 0 && n > 1 ==> bytes < limit + |lines[n - 1]|)
    decreases |lines|
  {
    var f := fileBytes + |lines[0]|;
    var n := LinesTaken(limit, fileBytes, lines);
    FlatSplitsFirst(lines, n);
    if !(|lines| == 1 || FileFull(Limits(limit, 0), f)) {
      LineRollBounds(limit, f, lines[1..]);
      if n == 2 {
        assert lines[1..][..1] == [lines[1]];
        assert Flat([lines[1]]) == lines[1] by { assert [lines[1]][1..] == []; }
      }
    } else {
      assert lines[1..][..0] == [];
    }
  }

  /** Fewer lines fill a file no further than all of them do. */
  lemma {:induction false} LinesOfPart(limit: nat, fileBytes: nat, a: seq<string>, b: seq<string>)
    requires a != []
    ensures LinesTaken(limit, fileBytes, a) == Min(LinesTaken(limit, fileBytes, a + b), |a|)
    decreases |a|
  {
    assert (a + b)[0] == a[0] && (a + b)[1..] == a[1..] + b;
    if |a| > 1 {
      LinesOfPart(limit, fileBytes + |a[0]|, a[1..], b);
    }
  }
}
