/** Names of output files: the escape `fn` and the default templates of
    `prepare.go`, and `outputFileNamer` of `writer.go`. */
module FileNames {
  import opened Common
  import opened Decimal
  import opened HexText

  // ---- the escape ----

  predicate Reserved(c: char) {
    c as int < 0x20 || c in "%\"*./:<>?\\|"
  }

  predicate StartsSchema(s: string) {
    |s| >= 7 && s[0] == '-'
    && LowerChar(s[1]) == 's' && LowerChar(s[2]) == 'c' && LowerChar(s[3]) == 'h'
    && LowerChar(s[4]) == 'e' && LowerChar(s[5]) == 'm' && LowerChar(s[6]) == 'a'
  }

  /** The byte of a match that is written as `%XX`; the rest of the match stands. */
  predicate Escapes(s: string) {
    s != "" && (Reserved(s[0]) || StartsSchema(s))
  }

  function Escape(s: string): string {
    if s == "" then ""
    else if Escapes(s) then "%" + HexByte(s[0], true) + Escape(s[1..])
    else [s[0]] + Escape(s[1..])
  }

  function Unescape(s: string): Option<string> {
    if s == "" then Some("")
    else if s[0] == '%' then
      if |s| < 3 then None
      else
        match (HexValue(s[1], true), HexValue(s[2], true), Unescape(s[3..]))
        case (Some(h), Some(l), Some(rest)) => if h < 16 && l < 16 then Some([(16 * h + l) as char] + rest) else None
        case _ => None
    else
      match Unescape(s[1..])
      case None => None
      case Some(rest) => Some([s[0]] + rest)
  }

  lemma UnescapePair(h: char, l: char, rest: string, hv: nat, lv: nat)
    requires HexValue(h, true) == Some(hv) && HexValue(l, true) == Some(lv) && hv < 16 && lv < 16
    ensures Unescape(rest).Some? ==> Unescape(['%', h, l] + rest) == Some([(16 * hv + lv) as char] + Unescape(rest).value)
  {
    assert (['%', h, l] + rest)[3..] == rest;
  }

  lemma UnescapeStep(c: char, rest: string)
    requires c as int < 256
    ensures Unescape(rest).Some? ==> Unescape("%" + HexByte(c, true) + rest) == Some([c] + Unescape(rest).value)
    ensures Unescape(rest).Some? && c != '%' ==> Unescape([c] + rest) == Some([c] + Unescape(rest).value)
  {
    UnescapePlain(c, rest);
    hide *;
    var h, l := c as int / 16 % 16, c as int % 16;
    Nibbles(c, true);
    Percent(HexDigit(h, true), HexDigit(l, true), rest);
    UnescapePair(HexDigit(h, true), HexDigit(l, true), rest, h, l);
  }

  lemma Percent(h: char, l: char, rest: string)
    ensures "%" + [h, l] + rest == ['%', h, l] + rest
  {
  }

  lemma UnescapePlain(c: char, rest: string)
    ensures Unescape(rest).Some? && c != '%' ==> Unescape([c] + rest) == Some([c] + Unescape(rest).value)
  {
    assert ([c] + rest)[1..] == rest;
  }

  /** Escaping loses nothing. */
  lemma {:induction false} UnescapeOfEscape(s: string)
    requires IsBytes(s)
    ensures Unescape(Escape(s)) == Some(s)
  {
    hide Unescape;
    if s == "" {
      assert Unescape("") == Some("") by { UnescapeNothing(); }
    } else {
      assert IsBytes(s[1..]);
      UnescapeOfEscape(s[1..]);
      UnescapeStep(s[0], Escape(s[1..]));
      assert s == [s[0]] + s[1..];
    }
  }

  lemma UnescapeNothing()
    ensures Unescape("") == Some("")
  {
  }

  predicate NoSchema(s: string) {
    forall i :: 0 <= i < |s| ==> !StartsSchema(s[i..])
  }

  predicate NoneReserved(s: string) {
    forall i :: 0 <= i < |s| ==> s[i] == '%' || !Reserved(s[i])
  }

  lemma {:induction false} EscapeFront(s: string, k: nat)
    requires k <= |Escape(s)|
    requires forall i :: 0 <= i < k ==> Escape(s)[i] != '%'
    ensures k <= |s| && Escape(s)[..k] == s[..k]
  {
    if k > 0 {
      assert Escape(s)[0] != '%';
      assert Escape(s)[1..] == Escape(s[1..]);
      EscapeFront(s[1..], k - 1);
      assert Escape(s)[..k] == [s[0]] + Escape(s[1..])[..k - 1];
      assert s[..k] == [s[0]] + s[1..][..k - 1];
    }
  }

  lemma CleanAfterPercent(x: string, rest: string)
    requires |x| == 2 && !Reserved(x[0]) && !Reserved(x[1]) && x[0] != '-' && x[1] != '-'
    requires NoneReserved(rest) && NoSchema(rest)
    ensures NoneReserved("%" + x + rest) && NoSchema("%" + x + rest)
  {
    var e := "%" + x + rest;
    hide Reserved, LowerChar;
    assert e[3..] == rest;
    forall i | 0 <= i < |e| ensures (e[i] == '%' || !Reserved(e[i])) && !StartsSchema(e[i..]) {
      if i >= 3 {
        assert e[i..] == rest[i - 3..] && e[i] == rest[i - 3];
      } else {
        assert e[i..][0] == e[i];
      }
    }
  }

  lemma CleanAfterPlain(c: char, rest: string)
    requires !Reserved(c) && !StartsSchema([c] + rest)
    requires NoneReserved(rest) && NoSchema(rest)
    ensures NoneReserved([c] + rest) && NoSchema([c] + rest)
  {
    var e := [c] + rest;
    hide Reserved, StartsSchema;
    assert e[1..] == rest && e[0..] == e;
    forall i | 0 <= i < |e| ensures (e[i] == '%' || !Reserved(e[i])) && !StartsSchema(e[i..]) {
      if i > 0 {
        assert e[i..] == rest[i - 1..] && e[i] == rest[i - 1];
      }
    }
  }

  /** What starts like "-schema" once escaped started so before. */
  lemma SchemaFromSource(s: string)
    requires s != "" && !Escapes(s)
    ensures !StartsSchema(Escape(s))
  {
    if StartsSchema(Escape(s)) {
      assert forall i :: 0 <= i < 7 ==> Escape(s)[i] != '%';
      EscapeFront(s, 7);
      assert forall i :: 0 <= i < 7 ==> Escape(s)[..7][i] == s[..7][i] == s[i];
      assert false;
    }
  }

  lemma {:induction false} EscapedParts(s: string)
    ensures NoneReserved(Escape(s)) && NoSchema(Escape(s))
  {
    hide NoneReserved, NoSchema, Reserved, StartsSchema, HexByte;
    if s == "" {
      NothingIsClean();
    } else {
      EscapedParts(s[1..]);
      if Escapes(s) {
        HexIsPlain(s[0]);
        CleanAfterPercent(HexByte(s[0], true), Escape(s[1..]));
      } else {
        SchemaFromSource(s);
        CleanAfterPlain(s[0], Escape(s[1..]));
      }
    }
  }

  lemma NothingIsClean()
    ensures NoneReserved("") && NoSchema("")
  {
  }

  lemma HexIsPlain(c: char)
    ensures var x := HexByte(c, true); |x| == 2 && !Reserved(x[0]) && !Reserved(x[1]) && x[0] != '-' && x[1] != '-'
  {
  }

  /** A byte without a meaning in paths, templates or escapes. */
  predicate Harmless(c: char) {
    c as int >= 0x20 && c !in {'%', '"', '*', '.', '/', ':', '<', '>', '?', '\\', '|'}
  }

  /** The suffix of metadata files at the head of a text, in any case. */
  predicate SpellsSchema(s: string) {
    && |s| >= 7 && s[0] == '-'
    && s[1] in {'s', 'S'} && s[2] in {'c', 'C'} && s[3] in {'h', 'H'} && s[4] in {'e', 'E'} && s[5] in {'m', 'M'}
    && s[6] in {'a', 'A'}
  }

  lemma EscapesIs(s: string)
    ensures s != "" ==> (Reserved(s[0]) <==> !Harmless(s[0])) && (s[0] == '%' ==> Reserved(s[0]))
    ensures StartsSchema(s) <==> SpellsSchema(s)
  {
  }

  /** Apart from percent signs, nothing in the text needs an escape. */
  predicate Clean(s: string) {
    forall i :: 0 <= i < |s| ==> (s[i] == '%' || Harmless(s[i])) && !SpellsSchema(s[i..])
  }

  /** An escaped name holds no byte with a meaning in paths or templates, percent
      signs aside, and no "-schema" in any case. */
  lemma EscapedIsClean(s: string)
    ensures Clean(Escape(s))
  {
    EscapedParts(s);
    var e := Escape(s);
    hide Escape, Harmless, Reserved, SpellsSchema, StartsSchema;
    forall i | 0 <= i < |e| ensures (e[i] == '%' || Harmless(e[i])) && !SpellsSchema(e[i..]) {
      EscapesIs(e[i..]);
      assert e[i..][0] == e[i];
    }
  }

  /** And only a clean name without a percent sign stays as it is. */
  lemma {:induction false} CleanStays(s: string)
    ensures Escape(s) == s <==> Clean(s) && '%' !in s
  {
    hide Harmless, Reserved, SpellsSchema, StartsSchema, HexByte;
    if s != "" {
      EscapesIs(s);
      CleanStays(s[1..]);
      CleanStep(s);
      assert s == [s[0]] + s[1..];
      if Escapes(s) {
        LongerEscape(s);
      }
      assert !Escapes(s) ==> Escape(s)[1..] == Escape(s[1..]);
    }
  }

  lemma CleanStep(s: string)
    requires s != ""
    ensures Clean(s) <==> (s[0] == '%' || Harmless(s[0])) && !SpellsSchema(s) && Clean(s[1..])
    ensures '%' !in s <==> s[0] != '%' && '%' !in s[1..]
  {
    hide Harmless, SpellsSchema;
    assert s[0..] == s;
    if (s[0] == '%' || Harmless(s[0])) && !SpellsSchema(s) && Clean(s[1..]) {
      forall i | 0 <= i < |s| ensures (s[i] == '%' || Harmless(s[i])) && !SpellsSchema(s[i..]) {
        if i > 0 {
          assert s[1..][i - 1] == s[i] && s[1..][i - 1..] == s[i..];
        }
      }
    }
    if Clean(s) {
      forall i | 0 <= i < |s| - 1 ensures (s[1..][i] == '%' || Harmless(s[1..][i])) && !SpellsSchema(s[1..][i..]) {
        assert s[1..][i] == s[i + 1] && s[1..][i..] == s[i + 1..];
      }
    }
  }

  lemma {:induction false} LongerEscape(s: string)
    ensures |Escape(s)| >= |s|
    ensures Escapes(s) ==> |Escape(s)| > |s|
  {
    hide Reserved, StartsSchema;
    if s != "" {
      LongerEscape(s[1..]);
    }
  }

  // ---- the templates ----

  /** What a file holds. */
  datatype FileId =
    | Schema(db: string)
    | TableMeta(db: string, table: string)
    | ViewMeta(db: string, table: string)
    | SequenceMeta(db: string, table: string)
    | Data(db: string, table: string, chunk: nat, file: nat)

  /** The index format `newOutputFileNamer` picks. */
  datatype IndexFormat = ChunkAndFile | FileOnly | ChunkOnly

  function PickFormat(rows: bool, fileSize: bool): IndexFormat {
    if rows && fileSize then ChunkAndFile
    else if fileSize then FileOnly
    else ChunkOnly
  }

  /** `Index`. */
  function Index(f: IndexFormat, chunk: nat, file: nat): (s: string)
    ensures AllDigits(s)
  {
    match f
    case ChunkAndFile => Padded(chunk, 9) + Padded(file, 4)
    case FileOnly => Padded(file, 9)
    case ChunkOnly => Padded(chunk, 9)
  }

  /** The name of a file under the default templates, extension included. */
  function Name(f: IndexFormat, ext: string, id: FileId): string {
    match id
    case Schema(db) => Escape(db) + "-schema-create" + ("." + "sql")
    case TableMeta(db, t) => Escape(db) + ("." + (Escape(t) + "-schema" + ("." + "sql")))
    case ViewMeta(db, t) => Escape(db) + ("." + (Escape(t) + "-schema-view" + ("." + "sql")))
    case SequenceMeta(db, t) => Escape(db) + ("." + (Escape(t) + "-schema-sequence" + ("." + "sql")))
    case Data(db, t, chunk, file) => Escape(db) + ("." + (Escape(t) + ("." + (Index(f, chunk, file) + ("." + ext)))))
  }

  /** What the data files of one chunk have in common. */
  datatype ChunkId = ChunkId(db: string, table: string, chunk: nat, format: IndexFormat, ext: string)

  /** The name of file `k` of a chunk. */
  function NameAt(c: ChunkId, k: nat): string {
    Name(c.format, c.ext, Data(c.db, c.table, c.chunk, k))
  }

  /** `outputFileNamer` with the data template and its running file index. */
  class OutputFileNamer {
    const id: ChunkId
    var fileIndex: nat

    constructor (db: string, table: string, chunkIndex: nat, rows: bool, fileSize: bool, ext: string)
      ensures id == ChunkId(db, table, chunkIndex, PickFormat(rows, fileSize), ext) && fileIndex == 0
    {
      id := ChunkId(db, table, chunkIndex, if rows && fileSize then ChunkAndFile else if fileSize then FileOnly else ChunkOnly, ext);
      fileIndex := 0;
    }

    method NextName() returns (name: string)
      modifies this
      ensures name == NameAt(id, old(fileIndex)) && fileIndex == old(fileIndex) + 1
    {
      name := NameAt(id, fileIndex);
      fileIndex := fileIndex + 1;
    }
  }

  /** The names of the default templates, spelled out: chunk and file index where
      rows and a file size are set, otherwise the one index that can grow. */
  lemma DefaultNames()
    ensures NameAt(ChunkId("s", "t", 0, PickFormat(true, true), "sql"), 0) == "s.t.0000000000000.sql"
    ensures NameAt(ChunkId("s", "t", 1, PickFormat(true, true), "sql"), 2) == "s.t.0000000010002.sql"
    ensures NameAt(ChunkId("s", "t", 0, PickFormat(false, true), "sql"), 2) == "s.t.000000002.sql"
    ensures NameAt(ChunkId("s", "t", 1, PickFormat(true, false), "csv"), 0) == "s.t.000000001.csv"
    ensures NameAt(ChunkId("s", "t", 0, PickFormat(false, false), "csv"), 0) == "s.t.000000000.csv"
  {
    PlainNames();
    Indexes();
    hide Escape, Index;
    LongName("0000000000000");
    LongName("0000000010002");
    ShortName("000000002", "sql");
    ShortName("000000001", "csv");
    ShortName("000000000", "csv");
  }

  function Spelled(middle: string, ext: string): string {
    "s" + ("." + ("t" + ("." + (middle + ("." + ext)))))
  }

  lemma LongName(i: string)
    requires |i| == 13
    ensures Spelled(i, "sql") == ['s', '.', 't', '.', i[0], i[1], i[2], i[3], i[4], i[5], i[6], i[7], i[8], i[9], i[10], i[11],
                                  i[12], '.', 's', 'q', 'l']
  {
  }

  lemma ShortName(i: string, ext: string)
    requires |i| == 9 && |ext| == 3
    ensures Spelled(i, ext) == ['s', '.', 't', '.', i[0], i[1], i[2], i[3], i[4], i[5], i[6], i[7], i[8], '.', ext[0], ext[1],
                                ext[2]]
  {
  }

  lemma DefaultMetaNames(f: IndexFormat, ext: string)
    ensures Name(f, ext, Schema("s")) == "s-schema-create.sql"
    ensures Name(f, ext, TableMeta("s", "t")) == "s.t-schema.sql"
    ensures Name(f, ext, ViewMeta("s", "t")) == "s.t-schema-view.sql"
    ensures Name(f, ext, SequenceMeta("s", "t")) == "s.t-schema-sequence.sql"
  {
    MetaNames(f, ext, "s", "t");
    SchemaName(f, ext, "s");
    PlainNames();
    hide *;
    assert "s" + "-schema-create" + ("." + "sql") == "s-schema-create.sql";
    TableNames();
  }

  lemma SchemaName(f: IndexFormat, ext: string, db: string)
    ensures Name(f, ext, Schema(db)) == Escape(db) + "-schema-create" + ("." + "sql")
  {
    hide Escape;
  }

  lemma TableNames()
    ensures "s" + ("." + (("t" + "-schema") + ("." + "sql"))) == "s.t-schema.sql"
    ensures "s" + ("." + (("t" + "-schema-view") + ("." + "sql"))) == "s.t-schema-view.sql"
    ensures "s" + ("." + (("t" + "-schema-sequence") + ("." + "sql"))) == "s.t-schema-sequence.sql"
  {
  }

  lemma PlainNames()
    ensures Escape("s") == "s" && Escape("t") == "t"
  {
    assert "s"[1..] == "" && "t"[1..] == "";
  }

  lemma Indexes()
    ensures Index(PickFormat(true, true), 0, 0) == "0000000000000"
    ensures Index(PickFormat(true, true), 1, 2) == "0000000010002"
    ensures Index(PickFormat(false, true), 0, 2) == "000000002"
    ensures Index(PickFormat(true, false), 1, 0) == "000000001"
    ensures Index(PickFormat(false, false), 0, 0) == "000000000"
  {
    PaddedDigits();
    hide Padded;
    assert "000000000" + "0000" == "0000000000000";
    assert "000000001" + "0002" == "0000000010002";
  }

  lemma PaddedDigits()
    ensures Padded(0, 9) == "000000000" && Padded(1, 9) == "000000001" && Padded(2, 9) == "000000002"
    ensures Padded(0, 4) == "0000" && Padded(2, 4) == "0002"
  {
    assert Zeros(3) == "000" by { assert Zeros(1) == "0" && Zeros(2) == "00"; }
    assert Zeros(8) == "00000000" by { assert Zeros(4) == "0000" && Zeros(5) == "00000" && Zeros(6) == "000000" && Zeros(7) == "0000000"; }
    hide Zeros;
  }

  // ---- reading a name ----

  /** Splits at the first dot. */
  function Cut(s: string): (string, Option<string>) {
    if s == "" then ("", None)
    else if s[0] == '.' then ("", Some(s[1..]))
    else var (a, b) := Cut(s[1..]); ([s[0]] + a, b)
  }

  lemma {:induction false} CutAtDot(a: string, b: string)
    requires '.' !in a
    ensures Cut(a + ("." + b)) == (a, Some(b)) && Cut(a) == (a, None)
  {
    if a == "" {
      assert ("." + b)[1..] == b && a + ("." + b) == "." + b;
    } else {
      CutAtDot(a[1..], b);
      assert (a + ("." + b))[1..] == a[1..] + ("." + b);
      assert a == [a[0]] + a[1..];
    }
  }

  function DropEnd(s: string, end: string): Option<string> {
    if |end| <= |s| && s[|s| - |end|..] == end then Some(s[..|s| - |end|]) else None
  }

  /** Which of the two parts of an index never outgrows its zero padding. */
  datatype Bound = ShortFiles | ShortChunks

  /** Where the file part of an index begins. A file part of more than four digits
      does not begin with a zero, so with short chunks a zero there belongs to the
      one chunk number of ten digits. */
  function FilePart(bound: Bound, s: string): nat
    requires |s| >= 13
  {
    match bound
    case ShortFiles => |s| - 4
    case ShortChunks => if |s| >= 14 && s[9] == '0' then 10 else 9
  }

  function ReadIndex(f: IndexFormat, bound: Bound, s: string): Option<(nat, nat)> {
    if !AllDigits(s) then None
    else
      match f
      case ChunkAndFile =>
        if |s| < 13 then None
        else var k := FilePart(bound, s); Some((Number(s[..k]), Number(s[k..])))
      case FileOnly => Some((0, Number(s)))
      case ChunkOnly => Some((Number(s), 0))
  }

  /** What a file named `name` holds. */
  function Identify(f: IndexFormat, bound: Bound, name: string): Option<FileId> {
    var (p0, s1) := Cut(name);
    if s1.None? then None
    else
      var (p1, s2) := Cut(s1.value);
      if s2.None? then
        match DropEnd(p0, "-schema-create")
        case None => None
        case Some(e) => (match Unescape(e) case None => None case Some(db) => Some(Schema(db)))
      else
        var (p2, s3) := Cut(s2.value);
        match Unescape(p0)
        case None => None
        case Some(db) =>
          if s3.None? then IdentifyMeta(db, p1)
          else
            match (Unescape(p1), ReadIndex(f, bound, p2))
            case (Some(t), Some((chunk, file))) => Some(Data(db, t, chunk, file))
            case _ => None
  }

  function IdentifyMeta(db: string, p: string): Option<FileId> {
    match (DropEnd(p, "-schema"), DropEnd(p, "-schema-view"), DropEnd(p, "-schema-sequence"))
    case (Some(e), _, _) => (match Unescape(e) case None => None case Some(t) => Some(TableMeta(db, t)))
    case (_, Some(e), _) => (match Unescape(e) case None => None case Some(t) => Some(ViewMeta(db, t)))
    case (_, _, Some(e)) => (match Unescape(e) case None => None case Some(t) => Some(SequenceMeta(db, t)))
    case _ => None
  }

  /** An index the format can tell apart: one part within the bound, and nothing
      lost that the format leaves out. */
  predicate InRange(f: IndexFormat, bound: Bound, chunk: nat, file: nat) {
    match f
    case ChunkAndFile => if bound.ShortFiles? then file < 10000 else chunk <= 1000000000
    case FileOnly => chunk == 0
    case ChunkOnly => file == 0
  }

  predicate Nameable(f: IndexFormat, bound: Bound, id: FileId) {
    && IsBytes(id.db)
    && (!id.Schema? ==> IsBytes(id.table))
    && (id.Data? ==> InRange(f, bound, id.chunk, id.file))
  }

  lemma NinePowers()
    ensures Pow10(9) == 1000000000 && Pow10(4) == 10000
  {
    assert Pow10(1) == 10 && Pow10(2) == 100 && Pow10(3) == 1000 && Pow10(4) == 10000;
    assert Pow10(5) == 100000 && Pow10(6) == 1000000 && Pow10(7) == 10000000 && Pow10(8) == 100000000;
  }

  lemma FourDigits(file: nat)
    ensures |Padded(file, 4)| == 4 <==> file < 10000
  {
    NinePowers();
    DigitsLength(file, 4);
  }

  lemma {:induction false} NoLeadingZero(n: nat)
    ensures Digits(n)[0] == '0' ==> n == 0
  {
    if n >= 10 {
      NoLeadingZero(n / 10);
    }
  }

  /** A number that outgrows its padding does not begin with a zero. */
  lemma LongPartLeads(n: nat, w: nat)
    requires w >= 1 && |Padded(n, w)| > w
    ensures Padded(n, w)[0] != '0'
  {
    NoLeadingZero(n);
  }

  lemma DigitsStep(n: nat, d: nat)
    requires n > 0 && d < 10
    ensures Digits(10 * n + d) == Digits(n) + [Digit(d)]
  {
    assert (10 * n + d) / 10 == n && (10 * n + d) % 10 == d;
  }

  lemma SmallPowers()
    ensures Digits(0) == "0" && Digits(10000) == "10000"
  {
    assert Digits(1) == "1" && Digits(10) == "10" && Digits(100) == "100" && Digits(1000) == "1000";
  }

  lemma DigitsOfPowers()
    ensures Digits(0) == "0" && Digits(10000) == "10000" && Digits(100000000) == "100000000"
    ensures Digits(1000000000) == "1000000000" && Digits(1000000001) == "1000000001"
  {
    SmallPowers();
    hide Digits;
    DigitsStep(10000, 0);
    DigitsStep(100000, 0);
    DigitsStep(1000000, 0);
    DigitsStep(10000000, 0);
    DigitsStep(100000000, 0);
    DigitsStep(100000000, 1);
  }

  lemma ChunkPart(chunk: nat)
    requires chunk <= 1000000000
    ensures chunk < 1000000000 ==> |Padded(chunk, 9)| == 9
    ensures chunk == 1000000000 ==> |Padded(chunk, 9)| == 10 && Padded(chunk, 9)[9] == '0'
  {
    NinePowers();
    DigitsOfPowers();
    DigitsLength(chunk, 9);
    hide Digits, Pow10;
  }

  /** The file part of an index begins where it is looked for. */
  lemma FilePartFound(bound: Bound, chunk: nat, file: nat)
    requires InRange(ChunkAndFile, bound, chunk, file)
    ensures FilePart(bound, Padded(chunk, 9) + Padded(file, 4)) == |Padded(chunk, 9)|
  {
    if bound.ShortFiles? {
      FourDigits(file);
    } else {
      ChunkPart(chunk);
      var a, b := Padded(chunk, 9), Padded(file, 4);
      if |b| > 4 {
        LongPartLeads(file, 4);
      }
      hide Padded;
      assert |a| == 9 ==> (a + b)[9] == b[0];
      assert |a| == 10 ==> (a + b)[9] == a[9];
    }
  }

  lemma IndexReads(f: IndexFormat, bound: Bound, chunk: nat, file: nat)
    requires InRange(f, bound, chunk, file)
    ensures ReadIndex(f, bound, Index(f, chunk, file)) == Some((chunk, file))
  {
    NumberOfPadded(chunk, 9);
    NumberOfPadded(file, 9);
    NumberOfPadded(file, 4);
    hide Padded, Number, FilePart;
    if f.ChunkAndFile? {
      FilePartFound(bound, chunk, file);
      var s, k := Index(f, chunk, file), |Padded(chunk, 9)|;
      assert s[..k] == Padded(chunk, 9) && s[k..] == Padded(file, 4);
    }
  }

  lemma DotFree(s: string)
    ensures '.' !in Escape(s)
  {
    EscapedIsClean(s);
  }

  lemma DigitsDotFree(s: string)
    requires AllDigits(s)
    ensures '.' !in s
  {
  }

  lemma MetaReads(db: string, t: string)
    requires IsBytes(t)
    ensures IdentifyMeta(db, Escape(t) + "-schema") == Some(TableMeta(db, t))
    ensures IdentifyMeta(db, Escape(t) + "-schema-view") == Some(ViewMeta(db, t))
    ensures IdentifyMeta(db, Escape(t) + "-schema-sequence") == Some(SequenceMeta(db, t))
  {
    UnescapeOfEscape(t);
    var e := Escape(t);
    hide Escape, Unescape;
    DropsEnd(e, "-schema");
    DropsEnd(e, "-schema-view");
    DropsEnd(e, "-schema-sequence");
    OtherEnd(e + "-schema-view", "-schema");
    OtherEnd(e + "-schema-sequence", "-schema");
    OtherEnd(e + "-schema-sequence", "-schema-view");
  }

  lemma DropsEnd(e: string, end: string)
    ensures DropEnd(e + end, end) == Some(e)
  {
  }

  lemma OtherEnd(s: string, end: string)
    requires s != "" && end != "" && s[|s| - 1] != end[|end| - 1]
    ensures DropEnd(s, end).None?
  {
    if |end| <= |s| {
      assert s[|s| - |end|..][|end| - 1] == s[|s| - 1];
    }
  }

  lemma CutTwice(a: string, b: string, rest: string)
    requires '.' !in a && '.' !in b
    ensures Cut(a + ("." + (b + ("." + rest)))) == (a, Some(b + ("." + rest)))
    ensures Cut(b + ("." + rest)) == (b, Some(rest))
  {
    CutAtDot(a, b + ("." + rest));
    CutAtDot(b, rest);
  }

  lemma SchemaIdentifies(f: IndexFormat, bound: Bound, ext: string, db: string)
    requires IsBytes(db)
    ensures Identify(f, bound, Name(f, ext, Schema(db))) == Some(Schema(db))
  {
    UnescapeOfEscape(db);
    DotFree(db);
    hide Escape, Unescape, Cut, DropEnd;
    CutAtDot(Escape(db) + "-schema-create", "sql");
    CutAtDot("sql", "");
    DropsEnd(Escape(db), "-schema-create");
  }

  /** A name of three parts is that of table, view or sequence metadata. */
  lemma ThreeParts(f: IndexFormat, bound: Bound, db: string, p: string)
    requires IsBytes(db) && '.' !in p
    ensures Identify(f, bound, Escape(db) + ("." + (p + ("." + "sql")))) == IdentifyMeta(db, p)
  {
    UnescapeOfEscape(db);
    DotFree(db);
    hide Escape, Unescape, Cut, DropEnd, IdentifyMeta, ReadIndex;
    CutTwice(Escape(db), p, "sql");
    CutAtDot("sql", "");
  }

  lemma MetaDotFree(e: string)
    requires '.' !in e
    ensures '.' !in e + "-schema" && '.' !in e + "-schema-view" && '.' !in e + "-schema-sequence"
  {
  }

  lemma MetaNames(f: IndexFormat, ext: string, db: string, t: string)
    ensures Name(f, ext, TableMeta(db, t)) == Escape(db) + ("." + ((Escape(t) + "-schema") + ("." + "sql")))
    ensures Name(f, ext, ViewMeta(db, t)) == Escape(db) + ("." + ((Escape(t) + "-schema-view") + ("." + "sql")))
    ensures Name(f, ext, SequenceMeta(db, t)) == Escape(db) + ("." + ((Escape(t) + "-schema-sequence") + ("." + "sql")))
  {
    hide Escape;
  }

  lemma MetaIdentifies(f: IndexFormat, bound: Bound, ext: string, db: string, t: string)
    requires IsBytes(db) && IsBytes(t)
    ensures Identify(f, bound, Name(f, ext, TableMeta(db, t))) == Some(TableMeta(db, t))
    ensures Identify(f, bound, Name(f, ext, ViewMeta(db, t))) == Some(ViewMeta(db, t))
    ensures Identify(f, bound, Name(f, ext, SequenceMeta(db, t))) == Some(SequenceMeta(db, t))
  {
    hide *;
    MetaReads(db, t);
    DotFree(t);
    MetaDotFree(Escape(t));
    MetaNames(f, ext, db, t);
    ThreeParts(f, bound, db, Escape(t) + "-schema");
    ThreeParts(f, bound, db, Escape(t) + "-schema-view");
    ThreeParts(f, bound, db, Escape(t) + "-schema-sequence");
  }

  lemma DataIdentifies(f: IndexFormat, bound: Bound, ext: string, db: string, t: string, chunk: nat, file: nat)
    requires IsBytes(db) && IsBytes(t) && InRange(f, bound, chunk, file)
    ensures Identify(f, bound, Name(f, ext, Data(db, t, chunk, file))) == Some(Data(db, t, chunk, file))
  {
    UnescapeOfEscape(db);
    UnescapeOfEscape(t);
    DotFree(db);
    DotFree(t);
    hide Escape, Unescape, Cut, Index, ReadIndex, DropEnd, IdentifyMeta, InRange, IsBytes;
    var index := Index(f, chunk, file);
    DigitsDotFree(index);
    IndexReads(f, bound, chunk, file);
    CutTwice(Escape(db), Escape(t), index + ("." + ext));
    CutAtDot(index, ext);
  }

  /** A name tells what its file holds: kind, schema, table, chunk and file index. */
  lemma NameIdentifies(f: IndexFormat, bound: Bound, ext: string, id: FileId)
    requires Nameable(f, bound, id)
    ensures Identify(f, bound, Name(f, ext, id)) == Some(id)
  {
    hide Identify, Name;
    match id
    case Schema(db) => SchemaIdentifies(f, bound, ext, db);
    case TableMeta(db, t) => MetaIdentifies(f, bound, ext, db, t);
    case ViewMeta(db, t) => MetaIdentifies(f, bound, ext, db, t);
    case SequenceMeta(db, t) => MetaIdentifies(f, bound, ext, db, t);
    case Data(db, t, chunk, file) => DataIdentifies(f, bound, ext, db, t, chunk, file);
  }

  /** Two files of one run share no name while either part of the index stays
      within its bound. */
  lemma NamesUnique(f: IndexFormat, bound: Bound, ext: string, a: FileId, b: FileId)
    requires Nameable(f, bound, a) && Nameable(f, bound, b)
    requires Name(f, ext, a) == Name(f, ext, b)
    ensures a == b
  {
    hide *;
    NameIdentifies(f, bound, ext, a);
    NameIdentifies(f, bound, ext, b);
  }

  /** The files a run of so many chunks with so many files each can have. */
  predicate OfRun(id: FileId, chunks: nat, files: nat) {
    && IsBytes(id.db)
    && (!id.Schema? ==> IsBytes(id.table))
    && (id.Data? ==> id.chunk < chunks && id.file < files)
  }

  ghost predicate AllDistinct(f: IndexFormat, ext: string, chunks: nat, files: nat) {
    forall a, b :: OfRun(a, chunks, files) && OfRun(b, chunks, files) && Name(f, ext, a) == Name(f, ext, b) ==> a == b
  }

  /** How many chunks and files the index format has names for. */
  predicate Fits(f: IndexFormat, chunks: nat, files: nat) {
    match f
    case ChunkAndFile => chunks <= 1000000001 || files <= 10000
    case FileOnly => chunks <= 1 || files == 0
    case ChunkOnly => files <= 1 || chunks == 0
  }

  /** All names of a run differ exactly as long as its chunks and files fit the
      index: up to a billion and one chunks or ten thousand files a chunk. */
  lemma NamesDistinctIff(f: IndexFormat, ext: string, chunks: nat, files: nat)
    ensures AllDistinct(f, ext, chunks, files) <==> Fits(f, chunks, files)
  {
    if Fits(f, chunks, files) {
      var bound := if files <= 10000 then ShortFiles else ShortChunks;
      hide Name;
      forall a, b | OfRun(a, chunks, files) && OfRun(b, chunks, files) && Name(f, ext, a) == Name(f, ext, b)
        ensures a == b
      {
        NamesUnique(f, bound, ext, a, b);
      }
    } else {
      LongIndexesCollide(ext, "d", "t");
      LeftOutCollide(ext, "d", "t");
      hide Name;
      var a := if f.ChunkAndFile? then Data("d", "t", 1000000001, 0) else Data("d", "t", 0, 0);
      var b := if f.ChunkAndFile? then Data("d", "t", 100000000, 10000)
               else if f.FileOnly? then Data("d", "t", 1, 0) else Data("d", "t", 0, 1);
      assert OfRun(a, chunks, files) && OfRun(b, chunks, files);
    }
  }

  /** The first file of the first chunk that can meet another chunk's file. */
  lemma LongIndexesCollide(ext: string, db: string, table: string)
    ensures Name(ChunkAndFile, ext, Data(db, table, 1000000001, 0)) == Name(ChunkAndFile, ext, Data(db, table, 100000000, 10000))
  {
    DigitsOfPowers();
    hide Escape, Digits, Zeros;
    FourZeros();
    assert Padded(1000000001, 9) == "1000000001" && Padded(100000000, 9) == "100000000" && Padded(10000, 4) == "10000";
    assert Index(ChunkAndFile, 1000000001, 0) == "10000000010000";
    assert Index(ChunkAndFile, 100000000, 10000) == "10000000010000";
  }

  lemma FourZeros()
    ensures Padded(0, 4) == "0000"
  {
    assert Zeros(1) == "0" && Zeros(2) == "00" && Zeros(3) == "000";
  }

  lemma LeftOutCollide(ext: string, db: string, table: string)
    ensures Name(FileOnly, ext, Data(db, table, 0, 0)) == Name(FileOnly, ext, Data(db, table, 1, 0))
    ensures Name(ChunkOnly, ext, Data(db, table, 0, 0)) == Name(ChunkOnly, ext, Data(db, table, 0, 1))
  {
    hide Escape, Padded;
  }

  /** Within one chunk no file index is too large. */
  lemma FilesOfChunkDiffer(f: IndexFormat, ext: string, db: string, table: string, chunk: nat, j: nat, k: nat)
    requires f != ChunkOnly
    requires Name(f, ext, Data(db, table, chunk, j)) == Name(f, ext, Data(db, table, chunk, k))
    ensures j == k
  {
    var a := Escape(db);
    var b := Escape(table);
    var w := if f == FileOnly then 9 else 4;
    NumberOfPadded(j, w);
    NumberOfPadded(k, w);
    hide Escape, Padded, Number;
    var x, y := Index(f, chunk, j), Index(f, chunk, k);
    assert x == y by { SameMiddle(a, b, x, y, "." + ext); }
    if f == ChunkAndFile {
      assert x[|Padded(chunk, 9)|..] == Padded(j, 4) && y[|Padded(chunk, 9)|..] == Padded(k, 4);
    }
  }

  lemma SameMiddle(a: string, b: string, x: string, y: string, end: string)
    requires a + ("." + (b + ("." + (x + end)))) == a + ("." + (b + ("." + (y + end))))
    ensures x == y
  {
    var s, t := a + ("." + (b + ("." + (x + end)))), a + ("." + (b + ("." + (y + end))));
    var n := |a| + |b| + 2;
    assert |x| == |y|;
    assert s[n..n + |x|] == x && t[n..n + |y|] == y;
  }

  // ---- order ----

  lemma {:induction false} OrderUnderPrefix(p: string, a: string, b: string)
    ensures ByteLess(p + a, p + b) <==> ByteLess(a, b)
  {
    if p == "" {
      assert p + a == a && p + b == b;
    } else {
      assert (p + a)[1..] == p[1..] + a && (p + b)[1..] == p[1..] + b;
      OrderUnderPrefix(p[1..], a, b);
    }
  }

  lemma {:induction false} OrderByParts(a: string, b: string, c: string, d: string)
    requires |a| == |b|
    ensures ByteLess(a + c, b + d) <==> ByteLess(a, b) || (a == b && ByteLess(c, d))
  {
    if a == "" {
      assert a + c == c && b + d == d;
    } else {
      assert (a + c)[1..] == a[1..] + c && (b + d)[1..] == b[1..] + d;
      assert a == b <==> a[0] == b[0] && a[1..] == b[1..] by {
        assert a == [a[0]] + a[1..] && b == [b[0]] + b[1..];
      }
      OrderByParts(a[1..], b[1..], c, d);
    }
  }

  lemma {:induction false} NotBelowItself(a: string)
    ensures !ByteLess(a, a)
  {
    if a != "" { NotBelowItself(a[1..]); }
  }

  lemma PaddedOrder(m: nat, n: nat, w: nat)
    requires w >= 1 && m < Pow10(w) && n < Pow10(w)
    ensures |Padded(m, w)| == |Padded(n, w)| == w
    ensures ByteLess(Padded(m, w), Padded(n, w)) <==> m < n
    ensures Padded(m, w) == Padded(n, w) <==> m == n
  {
    PaddedLength(m, w);
    PaddedLength(n, w);
    NumberOfPadded(m, w);
    NumberOfPadded(n, w);
    ByteOrderIsNumeric(Padded(m, w), Padded(n, w));
  }

  /** The order a listing shows: chunk first, then file. */
  predicate Before(chunk: nat, file: nat, chunk': nat, file': nat) {
    chunk < chunk' || (chunk == chunk' && file < file')
  }

  lemma IndexOrder(f: IndexFormat, chunk: nat, file: nat, chunk': nat, file': nat)
    requires InRange(f, ShortFiles, chunk, file) && InRange(f, ShortFiles, chunk', file')
    requires chunk < 1000000000 && chunk' < 1000000000 && file < 1000000000 && file' < 1000000000
    ensures |Index(f, chunk, file)| == |Index(f, chunk', file')|
    ensures ByteLess(Index(f, chunk, file), Index(f, chunk', file')) <==> Before(chunk, file, chunk', file')
  {
    NinePowers();
    PaddedOrder(chunk, chunk', 9);
    PaddedOrder(file, file', 9);
    hide Padded, Pow10, ByteLess;
    if f == ChunkAndFile {
      PaddedOrder(file, file', 4);
      OrderByParts(Padded(chunk, 9), Padded(chunk', 9), Padded(file, 4), Padded(file', 4));
    }
  }

  /** Listing one table's data files by name lists them in (chunk, file) order. */
  lemma NamesInOrder(f: IndexFormat, ext: string, db: string, table: string, chunk: nat, file: nat, chunk': nat,
                     file': nat)
    requires InRange(f, ShortFiles, chunk, file) && InRange(f, ShortFiles, chunk', file')
    requires chunk < 1000000000 && chunk' < 1000000000 && file < 1000000000 && file' < 1000000000
    ensures ByteLess(Name(f, ext, Data(db, table, chunk, file)), Name(f, ext, Data(db, table, chunk', file')))
       <==> Before(chunk, file, chunk', file')
  {
    hide *;
    var x, y := Index(f, chunk, file), Index(f, chunk', file');
    var p, end := Escape(db) + ("." + (Escape(table) + ".")), "." + ext;
    IndexOrder(f, chunk, file, chunk', file');
    DataNameParts(f, ext, db, table, chunk, file);
    DataNameParts(f, ext, db, table, chunk', file');
    OrderUnderPrefix(p, x + end, y + end);
    OrderByParts(x, y, end, end);
    NotBelowItself(end);
  }

  lemma DataNameParts(f: IndexFormat, ext: string, db: string, table: string, chunk: nat, file: nat)
    ensures Name(f, ext, Data(db, table, chunk, file))
         == (Escape(db) + ("." + (Escape(table) + "."))) + (Index(f, chunk, file) + ("." + ext))
  {
    hide Escape, Index;
    GroupParts(Escape(db), Escape(table), Index(f, chunk, file) + ("." + ext));
  }

  lemma GroupParts(a: string, b: string, rest: string)
    ensures a + ("." + (b + ("." + rest))) == (a + ("." + (b + "."))) + rest
  {
  }
}
