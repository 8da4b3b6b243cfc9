/** Wildcard patterns (`parseWildcardPattern` of `parser.go`): the glob, the regular
    expression it is translated to, and what each accepts. Patterns and names are
    sequences of characters here; character classes are opaque. */
module Glob {
  import opened Common
  import opened TableFilter

  datatype GlobError = BackslashAtEnd | EscapedAlphanumeric | UnexpectedCharacter | BadClass | BadPattern

  /** A piece of a glob. `Dollar` is a `$` without a backslash; a class keeps the
      text between its brackets. */
  datatype Item = Lit(c: char, escaped: bool) | AnyChar | AnyStar | Class(body: string) | Dollar

  predicate IsAlphanumeric(c: char) {
    '0' <= c <= '9' || 'a' <= c <= 'z' || 'A' <= c <= 'Z'
  }

  /** Characters that stand for themselves without a backslash, `$` aside. */
  predicate IsPlain(c: char) {
    c == '_' || IsAlphanumeric(c) || c as int >= 0x80
  }

  // ---- reading a glob ----

  /** The length of a class body: up to the first `]` without a backslash. */
  function ScanClass(s: string): (r: Option<nat>)
    ensures r.Some? ==> r.value < |s| && s[r.value] == ']'
  {
    if s == "" then None
    else if s[0] == ']' then Some(0)
    else if s[0] == '\\' then
      if |s| < 2 || IsAlphanumeric(s[1]) then None
      else match ScanClass(s[2..]) case None => None case Some(n) => Some(n + 2)
    else match ScanClass(s[1..]) case None => None case Some(n) => Some(n + 1)
  }

  /** What stands at the head of a pattern: its end, an error, or a piece and its length. */
  datatype Step = End | Bad(err: GlobError) | Take(item: Item, length: nat)

  function StepOf(line: string, dot: bool): (r: Step)
    requires line != ""
    ensures r.Take? ==> 1 <= r.length <= |line|
  {
    var c := line[0];
    if c == '\\' then
      if |line| == 1 then Bad(BackslashAtEnd)
      else if IsAlphanumeric(line[1]) then Bad(EscapedAlphanumeric)
      else Take(Lit(line[1], true), 2)
    else if c == '.' then
      if dot then End else Bad(UnexpectedCharacter)
    else if c == '*' then Take(AnyStar, 1)
    else if c == '?' then Take(AnyChar, 1)
    else if c == '[' then
      match ScanClass(line[1..])
      case None => Bad(BadClass)
      case Some(n) => if n == 0 then Bad(BadClass) else Take(Class(line[1..n + 1]), n + 2)
    else if c == '$' then Take(Dollar, 1)
    else if IsPlain(c) then Take(Lit(c, false), 1)
    else Bad(UnexpectedCharacter)
  }

  function Cons(item: Item, r: Result<(seq<Item>, string), GlobError>): Result<(seq<Item>, string), GlobError> {
    match r
    case Err(err) => Err(err)
    case Ok((items, rest)) => Ok(([item] + items, rest))
  }

  /** The pieces of a glob up to the dot before a table pattern, or up to the end. */
  function ReadGlob(line: string, dot: bool): Result<(seq<Item>, string), GlobError>
    decreases |line|
  {
    if line == "" then Ok(([], ""))
    else
      match StepOf(line, dot)
      case End => Ok(([], line))
      case Bad(err) => Err(err)
      case Take(item, n) => Cons(item, ReadGlob(line[n..], dot))
  }

  // ---- the emitted text ----

  /** A class body between the brackets of a regular expression. */
  function ClassInner(body: string): string {
    if body == "" then ""
    else if body[0] == '!' then "^" + body[1..]
    else if body[0] == '^' then "\\^" + body[1..]
    else body
  }

  function ItemText(item: Item): string {
    match item
    case Lit(c, escaped) => if escaped && (c as int) < 0x80 then ['\\', c] else [c]
    case AnyChar => "."
    case AnyStar => ".*"
    case Class(body) => "[" + ClassInner(body) + "]"
    case Dollar => "$"
  }

  function RegexText(items: seq<Item>): string {
    if items == [] then "" else ItemText(items[0]) + RegexText(items[1..])
  }

  predicate IsLiteral(items: seq<Item>) {
    forall i :: 0 <= i < |items| ==> items[i].Lit? || items[i].Dollar?
  }

  function LiteralText(items: seq<Item>): string {
    if items == [] then ""
    else [if items[0].Lit? then items[0].c else '$'] + LiteralText(items[1..])
  }

  const HEAD := "(?s)^"

  /** What `parseWildcardPattern` makes of a line. */
  function Wildcard(e: Engine, line: string, dot: bool): Result<(Matcher, string), GlobError> {
    match ReadGlob(line, dot)
    case Err(err) => Err(err)
    case Ok((items, rest)) => Built(e, items, rest)
  }

  /** The matcher for the pieces that were read. */
  function Built(e: Engine, items: seq<Item>, rest: string): Result<(Matcher, string), GlobError> {
    if IsLiteral(items) then Ok((Literal(LiteralText(items)), rest))
    else
      match NewRegexpMatcher(e, HEAD + RegexText(items) + "$")
      case None => Err(BadPattern)
      case Some(m) => Ok((m, rest))
  }

  lemma BuiltMeans(e: Engine, items: seq<Item>, rest: string)
    ensures IsLiteral(items) ==> Built(e, items, rest) == Ok((Literal(LiteralText(items)), rest))
    ensures !IsLiteral(items) ==>
              match NewRegexpMatcher(e, HEAD + RegexText(items) + "$")
              case None => Built(e, items, rest) == Err(BadPattern)
              case Some(m) => Built(e, items, rest) == Ok((m, rest))
  {
  }

  /** Items read before the rest of a line. */
  function Prepend(items: seq<Item>, r: Result<(seq<Item>, string), GlobError>): Result<(seq<Item>, string),
                   GlobError> {
    match r
    case Err(err) => Err(err)
    case Ok((more, rest)) => Ok((items + more, rest))
  }

  lemma PrependOne(items: seq<Item>, item: Item, r: Result<(seq<Item>, string), GlobError>)
    ensures Prepend(items, Cons(item, r)) == Prepend(items + [item], r)
  {
    if r.Ok? {
      Regroup(items, [item], r.value.0);
    }
  }

  lemma {:induction false} RegexAppend(items: seq<Item>, item: Item)
    ensures RegexText(items + [item]) == RegexText(items) + ItemText(item)
  {
    hide ItemText;
    if items == [] {
      assert [item][1..] == [];
      assert ItemText(item) + "" == ItemText(item);
    } else {
      assert (items + [item])[1..] == items[1..] + [item];
      RegexAppend(items[1..], item);
      Regroup(ItemText(items[0]), RegexText(items[1..]), ItemText(item));
    }
  }

  lemma {:induction false} LiteralAppend(items: seq<Item>, item: Item)
    ensures LiteralText(items + [item]) == LiteralText(items) + [if item.Lit? then item.c else '$']
  {
    if items == [] {
      assert [item][1..] == [];
    } else {
      assert (items + [item])[1..] == items[1..] + [item];
      LiteralAppend(items[1..], item);
    }
  }

  lemma IsLiteralAppend(items: seq<Item>, item: Item)
    ensures IsLiteral(items + [item]) <==> IsLiteral(items) && (item.Lit? || item.Dollar?)
  {
    assert forall i :: 0 <= i < |items| ==> (items + [item])[i] == items[i];
    assert (items + [item])[|items|] == item;
  }

  /** `StepOf` in the middle of a line. */
  lemma StepAt(line: string, i: nat, dot: bool)
    requires i < |line|
    ensures StepOf(line[i..], dot)
         == var c := line[i];
            if c == '\\' then
              if i == |line| - 1 then Bad(BackslashAtEnd)
              else if IsAlphanumeric(line[i + 1]) then Bad(EscapedAlphanumeric)
              else Take(Lit(line[i + 1], true), 2)
            else if c == '.' then
              if dot then End else Bad(UnexpectedCharacter)
            else if c == '*' then Take(AnyStar, 1)
            else if c == '?' then Take(AnyChar, 1)
            else if c == '[' then
              match ScanClass(line[i + 1..])
              case None => Bad(BadClass)
              case Some(n) => if n == 0 then Bad(BadClass) else Take(Class(line[i + 1..i + n + 1]), n + 2)
            else if c == '$' then Take(Dollar, 1)
            else if IsPlain(c) then Take(Lit(c, false), 1)
            else Bad(UnexpectedCharacter)
  {
    assert line[i..][1..] == line[i + 1..];
    hide IsPlain, IsAlphanumeric;
    if line[i] == '[' {
      var scanned := ScanClass(line[i + 1..]);
      if scanned.Some? {
        assert line[i..][1..scanned.value + 1] == line[i + 1..i + scanned.value + 1];
      }
    }
  }

  /** The parse so far: `items` are in, `line[i..]` is left. */
  ghost predicate Read(line: string, dot: bool, items: seq<Item>, i: nat)
    requires i <= |line|
  {
    ReadGlob(line, dot) == Prepend(items, ReadGlob(line[i..], dot))
  }

  lemma ReadStarts(line: string, dot: bool)
    ensures Read(line, dot, [], 0) && RegexText([]) == "" && LiteralText([]) == "" && IsLiteral([])
  {
    assert line[0..] == line;
    var r := ReadGlob(line, dot);
    if r.Ok? {
      assert [] + r.value.0 == r.value.0;
    }
  }

  lemma ReadTakes(line: string, dot: bool, items: seq<Item>, i: nat, item: Item, n: nat)
    requires i < |line| && Read(line, dot, items, i) && StepOf(line[i..], dot) == Take(item, n)
    ensures i + n <= |line| && Read(line, dot, items + [item], i + n)
    ensures RegexText(items + [item]) == RegexText(items) + ItemText(item)
    ensures LiteralText(items + [item]) == LiteralText(items) + [if item.Lit? then item.c else '$']
    ensures IsLiteral(items + [item]) <==> IsLiteral(items) && (item.Lit? || item.Dollar?)
  {
    hide StepOf, RegexText, LiteralText, IsLiteral;
    assert line[i..][n..] == line[i + n..];
    PrependOne(items, item, ReadGlob(line[i + n..], dot));
    RegexAppend(items, item);
    LiteralAppend(items, item);
    IsLiteralAppend(items, item);
  }

  lemma ReadEnds(e: Engine, line: string, dot: bool, items: seq<Item>, i: nat)
    requires i <= |line| && Read(line, dot, items, i)
    ensures i < |line| && StepOf(line[i..], dot).Bad? ==> Wildcard(e, line, dot) == Err(StepOf(line[i..], dot).err)
    ensures i == |line| || StepOf(line[i..], dot) == End ==> Wildcard(e, line, dot) == Built(e, items, line[i..])
  {
    hide StepOf, Built;
    assert items + [] == items;
    if i == |line| {
      assert line[i..] == "";
    }
  }

  lemma ItemTexts(c: char, body: string)
    ensures ItemText(AnyChar) == "." && ItemText(AnyStar) == ".*" && ItemText(Dollar) == "$"
    ensures ItemText(Lit(c, false)) == [c]
    ensures ItemText(Lit(c, true)) == if (c as int) < 0x80 then ['\\', c] else [c]
  {
  }

  /** What is written for a class, in terms of the line. */
  lemma ClassTextAt(line: string, i: nat, n: nat)
    requires i < |line| && line[i] == '[' && ScanClass(line[i + 1..]) == Some(n) && n > 0
    ensures i + n + 1 < |line|
    ensures ItemText(Class(line[i + 1..i + n + 1]))
         == if line[i + 1] == '!' then "[^" + line[i + 2..i + n + 2]
            else if line[i + 1] == '^' then "[\\^" + line[i + 2..i + n + 2]
            else line[i..i + n + 2]
  {
    assert line[i + 1..][n] == ']';
    var body := line[i + 1..i + n + 1];
    assert body[1..] + "]" == line[i + 2..i + n + 2];
    assert "[" + body + "]" == line[i..i + n + 2];
    assert "[" + ("^" + body[1..]) + "]" == "[^" + (body[1..] + "]");
    assert "[" + ("\\^" + body[1..]) + "]" == "[\\^" + (body[1..] + "]");
  }

  /** The branches for a class: `[!` is `[^`, and `[^` gets a backslash. */
  method TranslateClass(line: string, i: nat, n: nat) returns (text: string)
    requires i < |line| && line[i] == '[' && ScanClass(line[i + 1..]) == Some(n) && n > 0
    ensures i + n + 2 <= |line|
    ensures text == ItemText(Class(line[i + 1..i + n + 1]))
  {
    ClassTextAt(line, i, n);
    hide *;
    var end := i + n + 2;
    if line[i + 1] == '!' {
      text := "[^" + line[i + 2..end];
    } else if line[i + 1] == '^' {
      text := "[\\^" + line[i + 2..end];
    } else {
      text := line[i..end];
    }
  }

  /** `parseWildcardPattern`: one pass that builds the literal and the regular
      expression side by side. */
  method ParseWildcardPattern(e: Engine, line: string, needsDotSeparator: bool) returns (r: Result<(Matcher, string),
                              GlobError>)
    ensures r == Wildcard(e, line, needsDotSeparator)
  {
    hide *;
    var literal, wildcard := "", HEAD;
    var isLiteralString := true;
    var i := 0;
    ghost var items: seq<Item> := [];
    ReadStarts(line, needsDotSeparator);
    assert HEAD + "" == HEAD;
    while i < |line|
      invariant i <= |line| && Read(line, needsDotSeparator, items, i)
      invariant wildcard == HEAD + RegexText(items)
      invariant isLiteralString == IsLiteral(items)
      invariant isLiteralString ==> literal == LiteralText(items)
    {
      var c := line[i];
      ghost var step := StepOf(line[i..], needsDotSeparator);
      ghost var before := wildcard;
      StepAt(line, i, needsDotSeparator);
      ReadEnds(e, line, needsDotSeparator, items, i);
      if step.Take? {
        ReadTakes(line, needsDotSeparator, items, i, step.item, step.length);
      }
      var end := i + 1;
      if c == '\\' {
        if i == |line| - 1 {
          return Err(BackslashAtEnd);
        }
        var esc := line[i + 1];
        ItemTexts(esc, "");
        if IsAlphanumeric(esc) {
          return Err(EscapedAlphanumeric);
        }
        if isLiteralString {
          literal := literal + [esc];
        }
        wildcard := wildcard + (if (esc as int) < 0x80 then ['\\', esc] else [esc]);
        end := i + 2;
      } else if c == '.' {
        if needsDotSeparator {
          break;
        }
        return Err(UnexpectedCharacter);
      } else if c == '*' {
        ItemTexts(c, "");
        isLiteralString := false;
        wildcard := wildcard + ".*";
      } else if c == '?' {
        ItemTexts(c, "");
        isLiteralString := false;
        wildcard := wildcard + ".";
      } else if c == '[' {
        isLiteralString := false;
        var scanned := ScanClass(line[i + 1..]);
        if scanned.None? || scanned.value == 0 {
          return Err(BadClass);
        }
        end := i + scanned.value + 2;
        var text := TranslateClass(line, i, scanned.value);
        wildcard := wildcard + text;
      } else {
        ItemTexts(c, "");
        if !(c == '$' || IsPlain(c)) {
          return Err(UnexpectedCharacter);
        }
        literal := literal + [c];
        wildcard := wildcard + [c];
      }
      Regroup(HEAD, RegexText(items), ItemText(step.item));
      items := items + [step.item];
      i := end;
    }
    ReadEnds(e, line, needsDotSeparator, items, i);
    BuiltMeans(e, items, line[i..]);
    if isLiteralString {
      return Ok((Literal(literal), line[i..]));
    }
    wildcard := wildcard + "$";
    var m := NewRegexpMatcher(e, wildcard);
    if m.None? {
      return Err(BadPattern);
    }
    r := Ok((m.value, line[i..]));
  }

  // ---- what a glob accepts ----

  /** Which characters a class of a regular expression holds. */
  type ClassOf = (string, char) -> bool

  predicate GlobAccepts(cls: ClassOf, items: seq<Item>, name: string)
    decreases |items| + |name|
  {
    if items == [] then name == ""
    else if items[0].AnyStar? then
      GlobAccepts(cls, items[1..], name) || (name != "" && GlobAccepts(cls, items, name[1..]))
    else name != "" && OneAccepts(cls, items[0], name[0]) && GlobAccepts(cls, items[1..], name[1..])
  }

  predicate OneAccepts(cls: ClassOf, item: Item, c: char) {
    match item
    case Lit(x, _) => x == c
    case Dollar => c == '$'
    case Class(body) => cls(ClassInner(body), c)
    case _ => true
  }

  // ---- the syntax of a class, as the regular-expression package reads it ----

  /** The index of the first ":]". */
  function FindClose(s: string): (r: Option<nat>)
    ensures r.Some? ==> r.value + 2 <= |s| && s[r.value] == ':' && s[r.value + 1] == ']'
    ensures forall j :: 0 <= j < (if r.Some? then r.value else |s| - 1) ==> !(s[j] == ':' && s[j + 1] == ']')
  {
    if |s| < 2 then None
    else if s[0] == ':' && s[1] == ']' then Some(0)
    else match FindClose(s[1..]) case None => None case Some(n) => Some(n + 1)
  }

  /** The names allowed between "[:" and ":]". */
  predicate PosixName(s: string) {
    var name := if s != "" && s[0] == '^' then s[1..] else s;
    name in {"alnum", "alpha", "ascii", "blank", "cntrl", "digit", "graph", "lower", "print", "punct", "space", "upper", "word", "xdigit"}
  }

  lemma NameHasNoBracket(s: string, i: nat)
    requires PosixName(s) && i < |s|
    ensures s[i] != ']'
  {
    if s[0] == '^' && i > 0 {
      assert s[1..][i - 1] == s[i];
    }
  }

  lemma BracketInName(s: string, i: nat)
    requires i < |s| && s[i] == ']'
    ensures !PosixName(s)
  {
    hide PosixName;
    if PosixName(s) {
      NameHasNoBracket(s, i);
    }
  }

  function CharLength(t: string): (r: Option<nat>)
    ensures r.Some? ==> 1 <= r.value <= |t|
  {
    if t == "" then None
    else if t[0] == '\\' then if |t| < 2 || IsAlphanumeric(t[1]) || t[1] as int >= 0x80 then None else Some(2)
    else Some(1)
  }

  /** A single character, or a range when a `-` follows that is not the last one. */
  function MemberLength(t: string): (r: Option<nat>)
    ensures r.Some? ==> 1 <= r.value <= |t|
  {
    match CharLength(t)
    case None => None
    case Some(n) =>
      if |t| >= n + 2 && t[n] == '-' && t[n + 1] != ']' then
        match CharLength(t[n + 1..])
        case None => None
        case Some(m) => if t[n + m] < t[n - 1] then None else Some(n + 1 + m)
      else Some(n)
  }

  function Shift(n: nat, r: Option<nat>): Option<nat> {
    match r case None => None case Some(k) => Some(n + k)
  }

  /** The index of the bracket that ends a class; right at its start a bracket is a
      character, and "[:" begins a class name wherever its ":]" stands. */
  function ReadSet(t: string, first: bool): (r: Option<nat>)
    ensures r.Some? ==> r.value < |t| && t[r.value] == ']'
    decreases |t|
  {
    if t == "" then None
    else if t[0] == ']' && !first then Some(0)
    else if |t| > 2 && t[0] == '[' && t[1] == ':' && FindClose(t[2..]).Some? then
      var n := FindClose(t[2..]).value;
      if PosixName(t[2..n + 2]) then Shift(n + 4, ReadSet(t[n + 4..], false)) else None
    else
      match MemberLength(t)
      case None => None
      case Some(n) => Shift(n, ReadSet(t[n..], false))
  }

  /** Whether a class with this text between its brackets ends at its own bracket:
      the text is not empty, and no class name in it is closed by that bracket. */
  predicate Ends(w: string, first: bool) {
    if w == "" then !first
    else if |w| > 2 && w[0] == '[' && w[1] == ':' && w[|w| - 1] == ':' then false
    else match MemberLength(w) case None => true case Some(n) => Ends(w[n..], false)
  }

  /** The text of a class behind the `^` of a negation. */
  function Members(body: string): string {
    if body != "" && body[0] == '!' then body[1..] else ClassInner(body)
  }

  predicate EndsItself(item: Item) {
    item.Class? ==> Ends(Members(item.body), true)
  }

  predicate AllEnd(items: seq<Item>) {
    forall i :: 0 <= i < |items| ==> EndsItself(items[i])
  }

  // ---- what a regular expression accepts ----

  /** The part of the regular-expression syntax that is emitted. `AtEnd` is the
      assertion that the text ends here. */
  datatype Node = Chr(c: char) | Dot | DotStar | Set(inner: string) | AtEnd

  predicate IsMeta(c: char) {
    c in "*+?()|[]{}^"
  }

  function ConsNode(n: Node, r: Option<seq<Node>>): Option<seq<Node>> {
    match r
    case None => None
    case Some(nodes) => Some([n] + nodes)
  }

  function ReadNodes(s: string): Option<seq<Node>>
    decreases |s|
  {
    if s == "" then Some([])
    else if s[0] == '\\' then
      if |s| < 2 || IsAlphanumeric(s[1]) || s[1] as int >= 0x80 then None else ConsNode(Chr(s[1]), ReadNodes(s[2..]))
    else if s[0] == '.' then
      if |s| >= 2 && s[1] == '*' then ConsNode(DotStar, ReadNodes(s[2..])) else ConsNode(Dot, ReadNodes(s[1..]))
    else if s[0] == '$' then ConsNode(AtEnd, ReadNodes(s[1..]))
    else if s[0] == '[' then
      var k := if |s| >= 2 && s[1] == '^' then 2 else 1;
      match ReadSet(s[k..], true)
      case None => None
      case Some(n) => ConsNode(Set(s[1..k + n]), ReadNodes(s[k + n + 1..]))
    else if IsMeta(s[0]) then None
    else ConsNode(Chr(s[0]), ReadNodes(s[1..]))
  }

  /** A regular expression anchored at the start, in which a dot is any character. */
  function ReadRegex(text: string): Option<seq<Node>> {
    if HEAD <= text then ReadNodes(text[|HEAD|..]) else None
  }

  predicate RegexAccepts(cls: ClassOf, nodes: seq<Node>, name: string)
    decreases |nodes| + |name|
  {
    if nodes == [] then true
    else
      match nodes[0]
      case AtEnd => name == "" && RegexAccepts(cls, nodes[1..], name)
      case DotStar => RegexAccepts(cls, nodes[1..], name) || (name != "" && RegexAccepts(cls, nodes, name[1..]))
      case Dot => name != "" && RegexAccepts(cls, nodes[1..], name[1..])
      case Chr(c) => name != "" && name[0] == c && RegexAccepts(cls, nodes[1..], name[1..])
      case Set(inner) => name != "" && cls(inner, name[0]) && RegexAccepts(cls, nodes[1..], name[1..])
  }

  // ---- the emitted text ----

  function NodeOf(item: Item): Node {
    match item
    case Lit(c, _) => Chr(c)
    case AnyChar => Dot
    case AnyStar => DotStar
    case Class(body) => Set(ClassInner(body))
    case Dollar => AtEnd
  }

  /** The nodes of a pattern, the final `$` last. */
  function NodesOf(items: seq<Item>): seq<Node> {
    if items == [] then [AtEnd] else [NodeOf(items[0])] + NodesOf(items[1..])
  }

  /** A class body: no bare `]`, and no letter or digit behind a backslash. */
  predicate ClassBody(b: string) {
    if b == "" then true
    else if b[0] == '\\' then |b| >= 2 && !IsAlphanumeric(b[1]) && ClassBody(b[2..])
    else b[0] != ']' && ClassBody(b[1..])
  }

  lemma {:induction false} ScannedBody(s: string)
    requires ScanClass(s).Some?
    ensures ClassBody(s[..ScanClass(s).value])
  {
    var n := ScanClass(s).value;
    hide IsAlphanumeric;
    if s[0] != ']' {
      if s[0] == '\\' {
        ScannedBody(s[2..]);
        assert s[..n][2..] == s[2..][..n - 2];
      } else {
        ScannedBody(s[1..]);
        assert s[..n][1..] == s[1..][..n - 1];
      }
    }
  }

  lemma {:induction false} BracketIsEscaped(b: string, i: nat)
    requires ClassBody(b) && i < |b| && b[i] == ']'
    ensures i > 0 && b[i - 1] == '\\'
  {
    hide IsAlphanumeric;
    if b[0] == '\\' {
      if i >= 2 {
        BracketIsEscaped(b[2..], i - 2);
      }
    } else {
      BracketIsEscaped(b[1..], i - 1);
    }
  }

  lemma MembersAreBody(b: string)
    requires ClassBody(b) && b != ""
    ensures ClassBody(Members(b))
    ensures ClassInner(b) == (if b[0] == '!' then "^" else "") + Members(b)
    ensures b[0] != '!' ==> Members(b) != "" && Members(b)[0] != '^'
  {
    if b[0] == '^' {
      assert ClassInner(b)[2..] == b[1..];
    }
    assert "" + Members(b) == Members(b);
  }

  /** Pieces as they come out of a line. */
  predicate WellFormed(item: Item) {
    match item
    case Lit(c, escaped) => if escaped then !IsAlphanumeric(c) else IsPlain(c)
    case Class(body) => body != "" && ClassBody(body)
    case _ => true
  }

  predicate AllWellFormed(items: seq<Item>) {
    forall i :: 0 <= i < |items| ==> WellFormed(items[i])
  }

  lemma StepWellFormed(line: string, dot: bool)
    requires line != ""
    ensures StepOf(line, dot).Take? ==> WellFormed(StepOf(line, dot).item)
  {
    if line[0] == '[' && ScanClass(line[1..]).Some? {
      ScannedBody(line[1..]);
      assert line[1..][..ScanClass(line[1..]).value] == line[1..ScanClass(line[1..]).value + 1];
    }
  }

  lemma {:induction false} ReadWellFormed(line: string, dot: bool)
    ensures ReadGlob(line, dot).Ok? ==> AllWellFormed(ReadGlob(line, dot).value.0)
    decreases |line|
  {
    hide StepOf, WellFormed;
    if line != "" {
      StepWellFormed(line, dot);
      var step := StepOf(line, dot);
      if step.Take? {
        ReadWellFormed(line[step.length..], dot);
      }
    }
  }

  // ---- reading undoes writing ----

  /** How a piece is written in a pattern. */
  function PieceText(item: Item): string {
    match item
    case Lit(c, escaped) => if escaped then ['\\', c] else [c]
    case AnyChar => "?"
    case AnyStar => "*"
    case Class(body) => "[" + body + "]"
    case Dollar => "$"
  }

  function GlobText(items: seq<Item>): string {
    if items == [] then "" else PieceText(items[0]) + GlobText(items[1..])
  }

  predicate LetterOrDigit(c: char) {
    'a' <= c <= 'z' || 'A' <= c <= 'Z' || '0' <= c <= '9'
  }

  /** Letters, digits, the underscore and what is not ASCII stand for themselves, and
      letters and digits take no backslash. */
  predicate Writable(item: Item) {
    match item
    case Lit(c, escaped) => if escaped then !LetterOrDigit(c) else LetterOrDigit(c) || c == '_' || c as int >= 0x80
    case Class(body) => body != "" && ClassBody(body)
    case _ => true
  }

  predicate AllWritable(items: seq<Item>) {
    forall i :: 0 <= i < |items| ==> Writable(items[i])
  }

  lemma WritableIs(item: Item)
    ensures Writable(item) <==> WellFormed(item)
  {
    hide ClassBody;
  }

  /** Where a pattern ends: at its end, or at the dot in front of the table. */
  predicate PatternEnds(rest: string, dot: bool) {
    rest == "" || (dot && rest[0] == '.')
  }

  lemma {:induction false} ScanBody(w: string, rest: string)
    requires ClassBody(w)
    ensures ScanClass(w + ("]" + rest)) == Some(|w|)
  {
    hide IsAlphanumeric;
    var s := w + ("]" + rest);
    if w == "" {
      assert s[0] == ']';
    } else if w[0] == '\\' {
      assert s[2..] == w[2..] + ("]" + rest) && s[1] == w[1];
      ScanBody(w[2..], rest);
    } else {
      assert s[1..] == w[1..] + ("]" + rest);
      ScanBody(w[1..], rest);
    }
  }

  lemma StepReads(item: Item, rest: string, dot: bool)
    requires WellFormed(item)
    ensures var line := PieceText(item) + rest;
            line != "" && StepOf(line, dot) == Take(item, |PieceText(item)|) && line[|PieceText(item)|..] == rest
  {
    var line := PieceText(item) + rest;
    if item.Class? {
      assert line[1..] == item.body + ("]" + rest);
      ScanBody(item.body, rest);
      assert line[1..|item.body| + 1] == item.body;
      hide ScanClass, ClassBody;
    } else if item.Lit? && !item.escaped {
      PlainIsNotMeta(item.c);
    }
  }

  lemma StepIsText(line: string, dot: bool)
    requires line != "" && StepOf(line, dot).Take?
    ensures var step := StepOf(line, dot); line == PieceText(step.item) + line[step.length..]
  {
    hide ScanClass, IsAlphanumeric, IsPlain;
    if line[0] == '[' {
      var n := ScanClass(line[1..]).value;
      assert line == "[" + line[1..n + 1] + "]" + line[n + 2..];
    } else if line[0] == '\\' {
      assert line == [line[0], line[1]] + line[2..];
    } else {
      assert line == [line[0]] + line[1..];
    }
  }

  lemma {:induction false} ReadsItsText(items: seq<Item>, rest: string, dot: bool)
    requires AllWellFormed(items) && PatternEnds(rest, dot)
    ensures ReadGlob(GlobText(items) + rest, dot) == Ok((items, rest))
    decreases |items|
  {
    hide StepOf, PieceText, WellFormed;
    if items == [] {
      assert "" + rest == rest;
      EndsAtOnce(rest, dot);
    } else {
      var tail := GlobText(items[1..]) + rest;
      ReadsItsText(items[1..], rest, dot);
      Regroup(PieceText(items[0]), GlobText(items[1..]), rest);
      StepReads(items[0], tail, dot);
      assert items == [items[0]] + items[1..];
    }
  }

  lemma EndsAtOnce(rest: string, dot: bool)
    requires PatternEnds(rest, dot)
    ensures ReadGlob(rest, dot) == Ok(([], rest))
  {
  }

  lemma {:induction false} TextOfRead(line: string, dot: bool)
    requires ReadGlob(line, dot).Ok?
    ensures var (items, rest) := ReadGlob(line, dot).value;
            line == GlobText(items) + rest && AllWellFormed(items) && PatternEnds(rest, dot)
    decreases |line|
  {
    ReadWellFormed(line, dot);
    hide PieceText, AllWellFormed;
    if line != "" {
      StepEnds(line, dot);
      hide StepOf;
      var step := StepOf(line, dot);
      if step.Take? {
        StepIsText(line, dot);
        TextOfRead(line[step.length..], dot);
        var (more, rest) := ReadGlob(line[step.length..], dot).value;
        assert ([step.item] + more)[1..] == more;
        Regroup(PieceText(step.item), GlobText(more), rest);
      } else {
        assert GlobText([]) + line == line;
      }
    }
  }

  lemma StepEnds(line: string, dot: bool)
    requires line != ""
    ensures StepOf(line, dot).End? ==> PatternEnds(line, dot)
  {
  }

  /** A line is accepted with these pieces and this rest exactly when it is what they
      are written as: pieces that can be written, up to the end or a dot. */
  lemma GlobReadsIff(line: string, dot: bool, items: seq<Item>, rest: string)
    ensures ReadGlob(line, dot) == Ok((items, rest))
       <==> line == GlobText(items) + rest && AllWritable(items) && PatternEnds(rest, dot)
  {
    forall i | 0 <= i < |items| ensures Writable(items[i]) <==> WellFormed(items[i]) {
      WritableIs(items[i]);
    }
    hide ReadGlob, GlobText, WellFormed, Writable, PatternEnds;
    assert AllWritable(items) <==> AllWellFormed(items);
    if ReadGlob(line, dot) == Ok((items, rest)) {
      TextOfRead(line, dot);
    }
    if line == GlobText(items) + rest && AllWellFormed(items) && PatternEnds(rest, dot) {
      ReadsItsText(items, rest, dot);
    }
  }

  // ---- where a class ends ----

  lemma CharInBody(w: string, rest: string)
    requires ClassBody(w) && w != ""
    ensures CharLength(w + ("]" + rest)) == CharLength(w)
    ensures CharLength(w).Some? ==> ClassBody(w[CharLength(w).value..])
  {
    hide IsAlphanumeric;
  }

  /** A member of a class is read the same with the bracket behind the body. */
  lemma MemberInBody(w: string, rest: string)
    requires ClassBody(w) && w != ""
    ensures MemberLength(w + ("]" + rest)) == MemberLength(w)
    ensures MemberLength(w).Some? ==> ClassBody(w[MemberLength(w).value..])
  {
    var s := w + ("]" + rest);
    CharInBody(w, rest);
    hide ClassBody, CharLength;
    if CharLength(w).Some? {
      var n := CharLength(w).value;
      if n < |w| && w[n] == '-' {
        DashInBody(w[n..]);
        assert w[n..][1..] == w[n + 1..];
        if n + 1 < |w| {
          assert w[n + 1] == w[n + 1..][0];
          assert s[n + 1..] == w[n + 1..] + ("]" + rest);
          CharInBody(w[n + 1..], rest);
          if CharLength(w[n + 1..]).Some? {
            var m := CharLength(w[n + 1..]).value;
            assert w[n + 1..][m..] == w[n + 1 + m..];
          }
        }
      }
    }
  }

  lemma DashInBody(w: string)
    requires ClassBody(w) && w != "" && w[0] == '-'
    ensures ClassBody(w[1..]) && (|w| > 1 ==> w[1..][0] != ']')
  {
  }

  /** `t` begins with the body `w` and its bracket. */
  predicate Opens(w: string, t: string) {
    |t| > |w| && t[|w|] == ']' && forall i :: 0 <= i < |w| ==> t[i] == w[i]
  }

  lemma BodyOpens(w: string, rest: string)
    ensures Opens(w, w + ("]" + rest)) && (w + ("]" + rest))[|w| + 1..] == rest
  {
  }

  /** A ":]" behind a body is not inside it. */
  lemma CloseBehindBody(w: string, t: string, j: nat)
    requires ClassBody(w) && Opens(w, t)
    requires j + 1 < |t| && t[j] == ':' && t[j + 1] == ']'
    ensures j + 1 >= |w| && (j + 1 == |w| ==> w[|w| - 1] == ':') && j != |w|
  {
    hide ClassBody;
    if j + 1 < |w| {
      BracketIsEscaped(w, j + 1);
    }
  }

  lemma CloseAt(t: string, j: nat)
    requires 2 <= j && j + 1 < |t| && t[j] == ':' && t[j + 1] == ']'
    ensures FindClose(t[2..]).Some? && FindClose(t[2..]).value <= j - 2
  {
    assert t[2..][j - 2] == ':' && t[2..][j - 1] == ']';
    hide FindClose;
  }

  lemma CloseFound(t: string)
    requires |t| >= 2 && FindClose(t[2..]).Some?
    ensures var j := FindClose(t[2..]).value + 2; j + 1 < |t| && t[j] == ':' && t[j + 1] == ']'
  {
    hide FindClose;
  }

  lemma BracketInside(t: string, i: nat, j: nat)
    requires 2 <= i < j <= |t| && t[i] == ']'
    ensures !PosixName(t[2..j])
  {
    assert t[2..j][i - 2] == t[i];
    BracketInName(t[2..j], i - 2);
    hide PosixName;
  }

  /** A class name that the body opens is closed by the bracket of the body, or spoils
      the class, or is none. */
  lemma NameInBody(w: string, t: string)
    requires ClassBody(w) && |w| >= 2 && Opens(w, t)
    ensures var r := FindClose(t[2..]);
            if |w| > 2 && w[|w| - 1] == ':' then r == Some(|w| - 3)
            else r.Some? ==> r.value + 2 <= |t| && !PosixName(t[2..r.value + 2])
  {
    hide *;
    hide Opens;
    BracketOpens(w, t);
    var r := FindClose(t[2..]);
    if |w| > 2 && w[|w| - 1] == ':' {
      ColonOpens(w, t);
      CloseAt(t, |w| - 1);
    }
    if r.Some? {
      var j := r.value + 2;
      CloseFound(t);
      CloseBehindBody(w, t, j);
      if j > |w| {
        BracketInside(t, |w|, j);
      }
    }
  }

  lemma ColonOpens(w: string, t: string)
    requires w != "" && Opens(w, t)
    ensures |t| > |w| && t[|w| - 1] == w[|w| - 1] && t[|w|] == ']'
  {
  }

  lemma BracketOpens(w: string, t: string)
    requires Opens(w, t)
    ensures |t| > |w| && t[|w|] == ']'
  {
  }

  lemma MemberStep(t: string, first: bool)
    requires t != "" && (t[0] != ']' || first)
    requires |t| > 2 && t[0] == '[' && t[1] == ':' ==> FindClose(t[2..]).None?
    ensures ReadSet(t, first)
         == match MemberLength(t)
            case None => None
            case Some(n) => Shift(n, ReadSet(t[n..], false))
  {
  }

  lemma NameStep(t: string, first: bool)
    requires |t| > 2 && t[0] == '[' && t[1] == ':' && FindClose(t[2..]).Some?
    ensures var n := FindClose(t[2..]).value;
            ReadSet(t, first) == if PosixName(t[2..n + 2]) then Shift(n + 4, ReadSet(t[n + 4..], false)) else None
  {
  }

  /** A bracket at the very start is a member. */
  lemma BracketStep(rest: string)
    requires rest == "" || rest[0] != '-'
    ensures ReadSet("]" + rest, true) == Shift(1, ReadSet(rest, false))
    ensures ReadSet("]" + rest, false) == Some(0)
  {
    var t := "]" + rest;
    assert t[1..] == rest && (rest != "" ==> t[1] == rest[0]);
    assert MemberLength(t) == Some(1);
    MemberStep(t, true);
  }

  /** A class ends at the bracket behind its body or, if it does not end itself,
      where a class would end that had begun behind that bracket. */
  lemma {:induction false} BodyRun(w: string, rest: string, first: bool)
    requires ClassBody(w) && (rest == "" || rest[0] != '-')
    ensures var r := ReadSet(w + ("]" + rest), first);
            r.None? || r == if Ends(w, first) then Some(|w|) else Shift(|w| + 1, ReadSet(rest, false))
    decreases |w|
  {
    hide *;
    hide Ends;
    var t := w + ("]" + rest);
    BodyOpens(w, rest);
    if w == "" {
      assert t == "]" + rest;
      BracketStep(rest);
      EmptyEnds(first);
    } else {
      BodyStarts(w);
      HeadOpens(w, t);
      if |w| > 1 && w[0] == '[' && w[1] == ':' && FindClose(t[2..]).Some? {
        NamedRun(w, rest, first);
      } else {
        if |w| > 2 && w[0] == '[' && w[1] == ':' {
          NameInBody(w, t);
        }
        MemberInBody(w, rest);
        MemberStep(t, first);
        if MemberLength(t).Some? {
          var n := MemberLength(t).value;
          BodyFrom(w, rest, n);
          BodyRun(w[n..], rest, false);
          EndsStep(w, first);
          Shifted(n, |w[n..]|, ReadSet(rest, false));
        }
      }
    }
  }

  lemma HeadOpens(w: string, t: string)
    requires w != "" && Opens(w, t)
    ensures |t| > |w| && t[0] == w[0] && t[1] == if |w| == 1 then ']' else w[1]
  {
  }

  lemma BodyFrom(w: string, rest: string, n: nat)
    requires n <= |w|
    ensures (w + ("]" + rest))[n..] == w[n..] + ("]" + rest)
  {
  }

  lemma EmptyEnds(first: bool)
    ensures Ends("", first) == !first
  {
  }

  lemma Shifted(n: nat, k: nat, r: Option<nat>)
    ensures Shift(n, Some(k)) == Some(n + k) && Shift(n, Shift(k + 1, r)) == Shift(n + k + 1, r) && Shift(n, None).None?
  {
  }

  lemma NamedRun(w: string, rest: string, first: bool)
    requires ClassBody(w) && |w| > 1 && w[0] == '[' && w[1] == ':'
    requires FindClose((w + ("]" + rest))[2..]).Some?
    ensures var r := ReadSet(w + ("]" + rest), first);
            r.None? || (!Ends(w, first) && r == Shift(|w| + 1, ReadSet(rest, false)))
  {
    var t := w + ("]" + rest);
    BodyOpens(w, rest);
    assert t[0] == w[0] && t[1] == w[1] && |t| > 2;
    hide *;
    NameInBody(w, t);
    NameStep(t, first);
    if |w| > 2 && w[|w| - 1] == ':' {
      NeverEnds(w, first);
    }
  }

  lemma NeverEnds(w: string, first: bool)
    requires |w| > 2 && w[0] == '[' && w[1] == ':' && w[|w| - 1] == ':'
    ensures !Ends(w, first)
  {
  }

  lemma BodyStarts(w: string)
    requires ClassBody(w) && w != ""
    ensures w[0] != ']'
  {
  }

  lemma EndsStep(w: string, first: bool)
    requires w != "" && MemberLength(w).Some?
    requires !(|w| > 2 && w[0] == '[' && w[1] == ':' && w[|w| - 1] == ':')
    ensures Ends(w, first) == Ends(w[MemberLength(w).value..], false)
  {
  }

  // ---- a class that runs on ----

  /** No emitted text begins with a `-` or a `*`. */
  lemma Unstarred(items: seq<Item>)
    requires AllWellFormed(items)
    ensures var s := RegexText(items) + "$"; s != "" && s[0] != '-' && s[0] != '*'
  {
    if items != [] {
      assert WellFormed(items[0]);
      assert ItemText(items[0]) != "" && ItemText(items[0])[0] != '-' && ItemText(items[0])[0] != '*';
    }
  }

  lemma TextSplits(items: seq<Item>)
    requires items != [] && AllWellFormed(items)
    ensures RegexText(items) + "$" == ItemText(items[0]) + (RegexText(items[1..]) + "$")
    ensures WellFormed(items[0]) && AllWellFormed(items[1..])
  {
    Regroup(ItemText(items[0]), RegexText(items[1..]), "$");
    hide ItemText, RegexText, WellFormed;
  }

  /** Outside its own class a text is skipped character by character. */
  lemma PlainSkipped(item: Item, rest: string)
    requires WellFormed(item) && !item.Class? && rest != "" && rest[0] != '-'
    ensures var s := ItemText(item) + rest;
            ReadSet(s, false).None? || ReadSet(s, false) == Shift(|ItemText(item)|, ReadSet(rest, false))
  {
    match item
    case Lit(c, escaped) =>
      if escaped && c as int < 0x80 {
        EscapeSkipped(c, rest);
      } else {
        CharSkipped(c, rest);
      }
    case AnyChar => CharSkipped('.', rest);
    case AnyStar =>
      CharSkipped('*', rest);
      CharSkipped('.', "*" + rest);
      assert ".*" + rest == "." + ("*" + rest);
    case Dollar => CharSkipped('$', rest);
  }

  lemma CharSkipped(c: char, rest: string)
    requires c !in "[]\\" && rest != "" && rest[0] != '-'
    ensures ReadSet([c] + rest, false) == Shift(1, ReadSet(rest, false))
  {
    var t := [c] + rest;
    assert t[0] == c && t[1] == rest[0] && t[1..] == rest;
    MemberStep(t, false);
    hide ReadSet;
  }

  lemma EscapeSkipped(c: char, rest: string)
    requires rest != "" && rest[0] != '-'
    ensures var t := ['\\', c] + rest;
            ReadSet(t, false).None? || ReadSet(t, false) == Shift(2, ReadSet(rest, false))
  {
    var t := ['\\', c] + rest;
    assert t[0] == '\\' && t[1] == c && t[2] == rest[0] && t[2..] == rest;
    MemberStep(t, false);
    hide ReadSet, IsAlphanumeric;
  }

  /** What reading on over a class comes to: its own bracket, or beyond. */
  lemma ClassSkipped(item: Item, rest: string)
    requires WellFormed(item) && item.Class? && rest != "" && rest[0] != '-'
    ensures var s := ItemText(item) + rest;
            || ReadSet(s, false).None?
            || ReadSet(s, false) == Some(|ItemText(item)| - 1)
            || ReadSet(s, false) == Shift(|ItemText(item)|, ReadSet(rest, false))
  {
    var w := "[" + ClassInner(item.body);
    OpenedBody(item.body);
    assert ItemText(item) + rest == w + ("]" + rest);
    hide ReadSet, ClassBody, ClassInner;
    BodyRun(w, rest, false);
  }

  lemma OpenedBody(body: string)
    requires body != "" && ClassBody(body)
    ensures ClassBody("[" + ClassInner(body))
  {
    MembersAreBody(body);
    var m := Members(body);
    assert ("[" + m)[1..] == m && ("^" + m)[1..] == m && ("[" + ("^" + m))[1..] == "^" + m;
    assert "" + m == m;
    assert ClassBody("^" + m);
    hide Members, ClassInner;
  }

  /** A class that runs on ends at the bracket of a later one. */
  lemma {:induction false} RunEnds(items: seq<Item>) returns (k: nat)
    requires AllWellFormed(items) && ReadSet(RegexText(items) + "$", false).Some?
    ensures k < |items| && items[k].Class?
    ensures var s := RegexText(items) + "$";
            s[ReadSet(s, false).value + 1..] == RegexText(items[k + 1..]) + "$"
  {
    hide ReadSet, RegexText, ItemText, WellFormed, MemberLength;
    if items == [] {
      NothingRuns();
      assert false;
    } else {
      TextSplits(items);
      Unstarred(items[1..]);
      var rest := RegexText(items[1..]) + "$";
      var text := ItemText(items[0]);
      var s := text + rest;
      if items[0].Class? {
        ClassSkipped(items[0], rest);
        TextEnds(items[0]);
        if ReadSet(s, false) == Some(|text| - 1) {
          k := 0;
          assert s[|text|..] == rest;
          return;
        }
      } else {
        PlainSkipped(items[0], rest);
      }
      var later := RunEnds(items[1..]);
      k := later + 1;
      var n := ReadSet(rest, false).value;
      assert s[|text| + n + 1..] == rest[n + 1..];
      assert items[1..][later + 1..] == items[k + 1..];
    }
  }

  lemma TextEnds(item: Item)
    ensures item.Class? ==> |ItemText(item)| >= 2
  {
  }

  lemma NothingRuns()
    ensures ReadSet(RegexText([]) + "$", false).None?
  {
    assert "" + "$" == "$" && "$"[1..] == "";
    assert MemberLength("$") == Some(1);
  }

  // ---- the emitted text is read as meant, or runs on ----

  lemma NodesChr(c: char, rest: string)
    ensures !IsMeta(c) && c !in "\\.$" ==> ReadNodes([c] + rest) == ConsNode(Chr(c), ReadNodes(rest))
    ensures !IsAlphanumeric(c) && c as int < 0x80 ==> ReadNodes(['\\', c] + rest) == ConsNode(Chr(c), ReadNodes(rest))
  {
    assert ([c] + rest)[1..] == rest && (['\\', c] + rest)[2..] == rest;
    hide IsAlphanumeric, ReadSet;
  }

  lemma NodesDots(rest: string)
    ensures ReadNodes(".*" + rest) == ConsNode(DotStar, ReadNodes(rest))
    ensures rest == "" || rest[0] != '*' ==> ReadNodes("." + rest) == ConsNode(Dot, ReadNodes(rest))
    ensures ReadNodes("$" + rest) == ConsNode(AtEnd, ReadNodes(rest))
  {
    assert (".*" + rest)[2..] == rest && ("." + rest)[1..] == rest && ("$" + rest)[1..] == rest;
    hide IsAlphanumeric, ReadSet, IsMeta;
  }

  /** The node of a class whose text behind the sign is `t`. */
  function SetRead(sign: string, t: string): Option<seq<Node>> {
    match ReadSet(t, true)
    case None => None
    case Some(n) => ConsNode(Set(sign + t[..n]), ReadNodes(t[n + 1..]))
  }

  lemma NodesBracket(s: string)
    requires s != "" && s[0] == '['
    ensures var k := if |s| >= 2 && s[1] == '^' then 2 else 1;
            ReadNodes(s) == match ReadSet(s[k..], true)
                            case None => None
                            case Some(n) => ConsNode(Set(s[1..k + n]), ReadNodes(s[k + n + 1..]))
  {
    hide ReadSet, IsAlphanumeric, IsMeta;
  }

  lemma NodesSet(t: string)
    requires t == "" || t[0] != '^'
    ensures ReadNodes("[" + t) == SetRead("", t)
  {
    hide ReadNodes, ReadSet;
    PlainParts(t, 0);
    NodesBracket("[" + t);
    if ReadSet(t, true).Some? {
      PlainParts(t, ReadSet(t, true).value);
    }
  }

  lemma PlainParts(t: string, n: nat)
    requires n <= |t| && (t == "" || t[0] != '^')
    ensures var s := "[" + t;
            && s[0] == '[' && (|s| < 2 || s[1] != '^') && s[1..] == t
            && s[1..1 + n] == "" + t[..n] && (n < |t| ==> s[1 + n + 1..] == t[n + 1..])
  {
  }

  lemma NodesNegatedSet(t: string)
    ensures ReadNodes("[^" + t) == SetRead("^", t)
  {
    hide ReadNodes, ReadSet;
    NodesBracket("[^" + t);
    NegatedParts(t, 0);
    if ReadSet(t, true).Some? {
      NegatedParts(t, ReadSet(t, true).value);
    }
  }

  lemma NegatedParts(t: string, n: nat)
    requires n <= |t|
    ensures var s := "[^" + t;
            && |s| == |t| + 2 && s[0] == '[' && s[1] == '^' && s[2..] == t
            && s[1..2 + n] == "^" + t[..n] && (n < |t| ==> s[2 + n + 1..] == t[n + 1..])
  {
  }

  function Sign(body: string): string {
    if body != "" && body[0] == '!' then "^" else ""
  }

  lemma ClassText(sign: string, w: string, rest: string)
    ensures "[" + (sign + w) + "]" + rest == ("[" + sign) + (w + ("]" + rest))
  {
  }

  lemma ClassNodes(item: Item, rest: string)
    requires WellFormed(item) && item.Class?
    ensures ReadNodes(ItemText(item) + rest) == SetRead(Sign(item.body), Members(item.body) + ("]" + rest))
  {
    var w := Members(item.body);
    var t := w + ("]" + rest);
    MembersAreBody(item.body);
    ClassText(Sign(item.body), w, rest);
    hide ReadNodes, ReadSet, SetRead, ClassBody, Members, ClassInner;
    assert "[" + "" == "[" && "[" + "^" == "[^";
    if item.body[0] == '!' {
      NodesNegatedSet(t);
    } else {
      NodesSet(t);
    }
  }

  lemma PlainIsNotMeta(c: char)
    requires IsPlain(c) || c as int >= 0x80
    ensures !IsMeta(c) && c !in "\\.$" && c != '*'
  {
  }

  lemma PlainReads(item: Item, rest: string)
    requires WellFormed(item) && !item.Class?
    requires rest == "" || rest[0] != '*'
    ensures ReadNodes(ItemText(item) + rest) == ConsNode(NodeOf(item), ReadNodes(rest))
  {
    match item
    case Lit(c, escaped) =>
      NodesChr(c, rest);
      if !escaped || c as int >= 0x80 {
        PlainIsNotMeta(c);
      }
      hide ReadNodes, IsMeta, IsAlphanumeric, IsPlain;
    case _ =>
      NodesDots(rest);
      hide ReadNodes;
  }

  /** A class that ends itself is read as one node. */
  lemma ClassReads(item: Item, rest: string)
    requires WellFormed(item) && item.Class? && EndsItself(item)
    requires rest == "" || rest[0] != '-'
    ensures var r := ReadNodes(ItemText(item) + rest);
            r.None? || r == ConsNode(NodeOf(item), ReadNodes(rest))
  {
    var w := Members(item.body);
    var t := w + ("]" + rest);
    MembersAreBody(item.body);
    ClassNodes(item, rest);
    NodeOfClass(item);
    ItEnds(item);
    hide *;
    hide Members, Sign;
    BodyRun(w, rest, true);
    BodyIs(w, rest);
    if SetRead(Sign(item.body), t).Some? {
      SetReadParts(Sign(item.body), t);
    }
  }

  lemma BodyIs(w: string, rest: string)
    ensures (w + ("]" + rest))[..|w|] == w && (w + ("]" + rest))[|w| + 1..] == rest
  {
  }

  lemma NodeOfClass(item: Item)
    requires WellFormed(item) && item.Class?
    ensures NodeOf(item) == Set(Sign(item.body) + Members(item.body))
  {
    MembersAreBody(item.body);
  }

  lemma ItEnds(item: Item)
    requires item.Class?
    ensures EndsItself(item) <==> Ends(Members(item.body), true)
  {
  }

  /** One that does not swallows the text up to the end of a later class. */
  lemma ClassRunsOn(item: Item, later: seq<Item>) returns (inner: string, k: nat)
    requires WellFormed(item) && item.Class? && !EndsItself(item) && AllWellFormed(later)
    requires ReadNodes(ItemText(item) + (RegexText(later) + "$")).Some?
    ensures k < |later| && later[k].Class?
    ensures ReadNodes(ItemText(item) + (RegexText(later) + "$"))
         == ConsNode(Set(inner), ReadNodes(RegexText(later[k + 1..]) + "$"))
  {
    var rest := RegexText(later) + "$";
    Unstarred(later);
    MembersAreBody(item.body);
    ClassNodes(item, rest);
    ItEnds(item);
    hide *;
    hide Members, Sign;
    inner := SetRunsOn(Sign(item.body), Members(item.body), rest);
    k := RunEnds(later);
  }

  lemma SetRunsOn(sign: string, w: string, rest: string) returns (inner: string)
    requires ClassBody(w) && !Ends(w, true) && rest != "" && rest[0] != '-'
    requires SetRead(sign, w + ("]" + rest)).Some?
    ensures ReadSet(rest, false).Some?
    ensures SetRead(sign, w + ("]" + rest)) == ConsNode(Set(inner), ReadNodes(rest[ReadSet(rest, false).value + 1..]))
  {
    hide *;
    BodyRun(w, rest, true);
    var t := w + ("]" + rest);
    SetReadParts(sign, t);
    ShiftParts(|w| + 1, ReadSet(rest, false));
    var n := ReadSet(t, true).value;
    TailOf(w, rest, n + 1);
    inner := sign + t[..n];
  }

  lemma SetReadParts(sign: string, t: string)
    requires SetRead(sign, t).Some?
    ensures ReadSet(t, true).Some?
    ensures var n := ReadSet(t, true).value; SetRead(sign, t) == ConsNode(Set(sign + t[..n]), ReadNodes(t[n + 1..]))
  {
    hide ReadSet, ReadNodes;
  }

  lemma ShiftParts(n: nat, r: Option<nat>)
    requires Shift(n, r).Some?
    ensures r.Some? && Shift(n, r).value == n + r.value
  {
  }

  lemma TailOf(w: string, rest: string, n: nat)
    requires |w| + 1 <= n <= |w| + 1 + |rest|
    ensures (w + ("]" + rest))[n..] == rest[n - |w| - 1..]
  {
  }

  predicate NoClass(items: seq<Item>) {
    forall i :: 0 <= i < |items| ==> !items[i].Class?
  }

  lemma NodesNothing()
    ensures ReadNodes(RegexText([]) + "$") == Some([AtEnd])
  {
    NodesDots("");
    assert "" + "$" == "$" && "$" + "" == "$";
    assert [AtEnd] + [] == [AtEnd];
    assert ReadNodes("") == Some([]);
  }

  lemma {:induction false} TextReads(items: seq<Item>)
    requires AllWellFormed(items) && AllEnd(items)
    ensures var r := ReadNodes(RegexText(items) + "$");
            r == Some(NodesOf(items)) || (r.None? && !NoClass(items))
  {
    hide ReadNodes, ItemText, WellFormed, EndsItself, RegexText;
    if items == [] {
      NodesNothing();
    } else {
      TextSplits(items);
      Unstarred(items[1..]);
      TextReads(items[1..]);
      var rest := RegexText(items[1..]) + "$";
      assert EndsItself(items[0]);
      if items[0].Class? {
        ClassReads(items[0], rest);
      } else {
        PlainReads(items[0], rest);
      }
    }
  }

  /** The emitted regular expression, if it is one, is read back as the pieces of the
      glob when all classes end themselves; without classes it always is one. */
  lemma RegexReads(items: seq<Item>)
    requires AllWellFormed(items) && AllEnd(items)
    ensures var r := ReadRegex(HEAD + RegexText(items) + "$");
            && (r.Some? ==> r.value == NodesOf(items))
            && (NoClass(items) ==> r.Some?)
  {
    TextReads(items);
    RegexTail(items);
    hide ReadNodes, NodesOf, RegexText;
  }

  lemma RegexTail(items: seq<Item>)
    ensures ReadRegex(HEAD + RegexText(items) + "$") == ReadNodes(RegexText(items) + "$")
  {
    var text := HEAD + RegexText(items) + "$";
    assert text[|HEAD|..] == RegexText(items) + "$";
    hide ReadNodes, RegexText;
  }

  // ---- the two languages ----

  predicate NoDollar(items: seq<Item>) {
    forall i :: 0 <= i < |items| ==> !items[i].Dollar?
  }

  /** Without a bare `$` the nodes of the pieces accept what the glob accepts. */
  lemma {:induction false} SameLanguage(cls: ClassOf, items: seq<Item>, name: string)
    requires NoDollar(items)
    ensures RegexAccepts(cls, NodesOf(items), name) == GlobAccepts(cls, items, name)
    decreases |items| + |name|
  {
    if items == [] {
      assert [AtEnd][1..] == [];
    } else {
      assert NodesOf(items)[1..] == NodesOf(items[1..]);
      if items[0].AnyStar? {
        SameLanguage(cls, items[1..], name);
        if name != "" {
          SameLanguage(cls, items, name[1..]);
        }
      } else if name != "" {
        SameLanguage(cls, items[1..], name[1..]);
      }
    }
  }

  /** A literal stands for itself, `$` included. */
  lemma {:induction false} LiteralMeans(cls: ClassOf, items: seq<Item>, name: string)
    requires IsLiteral(items)
    ensures GlobAccepts(cls, items, name) <==> name == LiteralText(items)
  {
    if items != [] {
      assert IsLiteral(items[1..]);
      if name != "" {
        LiteralMeans(cls, items[1..], name[1..]);
        ConsEqual(if items[0].Lit? then items[0].c else '$', LiteralText(items[1..]), name);
      }
    }
  }

  /** How long a name must be for the glob, and for the nodes. */
  function Need(items: seq<Item>): nat {
    if items == [] then 0 else (if items[0].AnyStar? then 0 else 1) + Need(items[1..])
  }

  function NodesNeed(nodes: seq<Node>): nat {
    if nodes == [] then 0 else (if nodes[0].DotStar? || nodes[0].AtEnd? then 0 else 1) + NodesNeed(nodes[1..])
  }

  lemma {:induction false} GlobNeeds(cls: ClassOf, items: seq<Item>, name: string)
    requires GlobAccepts(cls, items, name)
    ensures |name| >= Need(items)
    decreases |items| + |name|
  {
    if items != [] {
      if items[0].AnyStar? {
        if GlobAccepts(cls, items[1..], name) {
          GlobNeeds(cls, items[1..], name);
        } else {
          GlobNeeds(cls, items, name[1..]);
        }
      } else {
        GlobNeeds(cls, items[1..], name[1..]);
      }
    }
  }

  /** A name for the pieces, `pick` choosing from the classes. */
  function Sample(pick: string -> char, items: seq<Item>): string {
    if items == [] then ""
    else
      (match items[0]
       case Lit(c, _) => [c]
       case AnyChar => "a"
       case AnyStar => ""
       case Class(body) => [pick(ClassInner(body))]
       case Dollar => "$") + Sample(pick, items[1..])
  }

  predicate Picks(cls: ClassOf, pick: string -> char, items: seq<Item>) {
    forall i :: 0 <= i < |items| && items[i].Class? ==> cls(ClassInner(items[i].body), pick(ClassInner(items[i].body)))
  }

  lemma {:induction false} SampleAccepted(cls: ClassOf, pick: string -> char, items: seq<Item>)
    requires Picks(cls, pick, items)
    ensures GlobAccepts(cls, items, Sample(pick, items)) && |Sample(pick, items)| == Need(items)
  {
    if items != [] {
      assert items[0].Class? ==> cls(ClassInner(items[0].body), pick(ClassInner(items[0].body)));
      SampleAccepted(cls, pick, items[1..]);
      var rest := Sample(pick, items[1..]);
      if items[0].AnyStar? {
        assert "" + rest == rest;
      } else {
        assert Sample(pick, items)[1..] == rest;
      }
    }
  }

  /** Nodes that accept the empty name. */
  predicate Nullable(nodes: seq<Node>) {
    nodes == [] || ((nodes[0].DotStar? || nodes[0].AtEnd?) && Nullable(nodes[1..]))
  }

  lemma {:induction false} AcceptsNothing(cls: ClassOf, nodes: seq<Node>)
    ensures RegexAccepts(cls, nodes, "") <==> Nullable(nodes)
  {
    if nodes != [] {
      AcceptsNothing(cls, nodes[1..]);
    }
  }

  /** Nothing is asked for behind the first end assertion. */
  predicate Satisfiable(nodes: seq<Node>) {
    nodes == [] || (if nodes[0].AtEnd? then Nullable(nodes[1..]) else Satisfiable(nodes[1..]))
  }

  /** A name for the nodes in front of the first end assertion. */
  function NodeSample(pick: string -> char, nodes: seq<Node>): string {
    if nodes == [] || nodes[0].AtEnd? then ""
    else
      (match nodes[0]
       case Chr(c) => [c]
       case Dot => "a"
       case Set(inner) => [pick(inner)]
       case _ => "") + NodeSample(pick, nodes[1..])
  }

  predicate NodePicks(cls: ClassOf, pick: string -> char, nodes: seq<Node>) {
    forall i :: 0 <= i < |nodes| && nodes[i].Set? ==> cls(nodes[i].inner, pick(nodes[i].inner))
  }

  lemma {:induction false} NoneAccepted(cls: ClassOf, nodes: seq<Node>, name: string)
    requires !Satisfiable(nodes)
    ensures !RegexAccepts(cls, nodes, name)
    decreases |nodes| + |name|
  {
    if nodes[0].AtEnd? {
      AcceptsNothing(cls, nodes[1..]);
    } else if nodes[0].DotStar? {
      NoneAccepted(cls, nodes[1..], name);
      if name != "" {
        NoneAccepted(cls, nodes, name[1..]);
      }
    } else if name != "" {
      NoneAccepted(cls, nodes[1..], name[1..]);
    }
  }

  lemma {:induction false} NodeSampleAccepted(cls: ClassOf, pick: string -> char, nodes: seq<Node>)
    requires Satisfiable(nodes) && NodePicks(cls, pick, nodes)
    ensures RegexAccepts(cls, nodes, NodeSample(pick, nodes)) && |NodeSample(pick, nodes)| <= NodesNeed(nodes)
  {
    if nodes != [] {
      if nodes[0].AtEnd? {
        AcceptsNothing(cls, nodes[1..]);
      } else {
        assert nodes[0].Set? ==> cls(nodes[0].inner, pick(nodes[0].inner));
        NodeSampleAccepted(cls, pick, nodes[1..]);
        var rest := NodeSample(pick, nodes[1..]);
        if nodes[0].DotStar? {
          assert "" + rest == rest;
        } else {
          assert NodeSample(pick, nodes)[1..] == rest;
        }
      }
    }
  }

  /** Pieces that are translated as they are meant. */
  predicate Faithful(items: seq<Item>) {
    NoDollar(items) && AllEnd(items)
  }

  lemma FaithfulStep(items: seq<Item>)
    requires items != []
    ensures Faithful(items) <==> !items[0].Dollar? && EndsItself(items[0]) && Faithful(items[1..])
  {
    assert items == [items[0]] + items[1..];
    hide EndsItself;
    if !items[0].Dollar? && EndsItself(items[0]) && Faithful(items[1..]) {
      forall i | 0 <= i < |items| ensures !items[i].Dollar? && EndsItself(items[i]) {
        if i > 0 { assert items[i] == items[1..][i - 1]; }
      }
    }
    if Faithful(items) {
      forall i | 0 <= i < |items| - 1 ensures !items[1..][i].Dollar? && EndsItself(items[1..][i]) {
        assert items[1..][i] == items[i + 1];
      }
    }
  }

  lemma NeedStep(items: seq<Item>)
    requires items != []
    ensures Need(items) == (if items[0].AnyStar? then 0 else 1) + Need(items[1..])
  {
  }

  lemma {:induction false} NeedFrom(items: seq<Item>, k: nat)
    requires k < |items| && items[k].Class?
    ensures Need(items) >= 1 + Need(items[k + 1..])
  {
    NeedStep(items);
    if k > 0 {
      NeedFrom(items[1..], k - 1);
      assert items[1..][k..] == items[k + 1..];
    }
  }

  lemma NeedCons(n: Node, r: Option<seq<Node>>)
    requires r.Some?
    ensures ConsNode(n, r).Some?
    ensures NodesNeed(ConsNode(n, r).value) == (if n.DotStar? || n.AtEnd? then 0 else 1) + NodesNeed(r.value)
  {
    assert ([n] + r.value)[1..] == r.value;
  }

  /** The nodes ask for no longer names than the glob, and for shorter ones when a
      `$` ends the name early or a class swallows what follows it. */
  lemma {:induction false} NodesNeedLess(items: seq<Item>)
    requires AllWellFormed(items) && ReadNodes(RegexText(items) + "$").Some?
    ensures var need := NodesNeed(ReadNodes(RegexText(items) + "$").value);
            need <= Need(items) && (!Faithful(items) ==> need < Need(items))
    decreases |items|
  {
    if items == [] {
      NodesNothing();
      assert [AtEnd][1..] == [];
    } else {
      hide *;
      TextSplits(items);
      Unstarred(items[1..]);
      FaithfulStep(items);
      NeedStep(items);
      var rest := RegexText(items[1..]) + "$";
      if items[0].Class? && !EndsItself(items[0]) {
        var inner, k := ClassRunsOn(items[0], items[1..]);
        assert items[1..][k + 1..] == items[k + 2..];
        LaterWellFormed(items, k + 2);
        NodesNeedLess(items[k + 2..]);
        NeedCons(Set(inner), ReadNodes(RegexText(items[k + 2..]) + "$"));
        NeedFrom(items[1..], k);
      } else {
        ItemReads(items[0], rest);
        NodesNeedLess(items[1..]);
        NeedCons(NodeOf(items[0]), ReadNodes(rest));
        NodeKind(items[0]);
      }
    }
  }

  lemma LaterWellFormed(items: seq<Item>, k: nat)
    requires AllWellFormed(items) && k <= |items|
    ensures AllWellFormed(items[k..])
  {
    hide WellFormed;
  }

  lemma NodeKind(item: Item)
    ensures NodeOf(item).DotStar? <==> item.AnyStar?
    ensures NodeOf(item).AtEnd? <==> item.Dollar?
  {
  }

  lemma ItemReads(item: Item, rest: string)
    requires WellFormed(item) && EndsItself(item)
    requires rest == "" || (rest[0] != '*' && rest[0] != '-')
    ensures var r := ReadNodes(ItemText(item) + rest);
            (r.None? && item.Class?) || r == ConsNode(NodeOf(item), ReadNodes(rest))
    ensures ReadNodes(ItemText(item) + rest).Some? ==> ReadNodes(rest).Some?
  {
    hide *;
    if item.Class? {
      ClassReads(item, rest);
    } else {
      PlainReads(item, rest);
    }
    ConsNone(NodeOf(item), ReadNodes(rest));
  }

  lemma ConsNone(n: Node, r: Option<seq<Node>>)
    ensures ConsNode(n, r).Some? <==> r.Some?
  {
  }

  /** A name on which the glob and the regular expression disagree. */
  function Disputed(pick: string -> char, items: seq<Item>, nodes: seq<Node>): string {
    if Satisfiable(nodes) then NodeSample(pick, nodes) else Sample(pick, items)
  }

  /** A glob with a bare `$`, or with a class that does not end itself, means
      something else than what it is translated to. */
  lemma TranslationDiffers(cls: ClassOf, pick: string -> char, items: seq<Item>, nodes: seq<Node>)
    requires AllWellFormed(items) && ReadRegex(HEAD + RegexText(items) + "$") == Some(nodes) && !Faithful(items)
    requires Picks(cls, pick, items) && NodePicks(cls, pick, nodes)
    ensures var name := Disputed(pick, items, nodes);
            RegexAccepts(cls, nodes, name) != GlobAccepts(cls, items, name)
  {
    RegexTail(items);
    hide RegexAccepts, GlobAccepts, Faithful, Picks, NodePicks, AllWellFormed;
    hide ReadNodes, RegexText, Sample, NodeSample, Satisfiable, ReadRegex;
    NodesNeedLess(items);
    var name := Disputed(pick, items, nodes);
    if Satisfiable(nodes) {
      NodeSampleAccepted(cls, pick, nodes);
      if GlobAccepts(cls, items, name) {
        GlobNeeds(cls, items, name);
      }
    } else {
      NoneAccepted(cls, nodes, name);
      SampleAccepted(cls, pick, items);
    }
  }

  // ---- the whole translation ----

  /** The engine accepts no emitted text that is not a regular expression, and does
      on its syntax what that says. */
  ghost predicate Honest(e: Engine, cls: ClassOf) {
    && (forall items :: AllWellFormed(items) && e.valid(HEAD + RegexText(items) + "$") ==>
          ReadRegex(HEAD + RegexText(items) + "$").Some?)
    && forall text, name :: e.valid(text) && ReadRegex(text).Some? ==>
         (e.matches(text, name) <==> RegexAccepts(cls, ReadRegex(text).value, name))
  }

  lemma LoneStar(cls: ClassOf, name: string)
    ensures RegexAccepts(cls, [DotStar, AtEnd], name)
    decreases |name|
  {
    var nodes := [DotStar, AtEnd];
    assert nodes[1..] == [AtEnd] && [AtEnd][1..] == [];
    if name != "" {
      LoneStar(cls, name[1..]);
    }
  }

  lemma StarText()
    ensures ReadRegex("(?s)^.*$") == Some([DotStar, AtEnd])
  {
    NodesDots("$");
    NodesDots("");
    assert ReadNodes("") == Some([]);
    assert ".*" + "$" == ".*$" && "$" + "" == "$";
    assert "(?s)^.*$"[|HEAD|..] == ".*$";
    assert [AtEnd] + [] == [AtEnd] && [DotStar] + [AtEnd] == [DotStar, AtEnd];
    hide ReadNodes;
  }

  /** The nodes that a matcher goes by. */
  lemma BuiltReads(e: Engine, cls: ClassOf, items: seq<Item>, rest: string)
    requires Honest(e, cls) && AllWellFormed(items) && Built(e, items, rest).Ok? && !IsLiteral(items)
    ensures ReadRegex(HEAD + RegexText(items) + "$").Some?
  {
    var text := HEAD + RegexText(items) + "$";
    if text == "(?s)^.*$" {
      StarText();
    }
    hide ReadRegex, RegexAccepts, RegexText, AllWellFormed, IsLiteral;
  }

  /** The matcher made from the pieces accepts what their regular expression
      accepts, unless it is a literal. */
  lemma BuiltAccepts(e: Engine, cls: ClassOf, items: seq<Item>, rest: string, name: string)
    requires Honest(e, cls) && AllWellFormed(items) && Built(e, items, rest).Ok? && !IsLiteral(items)
    ensures ReadRegex(HEAD + RegexText(items) + "$").Some?
    ensures MatchString(e, Built(e, items, rest).value.0, name)
         == RegexAccepts(cls, ReadRegex(HEAD + RegexText(items) + "$").value, name)
  {
    BuiltReads(e, cls, items, rest);
    var text := HEAD + RegexText(items) + "$";
    if text == "(?s)^.*$" {
      StarText();
      LoneStar(cls, name);
    }
    hide ReadRegex, RegexAccepts, RegexText, AllWellFormed, IsLiteral;
  }

  /** What the matcher of the pieces goes by, and whether that is faithful. */
  function RegexOf(items: seq<Item>): Option<seq<Node>> {
    ReadRegex(HEAD + RegexText(items) + "$")
  }

  /** For every pattern that is accepted: its matcher accepts exactly what the glob
      means if it is a literal, or has no bare `$` and only classes that end at
      their own bracket; and where no class is empty, only then. */
  lemma WildcardMeaning(e: Engine, cls: ClassOf, line: string, dot: bool, pick: string -> char)
    requires Honest(e, cls) && Wildcard(e, line, dot).Ok?
    ensures var items := ReadGlob(line, dot).value.0;
            var m := Wildcard(e, line, dot).value.0;
            && (IsLiteral(items) || Faithful(items) ==> forall name :: MatchString(e, m, name) <==> GlobAccepts(cls, items, name))
            && (!IsLiteral(items) ==> RegexOf(items).Some?)
            && (!IsLiteral(items) && Picks(cls, pick, items) && NodePicks(cls, pick, RegexOf(items).value) ==>
                 (Faithful(items) <==> forall name :: MatchString(e, m, name) <==> GlobAccepts(cls, items, name)))
  {
    var (items, rest) := ReadGlob(line, dot).value;
    ReadWellFormed(line, dot);
    var m := Built(e, items, rest).value.0;
    hide ReadGlob, AllWellFormed, GlobAccepts, RegexAccepts, NoDollar, AllEnd, Picks, NodePicks;
    hide Honest, MatchString, ReadRegex, IsLiteral, RegexText, Built;
    if IsLiteral(items) {
      forall name ensures MatchString(e, m, name) <==> GlobAccepts(cls, items, name) {
        LiteralMeans(cls, items, name);
        LiteralBuilt(e, items, rest, name);
      }
    } else {
      BuiltReads(e, cls, items, rest);
      var nodes := RegexOf(items).value;
      if Faithful(items) {
        RegexReads(items);
        forall name ensures MatchString(e, m, name) <==> GlobAccepts(cls, items, name) {
          BuiltAccepts(e, cls, items, rest, name);
          SameLanguage(cls, items, name);
        }
      } else if Picks(cls, pick, items) && NodePicks(cls, pick, nodes) {
        var name := Disputed(pick, items, nodes);
        BuiltAccepts(e, cls, items, rest, name);
        TranslationDiffers(cls, pick, items, nodes);
      }
    }
  }

  lemma LiteralBuilt(e: Engine, items: seq<Item>, rest: string, name: string)
    requires IsLiteral(items)
    ensures Built(e, items, rest).Ok? && (MatchString(e, Built(e, items, rest).value.0, name) <==> name == LiteralText(items))
  {
  }

  /** The literal fast path and the regular expression built beside it agree on
      all names exactly when no bare `$` is among the characters. */
  lemma FastPathAgrees(cls: ClassOf, pick: string -> char, items: seq<Item>)
    requires IsLiteral(items) && AllWellFormed(items)
    ensures RegexOf(items).Some?
    ensures NoDollar(items) <==> forall name :: RegexAccepts(cls, RegexOf(items).value, name) <==> name == LiteralText(items)
  {
    LiteralClasses(items);
    hide AllWellFormed, GlobAccepts, RegexAccepts, AllEnd, ReadRegex, IsLiteral, RegexText, LiteralText, NoClass;
    RegexReads(items);
    var nodes := NodesOf(items);
    if NoDollar(items) {
      forall name ensures RegexAccepts(cls, nodes, name) <==> name == LiteralText(items) {
        SameLanguage(cls, items, name);
        LiteralMeans(cls, items, name);
      }
    } else {
      var name := Disputed(pick, items, nodes);
      NoSets(items);
      TranslationDiffers(cls, pick, items, nodes);
      LiteralMeans(cls, items, name);
    }
  }

  lemma LiteralClasses(items: seq<Item>)
    requires IsLiteral(items)
    ensures NoClass(items) && AllEnd(items)
  {
  }

  lemma {:induction false} NoSets(items: seq<Item>)
    requires NoClass(items)
    ensures forall cls, pick :: Picks(cls, pick, items)
    ensures forall i :: 0 <= i < |NodesOf(items)| ==> !NodesOf(items)[i].Set?
  {
    if items != [] {
      NoSets(items[1..]);
      NodeKind(items[0]);
    }
  }

  // ---- patterns on which the translation fails ----

  /** `[!][a]` is accepted and asks for two characters, but its regular expression
      is one class. */
  lemma RunOnExample(cls: ClassOf, name: string)
    ensures ReadGlob("[!][a]", true) == Ok(([Class("!"), Class("a")], ""))
    ensures RegexOf([Class("!"), Class("a")]) == Some([Set("^][a"), AtEnd])
    ensures |name| == 1 ==> !GlobAccepts(cls, [Class("!"), Class("a")], name)
    ensures |name| == 1 ==> (RegexAccepts(cls, [Set("^][a"), AtEnd], name) <==> cls("^][a", name[0]))
  {
    RunOnIsRead();
    RunOnIsOneClass();
    var items, nodes := [Class("!"), Class("a")], [Set("^][a"), AtEnd];
    hide ReadGlob, RegexOf;
    assert items[1..] == [Class("a")] && nodes[1..] == [AtEnd] && [AtEnd][1..] == [];
  }

  lemma RunOnIsRead()
    ensures ReadGlob("[!][a]", true) == Ok(([Class("!"), Class("a")], ""))
  {
    assert "[!][a]"[1..] == "!][a]" && "!][a]"[1..] == "][a]" && "[!][a]"[3..] == "[a]" && "[!][a]"[1..2] == "!";
    assert "[a]"[1..] == "a]" && "a]"[1..] == "]" && "[a]"[3..] == "" && "[a]"[1..2] == "a";
    assert ScanClass("][a]") == Some(0) && ScanClass("]") == Some(0);
    assert ScanClass("!][a]") == Some(1) && ScanClass("a]") == Some(1);
    assert StepOf("[!][a]", true) == Take(Class("!"), 3) && StepOf("[a]", true) == Take(Class("a"), 3);
    assert ReadGlob("", true) == Ok(([], ""));
    assert [Class("a")] + [] == [Class("a")] && [Class("!")] + [Class("a")] == [Class("!"), Class("a")];
    assert ReadGlob("[a]", true) == Ok(([Class("a")], ""));
  }

  lemma RunOnIsOneClass()
    ensures RegexOf([Class("!"), Class("a")]) == Some([Set("^][a"), AtEnd])
  {
    var items := [Class("!"), Class("a")];
    RegexTail(items);
    hide *;
    hide RegexOf;
    RunOnText();
    NodesNegatedSet("][a]$");
    RunOnNode();
    RegexOfIs(items);
  }

  lemma RegexOfIs(items: seq<Item>)
    ensures RegexOf(items) == ReadRegex(HEAD + RegexText(items) + "$")
  {
  }

  lemma RunOnText()
    ensures RegexText([Class("!"), Class("a")]) + "$" == "[^" + "][a]$"
  {
    var items := [Class("!"), Class("a")];
    assert RegexText([]) == "" && items[1..] == [Class("a")] && [Class("a")][1..] == [];
    assert "^" + ""  == "^" && "!"[1..] == "" && "[" + "^" + "]" == "[^]" && "[" + "a" + "]" == "[a]";
    assert RegexText([Class("a")]) == "[a]";
    assert RegexText(items) == "[^]" + "[a]";
  }

  lemma RunOnNode()
    ensures SetRead("^", "][a]$") == Some([Set("^][a"), AtEnd])
  {
    NodesNothing();
    assert "" + "$" == "$";
    hide ReadNodes, ReadSet, RegexText;
    RunOnScan();
    RunOnParts();
  }

  lemma RunOnParts()
    ensures "^" + "][a]$"[..3] == "^][a" && "][a]$"[4..] == "$"
    ensures [Set("^][a")] + [AtEnd] == [Set("^][a"), AtEnd]
  {
    assert "][a]$"[..3] == "][a";
  }

  lemma RunOnScan()
    ensures ReadSet("][a]$", true) == Some(3)
  {
    assert "][a]$"[1..] == "[a]$" && "[a]$"[1..] == "a]$" && "a]$"[1..] == "]$";
    assert MemberLength("][a]$") == Some(1) && MemberLength("[a]$") == Some(1) && MemberLength("a]$") == Some(1);
    assert ReadSet("]$", false) == Some(0);
    MemberStep("a]$", false);
    MemberStep("[a]$", false);
    MemberStep("][a]$", true);
    hide ReadSet;
  }

  /** `a$*` is accepted, and matches the table `a` but not `a$1`. */
  lemma DollarExample(cls: ClassOf)
    ensures ReadGlob("a$*", true) == Ok(([Lit('a', false), Dollar, AnyStar], ""))
    ensures var items := [Lit('a', false), Dollar, AnyStar];
            && RegexOf(items) == Some(NodesOf(items))
            && RegexAccepts(cls, NodesOf(items), "a") && !GlobAccepts(cls, items, "a")
            && !RegexAccepts(cls, NodesOf(items), "a$1") && GlobAccepts(cls, items, "a$1")
  {
    var items := [Lit('a', false), Dollar, AnyStar];
    DollarIsRead();
    assert AllWellFormed(items) && AllEnd(items) && NoClass(items);
    RegexReads(items);
    hide *;
    hide RegexOf;
    RegexOfIs(items);
    DollarNodes();
    DollarInRegex(cls);
    DollarInGlob(cls);
  }

  lemma DollarIsRead()
    ensures ReadGlob("a$*", true) == Ok(([Lit('a', false), Dollar, AnyStar], ""))
  {
    assert "a$*"[1..] == "$*" && "$*"[1..] == "*" && "*"[1..] == "";
    assert [AnyStar] + [] == [AnyStar] && [Dollar] + [AnyStar] == [Dollar, AnyStar];
    assert [Lit('a', false)] + [Dollar, AnyStar] == [Lit('a', false), Dollar, AnyStar];
    assert ReadGlob("*", true) == Ok(([AnyStar], ""));
    assert ReadGlob("$*", true) == Ok(([Dollar, AnyStar], ""));
  }

  lemma DollarNodes()
    ensures NodesOf([Lit('a', false), Dollar, AnyStar]) == [Chr('a'), AtEnd, DotStar, AtEnd]
  {
    var items := [Lit('a', false), Dollar, AnyStar];
    assert items[1..] == [Dollar, AnyStar] && items[1..][1..] == [AnyStar] && [AnyStar][1..] == [];
  }

  lemma DollarInRegex(cls: ClassOf)
    ensures RegexAccepts(cls, [Chr('a'), AtEnd, DotStar, AtEnd], "a")
    ensures !RegexAccepts(cls, [Chr('a'), AtEnd, DotStar, AtEnd], "a$1")
  {
    var nodes := [Chr('a'), AtEnd, DotStar, AtEnd];
    assert nodes[1..] == [AtEnd, DotStar, AtEnd] && nodes[1..][1..] == [DotStar, AtEnd] && [DotStar, AtEnd][1..] == [AtEnd];
    assert "a"[1..] == "" && "a$1"[1..] == "$1";
    AcceptsNothing(cls, [DotStar, AtEnd]);
  }

  lemma DollarInGlob(cls: ClassOf)
    ensures !GlobAccepts(cls, [Lit('a', false), Dollar, AnyStar], "a")
    ensures GlobAccepts(cls, [Lit('a', false), Dollar, AnyStar], "a$1")
  {
    var items := [Lit('a', false), Dollar, AnyStar];
    assert items[1..] == [Dollar, AnyStar] && items[1..][1..] == [AnyStar] && [AnyStar][1..] == [];
    assert "a"[1..] == "" && "a$1"[1..] == "$1" && "$1"[1..] == "1" && "1"[1..] == "";
    assert GlobAccepts(cls, [AnyStar], "");
    assert GlobAccepts(cls, [AnyStar], "1");
  }
}
