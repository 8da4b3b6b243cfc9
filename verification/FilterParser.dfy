/** Parsing filter rules (`parser.go`, `Parse` of `table_filter.go`), and that a
    quoted name written by a dialect is a rule for exactly that table. */
module FilterParser {
  import opened Common
  import opened Quoting
  import opened TableFilter
  import Glob

  datatype ParseError =
    | MissingPattern | IncompleteRegexp | InvalidPattern | IncompleteQuoted | Wildcard(error: Glob.GlobError)
    | WrongTablePattern | MissingDot | StrayCharacters | RecursiveImport | CannotOpen

  // ---- one pattern ----

  /** The length of the rest of a quoted pattern, as the regular expressions
      `"(?:""|[^"])+"` and its backquoted twin find it: the longest run of pieces
      that a quote can follow, and backing up when none does. */
  function QuotedEnd(s: string, q: char, some: bool): (r: Option<nat>)
    ensures r.Some? ==> 1 <= r.value <= |s|
    decreases |s|
  {
    var here := if some && s != "" && s[0] == q then Some(1) else None;
    if s == "" then None
    else if s[0] != q then
      match QuotedEnd(s[1..], q, true)
      case None => here
      case Some(n) => Some(n + 1)
    else if |s| >= 2 && s[1] == q then
      match QuotedEnd(s[2..], q, true)
      case None => here
      case Some(n) => Some(n + 2)
    else here
  }

  /** The same for `/(?:\\.|[^/])+/`, in which a backslash takes the next
      character along if it can. */
  function SlashEnd(s: string, some: bool): (r: Option<nat>)
    ensures r.Some? ==> 1 <= r.value <= |s|
    decreases |s|
  {
    if s == "" then None
    else
      var two := if s[0] == '\\' && |s| >= 2 && s[1] != '\n' then SlashEnd(s[2..], true) else None;
      if two.Some? then Some(two.value + 2)
      else
        var one := if s[0] != '/' then SlashEnd(s[1..], true) else None;
        if one.Some? then Some(one.value + 1)
        else if some && s[0] == '/' then Some(1)
        else None
  }

  function QuotedPattern(line: string, q: char): Result<(Matcher, string), ParseError>
    requires line != ""
  {
    match QuotedEnd(line[1..], q, false)
    case None => Err(IncompleteQuoted)
    case Some(n) => Ok((Literal(ReplaceAll(line[1..n], [q, q], [q])), line[n + 1..]))
  }

  /** `parsePattern`, with a dot behind a schema pattern. */
  function ParsePattern(e: Engine, line: string): Result<(Matcher, string), ParseError> {
    if line == "" then Err(MissingPattern)
    else if line[0] == '/' then
      match SlashEnd(line[1..], false)
      case None => Err(IncompleteRegexp)
      case Some(n) =>
        (match NewRegexpMatcher(e, line[1..n])
         case None => Err(InvalidPattern)
         case Some(m) => Ok((m, line[n + 1..])))
    else if line[0] == '"' then QuotedPattern(line, '"')
    else if line[0] == '`' then QuotedPattern(line, '`')
    else
      match Glob.Wildcard(e, line, true)
      case Err(err) => Err(Wildcard(err))
      case Ok((m, rest)) => Ok((m, rest))
  }

  // ---- one rule ----

  predicate IsBlank(c: char) {
    c == ' ' || c == '\t'
  }

  function TrimLeft(s: string): string {
    if s != "" && IsBlank(s[0]) then TrimLeft(s[1..]) else s
  }

  function TrimRight(s: string): string {
    if s != "" && IsBlank(s[|s| - 1]) then TrimRight(s[..|s| - 1]) else s
  }

  /** `strings.Trim(line, " \t")`. */
  function Trim(s: string): string {
    TrimRight(TrimLeft(s))
  }

  /** A schema pattern, a dot and a table pattern, and nothing else. */
  function ParseRule(e: Engine, line: string, positive: bool): Result<Rule, ParseError> {
    match ParsePattern(e, line)
    case Err(err) => Err(err)
    case Ok((schema, rest)) =>
      if rest == "" then Err(WrongTablePattern)
      else if rest[0] != '.' then Err(MissingDot)
      else
        match ParsePattern(e, rest[1..])
        case Err(err) => Err(err)
        case Ok((table, end)) => if end != "" then Err(StrayCharacters) else Ok(Rule(schema, table, positive))
  }

  /** The files that can be imported, as their lines. */
  type Files = map<string, seq<string>>

  /** The rules of one line: none for a blank or a comment, those of a file for an `@`. */
  function LineRules(e: Engine, files: Files, text: string, canImport: bool): Result<seq<Rule>, ParseError>
    decreases canImport, 0, 0
  {
    var line := Trim(text);
    if line == "" || line[0] == '#' then Ok([])
    else if line[0] == '@' then
      if !canImport then Err(RecursiveImport)
      else if line[1..] !in files then Err(CannotOpen)
      else AllRules(e, files, files[line[1..]], false)
    else
      var negative := line[0] == '!';
      match ParseRule(e, if negative then line[1..] else line, !negative)
      case Err(err) => Err(err)
      case Ok(rule) => Ok([rule])
  }

  /** The rules of all lines, or the error of the first bad one. */
  function AllRules(e: Engine, files: Files, lines: seq<string>, canImport: bool): Result<seq<Rule>, ParseError>
    decreases canImport, 1, |lines|
  {
    if lines == [] then Ok([])
    else
      match AllRules(e, files, lines[..|lines| - 1], canImport)
      case Err(err) => Err(err)
      case Ok(rules) =>
        match LineRules(e, files, lines[|lines| - 1], canImport)
        case Err(err) => Err(err)
        case Ok(more) => Ok(rules + more)
  }

  /** `tableRulesParser`: rules are appended as lines are parsed. */
  class TableRulesParser {
    const e: Engine
    const files: Files
    var rules: seq<Rule>

    constructor (e: Engine, files: Files)
      ensures this.e == e && this.files == files && rules == []
    {
      this.e, this.files, rules := e, files, [];
    }

    /** `parse`. */
    method Parse(text: string, canImport: bool) returns (err: Option<ParseError>)
      modifies this
      ensures match LineRules(e, files, text, canImport)
              case Ok(more) => err.None? && rules == old(rules) + more
              case Err(x) => err == Some(x)
      decreases canImport, 0
    {
      var line := Trim(text);
      if |line| == 0 {
        assert rules + [] == rules;
        return None;
      }
      var positive := true;
      if line[0] == '#' {
        assert rules + [] == rules;
        return None;
      } else if line[0] == '!' {
        positive := false;
        line := line[1..];
      } else if line[0] == '@' {
        if !canImport {
          return Some(RecursiveImport);
        }
        err := ImportFile(line[1..]);
        return;
      }
      var schema := ParsePattern(e, line);
      if schema.Err? {
        return Some(schema.error);
      }
      line := schema.value.1;
      if |line| == 0 {
        return Some(WrongTablePattern);
      }
      if line[0] != '.' {
        return Some(MissingDot);
      }
      var table := ParsePattern(e, line[1..]);
      if table.Err? {
        return Some(table.error);
      }
      if |table.value.1| != 0 {
        return Some(StrayCharacters);
      }
      rules := rules + [Rule(schema.value.0, table.value.0, positive)];
      return None;
    }

    /** `importFile`. */
    method ImportFile(name: string) returns (err: Option<ParseError>)
      modifies this
      ensures name !in files ==> err == Some(CannotOpen)
      ensures name in files ==>
                match AllRules(e, files, files[name], false)
                case Ok(more) => err.None? && rules == old(rules) + more
                case Err(x) => err == Some(x)
      decreases false, 2
    {
      if name !in files {
        return Some(CannotOpen);
      }
      err := ParseAll(files[name], false);
    }

    /** The loop over the lines of a file, or over the arguments. */
    method ParseAll(lines: seq<string>, canImport: bool) returns (err: Option<ParseError>)
      modifies this
      ensures match AllRules(e, files, lines, canImport)
              case Ok(more) => err.None? && rules == old(rules) + more
              case Err(x) => err == Some(x)
      decreases canImport, 1
    {
      hide LineRules;
      assert rules + [] == rules;
      for i := 0 to |lines|
        invariant AllRules(e, files, lines[..i], canImport).Ok?
        invariant rules == old(rules) + AllRules(e, files, lines[..i], canImport).value
      {
        assert lines[..i + 1][..i] == lines[..i];
        ghost var before := AllRules(e, files, lines[..i], canImport).value;
        err := Parse(lines[i], canImport);
        if err.Some? {
          BadLine(e, files, lines, i, canImport);
          return;
        }
        Regroup(old(rules), before, LineRules(e, files, lines[i], canImport).value);
      }
      assert lines[..|lines|] == lines;
      return None;
    }
  }

  lemma {:induction false} BadLine(e: Engine, files: Files, lines: seq<string>, i: nat, canImport: bool)
    requires i < |lines| && AllRules(e, files, lines[..i], canImport).Ok? && LineRules(e, files, lines[i], canImport).Err?
    ensures AllRules(e, files, lines, canImport) == Err(LineRules(e, files, lines[i], canImport).error)
    decreases |lines|
  {
    hide LineRules;
    if i < |lines| - 1 {
      assert lines[..|lines| - 1][..i] == lines[..i];
      BadLine(e, files, lines[..|lines| - 1], i, canImport);
    }
  }

  /** What `Parse` makes of the arguments: their rules, the last one first. */
  function FilterOf(e: Engine, files: Files, args: seq<string>): Result<Filter, ParseError> {
    match AllRules(e, files, args, true)
    case Err(x) => Err(x)
    case Ok(rules) => Ok(Rules(Reversed(rules)))
  }

  /** `Parse`. */
  method ParseFilter(e: Engine, files: Files, args: seq<string>) returns (r: Result<Filter, ParseError>)
    ensures r == FilterOf(e, files, args)
    ensures r.Ok? ==> forall s, t :: MatchTable(e, r.value, s, t) <==> LastWins(e, AllRules(e, files, args, true).value, s, t)
  {
    hide AllRules, LastWins, RulesMatchTable;
    var p := new TableRulesParser(e, files);
    var err := p.ParseAll(args, true);
    if err.Some? {
      return Err(err.value);
    }
    ghost var all := AllRules(e, files, args, true).value;
    assert [] + all == all;
    var reversed := ReverseRules(p.rules);
    forall s, t ensures RulesMatchTable(e, reversed, s, t) <==> LastWins(e, p.rules, s, t) {
      ReversalMeansLastWins(e, p.rules, s, t);
    }
    r := Ok(Rules(reversed));
    assert p.rules == all;
  }

  /** `slices.Reverse`. */
  method ReverseRules(rules: seq<Rule>) returns (reversed: seq<Rule>)
    ensures reversed == Reversed(rules)
  {
    reversed := rules;
    var i, j := 0, |rules| - 1;
    while i < j
      invariant 0 <= i <= |rules| && i + j == |rules| - 1 && i <= j + 1
      invariant |reversed| == |rules|
      invariant forall k :: 0 <= k < i || j < k < |rules| ==> reversed[k] == rules[|rules| - 1 - k]
      invariant forall k :: i <= k <= j ==> reversed[k] == rules[k]
    {
      reversed := reversed[i := reversed[j]][j := reversed[i]];
      i, j := i + 1, j - 1;
    }
    ReversedIndex(rules);
    assert reversed == Reversed(rules);
  }

  lemma {:induction false} ReversedIndex<T>(s: seq<T>)
    ensures |Reversed(s)| == |s|
    ensures forall k :: 0 <= k < |s| ==> Reversed(s)[k] == s[|s| - 1 - k]
  {
    if s != [] {
      ReversedIndex(s[1..]);
    }
  }

  // ---- quoting and parsing undo each other ----

  lemma {:induction false} DoubledEnds(name: string, q: char, rest: string, some: bool)
    requires rest == "" || rest[0] != q
    requires name != "" || some
    ensures QuotedEnd(Doubled(name, q) + ([q] + rest), q, some) == Some(|Doubled(name, q)| + 1)
    decreases |name|
  {
    var s := Doubled(name, q) + ([q] + rest);
    if name == "" {
      assert s == [q] + rest;
    } else {
      var tail := Doubled(name[1..], q) + ([q] + rest);
      DoubledEnds(name[1..], q, rest, true);
      if name[0] == q {
        assert s == [q, q] + tail;
        assert s[2..] == tail;
      } else {
        assert s == [name[0]] + tail;
        assert s[1..] == tail;
      }
    }
  }

  lemma {:induction false} Undoubled(name: string, q: char)
    ensures ReplaceAll(Doubled(name, q), [q, q], [q]) == name
  {
    if name != "" {
      Undoubled(name[1..], q);
      var d, tail := Doubled(name, q), Doubled(name[1..], q);
      if name[0] == q {
        assert d == [q, q] + tail && d[2..] == tail;
      } else {
        assert d == [name[0]] + tail && d[1..] == tail;
        assert !([q, q] <= d);
      }
      assert name == [name[0]] + name[1..];
    }
  }

  lemma QuotedDispatch(e: Engine, line: string)
    requires line != "" && (line[0] == '"' || line[0] == '`')
    ensures ParsePattern(e, line) == QuotedPattern(line, line[0])
  {
    hide QuotedPattern;
  }

  lemma QuotedFound(line: string, q: char, body: string, rest: string)
    requires line == [q] + body + [q] + rest && QuotedEnd(line[1..], q, false) == Some(|body| + 1)
    ensures QuotedPattern(line, q) == Ok((Literal(ReplaceAll(body, [q, q], [q])), rest))
  {
    hide QuotedEnd, ReplaceAll;
    BetweenQuotes(q, body, rest);
  }

  lemma BetweenQuotes(q: char, body: string, rest: string)
    ensures var line := [q] + body + [q] + rest; line[1..|body| + 1] == body && line[|body| + 2..] == rest
  {
  }

  lemma NothingQuoted(q: char, rest: string)
    requires rest == "" || rest[0] != q
    ensures QuotedEnd([q] + rest, q, false).None?
  {
  }

  /** A quoted name is a literal pattern, unless it is empty. */
  lemma QuotedParses(e: Engine, name: string, q: char, rest: string)
    requires q == '"' || q == '`'
    requires rest == "" || rest[0] != q
    ensures name != "" ==> ParsePattern(e, Quoted(name, q) + rest) == Ok((Literal(name), rest))
    ensures name == "" ==> ParsePattern(e, Quoted(name, q) + rest) == Err(IncompleteQuoted)
  {
    var line := Quoted(name, q) + rest;
    var body := Doubled(name, q);
    assert line == [q] + body + [q] + rest;
    assert line[1..] == body + ([q] + rest);
    hide QuotedEnd, ReplaceAll, Doubled, ParsePattern;
    QuotedDispatch(e, line);
    if name == "" {
      assert body == "" by { NothingDoubled(q); }
      assert line[1..] == [q] + rest;
      NothingQuoted(q, rest);
    } else {
      DoubledEnds(name, q, rest, false);
      Undoubled(name, q);
      QuotedFound(line, q, body, rest);
    }
  }

  lemma NothingDoubled(q: char)
    ensures Doubled("", q) == ""
  {
  }

  lemma NothingToTrim(line: string)
    requires line != "" && !IsBlank(line[0]) && !IsBlank(line[|line| - 1])
    ensures Trim(line) == line
  {
  }

  lemma QNameEnds(d: Dialect, schema: string, name: string)
    ensures var line, q := QuoteQName(d, schema, name), IdentQuote(d);
            line != "" && line[0] == q && line[|line| - 1] == q && Trim(line) == line
  {
    var line := QuoteQName(d, schema, name);
    NothingToTrim(line);
    hide Doubled, Trim;
  }

  /** The rule of a quoted qualified name: it is accepted exactly when neither part
      is empty, and then names exactly that table. */
  lemma QuotedRule(e: Engine, d: Dialect, schema: string, name: string)
    ensures var r := ParseRule(e, QuoteQName(d, schema, name), true);
            if schema != "" && name != "" then r == Ok(Rule(Literal(schema), Literal(name), true)) else r.Err?
  {
    hide *;
    var q := IdentQuote(d);
    QuoteOf(d);
    var second := Quoted(name, q);
    assert second + "" == second;
    QNameParts(d, schema, name);
    QuotedParses(e, name, q, "");
    if schema == "" {
      RuleFails(e, second);
    } else {
      DotIsNotQuote(q, second);
      QuotedParses(e, schema, q, "." + second);
      RuleParts(e, QuoteQName(d, schema, name), Literal(schema), second);
    }
  }

  lemma QuoteOf(d: Dialect)
    ensures IdentQuote(d) == '"' || IdentQuote(d) == '`'
  {
  }

  lemma DotIsNotQuote(q: char, rest: string)
    requires q == '"' || q == '`'
    ensures ("." + rest)[0] != q
  {
  }

  lemma QNameParts(d: Dialect, schema: string, name: string)
    ensures var q := IdentQuote(d);
            QuoteQName(d, schema, name) == if schema == "" then Quoted(name, q) else Quoted(schema, q) + ("." + Quoted(name, q))
  {
  }

  /** A line that is one pattern, or none, is no rule. */
  lemma RuleFails(e: Engine, line: string)
    requires ParsePattern(e, line).Ok? ==> ParsePattern(e, line).value.1 == ""
    ensures ParseRule(e, line, true).Err?
  {
    hide ParsePattern;
  }

  lemma RuleParts(e: Engine, line: string, schema: Matcher, second: string)
    requires ParsePattern(e, line) == Ok((schema, "." + second))
    ensures ParseRule(e, line, true)
         == match ParsePattern(e, second)
            case Err(err) => Err(err)
            case Ok((table, end)) => if end != "" then Err(StrayCharacters) else Ok(Rule(schema, table, true))
  {
    hide ParsePattern;
    assert ("." + second)[1..] == second;
  }

  lemma QuotedLine(e: Engine, files: Files, d: Dialect, schema: string, name: string)
    ensures var r := LineRules(e, files, QuoteQName(d, schema, name), true);
            if schema != "" && name != "" then r == Ok([Rule(Literal(schema), Literal(name), true)]) else r.Err?
  {
    QNameEnds(d, schema, name);
    QuotedRule(e, d, schema, name);
    hide ParseRule, QuoteQName, Trim, AllRules;
  }

  // ---- what one more argument does ----

  /** A rule fits a table when both of its patterns do. */
  predicate Fits(e: Engine, r: Rule, schema: string, table: string) {
    MatchString(e, r.schema, schema) && MatchString(e, r.table, table)
  }

  lemma LastLine(e: Engine, files: Files, lines: seq<string>, text: string, canImport: bool)
    ensures AllRules(e, files, lines + [text], canImport)
         == match AllRules(e, files, lines, canImport)
            case Err(err) => Err(err)
            case Ok(rules) =>
              match LineRules(e, files, text, canImport)
              case Err(err) => Err(err)
              case Ok(more) => Ok(rules + more)
  {
    assert (lines + [text])[..|lines|] == lines;
    hide LineRules;
  }

  lemma RuleInFront(e: Engine, r: Rule, rules: seq<Rule>, schema: string, table: string)
    ensures RulesMatchTable(e, [r] + rules, schema, table)
       <==> if Fits(e, r, schema, table) then r.positive else RulesMatchTable(e, rules, schema, table)
    ensures RulesMatchSchema(e, [r] + rules, schema)
       <==> if MatchString(e, r.schema, schema) && (r.positive || MatchAllStrings(r.table)) then r.positive
            else RulesMatchSchema(e, rules, schema)
  {
    assert ([r] + rules)[1..] == rules;
    hide MatchString;
  }

  lemma ReversedAdds(rules: seq<Rule>, r: Rule)
    ensures Reversed(rules + [r]) == [r] + Reversed(rules)
  {
    ReversedLast(rules + [r]);
    assert (rules + [r])[..|rules|] == rules;
  }

  /** One line that is one rule puts that rule in front. */
  lemma OneMoreRule(e: Engine, files: Files, args: seq<string>, text: string, r: Rule)
    requires LineRules(e, files, text, true) == Ok([r])
    ensures FilterOf(e, files, args + [text]) == match FilterOf(e, files, args)
                                                 case Err(x) => Err(x)
                                                 case Ok(f) => Ok(Rules([r] + f.rules))
  {
    LastLine(e, files, args, text, true);
    hide AllRules, LineRules;
    if AllRules(e, files, args, true).Ok? {
      ReversedAdds(AllRules(e, files, args, true).value, r);
    }
    hide Reversed;
  }

  /** No pattern begins like a comment, a negative rule or an import. */
  lemma MarkIsNoPattern(e: Engine, line: string)
    requires line != "" && line[0] in {'#', '!', '@', ' ', '\t'}
    ensures ParsePattern(e, line).Err?
  {
    assert Glob.StepOf(line, true).Bad?;
  }

  lemma RuleHasNoMark(e: Engine, line: string, positive: bool)
    requires ParseRule(e, line, positive).Ok?
    ensures line != "" && line[0] !in {'#', '!', '@', ' ', '\t'}
  {
    if line != "" && line[0] in {'#', '!', '@', ' ', '\t'} {
      MarkIsNoPattern(e, line);
    }
    hide QuotedPattern, SlashEnd, Glob.Wildcard;
  }

  /** The sign of a rule is no part of its patterns. */
  lemma SignOfRule(e: Engine, line: string, r: Rule)
    requires ParseRule(e, line, true) == Ok(r)
    ensures r.positive && ParseRule(e, line, false) == Ok(Rule(r.schema, r.table, false))
  {
    hide ParsePattern;
  }

  lemma PositiveLine(e: Engine, files: Files, text: string, r: Rule)
    requires ParseRule(e, Trim(text), true) == Ok(r)
    ensures LineRules(e, files, text, true) == Ok([r])
  {
    RuleHasNoMark(e, Trim(text), true);
    hide ParseRule, Trim, AllRules;
  }

  lemma NegativeLine(e: Engine, files: Files, text: string, line: string, r: Rule)
    requires Trim(text) == "!" + line && ParseRule(e, line, true) == Ok(r)
    ensures LineRules(e, files, text, true) == Ok([Rule(r.schema, r.table, false)])
  {
    SignOfRule(e, line, r);
    assert ("!" + line)[1..] == line;
    hide ParseRule, Trim, AllRules;
  }

  /** A further argument that is a rule accepts what it fits, whatever was said
      before, and leaves the rest as it was. */
  lemma AddedRule(e: Engine, files: Files, args: seq<string>, text: string, r: Rule)
    requires ParseRule(e, Trim(text), true) == Ok(r)
    ensures var before, after := FilterOf(e, files, args), FilterOf(e, files, args + [text]);
            && (before.Err? ==> after == before)
            && (before.Ok? ==>
                 && after.Ok?
                 && (forall s, t :: MatchTable(e, after.value, s, t) <==> Fits(e, r, s, t) || MatchTable(e, before.value, s, t))
                 && (forall s :: MatchSchema(e, after.value, s) <==> MatchString(e, r.schema, s) || MatchSchema(e, before.value, s)))
  {
    SignOfRule(e, Trim(text), r);
    PositiveLine(e, files, text, r);
    OneMoreRule(e, files, args, text, r);
    hide FilterOf, ParseRule, LineRules, RulesMatchTable, RulesMatchSchema, Trim, Fits;
    if FilterOf(e, files, args).Ok? {
      var rules := RulesIn(e, files, args);
      forall s, t ensures RulesMatchTable(e, [r] + rules, s, t) <==> Fits(e, r, s, t) || RulesMatchTable(e, rules, s, t) {
        RuleInFront(e, r, rules, s, t);
      }
      forall s ensures RulesMatchSchema(e, [r] + rules, s) <==> MatchString(e, r.schema, s) || RulesMatchSchema(e, rules, s) {
        RuleInFront(e, r, rules, s, "");
      }
    }
  }

  lemma RulesIn(e: Engine, files: Files, args: seq<string>) returns (rules: seq<Rule>)
    requires FilterOf(e, files, args).Ok?
    ensures FilterOf(e, files, args) == Ok(Rules(rules))
  {
    rules := FilterOf(e, files, args).value.rules;
  }

  /** The same text behind a `!` rejects what the rule fits. A schema is rejected as
      a whole only by the table pattern `*`. */
  lemma NegatedRule(e: Engine, files: Files, args: seq<string>, text: string, line: string, r: Rule)
    requires Trim(text) == "!" + line && ParseRule(e, line, true) == Ok(r)
    ensures var before, after := FilterOf(e, files, args), FilterOf(e, files, args + [text]);
            && (before.Err? ==> after == before)
            && (before.Ok? ==>
                 && after.Ok?
                 && (forall s, t :: MatchTable(e, after.value, s, t) <==> !Fits(e, r, s, t) && MatchTable(e, before.value, s, t))
                 && (forall s :: MatchSchema(e, after.value, s)
                            <==> !(r.table.Everything? && MatchString(e, r.schema, s)) && MatchSchema(e, before.value, s)))
  {
    var negated := Rule(r.schema, r.table, false);
    NegativeLine(e, files, text, line, r);
    OneMoreRule(e, files, args, text, negated);
    hide FilterOf, ParseRule, LineRules, RulesMatchTable, RulesMatchSchema, Trim, Fits;
    FitsAlike(e, r);
    if FilterOf(e, files, args).Ok? {
      var rules := RulesIn(e, files, args);
      forall s, t ensures RulesMatchTable(e, [negated] + rules, s, t) <==> !Fits(e, r, s, t) && RulesMatchTable(e, rules, s, t) {
        RuleInFront(e, negated, rules, s, t);
      }
      forall s
        ensures RulesMatchSchema(e, [negated] + rules, s)
           <==> !(r.table.Everything? && MatchString(e, r.schema, s)) && RulesMatchSchema(e, rules, s)
      {
        RuleInFront(e, negated, rules, s, "");
      }
    }
  }

  lemma FitsAlike(e: Engine, r: Rule)
    ensures forall s, t :: Fits(e, Rule(r.schema, r.table, false), s, t) <==> Fits(e, r, s, t)
  {
    hide MatchString;
  }

  /** Comments and blank arguments say nothing. */
  lemma SkippedLine(e: Engine, files: Files, args: seq<string>, text: string)
    requires Trim(text) == "" || Trim(text)[0] == '#'
    ensures FilterOf(e, files, args + [text]) == FilterOf(e, files, args)
  {
    LastLine(e, files, args, text, true);
    NothingAdded(e, files, text);
    hide AllRules, LineRules, Trim, Reversed;
    assert forall rules: seq<Rule> :: rules + [] == rules;
  }

  lemma NothingAdded(e: Engine, files: Files, text: string)
    requires Trim(text) == "" || Trim(text)[0] == '#'
    ensures LineRules(e, files, text, true) == Ok([])
  {
    hide AllRules, ParseRule, Trim;
  }

  // ---- importing ----

  /** A line that asks for a file. */
  predicate Imports(text: string) {
    Trim(text) != "" && Trim(text)[0] == '@'
  }

  lemma {:induction false} LinesConcat(e: Engine, files: Files, a: seq<string>, b: seq<string>, canImport: bool)
    ensures AllRules(e, files, a + b, canImport)
         == match AllRules(e, files, a, canImport)
            case Err(err) => Err(err)
            case Ok(rules) =>
              match AllRules(e, files, b, canImport)
              case Err(err) => Err(err)
              case Ok(more) => Ok(rules + more)
    decreases |b|
  {
    hide LineRules;
    if b == [] {
      assert a + b == a;
      assert forall rules: seq<Rule> :: rules + [] == rules;
    } else {
      var init, last := b[..|b| - 1], b[|b| - 1];
      assert a + b == (a + init) + [last] && b == init + [last];
      LinesConcat(e, files, a, init, canImport);
      LastLine(e, files, a + init, last, canImport);
      LastLine(e, files, init, last, canImport);
      hide AllRules;
      if AllRules(e, files, a, canImport).Ok? && AllRules(e, files, init, canImport).Ok? && LineRules(e, files, last, canImport).Ok? {
        Regroup(AllRules(e, files, a, canImport).value, AllRules(e, files, init, canImport).value,
                LineRules(e, files, last, canImport).value);
      }
    }
  }

  /** The lines of a file mean what they mean as arguments, as long as none imports. */
  lemma {:induction false} LinesOfFile(e: Engine, files: Files, lines: seq<string>)
    ensures (forall i :: 0 <= i < |lines| ==> !Imports(lines[i])) ==>
              AllRules(e, files, lines, false) == AllRules(e, files, lines, true)
    ensures (exists i :: 0 <= i < |lines| && Imports(lines[i])) ==> AllRules(e, files, lines, false).Err?
    decreases |lines|
  {
    if lines != [] {
      var init, last := lines[..|lines| - 1], lines[|lines| - 1];
      LinesOfFile(e, files, init);
      LineOfFile(e, files, last);
      assert lines == init + [last];
      LastLine(e, files, init, last, false);
      LastLine(e, files, init, last, true);
      hide AllRules, LineRules, Imports;
      if i :| 0 <= i < |lines| && Imports(lines[i]) {
        if i < |lines| - 1 {
          assert Imports(init[i]);
        }
      }
    }
  }

  lemma LineOfFile(e: Engine, files: Files, text: string)
    ensures !Imports(text) ==> LineRules(e, files, text, false) == LineRules(e, files, text, true)
    ensures Imports(text) ==> LineRules(e, files, text, false) == Err(RecursiveImport)
  {
    hide AllRules, ParseRule, Trim;
  }

  /** `@file` stands for the lines of the file, none of which may import another one. */
  lemma ImportedFile(e: Engine, files: Files, args: seq<string>, text: string, name: string)
    requires Trim(text) == "@" + name
    ensures var after := FilterOf(e, files, args + [text]);
            if name !in files || exists i :: 0 <= i < |files[name]| && Imports(files[name][i]) then after.Err?
            else after == FilterOf(e, files, args + files[name])
  {
    LastLine(e, files, args, text, true);
    ImportLine(e, files, text, name);
    hide AllRules, LineRules, Trim, Imports;
    if name in files {
      LinesConcat(e, files, args, files[name], true);
      LinesOfFile(e, files, files[name]);
    }
  }

  lemma ImportLine(e: Engine, files: Files, text: string, name: string)
    requires Trim(text) == "@" + name
    ensures LineRules(e, files, text, true) == if name in files then AllRules(e, files, files[name], false) else Err(CannotOpen)
  {
    assert ("@" + name)[1..] == name;
    hide AllRules, ParseRule, Trim;
  }

  // ---- blanks ----

  predicate Blanks(s: string) {
    forall i :: 0 <= i < |s| ==> s[i] in {' ', '\t'}
  }

  lemma {:induction false} LeftBlanks(a: string, s: string)
    requires Blanks(a)
    ensures TrimLeft(a + s) == TrimLeft(s)
  {
    if a == "" {
      assert a + s == s;
    } else {
      assert (a + s)[1..] == a[1..] + s && (a + s)[0] == a[0];
      LeftBlanks(a[1..], s);
    }
  }

  lemma {:induction false} RightBlanks(s: string, b: string)
    requires Blanks(b)
    ensures TrimRight(s + b) == TrimRight(s)
    decreases |b|
  {
    if b == "" {
      assert s + b == s;
    } else {
      assert (s + b)[..|s + b| - 1] == s + b[..|b| - 1] && (s + b)[|s + b| - 1] == b[|b| - 1];
      RightBlanks(s, b[..|b| - 1]);
    }
  }

  /** Trimming takes the blanks and tabs at both ends, and nothing else. */
  lemma TrimMeaning(a: string, s: string, b: string)
    requires Blanks(a) && Blanks(b)
    requires s != "" ==> s[0] !in {' ', '\t'} && s[|s| - 1] !in {' ', '\t'}
    ensures Trim(a + s + b) == s
  {
    Regroup(a, s, b);
    LeftBlanks(a, s + b);
    if s == "" {
      assert s + b == b && b + "" == b;
      LeftBlanks(b, "");
    } else {
      assert TrimLeft(s + b) == s + b;
      RightBlanks(s, b);
      assert TrimRight(s) == s;
    }
  }

  // ---- names as rules ----

  /** Quoting a name for either dialect and parsing it as the only rule: it succeeds
      exactly when neither part is empty, and the filter accepts that table and
      no other, and that schema and no other. */
  lemma QuotedNameIsItsOwnFilter(e: Engine, files: Files, d: Dialect, schema: string, name: string)
    ensures var r := FilterOf(e, files, [QuoteQName(d, schema, name)]);
            && (r.Ok? <==> schema != "" && name != "")
            && (r.Ok? ==> OnlyTable(e, r.value, schema, name))
  {
    hide *;
    QuotedLine(e, files, d, schema, name);
    OneLine(e, files, QuoteQName(d, schema, name));
    SingleRule(e, schema, name);
  }

  /** The filter accepts one table and its schema. */
  ghost predicate OnlyTable(e: Engine, f: Filter, schema: string, name: string) {
    && (forall s, t :: MatchTable(e, f, s, t) <==> s == schema && t == name)
    && (forall s :: MatchSchema(e, f, s) <==> s == schema)
  }

  lemma SingleRule(e: Engine, schema: string, name: string)
    ensures OnlyTable(e, Rules([Rule(Literal(schema), Literal(name), true)]), schema, name)
  {
    var one := [Rule(Literal(schema), Literal(name), true)];
    assert one[1..] == [];
    forall s, t ensures RulesMatchTable(e, one, s, t) <==> s == schema && t == name {
    }
    forall s ensures RulesMatchSchema(e, one, s) <==> s == schema {
    }
    hide RulesMatchTable, RulesMatchSchema;
  }

  lemma OneLine(e: Engine, files: Files, line: string)
    ensures FilterOf(e, files, [line]) == match LineRules(e, files, line, true)
                                          case Err(x) => Err(x)
                                          case Ok(rules) => Ok(Rules(Reversed(rules)))
    ensures forall r: Rule :: Reversed([r]) == [r]
  {
    assert [] + [line] == [line];
    LastLine(e, files, [], line, true);
    assert forall rules: seq<Rule> :: [] + rules == rules;
    assert forall r: Rule :: [r][1..] == [];
    hide LineRules;
  }

  /** A name as a wildcard pattern: letters, digits, underscores and bytes outside
      ASCII as they are, the others behind a backslash. */
  function Backslashed(name: string): string {
    if name == "" then "" else (if Bare(name[0]) then [name[0]] else ['\\', name[0]]) + Backslashed(name[1..])
  }

  predicate Bare(c: char) {
    '0' <= c <= '9' || 'a' <= c <= 'z' || 'A' <= c <= 'Z' || c == '_' || c as int >= 0x80
  }

  function NameItems(name: string): seq<Glob.Item> {
    if name == "" then [] else [Glob.Lit(name[0], !Bare(name[0]))] + NameItems(name[1..])
  }

  lemma {:induction false} NameIsLiteral(name: string)
    ensures Glob.IsLiteral(NameItems(name)) && Glob.LiteralText(NameItems(name)) == name
  {
    if name != "" {
      NameIsLiteral(name[1..]);
      assert name == [name[0]] + name[1..];
    }
  }

  lemma NameStep(c: char, tail: string)
    ensures var line := (if Bare(c) then [c] else ['\\', c]) + tail;
            Glob.ReadGlob(line, true) == Glob.Cons(Glob.Lit(c, !Bare(c)), Glob.ReadGlob(tail, true))
  {
    var line := (if Bare(c) then [c] else ['\\', c]) + tail;
    if Bare(c) {
      assert line[1..] == tail;
    } else {
      assert line[2..] == tail;
    }
    assert Glob.StepOf(line, true) == Glob.Take(Glob.Lit(c, !Bare(c)), if Bare(c) then 1 else 2);
    hide Glob.Cons;
  }

  lemma {:induction false} NameRun(name: string, rest: string)
    ensures Glob.ReadGlob(Backslashed(name) + rest, true) == Glob.Prepend(NameItems(name), Glob.ReadGlob(rest, true))
  {
    hide Glob.ReadGlob, Bare;
    if name == "" {
      assert "" + rest == rest;
      PrependNothing(Glob.ReadGlob(rest, true));
    } else {
      var head := if Bare(name[0]) then [name[0]] else ['\\', name[0]];
      NameRun(name[1..], rest);
      NameStep(name[0], Backslashed(name[1..]) + rest);
      Regroup(head, Backslashed(name[1..]), rest);
      PrependCons(Glob.Lit(name[0], !Bare(name[0])), NameItems(name[1..]), Glob.ReadGlob(rest, true));
    }
  }

  lemma PrependNothing(r: Result<(seq<Glob.Item>, string), Glob.GlobError>)
    ensures Glob.Prepend([], r) == r
  {
    if r.Ok? {
      assert [] + r.value.0 == r.value.0;
    }
  }

  lemma PrependCons(item: Glob.Item, items: seq<Glob.Item>, r: Result<(seq<Glob.Item>, string), Glob.GlobError>)
    ensures Glob.Cons(item, Glob.Prepend(items, r)) == Glob.Prepend([item] + items, r)
  {
    if r.Ok? {
      Regroup([item], items, r.value.0);
    }
  }

  lemma BackslashedBegins(name: string)
    requires name != ""
    ensures var b := Backslashed(name); b != "" && b[0] !in {'/', '"', '`', '#', '!', '@', ' ', '\t'}
  {
    assert Backslashed(name)[0] == if Bare(name[0]) then name[0] else '\\';
  }

  /** A pattern that is no regular expression and not quoted is a wildcard. */
  lemma WildcardPattern(e: Engine, line: string)
    requires line != "" && line[0] !in {'/', '"', '`'}
    ensures ParsePattern(e, line) == match Glob.Wildcard(e, line, true)
                                     case Err(err) => Err(Wildcard(err))
                                     case Ok((m, rest)) => Ok((m, rest))
  {
    hide Glob.Wildcard;
  }

  /** A name with its backslashes is a literal pattern. */
  lemma NamePattern(e: Engine, name: string, rest: string)
    requires if rest == "" then name != "" else rest[0] == '.'
    ensures ParsePattern(e, Backslashed(name) + rest) == Ok((Literal(name), rest))
  {
    var line := Backslashed(name) + rest;
    if name != "" {
      BackslashedBegins(name);
      assert line[0] == Backslashed(name)[0];
    }
    NameRun(name, rest);
    NameIsLiteral(name);
    ReadsNothing(rest);
    assert NameItems(name) + [] == NameItems(name);
    WildcardPattern(e, line);
    hide Glob.ReadGlob, Backslashed, NameItems, ParsePattern, Glob.LiteralText, Glob.IsLiteral;
  }

  lemma ReadsNothing(rest: string)
    requires rest == "" || rest[0] == '.'
    ensures Glob.ReadGlob(rest, true) == Ok(([], rest))
  {
  }

  /** A trimmed blank leaves its backslash at the end of the line. */
  lemma BackslashFails(e: Engine, name: string)
    ensures ParsePattern(e, Backslashed(name) + "\\").Err?
  {
    var line := Backslashed(name) + "\\";
    if name != "" {
      BackslashedBegins(name);
      assert line[0] == Backslashed(name)[0];
    }
    NameRun(name, "\\");
    assert Glob.ReadGlob("\\", true).Err?;
    WildcardPattern(e, line);
    hide Glob.ReadGlob, Backslashed, NameItems, ParsePattern;
  }

  lemma BackslashedStep(c: char, name: string)
    ensures Backslashed([c] + name) == (if Bare(c) then [c] else ['\\', c]) + Backslashed(name)
  {
    assert ([c] + name)[1..] == name;
    hide Bare;
  }

  lemma {:induction false} BackslashedConcat(a: string, b: string)
    ensures Backslashed(a + b) == Backslashed(a) + Backslashed(b)
  {
    hide *;
    if a == "" {
      BackslashedNothing();
      assert "" + b == b && "" + Backslashed(b) == Backslashed(b);
    } else {
      var c, more := a[0], a[1..];
      assert a == [c] + more && a + b == [c] + (more + b);
      BackslashedConcat(more, b);
      BackslashedStep(c, more);
      BackslashedStep(c, more + b);
      Regroup(if Bare(c) then [c] else ['\\', c], Backslashed(more), Backslashed(b));
    }
  }

  lemma BackslashedLast(name: string)
    requires name != ""
    ensures var b, c := Backslashed(name), name[|name| - 1];
            && b != "" && b[|b| - 1] == c
            && (!Bare(c) ==> b[..|b| - 1] == Backslashed(name[..|name| - 1]) + "\\")
  {
    var init, c := name[..|name| - 1], name[|name| - 1];
    assert name == init + [c];
    BackslashedConcat(init, [c]);
    assert Backslashed([c]) == if Bare(c) then [c] else ['\\', c] by { LastBackslashed(c); }
    hide *;
    assert !Bare(c) ==> (Backslashed(init) + ['\\', c])[..|Backslashed(init)| + 1] == Backslashed(init) + "\\";
  }

  lemma LastBackslashed(c: char)
    ensures Backslashed([c]) == if Bare(c) then [c] else ['\\', c]
  {
    BackslashedNothing();
    BackslashedStep(c, "");
    assert [c] + "" == [c];
  }

  /** The text `schema.name` with backslashes, and what trimming makes of it. */
  lemma EscapedText(schema: string, name: string)
    ensures var text := Backslashed(schema) + ("." + Backslashed(name));
            && Trim(text) != "" && Trim(text)[0] !in {'#', '!', '@'}
            && (name == "" || name[|name| - 1] !in {' ', '\t'} ==> Trim(text) == text)
            && (name != "" && name[|name| - 1] in {' ', '\t'} ==>
                 Trim(text) == Backslashed(schema) + ("." + (Backslashed(name[..|name| - 1]) + "\\")))
  {
    var b := Backslashed(name);
    var text := Backslashed(schema) + ("." + b);
    if schema != "" {
      BackslashedBegins(schema);
      assert text[0] == Backslashed(schema)[0];
    } else {
      assert text[0] == '.';
    }
    if name == "" {
      assert text[|text| - 1] == '.';
      NothingToTrim(text);
    } else {
      BackslashedLast(name);
      assert text[|text| - 1] == name[|name| - 1];
      if name[|name| - 1] in {' ', '\t'} {
        var left := text[..|text| - 1];
        assert left == Backslashed(schema) + ("." + (Backslashed(name[..|name| - 1]) + "\\"));
        assert left[0] == text[0] && left[|left| - 1] == '\\';
        assert text == left + [name[|name| - 1]];
        TrimMeaning("", left, [name[|name| - 1]]);
        assert "" + left == left;
      } else {
        NothingToTrim(text);
      }
    }
  }

  /** The same for a name written with backslashes. Here an empty schema can be
      named; a table whose name ends in a blank cannot, since the argument is
      trimmed. */
  lemma EscapedNameIsItsOwnFilter(e: Engine, files: Files, schema: string, name: string)
    ensures var r := FilterOf(e, files, [Backslashed(schema) + ("." + Backslashed(name))]);
            && (r.Ok? <==> name != "" && name[|name| - 1] !in {' ', '\t'})
            && (r.Ok? ==> OnlyTable(e, r.value, schema, name))
  {
    hide *;
    var second := if name != "" && name[|name| - 1] in {' ', '\t'} then Backslashed(name[..|name| - 1]) + "\\" else Backslashed(name);
    var text := Backslashed(schema) + ("." + Backslashed(name));
    EscapedText(schema, name);
    EscapedRule(e, schema, second);
    RuleOnly(e, files, text);
    OneLine(e, files, text);
    if name == "" {
      BackslashedNothing();
      NoPattern(e);
    } else if name[|name| - 1] in {' ', '\t'} {
      BackslashFails(e, name[..|name| - 1]);
    } else {
      assert second + "" == second;
      NamePattern(e, name, "");
      SingleRule(e, schema, name);
    }
  }

  lemma EscapedRule(e: Engine, schema: string, second: string)
    ensures ParseRule(e, Backslashed(schema) + ("." + second), true)
         == match ParsePattern(e, second)
            case Err(err) => Err(err)
            case Ok((table, end)) => if end != "" then Err(StrayCharacters) else Ok(Rule(Literal(schema), table, true))
  {
    hide *;
    NamePattern(e, schema, "." + second);
    RuleParts(e, Backslashed(schema) + ("." + second), Literal(schema), second);
  }

  lemma BackslashedNothing()
    ensures Backslashed("") == ""
  {
  }

  lemma NoPattern(e: Engine)
    ensures ParsePattern(e, "").Err?
  {
  }

  lemma RuleOnly(e: Engine, files: Files, text: string)
    requires Trim(text) != "" && Trim(text)[0] !in {'#', '!', '@'}
    ensures LineRules(e, files, text, true) == match ParseRule(e, Trim(text), true) case Err(err) => Err(err) case Ok(r) => Ok([r])
  {
    hide AllRules, ParseRule, Trim;
  }

  // ---- whole schemas ----

  lemma StarPattern(e: Engine, rest: string)
    requires rest == "" || rest[0] == '.'
    ensures ParsePattern(e, "*" + rest) == Ok((Everything, rest))
  {
    var line := "*" + rest;
    assert line[1..] == rest;
    ReadsNothing(rest);
    assert Glob.ReadGlob(line, true) == Ok(([Glob.AnyStar], rest)) by { assert [Glob.AnyStar] + [] == [Glob.AnyStar]; }
    StarText();
    WildcardPattern(e, line);
    hide Glob.ReadGlob, ParsePattern, Glob.RegexText;
  }

  lemma StarText()
    ensures !Glob.IsLiteral([Glob.AnyStar])
    ensures Glob.HEAD + Glob.RegexText([Glob.AnyStar]) + "$" == "(?s)^.*$"
  {
    assert [Glob.AnyStar][0] == Glob.AnyStar;
    assert ".*" + "" == ".*";
  }

  /** `!schema.*` drops a schema with all its tables, and nothing else. */
  lemma DroppedSchema(e: Engine, files: Files, args: seq<string>, schema: string)
    ensures var before, after := FilterOf(e, files, args), FilterOf(e, files, args + ["!" + (Backslashed(schema) + ".*")]);
            && (before.Err? ==> after == before)
            && (before.Ok? ==>
                 && after.Ok?
                 && (forall s, t :: MatchTable(e, after.value, s, t) <==> s != schema && MatchTable(e, before.value, s, t))
                 && (forall s :: MatchSchema(e, after.value, s) <==> s != schema && MatchSchema(e, before.value, s)))
  {
    hide *;
    var line := Backslashed(schema) + ".*";
    NegatedIsTrimmed(Backslashed(schema));
    NamePattern(e, schema, ".*");
    assert "." + "*" == ".*" && "*" + "" == "*";
    StarPattern(e, "");
    RuleParts(e, line, Literal(schema), "*");
    NegatedRule(e, files, args, "!" + line, line, Rule(Literal(schema), Everything, true));
    FitsSchema(e, Literal(schema));
  }

  lemma NegatedIsTrimmed(pattern: string)
    ensures Trim("!" + (pattern + ".*")) == "!" + (pattern + ".*")
  {
    NothingToTrim("!" + (pattern + ".*"));
  }

  lemma FitsSchema(e: Engine, m: Matcher)
    ensures forall s, t :: Fits(e, Rule(m, Everything, true), s, t) <==> MatchString(e, m, s)
    ensures m.Literal? ==> forall s :: MatchString(e, m, s) <==> s == m.name
    ensures m.Pattern? ==> forall s :: MatchString(e, m, s) <==> e.matches(m.text, s)
  {
  }

  // ---- the default filter ----

  /** What can stand between slashes: a slash only behind a backslash, and no
      backslash at the end or in front of a line end. */
  predicate BetweenSlashes(text: string) {
    if text == "" then true
    else if text[0] == '\\' then |text| >= 2 && text[1] != '\n' && BetweenSlashes(text[2..])
    else text[0] != '/' && BetweenSlashes(text[1..])
  }

  lemma {:induction false} SlashEnds(text: string, rest: string, some: bool)
    requires BetweenSlashes(text) && (text != "" || some)
    ensures SlashEnd(text + ("/" + rest), some) == Some(|text| + 1)
  {
    var s := text + ("/" + rest);
    if text == "" {
      assert s == "/" + rest;
    } else if text[0] == '\\' {
      assert s[2..] == text[2..] + ("/" + rest) && s[1] == text[1];
      SlashEnds(text[2..], rest, true);
    } else {
      assert s[1..] == text[1..] + ("/" + rest) && s[0] == text[0];
      SlashEnds(text[1..], rest, true);
    }
  }

  lemma {:induction false} PlainBetween(text: string)
    requires '/' !in text && '\\' !in text
    ensures BetweenSlashes(text)
  {
    if text != "" {
      assert text[0] in text && forall c :: c in text[1..] ==> c in text;
      PlainBetween(text[1..]);
    }
  }

  /** A regular expression between slashes. */
  lemma RegexPattern(e: Engine, text: string, rest: string)
    requires text != "" && BetweenSlashes(text)
    ensures ParsePattern(e, "/" + (text + ("/" + rest))) == match NewRegexpMatcher(e, text)
                                                             case None => Err(InvalidPattern)
                                                             case Some(m) => Ok((m, rest))
  {
    var line := "/" + (text + ("/" + rest));
    SlashEnds(text, rest, false);
    assert line[1..] == text + ("/" + rest);
    var n := |text| + 1;
    assert line[1..n] == text && line[n + 1..] == rest;
    hide SlashEnd, NewRegexpMatcher, BetweenSlashes;
  }

  const SYSTEM_SCHEMAS := "^(pg_catalog|information_schema|pg_toast)$"

  /** `DefaultTableFilter`. */
  const DEFAULT_TABLE_FILTER := "!" + (("/" + (SYSTEM_SCHEMAS + "/")) + ".*")

  lemma AllTables(e: Engine, files: Files)
    ensures var r := FilterOf(e, files, ["*.*"]);
            && r.Ok? && (forall s, t :: MatchTable(e, r.value, s, t)) && (forall s :: MatchSchema(e, r.value, s))
  {
    NothingToTrim("*.*");
    hide *;
    StarPattern(e, ".*");
    StarPattern(e, "");
    assert "*" + ".*" == "*.*" && "." + "*" == ".*" && "*" + "" == "*" && [] + ["*.*"] == ["*.*"];
    RuleParts(e, "*.*", Everything, "*");
    NoArguments(e, files);
    AddedRule(e, files, [], "*.*", Rule(Everything, Everything, true));
    FitsAll(e);
  }

  lemma NoArguments(e: Engine, files: Files)
    ensures FilterOf(e, files, []).Ok?
  {
  }

  lemma FitsAll(e: Engine)
    ensures forall s, t :: Fits(e, Rule(Everything, Everything, true), s, t)
    ensures forall s :: MatchString(e, Everything, s)
  {
  }

  /** The filter of a run without `-f`: the tables of every schema but the system's. */
  lemma DefaultFilter(e: Engine, files: Files)
    requires e.valid(SYSTEM_SCHEMAS)
    ensures var r := FilterOf(e, files, ["*.*", DEFAULT_TABLE_FILTER]);
            && r.Ok?
            && (forall s, t :: MatchTable(e, r.value, s, t) <==> !e.matches(SYSTEM_SCHEMAS, s))
            && (forall s :: MatchSchema(e, r.value, s) <==> !e.matches(SYSTEM_SCHEMAS, s))
  {
    SystemRule(e);
    hide *;
    AllTables(e, files);
    var line := ("/" + (SYSTEM_SCHEMAS + "/")) + ".*";
    NegatedIsTrimmed("/" + (SYSTEM_SCHEMAS + "/"));
    assert ["*.*"] + ["!" + line] == ["*.*", "!" + line];
    NegatedRule(e, files, ["*.*"], "!" + line, line, Rule(Pattern(SYSTEM_SCHEMAS), Everything, true));
    FitsSchema(e, Pattern(SYSTEM_SCHEMAS));
  }

  lemma SystemRule(e: Engine)
    requires e.valid(SYSTEM_SCHEMAS)
    ensures ParseRule(e, ("/" + (SYSTEM_SCHEMAS + "/")) + ".*", true) == Ok(Rule(Pattern(SYSTEM_SCHEMAS), Everything, true))
  {
    SystemText();
    assert NewRegexpMatcher(e, SYSTEM_SCHEMAS) == Some(Pattern(SYSTEM_SCHEMAS));
    hide *;
    var line := ("/" + (SYSTEM_SCHEMAS + "/")) + ".*";
    assert line == "/" + (SYSTEM_SCHEMAS + ("/" + ".*"));
    RegexPattern(e, SYSTEM_SCHEMAS, ".*");
    assert "." + "*" == ".*" && "*" + "" == "*";
    StarPattern(e, "");
    RuleParts(e, line, Pattern(SYSTEM_SCHEMAS), "*");
  }

  lemma SystemText()
    ensures SYSTEM_SCHEMAS != "" && BetweenSlashes(SYSTEM_SCHEMAS) && SYSTEM_SCHEMAS != "(?s)^.*$"
  {
    NoSlash();
    NoBackslash();
    PlainBetween(SYSTEM_SCHEMAS);
    hide BetweenSlashes;
    assert SYSTEM_SCHEMAS[0] == '^';
  }

  lemma NoSlash()
    ensures '/' !in SYSTEM_SCHEMAS
  {
  }

  lemma NoBackslash()
    ensures '\\' !in SYSTEM_SCHEMAS
  {
  }
}
