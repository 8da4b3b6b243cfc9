/** Table filters (`internal/table-filter`): matchers, the `Filter` implementations,
    and how the dump applies them (`block_allow_list.go`). */
module TableFilter {
  import opened Common

  /** The regular-expression package: which texts compile, and which names they match. */
  datatype Engine = Engine(valid: string -> bool, matches: (string, string) -> bool)

  // ---- matchers ----

  datatype Matcher = Literal(name: string) | Everything | Pattern(text: string)

  /** `newRegexpMatcher`: the text of a lone `*` gets a matcher of its own. */
  function NewRegexpMatcher(e: Engine, text: string): Option<Matcher> {
    if text == "(?s)^.*$" then Some(Everything)
    else if e.valid(text) then Some(Pattern(text))
    else None
  }

  predicate MatchString(e: Engine, m: Matcher, name: string) {
    match m
    case Literal(s) => s == name
    case Everything => true
    case Pattern(text) => e.matches(text, name)
  }

  predicate MatchAllStrings(m: Matcher) {
    m.Everything?
  }

  /** `strings.ToLower` on ASCII names. */
  function Lower(s: string): string {
    seq(|s|, i requires 0 <= i < |s| => LowerChar(s[i]))
  }

  function LowerMatcher(m: Matcher): Matcher {
    match m
    case Literal(s) => Literal(Lower(s))
    case Everything => Everything
    case Pattern(text) => Pattern("(?i)" + text)
  }

  // ---- filters ----

  datatype Rule = Rule(schema: Matcher, table: Matcher, positive: bool)

  datatype Filter =
    | Rules(rules: seq<Rule>)
    | Lowered(wrapped: Filter)
    | All
    | Schemas(schemas: set<string>)
    | Tables(tables: map<string, set<string>>)
    | Both(a: Filter, b: Filter)

  /** The scan of `tableFilter.MatchTable`: the first rule that fits decides. */
  predicate RulesMatchTable(e: Engine, rules: seq<Rule>, schema: string, table: string) {
    if rules == [] then false
    else if MatchString(e, rules[0].schema, schema) && MatchString(e, rules[0].table, table) then rules[0].positive
    else RulesMatchTable(e, rules[1..], schema, table)
  }

  /** The scan of `tableFilter.MatchSchema`: a negative rule decides only if it is for all tables. */
  predicate RulesMatchSchema(e: Engine, rules: seq<Rule>, schema: string) {
    if rules == [] then false
    else if MatchString(e, rules[0].schema, schema) && (rules[0].positive || MatchAllStrings(rules[0].table)) then rules[0].positive
    else RulesMatchSchema(e, rules[1..], schema)
  }

  predicate MatchTable(e: Engine, f: Filter, schema: string, table: string) {
    match f
    case Rules(rules) => RulesMatchTable(e, rules, schema, table)
    case Lowered(w) => MatchTable(e, w, Lower(schema), Lower(table))
    case All => true
    case Schemas(s) => schema in s
    case Tables(m) => schema in m && table in m[schema]
    case Both(a, b) => MatchTable(e, a, schema, table) && MatchTable(e, b, schema, table)
  }

  predicate MatchSchema(e: Engine, f: Filter, schema: string) {
    match f
    case Rules(rules) => RulesMatchSchema(e, rules, schema)
    case Lowered(w) => MatchSchema(e, w, Lower(schema))
    case All => true
    case Schemas(s) => schema in s
    case Tables(m) => schema in m
    case Both(a, b) => MatchSchema(e, a, schema) && MatchSchema(e, b, schema)
  }

  function LowerRules(rules: seq<Rule>): seq<Rule> {
    seq(|rules|, i requires 0 <= i < |rules| =>
      Rule(LowerMatcher(rules[i].schema), LowerMatcher(rules[i].table), rules[i].positive))
  }

  function LowerNames(names: set<string>): set<string> {
    set x | x in names :: Lower(x)
  }

  /** The tables of all schemas whose name lowers to `schema`. */
  function LowerTables(m: map<string, set<string>>, schema: string): set<string> {
    set s, t | s in m && t in m[s] && Lower(s) == schema :: Lower(t)
  }

  function LowerFilter(f: Filter): Filter {
    match f
    case Rules(rules) => Rules(LowerRules(rules))
    case Lowered(_) => f
    case All => All
    case Schemas(s) => Schemas(LowerNames(s))
    case Tables(m) => Tables(map x | x in LowerNames(m.Keys) :: LowerTables(m, x))
    case Both(a, b) => Both(LowerFilter(a), LowerFilter(b))
  }

  /** `CaseInsensitive`. */
  function CaseInsensitive(f: Filter): Filter {
    Lowered(LowerFilter(f))
  }

  /** The same name but for the case of ASCII letters. */
  predicate SameButCase(a: string, b: string) {
    |a| == |b| && forall i :: 0 <= i < |a| ==> SameLetter(a[i], b[i])
  }

  predicate SameLetter(a: char, b: char) {
    || a == b
    || ('A' <= a <= 'Z' && b as int - a as int == 'a' as int - 'A' as int)
    || ('A' <= b <= 'Z' && a as int - b as int == 'a' as int - 'A' as int)
  }

  lemma LowerEqual(a: string, b: string)
    ensures Lower(a) == Lower(b) <==> SameButCase(a, b)
  {
    forall x: char, y: char ensures LowerChar(x) == LowerChar(y) <==> SameLetter(x, y) {
      LowerLetters(x, y);
    }
    hide LowerChar, SameLetter;
    if Lower(a) == Lower(b) {
      forall i | 0 <= i < |a| ensures SameLetter(a[i], b[i]) {
        assert Lower(a)[i] == Lower(b)[i];
      }
    }
  }

  lemma LowerLetters(x: char, y: char)
    ensures LowerChar(x) == LowerChar(y) <==> SameLetter(x, y)
  {
  }

  /** A case-insensitive list of tables accepts what equals an entry up to case. */
  lemma CaseInsensitiveTables(e: Engine, m: map<string, set<string>>, schema: string, table: string)
    ensures MatchTable(e, CaseInsensitive(Tables(m)), schema, table)
       <==> exists s, t :: s in m && t in m[s] && SameButCase(s, schema) && SameButCase(t, table)
    ensures MatchSchema(e, CaseInsensitive(Tables(m)), schema) <==> exists s :: s in m && SameButCase(s, schema)
  {
    forall a, b ensures Lower(a) == Lower(b) <==> SameButCase(a, b) {
      LowerEqual(a, b);
    }
    hide Lower, SameButCase;
    var lowered := map x | x in LowerNames(m.Keys) :: LowerTables(m, x);
    assert CaseInsensitive(Tables(m)) == Lowered(Tables(lowered));
    if s, t :| s in m && t in m[s] && Lower(s) == Lower(schema) && Lower(t) == Lower(table) {
      assert Lower(s) in LowerNames(m.Keys);
      assert Lower(t) in LowerTables(m, Lower(schema));
    }
    if s :| s in m && Lower(s) == Lower(schema) {
      assert Lower(s) in LowerNames(m.Keys);
    }
  }

  /** What a pattern fits in the case-insensitive mode: a name up to case, everything,
      or what the regular expression matches behind `(?i)`. */
  predicate FitsAnyCase(e: Engine, m: Matcher, name: string) {
    match m
    case Literal(s) => SameButCase(s, name)
    case Everything => true
    case Pattern(text) => e.matches("(?i)" + text, Lower(name))
  }

  lemma LowerFits(e: Engine, m: Matcher, name: string)
    ensures MatchString(e, LowerMatcher(m), Lower(name)) <==> FitsAnyCase(e, m, name)
    ensures MatchAllStrings(LowerMatcher(m)) <==> m == Everything
  {
    if m.Literal? {
      LowerEqual(m.name, name);
    }
    hide Lower, SameButCase;
  }

  /** The case-insensitive form of a list of rules, rule by rule. */
  lemma CaseInsensitiveRules(e: Engine, r: Rule, rules: seq<Rule>, schema: string, table: string)
    ensures MatchTable(e, CaseInsensitive(Rules([r] + rules)), schema, table)
       <==> if FitsAnyCase(e, r.schema, schema) && FitsAnyCase(e, r.table, table) then r.positive
            else MatchTable(e, CaseInsensitive(Rules(rules)), schema, table)
    ensures MatchSchema(e, CaseInsensitive(Rules([r] + rules)), schema)
       <==> if FitsAnyCase(e, r.schema, schema) && (r.positive || r.table == Everything) then r.positive
            else MatchSchema(e, CaseInsensitive(Rules(rules)), schema)
    ensures !MatchTable(e, CaseInsensitive(Rules([])), schema, table) && !MatchSchema(e, CaseInsensitive(Rules([])), schema)
  {
    LowerFits(e, r.schema, schema);
    LowerFits(e, r.table, table);
    var all := LowerRules([r] + rules);
    assert all[1..] == LowerRules(rules);
    assert all[0] == Rule(LowerMatcher(r.schema), LowerMatcher(r.table), r.positive);
    hide Lower, LowerMatcher, MatchString, FitsAnyCase, LowerRules;
  }

  lemma LowerTwice(s: string)
    ensures Lower(Lower(s)) == Lower(s)
  {
  }

  /** The other filters, up to case; asking twice for case-insensitivity changes nothing. */
  lemma CaseInsensitiveOthers(e: Engine, a: Filter, b: Filter, names: set<string>, schema: string, table: string)
    ensures var f := CaseInsensitive(Schemas(names));
            && (MatchSchema(e, f, schema) <==> exists s :: s in names && SameButCase(s, schema))
            && (MatchTable(e, f, schema, table) <==> MatchSchema(e, f, schema))
    ensures var f, fa, fb := CaseInsensitive(Both(a, b)), CaseInsensitive(a), CaseInsensitive(b);
            && (MatchTable(e, f, schema, table) <==> MatchTable(e, fa, schema, table) && MatchTable(e, fb, schema, table))
            && (MatchSchema(e, f, schema) <==> MatchSchema(e, fa, schema) && MatchSchema(e, fb, schema))
    ensures var f := CaseInsensitive(a);
            && (MatchTable(e, CaseInsensitive(f), schema, table) <==> MatchTable(e, f, schema, table))
            && (MatchSchema(e, CaseInsensitive(f), schema) <==> MatchSchema(e, f, schema))
  {
    LowerTwice(schema);
    LowerTwice(table);
    forall x ensures Lower(x) == Lower(schema) <==> SameButCase(x, schema) {
      LowerEqual(x, schema);
    }
    hide Lower, SameButCase;
    if s :| s in names && Lower(s) == Lower(schema) {
      assert Lower(s) in LowerNames(names);
    }
  }

  /** `NewTablesFilter`. */
  method NewTablesFilter(e: Engine, tables: seq<(string, string)>) returns (f: Filter)
    ensures f.Tables?
    ensures forall s, t :: MatchTable(e, f, s, t) <==> (s, t) in tables
    ensures forall s :: MatchSchema(e, f, s) <==> exists i :: 0 <= i < |tables| && tables[i].0 == s
  {
    var m: map<string, set<string>> := map[];
    for i := 0 to |tables|
      invariant forall s, t :: (s in m && t in m[s]) <==> (s, t) in tables[..i]
      invariant forall s :: s in m <==> exists j :: 0 <= j < i && tables[j].0 == s
    {
      var (schema, name) := tables[i];
      assert tables[..i + 1] == tables[..i] + [tables[i]];
      var names := if schema in m then m[schema] else {};
      m := m[schema := names + {name}];
    }
    assert tables[..|tables|] == tables;
    f := Tables(m);
  }

  // ---- the two views agree ----

  lemma {:induction false} RulesAgree(e: Engine, rules: seq<Rule>, schema: string, table: string)
    requires RulesMatchTable(e, rules, schema, table)
    ensures RulesMatchSchema(e, rules, schema)
  {
    var r := rules[0];
    if MatchString(e, r.schema, schema) && (r.positive || MatchAllStrings(r.table)) {
      assert MatchAllStrings(r.table) ==> MatchString(e, r.table, table);
    } else {
      RulesAgree(e, rules[1..], schema, table);
    }
  }

  /** A table that is accepted is in a schema that is accepted, for every filter. */
  lemma {:induction false} TableMatchesSchema(e: Engine, f: Filter, schema: string, table: string)
    requires MatchTable(e, f, schema, table)
    ensures MatchSchema(e, f, schema)
  {
    match f
    case Rules(rules) => RulesAgree(e, rules, schema, table);
    case Lowered(w) => TableMatchesSchema(e, w, Lower(schema), Lower(table));
    case Both(a, b) =>
      TableMatchesSchema(e, a, schema, table);
      TableMatchesSchema(e, b, schema, table);
    case _ =>
  }

  // ---- the order of rules ----

  function Reversed<T>(s: seq<T>): seq<T> {
    if s == [] then [] else Reversed(s[1..]) + [s[0]]
  }

  /** The verdict of the last rule that fits. */
  predicate LastWins(e: Engine, rules: seq<Rule>, schema: string, table: string) {
    if rules == [] then false
    else
      var last := rules[|rules| - 1];
      if MatchString(e, last.schema, schema) && MatchString(e, last.table, table) then last.positive
      else LastWins(e, rules[..|rules| - 1], schema, table)
  }

  lemma {:induction false} ReversedLast<T>(s: seq<T>)
    requires s != []
    ensures Reversed(s) == [s[|s| - 1]] + Reversed(s[..|s| - 1])
  {
    if |s| > 1 {
      ReversedLast(s[1..]);
      assert s[1..][|s| - 2] == s[|s| - 1];
      assert s[1..][..|s| - 2] == s[..|s| - 1][1..];
      Regroup([s[|s| - 1]], Reversed(s[1..][..|s| - 2]), [s[0]]);
    } else {
      assert s[1..] == [] && s[..0] == [];
    }
  }

  /** The reversal in `Parse` makes the last argument that fits decide. */
  lemma {:induction false} ReversalMeansLastWins(e: Engine, rules: seq<Rule>, schema: string, table: string)
    ensures RulesMatchTable(e, Reversed(rules), schema, table) == LastWins(e, rules, schema, table)
    decreases |rules|
  {
    if rules != [] {
      ReversedLast(rules);
      assert Reversed(rules)[1..] == Reversed(rules[..|rules| - 1]);
      ReversalMeansLastWins(e, rules[..|rules| - 1], schema, table);
      hide MatchString;
    }
  }

  // ---- applying a filter ----

  /** `TableInfo`: of interest here is the name. */
  datatype TableInfo = TableInfo(name: string, avgRowLength: nat, kind: nat)

  type DatabaseTables = map<string, seq<TableInfo>>

  function Kept(e: Engine, f: Filter, schema: string, tables: seq<TableInfo>): seq<TableInfo> {
    if tables == [] then []
    else
      var init := Kept(e, f, schema, tables[..|tables| - 1]);
      var last := tables[|tables| - 1];
      if MatchTable(e, f, schema, last.name) then init + [last] else init
  }

  lemma KeptLast(e: Engine, f: Filter, schema: string, tables: seq<TableInfo>, t: TableInfo)
    ensures Kept(e, f, schema, tables + [t])
         == Kept(e, f, schema, tables) + if MatchTable(e, f, schema, t.name) then [t] else []
  {
    hide MatchTable;
    assert (tables + [t])[..|tables|] == tables;
  }

  lemma KeptNone(e: Engine, f: Filter, schema: string)
    ensures Kept(e, f, schema, []) == []
  {
  }

  /** The accepted tables, each as often as it is listed and in the same order. */
  lemma {:induction false} KeptConcat(e: Engine, f: Filter, schema: string, a: seq<TableInfo>, b: seq<TableInfo>)
    ensures Kept(e, f, schema, a + b) == Kept(e, f, schema, a) + Kept(e, f, schema, b)
    ensures forall t :: Kept(e, f, schema, [t]) == if MatchTable(e, f, schema, t.name) then [t] else []
    decreases |b|
  {
    hide *;
    KeptNone(e, f, schema);
    forall t ensures Kept(e, f, schema, [t]) == if MatchTable(e, f, schema, t.name) then [t] else [] {
      KeptLast(e, f, schema, [], t);
      assert [] + [t] == [t];
    }
    if b == [] {
      assert a + b == a;
    } else {
      var init, last := b[..|b| - 1], b[|b| - 1];
      var one := if MatchTable(e, f, schema, last.name) then [last] else [];
      assert b == init + [last] && a + b == (a + init) + [last];
      KeptLast(e, f, schema, init, last);
      KeptLast(e, f, schema, a + init, last);
      KeptConcat(e, f, schema, a, init);
      Regroup(Kept(e, f, schema, a), Kept(e, f, schema, init), one);
    }
  }

  lemma {:induction false} KeptSome(e: Engine, f: Filter, schema: string, tables: seq<TableInfo>)
    ensures Kept(e, f, schema, tables) != [] <==> exists i :: 0 <= i < |tables| && MatchTable(e, f, schema, tables[i].name)
    decreases |tables|
  {
    hide MatchTable;
    if tables != [] {
      var init := tables[..|tables| - 1];
      KeptSome(e, f, schema, init);
      if i :| 0 <= i < |init| && MatchTable(e, f, schema, init[i].name) {
        assert tables[i] == init[i];
      }
      if i :| 0 <= i < |tables| && MatchTable(e, f, schema, tables[i].name) {
        assert i < |init| ==> tables[i] == init[i];
      }
    }
  }

  predicate Stays(e: Engine, f: Filter, dumpEmpty: bool, schema: string, tables: seq<TableInfo>) {
    Kept(e, f, schema, tables) != [] || (dumpEmpty && MatchSchema(e, f, schema))
  }

  /** What filtering leaves: the accepted tables of each schema in their order, and
      accepted schemas without one when empty schemas are dumped too. */
  function FilteredTables(e: Engine, f: Filter, dumpEmpty: bool, all: DatabaseTables): DatabaseTables {
    map s | s in all && Stays(e, f, dumpEmpty, s, all[s]) :: Kept(e, f, s, all[s])
  }

  /** `filterDatabases`. */
  method FilterDatabases(e: Engine, f: Filter, databases: seq<string>) returns (kept: seq<string>)
    ensures forall s :: s in kept <==> s in databases && MatchSchema(e, f, s)
    ensures kept == KeptSchemas(e, f, databases)
  {
    hide MatchSchema;
    kept := [];
    for i := 0 to |databases|
      invariant forall s :: s in kept <==> s in databases[..i] && MatchSchema(e, f, s)
      invariant kept == KeptSchemas(e, f, databases[..i])
    {
      assert databases[..i + 1] == databases[..i] + [databases[i]];
      assert databases[..i + 1][..i] == databases[..i];
      if MatchSchema(e, f, databases[i]) {
        kept := kept + [databases[i]];
      }
    }
    assert databases[..|databases|] == databases;
  }

  function KeptSchemas(e: Engine, f: Filter, databases: seq<string>): seq<string> {
    if databases == [] then []
    else
      var init := KeptSchemas(e, f, databases[..|databases| - 1]);
      var last := databases[|databases| - 1];
      if MatchSchema(e, f, last) then init + [last] else init
  }

  /** `AppendTable`. */
  function AppendTable(m: DatabaseTables, schema: string, t: TableInfo): DatabaseTables {
    m[schema := (if schema in m then m[schema] else []) + [t]]
  }

  /** The part of `FilteredTables` for the schemas in `done`. */
  ghost function FilteredSome(e: Engine, f: Filter, dumpEmpty: bool, all: DatabaseTables,
                              done: set<string>): DatabaseTables {
    map s | s in all && s in done && Stays(e, f, dumpEmpty, s, all[s]) :: Kept(e, f, s, all[s])
  }

  lemma FilteredSomeStep(e: Engine, f: Filter, dumpEmpty: bool, all: DatabaseTables, done: set<string>, schema: string)
    requires schema in all && schema !in done
    ensures var m := FilteredSome(e, f, dumpEmpty, all, done);
            var kept := Kept(e, f, schema, all[schema]);
            && schema !in m
            && (schema in WithTables(m, schema, kept) <==> kept != [])
            && (kept == [] ==> WithTables(m, schema, kept) == m)
            && FilteredSome(e, f, dumpEmpty, all, done + {schema})
            == if kept == [] && dumpEmpty && MatchSchema(e, f, schema) then m[schema := []] else WithTables(m, schema, kept)
  {
    OneMoreSchema(e, f, dumpEmpty, all, done, schema);
    hide Kept, MatchSchema;
  }

  lemma OneMoreSchema(e: Engine, f: Filter, dumpEmpty: bool, all: DatabaseTables, done: set<string>, schema: string)
    requires schema in all && schema !in done
    ensures FilteredSome(e, f, dumpEmpty, all, done + {schema})
         == if Stays(e, f, dumpEmpty, schema, all[schema])
            then FilteredSome(e, f, dumpEmpty, all, done)[schema := Kept(e, f, schema, all[schema])]
            else FilteredSome(e, f, dumpEmpty, all, done)
  {
    hide Kept, Stays;
  }

  lemma FilteredSomeEnds(e: Engine, f: Filter, dumpEmpty: bool, all: DatabaseTables)
    ensures FilteredSome(e, f, dumpEmpty, all, {}) == map[]
    ensures FilteredSome(e, f, dumpEmpty, all, all.Keys) == FilteredTables(e, f, dumpEmpty, all)
  {
    hide Kept, Stays;
  }

  ghost predicate HasAccepted(e: Engine, f: Filter, schema: string, tables: seq<TableInfo>) {
    exists i :: 0 <= i < |tables| && MatchTable(e, f, schema, tables[i].name)
  }

  lemma WhatStays(e: Engine, f: Filter, dumpEmpty: bool, all: DatabaseTables)
    ensures var kept := FilteredTables(e, f, dumpEmpty, all);
            && (forall s :: s in kept <==> s in all && (HasAccepted(e, f, s, all[s]) || (dumpEmpty && MatchSchema(e, f, s))))
            && (forall s :: s in kept ==> kept[s] == Kept(e, f, s, all[s]))
  {
    forall s | s in all ensures Kept(e, f, s, all[s]) != [] <==> HasAccepted(e, f, s, all[s]) {
      KeptSome(e, f, s, all[s]);
    }
    hide Kept, MatchTable, MatchSchema, HasAccepted;
  }

  /** `filterTablesFunc`: the schemas come in no particular order. */
  method FilterTables(e: Engine, f: Filter, dumpEmpty: bool, all: DatabaseTables) returns (dbTables: DatabaseTables)
    ensures dbTables == FilteredTables(e, f, dumpEmpty, all)
    ensures forall s :: s in dbTables <==> s in all && (HasAccepted(e, f, s, all[s]) || (dumpEmpty && MatchSchema(e, f, s)))
    ensures forall s :: s in dbTables ==> dbTables[s] == Kept(e, f, s, all[s])
  {
    WhatStays(e, f, dumpEmpty, all);
    hide *;
    dbTables := map[];
    FilteredSomeEnds(e, f, dumpEmpty, all);
    var todo := all.Keys;
    assert all.Keys - todo == {};
    while todo != {}
      invariant todo <= all.Keys
      invariant dbTables == FilteredSome(e, f, dumpEmpty, all, all.Keys - todo)
      decreases |todo|
    {
      var schema :| schema in todo;
      ghost var before := dbTables;
      var tables := all[schema];
      FilteredSomeStep(e, f, dumpEmpty, all, all.Keys - todo, schema);
      KeptNothing(e, f, schema, before);
      assert tables[..0] == [];
      for i := 0 to |tables|
        invariant dbTables == WithTables(before, schema, Kept(e, f, schema, tables[..i]))
      {
        KeptStep(e, f, schema, tables, i);
        AppendsOne(before, schema, Kept(e, f, schema, tables[..i]), tables[i]);
        if MatchTable(e, f, schema, tables[i].name) {
          dbTables := AppendTable(dbTables, schema, tables[i]);
        }
      }
      assert tables[..|tables|] == tables;
      if dumpEmpty {
        if schema !in dbTables && MatchSchema(e, f, schema) {
          dbTables := dbTables[schema := []];
        }
      }
      assert all.Keys - (todo - {schema}) == (all.Keys - todo) + {schema};
      todo := todo - {schema};
    }
    assert all.Keys - {} == all.Keys;
  }

  /** A schema entered with the tables kept so far, if any. */
  function WithTables(m: DatabaseTables, schema: string, kept: seq<TableInfo>): DatabaseTables {
    if kept == [] then m else m[schema := kept]
  }

  lemma AppendsOne(m: DatabaseTables, schema: string, kept: seq<TableInfo>, t: TableInfo)
    requires schema !in m
    ensures AppendTable(WithTables(m, schema, kept), schema, t) == WithTables(m, schema, kept + [t])
  {
  }

  lemma KeptNothing(e: Engine, f: Filter, schema: string, m: DatabaseTables)
    ensures Kept(e, f, schema, []) == [] && WithTables(m, schema, []) == m
  {
  }

  lemma KeptStep(e: Engine, f: Filter, schema: string, tables: seq<TableInfo>, i: nat)
    requires i < |tables|
    ensures Kept(e, f, schema, tables[..i + 1])
         == if MatchTable(e, f, schema, tables[i].name) then Kept(e, f, schema, tables[..i]) + [tables[i]]
            else Kept(e, f, schema, tables[..i])
  {
    assert tables[..i + 1][..i] == tables[..i];
  }

  /** `ListAllDatabasesTables`: an entry for every listed schema, with its tables in the catalog. */
  function ListTables(catalog: map<string, seq<TableInfo>>, schemas: seq<string>): DatabaseTables {
    map s | s in schemas :: if s in catalog then catalog[s] else []
  }

  lemma {:induction false} RejectedSchemaKeepsNothing(e: Engine, f: Filter, schema: string, tables: seq<TableInfo>)
    requires !MatchSchema(e, f, schema)
    ensures Kept(e, f, schema, tables) == []
    decreases |tables|
  {
    if tables != [] {
      RejectedSchemaKeepsNothing(e, f, schema, tables[..|tables| - 1]);
      if MatchTable(e, f, schema, tables[|tables| - 1].name) {
        TableMatchesSchema(e, f, schema, tables[|tables| - 1].name);
      }
    }
  }

  lemma {:induction false} KeptSchemasAre(e: Engine, f: Filter, databases: seq<string>, s: string)
    ensures s in KeptSchemas(e, f, databases) <==> s in databases && MatchSchema(e, f, s)
    decreases |databases|
  {
    if databases != [] {
      var init, last := databases[..|databases| - 1], databases[|databases| - 1];
      assert databases == init + [last];
      KeptSchemasAre(e, f, init, s);
      hide MatchSchema;
    }
  }

  /** Listing only the accepted schemas and then filtering their tables gives the
      same tables, in the same order, as filtering the tables of all schemas. */
  lemma FilterSchemasFirst(e: Engine, f: Filter, dumpEmpty: bool, catalog: map<string, seq<TableInfo>>,
                           databases: seq<string>)
    ensures FilteredTables(e, f, dumpEmpty, ListTables(catalog, KeptSchemas(e, f, databases)))
         == FilteredTables(e, f, dumpEmpty, ListTables(catalog, databases))
  {
    var few, many := ListTables(catalog, KeptSchemas(e, f, databases)), ListTables(catalog, databases);
    forall s ensures s in few <==> s in many && MatchSchema(e, f, s) {
      KeptSchemasAre(e, f, databases, s);
    }
    forall s | s in many && !MatchSchema(e, f, s) ensures !Stays(e, f, dumpEmpty, s, many[s]) {
      RejectedSchemaKeepsNothing(e, f, s, many[s]);
    }
    hide Kept, MatchSchema, MatchTable, KeptSchemas, Stays;
  }
}
