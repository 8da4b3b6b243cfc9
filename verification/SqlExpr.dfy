/** The condition language of a WHERE clause: tokens, a precedence parser
    (OR binds weaker than AND, AND weaker than NOT) and three-valued meaning.
    Every `WriteString`/`WriteByte` of the clause builders is one or more of
    these tokens; `>` directly followed by `=` is the operator `>=`. */
module SqlExpr {
  import opened Common

  datatype Token =
    | Ident(name: string)     // a quoted column name
    | Lit(text: string)       // a literal
    | Lt | Gt | Eq
    | AndKw | OrKw | NotKw
    | FalseKw | IsNullKw
    | LP | RP
    | Opaque(id: nat)         // any other predicate of a user filter

  datatype Relation = Less | Greater | AtMost | AtLeast | Equal

  datatype Expr =
    | Or(a: Expr, b: Expr)
    | And(a: Expr, b: Expr)
    | Not(a: Expr)
    | Compare(col: string, rel: Relation, lit: string)
    | NullTest(col: string)
    | Never
    | Atom(id: nat)

  datatype Tri = True | False | Unknown

  /** What one table row makes of column names, literals and opaque predicates. */
  datatype Row = Row(col: string -> Option<int>, lit: string -> int, atom: nat -> Tri)

  function Truth(b: bool): Tri {
    if b then True else False
  }

  function TriOr(a: Tri, b: Tri): Tri {
    if a.True? || b.True? then True else if a.False? && b.False? then False else Unknown
  }

  function TriAnd(a: Tri, b: Tri): Tri {
    if a.False? || b.False? then False else if a.True? && b.True? then True else Unknown
  }

  function TriNot(a: Tri): Tri {
    match a case True => False case False => True case Unknown => Unknown
  }

  function Related(x: int, rel: Relation, y: int): bool {
    match rel
    case Less => x < y
    case Greater => x > y
    case AtMost => x <= y
    case AtLeast => x >= y
    case Equal => x == y
  }

  function Eval(e: Expr, row: Row): Tri {
    match e
    case Or(a, b) => TriOr(Eval(a, row), Eval(b, row))
    case And(a, b) => TriAnd(Eval(a, row), Eval(b, row))
    case Not(a) => TriNot(Eval(a, row))
    case Compare(c, rel, l) =>
      (match row.col(c)
       case None => Unknown
       case Some(x) => Truth(Related(x, rel, row.lit(l))))
    case NullTest(c) => Truth(row.col(c).None?)
    case Never => False
    case Atom(id) => row.atom(id)
  }

  // ---- parser: level 0 is OR, 1 is AND, 2 is NOT, 3 is a primary ----

  type Parsed = Option<(Expr, seq<Token>)>

  function Joiner(level: nat): Token {
    if level == 0 then OrKw else AndKw
  }

  function Join(level: nat, a: Expr, b: Expr): Expr {
    if level == 0 then Or(a, b) else And(a, b)
  }

  function Parse(level: nat, ts: seq<Token>): (r: Parsed)
    requires level <= 3
    ensures r.Some? ==> |r.value.1| < |ts|
    decreases |ts|, 4 - level
  {
    if level <= 1 then
      match Parse(level + 1, ts)
      case None => None
      case Some((e, rest)) => Tail(level, e, rest)
    else if level == 2 then
      if ts != [] && ts[0] == NotKw then
        match Parse(2, ts[1..])
        case None => None
        case Some((e, rest)) => Some((Not(e), rest))
      else Parse(3, ts)
    else if ts == [] then None
    else
      match ts[0]
      case LP =>
        (match Parse(0, ts[1..])
         case None => None
         case Some((e, rest)) =>
           if rest != [] && rest[0] == RP then Some((e, rest[1..])) else None)
      case FalseKw => Some((Never, ts[1..]))
      case Opaque(id) => Some((Atom(id), ts[1..]))
      case Ident(c) => Comparison(c, ts)
      case _ => None
  }

  function Comparison(c: string, ts: seq<Token>): (r: Parsed)
    requires ts != []
    ensures r.Some? ==> |r.value.1| < |ts|
  {
    if |ts| >= 2 && ts[1] == IsNullKw then Some((NullTest(c), ts[2..]))
    else if |ts| >= 4 && ts[1] in {Lt, Gt} && ts[2] == Eq && ts[3].Lit? then
      Some((Compare(c, if ts[1] == Lt then AtMost else AtLeast, ts[3].text), ts[4..]))
    else if |ts| >= 3 && ts[1] in {Lt, Gt, Eq} && ts[2].Lit? then
      Some((Compare(c, if ts[1] == Lt then Less else if ts[1] == Gt then Greater else Equal, ts[2].text), ts[3..]))
    else None
  }

  function Tail(level: nat, e: Expr, ts: seq<Token>): (r: Parsed)
    requires level <= 1
    ensures r.Some? ==> |r.value.1| <= |ts|
    decreases |ts|, 5
  {
    if ts != [] && ts[0] == Joiner(level) then
      match Parse(level + 1, ts[1..])
      case None => None
      case Some((e2, rest)) => Tail(level, Join(level, e, e2), rest)
    else Some((e, ts))
  }

  /** A whole text that is one condition. */
  function ParseAll(ts: seq<Token>): Option<Expr> {
    match Parse(0, ts)
    case None => None
    case Some((e, rest)) => if rest == [] then Some(e) else None
  }

  /** A row is returned when the condition is true: false and unknown both drop it. */
  predicate Selects(ts: seq<Token>, row: Row) {
    ParseAll(ts).Some? && Eval(ParseAll(ts).value, row).True?
  }

  /** What may follow a sub-condition without being read as part of it. */
  predicate Closed(u: seq<Token>) {
    u == [] || u[0] == RP
  }

  // ---- appending a closed continuation does not change what was parsed ----

  lemma {:induction false} ParseExtends(level: nat, ts: seq<Token>, u: seq<Token>)
    requires level <= 3 && Closed(u)
    requires Parse(level, ts).Some?
    ensures Parse(level, ts + u) == Some((Parse(level, ts).value.0, Parse(level, ts).value.1 + u))
    decreases |ts|, 4 - level
  {
    if level <= 1 {
      var (e, rest) := Parse(level + 1, ts).value;
      ParseExtends(level + 1, ts, u);
      TailExtends(level, e, rest, u);
    } else {
      assert (ts + u)[1..] == ts[1..] + u;
      assert (ts + u)[0] == ts[0];
      if level == 2 {
        if ts[0] == NotKw {
          ParseExtends(2, ts[1..], u);
        } else {
          ParseExtends(3, ts, u);
        }
      } else {
        match ts[0]
        case LP =>
          ParseExtends(0, ts[1..], u);
          var rest := Parse(0, ts[1..]).value.1;
          assert (rest + u)[1..] == rest[1..] + u;
        case Ident(c) =>
          ComparisonExtends(c, ts, u);
        case _ =>
      }
    }
  }

  lemma ComparisonExtends(c: string, ts: seq<Token>, u: seq<Token>)
    requires ts != [] && Comparison(c, ts).Some?
    ensures Comparison(c, ts + u) == Some((Comparison(c, ts).value.0, Comparison(c, ts).value.1 + u))
  {
    var w := ts + u;
    assert forall k :: 0 <= k < |ts| ==> w[k] == ts[k];
    if ts[1] == IsNullKw {
      assert w[2..] == ts[2..] + u;
    } else if |ts| >= 4 && ts[1] in {Lt, Gt} && ts[2] == Eq && ts[3].Lit? {
      assert w[4..] == ts[4..] + u;
    } else {
      assert w[3..] == ts[3..] + u;
    }
  }

  lemma {:induction false} TailExtends(level: nat, e: Expr, ts: seq<Token>, u: seq<Token>)
    requires level <= 1 && Closed(u)
    requires Tail(level, e, ts).Some?
    ensures Tail(level, e, ts + u) == Some((Tail(level, e, ts).value.0, Tail(level, e, ts).value.1 + u))
    decreases |ts|, 5
  {
    if ts == [] {
      assert ts + u == u;
    } else {
      assert (ts + u)[1..] == ts[1..] + u;
      if ts[0] == Joiner(level) {
        var (e2, rest) := Parse(level + 1, ts[1..]).value;
        ParseExtends(level + 1, ts[1..], u);
        TailExtends(level, Join(level, e, e2), rest, u);
      }
    }
  }

  /** A bracketed condition is one primary, whatever is inside it. */
  lemma ParseBracketed(ts: seq<Token>, rest: seq<Token>)
    requires ParseAll(ts).Some?
    ensures Parse(2, [LP] + ts + [RP] + rest) == Some((ParseAll(ts).value, rest))
  {
    var w := [LP] + ts + [RP] + rest;
    assert w[1..] == ts + ([RP] + rest);
    ParseExtends(0, ts, [RP] + rest);
    assert ([RP] + rest)[1..] == rest;
    assert [] + ([RP] + rest) == [RP] + rest;
  }

  /** Nothing after `rest` starts another conjunct. */
  predicate NoAnd(rest: seq<Token>) {
    rest == [] || rest[0] != AndKw
  }

  lemma ParseBracketedConjunct(ts: seq<Token>, rest: seq<Token>)
    requires ParseAll(ts).Some? && NoAnd(rest)
    ensures Parse(1, [LP] + ts + [RP] + rest) == Some((ParseAll(ts).value, rest))
  {
    ParseBracketed(ts, rest);
  }

  lemma ParseOperand(level: nat, ts: seq<Token>, e: Expr, rest: seq<Token>)
    requires level <= 1 && Parse(level + 1, ts) == Some((e, rest))
    ensures Parse(level, ts) == Tail(level, e, rest)
  {
  }

  lemma ConjunctIsAll(ts: seq<Token>, e: Expr)
    requires Parse(1, ts) == Some((e, []))
    ensures ParseAll(ts) == Some(e)
  {
    assert Parse(0, ts) == Tail(0, e, []);
  }

  lemma TailStep(level: nat, e: Expr, ts: seq<Token>, e2: Expr, rest: seq<Token>)
    requires level <= 1 && Parse(level + 1, ts) == Some((e2, rest))
    ensures Tail(level, e, [Joiner(level)] + ts) == Tail(level, Join(level, e, e2), rest)
  {
    assert ([Joiner(level)] + ts)[1..] == ts;
  }

  // ---- the comparisons the clause builders write ----

  function CompareTokens(c: string, rel: Relation, l: string): seq<Token> {
    match rel
    case Less => [Ident(c), Lt, Lit(l)]
    case Greater => [Ident(c), Gt, Lit(l)]
    case AtMost => [Ident(c), Lt, Eq, Lit(l)]
    case AtLeast => [Ident(c), Gt, Eq, Lit(l)]
    case Equal => [Ident(c), Eq, Lit(l)]
  }

  lemma ParseCompare(c: string, rel: Relation, l: string, rest: seq<Token>)
    ensures Parse(2, CompareTokens(c, rel, l) + rest) == Some((Compare(c, rel, l), rest))
  {
    var w := CompareTokens(c, rel, l) + rest;
    assert w[0] == Ident(c);
    if rel == AtLeast || rel == AtMost {
      assert w[4..] == rest;
    } else {
      assert w[3..] == rest;
    }
  }
}
