/** Composite-key ranges compiled to WHERE clauses (`buildWhereClauses` and its
    helpers), and the proof that the clauses partition the key space. */
module KeyClauses {
  import opened Common
  import opened SqlExpr

  // ---- lexicographic order on key tuples ----

  predicate LexLess(t: seq<int>, b: seq<int>)
    requires |t| == |b|
  {
    t != [] && (t[0] < b[0] || (t[0] == b[0] && LexLess(t[1..], b[1..])))
  }

  predicate LexAtMost(b: seq<int>, t: seq<int>)
    requires |t| == |b|
  {
    !LexLess(t, b)
  }

  lemma {:induction false} LexTransitive(a: seq<int>, b: seq<int>, t: seq<int>)
    requires |a| == |b| == |t|
    requires LexAtMost(a, b) && LexAtMost(b, t)
    ensures LexAtMost(a, t)
  {
    if t != [] && t[0] == b[0] == a[0] {
      LexTransitive(a[1..], b[1..], t[1..]);
    }
  }

  /** The operator written for column `i` of `n`: `writeEqual` reaches only the last. */
  function RelationAt(greater: bool, writeEqual: bool, i: nat, n: nat): Relation {
    var eq := writeEqual && i == n - 1;
    if greater then (if eq then AtLeast else Greater) else (if eq then AtMost else Less)
  }

  /** `t` is on the asked side of `b` in lexicographic order. */
  predicate OnSide(t: seq<int>, b: seq<int>, greater: bool, writeEqual: bool)
    requires |t| == |b|
  {
    var less := LexLess(t, b);
    var more := LexLess(b, t);
    if greater then more || (writeEqual && !less) else less || (writeEqual && !more)
  }

  /** `t` and `b` agree before position `i`, and `i` settles the comparison. */
  predicate DecidedAt(t: seq<int>, b: seq<int>, i: nat, greater: bool, writeEqual: bool)
    requires |t| == |b|
  {
    i < |t| && t[..i] == b[..i] && Related(t[i], RelationAt(greater, writeEqual, i, |t|), b[i])
  }

  lemma {:induction false} LexDecided(t: seq<int>, b: seq<int>, greater: bool, writeEqual: bool)
    requires |t| == |b| && t != []
    ensures OnSide(t, b, greater, writeEqual)
       <==> exists i :: 0 <= i < |t| && DecidedAt(t, b, i, greater, writeEqual)
  {
    assert t[..0] == b[..0];
    if |t| == 1 {
      assert t[1..] == b[1..] == [];
      assert LexLess(t, b) <==> t[0] < b[0];
      assert LexLess(b, t) <==> b[0] < t[0];
      if OnSide(t, b, greater, writeEqual) {
        assert DecidedAt(t, b, 0, greater, writeEqual);
      }
    } else {
      var t', b' := t[1..], b[1..];
      LexDecided(t', b', greater, writeEqual);
      if OnSide(t, b, greater, writeEqual) {
        if t[0] != b[0] {
          assert LexLess(t, b) <==> t[0] < b[0];
          assert LexLess(b, t) <==> b[0] < t[0];
          assert DecidedAt(t, b, 0, greater, writeEqual);
        } else {
          var i :| 0 <= i < |t'| && DecidedAt(t', b', i, greater, writeEqual);
          assert t[..i + 1] == [t[0]] + t'[..i] && b[..i + 1] == [b[0]] + b'[..i];
          assert DecidedAt(t, b, i + 1, greater, writeEqual);
        }
      }
      if i :| 0 <= i < |t| && DecidedAt(t, b, i, greater, writeEqual) {
        if i > 0 {
          assert t[..i][0] == t[0] && b[..i][0] == b[0];
          assert t'[..i - 1] == t[..i][1..] && b'[..i - 1] == b[..i][1..];
          assert DecidedAt(t', b', i - 1, greater, writeEqual);
        }
      }
    }
  }

  // ---- buildCompareClause ----

  /** `c0=b0 and c1=b1 and ... ` up to column `i`. */
  function EqualPrefix(cols: seq<string>, bound: seq<string>, i: nat): seq<Token>
    requires i <= |cols| && i <= |bound|
  {
    if i == 0 then []
    else EqualPrefix(cols, bound, i - 1) + CompareTokens(cols[i - 1], Equal, bound[i - 1]) + [AndKw]
  }

  function Disjunct(cols: seq<string>, bound: seq<string>, greater: bool, writeEqual: bool, i: nat): seq<Token>
    requires i < |cols| && i < |bound|
  {
    EqualPrefix(cols, bound, i) + CompareTokens(cols[i], RelationAt(greater, writeEqual, i, |cols|), bound[i])
  }

  /** Every disjunct but the first stands in brackets after `or`. */
  function ClausePiece(cols: seq<string>, bound: seq<string>, greater: bool, writeEqual: bool, i: nat): seq<Token>
    requires i < |cols| && i < |bound|
  {
    if i == 0 then Disjunct(cols, bound, greater, writeEqual, i)
    else [OrKw, LP] + Disjunct(cols, bound, greater, writeEqual, i) + [RP]
  }

  function CompareClause(cols: seq<string>, bound: seq<string>, greater: bool, writeEqual: bool, n: nat): seq<Token>
    requires n <= |cols| && n <= |bound|
  {
    if n == 0 then []
    else CompareClause(cols, bound, greater, writeEqual, n - 1) + ClausePiece(cols, bound, greater, writeEqual, n - 1)
  }

  method WriteDisjunct(buf: seq<Token>, cols: seq<string>, bound: seq<string>, greater: bool, writeEqual: bool, i: nat)
    returns (out: seq<Token>)
    requires i < |cols| == |bound|
    ensures out == buf + Disjunct(cols, bound, greater, writeEqual, i)
  {
    out := buf;
    for j := 0 to i
      invariant out == buf + EqualPrefix(cols, bound, j)
    {
      out := out + CompareTokens(cols[j], Equal, bound[j]);
      out := out + [AndKw];
    }
    ghost var prefix := out;
    out := out + [Ident(cols[i])];
    out := out + [if greater then Gt else Lt];
    if writeEqual && i == |cols| - 1 {
      out := out + [Eq];
    }
    out := out + [Lit(bound[i])];
    assert out == prefix + CompareTokens(cols[i], RelationAt(greater, writeEqual, i, |cols|), bound[i]);
  }

  method BuildCompareClause(buf: seq<Token>, cols: seq<string>, bound: seq<string>, greater: bool, writeEqual: bool)
    returns (out: seq<Token>)
    requires |bound| == |cols|
    ensures out == buf + CompareClause(cols, bound, greater, writeEqual, |cols|)
  {
    hide Disjunct;
    out := buf;
    for i := 0 to |cols|
      invariant out == buf + CompareClause(cols, bound, greater, writeEqual, i)
    {
      var piece := WriteDisjunct(if i > 0 then [OrKw, LP] else [], cols, bound, greater, writeEqual, i);
      if i > 0 {
        piece := piece + [RP];
      }
      assert piece == ClausePiece(cols, bound, greater, writeEqual, i);
      out := out + piece;
    }
  }

  // ---- what those tokens mean ----

  /** Conjunctions associate to the left, in the order they were written. */
  function PrefixExpr(cols: seq<string>, bound: seq<string>, i: nat, last: Expr): Expr
    requires i <= |cols| && i <= |bound|
    decreases i
  {
    if i == 0 then last
    else And(PrefixExpr(cols, bound, i - 1, Compare(cols[i - 1], Equal, bound[i - 1])), last)
  }

  lemma {:induction false} ParsePrefix(cols: seq<string>, bound: seq<string>, i: nat, atom: seq<Token>, e: Expr,
                                       rest: seq<Token>)
    requires i <= |cols| && i <= |bound|
    requires Parse(2, atom + rest) == Some((e, rest))
    ensures Parse(1, EqualPrefix(cols, bound, i) + atom + rest) == Tail(1, PrefixExpr(cols, bound, i, e), rest)
    decreases i
  {
    if i == 0 {
      assert EqualPrefix(cols, bound, 0) + atom + rest == atom + rest;
      ParseOperand(1, atom + rest, e, rest);
    } else {
      hide Parse, Tail;
      var eq := CompareTokens(cols[i - 1], Equal, bound[i - 1]);
      var eqExpr := Compare(cols[i - 1], Equal, bound[i - 1]);
      ParseCompare(cols[i - 1], Equal, bound[i - 1], [AndKw] + (atom + rest));
      ParsePrefix(cols, bound, i - 1, eq, eqExpr, [AndKw] + (atom + rest));
      TailStep(1, PrefixExpr(cols, bound, i - 1, eqExpr), atom + rest, e, rest);
      RegroupConjunct(EqualPrefix(cols, bound, i - 1), eq, atom, rest);
    }
  }

  lemma RegroupConjunct(a: seq<Token>, eq: seq<Token>, atom: seq<Token>, rest: seq<Token>)
    ensures a + eq + [AndKw] + atom + rest == a + eq + ([AndKw] + (atom + rest))
  {
  }

  function DisjunctExpr(cols: seq<string>, bound: seq<string>, greater: bool, writeEqual: bool, i: nat): Expr
    requires i < |cols| && i < |bound|
  {
    PrefixExpr(cols, bound, i, Compare(cols[i], RelationAt(greater, writeEqual, i, |cols|), bound[i]))
  }

  lemma ParseDisjunct(cols: seq<string>, bound: seq<string>, greater: bool, writeEqual: bool, i: nat, rest: seq<Token>)
    requires i < |cols| && i < |bound| && NoAnd(rest)
    ensures Parse(1, Disjunct(cols, bound, greater, writeEqual, i) + rest)
         == Some((DisjunctExpr(cols, bound, greater, writeEqual, i), rest))
  {
    var rel := RelationAt(greater, writeEqual, i, |cols|);
    ParseCompare(cols[i], rel, bound[i], rest);
    ParsePrefix(cols, bound, i, CompareTokens(cols[i], rel, bound[i]), Compare(cols[i], rel, bound[i]), rest);
  }

  lemma ParseDisjunctAlone(cols: seq<string>, bound: seq<string>, greater: bool, writeEqual: bool, i: nat)
    requires i < |cols| && i < |bound|
    ensures ParseAll(Disjunct(cols, bound, greater, writeEqual, i))
         == Some(DisjunctExpr(cols, bound, greater, writeEqual, i))
  {
    ParseDisjunct(cols, bound, greater, writeEqual, i, []);
    var d := Disjunct(cols, bound, greater, writeEqual, i);
    assert d + [] == d;
    ConjunctIsAll(d, DisjunctExpr(cols, bound, greater, writeEqual, i));
  }

  function ClauseExpr(cols: seq<string>, bound: seq<string>, greater: bool, writeEqual: bool, n: nat): Expr
    requires 1 <= n <= |cols| && n <= |bound|
  {
    if n == 1 then DisjunctExpr(cols, bound, greater, writeEqual, 0)
    else Or(ClauseExpr(cols, bound, greater, writeEqual, n - 1), DisjunctExpr(cols, bound, greater, writeEqual, n - 1))
  }

  /** One more disjunct: what was parsed so far takes it as its right operand. */
  lemma ParseDisjunctAfter(a: seq<Token>, ea: Expr, d: seq<Token>, ed: Expr, rest: seq<Token>)
    requires ParseAll(d) == Some(ed) && NoAnd(rest)
    requires var more := [OrKw] + ([LP] + d + [RP] + rest);
             Parse(0, a + more) == Tail(0, ea, more)
    ensures Parse(0, a + ([OrKw, LP] + d + [RP]) + rest) == Tail(0, Or(ea, ed), rest)
  {
    var bracketed := [LP] + d + [RP] + rest;
    ParseBracketedConjunct(d, rest);
    TailStep(0, ea, bracketed, ed, rest);
    hide *;
    assert a + ([OrKw, LP] + d + [RP]) + rest == a + ([OrKw] + bracketed);
  }

  lemma {:induction false} ParseClause(cols: seq<string>, bound: seq<string>, greater: bool, writeEqual: bool,
                                       n: nat, rest: seq<Token>)
    requires 1 <= n <= |cols| && n <= |bound| && NoAnd(rest)
    ensures Parse(0, CompareClause(cols, bound, greater, writeEqual, n) + rest)
         == Tail(0, ClauseExpr(cols, bound, greater, writeEqual, n), rest)
    decreases n
  {
    hide Parse, Tail, Disjunct, DisjunctExpr;
    var d := Disjunct(cols, bound, greater, writeEqual, n - 1);
    var e := DisjunctExpr(cols, bound, greater, writeEqual, n - 1);
    if n == 1 {
      ParseDisjunct(cols, bound, greater, writeEqual, 0, rest);
      assert CompareClause(cols, bound, greater, writeEqual, 1) == d;
      ParseOperand(0, d + rest, e, rest);
    } else {
      ParseClause(cols, bound, greater, writeEqual, n - 1, [OrKw] + ([LP] + d + [RP] + rest));
      ParseDisjunctAlone(cols, bound, greater, writeEqual, n - 1);
      ParseDisjunctAfter(CompareClause(cols, bound, greater, writeEqual, n - 1),
                         ClauseExpr(cols, bound, greater, writeEqual, n - 1), d, e, rest);
    }
  }

  /** The key of a row, all of whose key columns are non-null. */
  predicate HasKey(row: Row, cols: seq<string>, t: seq<int>) {
    |t| == |cols| && forall i :: 0 <= i < |cols| ==> row.col(cols[i]) == Some(t[i])
  }

  function Values(row: Row, bound: seq<string>): (v: seq<int>)
    ensures |v| == |bound|
    ensures forall i :: 0 <= i < |bound| ==> v[i] == row.lit(bound[i])
  {
    seq(|bound|, i requires 0 <= i < |bound| => row.lit(bound[i]))
  }

  lemma {:induction false} EvalPrefix(cols: seq<string>, bound: seq<string>, i: nat, e: Expr, row: Row, t: seq<int>)
    requires |cols| == |bound| && i <= |cols| && HasKey(row, cols, t)
    requires Eval(e, row) != Unknown
    ensures Eval(PrefixExpr(cols, bound, i, e), row)
         == Truth(t[..i] == Values(row, bound)[..i] && Eval(e, row).True?)
    decreases i
  {
    var v := Values(row, bound);
    if i > 0 {
      EvalPrefix(cols, bound, i - 1, Compare(cols[i - 1], Equal, bound[i - 1]), row, t);
      assert t[..i] == t[..i - 1] + [t[i - 1]] && v[..i] == v[..i - 1] + [v[i - 1]];
    }
  }

  lemma {:induction false} EvalClause(cols: seq<string>, bound: seq<string>, greater: bool, writeEqual: bool, n: nat,
                                      row: Row, t: seq<int>)
    requires |cols| == |bound| && 1 <= n <= |cols| && HasKey(row, cols, t)
    ensures Eval(ClauseExpr(cols, bound, greater, writeEqual, n), row)
         == Truth(exists i :: 0 <= i < n && DecidedAt(t, Values(row, bound), i, greater, writeEqual))
    decreases n
  {
    var v := Values(row, bound);
    var i := n - 1;
    var last := Compare(cols[i], RelationAt(greater, writeEqual, i, |cols|), bound[i]);
    EvalPrefix(cols, bound, i, last, row, t);
    assert Eval(DisjunctExpr(cols, bound, greater, writeEqual, i), row)
        == Truth(DecidedAt(t, v, i, greater, writeEqual));
    if n > 1 {
      EvalClause(cols, bound, greater, writeEqual, n - 1, row, t);
    }
  }

  /** The clause text is the lexicographic comparison with the bound. */
  lemma CompareClauseMeaning(cols: seq<string>, bound: seq<string>, greater: bool, writeEqual: bool, row: Row,
                             t: seq<int>)
    requires |cols| == |bound| && cols != [] && HasKey(row, cols, t)
    ensures var clause := CompareClause(cols, bound, greater, writeEqual, |cols|);
            && ParseAll(clause).Some?
            && Eval(ParseAll(clause).value, row) == Truth(OnSide(t, Values(row, bound), greater, writeEqual))
  {
    hide OnSide, DecidedAt, Eval, ClauseExpr, CompareClause;
    EvalClause(cols, bound, greater, writeEqual, |cols|, row, t);
    LexDecided(t, Values(row, bound), greater, writeEqual);
    ParseClause(cols, bound, greater, writeEqual, |cols|, []);
    var clause := CompareClause(cols, bound, greater, writeEqual, |cols|);
    assert clause + [] == clause;
  }

  // ---- buildBetweenClause ----

  function CommonLength(low: seq<string>, up: seq<string>): (k: nat)
    requires |low| == |up|
    ensures k <= |low|
  {
    if low == [] || low[0] != up[0] then 0 else 1 + CommonLength(low[1..], up[1..])
  }

  lemma {:induction false} CommonLengthIsLongest(low: seq<string>, up: seq<string>)
    requires |low| == |up|
    ensures var k := CommonLength(low, up);
            low[..k] == up[..k] && (k < |low| ==> low[k] != up[k])
  {
    if low != [] && low[0] == up[0] {
      CommonLengthIsLongest(low[1..], up[1..]);
      var k := CommonLength(low, up);
      assert low[..k] == [low[0]] + low[1..][..k - 1] && up[..k] == [up[0]] + up[1..][..k - 1];
    }
  }

  method GetCommonLength(low: seq<string>, up: seq<string>) returns (k: nat)
    requires |low| == |up|
    ensures k == CommonLength(low, up)
  {
    for i := 0 to |low|
      invariant CommonLength(low, up) == i + CommonLength(low[i..], up[i..])
    {
      if low[i] != up[i] {
        return i;
      }
    }
    return |low|;
  }

  function Single(c: string, low: string, up: string, writeEqual: bool): seq<Token> {
    CompareTokens(c, if writeEqual then AtLeast else Greater, low) + [AndKw] + CompareTokens(c, Less, up)
  }

  /** `c0 = bound[0] and ( <comparison of the other columns> )`. */
  function Pinned(cols: seq<string>, bound: seq<string>, greater: bool, writeEqual: bool): seq<Token>
    requires |cols| == |bound| >= 2
  {
    EqualPrefix(cols, bound, 1)
    + ([LP] + CompareClause(cols[1..], bound[1..], greater, writeEqual, |cols| - 1) + [RP])
  }

  /** The range when the first columns of the bounds differ. */
  function RangeBody(cols: seq<string>, low: seq<string>, up: seq<string>): seq<Token>
    requires |cols| == |low| == |up| >= 1
  {
    if |cols| == 1 then Single(cols[0], low[0], up[0], true)
    else [LP] + Single(cols[0], low[0], up[0], false) + [RP]
         + ([OrKw] + ([LP] + Pinned(cols, low, true, true) + [RP]
         + ([OrKw] + ([LP] + Pinned(cols, up, false, false) + [RP]))))
  }

  function BetweenClause(cols: seq<string>, low: seq<string>, up: seq<string>): seq<Token>
    requires |cols| == |low| == |up| >= 1
  {
    var k := CommonLength(low, up);
    if k == |low| then [FalseKw]
    else if k > 0 then EqualPrefix(cols, low, k) + ([LP] + RangeBody(cols[k..], low[k..], up[k..]) + [RP])
    else RangeBody(cols, low, up)
  }

  method WriteSingleBetween(buf: seq<Token>, c: string, low: string, up: string,
                            writeEqual: bool) returns (out: seq<Token>)
    ensures out == buf + Single(c, low, up, writeEqual)
  {
    out := buf + [Ident(c)] + [Gt];
    if writeEqual {
      out := out + [Eq];
    }
    out := out + [Lit(low)];
    out := out + [AndKw];
    out := out + [Ident(c)] + [Lt] + [Lit(up)];
  }

  method WritePinned(buf: seq<Token>, cols: seq<string>, bound: seq<string>, greater: bool, writeEqual: bool)
    returns (out: seq<Token>)
    requires |cols| == |bound| >= 2
    ensures out == buf + Pinned(cols, bound, greater, writeEqual)
  {
    var eq := CompareTokens(cols[0], Equal, bound[0]) + [AndKw];
    assert EqualPrefix(cols, bound, 1) == eq;
    var rest := BuildCompareClause([LP], cols[1..], bound[1..], greater, writeEqual);
    out := buf + (eq + (rest + [RP]));
  }

  method WriteRangeBody(buf: seq<Token>, cols: seq<string>, low: seq<string>, up: seq<string>) returns (out: seq<Token>)
    requires |cols| == |low| == |up| >= 1
    ensures out == buf + RangeBody(cols, low, up)
  {
    if |cols| == 1 {
      out := WriteSingleBetween(buf, cols[0], low[0], up[0], true);
      return;
    }
    var first := WriteSingleBetween([LP], cols[0], low[0], up[0], false);
    var second := WritePinned([LP], cols, low, true, true);
    var third := WritePinned([LP], cols, up, false, false);
    out := buf + (first + [RP] + ([OrKw] + (second + [RP] + ([OrKw] + (third + [RP])))));
  }

  method BuildBetweenClause(buf: seq<Token>, cols: seq<string>, low: seq<string>,
                            up: seq<string>) returns (out: seq<Token>)
    requires |cols| == |low| == |up| >= 1
    ensures out == buf + BetweenClause(cols, low, up)
  {
    var k := GetCommonLength(low, up);
    if k == 0 {
      out := WriteRangeBody(buf, cols, low, up);
      return;
    }
    if k == |low| {
      out := buf + [FalseKw];
      return;
    }
    var prefix := [];
    for i := 0 to k
      invariant i > 0 ==> prefix + [AndKw] == EqualPrefix(cols, low, i)
      invariant i == 0 ==> prefix == []
    {
      if i > 0 {
        prefix := prefix + [AndKw];
      }
      prefix := prefix + CompareTokens(cols[i], Equal, low[i]);
    }
    prefix := prefix + [AndKw] + [LP];
    var body := WriteRangeBody([], cols[k..], low[k..], up[k..]);
    assert body == RangeBody(cols[k..], low[k..], up[k..]);
    out := buf + (prefix + body + [RP]);
    assert prefix + body + [RP] == BetweenClause(cols, low, up);
  }

  // ---- what the range means ----

  predicate InRange(low: seq<int>, up: seq<int>, t: seq<int>)
    requires |low| == |up| == |t|
  {
    LexAtMost(low, t) && LexLess(t, up)
  }

  lemma {:induction false} StripCommonPrefix(low: seq<int>, up: seq<int>, t: seq<int>, k: nat)
    requires |low| == |up| == |t| && k <= |t| && low[..k] == up[..k]
    ensures InRange(low, up, t) <==> t[..k] == low[..k] && InRange(low[k..], up[k..], t[k..])
    ensures LexAtMost(low, up) <==> LexAtMost(low[k..], up[k..])
    decreases k
  {
    if k > 0 {
      assert low[0] == low[..k][0] == up[..k][0] == up[0];
      assert low[1..][..k - 1] == low[..k][1..] == up[..k][1..] == up[1..][..k - 1];
      StripCommonPrefix(low[1..], up[1..], t[1..], k - 1);
      assert low[1..][k - 1..] == low[k..] && up[1..][k - 1..] == up[k..] && t[1..][k - 1..] == t[k..];
      assert t[..k] == [t[0]] + t[1..][..k - 1] && low[..k] == [low[0]] + low[1..][..k - 1];
    } else {
      assert low[0..] == low && up[0..] == up && t[0..] == t;
    }
  }

  lemma ParsePrefixed(cols: seq<string>, bound: seq<string>, i: nat, ts: seq<Token>)
    requires i <= |cols| && i <= |bound| && ParseAll(ts).Some?
    ensures ParseAll(EqualPrefix(cols, bound, i) + ([LP] + ts + [RP]))
         == Some(PrefixExpr(cols, bound, i, ParseAll(ts).value))
  {
    var atom := [LP] + ts + [RP];
    ParseBracketed(ts, []);
    assert [LP] + ts + [RP] + [] == atom + [];
    ParsePrefix(cols, bound, i, atom, ParseAll(ts).value, []);
    var all := EqualPrefix(cols, bound, i) + atom;
    assert EqualPrefix(cols, bound, i) + atom + [] == all;
    ConjunctIsAll(all, PrefixExpr(cols, bound, i, ParseAll(ts).value));
  }

  lemma SingleMeaning(c: string, low: string, up: string, writeEqual: bool, row: Row, x: int)
    requires row.col(c) == Some(x)
    ensures var s := Single(c, low, up, writeEqual);
            && ParseAll(s).Some?
            && Eval(ParseAll(s).value, row)
            == Truth((if writeEqual then x >= row.lit(low) else x > row.lit(low)) && x < row.lit(up))
  {
    var rel := if writeEqual then AtLeast else Greater;
    var s := Single(c, low, up, writeEqual);
    var right := CompareTokens(c, Less, up);
    assert s == CompareTokens(c, rel, low) + ([AndKw] + right);
    ParseCompare(c, rel, low, [AndKw] + right);
    ParseCompare(c, Less, up, []);
    assert right + [] == right;
    TailStep(1, Compare(c, rel, low), right, Compare(c, Less, up), []);
    ConjunctIsAll(s, And(Compare(c, rel, low), Compare(c, Less, up)));
  }

  lemma PinnedMeaning(cols: seq<string>, bound: seq<string>, greater: bool, writeEqual: bool, row: Row, t: seq<int>)
    requires |cols| == |bound| >= 2 && HasKey(row, cols, t)
    ensures var p := Pinned(cols, bound, greater, writeEqual);
            && ParseAll(p).Some?
            && Eval(ParseAll(p).value, row)
            == Truth(t[0] == row.lit(bound[0]) && OnSide(t[1..], Values(row, bound)[1..], greater, writeEqual))
  {
    hide CompareClause, Parse, Tail, OnSide;
    var inner := CompareClause(cols[1..], bound[1..], greater, writeEqual, |cols| - 1);
    CompareClauseMeaning(cols[1..], bound[1..], greater, writeEqual, row, t[1..]);
    assert Values(row, bound[1..]) == Values(row, bound)[1..];
    ParsePrefixed(cols, bound, 1, inner);
    EvalPrefix(cols, bound, 1, ParseAll(inner).value, row, t);
    assert t[..1] == [t[0]] && Values(row, bound)[..1] == [row.lit(bound[0])];
  }

  lemma ThreeWayOr(a: seq<Token>, b: seq<Token>, c: seq<Token>)
    requires ParseAll(a).Some? && ParseAll(b).Some? && ParseAll(c).Some?
    ensures ParseAll([LP] + a + [RP] + ([OrKw] + ([LP] + b + [RP] + ([OrKw] + ([LP] + c + [RP])))))
         == Some(Or(Or(ParseAll(a).value, ParseAll(b).value), ParseAll(c).value))
  {
    var last := [LP] + c + [RP];
    var mid := [LP] + b + [RP] + ([OrKw] + last);
    ParseBracketedConjunct(a, [OrKw] + mid);
    ParseBracketedConjunct(b, [OrKw] + last);
    ParseBracketedConjunct(c, []);
    assert last + [] == last;
    TailStep(0, ParseAll(a).value, mid, ParseAll(b).value, [OrKw] + last);
    TailStep(0, Or(ParseAll(a).value, ParseAll(b).value), last, ParseAll(c).value, []);
  }

  /** With `low <= up`, the range text never loses a key of the range. It
      selects no other key unless the first columns are equal and more follow,
      and then it selects the upper bound itself. */
  lemma RangeBodyMeaning(cols: seq<string>, low: seq<string>, up: seq<string>, row: Row, t: seq<int>)
    requires |cols| == |low| == |up| >= 1 && HasKey(row, cols, t)
    requires LexAtMost(Values(row, low), Values(row, up))
    ensures var body := RangeBody(cols, low, up);
            && ParseAll(body).Some?
            && Eval(ParseAll(body).value, row) != Unknown
            && var taken := Eval(ParseAll(body).value, row).True?;
               && (InRange(Values(row, low), Values(row, up), t) ==> taken)
               && (|cols| == 1 || row.lit(low[0]) != row.lit(up[0]) ==>
                     (taken ==> InRange(Values(row, low), Values(row, up), t)))
               && (|cols| > 1 && row.lit(low[0]) == row.lit(up[0]) && t == Values(row, up) ==> taken)
  {
    var l, u := Values(row, low), Values(row, up);
    SingleMeaning(cols[0], low[0], up[0], |cols| == 1, row, t[0]);
    assert LexAtMost(l, t) <==> t[0] > l[0] || (t[0] == l[0] && LexAtMost(l[1..], t[1..]));
    assert LexLess(t, u) <==> t[0] < u[0] || (t[0] == u[0] && LexLess(t[1..], u[1..]));
    assert l[0] < u[0] || (l[0] == u[0] && LexAtMost(l[1..], u[1..]));
    if |cols| == 1 {
      assert t[1..] == l[1..] == u[1..] == [];
    } else {
      PinnedMeaning(cols, low, true, true, row, t);
      PinnedMeaning(cols, up, false, false, row, t);
      LexAsymmetric(t[1..], l[1..]);
      LexAsymmetric(t[1..], u[1..]);
      ThreeWayOr(Single(cols[0], low[0], up[0], false), Pinned(cols, low, true, true), Pinned(cols, up, false, false));
    }
  }

  lemma {:induction false} LexAsymmetric(a: seq<int>, b: seq<int>)
    requires |a| == |b|
    ensures !(LexLess(a, b) && LexLess(b, a))
  {
    if a != [] {
      LexAsymmetric(a[1..], b[1..]);
    }
  }

  /** The first column whose literals are spelled differently holds different
      values there, or it is the last column. */
  predicate RealDifference(row: Row, low: seq<string>, up: seq<string>)
    requires |low| == |up|
  {
    var k := CommonLength(low, up);
    k + 1 >= |low| || row.lit(low[k]) != row.lit(up[k])
  }

  lemma SameSpellingSameValue(row: Row, low: seq<string>, up: seq<string>)
    requires |low| == |up|
    ensures var k := CommonLength(low, up);
            Values(row, low)[..k] == Values(row, up)[..k]
  {
    var k := CommonLength(low, up);
    CommonLengthIsLongest(low, up);
    forall i | 0 <= i < k ensures Values(row, low)[i] == Values(row, up)[i] {
      assert low[..k][i] == up[..k][i];
    }
  }

  /** The between clause selects `low <= key < up`, shared leading columns and
      equal bounds included: always at least these keys, and exactly these when
      the bounds differ for real. Otherwise it also selects the upper bound. */
  lemma BetweenClauseMeaning(cols: seq<string>, low: seq<string>, up: seq<string>, row: Row, t: seq<int>)
    requires |cols| == |low| == |up| >= 1 && HasKey(row, cols, t)
    requires LexAtMost(Values(row, low), Values(row, up))
    ensures InRange(Values(row, low), Values(row, up), t) ==> Selects(BetweenClause(cols, low, up), row)
    ensures RealDifference(row, low, up) ==>
              (Selects(BetweenClause(cols, low, up), row) <==> InRange(Values(row, low), Values(row, up), t))
    ensures !RealDifference(row, low, up) && t == Values(row, up) ==> Selects(BetweenClause(cols, low, up), row)
  {
    var l, u := Values(row, low), Values(row, up);
    var k := CommonLength(low, up);
    SameSpellingSameValue(row, low, up);
    StripCommonPrefix(l, u, t, k);
    if k == |low| {
      assert l == l[..k] && u == u[..k];
      assert Parse(3, [FalseKw]) == Some((Never, []));
      ConjunctIsAll([FalseKw], Never);
    } else {
      assert Values(row, low[k..]) == l[k..] && Values(row, up[k..]) == u[k..];
      RangeBodyMeaning(cols[k..], low[k..], up[k..], row, t[k..]);
      if k > 0 {
        var body := RangeBody(cols[k..], low[k..], up[k..]);
        ParsePrefixed(cols, low, k, body);
        EvalPrefix(cols, low, k, ParseAll(body).value, row, t);
      } else {
        assert cols[0..] == cols && low[0..] == low && up[0..] == up;
      }
    }
  }

  // ---- buildWhereClauses ----

  function ClauseAt(cols: seq<string>, vals: seq<seq<string>>, i: nat): seq<Token>
    requires cols != [] && vals != [] && i <= |vals|
    requires forall v <- vals :: |v| == |cols|
  {
    if i == 0 then CompareClause(cols, vals[0], false, false, |cols|)
    else if i < |vals| then BetweenClause(cols, vals[i - 1], vals[i])
    else CompareClause(cols, vals[|vals| - 1], true, true, |cols|)
  }

  method BuildClauseAt(cols: seq<string>, vals: seq<seq<string>>, i: nat) returns (clause: seq<Token>)
    requires cols != [] && vals != [] && i <= |vals|
    requires forall v <- vals :: |v| == |cols|
    ensures clause == ClauseAt(cols, vals, i)
  {
    if i == 0 {
      clause := BuildCompareClause([], cols, vals[0], false, false);
    } else if i < |vals| {
      clause := BuildBetweenClause([], cols, vals[i - 1], vals[i]);
    } else {
      clause := BuildCompareClause([], cols, vals[|vals| - 1], true, true);
    }
  }

  /** The first `n` clauses, in order. */
  function WhereClauses(cols: seq<string>, vals: seq<seq<string>>, n: nat): (where: seq<seq<Token>>)
    requires cols != [] && vals != [] && n <= |vals| + 1
    requires forall v <- vals :: |v| == |cols|
    ensures |where| == n
  {
    if n == 0 then [] else WhereClauses(cols, vals, n - 1) + [ClauseAt(cols, vals, n - 1)]
  }

  lemma {:induction false} WhereClausesAt(cols: seq<string>, vals: seq<seq<string>>, n: nat, i: nat)
    requires cols != [] && vals != [] && i < n <= |vals| + 1
    requires forall v <- vals :: |v| == |cols|
    ensures WhereClauses(cols, vals, n)[i] == ClauseAt(cols, vals, i)
  {
    hide ClauseAt;
    if i < n - 1 {
      WhereClausesAt(cols, vals, n - 1, i);
    }
  }

  method BuildWhereClauses(cols: seq<string>, vals: seq<seq<string>>) returns (where: seq<seq<Token>>)
    requires forall v <- vals :: |v| == |cols|
    ensures where == if cols == [] || vals == [] then [] else WhereClauses(cols, vals, |vals| + 1)
  {
    where := [];
    if cols == [] || vals == [] {
      return;
    }
    for i := 0 to |vals| + 1
      invariant where == WhereClauses(cols, vals, i)
    {
      var clause := BuildClauseAt(cols, vals, i);
      where := where + [clause];
    }
  }

  /** Bound `i` is not below bound `i - 1`. */
  predicate StepsUp(row: Row, vals: seq<seq<string>>, i: nat)
    requires 0 < i < |vals| && |vals[i - 1]| == |vals[i]|
  {
    LexAtMost(Values(row, vals[i - 1]), Values(row, vals[i]))
  }

  /** The bounds have the width of the key and never decrease. */
  ghost predicate GoodBounds(row: Row, n: nat, vals: seq<seq<string>>) {
    (forall v <- vals :: |v| == n) && forall i :: 0 < i < |vals| ==> StepsUp(row, vals, i)
  }

  ghost predicate DiffersForReal(row: Row, vals: seq<seq<string>>, i: nat)
    requires 0 < i < |vals| && |vals[i - 1]| == |vals[i]|
  {
    RealDifference(row, vals[i - 1], vals[i])
  }

  lemma {:induction false} BoundsSorted(row: Row, n: nat, vals: seq<seq<string>>, i: nat, j: nat)
    requires GoodBounds(row, n, vals) && i <= j < |vals|
    ensures LexAtMost(Values(row, vals[i]), Values(row, vals[j]))
    decreases j
  {
    if i < j {
      BoundsSorted(row, n, vals, i, j - 1);
      assert StepsUp(row, vals, j);
      LexTransitive(Values(row, vals[i]), Values(row, vals[j - 1]), Values(row, vals[j]));
    } else {
      LexIrreflexive(Values(row, vals[i]));
    }
  }

  lemma {:induction false} LexIrreflexive(a: seq<int>)
    ensures !LexLess(a, a)
  {
    if a != [] {
      LexIrreflexive(a[1..]);
    }
  }

  /** Clause `i` selects the keys from bound `i - 1` up to, not including, bound `i`. */
  predicate InBucket(row: Row, vals: seq<seq<string>>, i: nat, t: seq<int>)
    requires i <= |vals| && forall v <- vals :: |v| == |t|
  {
    && (i > 0 ==> LexAtMost(Values(row, vals[i - 1]), t))
    && (i < |vals| ==> LexLess(t, Values(row, vals[i])))
  }

  ghost predicate ClauseSelects(row: Row, cols: seq<string>, vals: seq<seq<string>>, i: nat)
    requires cols != [] && vals != [] && i <= |vals| && forall v <- vals :: |v| == |cols|
  {
    Selects(ClauseAt(cols, vals, i), row)
  }

  lemma ClauseIsBucket(row: Row, cols: seq<string>, vals: seq<seq<string>>, t: seq<int>, i: nat)
    requires cols != [] && vals != [] && HasKey(row, cols, t) && GoodBounds(row, |cols|, vals)
    requires i <= |vals|
    ensures InBucket(row, vals, i, t) ==> ClauseSelects(row, cols, vals, i)
    ensures (0 < i < |vals| ==> DiffersForReal(row, vals, i)) ==>
              (ClauseSelects(row, cols, vals, i) <==> InBucket(row, vals, i, t))
  {
    assert |t| == |cols| && forall v <- vals :: |v| == |cols|;
    hide CompareClause, BetweenClause, ParseAll, Eval, LexLess, Values, RealDifference, HasKey;
    if i == 0 {
      CompareClauseMeaning(cols, vals[0], false, false, row, t);
    } else if i == |vals| {
      CompareClauseMeaning(cols, vals[|vals| - 1], true, true, row, t);
      LexAsymmetric(t, Values(row, vals[|vals| - 1]));
    } else {
      assert StepsUp(row, vals, i);
      BetweenClauseMeaning(cols, vals[i - 1], vals[i], row, t);
    }
  }

  /** Some bucket takes the key: the one after the last bound the key reaches. */
  lemma {:induction false} FindBucket(row: Row, vals: seq<seq<string>>, t: seq<int>, n: nat) returns (i: nat)
    requires n <= |vals| && forall v <- vals :: |v| == |t|
    requires n < |vals| ==> LexLess(t, Values(row, vals[n]))
    ensures i <= |vals| && InBucket(row, vals, i, t)
  {
    if n == 0 || LexAtMost(Values(row, vals[n - 1]), t) {
      i := n;
    } else {
      i := FindBucket(row, vals, t, n - 1);
    }
  }

  lemma BucketsDisjoint(row: Row, vals: seq<seq<string>>, t: seq<int>, i: nat, j: nat)
    requires GoodBounds(row, |t|, vals) && i < j <= |vals|
    requires InBucket(row, vals, i, t)
    ensures !InBucket(row, vals, j, t)
  {
    BoundsSorted(row, |t|, vals, i, j - 1);
    if LexAtMost(Values(row, vals[j - 1]), t) {
      LexTransitive(Values(row, vals[i]), Values(row, vals[j - 1]), t);
    }
  }

  /** No key is lost, whatever the key width and the bounds. */
  lemma EveryKeyIsSelected(row: Row, cols: seq<string>, vals: seq<seq<string>>, t: seq<int>)
    requires cols != [] && vals != [] && HasKey(row, cols, t) && GoodBounds(row, |cols|, vals)
    ensures exists i :: 0 <= i <= |vals| && ClauseSelects(row, cols, vals, i)
  {
    var b := FindBucket(row, vals, t, |vals|);
    ClauseIsBucket(row, cols, vals, t, b);
    assert ClauseSelects(row, cols, vals, b);
  }

  /** When neighbouring bounds differ for real, no key is selected twice. */
  lemma NoKeySelectedTwice(row: Row, cols: seq<string>, vals: seq<seq<string>>, t: seq<int>, i: nat, j: nat)
    requires cols != [] && vals != [] && HasKey(row, cols, t) && GoodBounds(row, |cols|, vals)
    requires forall k :: 0 < k < |vals| ==> DiffersForReal(row, vals, k)
    requires i < j <= |vals|
    ensures !(ClauseSelects(row, cols, vals, i) && ClauseSelects(row, cols, vals, j))
  {
    ClauseIsBucket(row, cols, vals, t, i);
    ClauseIsBucket(row, cols, vals, t, j);
    if InBucket(row, vals, i, t) {
      BucketsDisjoint(row, vals, t, i, j);
    }
  }

  /** When they do not, the row that holds such a bound is selected twice. */
  lemma SpelledBoundSelectedTwice(row: Row, cols: seq<string>, vals: seq<seq<string>>, k: nat) returns (j: nat)
    requires cols != [] && GoodBounds(row, |cols|, vals)
    requires 0 < k < |vals| && !DiffersForReal(row, vals, k)
    requires HasKey(row, cols, Values(row, vals[k]))
    ensures k < j <= |vals|
    ensures ClauseSelects(row, cols, vals, k) && ClauseSelects(row, cols, vals, j)
  {
    var t := Values(row, vals[k]);
    assert StepsUp(row, vals, k);
    BetweenClauseMeaning(cols, vals[k - 1], vals[k], row, t);
    j := FindBucket(row, vals, t, |vals|);
    if j <= k {
      BoundsSorted(row, |cols|, vals, j, k);
    }
    ClauseIsBucket(row, cols, vals, t, j);
  }

  /** A concrete case: the bounds (1, 2) and (01, 2) are equal under two
      spellings, and the row whose key is (1, 2) is selected by two clauses. */
  lemma SpellingMatters(row: Row) returns (j: nat)
    requires row.lit("1") == row.lit("01") == 1 && row.lit("2") == 2
    requires row.col("a") == Some(1) && row.col("b") == Some(2)
    ensures 1 < j <= 2
    ensures Selects(ClauseAt(["a", "b"], [["1", "2"], ["01", "2"]], 1), row)
    ensures Selects(ClauseAt(["a", "b"], [["1", "2"], ["01", "2"]], j), row)
  {
    var cols, vals := ["a", "b"], [["1", "2"], ["01", "2"]];
    LexIrreflexive([1, 2]);
    assert Values(row, vals[0]) == [1, 2] && Values(row, vals[1]) == [1, 2];
    assert CommonLength(vals[0], vals[1]) == 0;
    j := SpelledBoundSelectedTwice(row, cols, vals, 1);
  }
}
