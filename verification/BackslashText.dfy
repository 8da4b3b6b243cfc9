/** String literals of MySQL in which a backslash escapes (section 9.1.1 of the
    MySQL 8.0 reference manual), and what is left in them of a text whose quotes
    alone were doubled. */
module BackslashText {
  import opened Common
  import opened Quoting

  /** What a backslash and the character behind it stand for. */
  function Unescaped(c: char): string {
    match c
    case '0' => [0 as char]
    case 'b' => [8 as char]
    case 't' => "\t"
    case 'n' => "\n"
    case 'r' => "\r"
    case 'Z' => [26 as char]
    case '%' => "\\%"
    case '_' => "\\_"
    case _ => [c]
  }

  /** The rest of a string literal in which a backslash escapes. */
  function ReadEscaped(s: string): (r: Option<(string, string)>)
    ensures r.Some? ==> |r.value.1| < |s|
  {
    if s == "" then None
    else if s[0] == '\\' then
      if |s| == 1 then None
      else
        match ReadEscaped(s[2..])
        case None => None
        case Some((body, rest)) => Some((Unescaped(s[1]) + body, rest))
    else if s[0] != '\'' then
      match ReadEscaped(s[1..])
      case None => None
      case Some((body, rest)) => Some(([s[0]] + body, rest))
    else if |s| >= 2 && s[1] == '\'' then
      match ReadEscaped(s[2..])
      case None => None
      case Some((body, rest)) => Some((['\''] + body, rest))
    else Some(("", s[1..]))
  }

  /** Every backslash stands in front of a `%` or a `_`, where it is kept. */
  predicate KeepsBackslashes(t: string) {
    if t == "" then true
    else if t[0] == '\\' then |t| >= 2 && t[1] in {'%', '_'} && KeepsBackslashes(t[2..])
    else KeepsBackslashes(t[1..])
  }

  /** A text without a backslash, seen byte by byte. */
  lemma {:induction false} NoBackslashKeeps(t: string)
    requires forall i :: 0 <= i < |t| ==> t[i] != '\\'
    ensures KeepsBackslashes(t)
  {
    if t != "" {
      NoBackslashKeeps(t[1..]);
    }
  }

  lemma EscapeFirst(c: char, s: string)
    ensures ReadEscaped(['\\', c] + s)
         == match ReadEscaped(s) case None => None case Some((body, rest)) => Some((Unescaped(c) + body, rest))
  {
    assert (['\\', c] + s)[2..] == s;
    hide Unescaped;
  }

  lemma CharFirst(c: char, s: string)
    requires c != '\\' && c != '\''
    ensures ReadEscaped([c] + s)
         == match ReadEscaped(s) case None => None case Some((body, rest)) => Some(([c] + body, rest))
  {
    assert ([c] + s)[1..] == s;
  }

  lemma QuoteFirst(s: string)
    ensures ReadEscaped("''" + s)
         == match ReadEscaped(s) case None => None case Some((body, rest)) => Some((['\''] + body, rest))
    ensures s == "" || s[0] != '\'' ==> ReadEscaped("'" + s) == Some(("", s))
  {
    assert ("''" + s)[2..] == s && ("'" + s)[1..] == s;
  }

  /** What is written for `t` in front of `rest`. */
  function Written(t: string, rest: string): string {
    Doubled(t, '\'') + "'" + rest
  }

  lemma DoubledStep(t: string)
    requires t != ""
    ensures Doubled(t, '\'') == (if t[0] == '\'' then "''" else [t[0]]) + Doubled(t[1..], '\'')
  {
  }

  lemma WrittenFirst(t: string, rest: string)
    ensures t == "" ==> Written(t, rest) == "'" + rest
    ensures t != "" ==> Written(t, rest) == (if t[0] == '\'' then "''" else [t[0]]) + Written(t[1..], rest)
  {
    hide Doubled;
    if t == "" {
      assert Doubled(t, '\'') == "" by { DoubledNothing(); }
      assert "" + "'" + rest == "'" + rest;
    } else {
      DoubledStep(t);
      var head, tail := if t[0] == '\'' then "''" else [t[0]], Doubled(t[1..], '\'');
      assert (head + tail) + "'" + rest == head + (tail + "'" + rest);
    }
  }

  lemma DoubledNothing()
    ensures Doubled("", '\'') == ""
  {
  }

  lemma WrittenStep(t: string, rest: string)
    ensures t == "" ==> Written(t, rest) == "'" + rest
    ensures t != "" && t[0] != '\'' ==> Written(t, rest) == [t[0]] + Written(t[1..], rest)
    ensures t != "" && t[0] == '\'' ==> Written(t, rest) == "''" + Written(t[1..], rest)
    ensures |t| >= 2 && t[0] == '\\' && t[1] != '\'' ==> Written(t, rest) == ['\\', t[1]] + Written(t[2..], rest)
    ensures |t| >= 2 && t[0] == '\\' && t[1] == '\'' ==> Written(t, rest) == ['\\', '\''] + ("'" + Written(t[2..], rest))
    ensures t == "\\" ==> Written(t, rest) == ['\\', '\''] + rest
  {
    hide *;
    WrittenFirst(t, rest);
    if |t| >= 2 && t[0] == '\\' {
      WrittenFirst(t[1..], rest);
      assert t[1..][1..] == t[2..] && t[1..][0] == t[1];
      var later := Written(t[2..], rest);
      assert ['\\'] + ([t[1]] + later) == ['\\', t[1]] + later;
      assert ['\\'] + ("''" + later) == ['\\', '\''] + ("'" + later);
    } else if t == "\\" {
      WrittenFirst("", rest);
      assert t[1..] == "";
    }
  }

  lemma UnescapedIs(c: char)
    ensures Unescaped(c) != "" && (Unescaped(c)[0] == '\\' <==> c in {'\\', '%', '_'})
    ensures c in {'%', '_'} ==> Unescaped(c) == ['\\', c]
    ensures c == '\\' ==> Unescaped(c) == "\\"
  {
  }

  function Backslashes(k: nat): string {
    if k == 0 then "" else "\\" + Backslashes(k - 1)
  }

  /** The head of what is read; a pair that is kept or halved is followed by what is
      read of the rest. */
  lemma ReadHead(t: string, rest: string)
    requires rest == "" || rest[0] != '\''
    ensures var r := ReadEscaped(Written(t, rest));
            && (t == "" ==> r == Some(("", rest)))
            && (t != "" && t[0] != '\\' ==>
                 match ReadEscaped(Written(t[1..], rest))
                 case None => r.None?
                 case Some((body, after)) => r == Some(([t[0]] + body, after)))
            && (|t| >= 2 && t[0] == '\\' && t[1] in {'\\', '%', '_'} ==>
                 match ReadEscaped(Written(t[2..], rest))
                 case None => r.None?
                 case Some((body, after)) => r == Some((Unescaped(t[1]) + body, after)))
            && (t != "" && t[0] == '\\' && !(|t| >= 2 && t[1] in {'\\', '%', '_'}) && r.Some? ==>
                 r.value.0 != "" && r.value.0[0] != '\\')
  {
    WrittenStep(t, rest);
    hide Written, ReadEscaped, Unescaped;
    if t == "" {
      QuoteFirst(rest);
    } else if t[0] == '\'' {
      QuoteFirst(Written(t[1..], rest));
    } else if t[0] != '\\' {
      CharFirst(t[0], Written(t[1..], rest));
    } else if |t| == 1 {
      assert t == "\\";
      EscapeFirst('\'', rest);
      UnescapedIs('\'');
    } else if t[1] == '\'' {
      EscapeFirst('\'', "'" + Written(t[2..], rest));
      UnescapedIs('\'');
    } else {
      EscapeFirst(t[1], Written(t[2..], rest));
      UnescapedIs(t[1]);
    }
  }

  lemma BackslashesFirst(k: nat, t: string)
    requires k > 0
    ensures var s := Backslashes(k) + t;
            && s != "" && s[0] == '\\' && s[1..] == Backslashes(k - 1) + t
            && (t != "" && t[0] == '\\' ==> |s| >= 2 && s[1] == '\\' && s[1..] == Backslashes(k) + t[1..])
  {
    if t != "" && t[0] == '\\' {
      MoveBackslash(k - 1, t);
    }
  }

  lemma {:induction false} MoveBackslash(k: nat, t: string)
    requires t != "" && t[0] == '\\'
    ensures Backslashes(k) + t == Backslashes(k + 1) + t[1..]
  {
    if k == 0 {
      assert Backslashes(1) == "\\" && "" + t == t;
    } else {
      MoveBackslash(k - 1, t);
      Regroup("\\", Backslashes(k - 1), t);
      Regroup("\\", Backslashes(k), t[1..]);
    }
  }

  /** A literal is never read as its text behind further backslashes. */
  lemma {:induction false} NoneGained(t: string, rest: string, k: nat)
    requires k > 0 && (rest == "" || rest[0] != '\'')
    ensures ReadEscaped(Written(t, rest)).Some? ==> ReadEscaped(Written(t, rest)).value.0 != Backslashes(k) + t
    decreases |t|
  {
    hide *;
    ReadHead(t, rest);
    BackslashesFirst(k, t);
    var r := ReadEscaped(Written(t, rest));
    if |t| >= 2 && t[0] == '\\' && t[1] in {'\\', '%', '_'} && r.Some? {
      UnescapedIs(t[1]);
      var body := ReadEscaped(Written(t[2..], rest)).value.0;
      if t[1] == '\\' {
        NoneGained(t[2..], rest, k + 1);
        BackslashesFirst(k, t[1..]);
        MoveBackslash(k, t[1..]);
        assert t[1..][1..] == t[2..];
        assert ("\\" + body)[1..] == body;
      } else {
        assert r.value.0[1] == t[1];
      }
    }
  }

  /** Where a backslash escapes, a text whose quotes are doubled reads back as itself
      exactly when it keeps its backslashes. */
  lemma {:induction false} EscapedReads(t: string, rest: string)
    requires rest == "" || rest[0] != '\''
    ensures var r := ReadEscaped(Doubled(t, '\'') + "'" + rest);
            if KeepsBackslashes(t) then r == Some((t, rest)) else r.None? || r.value.0 != t
    decreases |t|
  {
    WrittenIs(t, rest);
    KeepsStep(t);
    hide *;
    ReadHead(t, rest);
    if t == "" {
    } else if t[0] != '\\' {
      EscapedReads(t[1..], rest);
      WrittenIs(t[1..], rest);
      assert t == [t[0]] + t[1..];
      var r := ReadEscaped(Written(t[1..], rest));
      if r.Some? {
        ConsEqual(t[0], r.value.0, t);
      }
    } else if |t| >= 2 && t[1] in {'\\', '%', '_'} {
      UnescapedIs(t[1]);
      var r := ReadEscaped(Written(t[2..], rest));
      if t[1] == '\\' {
        NoneGained(t[2..], rest, 1);
        OneBackslash(t);
      } else {
        EscapedReads(t[2..], rest);
        WrittenIs(t[2..], rest);
        assert t == ['\\', t[1]] + t[2..];
        if r.Some? {
          assert (['\\', t[1]] + r.value.0)[2..] == r.value.0;
        }
      }
    }
  }

  lemma WrittenIs(t: string, rest: string)
    ensures Written(t, rest) == Doubled(t, '\'') + "'" + rest
  {
  }

  lemma KeepsStep(t: string)
    ensures KeepsBackslashes("")
    ensures t != "" && t[0] != '\\' ==> KeepsBackslashes(t) == KeepsBackslashes(t[1..])
    ensures t != "" && t[0] == '\\' ==>
              (KeepsBackslashes(t) <==> |t| >= 2 && t[1] in {'%', '_'} && KeepsBackslashes(t[2..]))
  {
  }

  lemma OneBackslash(t: string)
    requires |t| >= 2 && t[0] == '\\' && t[1] == '\\'
    ensures forall body: string :: "\\" + body == t ==> body == Backslashes(1) + t[2..]
  {
    assert Backslashes(1) == "\\";
    forall body: string | "\\" + body == t ensures body == "\\" + t[2..] {
      assert ("\\" + body)[1..] == body;
    }
  }
}
