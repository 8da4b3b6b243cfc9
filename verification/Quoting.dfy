/** Quote-doubling: how names and string literals are written, and the scanner
    of section 5.3 of ISO/IEC 9075-2 that reads them back. */
module Quoting {
  import opened Common

  /** Left-to-right, non-overlapping replacement of `old` by `new_`. */
  function ReplaceAll(s: string, old_: string, new_: string): string
    requires old_ != ""
  {
    if |s| < |old_| then s
    else if old_ <= s then new_ + ReplaceAll(s[|old_|..], old_, new_)
    else [s[0]] + ReplaceAll(s[1..], old_, new_)
  }

  /** `s` with every `q` written twice. */
  function Doubled(s: string, q: char): string {
    if s == "" then ""
    else (if s[0] == q then [q, q] else [s[0]]) + Doubled(s[1..], q)
  }

  lemma {:induction false} ReplaceAllDoubles(s: string, q: char)
    ensures ReplaceAll(s, [q], [q, q]) == Doubled(s, q)
  {
    if s != "" {
      assert [q] <= s <==> s[0] == q;
      ReplaceAllDoubles(s[1..], q);
    }
  }

  lemma {:induction false} DoubledConcat(a: string, b: string, q: char)
    ensures Doubled(a + b, q) == Doubled(a, q) + Doubled(b, q)
  {
    if a == "" {
      assert a + b == b;
    } else {
      assert (a + b)[1..] == a[1..] + b;
      DoubledConcat(a[1..], b, q);
    }
  }

  /** Reads the body of a quoted token whose opening `q` has been consumed:
      a doubled `q` is one `q`, a lone `q` closes. */
  function ReadQuoted(s: string, q: char): (r: Option<(string, string)>)
    ensures r.Some? ==> |r.value.1| < |s|
  {
    if s == "" then None
    else if s[0] != q then
      match ReadQuoted(s[1..], q)
      case None => None
      case Some((body, rest)) => Some(([s[0]] + body, rest))
    else if |s| > 1 && s[1] == q then
      match ReadQuoted(s[2..], q)
      case None => None
      case Some((body, rest)) => Some(([q] + body, rest))
    else Some(("", s[1..]))
  }

  lemma {:induction false} ReadQuotedOfDoubled(body: string, q: char, rest: string)
    requires rest == "" || rest[0] != q
    ensures ReadQuoted(Doubled(body, q) + [q] + rest, q) == Some((body, rest))
  {
    var s := Doubled(body, q) + [q] + rest;
    if body == "" {
      assert s == [q] + rest;
      assert s[1..] == rest;
    } else {
      ReadQuotedOfDoubled(body[1..], q, rest);
      var tail := Doubled(body[1..], q) + [q] + rest;
      if body[0] == q {
        assert s == [q, q] + tail;
        assert s[2..] == tail;
      } else {
        assert s == [body[0]] + tail;
        assert s[1..] == tail;
      }
      assert body == [body[0]] + body[1..];
    }
  }

  lemma {:induction false} ReadQuotedOnlyDoubled(s: string, q: char, body: string, rest: string)
    requires ReadQuoted(s, q) == Some((body, rest))
    ensures s == Doubled(body, q) + [q] + rest
    ensures rest == "" || rest[0] != q
  {
    if s[0] != q {
      var (b, r) := ReadQuoted(s[1..], q).value;
      ReadQuotedOnlyDoubled(s[1..], q, b, r);
      assert body[1..] == b && s == [s[0]] + s[1..];
    } else if |s| > 1 && s[1] == q {
      var (b, r) := ReadQuoted(s[2..], q).value;
      ReadQuotedOnlyDoubled(s[2..], q, b, r);
      assert body[1..] == b && s == [q, q] + s[2..];
    }
  }

  /** The scanner accepts exactly the doubled texts followed by a lone quote. */
  lemma ReadQuotedIff(s: string, q: char, body: string, rest: string)
    ensures ReadQuoted(s, q) == Some((body, rest))
       <==> s == Doubled(body, q) + [q] + rest && (rest == "" || rest[0] != q)
  {
    if ReadQuoted(s, q) == Some((body, rest)) {
      ReadQuotedOnlyDoubled(s, q, body, rest);
    }
    if s == Doubled(body, q) + [q] + rest && (rest == "" || rest[0] != q) {
      ReadQuotedOfDoubled(body, q, rest);
    }
  }

  datatype Dialect = Pg | MySql

  function IdentQuote(d: Dialect): char {
    match d
    case Pg => '"'
    case MySql => '`'
  }

  function Quoted(name: string, q: char): string {
    [q] + Doubled(name, q) + [q]
  }

  /** `QuoteIdent` of both dialects and `pgQuoteIdent`: one pass over the bytes. */
  method QuoteIdent(name: string, q: char) returns (b: string)
    ensures b == Quoted(name, q)
    ensures ReadQuoted(b[1..], q) == Some((name, ""))
  {
    b := [q];
    for i := 0 to |name|
      invariant b == [q] + Doubled(name[..i], q)
    {
      DoubledConcat(name[..i], [name[i]], q);
      assert name[..i] + [name[i]] == name[..i + 1];
      assert Doubled([name[i]], q) == if name[i] == q then [q, q] else [name[i]];
      if name[i] == q {
        b := b + [q];
      }
      b := b + [name[i]];
    }
    assert name[..|name|] == name;
    b := b + [q];
    ReadQuotedOfDoubled(name, q, "");
    assert b[1..] == Doubled(name, q) + [q] + "";
  }

  /** `escapeStringLiteral`: the body of a single-quoted literal. */
  method EscapeStringLiteral(s: string) returns (out: string)
    ensures out == Doubled(s, '\'')
    ensures ReadQuoted(out + "'", '\'') == Some((s, ""))
  {
    out := "";
    for i := 0 to |s|
      invariant out == Doubled(s[..i], '\'')
    {
      DoubledConcat(s[..i], [s[i]], '\'');
      assert s[..i] + [s[i]] == s[..i + 1];
      assert Doubled([s[i]], '\'') == if s[i] == '\'' then "''" else [s[i]];
      if s[i] == '\'' {
        out := out + "''";
        continue;
      }
      out := out + [s[i]];
    }
    assert s[..|s|] == s;
    ReadQuotedOfDoubled(s, '\'', "");
    assert out + "'" == Doubled(s, '\'') + "'" + "";
  }

  /** `QuoteQName`: a qualified name, or the bare name when the schema is empty. */
  function QuoteQName(d: Dialect, schema: string, name: string): string {
    var q := IdentQuote(d);
    if schema == "" then Quoted(name, q) else Quoted(schema, q) + "." + Quoted(name, q)
  }
}
