/** Hexadecimal text of bytes (`%x`, `%X` and `%02X`) and its reading. */
module HexText {
  import opened Common
  import opened Quoting

  function HexDigit(n: nat, upper: bool): char
    requires n < 16
  {
    if upper then "0123456789ABCDEF"[n] else "0123456789abcdef"[n]
  }

  function HexByte(c: char, upper: bool): string {
    [HexDigit(c as int / 16 % 16, upper), HexDigit(c as int % 16, upper)]
  }

  /** `%x` or `%X` of a byte string. */
  function Hex(b: string, upper: bool): string {
    if b == "" then ""
    else HexByte(b[0], upper) + Hex(b[1..], upper)
  }

  function HexValue(c: char, upper: bool): Option<nat> {
    if '0' <= c <= '9' then Some(c as int - '0' as int)
    else if !upper && 'a' <= c <= 'f' then Some(c as int - 'a' as int + 10)
    else if upper && 'A' <= c <= 'F' then Some(c as int - 'A' as int + 10)
    else None
  }

  function Unhex(s: string, upper: bool): Option<string> {
    if s == "" then Some("")
    else if |s| == 1 then None
    else
      match (HexValue(s[0], upper), HexValue(s[1], upper), Unhex(s[2..], upper))
      case (Some(h), Some(l), Some(rest)) =>
        if h < 16 && l < 16 then Some([(16 * h + l) as char] + rest) else None
      case _ => None
  }

  /** Every element is one byte. */
  predicate IsBytes(s: string) {
    forall i :: 0 <= i < |s| ==> s[i] as int < 256
  }

  lemma HexDigitReads(n: nat, upper: bool)
    requires n < 16
    ensures HexValue(HexDigit(n, upper), upper) == Some(n)
    ensures HexDigit(n, upper) != '\''
  {
  }

  /** A byte is its two hexadecimal digits. */
  lemma Nibbles(c: char, upper: bool)
    requires c as int < 256
    ensures var h, l := c as int / 16 % 16, c as int % 16;
            && HexByte(c, upper) == [HexDigit(h, upper), HexDigit(l, upper)]
            && HexValue(HexDigit(h, upper), upper) == Some(h) && HexValue(HexDigit(l, upper), upper) == Some(l)
            && HexDigit(h, upper) != '\'' && HexDigit(l, upper) != '\''
            && 16 * h + l < 256 && (16 * h + l) as char == c
  {
    HexDigitReads(c as int / 16 % 16, upper);
    HexDigitReads(c as int % 16, upper);
    hide HexDigit, HexValue;
  }

  lemma UnhexPair(h: char, l: char, rest: string, upper: bool, hv: nat, lv: nat)
    requires HexValue(h, upper) == Some(hv) && HexValue(l, upper) == Some(lv) && hv < 16 && lv < 16
    ensures Unhex(rest, upper).Some? ==> Unhex([h, l] + rest, upper) == Some([(16 * hv + lv) as char] + Unhex(rest, upper).value)
  {
    hide HexValue;
    assert ([h, l] + rest)[2..] == rest;
  }

  lemma DoubledPair(h: char, l: char, rest: string, q: char)
    requires h != q && l != q
    ensures Doubled([h, l] + rest, q) == [h, l] + Doubled(rest, q)
  {
    var s := [h, l] + rest;
    assert s[1..] == [l] + rest && s[1..][1..] == rest;
  }

  lemma HexByteReads(c: char, upper: bool, rest: string)
    requires c as int < 256
    ensures var s := HexByte(c, upper) + rest;
            && (Unhex(rest, upper).Some? ==> Unhex(s, upper) == Some([c] + Unhex(rest, upper).value))
            && Doubled(s, '\'') == HexByte(c, upper) + Doubled(rest, '\'')
  {
    hide *;
    var h, l := c as int / 16 % 16, c as int % 16;
    Nibbles(c, upper);
    UnhexPair(HexDigit(h, upper), HexDigit(l, upper), rest, upper, h, l);
    DoubledPair(HexDigit(h, upper), HexDigit(l, upper), rest, '\'');
  }

  lemma {:induction false} UnhexOfHex(b: string, upper: bool)
    requires IsBytes(b)
    ensures Unhex(Hex(b, upper), upper) == Some(b)
    ensures Doubled(Hex(b, upper), '\'') == Hex(b, upper)
  {
    hide Unhex, Doubled;
    if b == "" {
      assert Unhex("", upper) == Some("") && Doubled("", '\'') == "" by { EmptyHex(upper); }
    } else {
      UnhexOfHex(b[1..], upper);
      HexByteReads(b[0], upper, Hex(b[1..], upper));
      assert b == [b[0]] + b[1..];
    }
  }

  lemma ValueIsDigit(c: char, upper: bool)
    requires HexValue(c, upper).Some?
    ensures HexValue(c, upper).value < 16 && HexDigit(HexValue(c, upper).value, upper) == c
  {
  }

  lemma NibblesOf(h: nat, l: nat)
    requires h < 16 && l < 16
    ensures 16 * h + l < 256 && (16 * h + l) / 16 % 16 == h && (16 * h + l) % 16 == l
  {
  }

  lemma ByteOf(n: nat, upper: bool)
    requires n < 256
    ensures HexByte(n as char, upper) == [HexDigit(n / 16 % 16, upper), HexDigit(n % 16, upper)]
  {
    assert (n as char) as int == n;
    hide HexDigit;
  }

  /** A pair of digits is the text of one byte. */
  lemma PairIsByte(h: char, l: char, upper: bool)
    requires HexValue(h, upper).Some? && HexValue(l, upper).Some?
    ensures var n := 16 * HexValue(h, upper).value + HexValue(l, upper).value;
            n < 256 && HexByte(n as char, upper) == [h, l]
  {
    hide *;
    ValueIsDigit(h, upper);
    ValueIsDigit(l, upper);
    NibblesOf(HexValue(h, upper).value, HexValue(l, upper).value);
    ByteOf(16 * HexValue(h, upper).value + HexValue(l, upper).value, upper);
  }

  lemma HexCons(c: char, b: string, upper: bool)
    ensures Hex([c] + b, upper) == HexByte(c, upper) + Hex(b, upper)
  {
    assert ([c] + b)[1..] == b;
  }

  /** Each hexadecimal text is the text of what it is read as. */
  lemma {:induction false} HexOfUnhex(s: string, upper: bool)
    requires Unhex(s, upper).Some?
    ensures Hex(Unhex(s, upper).value, upper) == s
  {
    if s != "" {
      HexOfUnhex(s[2..], upper);
      PairIsByte(s[0], s[1], upper);
      HexCons((16 * HexValue(s[0], upper).value + HexValue(s[1], upper).value) as char, Unhex(s[2..], upper).value, upper);
      assert s == [s[0], s[1]] + s[2..];
      hide HexByte, Hex, HexValue, IsBytes;
    }
  }

  lemma EmptyHex(upper: bool)
    ensures Unhex("", upper) == Some("") && Doubled("", '\'') == ""
  {
  }
}
