/** The standard base64 text of bytes (section 4 of RFC 4648) and its reading. */
module Base64Text {
  import opened Common
  import opened HexText

  /** Upper-case letters, lower-case letters, digits, plus and slash. */
  function Digit64(n: nat): char
    requires n < 64
  {
    if n < 26 then ('A' as int + n) as char
    else if n < 52 then ('a' as int + n - 26) as char
    else if n < 62 then ('0' as int + n - 52) as char
    else if n == 62 then '+' else '/'
  }

  function Value64(c: char): Option<nat> {
    if 'A' <= c <= 'Z' then Some(c as int - 'A' as int)
    else if 'a' <= c <= 'z' then Some(c as int - 'a' as int + 26)
    else if '0' <= c <= '9' then Some(c as int - '0' as int + 52)
    else if c == '+' then Some(62)
    else if c == '/' then Some(63)
    else None
  }

  /** The four digits of up to three bytes, the last ones for bytes that are there. */
  function Quad(x: nat, y: nat, z: nat): string
    requires x < 256 && y < 256 && z < 256
  {
    [Digit64(x / 4), Digit64(x % 4 * 16 + y / 16), Digit64(y % 16 * 4 + z / 64), Digit64(z % 64)]
  }

  function Byte(c: char): (n: nat)
    ensures n < 256
  {
    c as int % 256
  }

  function Base64(b: string): string {
    if b == "" then ""
    else if |b| == 1 then Quad(Byte(b[0]), 0, 0)[..2] + "=="
    else if |b| == 2 then Quad(Byte(b[0]), Byte(b[1]), 0)[..3] + "="
    else Quad(Byte(b[0]), Byte(b[1]), Byte(b[2])) + Base64(b[3..])
  }

  /** The three bytes of four digits. */
  function Triple(v: nat, w: nat, x: nat, y: nat): (nat, nat, nat) {
    (v * 4 + w / 16, w % 16 * 16 + x / 4, x % 4 * 64 + y)
  }

  function Bytes64(s: string): (r: Option<(nat, nat, nat)>)
    requires |s| == 4
    ensures r.Some? ==> r.value.0 < 256 && r.value.1 < 256 && r.value.2 < 256
  {
    match (Value64(s[0]), Value64(s[1]), Value64(s[2]), Value64(s[3]))
    case (Some(v), Some(w), Some(x), Some(y)) =>
      if v < 64 && w < 64 && x < 64 && y < 64 then Some(Triple(v, w, x, y)) else None
    case _ => None
  }

  /** Padding stands at the end alone, and the bits it leaves over are zero. */
  function Unbase64(s: string): Option<string> {
    if s == "" then Some("")
    else if |s| < 4 then None
    else if |s| == 4 && s[2..] == "==" then
      match Bytes64(s[..2] + "AA")
      case Some((x, y, z)) => if y == 0 then Some([x as char]) else None
      case None => None
    else if |s| == 4 && s[3] == '=' then
      match Bytes64(s[..3] + "A")
      case Some((x, y, z)) => if z == 0 then Some([x as char, y as char]) else None
      case None => None
    else
      match (Bytes64(s[..4]), Unbase64(s[4..]))
      case (Some((x, y, z)), Some(rest)) => Some([x as char, y as char, z as char] + rest)
      case _ => None
  }

  /** What base64 text is made of. */
  predicate In64(c: char) {
    Value64(c).Some? || c == '='
  }

  lemma Digit64Reads(n: nat)
    requires n < 64
    ensures Value64(Digit64(n)) == Some(n) && Digit64(n) != '='
  {
  }

  lemma QuadReads(x: nat, y: nat, z: nat)
    requires x < 256 && y < 256 && z < 256
    ensures Bytes64(Quad(x, y, z)) == Some((x, y, z))
    ensures forall i :: 0 <= i < 4 ==> Value64(Quad(x, y, z)[i]).Some?
    ensures Quad(x, y, z)[2] != '=' && Quad(x, y, z)[3] != '='
    ensures y == 0 && z == 0 ==> Quad(x, y, z)[2..] == "AA"
    ensures z == 0 ==> Quad(x, y, z)[3] == 'A'
  {
    Digit64Reads(x / 4);
    Digit64Reads(x % 4 * 16 + y / 16);
    Digit64Reads(y % 16 * 4 + z / 64);
    Digit64Reads(z % 64);
    TripleOf(x, y, z);
    assert Digit64(0) == 'A';
    hide Value64, Digit64, Triple;
  }

  lemma TripleOf(x: nat, y: nat, z: nat)
    requires x < 256 && y < 256 && z < 256
    ensures Triple(x / 4, x % 4 * 16 + y / 16, y % 16 * 4 + z / 64, z % 64) == (x, y, z)
  {
  }

  lemma OneByteReads(x: nat)
    requires x < 256
    ensures Unbase64(Quad(x, 0, 0)[..2] + "==") == Some([x as char])
  {
    QuadReads(x, 0, 0);
    var q := Quad(x, 0, 0);
    hide Quad, Bytes64;
    var s := q[..2] + "==";
    assert s[2..] == "==" && s[..2] == q[..2] && q[..2] + q[2..] == q;
  }

  lemma TwoBytesRead(x: nat, y: nat)
    requires x < 256 && y < 256
    ensures Unbase64(Quad(x, y, 0)[..3] + "=") == Some([x as char, y as char])
  {
    QuadReads(x, y, 0);
    var q := Quad(x, y, 0);
    hide Quad, Bytes64;
    var s := q[..3] + "=";
    assert s[..3] == q[..3] && s[2] == q[2] && s[2..][0] == q[2] && q[..3] + "A" == q;
  }

  lemma Unbase64Step(x: nat, y: nat, z: nat, rest: string)
    requires x < 256 && y < 256 && z < 256
    ensures Unbase64(rest).Some? ==>
              Unbase64(Quad(x, y, z) + rest) == Some([x as char, y as char, z as char] + Unbase64(rest).value)
  {
    QuadReads(x, y, z);
    var q := Quad(x, y, z);
    assert (q + rest)[..4] == q && (q + rest)[4..] == rest && (q + rest)[2] == q[2] && (q + rest)[3] == q[3];
    assert |q + rest| == 4 ==> (q + rest)[2..][0] != '=';
    hide Quad, Bytes64;
  }

  lemma Base64Parts(b: string)
    ensures b == "" ==> Base64(b) == "" && Unbase64("") == Some("")
    ensures |b| == 1 ==> Base64(b) == Quad(Byte(b[0]), 0, 0)[..2] + "=="
    ensures |b| == 2 ==> Base64(b) == Quad(Byte(b[0]), Byte(b[1]), 0)[..3] + "="
    ensures |b| >= 3 ==> Base64(b) == Quad(Byte(b[0]), Byte(b[1]), Byte(b[2])) + Base64(b[3..])
  {
    hide Quad, Byte;
  }

  lemma ByteIs(c: char)
    requires c as int < 256
    ensures Byte(c) as char == c
  {
  }

  lemma BytesAre(b: string, n: nat)
    requires IsBytes(b) && n <= |b|
    ensures forall i :: 0 <= i < n ==> Byte(b[i]) as char == b[i]
    ensures IsBytes(b[n..])
  {
    hide Byte;
    forall i | 0 <= i < n ensures Byte(b[i]) as char == b[i] {
      ByteIs(b[i]);
    }
  }

  lemma FirstThree(b: string)
    requires |b| >= 3
    ensures b == [b[0], b[1], b[2]] + b[3..]
  {
  }

  /** Base64 text gives back every byte string. */
  lemma {:induction false} Unbase64OfBase64(b: string)
    requires IsBytes(b)
    ensures Unbase64(Base64(b)) == Some(b)
    decreases |b|
  {
    hide *;
    Base64Parts(b);
    if |b| <= 2 {
      BytesAre(b, |b|);
    }
    if b == "" {
    } else if |b| == 1 {
      OneByteReads(Byte(b[0]));
      assert b == [b[0]];
    } else if |b| == 2 {
      TwoBytesRead(Byte(b[0]), Byte(b[1]));
      assert b == [b[0], b[1]];
    } else {
      BytesAre(b, 3);
      Unbase64OfBase64(b[3..]);
      Unbase64Step(Byte(b[0]), Byte(b[1]), Byte(b[2]), Base64(b[3..]));
      FirstThree(b);
    }
  }

  lemma Value64Is(c: char)
    requires Value64(c).Some?
    ensures Value64(c).value < 64 && Digit64(Value64(c).value) == c
  {
  }

  lemma QuadOf(v: nat, w: nat, x: nat, y: nat)
    requires v < 64 && w < 64 && x < 64 && y < 64
    ensures var (p, q, r) := Triple(v, w, x, y);
            && p < 256 && q < 256 && r < 256
            && p / 4 == v && p % 4 * 16 + q / 16 == w && q % 16 * 4 + r / 64 == x && r % 64 == y
  {
  }

  /** Four digits are the text of the bytes they are read as. */
  lemma QuadIs(s: string)
    requires |s| == 4 && Bytes64(s).Some?
    ensures var (x, y, z) := Bytes64(s).value; Quad(x, y, z) == s
  {
    forall i | 0 <= i < 4 ensures Value64(s[i]).Some? && Value64(s[i]).value < 64 && Digit64(Value64(s[i]).value) == s[i] {
      Value64Is(s[i]);
    }
    QuadOf(Value64(s[0]).value, Value64(s[1]).value, Value64(s[2]).value, Value64(s[3]).value);
    hide Value64, Digit64, Triple;
  }

  lemma ZeroDigits(s: string)
    requires |s| == 4 && Bytes64(s).Some?
    ensures s[2] == 'A' && s[3] == 'A' && Bytes64(s).value.1 == 0 ==> Bytes64(s).value.2 == 0
  {
    assert Value64('A') == Some(0);
    hide Value64;
  }

  lemma LastOneByte(s: string)
    requires |s| == 4 && s[2..] == "==" && Unbase64(s).Some?
    ensures Base64(Unbase64(s).value) == s
  {
    var t := s[..2] + "AA";
    assert t[2] == 'A' && t[3] == 'A';
    QuadIs(t);
    ZeroDigits(t);
    assert t[..2] == s[..2] && s == s[..2] + s[2..];
    hide Quad, Bytes64;
    ByteOf(Bytes64(t).value.0);
  }

  lemma LastTwoBytes(s: string)
    requires |s| == 4 && s[2..] != "==" && s[3] == '=' && Unbase64(s).Some?
    ensures Base64(Unbase64(s).value) == s
  {
    var t := s[..3] + "A";
    QuadIs(t);
    assert t[..3] == s[..3] && s == s[..3] + "=";
    hide Quad, Bytes64;
    ByteOf(Bytes64(t).value.0);
    ByteOf(Bytes64(t).value.1);
  }

  lemma ByteOf(n: nat)
    requires n < 256
    ensures Byte(n as char) == n
  {
  }

  lemma Base64Cons(x: nat, y: nat, z: nat, b: string)
    requires x < 256 && y < 256 && z < 256
    ensures Base64([x as char, y as char, z as char] + b) == Quad(x, y, z) + Base64(b)
  {
    assert ([x as char, y as char, z as char] + b)[3..] == b;
    ByteOf(x);
    ByteOf(y);
    ByteOf(z);
    hide Quad, Byte;
  }

  lemma Unbase64Splits(s: string)
    requires |s| >= 4 && !(|s| == 4 && s[3] == '=') && Unbase64(s).Some?
    ensures Bytes64(s[..4]).Some? && Unbase64(s[4..]).Some?
    ensures var (x, y, z) := Bytes64(s[..4]).value;
            Unbase64(s) == Some([x as char, y as char, z as char] + Unbase64(s[4..]).value)
  {
    hide Bytes64;
    assert |s| == 4 ==> s[2..][1] == s[3];
  }

  /** Each base64 text is the text of what it is read as. */
  lemma {:induction false} Base64OfUnbase64(s: string)
    requires Unbase64(s).Some?
    ensures Base64(Unbase64(s).value) == s
    decreases |s|
  {
    if s == "" {
    } else {
      assert |s| >= 4;
      hide *;
      if |s| == 4 && s[3] == '=' {
        if s[2..] == "==" {
          LastOneByte(s);
        } else {
          LastTwoBytes(s);
        }
      } else {
        Unbase64Splits(s);
        Base64OfUnbase64(s[4..]);
        var (x, y, z) := Bytes64(s[..4]).value;
        QuadIs(s[..4]);
        Base64Cons(x, y, z, Unbase64(s[4..]).value);
        assert s == s[..4] + s[4..];
      }
    }
  }

  lemma {:induction false} AllIn64(b: string)
    ensures forall i :: 0 <= i < |Base64(b)| ==> In64(Base64(b)[i])
    decreases |b|
  {
    if b != "" {
      var x, y, z := Byte(b[0]), if |b| >= 2 then Byte(b[1]) else 0, if |b| >= 3 then Byte(b[2]) else 0;
      QuadReads(x, y, z);
      if |b| >= 3 {
        AllIn64(b[3..]);
      }
      hide Quad, Value64;
    }
  }
}
