/** Text between delimiters of any length, in which the delimiter is written twice. */
module Delimiting {
  import opened Common
  import opened Quoting

  /** No end of `d` is also its beginning, `d` itself aside. */
  predicate Unbordered(d: string) {
    forall k :: 0 < k < |d| ==> d[..k] != d[|d| - k..]
  }

  /** The text up to the first delimiter that is not doubled. */
  function ReadDelimited(s: string, d: string): (r: Option<(string, string)>)
    requires d != ""
    ensures r.Some? ==> |r.value.1| <= |s|
    decreases |s|
  {
    if s == "" then None
    else if !(d <= s) then
      match ReadDelimited(s[1..], d)
      case None => None
      case Some((body, rest)) => Some(([s[0]] + body, rest))
    else if d <= s[|d|..] then
      match ReadDelimited(s[2 * |d|..], d)
      case None => None
      case Some((body, rest)) => Some((d + body, rest))
    else Some(("", s[|d|..]))
  }

  lemma EscapeStep(body: string, d: string)
    requires d != "" && body != ""
    ensures d <= body ==> ReplaceAll(body, d, d + d) == (d + d) + ReplaceAll(body[|d|..], d, d + d)
    ensures !(d <= body) ==> ReplaceAll(body, d, d + d) == [body[0]] + ReplaceAll(body[1..], d, d + d)
  {
  }

  /** Escaped text begins with its own characters up to a delimiter. */
  lemma {:induction false} FirstMark(body: string, d: string, rest: string) returns (p: nat)
    requires d != ""
    ensures p <= |body| && (body != "" && !(d <= body) ==> p > 0)
    ensures body[..p] + d <= ReplaceAll(body, d, d + d) + (d + rest)
    decreases |body|
  {
    var text := ReplaceAll(body, d, d + d) + (d + rest);
    if body == "" {
      p := 0;
      assert text == d + rest && body[..0] + d == d;
    } else {
      EscapeStep(body, d);
      if d <= body {
        p := 0;
        var later := ReplaceAll(body[|d|..], d, d + d);
        assert text == d + (d + (later + (d + rest))) && body[..0] + d == d;
      } else {
        var q := FirstMark(body[1..], d, rest);
        p := q + 1;
        var later := ReplaceAll(body[1..], d, d + d) + (d + rest);
        assert text == [body[0]] + later;
        assert body[..p] + d == [body[0]] + (body[1..][..q] + d);
      }
    }
  }

  lemma Overlap(s: string, d: string, p: nat)
    requires d <= s && 0 < p < |d| && p <= |s| && d <= s[p..]
    ensures d[..|d| - p] == d[p..]
  {
    assert d[p..] == s[p..|d|] == s[p..][..|d| - p];
  }

  lemma NoBorder(d: string, p: nat)
    requires Unbordered(d) && 0 < p < |d|
    ensures d[..|d| - p] != d[p..]
  {
    var k := |d| - p;
    assert d[..k] != d[|d| - k..];
  }

  /** Two occurrences of `d` that overlap make a border. */
  lemma NoOverlap(s: string, d: string, p: nat)
    requires Unbordered(d) && 0 < p < |d|
    ensures !(d <= s && p <= |s| && d <= s[p..])
  {
    hide Unbordered;
    if d <= s && p <= |s| && d <= s[p..] {
      Overlap(s, d, p);
      NoBorder(d, p);
      assert false;
    }
  }

  lemma FrontAt(s: string, body: string, d: string, p: nat)
    requires p <= |body| && body[..p] + d <= s
    ensures p <= |s| && d <= s[p..]
    ensures d <= s && |d| <= p ==> d <= body
  {
    var front := body[..p] + d;
    assert s[..|front|] == front;
    assert s[p..][..|d|] == front[p..] == d;
    if d <= s && |d| <= p {
      assert s[..|d|] == front[..|d|] == body[..|d|];
    }
  }

  /** No delimiter is seen before its time. */
  lemma NothingSeen(body: string, d: string, rest: string)
    requires d != "" && Unbordered(d) && body != "" && !(d <= body)
    ensures !(d <= ReplaceAll(body, d, d + d) + (d + rest))
  {
    var s := ReplaceAll(body, d, d + d) + (d + rest);
    var p := FirstMark(body, d, rest);
    hide ReplaceAll, Unbordered;
    FrontAt(s, body, d, p);
    if p < |d| {
      NoOverlap(s, d, p);
    }
  }

  lemma ReadStep(c: char, s: string, d: string)
    requires d != "" && !(d <= [c] + s)
    ensures ReadDelimited([c] + s, d)
         == match ReadDelimited(s, d)
            case None => None
            case Some((body, rest)) => Some(([c] + body, rest))
  {
    assert ([c] + s)[1..] == s;
  }

  lemma ReadTwice(s: string, d: string)
    requires d != ""
    ensures ReadDelimited(d + (d + s), d)
         == match ReadDelimited(s, d)
            case None => None
            case Some((body, rest)) => Some((d + body, rest))
  {
    var t := d + (d + s);
    assert t[|d|..] == d + s && t[2 * |d|..] == s;
  }

  lemma ReadOnce(s: string, d: string)
    requires d != "" && !(d <= s)
    ensures ReadDelimited(d + s, d) == Some(("", s))
  {
    assert (d + s)[|d|..] == s;
  }

  /** Doubling a delimiter that does not overlap itself loses nothing. */
  lemma {:induction false} DelimitedReadsBack(body: string, d: string, rest: string)
    requires d != "" && Unbordered(d) && !(d <= rest)
    ensures ReadDelimited(ReplaceAll(body, d, d + d) + (d + rest), d) == Some((body, rest))
    decreases |body|
  {
    hide *;
    if body == "" {
      NothingReplaced(d);
      assert "" + (d + rest) == d + rest;
      ReadOnce(rest, d);
    } else {
      EscapeStep(body, d);
      if d <= body {
        DelimitedReadsBack(body[|d|..], d, rest);
        var later := ReplaceAll(body[|d|..], d, d + d) + (d + rest);
        TwoFront(d, ReplaceAll(body[|d|..], d, d + d), d + rest);
        ReadTwice(later, d);
        assert body == d + body[|d|..];
      } else {
        DelimitedReadsBack(body[1..], d, rest);
        NothingSeen(body, d, rest);
        var later := ReplaceAll(body[1..], d, d + d) + (d + rest);
        Regroup([body[0]], ReplaceAll(body[1..], d, d + d), d + rest);
        ReadStep(body[0], later, d);
        assert body == [body[0]] + body[1..];
      }
    }
  }

  lemma NothingReplaced(d: string)
    requires d != ""
    ensures ReplaceAll("", d, d + d) == ""
  {
  }

  lemma TwoFront(d: string, s: string, t: string)
    ensures ((d + d) + s) + t == d + (d + (s + t))
  {
  }

  /** Behind the part of `d` in front of its border, `d` begins again too early. */
  lemma SeenTooEarly(d: string, k: nat, rest: string)
    requires 0 < k < |d| && d[..k] == d[|d| - k..]
    ensures var x := d[..|d| - k];
            x != "" && d <= x + (d + rest) && ReplaceAll(x, d, d + d) == x
  {
    hide ReplaceAll;
    var x := d[..|d| - k];
    TooShort(x, d);
    var s := x + (d + rest);
    forall i | 0 <= i < |d| ensures s[i] == d[i] {
      if i >= |x| {
        assert s[i] == d[i - |x|] == d[..k][i - |x|] == d[|d| - k..][i - |x|];
      }
    }
    SamePrefix(d, s);
  }

  lemma SamePrefix(d: string, s: string)
    requires |d| <= |s| && forall i :: 0 <= i < |d| ==> s[i] == d[i]
    ensures d <= s
  {
  }

  lemma TooShort(x: string, d: string)
    requires |x| < |d|
    ensures ReplaceAll(x, d, d + d) == x
  {
  }

  lemma StartsWithDelimiter(s: string, d: string)
    requires d != "" && d <= s && ReadDelimited(s, d).Some?
    ensures ReadDelimited(s, d).value.0 == "" || |ReadDelimited(s, d).value.0| >= |d|
  {
  }

  lemma BorderedLosesText(d: string, k: nat, rest: string)
    requires 0 < k < |d| && d[..k] == d[|d| - k..]
    ensures var x := d[..|d| - k];
            ReadDelimited(ReplaceAll(x, d, d + d) + (d + rest), d) != Some((x, rest))
  {
    SeenTooEarly(d, k, rest);
    var s := d[..|d| - k] + (d + rest);
    hide ReadDelimited, ReplaceAll;
    if ReadDelimited(s, d).Some? {
      StartsWithDelimiter(s, d);
    }
  }

  ghost predicate LosesNothing(d: string)
    requires d != ""
  {
    forall body, rest :: !(d <= rest) ==> ReadDelimited(ReplaceAll(body, d, d + d) + (d + rest), d) == Some((body, rest))
  }

  /** Doubling loses nothing exactly for delimiters that do not overlap themselves. */
  lemma DelimiterFitIff(d: string)
    requires d != ""
    ensures LosesNothing(d) <==> Unbordered(d)
  {
    hide ReadDelimited, ReplaceAll;
    if Unbordered(d) {
      forall body, rest | !(d <= rest)
        ensures ReadDelimited(ReplaceAll(body, d, d + d) + (d + rest), d) == Some((body, rest))
      {
        DelimitedReadsBack(body, d, rest);
      }
    } else {
      var k :| 0 < k < |d| && d[..k] == d[|d| - k..];
      BorderedLosesText(d, k, "");
      assert !(d <= "");
    }
  }

  lemma PrefixHas(s: string, d: string, c: char)
    requires c in d && d <= s
    ensures c in s
  {
    var i :| 0 <= i < |d| && d[i] == c;
    assert s[i] == c;
  }

  /** Text that lacks a byte of the delimiter needs no doubling. */
  lemma {:induction false} Undoubled(s: string, d: string, c: char)
    requires c in d && c !in s
    ensures ReplaceAll(s, d, d + d) == s
  {
    if |s| >= |d| {
      if d <= s {
        PrefixHas(s, d, c);
        assert false;
      }
      Undoubled(s[1..], d, c);
    }
  }
}
