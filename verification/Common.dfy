/** Small shared vocabulary. A `char` stands for one byte of the program's
    strings, so `|s|` counts bytes. */
module Common {

  datatype Option<+T> = None | Some(value: T)

  datatype Result<+T, +E> = Ok(value: T) | Err(error: E)

  /** The concatenation of a list of pieces, first piece first. */
  function Flat<T>(parts: seq<seq<T>>): (s: seq<T>) {
    if parts == [] then [] else parts[0] + Flat(parts[1..])
  }

  lemma {:induction false} FlatConcat<T>(a: seq<seq<T>>, b: seq<seq<T>>)
    ensures Flat(a + b) == Flat(a) + Flat(b)
  {
    if a == [] {
      assert a + b == b;
    } else {
      assert (a + b)[1..] == a[1..] + b;
      FlatConcat(a[1..], b);
    }
  }

  lemma FlatAppend<T>(a: seq<seq<T>>, x: seq<T>)
    ensures Flat(a + [x]) == Flat(a) + x
  {
    FlatConcat(a, [x]);
  }

  lemma ConsEqual<T>(x: T, xs: seq<T>, ys: seq<T>)
    ensures [x] + xs == ys <==> ys != [] && x == ys[0] && xs == ys[1..]
  {
    assert ([x] + xs)[1..] == xs;
    if ys != [] {
      assert ys == [ys[0]] + ys[1..];
    }
  }

  lemma Regroup<T>(a: seq<T>, b: seq<T>, c: seq<T>)
    ensures a + (b + c) == (a + b) + c
  {
  }

  function LowerChar(c: char): char {
    if 'A' <= c <= 'Z' then (c as int + 32) as char else c
  }

  function Min(a: int, b: int): int {
    if a < b then a else b
  }

  lemma MinIs(a: int, b: int, n: int)
    ensures n <= a && n <= b && (n == a || n == b) ==> n == Min(a, b)
  {
  }
}
