/** Numbers as sequences of digits, most significant digit first, in any base from two up: the
    value of a digit sequence, the digits of a number, and how both change when a digit or a
    whole sequence is appended. The identifier generator works in three bases (256 for bytes,
    two for bits, 32 for characters), and the lemmas here relate them; a shift to the left doubles and
    a shift to the right halves, one place at a time. */
module Positional {

  type Base = b: int | b >= 2 witness 2

  function Pow(b: Base, k: nat): (r: nat)
    ensures r >= 1
  {
    if k == 0 then 1
    else
      var p := Pow(b, k - 1);
      assert b * p >= p;
      b * p
  }

  ghost predicate DigitsOf(b: Base, ds: seq<int>) { forall i :: 0 <= i < |ds| ==> 0 <= ds[i] < b }

  function Val(b: Base, ds: seq<int>): int {
    if ds == [] then 0 else Val(b, ds[..|ds| - 1]) * b + ds[|ds| - 1]
  }

  /** The k low digits of n in base 32. */
  function Digits(k: nat, n: nat): (ds: seq<int>)
    ensures |ds| == k && DigitsOf(32, ds)
  {
    if k == 0 then [] else Digits(k - 1, n / 32) + [n % 32]
  }

  lemma ValOfPush(b: Base, ds: seq<int>, d: int)
    ensures Val(b, ds + [d]) == Val(b, ds) * b + d
  {
    assert (ds + [d])[..|ds|] == ds;
  }

  lemma {:induction false} ValOfConcat(x: seq<int>, y: seq<int>)
    ensures Val(256, x + y) == Val(256, x) * Pow(256, |y|) + Val(256, y)
  {
    if y == [] {
      assert x + y == x;
    } else {
      var z, d := y[..|y| - 1], y[|y| - 1];
      assert x + y == (x + z) + [d] && y == z + [d];
      ValOfPush(256, x + z, d);
      ValOfConcat(x, z);
      Scale(Val(256, x), Pow(256, |z|), Val(256, z));
    }
  }

  lemma Scale(v: int, p: int, w: int)
    ensures (v * p + w) * 256 == v * (256 * p) + w * 256
  {
  }

  lemma {:induction false} ValBound(ds: seq<int>)
    requires DigitsOf(256, ds)
    ensures 0 <= Val(256, ds) < Pow(256, |ds|)
  {
    if ds != [] {
      ValBound(ds[..|ds| - 1]);
    }
  }

  lemma {:induction false} SameVal(x: seq<int>, y: seq<int>)
    requires |x| == |y| && DigitsOf(256, x) && DigitsOf(256, y) && Val(256, x) == Val(256, y)
    ensures x == y
  {
    if x != [] {
      var n := |x| - 1;
      SameVal(x[..n], y[..n]);
      assert x == x[..n] + [x[n]] && y == y[..n] + [y[n]];
    }
  }

  /** A digit string is the digits of its own value. */
  lemma {:induction false} DigitsOfVal(ds: seq<int>)
    requires DigitsOf(32, ds)
    ensures Val(32, ds) >= 0 && Digits(|ds|, Val(32, ds)) == ds
  {
    if ds != [] {
      var n := |ds| - 1;
      DigitsOfVal(ds[..n]);
      DigitsOfPush(n, Val(32, ds[..n]), ds[n]);
    }
  }

  lemma DigitsOfPush(k: nat, n: nat, d: int)
    requires 0 <= d < 32
    ensures Digits(k + 1, n * 32 + d) == Digits(k, n) + [d]
  {
  }

  lemma {:induction false} ValOfDigits(k: nat, n: nat)
    requires n < Pow(32, k)
    ensures Val(32, Digits(k, n)) == n
  {
    if k > 0 {
      ValOfDigits(k - 1, n / 32);
      ValOfPush(32, Digits(k - 1, n / 32), n % 32);
    }
  }

  const TWO48: int := 0x1_0000_0000_0000
  const TWO80: int := 0x1_0000_0000_0000_0000_0000

  lemma Powers()
    ensures Pow(256, 6) == TWO48 && Pow(256, 10) == TWO80 && Pow(32, 25) * 8 == TWO48 * TWO80
  {
    assert Pow(256, 3) == 0x100_0000 && Pow(256, 6) == TWO48 && Pow(256, 9) == 0x100_0000_0000_0000_0000;
    assert Pow(32, 5) == 0x200_0000 && Pow(32, 10) == 0x4_0000_0000_0000;
    assert Pow(32, 15) == 0x800_0000_0000_0000_0000;
    assert Pow(32, 20) == 0x10_0000_0000_0000_0000_0000_0000;
  }

  function Shr(n: int, k: nat): int { if k == 0 then n else Shr(n, k - 1) / 2 }

  function Shl(n: int, k: nat): int { if k == 0 then n else Shl(n, k - 1) * 2 }

  lemma Eight(n: int, byt: int)
    requires 0 <= byt < 256
    ensures Shl(n, 8) == 256 * n && Shr(byt, 8) == 0
  {
    assert Shl(n, 1) == 2 * n && Shr(byt, 1) == byt / 2;
    assert Shl(n, 2) == 4 * n && Shr(byt, 2) == byt / 4;
    assert Shl(n, 3) == 8 * n && Shr(byt, 3) == byt / 8;
    assert Shl(n, 4) == 16 * n && Shr(byt, 4) == byt / 16;
    assert Shl(n, 5) == 32 * n && Shr(byt, 5) == byt / 32;
    assert Shl(n, 6) == 64 * n && Shr(byt, 6) == byt / 64;
    assert Shl(n, 7) == 128 * n && Shr(byt, 7) == byt / 128;
  }

  lemma OneBit(bits: seq<int>, i: nat)
    requires i < |bits|
    ensures Val(2, bits[..i + 1]) == Val(2, bits[..i]) * 2 + bits[i]
  {
    assert bits[..i + 1] == bits[..i] + [bits[i]];
    ValOfPush(2, bits[..i], bits[i]);
  }
}
