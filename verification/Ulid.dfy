/** Time-ordered identifiers: 48 bits of clock and 80 random bits, five bits to the character. */
module Ulids {
  import opened Text
  import opened Positional

  // Characters.

  const CROCKFORD := "0123456789ABCDEFGHJKMNPQRSTVWXYZ"

  function Chars(ds: seq<int>): (s: string)
    requires DigitsOf(32, ds)
    ensures |s| == |ds|
    ensures forall i :: 0 <= i < |ds| ==> s[i] == CROCKFORD[ds[i]]
  {
    if ds == [] then "" else [CROCKFORD[ds[0]]] + Chars(ds[1..])
  }

  lemma {:induction false} AlphabetAscends(i: int, j: int)
    requires 0 <= i < j < 32
    ensures CROCKFORD[i] < CROCKFORD[j]
    decreases j - i
  {
    if i + 1 < j {
      AlphabetAscends(i + 1, j);
    }
    assert CROCKFORD[i] < CROCKFORD[i + 1];
  }

  /** The 32 characters are the digits and the capital letters in order, without I, L, O and U. */
  lemma AlphabetIsCrockfords(i: nat)
    requires i < 32
    ensures |CROCKFORD| == 32
    ensures CROCKFORD[i] as int ==
      if i < 10 then '0' as int + i
      else if i < 18 then 'A' as int + (i - 10)
      else if i < 20 then 'J' as int + (i - 18)
      else if i < 22 then 'M' as int + (i - 20)
      else if i < 27 then 'P' as int + (i - 22)
      else 'V' as int + (i - 27)
  {
  }

  lemma {:induction false} LessPush(a: string, c: char, b: string, d: char)
    requires |a| == |b|
    ensures Less(a + [c], b + [d]) <==> Less(a, b) || (a == b && c < d)
  {
    if a == "" {
      assert a + [c] == [c] && b + [d] == [d];
    } else {
      assert (a + [c])[1..] == a[1..] + [c] && (b + [d])[1..] == b[1..] + [d];
      LessPush(a[1..], c, b[1..], d);
      assert a == [a[0]] + a[1..] && b == [b[0]] + b[1..];
    }
  }

  /** String order on equally long digit texts is number order. */
  lemma {:induction false} CharsKeepOrder(x: seq<int>, y: seq<int>)
    requires |x| == |y| && DigitsOf(32, x) && DigitsOf(32, y)
    ensures Less(Chars(x), Chars(y)) <==> Val(32, x) < Val(32, y)
    ensures Val(32, x) == Val(32, y) ==> x == y
  {
    if x != [] {
      var n := |x| - 1;
      var a, b, d, e := x[..n], y[..n], x[n], y[n];
      assert x == a + [d] && y == b + [e];
      CharsKeepOrder(a, b);
      OrderPush(a, d, b, e);
    }
  }

  lemma OrderPush(a: seq<int>, d: int, b: seq<int>, e: int)
    requires |a| == |b| && DigitsOf(32, a) && DigitsOf(32, b) && 0 <= d < 32 && 0 <= e < 32
    requires Less(Chars(a), Chars(b)) <==> Val(32, a) < Val(32, b)
    requires Val(32, a) == Val(32, b) ==> a == b
    ensures DigitsOf(32, a + [d]) && DigitsOf(32, b + [e])
    ensures Less(Chars(a + [d]), Chars(b + [e])) <==> Val(32, a + [d]) < Val(32, b + [e])
    ensures Val(32, a + [d]) == Val(32, b + [e]) ==> a + [d] == b + [e]
  {
    ValOfPush(32, a, d);
    ValOfPush(32, b, e);
    CharsOfPush(a, d);
    CharsOfPush(b, e);
    LessPush(Chars(a), CROCKFORD[d], Chars(b), CROCKFORD[e]);
    if Chars(a) == Chars(b) {
      SameChars(a, b);
    }
    LastDigit(d, e);
  }

  lemma {:induction false} SameChars(a: seq<int>, b: seq<int>)
    requires DigitsOf(32, a) && DigitsOf(32, b) && Chars(a) == Chars(b)
    ensures a == b
  {
    assert |a| == |b|;
    forall i | 0 <= i < |a|
      ensures a[i] == b[i]
    {
      assert Chars(a)[i] == Chars(b)[i];
      LastDigit(a[i], b[i]);
    }
  }

  lemma LastDigit(d: int, e: int)
    requires 0 <= d < 32 && 0 <= e < 32
    ensures CROCKFORD[d] < CROCKFORD[e] <==> d < e
    ensures CROCKFORD[d] == CROCKFORD[e] ==> d == e
  {
    if d < e {
      AlphabetAscends(d, e);
    } else if e < d {
      AlphabetAscends(e, d);
    }
  }

  // Identifiers.

  ghost predicate RandomBytes(rnd: seq<int>) { |rnd| == 10 && DigitsOf(256, rnd) }

  function Clock48(ts: nat): int { ts % TWO48 }

  /** Clock and random bytes as one 128-bit number. */
  function Stamp(ts: nat, rnd: seq<int>): (n: int) { Clock48(ts) * TWO80 + Val(256, rnd) }

  /** The top 125 bits in base 32. */
  function Encoded(ts: nat, rnd: seq<int>): (s: string)
    requires RandomBytes(rnd)
    ensures |s| == 25
  {
    RandomBound(rnd);
    Chars(Digits(25, Stamp(ts, rnd) / 8))
  }

  function Ulid(prefix: string, ts: nat, rnd: seq<int>): string
    requires RandomBytes(rnd)
  {
    prefix + "_" + Encoded(ts, rnd)
  }

  lemma RandomBound(rnd: seq<int>)
    requires RandomBytes(rnd)
    ensures 0 <= Val(256, rnd) < TWO80
  {
    ValBound(rnd);
    Powers();
  }

  lemma StampBound(ts: nat, rnd: seq<int>)
    requires RandomBytes(rnd)
    ensures 0 <= Stamp(ts, rnd) / 8 < Pow(32, 25)
  {
    RandomBound(rnd);
    Powers();
    assert 0 <= Clock48(ts) < TWO48;
  }

  // The generator.

  method TimeBytes(stamp: nat) returns (bytes: seq<int>)
    ensures |bytes| == 6 && DigitsOf(256, bytes) && Val(256, bytes) == Clock48(stamp)
  {
    var ts := stamp;
    var a := new int[6];
    var i := 5;
    ghost var low := [];
    NothingShifted(stamp);
    while i >= 0
      invariant -1 <= i <= 5 && ts >= 0
      invariant a[i + 1..] == low && Shifted(stamp, ts, low)
    {
      NextByte(stamp, ts, low);
      a[i] := ts % 256;
      low := [ts % 256] + low;
      ts := ts / 256;
      i := i - 1;
    }
    bytes := a[..];
    SixBytes(stamp, ts, low);
  }

  /** The low bytes are split off; ts is what is left. */
  ghost predicate Shifted(stamp: int, ts: int, low: seq<int>) {
    DigitsOf(256, low) && stamp == ts * Pow(256, |low|) + Val(256, low)
  }

  lemma NothingShifted(stamp: int)
    ensures Shifted(stamp, stamp, [])
  {
  }

  lemma NextByte(stamp: int, ts: nat, low: seq<int>)
    requires Shifted(stamp, ts, low)
    ensures Shifted(stamp, ts / 256, [ts % 256] + low)
  {
    ValOfConcat([ts % 256], low);
    Shift(ts / 256, ts % 256, Pow(256, |low|));
  }

  lemma SixBytes(stamp: nat, ts: nat, bytes: seq<int>)
    requires |bytes| == 6 && Shifted(stamp, ts, bytes)
    ensures DigitsOf(256, bytes) && Val(256, bytes) == Clock48(stamp)
  {
    ValBound(bytes);
    Powers();
  }

  lemma Shift(q: int, d: int, p: int)
    ensures (256 * q + d) * p == q * (256 * p) + d * p
  {
  }

  /** The bits of the bytes, high bit first: the same number in base 2. */
  method Bits(bytes: seq<int>) returns (bits: seq<int>)
    requires DigitsOf(256, bytes)
    ensures |bits| == 8 * |bytes| && DigitsOf(2, bits) && Val(2, bits) == Val(256, bytes)
  {
    bits := [];
    for k := 0 to |bytes|
      invariant |bits| == 8 * k && DigitsOf(2, bits) && Val(2, bits) == Val(256, bytes[..k])
    {
      bits := AppendBits(bits, bytes[k]);
      assert bytes[..k + 1] == bytes[..k] + [bytes[k]];
      ValOfPush(256, bytes[..k], bytes[k]);
    }
    assert bytes[..|bytes|] == bytes;
  }

  method AppendBits(before: seq<int>, byt: int) returns (bits: seq<int>)
    requires DigitsOf(2, before) && 0 <= byt < 256
    ensures |bits| == |before| + 8 && DigitsOf(2, bits) && Val(2, bits) == Val(2, before) * 256 + byt
  {
    bits := before;
    var i := 7;
    NoBitYet(before, byt);
    while i >= 0
      invariant -1 <= i <= 7 && HasHighBits(before, bits, byt, 7 - i)
    {
      OneBitMore(before, bits, byt, i);
      bits := bits + [Shr(byt, i) % 2];
      i := i - 1;
    }
    AllBits(before, bits, byt);
  }

  /** The k high bits of the byte have been appended. */
  ghost predicate HasHighBits(before: seq<int>, bits: seq<int>, byt: int, k: nat)
    requires k <= 8
  {
    |bits| == |before| + k && DigitsOf(2, bits) && Val(2, bits) == Shl(Val(2, before), k) + Shr(byt, 8 - k)
  }

  lemma NoBitYet(before: seq<int>, byt: int)
    requires DigitsOf(2, before) && 0 <= byt < 256
    ensures HasHighBits(before, before, byt, 0)
  {
    Eight(0, byt);
  }

  lemma OneBitMore(before: seq<int>, bits: seq<int>, byt: int, i: nat)
    requires i < 8 && HasHighBits(before, bits, byt, 7 - i)
    ensures HasHighBits(before, bits + [Shr(byt, i) % 2], byt, 8 - i)
  {
    ValOfPush(2, bits, Shr(byt, i) % 2);
  }

  lemma AllBits(before: seq<int>, bits: seq<int>, byt: int)
    requires HasHighBits(before, bits, byt, 8) && 0 <= byt < 256
    ensures Val(2, bits) == Val(2, before) * 256 + byt
  {
    Eight(Val(2, before), byt);
  }

  /** Five bits to the character; what is left over is dropped. */
  method Encode(bits: seq<int>) returns (encoded: string)
    requires DigitsOf(2, bits)
    ensures Val(2, Fives(bits)) >= 0 && encoded == Chars(Digits(|bits| / 5, Val(2, Fives(bits))))
  {
    encoded := "";
    ghost var ds := [];
    var i := 0;
    while i + 5 <= |bits|
      invariant 0 <= i <= |bits| && i == 5 * |ds|
      invariant Coded(bits, i, ds) && encoded == Chars(ds)
    {
      var val := Five(bits, i);
      CodedMore(bits, i, ds);
      CharsOfPush(ds, val);
      encoded := encoded + [CROCKFORD[val]];
      ds := ds + [val];
      i := i + 5;
    }
    AllCoded(bits, i, ds);
  }

  /** The bits that fill whole characters. */
  function Fives(bits: seq<int>): seq<int> { bits[..|bits| / 5 * 5] }

  lemma AllCoded(bits: seq<int>, i: nat, ds: seq<int>)
    requires i <= |bits| < i + 5 && i == 5 * |ds| && Coded(bits, i, ds)
    ensures |ds| == |bits| / 5 && Val(2, Fives(bits)) >= 0 && Digits(|ds|, Val(2, Fives(bits))) == ds
  {
    DigitsOfVal(ds);
  }

  /** The digits are those of the first i bits. */
  ghost predicate Coded(bits: seq<int>, i: nat, ds: seq<int>)
    requires i <= |bits|
  {
    DigitsOf(32, ds) && Val(32, ds) == Val(2, bits[..i])
  }

  lemma CodedMore(bits: seq<int>, i: nat, ds: seq<int>)
    requires i + 5 <= |bits| && DigitsOf(2, bits) && Coded(bits, i, ds)
    ensures 0 <= Five(bits, i) < 32 && Coded(bits, i + 5, ds + [Five(bits, i)])
  {
    FiveBits(bits, i);
    ValOfPush(32, ds, Five(bits, i));
  }

  function Five(bits: seq<int>, i: nat): int
    requires i + 5 <= |bits|
  {
    bits[i] * 16 + bits[i + 1] * 8 + bits[i + 2] * 4 + bits[i + 3] * 2 + bits[i + 4]
  }

  lemma CharsOfPush(ds: seq<int>, d: int)
    requires DigitsOf(32, ds) && 0 <= d < 32
    ensures DigitsOf(32, ds + [d]) && Chars(ds + [d]) == Chars(ds) + [CROCKFORD[d]]
  {
  }

  lemma FiveBits(bits: seq<int>, i: nat)
    requires i + 5 <= |bits|
    ensures Val(2, bits[..i + 5]) == Val(2, bits[..i]) * 32 + Five(bits, i)
  {
    OneBit(bits, i);
    OneBit(bits, i + 1);
    OneBit(bits, i + 2);
    OneBit(bits, i + 3);
    OneBit(bits, i + 4);
  }

  /** Dropping the last three bits divides by eight. */
  lemma TopBits(bits: seq<int>)
    requires |bits| == 128 && DigitsOf(2, bits)
    ensures Val(2, bits[..125]) == Val(2, bits) / 8
  {
    OneBit(bits, 125);
    OneBit(bits, 126);
    OneBit(bits, 127);
    assert bits[..128] == bits;
  }

  lemma StampOfBytes(ts: nat, timeBytes: seq<int>, rnd: seq<int>)
    requires RandomBytes(rnd) && Val(256, timeBytes) == ts % TWO48
    ensures Val(256, timeBytes + rnd) == Stamp(ts, rnd)
  {
    ValOfConcat(timeBytes, rnd);
    Powers();
  }

  method NewULID(prefix: string, epochMilli: nat, rnd: seq<int>) returns (id: string)
    requires RandomBytes(rnd)
    ensures id == Ulid(prefix, epochMilli, rnd)
  {
    var timeBytes := TimeBytes(epochMilli);
    var combined := timeBytes + rnd;
    StampOfBytes(epochMilli, timeBytes, rnd);
    var bits := Bits(combined);
    TopBits(bits);
    var encoded := Encode(bits);
    id := prefix + "_" + encoded;
  }

  // What the identifiers promise.

  lemma {:induction false} SamePrefix(p: string, a: string, b: string)
    ensures Less(p + a, p + b) <==> Less(a, b)
  {
    if p == "" {
      assert p + a == a && p + b == b;
    } else {
      assert (p + a)[1..] == p[1..] + a && (p + b)[1..] == p[1..] + b;
      SamePrefix(p[1..], a, b);
    }
  }

  /** String order of identifiers is the order of their top 125 bits. */
  lemma OrderIsStampOrder(prefix: string, t1: nat, r1: seq<int>, t2: nat, r2: seq<int>)
    requires RandomBytes(r1) && RandomBytes(r2)
    ensures Less(Ulid(prefix, t1, r1), Ulid(prefix, t2, r2)) <==> Stamp(t1, r1) / 8 < Stamp(t2, r2) / 8
  {
    var n1, n2 := Stamp(t1, r1) / 8, Stamp(t2, r2) / 8;
    StampBound(t1, r1);
    StampBound(t2, r2);
    SamePrefix(prefix + "_", Encoded(t1, r1), Encoded(t2, r2));
    CharsKeepOrder(Digits(25, n1), Digits(25, n2));
    ValOfDigits(25, n1);
    ValOfDigits(25, n2);
  }

  /** Identifiers made at different milliseconds sort by time, whatever the random bytes, up to
      the 48-bit wrap of the clock. */
  lemma LaterSortsAfter(prefix: string, t1: nat, r1: seq<int>, t2: nat, r2: seq<int>)
    requires RandomBytes(r1) && RandomBytes(r2)
    requires t1 % TWO48 != t2 % TWO48
    ensures Less(Ulid(prefix, t1, r1), Ulid(prefix, t2, r2)) <==> t1 % TWO48 < t2 % TWO48
  {
    OrderIsStampOrder(prefix, t1, r1, t2, r2);
    if t1 % TWO48 < t2 % TWO48 {
      ClockDecides(t1, r1, t2, r2);
    } else {
      ClockDecides(t2, r2, t1, r1);
    }
  }

  lemma ClockDecides(t1: nat, r1: seq<int>, t2: nat, r2: seq<int>)
    requires RandomBytes(r1) && RandomBytes(r2) && t1 % TWO48 < t2 % TWO48
    ensures Stamp(t1, r1) / 8 < Stamp(t2, r2) / 8
  {
    RandomBound(r1);
    RandomBound(r2);
    HighFirst(t1 % TWO48, Val(256, r1), t2 % TWO48, Val(256, r2));
  }

  lemma HighFirst(a: int, v: int, b: int, w: int)
    requires 0 <= v < TWO80 && 0 <= w < TWO80
    ensures a < b ==> (a * TWO80 + v) / 8 < (b * TWO80 + w) / 8
    ensures (a * TWO80 + v) / 8 == (b * TWO80 + w) / 8 <==> a == b && v / 8 == w / 8
  {
    assert (a * TWO80 + v) / 8 == a * 0x2000_0000_0000_0000_0000 + v / 8;
    assert (b * TWO80 + w) / 8 == b * 0x2000_0000_0000_0000_0000 + w / 8;
  }

  /** Only the last three random bits are lost. */
  lemma EqualExactlyOnTopBits(prefix: string, t1: nat, r1: seq<int>, t2: nat, r2: seq<int>)
    requires RandomBytes(r1) && RandomBytes(r2)
    ensures Ulid(prefix, t1, r1) == Ulid(prefix, t2, r2)
      <==> t1 % TWO48 == t2 % TWO48 && r1[..9] == r2[..9] && r1[9] / 8 == r2[9] / 8
  {
    var u1, u2 := Ulid(prefix, t1, r1), Ulid(prefix, t2, r2);
    OrderIsStampOrder(prefix, t1, r1, t2, r2);
    OrderIsStampOrder(prefix, t2, r2, t1, r1);
    LessTrichotomy(u1, u2);
    SameStamps(t1, r1, t2, r2);
  }

  lemma SameStamps(t1: nat, r1: seq<int>, t2: nat, r2: seq<int>)
    requires RandomBytes(r1) && RandomBytes(r2)
    ensures Stamp(t1, r1) / 8 == Stamp(t2, r2) / 8
      <==> t1 % TWO48 == t2 % TWO48 && r1[..9] == r2[..9] && r1[9] / 8 == r2[9] / 8
  {
    RandomBound(r1);
    RandomBound(r2);
    HighFirst(t1 % TWO48, Val(256, r1), t2 % TWO48, Val(256, r2));
    SameRandomBits(r1, r2);
  }

  lemma SameRandomBits(r1: seq<int>, r2: seq<int>)
    requires RandomBytes(r1) && RandomBytes(r2)
    ensures Val(256, r1) / 8 == Val(256, r2) / 8 <==> r1[..9] == r2[..9] && r1[9] / 8 == r2[9] / 8
  {
    LastByte(r1);
    LastByte(r2);
    if Val(256, r1[..9]) == Val(256, r2[..9]) {
      SameVal(r1[..9], r2[..9]);
    }
  }

  lemma LastByte(rnd: seq<int>)
    requires RandomBytes(rnd)
    ensures Val(256, rnd) / 8 == Val(256, rnd[..9]) * 32 + rnd[9] / 8
    ensures 0 <= rnd[9] / 8 < 32
  {
  }

  /** The identifier is 25 characters after its prefix, one fewer than the documented 26. */
  lemma LengthIsTwentyFive(prefix: string, ts: nat, rnd: seq<int>)
    requires RandomBytes(rnd)
    ensures |Ulid(prefix, ts, rnd)| == |prefix| + 1 + 25
  {
  }
}
