/** Trimming white space at both ends of a text, as strings.TrimSpace does on ASCII: blanks are the
    space and the five control characters from tab to carriage return. What trimming removes is
    blank, what it leaves starts and ends with something visible, and a text that already does so
    comes back unchanged. Conditions and tool-call arguments are both trimmed before they are
    looked at further. */
module Trimming {

  predicate IsBlank(c: char) { c == ' ' || '\t' <= c <= '\r' }

  predicate Blanks(t: string) { forall i :: 0 <= i < |t| ==> IsBlank(t[i]) }

  function TrimLeft(t: string): string {
    if t != [] && IsBlank(t[0]) then TrimLeft(t[1..]) else t
  }

  function TrimRight(t: string): string {
    if t != [] && IsBlank(t[|t| - 1]) then TrimRight(t[..|t| - 1]) else t
  }

  function Trim(t: string): string { TrimRight(TrimLeft(t)) }

  lemma {:induction false} TrimLeftSplits(t: string) returns (a: string)
    ensures Blanks(a) && t == a + TrimLeft(t)
  {
    if t != [] && IsBlank(t[0]) {
      a := TrimLeftSplits(t[1..]);
      a := [t[0]] + a;
    } else {
      a := [];
    }
  }

  lemma {:induction false} TrimRightSplits(t: string) returns (b: string)
    ensures Blanks(b) && t == TrimRight(t) + b
  {
    if t != [] && IsBlank(t[|t| - 1]) {
      b := TrimRightSplits(t[..|t| - 1]);
      b := b + [t[|t| - 1]];
    } else {
      b := [];
    }
  }

  /** Neither end of t is blank. */
  predicate Tight(t: string) {
    t != [] && !IsBlank(t[0]) && !IsBlank(t[|t| - 1])
  }

  lemma TrimKeeps(t: string)
    requires Tight(t)
    ensures Trim(t) == t
  {
  }

  lemma {:induction false} TrimLeftDrops(a: string, t: string)
    requires Blanks(a) && Tight(t)
    ensures forall b :: TrimLeft(a + t + b) == t + b
  {
    forall b
      ensures TrimLeft(a + t + b) == t + b
    {
      if a != [] {
        assert (a + t + b)[1..] == a[1..] + t + b;
        TrimLeftDrops(a[1..], t);
      } else {
        assert a + t + b == t + b;
      }
    }
  }

  lemma {:induction false} TrimRightDrops(t: string, b: string)
    requires Blanks(b) && Tight(t)
    ensures TrimRight(t + b) == t
  {
    if b == [] {
      assert t + b == t;
    } else {
      var c := b[..|b| - 1];
      assert (t + b)[..|t + b| - 1] == t + c;
      assert (t + b)[|t + b| - 1] == b[|b| - 1];
      TrimRightDrops(t, c);
    }
  }

  lemma TrimDropsBlanks(a: string, t: string, b: string)
    requires Blanks(a) && Blanks(b) && Tight(t)
    ensures Trim(a + t + b) == t
  {
    TrimLeftDrops(a, t);
    TrimRightDrops(t, b);
  }
}
