/** The parser object of the `if:` language: a text and a position, moved in place. Each method
    does to the position what the corresponding function does to the text that is left. */
module ConditionParser {
  import C = Conditions
  import opened Conditions

  datatype Result<+T> = Success(value: T) | Failure(error: ParseError)

  class IfParser {
    const s: string
    var pos: nat

    constructor (s: string)
      ensures this.s == s && pos == 0
    {
      this.s := s;
      pos := 0;
    }

    ghost predicate At(rest: string)
      reads this
    {
      pos <= |s| && s[pos..] == rest
    }

    /** The outcome is the function's, and on success the position is at its rest. */
    ghost predicate Agrees<T(!new)>(spec: Parse<T>, r: Result<T>)
      reads this
    {
      match spec
      case Ok(v, rest) => r == Success(v) && At(rest)
      case Err(e) => r == Failure(e)
    }

    /** Is the text at the position `word`? */
    method HasPrefix(word: string) returns (b: bool)
      requires pos <= |s|
      ensures b <==> Starts(s[pos..], word)
    {
      b := pos + |word| <= |s| && s[pos..pos + |word|] == word;
    }

    method SkipSpace()
      requires pos <= |s|
      modifies this`pos
      ensures old(pos) <= pos && At(Skip(old(s[pos..])))
    {
      while pos < |s| && IsSpace(s[pos])
        invariant old(pos) <= pos <= |s|
        invariant Skip(s[pos..]) == Skip(old(s[pos..]))
      {
        assert s[pos..][1..] == s[pos + 1..];
        pos := pos + 1;
      }
    }

    method ParseOr() returns (r: Result<Node>)
      requires pos <= |s|
      modifies this`pos
      ensures Agrees(C.ParseOr(old(s[pos..])), r)
      decreases |s| - pos, 4
    {
      ghost var start := pos;
      r := ParseAnd();
      if r.Failure? {
        return;
      }
      var more := true;
      while more
        invariant more ==> start < pos <= |s| && r.Success?
        invariant more ==> C.ParseOr(s[start..]) == C.OrLoop(r.value, s[pos..])
        invariant !more ==> Agrees(C.ParseOr(s[start..]), r)
        decreases more, |s| - pos
      {
        r, more := OrTurn(r.value);
      }
    }

    /** One turn of the loop: another operand after its operator, or the end. */
    method OrTurn(left: Node) returns (r: Result<Node>, more: bool)
      requires pos <= |s|
      modifies this`pos
      ensures more ==> old(pos) < pos <= |s| && r.Success?
      ensures more ==> C.OrLoop(left, old(s[pos..])) == C.OrLoop(r.value, s[pos..])
      ensures !more ==> Agrees(C.OrLoop(left, old(s[pos..])), r)
      decreases |s| - pos, 4
    {
      SkipSpace();
      var found := HasPrefix("||");
      if !found {
        return Success(left), false;
      }
      assert s[pos..][2..] == s[pos + 2..];
      pos := pos + 2;
      r := ParseAnd();
      if r.Failure? {
        return r, false;
      }
      return Success(Bin(Or, left, r.value)), true;
    }

    method ParseAnd() returns (r: Result<Node>)
      requires pos <= |s|
      modifies this`pos
      ensures Agrees(C.ParseAnd(old(s[pos..])), r)
      decreases |s| - pos, 3
    {
      ghost var start := pos;
      r := ParseCmp();
      if r.Failure? {
        return;
      }
      var more := true;
      while more
        invariant more ==> start < pos <= |s| && r.Success?
        invariant more ==> C.ParseAnd(s[start..]) == C.AndLoop(r.value, s[pos..])
        invariant !more ==> Agrees(C.ParseAnd(s[start..]), r)
        decreases more, |s| - pos
      {
        r, more := AndTurn(r.value);
      }
    }

    /** One turn of the loop: another operand after its operator, or the end. */
    method AndTurn(left: Node) returns (r: Result<Node>, more: bool)
      requires pos <= |s|
      modifies this`pos
      ensures more ==> old(pos) < pos <= |s| && r.Success?
      ensures more ==> C.AndLoop(left, old(s[pos..])) == C.AndLoop(r.value, s[pos..])
      ensures !more ==> Agrees(C.AndLoop(left, old(s[pos..])), r)
      decreases |s| - pos, 3
    {
      SkipSpace();
      var found := HasPrefix("&&");
      if !found {
        return Success(left), false;
      }
      assert s[pos..][2..] == s[pos + 2..];
      pos := pos + 2;
      r := ParseCmp();
      if r.Failure? {
        return r, false;
      }
      return Success(Bin(And, left, r.value)), true;
    }

    method ParseCmp() returns (r: Result<Node>)
      requires pos <= |s|
      modifies this`pos
      ensures Agrees(C.ParseCmp(old(s[pos..])), r)
      decreases |s| - pos, 2
    {
      r := ParsePrimary();
      if r.Failure? {
        return;
      }
      r := AfterOperand(r.value);
    }

    /** The comparison, if any, after its left operand. */
    ghost function CmpTail(left: Node, t: string): Parse<Node> {
      var u := Skip(t);
      if Starts(u, "==") || Starts(u, "!=") then
        var right := C.ParsePrimary(u[2..]);
        if right.Err? then right
        else Ok(Bin(if Starts(u, "==") then Eq else Ne, left, right.value), right.rest)
      else Ok(left, u)
    }

    method AfterOperand(left: Node) returns (r: Result<Node>)
      requires pos <= |s|
      modifies this`pos
      ensures Agrees(CmpTail(left, old(s[pos..])), r)
      decreases |s| - pos, 2
    {
      SkipSpace();
      var isEq := HasPrefix("==");
      var isNe := HasPrefix("!=");
      if !isEq && !isNe {
        return Success(left);
      }
      assert s[pos..][2..] == s[pos + 2..];
      pos := pos + 2;
      r := ParsePrimary();
      if r.Failure? {
        return;
      }
      r := Success(Bin(if isEq then Eq else Ne, left, r.value));
    }

    /** A string, number, name or call, its first character at the front of u. */
    ghost function AtomAt(u: string): Parse<Node>
      requires u != []
    {
      if u[0] == '"' || u[0] == '\'' then
        var body := QuoteBody(u[0], u[1..], "");
        if body.Err? then Err(body.error) else Ok(Lit(body.value), body.rest)
      else if NumberStart(u[0]) then
        var n := 1 + NumberRun(u[1..]);
        Ok(Lit(u[..n]), u[n..])
      else if NameStart(u[0]) then
        var n := 1 + NameRun(u[1..]);
        NameOr(u[..n], u[n..])
      else Err(Unexpected(u))
    }

    lemma PrimaryIs(t: string)
      ensures var u := Skip(t);
        C.ParsePrimary(t) == if u == [] then Err(UnexpectedEnd) else if u[0] == '(' then ClosedOr(u[1..]) else AtomAt(u)
    {
    }

    method ParsePrimary() returns (r: Result<Node>)
      requires pos <= |s|
      modifies this`pos
      ensures Agrees(C.ParsePrimary(old(s[pos..])), r)
      decreases |s| - pos, 1
    {
      PrimaryIs(s[pos..]);
      SkipSpace();
      if pos >= |s| {
        return Failure(UnexpectedEnd);
      }
      if s[pos] == '(' {
        assert s[pos..][1..] == s[pos + 1..];
        pos := pos + 1;
        r := AfterOpen();
        return;
      }
      r := ParseAtom();
    }

    method ParseAtom() returns (r: Result<Node>)
      requires pos < |s|
      modifies this`pos
      ensures Agrees(AtomAt(old(s[pos..])), r)
      decreases |s| - pos, 0
    {
      if s[pos] == '"' || s[pos] == '\'' {
        var q := ParseQuote(s[pos]);
        if q.Failure? {
          return Failure(q.error);
        }
        return Success(Lit(q.value));
      }
      var start := pos;
      if NumberStart(s[pos]) {
        RunNumber();
        return Success(Lit(s[start..pos]));
      }
      if NameStart(s[pos]) {
        RunName();
        r := AfterName(s[start..pos]);
        return;
      }
      r := Failure(Unexpected(s[pos..]));
    }

    /** An expression and its closing parenthesis. */
    ghost function ClosedOr(t: string): Parse<Node> {
      var inner := C.ParseOr(t);
      if inner.Err? then inner
      else
        var w := Skip(inner.rest);
        if w == [] || w[0] != ')' then Err(MissingParen) else Ok(inner.value, w[1..])
    }

    method AfterOpen() returns (r: Result<Node>)
      requires pos <= |s|
      modifies this`pos
      ensures Agrees(ClosedOr(old(s[pos..])), r)
      decreases |s| - pos, 5
    {
      r := ParseOr();
      if r.Failure? {
        return;
      }
      SkipSpace();
      if pos >= |s| || s[pos] != ')' {
        return Failure(MissingParen);
      }
      assert s[pos..][1..] == s[pos + 1..];
      pos := pos + 1;
    }

    /** The first character and those after it that a number may contain. */
    method RunNumber()
      requires pos < |s|
      modifies this`pos
      ensures pos == old(pos) + 1 + NumberRun(old(s[pos..])[1..]) <= |s|
      ensures s[old(pos)..pos] == old(s[pos..])[..pos - old(pos)] && s[pos..] == old(s[pos..])[pos - old(pos)..]
    {
      ghost var u := s[pos..];
      assert u[1..] == s[pos + 1..];
      pos := pos + 1;
      while pos < |s| && NumberPart(s[pos])
        invariant old(pos) < pos <= |s|
        invariant pos + NumberRun(s[pos..]) == old(pos) + 1 + NumberRun(u[1..])
      {
        assert s[pos..][1..] == s[pos + 1..];
        pos := pos + 1;
      }
    }

    method RunName()
      requires pos < |s|
      modifies this`pos
      ensures pos == old(pos) + 1 + NameRun(old(s[pos..])[1..]) <= |s|
      ensures s[old(pos)..pos] == old(s[pos..])[..pos - old(pos)] && s[pos..] == old(s[pos..])[pos - old(pos)..]
    {
      ghost var u := s[pos..];
      assert u[1..] == s[pos + 1..];
      pos := pos + 1;
      while pos < |s| && NamePart(s[pos])
        invariant old(pos) < pos <= |s|
        invariant pos + NameRun(s[pos..]) == old(pos) + 1 + NameRun(u[1..])
      {
        assert s[pos..][1..] == s[pos + 1..];
        pos := pos + 1;
      }
    }

    /** What a name turns into: a call when a parenthesis follows, an identifier otherwise. */
    ghost function NameOr(name: string, t: string): Parse<Node> {
      var w := Skip(t);
      if w != [] && w[0] == '(' then
        var arg := C.ParsePrimary(w[1..]);
        if arg.Err? then arg
        else
          var z := Skip(arg.rest);
          if z == [] || z[0] != ')' then Err(MissingCallParen) else Ok(Call(name, arg.value), z[1..])
      else Ok(Ident(name), w)
    }

    method AfterName(name: string) returns (r: Result<Node>)
      requires pos <= |s|
      modifies this`pos
      ensures Agrees(NameOr(name, old(s[pos..])), r)
      decreases |s| - pos, 2
    {
      SkipSpace();
      if pos < |s| && s[pos] == '(' {
        assert s[pos..][1..] == s[pos + 1..];
        pos := pos + 1;
        r := ParsePrimary();
        if r.Failure? {
          return;
        }
        SkipSpace();
        if pos >= |s| || s[pos] != ')' {
          return Failure(MissingCallParen);
        }
        assert s[pos..][1..] == s[pos + 1..];
        pos := pos + 1;
        return Success(Call(name, r.value));
      }
      r := Success(Ident(name));
    }

    method ParseQuote(q: char) returns (r: Result<string>)
      requires pos < |s| && s[pos] == q
      modifies this`pos
      ensures Agrees(QuoteBody(q, old(s[pos..])[1..], ""), r)
    {
      ghost var t := s[pos..][1..];
      pos := pos + 1;
      assert s[pos..] == t;
      var b := "";
      while pos < |s|
        invariant pos <= |s|
        invariant QuoteBody(q, t, "") == QuoteBody(q, s[pos..], b)
      {
        ghost var u := s[pos..];
        assert u[1..] == s[pos + 1..] && (|u| > 1 ==> u[2..] == s[pos + 2..] && u[1] == s[pos + 1]);
        var c := s[pos];
        pos := pos + 1;
        if c == q {
          return Success(b);
        }
        if c == '\\' && pos < |s| {
          b := b + [s[pos]];
          pos := pos + 1;
          continue;
        }
        b := b + [c];
      }
      r := Failure(UnterminatedString);
    }
  }

  /** The parse at the head of EvalIf. */
  method ParseText(text: string) returns (r: Result<Node>)
    ensures r == match ParseAll(text) case Ok(n, _) => Success(n) case Err(e) => Failure(e)
  {
    var p := new IfParser(text);
    assert text[0..] == text;
    r := p.ParseOr();
    if r.Failure? {
      return;
    }
    p.SkipSpace();
    if p.pos < |p.s| {
      return Failure(Trailing(p.s[p.pos..]));
    }
  }
}
