/** Parsing the texts of the grammar, part by part: for every kind of expression and whatever may
    follow it, the parser function at its level reads exactly its text and gives its tree. White
    space in front does not matter, runs of name and number characters end where they should,
    quotes are undone, and the loops of the two logical operators go on as long as their operator
    comes up. Together they are one half of the statement that the parser accepts exactly the texts
    of the grammar. */
module ConditionParsing {
  import opened Collections
  import opened Conditions

  lemma {:induction false} SkipSpaces(ws: string, t: string)
    requires Spaces(ws)
    ensures Skip(ws + t) == Skip(t)
  {
    if ws == [] {
      assert ws + t == t;
    } else {
      assert (ws + t)[1..] == ws[1..] + t;
      SkipSpaces(ws[1..], t);
    }
  }

  lemma {:induction false} SkipTwice(t: string)
    ensures Skip(Skip(t)) == Skip(t)
  {
    if t != [] && IsSpace(t[0]) {
      SkipTwice(t[1..]);
    }
  }

  /** What may follow a primary: spaces, then the end, a closing parenthesis or an operator. */
  predicate Follows(t: string) {
    var u := Skip(t);
    u == [] || u[0] == ')' || u[0] == '|' || u[0] == '&' || u[0] == '=' || u[0] == '!'
  }

  predicate AtCmp(t: string) { Starts(Skip(t), "==") || Starts(Skip(t), "!=") }

  predicate AtAnd(t: string) { Starts(Skip(t), "&&") }

  predicate AtOr(t: string) { Starts(Skip(t), "||") }

  lemma FollowsEndsRuns(t: string)
    requires Follows(t)
    ensures t != [] ==> !NamePart(t[0]) && !NumberPart(t[0])
    ensures Skip(t) != [] ==> Skip(t)[0] != '('
  {
  }

  lemma {:induction false} NameRunStops(name: string, t: string)
    requires forall i :: 0 <= i < |name| ==> NamePart(name[i])
    requires t != [] ==> !NamePart(t[0])
    ensures NameRun(name + t) == |name|
  {
    if name == [] {
      assert name + t == t;
    } else {
      assert (name + t)[1..] == name[1..] + t;
      NameRunStops(name[1..], t);
    }
  }

  lemma {:induction false} NumberRunStops(text: string, t: string)
    requires forall i :: 0 <= i < |text| ==> NumberPart(text[i])
    requires t != [] ==> !NumberPart(t[0])
    ensures NumberRun(text + t) == |text|
  {
    if text == [] {
      assert text + t == t;
    } else {
      assert (text + t)[1..] == text[1..] + t;
      NumberRunStops(text[1..], t);
    }
  }

  lemma {:induction false} QuoteUndone(q: char, body: seq<Unit>, t: string, done: string)
    requires QuotedBy(q, body)
    ensures QuoteBody(q, BodyText(body) + [q] + t, done) == Ok(done + BodyValue(body), t)
  {
    var whole := BodyText(body) + [q] + t;
    if body == [] {
      assert whole == [q] + t;
      assert done + BodyValue(body) == done;
    } else {
      var u := body[0];
      assert whole == UnitText(u) + (BodyText(body[1..]) + [q] + t);
      QuoteUndone(q, body[1..], t, done + [u.c]);
      assert done + [u.c] + BodyValue(body[1..]) == done + BodyValue(body);
      assert whole[|UnitText(u)|..] == BodyText(body[1..]) + [q] + t;
    }
  }

  lemma LoopsIgnoreSpace(left: Node, t: string, u: string)
    requires Skip(t) == Skip(u)
    ensures AndLoop(left, t) == AndLoop(left, u) && OrLoop(left, t) == OrLoop(left, u)
  {
  }

  /** Spaces before a primary do not matter. */
  lemma LeadIgnored(lead: string, u: string)
    requires Spaces(lead)
    ensures ParsePrimary(lead + u) == ParsePrimary(u)
  {
    SkipSpaces(lead, u);
    SkipDecides(lead + u, u);
  }

  lemma SkipDecides(t: string, u: string)
    requires Skip(t) == Skip(u)
    ensures ParsePrimary(t) == ParsePrimary(u)
  {
  }

  lemma QuotedParses(q: char, body: seq<Unit>, t: string)
    requires WFP(Quoted(q, body))
    ensures ParsePrimary(PText(Quoted(q, body)) + t) == Ok(Lit(BodyValue(body)), t)
  {
    var u := PText(Quoted(q, body)) + t;
    assert u[0] == q && u[1..] == BodyText(body) + [q] + t;
    QuoteUndone(q, body, t, "");
    assert "" + BodyValue(body) == BodyValue(body);
  }

  lemma NumberParses(text: string, t: string)
    requires NumberText(text) && Follows(t)
    ensures ParsePrimary(text + t) == Ok(Lit(text), t)
  {
    var u := text + t;
    FollowsEndsRuns(t);
    TailOfJoin(text, t);
    NumberRunStops(text[1..], t);
    JoinSplits(text, t);
  }

  lemma NameRunOf(name: string, t: string)
    requires NameText(name) && (t != [] ==> !NamePart(t[0]))
    ensures var u := name + t;
      Skip(u) == u && NameStart(u[0]) && 1 + NameRun(u[1..]) == |name| && u[..|name|] == name && u[|name|..] == t
  {
    var u := name + t;
    assert u[0] == name[0] && u[1..] == name[1..] + t;
    NameRunStops(name[1..], t);
  }

  lemma NameParses(text: string, t: string)
    requires NameText(text) && Follows(t)
    ensures ParsePrimary(text + t) == Ok(Ident(text), Skip(t))
  {
    FollowsEndsRuns(t);
    NameRunOf(text, t);
  }

  lemma CallStep(name: string, w: string, arg: Parse<Node>, t: string)
    requires NameText(name) && w != [] && !NamePart(w[0])
    requires Skip(w) != [] && Skip(w)[0] == '('
    requires arg == ParsePrimary(Skip(w)[1..]) && arg.Ok? && Skip(arg.rest) == [')'] + t
    ensures ParsePrimary(name + w) == Ok(Call(name, arg.value), t)
  {
    NameRunOf(name, w);
  }

  lemma ParenStep(v: string, inner: Parse<Node>, t: string)
    requires inner == ParseOr(v) && inner.Ok? && Skip(inner.rest) == [')'] + t
    ensures ParsePrimary(['('] + v) == Ok(inner.value, t)
  {
    var u := ['('] + v;
    assert u[0] == '(' && u[1..] == v;
  }

  lemma CmpStep(s: string, op: Op, v: string)
    requires op.Eq? || op.Ne?
    requires ParsePrimary(s).Ok? && Skip(ParsePrimary(s).rest) == OpText(op) + v && ParsePrimary(v).Ok?
    ensures ParseCmp(s) == Ok(Bin(op, ParsePrimary(s).value, ParsePrimary(v).value), ParsePrimary(v).rest)
  {
    assert (OpText(op) + v)[..2] == OpText(op) && (OpText(op) + v)[2..] == v;
  }

  lemma AndStep(left: Node, t: string, v: string)
    requires Skip(t) == "&&" + v && ParseCmp(v).Ok?
    ensures AndLoop(left, t) == AndLoop(Bin(And, left, ParseCmp(v).value), ParseCmp(v).rest)
  {
    assert ("&&" + v)[2..] == v;
  }

  lemma OrStep(left: Node, t: string, v: string)
    requires Skip(t) == "||" + v && ParseAnd(v).Ok?
    ensures OrLoop(left, t) == OrLoop(Bin(Or, left, ParseAnd(v).value), ParseAnd(v).rest)
  {
    assert ("||" + v)[2..] == v;
  }

  /** The text of a binary expression, seen from the end of its left operand. */
  lemma InfixText(e: Expr, t: string) returns (after: string, v: string)
    requires WF(e) && e.Infix?
    ensures v == Text(e.right) + t
    ensures Text(e) + t == Text(e.left) + after && Skip(after) == OpText(e.op) + v && Follows(after)
    ensures AtCmp(after) <==> e.op.Eq? || e.op.Ne?
    ensures AtAnd(after) <==> e.op.And?
  {
    v := Text(e.right) + t;
    after := e.gap + (OpText(e.op) + v);
    SkipSpaces(e.gap, OpText(e.op) + v);
    OperatorFirst(e.op, v);
    GlueOperator(Text(e.left), e.gap, OpText(e.op), Text(e.right), t);
  }

  lemma OperatorFirst(op: Op, v: string)
    ensures var u := OpText(op) + v;
      && u != [] && Skip(u) == u && Follows(u)
      && (Starts(u, "==") || Starts(u, "!=") <==> op.Eq? || op.Ne?) && (Starts(u, "&&") <==> op.And?)
  {
    var u := OpText(op) + v;
    assert u[0] == OpText(op)[0] && u[1] == OpText(op)[1];
  }

  lemma ClosingText(close: string, t: string)
    requires Spaces(close)
    ensures var after := close + ([')'] + t);
      Skip(after) == [')'] + t && Follows(after) && !AtCmp(after) && !AtAnd(after) && !AtOr(after)
  {
    SkipSpaces(close, [')'] + t);
  }

  lemma {:induction false} PrimParses(e: Expr, t: string)
    requires WF(e) && e.Prim? && Follows(t)
    ensures ParsePrimary(Text(e) + t).Ok?
    ensures ParsePrimary(Text(e) + t).value == Ast(e)
    ensures Skip(ParsePrimary(Text(e) + t).rest) == Skip(t)
    decreases e, 0
  {
    assert Text(e) + t == e.lead + (PText(e.p) + t);
    LeadIgnored(e.lead, PText(e.p) + t);
    match e.p {
      case Quoted(q, body) => QuotedParses(q, body, t);
      case Number(text) => NumberParses(text, t);
      case Name(text) => NameParses(text, t); SkipTwice(t);
      case CallOf(name, gap, arg, close) => CallParses(name, gap, arg, close, t);
      case Paren(inner, close) => ParenParses(inner, close, t);
    }
  }

  lemma AfterCalledName(gap: string, v: string)
    requires Spaces(gap)
    ensures var w := gap + (['('] + v); w != [] && !NamePart(w[0]) && Skip(w) == ['('] + v && Skip(w)[1..] == v
  {
    SkipSpaces(gap, ['('] + v);
    assert (gap + (['('] + v))[0] == if gap == [] then '(' else gap[0];
  }

  lemma GlueCall(name: string, gap: string, arg: string, close: string, t: string)
    ensures name + gap + "(" + arg + close + ")" + t == name + (gap + (['('] + (arg + (close + ([')'] + t)))))
  {
  }

  lemma GlueOperator(l: string, gap: string, op: string, r: string, t: string)
    ensures (l + gap + op + r) + t == l + (gap + (op + (r + t)))
  {
  }

  lemma {:induction false} CallParses(name: string, gap: string, arg: Expr, close: string, t: string)
    requires WFP(CallOf(name, gap, arg, close))
    ensures ParsePrimary(PText(CallOf(name, gap, arg, close)) + t) == Ok(Call(name, Ast(arg)), t)
    decreases arg, 1
  {
    var after := close + ([')'] + t);
    var v := Text(arg) + after;
    var w := gap + (['('] + v);
    GlueCall(name, gap, Text(arg), close, t);
    AfterCalledName(gap, v);
    ClosingText(close, t);
    PrimParses(arg, after);
    CallStep(name, w, ParsePrimary(v), t);
  }

  lemma {:induction false} ParenParses(inner: Expr, close: string, t: string)
    requires WFP(Paren(inner, close))
    ensures ParsePrimary(PText(Paren(inner, close)) + t) == Ok(Ast(inner), t)
    decreases inner, 5
  {
    var after := close + ([')'] + t);
    assert PText(Paren(inner, close)) + t == ['('] + (Text(inner) + after);
    ClosingText(close, t);
    OrParses(inner, after);
    SkipTwice(after);
    ParenStep(Text(inner) + after, ParseOr(Text(inner) + after), t);
  }

  lemma {:induction false} CmpParses(e: Expr, t: string)
    requires WF(e) && Level(e) <= 1 && Follows(t) && !AtCmp(t)
    ensures ParseCmp(Text(e) + t).Ok?
    ensures ParseCmp(Text(e) + t).value == Ast(e)
    ensures Skip(ParseCmp(Text(e) + t).rest) == Skip(t)
    decreases e, 1
  {
    if e.Prim? {
      PrimParses(e, t);
      SkipTwice(t);
    } else {
      var after, v := InfixText(e, t);
      PrimParses(e.left, after);
      PrimParses(e.right, t);
      CmpStep(Text(e) + t, e.op, v);
    }
  }

  /** Up to the end of an && chain the parser is in its loop with the chain as left operand. */
  lemma {:induction false} AndParses(e: Expr, t: string)
    requires WF(e) && Level(e) <= 2 && Follows(t) && !AtCmp(t)
    ensures ParseAnd(Text(e) + t) == AndLoop(Ast(e), t)
    decreases e, 2
  {
    if Level(e) <= 1 {
      CmpParses(e, t);
      LoopsIgnoreSpace(Ast(e), ParseCmp(Text(e) + t).rest, t);
    } else {
      var after, v := InfixText(e, t);
      AndParses(e.left, after);
      CmpParses(e.right, t);
      AndStep(Ast(e.left), after, v);
      LoopsIgnoreSpace(Ast(e), ParseCmp(v).rest, t);
    }
  }

  lemma {:induction false} OrChainParses(e: Expr, t: string)
    requires WF(e) && Follows(t) && !AtCmp(t) && !AtAnd(t)
    ensures ParseOr(Text(e) + t) == OrLoop(Ast(e), t)
    decreases e, 3
  {
    SkipTwice(t);
    LoopsIgnoreSpace(Ast(e), Skip(t), t);
    if Level(e) <= 2 {
      AndParses(e, t);
    } else {
      var after, v := InfixText(e, t);
      OrChainParses(e.left, after);
      AndParses(e.right, t);
      OrStep(Ast(e.left), after, v);
    }
  }

  lemma {:induction false} OrParses(e: Expr, t: string)
    requires WF(e) && Follows(t) && !AtCmp(t) && !AtAnd(t) && !AtOr(t)
    ensures ParseOr(Text(e) + t) == Ok(Ast(e), Skip(t))
    decreases e, 4
  {
    OrChainParses(e, t);
  }
}
