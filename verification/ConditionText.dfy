/** The parser of the `if:` language accepts exactly the texts of the grammar; and a printer whose
    texts parse back and use the fewest parentheses. */
module ConditionText {
  import opened Conditions
  import opened ConditionParsing
  import opened ConditionReading

  // ---- every text of the grammar parses to its tree ----

  /** Soundness of the grammar: with any spacing, quoting and extra parentheses, a text of the
      grammar parses, completely, to its tree. */
  lemma GrammarTextsParse(e: Expr, ws: string)
    requires WF(e) && Spaces(ws)
    ensures ParseAll(Text(e) + ws) == Ok(Ast(e), [])
  {
    SkipSpaces(ws, []);
    assert ws + [] == ws;
    OrParses(e, ws);
    SkipTwice(ws);
  }

  /** The grammar is unambiguous: one text, one tree. */
  lemma OneTreePerText(e: Expr, f: Expr)
    requires WF(e) && WF(f) && Text(e) == Text(f)
    ensures Ast(e) == Ast(f)
  {
    GrammarTextsParse(e, []);
    GrammarTextsParse(f, []);
  }

  // ---- every accepted text is a text of the grammar ----

  ghost predicate Written(t: string, n: Node, e: Expr, ws: string) {
    WF(e) && Spaces(ws) && t == Text(e) + ws && Ast(e) == n
  }

  ghost predicate Denotes(t: string, n: Node) {
    exists e, ws :: Written(t, n, e, ws)
  }

  /** The parser accepts exactly the texts of the grammar, and gives each its tree. */
  lemma ParserDecidesTheGrammar(t: string, n: Node)
    ensures ParseAll(t) == Ok(n, []) <==> Denotes(t, n)
  {
    if ParseAll(t) == Ok(n, []) {
      var e, ws := OrRead(t);
      var r := ParseOr(t).rest;
      var tail := SplitSpaces(r);
      JoinSpaces(ws, tail);
      assert r == tail;
      assert t == Text(e) + (ws + tail);
      assert Written(t, n, e, ws + tail);
    }
    if Denotes(t, n) {
      var e, ws :| Written(t, n, e, ws);
      GrammarTextsParse(e, ws);
    }
  }

  // ---- printing ----

  function OpLevel(op: Op): nat {
    match op case Eq => 1 case Ne => 1 case And => 2 case Or => 3
  }

  /** The loosest operand an operator takes without parentheses, on either side. */
  function LeftLevel(op: Op): nat {
    match op case Or => 3 case And => 2 case _ => 0
  }

  function RightLevel(op: Op): nat {
    match op case Or => 2 case And => 1 case _ => 0
  }

  function Units(v: string): seq<Unit> {
    seq(|v|, i requires 0 <= i < |v| => if v[i] == '"' || v[i] == '\\' then Escaped(v[i]) else Plain(v[i]))
  }

  /** n written without spaces, in double quotes, with parentheses only where the level asks. */
  function TreeAt(n: Node, level: nat): Expr {
    match n
    case Lit(v) => Prim("", Quoted('"', Units(v)))
    case Ident(name) => Prim("", Name(name))
    case Call(name, arg) => Prim("", CallOf(name, "", TreeAt(arg, 0), ""))
    case Bin(op, l, r) =>
      var e := Infix(op, TreeAt(l, LeftLevel(op)), "", TreeAt(r, RightLevel(op)));
      if OpLevel(op) <= level then e else Prim("", Paren(e, ""))
  }

  function Print(n: Node): string { Text(TreeAt(n, 3)) }

  /** Every name in n is one the language can write. */
  predicate Named(n: Node) {
    match n
    case Lit(_) => true
    case Ident(name) => NameText(name)
    case Call(name, arg) => NameText(name) && Named(arg)
    case Bin(_, l, r) => Named(l) && Named(r)
  }

  lemma {:induction false} UnitsValue(v: string)
    ensures BodyValue(Units(v)) == v
  {
    if v != [] {
      assert Units(v)[1..] == Units(v[1..]);
      UnitsValue(v[1..]);
    }
  }

  lemma {:induction false} TreeIsWritten(n: Node, level: nat)
    requires Named(n)
    ensures WF(TreeAt(n, level)) && Level(TreeAt(n, level)) <= level && Ast(TreeAt(n, level)) == n
  {
    match n {
      case Lit(v) => UnitsValue(v);
      case Ident(_) =>
      case Call(_, arg) => TreeIsWritten(arg, 0);
      case Bin(op, l, r) =>
        TreeIsWritten(l, LeftLevel(op));
        TreeIsWritten(r, RightLevel(op));
        var e := Infix(op, TreeAt(l, LeftLevel(op)), "", TreeAt(r, RightLevel(op)));
        assert WF(e) && Ast(e) == n;
        assert Ast(Prim("", Paren(e, ""))) == Ast(e);
    }
  }

  lemma {:induction false} WrittenIsNamed(e: Expr)
    requires WF(e)
    ensures Named(Ast(e))
  {
    match e
    case Infix(_, l, _, r) => WrittenIsNamed(l); WrittenIsNamed(r);
    case Prim(_, p) =>
      match p
      case CallOf(_, _, arg, _) => WrittenIsNamed(arg);
      case Paren(inner, _) => WrittenIsNamed(inner);
      case _ =>
  }

  /** The round trip, for exactly the trees the parser can produce: string escapes are undone,
      precedence and associativity are restored. */
  lemma PrintedTreesParseBack(n: Node)
    ensures ParseAll(Print(n)) == Ok(n, []) <==> Named(n)
  {
    if Named(n) {
      TreeIsWritten(n, 3);
      GrammarTextsParse(TreeAt(n, 3), []);
      assert Text(TreeAt(n, 3)) + [] == Print(n);
    }
    if ParseAll(Print(n)) == Ok(n, []) {
      ParserDecidesTheGrammar(Print(n), n);
      var e, ws :| Written(Print(n), n, e, ws);
      WrittenIsNamed(e);
    }
  }

  function Parens(e: Expr): nat {
    match e
    case Infix(_, l, _, r) => Parens(l) + Parens(r)
    case Prim(_, p) =>
      match p
      case CallOf(_, _, arg, _) => Parens(arg)
      case Paren(inner, _) => 1 + Parens(inner)
      case _ => 0
  }

  lemma ParensByLevel(n: Node, level: nat)
    ensures Parens(TreeAt(n, level)) <= 1 + Parens(TreeAt(n, 3))
    ensures level >= 3 ==> TreeAt(n, level) == TreeAt(n, 3)
  {
  }

  /** No way of writing the same tree uses fewer pairs of parentheses. */
  lemma {:induction false} PrintIsMinimal(e: Expr, level: nat)
    requires WF(e) && Level(e) <= level
    ensures Parens(TreeAt(Ast(e), level)) <= Parens(e)
    decreases e
  {
    match e
    case Infix(op, l, _, r) =>
      PrintIsMinimal(l, LeftLevel(op));
      PrintIsMinimal(r, RightLevel(op));
    case Prim(_, p) =>
      match p
      case CallOf(_, _, arg, _) => PrintIsMinimal(arg, 0);
      case Paren(inner, _) =>
        PrintIsMinimal(inner, 3);
        ParensByLevel(Ast(e), level);
      case _ =>
  }
}
