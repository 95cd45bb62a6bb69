/** Evaluating `if:` expressions, and what the text-level operators mean. */
module ConditionEval {
  import opened Collections
  import opened Conditions
  import opened ConditionReading
  import opened ConditionText
  import opened ConditionParser
  import opened Trimming

  /** A runtime value; `Other` is any further kind, by its default rendering. */
  datatype Value = Nil | Bool(b: bool) | Str(s: string) | Other(rendering: string)

  /** How names resolve, the event subject, and the library's lower-casing. */
  datatype Env = Env(lookup: string -> Value, subject: string, lower: string -> string)

  function Sprint(v: Value): string {
    match v
    case Nil => "<nil>"
    case Bool(b) => if b then "true" else "false"
    case Str(s) => s
    case Other(r) => r
  }

  function Stringify(v: Value): string {
    if v.Nil? then "" else Sprint(v)
  }

  predicate Truthy(v: Value) {
    match v
    case Bool(b) => b
    case Nil => false
    case _ => Stringify(v) != "" && Stringify(v) != "false" && Stringify(v) != "0"
  }

  predicate Contains(t: string, part: string) {
    exists i :: 0 <= i <= |t| && part <= t[i..]
  }

  function Resolve(name: string, env: Env): Value {
    if name == "true" then Str("true")
    else if name == "false" then Str("false")
    else env.lookup(name)
  }

  function Eval(n: Node, env: Env): Value {
    match n
    case Lit(v) => Str(v)
    case Ident(name) => Resolve(name, env)
    case Call(name, arg) =>
      if name == "event.subject_contains" || name == "subject_contains" then
        Bool(Contains(env.lower(env.subject), env.lower(Sprint(Eval(arg, env)))))
      else Bool(false)
    case Bin(op, l, r) =>
      var a, b := Eval(l, env), Eval(r, env);
      match op
      case And => Bool(Truthy(a) && Truthy(b))
      case Or => Bool(Truthy(a) || Truthy(b))
      case Eq => Bool(Stringify(a) == Stringify(b))
      case Ne => Bool(Stringify(a) != Stringify(b))
  }

  // ---- evaluation of a text ----

  method EvalIf(text: string, env: Env) returns (r: Result<bool>)
    ensures r == EvalText(text, env)
  {
    var expr := Trim(text);
    if expr == "" {
      return Success(true);
    }
    var n := ParseText(expr);
    if n.Failure? {
      return Failure(n.error);
    }
    r := Success(Truthy(Eval(n.value, env)));
  }

  function EvalText(text: string, env: Env): Result<bool> {
    var expr := Trim(text);
    if expr == "" then Success(true)
    else match ParseAll(expr)
      case Ok(n, _) => Success(Truthy(Eval(n, env)))
      case Err(e) => Failure(e)
  }

  // ---- what a condition's text means ----

  lemma BlanksAreSpaces(t: string)
    requires Blanks(t)
    ensures Spaces(t)
  {
  }

  lemma GlueFront(a: string, l: string, gap: string, op: string, r: string)
    ensures (a + l) + gap + op + r == a + (l + gap + op + r)
  {
  }

  lemma GlueBoth(t: string, a: string, s: string, b: string, e: string, ws: string)
    requires t == a + (s + b) && s == e + ws
    ensures t == (a + e) + (ws + b)
  {
  }

  lemma GlueCombined(t: string, op: string, u: string)
    ensures "(" + t + ")" + op + "(" + u + ")" == ("(" + t + ")" + "" + op + ("(" + u + ")")) + ""
  {
  }

  /** The same tree, written with more space in front. */
  lemma {:induction false} Indent(a: string, e: Expr) returns (f: Expr)
    requires WF(e) && Spaces(a)
    ensures WF(f) && Ast(f) == Ast(e) && Level(f) == Level(e) && Text(f) == a + Text(e)
    decreases e
  {
    match e
    case Prim(lead, p) =>
      f := Prim(a + lead, p);
      JoinSpaces(a, lead);
      Associate(a, lead, PText(p));
    case Infix(op, l, gap, r) =>
      var m := Indent(a, l);
      f := Infix(op, m, gap, r);
      GlueFront(a, Text(l), gap, OpText(op), Text(r));
  }

  /** Trimming does not change what a text denotes. */
  lemma TrimmedDenotes(t: string, n: Node)
    requires Denotes(Trim(t), n)
    ensures Denotes(t, n)
  {
    var a := TrimLeftSplits(t);
    var b := TrimRightSplits(TrimLeft(t));
    BlanksAreSpaces(a);
    BlanksAreSpaces(b);
    var e, ws :| Written(Trim(t), n, e, ws);
    var f := Indent(a, e);
    JoinSpaces(ws, b);
    GlueBoth(t, a, Trim(t), b, Text(e), ws);
    assert Written(t, n, f, ws + b);
  }

  /** The text in parentheses, combined with another by a logical operator. */
  function Combined(op: Op, t: string, u: string): string {
    "(" + t + ")" + OpText(op) + "(" + u + ")"
  }

  lemma Parenthesised(t: string, n: Node) returns (e: Expr)
    requires Denotes(t, n)
    ensures WF(e) && e.Prim? && Ast(e) == n && Text(e) == "(" + t + ")"
  {
    var f, ws :| Written(t, n, f, ws);
    var p := Paren(f, ws);
    e := Prim("", p);
    assert WFP(p) && PAst(p) == n;
    Associate("(", Text(f), ws);
    assert PText(p) == "(" + t + ")";
    assert Text(e) == PText(p);
  }

  lemma CombinedDenotes(op: Op, t: string, u: string, n: Node, m: Node)
    requires Denotes(t, n) && Denotes(u, m)
    ensures Denotes(Combined(op, t, u), Bin(op, n, m))
  {
    var l := Parenthesised(t, n);
    var r := Parenthesised(u, m);
    var c := Infix(op, l, "", r);
    assert Text(c) == Text(l) + "" + OpText(op) + Text(r);
    GlueCombined(t, OpText(op), u);
    assert Written(Combined(op, t, u), Bin(op, n, m), c, "");
  }

  lemma ParenthesesStay(t: string)
    requires |t| >= 2 && t[0] == '(' && t[|t| - 1] == ')'
    ensures Trim(t) == t
  {
  }

  /** Conditions compose: put two texts that each evaluate into parentheses, join them by && or
      ||, and the result is the conjunction or disjunction of theirs. */
  lemma ConditionsCompose(op: Op, t: string, u: string, env: Env)
    requires op.And? || op.Or?
    requires Trim(t) != "" && Trim(u) != "" && EvalText(t, env).Success? && EvalText(u, env).Success?
    ensures var a, b := EvalText(t, env).value, EvalText(u, env).value;
      EvalText(Combined(op, t, u), env) == Success(if op.And? then a && b else a || b)
  {
    var n, m := ParseAll(Trim(t)).value, ParseAll(Trim(u)).value;
    ParserDecidesTheGrammar(Trim(t), n);
    ParserDecidesTheGrammar(Trim(u), m);
    TrimmedDenotes(t, n);
    TrimmedDenotes(u, m);
    CombinedDenotes(op, t, u, n, m);
    var c := Combined(op, t, u);
    ParenthesesStay(c);
    ParserDecidesTheGrammar(c, Bin(op, n, m));
  }

  /** Printing preserves evaluation. */
  lemma PrintedConditionsEvaluate(n: Node, env: Env)
    requires Named(n)
    ensures EvalText(Print(n), env) == Success(Truthy(Eval(n, env)))
  {
    PrintedTreesParseBack(n);
    PrintHasNoBlanks(n, 3);
    TrimKeeps(Print(n));
  }

  lemma EndsOfJoin(a: string, op: string, b: string)
    requires a != [] && b != []
    ensures var t := a + "" + op + b; t != [] && t[0] == a[0] && t[|t| - 1] == b[|b| - 1]
  {
  }

  lemma {:induction false} PrintHasNoBlanks(n: Node, level: nat)
    requires Named(n)
    ensures Tight(Text(TreeAt(n, level)))
  {
    match n
    case Bin(op, l, r) =>
      PrintHasNoBlanks(l, LeftLevel(op));
      PrintHasNoBlanks(r, RightLevel(op));
      InfixHasNoBlanks(op, TreeAt(l, LeftLevel(op)), TreeAt(r, RightLevel(op)));
      if OpLevel(op) > level {
        BracketHasNoBlanks(Infix(op, TreeAt(l, LeftLevel(op)), "", TreeAt(r, RightLevel(op))));
      }
    case Ident(name) =>
      NameHasNoBlanks(name);
    case Call(name, arg) =>
      NameHasNoBlanks(name);
      CallHasNoBlanks(name, TreeAt(arg, 0));
    case Lit(v) =>
      QuotedHasNoBlanks('"', Units(v));
  }

  lemma InfixHasNoBlanks(op: Op, l: Expr, r: Expr)
    requires Tight(Text(l)) && Tight(Text(r))
    ensures Tight(Text(Infix(op, l, "", r)))
  {
    EndsOfJoin(Text(l), OpText(op), Text(r));
  }

  lemma BracketHasNoBlanks(e: Expr)
    ensures Tight(Text(Prim("", Paren(e, ""))))
  {
    TightBetween("(", Text(e), ")");
  }

  lemma CallHasNoBlanks(name: string, arg: Expr)
    requires Tight(name)
    ensures Tight(Text(Prim("", CallOf(name, "", arg, ""))))
  {
    TightBetween(name, "(" + Text(arg), ")");
    assert "" + (name + "" + "(" + Text(arg) + "" + ")") == name + ("(" + Text(arg)) + ")";
  }

  lemma QuotedHasNoBlanks(q: char, body: seq<Unit>)
    requires !IsBlank(q)
    ensures Tight(Text(Prim("", Quoted(q, body))))
  {
    TightBetween([q], BodyText(body), [q]);
  }

  lemma NameHasNoBlanks(name: string)
    requires NameText(name)
    ensures Tight(name) && Tight(Text(Prim("", Name(name))))
  {
    assert |name| > 1 ==> NamePart(name[|name| - 1]);
    assert "" + name == name;
  }

  lemma TightBetween(a: string, b: string, c: string)
    requires a != [] && !IsBlank(a[0]) && c != [] && !IsBlank(c[|c| - 1])
    ensures Tight(a + b + c) && Tight("" + (a + b + c)) && Tight("" + (a + b + "" + c))
  {
    assert a + b + "" + c == a + b + c && "" + (a + b + c) == a + b + c;
  }
}
