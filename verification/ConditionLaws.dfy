/** What the texts of the `if:` language come to when they are evaluated, text by text. */
module ConditionLaws {
  import opened Collections
  import opened Conditions
  import opened ConditionParsing
  import opened ConditionText
  import opened ConditionEval
  import opened ConditionParser
  import opened Trimming

  /** A string in double quotes, its quotes and backslashes escaped. */
  function Escape(v: string): string {
    if v == "" then ""
    else (if v[0] == '"' || v[0] == '\\' then "\\" + [v[0]] else [v[0]]) + Escape(v[1..])
  }

  function Quote(v: string): string { "\"" + Escape(v) + "\"" }

  lemma {:induction false} EscapedUnits(v: string)
    ensures BodyText(Units(v)) == Escape(v)
  {
    if v != "" {
      assert Units(v)[1..] == Units(v[1..]);
      EscapedUnits(v[1..]);
    }
  }

  lemma QuotePrints(v: string, level: nat)
    ensures Text(TreeAt(Lit(v), level)) == Quote(v) && Named(Lit(v))
  {
    EscapedUnits(v);
    NothingBefore(Quote(v));
  }

  lemma PrimaryText(p: Primary)
    ensures Text(Prim("", p)) == PText(p)
  {
    NothingBefore(PText(p));
  }

  lemma NamePrints(name: string)
    ensures Print(Ident(name)) == name
  {
    PrimaryText(Name(name));
  }

  // Single operands.

  predicate Falsy(v: string) { v == "" || v == "false" || v == "0" }

  /** A quoted string alone is true unless it is empty, false or 0. */
  lemma LiteralAlone(v: string, env: Env)
    ensures EvalText(Quote(v), env) == Success(v != "" && v != "false" && v != "0")
  {
    QuotePrints(v, 3);
    PrintedConditionsEvaluate(Lit(v), env);
  }

  /** The letters among the first 256 characters: those of ASCII, the two ordinal signs and the micro
      sign, and all from C0 on but the times and division signs. */
  predicate Letter(c: char) {
    || 'a' <= c <= 'z' || 'A' <= c <= 'Z' || c as int in {170, 181, 186}
    || (192 <= c as int <= 255 && c as int != 215 && c as int != 247)
  }

  predicate Digit(c: char) { '0' <= c <= '9' }

  /** A letter or underscore, then letters, digits, underscores and dots. */
  predicate PlainName(t: string) {
    && t != "" && (t[0] == '_' || Letter(t[0]))
    && forall i :: 1 <= i < |t| ==> t[i] == '_' || t[i] == '.' || Digit(t[i]) || Letter(t[i])
  }

  /** A dotted name is one name. */
  lemma PlainNamesParse(t: string)
    requires PlainName(t)
    ensures ParseAll(t) == Ok(Ident(t), [])
  {
    assert NameText(t);
    PrintedTreesParseBack(Ident(t));
    NamePrints(t);
  }

  /** The text a name resolves to, if it resolves to anything. */
  function Resolved(name: string, env: Env): Option<string> {
    if name == "true" then Some("true")
    else if name == "false" then Some("false")
    else
      match env.lookup(name)
      case Nil => None
      case Bool(b) => Some(if b then "true" else "false")
      case Str(s) => Some(s)
      case Other(r) => Some(r)
  }

  /** A name alone is true when it resolves to something that is not empty, false or 0. */
  lemma NameAlone(name: string, env: Env)
    requires PlainName(name)
    ensures var r := Resolved(name, env);
      EvalText(name, env) == Success(r.Some? && !Falsy(r.value))
  {
    assert NameText(name);
    NamePrints(name);
    PrintedConditionsEvaluate(Ident(name), env);
    NameResolves(name, env);
  }

  lemma NameResolves(name: string, env: Env)
    ensures var r, v := Resolved(name, env), Eval(Ident(name), env);
      && (Truthy(v) <==> r.Some? && !Falsy(r.value))
      && Stringify(v) == if r.Some? then r.value else ""
  {
  }

  predicate PlainNumber(t: string) {
    && t != "" && (t[0] == '-' || Digit(t[0]))
    && forall i :: 1 <= i < |t| ==> t[i] == '.' || Digit(t[i])
  }

  lemma NumbersParse(t: string)
    requires PlainNumber(t)
    ensures ParseAll(t) == Ok(Lit(t), []) && Trim(t) == t
  {
    var p := Number(t);
    assert NumberText(t) && WFP(p) && PAst(p) == Lit(t) && PText(p) == t;
    assert WF(Prim("", p)) && Ast(Prim("", p)) == PAst(p);
    PrimaryText(p);
    NothingAdded(t);
    GrammarTextsParse(Prim("", p), "");
    TrimKeeps(t);
  }

  /** A number is its own text, and true unless that is 0. */
  lemma NumberAlone(t: string, env: Env)
    requires PlainNumber(t)
    ensures EvalText(t, env) == Success(t != "0")
  {
    NumbersParse(t);
  }

  predicate Seeks(name: string) { name == "subject_contains" || name == "event.subject_contains" }

  lemma CallEvaluates(name: string, n: Node, text: string, part: string, env: Env)
    requires PlainName(name) && Named(n) && Text(TreeAt(n, 0)) == text && Sprint(Eval(n, env)) == part
    ensures EvalText(name + "(" + text + ")", env)
      == Success(Seeks(name) && Contains(env.lower(env.subject), env.lower(part)))
  {
    assert NameText(name) && Named(Call(name, n));
    CallPrints(name, n, text);
    PrintedConditionsEvaluate(Call(name, n), env);
  }

  /** Calls look for the text in the subject, case apart; calls of any other name are false. */
  lemma CallOnLiteral(name: string, v: string, env: Env)
    requires PlainName(name)
    ensures EvalText(name + "(" + Quote(v) + ")", env) == Success(
      (name == "subject_contains" || name == "event.subject_contains")
      && exists a, b :: env.lower(env.subject) == a + env.lower(v) + b)
  {
    QuotePrints(v, 0);
    CallEvaluates(name, Lit(v), Quote(v), v, env);
    ContainsMeans(env.lower(env.subject), env.lower(v));
  }

  /** Of a name they look for the text it resolves to, or for that of nothing. */
  lemma CallOnName(name: string, arg: string, env: Env)
    requires PlainName(name) && PlainName(arg)
    ensures var r := Resolved(arg, env); var part := if r.Some? then r.value else "<nil>";
      EvalText(name + "(" + arg + ")", env) == Success(
        (name == "subject_contains" || name == "event.subject_contains")
        && exists a, b :: env.lower(env.subject) == a + env.lower(part) + b)
  {
    var part := Sprint(Eval(Ident(arg), env));
    PrimaryText(Name(arg));
    NameSought(arg, env);
    CallEvaluates(name, Ident(arg), arg, part, env);
    ContainsMeans(env.lower(env.subject), env.lower(part));
  }

  lemma NameSought(arg: string, env: Env)
    ensures var r := Resolved(arg, env); Sprint(Eval(Ident(arg), env)) == if r.Some? then r.value else "<nil>"
  {
  }

  lemma CallPrints(name: string, n: Node, text: string)
    requires Text(TreeAt(n, 0)) == text
    ensures Print(Call(name, n)) == name + "(" + text + ")"
  {
    var p := CallOf(name, "", TreeAt(n, 0), "");
    PrimaryText(p);
    assert PText(p) == name + "" + "(" + text + "" + ")";
  }

  lemma ContainsMeans(t: string, part: string)
    ensures Contains(t, part) <==> exists a, b :: t == a + part + b
  {
    if i :| 0 <= i <= |t| && part <= t[i..] {
      assert t == t[..i] + part + t[i + |part|..];
    }
    if a, b :| t == a + part + b {
      assert part <= t[|a|..];
    }
  }

  /** A primary with at most one character after it is the whole text, or not accepted. */
  lemma PrimaryDecides(t: string)
    requires ParsePrimary(t).Ok? ==> |Skip(ParsePrimary(t).rest)| <= 1
    ensures ParseAll(t).Ok? <==> ParsePrimary(t).Ok? && Skip(ParsePrimary(t).rest) == ""
    ensures ParseAll(t).Ok? ==> ParseAll(t) == Ok(ParsePrimary(t).value, [])
  {
    var r := ParsePrimary(t);
    if r.Err? {
      assert ParseCmp(t) == r && ParseAnd(t) == r && ParseOr(t) == r;
    } else {
      var u := Skip(r.rest);
      SkipTwice(r.rest);
      assert ParseCmp(t) == Ok(r.value, u);
      assert AndLoop(r.value, u) == Ok(r.value, u) && OrLoop(r.value, u) == Ok(r.value, u);
      assert ParseAnd(t) == Ok(r.value, u) && ParseOr(t) == Ok(r.value, u);
    }
  }

  lemma AloneParses(c: char)
    ensures ParseAll([c]).Ok? <==> NameStart(c) || NumberStart(c)
  {
    assert [c][1..] == "" && [c][..1] == [c];
    assert Skip("") == "" && NameRun("") == 0 && NumberRun("") == 0;
    assert QuoteBody(c, "", "").Err?;
    assert ParseOr("").Err? by {
      assert ParsePrimary("").Err? && ParseCmp("").Err? && ParseAnd("").Err?;
    }
    PrimaryDecides([c]);
  }

  lemma AloneTrims(c: char)
    ensures Trim([c]) == "" <==> IsBlank(c)
  {
    assert [c][1..] == "" && [c][..0] == "";
    assert TrimLeft([c]) == if IsBlank(c) then TrimLeft("") else [c];
  }

  lemma AfterLetter(c: char)
    ensures ParseAll(['a', c]) == Ok(Ident(['a', c]), []) <==> NamePart(c)
    ensures ParseAll(['a', c]) == Ok(Ident(['a']), []) <==> IsSpace(c)
  {
    var t := ['a', c];
    assert t[1..] == [c] && t[2..] == "" && [c][1..] == "" && t[..1] == ['a'] && t[..2] == t;
    assert NameRun("") == 0 && Skip("") == "" && Skip(t) == t;
    assert NameRun([c]) == if NamePart(c) then 1 else 0;
    assert Skip([c]) == if IsSpace(c) then "" else [c];
    assert ParsePrimary("").Err?;
    PrimaryDecides(t);
  }

  lemma AfterDigit(c: char)
    ensures ParseAll(['1', c]) == Ok(Lit(['1', c]), []) <==> NumberPart(c)
  {
    var t := ['1', c];
    assert t[1..] == [c] && t[2..] == "" && [c][1..] == "" && t[..1] == ['1'] && t[..2] == t;
    assert NumberRun("") == 0 && Skip("") == "" && Skip(t) == t;
    assert NumberRun([c]) == if NumberPart(c) then 1 else 0;
    assert Skip([c]) == if IsSpace(c) then "" else [c];
    PrimaryDecides(t);
  }

  /** Which character may stand alone, go on a name or a number, or be white space. */
  lemma CharacterClasses(c: char)
    ensures ParseAll([c]).Ok? <==> Letter(c) || Digit(c) || c == '_' || c == '-'
    ensures ParseAll(['a', c]) == Ok(Ident(['a', c]), []) <==> Letter(c) || Digit(c) || c == '_' || c == '.'
    ensures ParseAll(['1', c]) == Ok(Lit(['1', c]), []) <==> Digit(c) || c == '.'
    ensures ParseAll(['a', c]) == Ok(Ident(['a']), []) <==> c as int in {32, 133, 160} || 9 <= c as int <= 13
    ensures Trim([c]) == "" <==> c == ' ' || 9 <= c as int <= 13
  {
    AloneParses(c);
    AloneTrims(c);
    AfterLetter(c);
    AfterDigit(c);
  }

  // Comparisons.

  /** Two strings in quotes are equal exactly when they are. */
  lemma QuotesCompare(a: string, b: string, env: Env)
    ensures EvalText(Quote(a) + "==" + Quote(b), env) == Success(a == b)
    ensures EvalText(Quote(a) + "!=" + Quote(b), env) == Success(a != b)
  {
    QuotesJoined(Eq, a, b, env);
    QuotesJoined(Ne, a, b, env);
    QuotesEvaluate(a, b, env);
  }

  lemma QuotesJoined(op: Op, a: string, b: string, env: Env)
    ensures EvalText(Quote(a) + OpText(op) + Quote(b), env) == Success(Truthy(Eval(Bin(op, Lit(a), Lit(b)), env)))
  {
    QuotesPrint(op, a, b);
    PrintedConditionsEvaluate(Bin(op, Lit(a), Lit(b)), env);
  }

  lemma QuotesEvaluate(a: string, b: string, env: Env)
    ensures Eval(Bin(Eq, Lit(a), Lit(b)), env) == Bool(a == b)
    ensures Eval(Bin(Ne, Lit(a), Lit(b)), env) == Bool(a != b)
  {
    assert Stringify(Eval(Lit(a), env)) == a && Stringify(Eval(Lit(b), env)) == b;
  }

  lemma QuotesPrint(op: Op, a: string, b: string)
    ensures Named(Bin(op, Lit(a), Lit(b))) && Print(Bin(op, Lit(a), Lit(b))) == Quote(a) + OpText(op) + Quote(b)
  {
    QuotePrints(a, LeftLevel(op));
    QuotePrints(b, RightLevel(op));
    PrintsInfix(op, Lit(a), Lit(b), 3);
  }

  lemma PrintsInfix(op: Op, l: Node, r: Node, level: nat)
    requires OpLevel(op) <= level
    ensures Text(TreeAt(Bin(op, l, r), level))
         == Text(TreeAt(l, LeftLevel(op))) + OpText(op) + Text(TreeAt(r, RightLevel(op)))
  {
    NothingAdded(Text(TreeAt(l, LeftLevel(op))));
  }

  /** What the value of an accepted text is compared as. */
  function Shown(t: string, env: Env): string
    requires ParseAll(Trim(t)).Ok?
  {
    Stringify(Eval(ParseAll(Trim(t)).value, env))
  }

  lemma JoinedParses(op: Op, t: string, u: string)
    requires ParseAll(Trim(t)).Ok? && ParseAll(Trim(u)).Ok?
    ensures Trim(Combined(op, t, u)) == Combined(op, t, u)
    ensures ParseAll(Combined(op, t, u)) == Ok(Bin(op, ParseAll(Trim(t)).value, ParseAll(Trim(u)).value), [])
  {
    var n, m := ParseAll(Trim(t)).value, ParseAll(Trim(u)).value;
    AcceptedDenotes(t);
    AcceptedDenotes(u);
    CombinedDenotes(op, t, u, n, m);
    ParenthesesStay(Combined(op, t, u));
    ParserDecidesTheGrammar(Combined(op, t, u), Bin(op, n, m));
  }

  lemma AcceptedDenotes(t: string)
    requires ParseAll(Trim(t)).Ok?
    ensures Denotes(t, ParseAll(Trim(t)).value)
  {
    var n := ParseAll(Trim(t)).value;
    ParserDecidesTheGrammar(Trim(t), n);
    TrimmedDenotes(t, n);
  }

  /** Any two accepted texts are equal exactly when they show alike, whichever comes first, and
      unequal exactly when not. */
  lemma ComparisonsCompare(t: string, u: string, env: Env)
    requires ParseAll(Trim(t)).Ok? && ParseAll(Trim(u)).Ok?
    ensures EvalText("(" + t + ")==(" + u + ")", env) == Success(Shown(t, env) == Shown(u, env))
    ensures EvalText("(" + u + ")==(" + t + ")", env) == Success(Shown(t, env) == Shown(u, env))
    ensures EvalText("(" + t + ")!=(" + u + ")", env) == Success(Shown(t, env) != Shown(u, env))
  {
    JoinedCompares(t, u, env);
    JoinedCompares(u, t, env);
    CombinedTexts(t, u);
    CombinedTexts(u, t);
  }

  lemma CombinedTexts(t: string, u: string)
    ensures Combined(Eq, t, u) == "(" + t + ")==(" + u + ")"
    ensures Combined(Ne, t, u) == "(" + t + ")!=(" + u + ")"
    ensures Combined(And, t, u) == "(" + t + ")&&(" + u + ")"
    ensures Combined(Or, t, u) == "(" + t + ")||(" + u + ")"
  {
  }

  lemma JoinedCompares(t: string, u: string, env: Env)
    requires ParseAll(Trim(t)).Ok? && ParseAll(Trim(u)).Ok?
    ensures EvalText(Combined(Eq, t, u), env) == Success(Shown(t, env) == Shown(u, env))
    ensures EvalText(Combined(Ne, t, u), env) == Success(Shown(t, env) != Shown(u, env))
  {
    JoinedParses(Eq, t, u);
    JoinedParses(Ne, t, u);
  }

  /** A string in quotes and a number show as they are. */
  lemma LiteralShows(v: string, env: Env)
    ensures ParseAll(Trim(Quote(v))).Ok? && Shown(Quote(v), env) == v
  {
    QuotePrints(v, 3);
    PrintHasNoBlanks(Lit(v), 3);
    TrimKeeps(Print(Lit(v)));
    PrintedTreesParseBack(Lit(v));
  }

  lemma NumberShows(t: string, env: Env)
    requires PlainNumber(t)
    ensures ParseAll(Trim(t)).Ok? && Shown(t, env) == t
  {
    NumbersParse(t);
  }

  /** A name shows as what it resolves to, or as nothing. */
  lemma NameShows(name: string, env: Env)
    requires PlainName(name)
    ensures ParseAll(Trim(name)).Ok?
    ensures var r := Resolved(name, env); Shown(name, env) == if r.Some? then r.value else ""
  {
    assert NameText(name);
    PlainNamesParse(name);
    NameHasNoBlanks(name);
    TrimKeeps(name);
    NameResolves(name, env);
  }

  /** A comparison, a logical operator or a call shows as its truth. */
  lemma ConditionShows(t: string, env: Env)
    requires ParseAll(Trim(t)).Ok? && (ParseAll(Trim(t)).value.Bin? || ParseAll(Trim(t)).value.Call?)
    ensures Trim(t) != "" && EvalText(t, env).Success?
    ensures Shown(t, env) == if EvalText(t, env).value then "true" else "false"
  {
  }

  // Logical operators, and the whole.

  /** In parentheses, && is the conjunction and || the disjunction; && binds tighter. */
  lemma ConditionsJoin(t: string, u: string, env: Env)
    requires Trim(t) != "" && Trim(u) != "" && EvalText(t, env).Success? && EvalText(u, env).Success?
    ensures var a, b := EvalText(t, env).value, EvalText(u, env).value;
      && EvalText("(" + t + ")&&(" + u + ")", env) == Success(a && b)
      && EvalText("(" + t + ")||(" + u + ")", env) == Success(a || b)
  {
    ConditionsCompose(And, t, u, env);
    ConditionsCompose(Or, t, u, env);
    CombinedTexts(t, u);
  }

  /** What a disjunction of a literal and a conjunction, or the other way round, prints as. */
  lemma MixedPrints(a: string, b: string, c: string)
    ensures var n := Bin(Or, Lit(a), Bin(And, Lit(b), Lit(c)));
      Named(n) && Print(n) == Quote(a) + "||" + (Quote(b) + "&&" + Quote(c))
    ensures var n := Bin(Or, Bin(And, Lit(a), Lit(b)), Lit(c));
      Named(n) && Print(n) == Quote(a) + "&&" + Quote(b) + "||" + Quote(c)
  {
    QuotePrints(a, 3);
    QuotePrints(a, 2);
    QuotePrints(b, 2);
    QuotePrints(b, 1);
    QuotePrints(c, 1);
    QuotePrints(c, 2);
    assert Named(Bin(And, Lit(b), Lit(c))) && Named(Bin(And, Lit(a), Lit(b)));
    PrintsInfix(And, Lit(b), Lit(c), 2);
    PrintsInfix(And, Lit(a), Lit(b), 3);
    PrintsInfix(Or, Lit(a), Bin(And, Lit(b), Lit(c)), 3);
    PrintsInfix(Or, Bin(And, Lit(a), Lit(b)), Lit(c), 3);
  }

  /** && binds tighter than ||. */
  lemma PrecedenceOnLiterals(a: string, b: string, c: string, env: Env)
    ensures EvalText(Quote(a) + "||" + (Quote(b) + "&&" + Quote(c)), env)
      == Success(!Falsy(a) || (!Falsy(b) && !Falsy(c)))
    ensures EvalText(Quote(a) + "&&" + Quote(b) + "||" + Quote(c), env)
      == Success((!Falsy(a) && !Falsy(b)) || !Falsy(c))
  {
    var ab, bc := Bin(And, Lit(a), Lit(b)), Bin(And, Lit(b), Lit(c));
    MixedPrints(a, b, c);
    PrintedConditionsEvaluate(Bin(Or, Lit(a), bc), env);
    PrintedConditionsEvaluate(Bin(Or, ab, Lit(c)), env);
    assert Truthy(Eval(bc, env)) <==> !Falsy(b) && !Falsy(c);
    assert Truthy(Eval(ab, env)) <==> !Falsy(a) && !Falsy(b);
    assert Truthy(Eval(Lit(a), env)) <==> !Falsy(a);
    assert Truthy(Eval(Lit(c), env)) <==> !Falsy(c);
  }

  /** Nothing but white space is true; any other text fails exactly when it is not of the grammar. */
  lemma FailsExactly(t: string, env: Env)
    ensures Trim(t) == "" ==> EvalText(t, env) == Success(true)
    ensures EvalText(t, env).Success? <==> Trim(t) == "" || exists n :: Denotes(Trim(t), n)
  {
    var p := ParseAll(Trim(t));
    if p.Ok? {
      ParserDecidesTheGrammar(Trim(t), p.value);
    }
    if n :| Denotes(Trim(t), n) {
      ParserDecidesTheGrammar(Trim(t), n);
    }
  }
}
