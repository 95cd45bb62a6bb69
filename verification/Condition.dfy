/** The `if:` expression language: its recursive-descent parser as functions on the text that is
    left (one char a byte), and its grammar. */
module Conditions {

  datatype Op = Or | And | Eq | Ne

  datatype Node =
    | Lit(v: string)
    | Ident(name: string)
    | Bin(op: Op, left: Node, right: Node)
    | Call(name: string, arg: Node)

  datatype ParseError =
    | UnexpectedEnd | MissingParen | MissingCallParen | UnterminatedString
    | Unexpected(at: string) | Trailing(at: string)

  datatype Parse<+T> = Ok(value: T, rest: string) | Err(error: ParseError)

  // ---- bytes ----

  predicate IsSpace(c: char) {
    c == ' ' || '\t' <= c <= '\r' || c == '\U{85}' || c == '\U{A0}'
  }

  predicate IsDigit(c: char) { '0' <= c <= '9' }

  /** unicode.IsLetter on a single byte. */
  predicate IsLetter(c: char) {
    'a' <= c <= 'z' || 'A' <= c <= 'Z' || c == '\U{AA}' || c == '\U{B5}' || c == '\U{BA}'
    || '\U{C0}' <= c <= '\U{D6}' || '\U{D8}' <= c <= '\U{F6}' || '\U{F8}' <= c <= '\U{FF}'
  }

  predicate NameStart(c: char) { IsLetter(c) || c == '_' }

  predicate NamePart(c: char) { IsLetter(c) || IsDigit(c) || c == '_' || c == '.' }

  predicate NumberStart(c: char) { IsDigit(c) || c == '-' }

  predicate NumberPart(c: char) { IsDigit(c) || c == '.' }

  predicate Starts(t: string, word: string) { word <= t }

  function OpText(op: Op): string {
    match op case Or => "||" case And => "&&" case Eq => "==" case Ne => "!="
  }

  // ---- the parser ----

  function Skip(t: string): (r: string)
    ensures |r| <= |t|
  {
    if t != [] && IsSpace(t[0]) then Skip(t[1..]) else t
  }

  /** The longest run of name (number) characters at the front. */
  function NameRun(t: string): (n: nat)
    ensures n <= |t|
  {
    if t != [] && NamePart(t[0]) then 1 + NameRun(t[1..]) else 0
  }

  function NumberRun(t: string): (n: nat)
    ensures n <= |t|
  {
    if t != [] && NumberPart(t[0]) then 1 + NumberRun(t[1..]) else 0
  }

  /** The rest of a quoted string, escapes undone. */
  function QuoteBody(q: char, t: string, done: string): (r: Parse<string>)
    ensures r.Ok? ==> |r.rest| < |t|
  {
    if t == [] then Err(UnterminatedString)
    else if t[0] == q then Ok(done, t[1..])
    else if t[0] == '\\' && |t| > 1 then QuoteBody(q, t[2..], done + [t[1]])
    else QuoteBody(q, t[1..], done + [t[0]])
  }

  function ParseOr(t: string): (r: Parse<Node>)
    ensures r.Ok? ==> |r.rest| < |t|
    decreases |t|, 4
  {
    var left := ParseAnd(t);
    if left.Err? then left else OrLoop(left.value, left.rest)
  }

  function OrLoop(left: Node, t: string): (r: Parse<Node>)
    ensures r.Ok? ==> |r.rest| <= |t|
    decreases |t|, 4
  {
    var u := Skip(t);
    if Starts(u, "||") then
      var right := ParseAnd(u[2..]);
      if right.Err? then right else OrLoop(Bin(Or, left, right.value), right.rest)
    else Ok(left, u)
  }

  function ParseAnd(t: string): (r: Parse<Node>)
    ensures r.Ok? ==> |r.rest| < |t|
    decreases |t|, 3
  {
    var left := ParseCmp(t);
    if left.Err? then left else AndLoop(left.value, left.rest)
  }

  function AndLoop(left: Node, t: string): (r: Parse<Node>)
    ensures r.Ok? ==> |r.rest| <= |t|
    decreases |t|, 3
  {
    var u := Skip(t);
    if Starts(u, "&&") then
      var right := ParseCmp(u[2..]);
      if right.Err? then right else AndLoop(Bin(And, left, right.value), right.rest)
    else Ok(left, u)
  }

  function ParseCmp(t: string): (r: Parse<Node>)
    ensures r.Ok? ==> |r.rest| < |t|
    decreases |t|, 2
  {
    var left := ParsePrimary(t);
    if left.Err? then left
    else
      var u := Skip(left.rest);
      if Starts(u, "==") || Starts(u, "!=") then
        var right := ParsePrimary(u[2..]);
        if right.Err? then right
        else Ok(Bin(if Starts(u, "==") then Eq else Ne, left.value, right.value), right.rest)
      else Ok(left.value, u)
  }

  function ParsePrimary(t: string): (r: Parse<Node>)
    ensures r.Ok? ==> |r.rest| < |t|
    decreases |t|, 1
  {
    var u := Skip(t);
    if u == [] then Err(UnexpectedEnd)
    else if u[0] == '(' then
      var inner := ParseOr(u[1..]);
      if inner.Err? then inner
      else
        var w := Skip(inner.rest);
        if w == [] || w[0] != ')' then Err(MissingParen) else Ok(inner.value, w[1..])
    else if u[0] == '"' || u[0] == '\'' then
      var body := QuoteBody(u[0], u[1..], "");
      if body.Err? then Err(body.error) else Ok(Lit(body.value), body.rest)
    else if NumberStart(u[0]) then
      var n := 1 + NumberRun(u[1..]);
      Ok(Lit(u[..n]), u[n..])
    else if NameStart(u[0]) then
      var n := 1 + NameRun(u[1..]);
      var w := Skip(u[n..]);
      if w != [] && w[0] == '(' then
        var arg := ParsePrimary(w[1..]);
        if arg.Err? then arg
        else
          var z := Skip(arg.rest);
          if z == [] || z[0] != ')' then Err(MissingCallParen) else Ok(Call(u[..n], arg.value), z[1..])
      else Ok(Ident(u[..n]), w)
    else Err(Unexpected(u))
  }

  /** The whole text as one expression. */
  function ParseAll(t: string): Parse<Node> {
    var r := ParseOr(t);
    if r.Err? then r
    else
      var u := Skip(r.rest);
      if u != [] then Err(Trailing(u)) else Ok(r.value, [])
  }

  // ---- the grammar ----

  datatype Unit = Plain(c: char) | Escaped(c: char)

  /** An expression as written: where the spaces and parentheses are, how strings are quoted. */
  datatype Expr =
    | Prim(lead: string, p: Primary)
    | Infix(op: Op, left: Expr, gap: string, right: Expr)

  datatype Primary =
    | Quoted(q: char, body: seq<Unit>)
    | Number(text: string)
    | Name(text: string)
    | CallOf(name: string, gap: string, arg: Expr, close: string)
    | Paren(inner: Expr, close: string)

  predicate Spaces(t: string) { forall i :: 0 <= i < |t| ==> IsSpace(t[i]) }

  function Level(e: Expr): nat {
    match e
    case Prim(_, _) => 0
    case Infix(op, _, _, _) => match op case Eq => 1 case Ne => 1 case And => 2 case Or => 3
  }

  predicate NameText(t: string) {
    t != [] && NameStart(t[0]) && forall i :: 1 <= i < |t| ==> NamePart(t[i])
  }

  predicate NumberText(t: string) {
    t != [] && NumberStart(t[0]) && forall i :: 1 <= i < |t| ==> NumberPart(t[i])
  }

  /** && binds tighter than ||, both to the left; comparisons do not chain. */
  predicate WF(e: Expr) {
    match e
    case Prim(lead, p) => Spaces(lead) && WFP(p)
    case Infix(op, l, gap, r) =>
      && Spaces(gap) && WF(l) && WF(r)
      && match op
         case Or => Level(l) <= 3 && Level(r) <= 2
         case And => Level(l) <= 2 && Level(r) <= 1
         case _ => Level(l) == 0 && Level(r) == 0
  }

  /** Inside quotes q, neither q nor a backslash stands for itself. */
  predicate QuotedBy(q: char, body: seq<Unit>) {
    && (q == '"' || q == '\'')
    && forall i :: 0 <= i < |body| && body[i].Plain? ==> body[i].c != q && body[i].c != '\\'
  }

  predicate WFP(p: Primary) {
    match p
    case Quoted(q, body) => QuotedBy(q, body)
    case Number(text) => NumberText(text)
    case Name(text) => NameText(text)
    case CallOf(name, gap, arg, close) => NameText(name) && Spaces(gap) && Spaces(close) && WF(arg) && Level(arg) == 0
    case Paren(inner, close) => Spaces(close) && WF(inner)
  }

  function UnitText(u: Unit): string {
    match u case Plain(c) => [c] case Escaped(c) => ['\\', c]
  }

  function BodyText(body: seq<Unit>): string {
    if body == [] then "" else UnitText(body[0]) + BodyText(body[1..])
  }

  function BodyValue(body: seq<Unit>): string {
    if body == [] then "" else [body[0].c] + BodyValue(body[1..])
  }

  function Text(e: Expr): string {
    match e
    case Prim(lead, p) => lead + PText(p)
    case Infix(op, l, gap, r) => Text(l) + gap + OpText(op) + Text(r)
  }

  function PText(p: Primary): string {
    match p
    case Quoted(q, body) => [q] + BodyText(body) + [q]
    case Number(text) => text
    case Name(text) => text
    case CallOf(name, gap, arg, close) => name + gap + "(" + Text(arg) + close + ")"
    case Paren(inner, close) => "(" + Text(inner) + close + ")"
  }

  function Ast(e: Expr): Node {
    match e
    case Prim(_, p) => PAst(p)
    case Infix(op, l, _, r) => Bin(op, Ast(l), Ast(r))
  }

  function PAst(p: Primary): Node {
    match p
    case Quoted(_, body) => Lit(BodyValue(body))
    case Number(text) => Lit(text)
    case Name(text) => Ident(text)
    case CallOf(name, _, arg, _) => Call(name, Ast(arg))
    case Paren(inner, _) => Ast(inner)
  }
}
