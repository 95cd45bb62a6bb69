/** Reading an accepted text back into the grammar, part by part: for every parser function, when it
    accepts a text, the expression of the grammar that it has read and the white space behind it,
    which together with the rest make up the text. The proofs follow the recursion of the parser;
    the gluing of the pieces is done by the small lemmas on joined sequences. Together they are one
    half of the statement that the parser accepts exactly the texts of the grammar. */
module ConditionReading {
  import opened Collections
  import opened Conditions
  import opened ConditionParsing

  lemma GlueUnit(t: string, u: string, body: string, q: string, rest: string)
    requires t == u + (body + q + rest)
    ensures t == (u + body) + q + rest
  {
  }

  lemma GlueGap(t: string, tl: string, wl: string, r: string, gap: string, u: string)
    requires t == tl + wl + r && r == gap + u
    ensures t == tl + (wl + gap) + u
  {
  }

  lemma GlueLead(t: string, lead: string, u: string, text: string, ws: string, rest: string)
    requires t == lead + u && u == text + ws + rest
    ensures t == (lead + text) + ws + rest
  {
  }

  lemma GlueInfix(t: string, tl: string, gap: string, u: string, op: string, v: string, tr: string, ws: string,
                  rest: string)
    requires t == tl + gap + u && u == op + v && v == tr + ws + rest
    ensures t == (tl + gap + op + tr) + ws + rest
    ensures t == (tl + gap + op + tr) + (ws + rest)
  {
    assert t == tl + gap + (op + (tr + ws + rest));
  }

  lemma GlueClosed(u: string, front: string, v: string, text: string, ws: string, r: string, close: string, z: string)
    requires u == front + v && v == text + ws + r && r == close + ([')'] + z)
    ensures u == (front + text + (ws + close) + [')']) + z
  {
    assert u == front + (text + ws + (close + ([')'] + z)));
  }

  lemma GlueName(u: string, name: string, rest: string, gap: string, w: string)
    requires u == name + rest && rest == gap + w
    ensures u == name + gap + w && (w != [] ==> u == name + gap + [w[0]] + w[1..])
  {
  }

  lemma {:induction false} SplitSpaces(t: string) returns (ws: string)
    ensures Spaces(ws) && t == ws + Skip(t)
  {
    if t != [] && IsSpace(t[0]) {
      ws := SplitSpaces(t[1..]);
      ws := [t[0]] + ws;
    } else {
      ws := [];
    }
  }

  lemma {:induction false} NameRunParts(t: string)
    ensures forall i :: 0 <= i < NameRun(t) ==> NamePart(t[i])
  {
    if t != [] && NamePart(t[0]) {
      NameRunParts(t[1..]);
      assert forall i :: 1 <= i < NameRun(t) ==> t[i] == t[1..][i - 1];
    }
  }

  lemma {:induction false} NumberRunParts(t: string)
    ensures forall i :: 0 <= i < NumberRun(t) ==> NumberPart(t[i])
  {
    if t != [] && NumberPart(t[0]) {
      NumberRunParts(t[1..]);
      assert forall i :: 1 <= i < NumberRun(t) ==> t[i] == t[1..][i - 1];
    }
  }

  lemma {:induction false} QuoteRead(q: char, t: string, done: string) returns (body: seq<Unit>)
    requires QuoteBody(q, t, done).Ok? && (q == '"' || q == '\'')
    ensures WFP(Quoted(q, body))
    ensures t == BodyText(body) + [q] + QuoteBody(q, t, done).rest
    ensures QuoteBody(q, t, done).value == done + BodyValue(body)
    decreases |t|
  {
    var rest := QuoteBody(q, t, done).rest;
    if t[0] == q {
      body := [];
      assert t == [t[0]] + t[1..];
    } else {
      var u := if t[0] == '\\' then Escaped(t[1]) else Plain(t[0]);
      var n := |UnitText(u)|;
      var more := QuoteRead(q, t[n..], done + [u.c]);
      body := [u] + more;
      assert body[1..] == more;
      assert t == UnitText(u) + t[n..];
      GlueUnit(t, UnitText(u), BodyText(more), [q], rest);
      Associate(done, [u.c], BodyValue(more));
    }
  }

  // ---- putting a text back together from what the parser took off it ----

  lemma JoinSpaces(a: string, b: string)
    requires Spaces(a) && Spaces(b)
    ensures Spaces(a + b)
  {
  }

  /** e and the spaces after it are what was read of t, leaving rest. */
  ghost predicate Reads(t: string, n: Node, rest: string, e: Expr, ws: string) {
    WF(e) && Spaces(ws) && Ast(e) == n && t == Text(e) + ws + rest
  }

  lemma {:induction false} PrimRead(t: string) returns (e: Expr, ws: string)
    requires ParsePrimary(t).Ok?
    ensures e.Prim? && Reads(t, ParsePrimary(t).value, ParsePrimary(t).rest, e, ws)
    decreases |t|, 1
  {
    var lead := SplitSpaces(t);
    var u := Skip(t);
    LeadIgnored(lead, u);
    SkipTwice(t);
    var p;
    p, ws := PrimaryRead(u);
    e := Prim(lead, p);
    GlueLead(t, lead, u, PText(p), ws, ParsePrimary(t).rest);
  }

  lemma {:induction false} PrimaryRead(u: string) returns (p: Primary, ws: string)
    requires ParsePrimary(u).Ok? && Skip(u) == u
    ensures WFP(p) && Spaces(ws) && PAst(p) == ParsePrimary(u).value
    ensures u == PText(p) + ws + ParsePrimary(u).rest
    decreases |u|, 0, 3
  {
    ws := [];
    if u[0] == '(' {
      p := ParenRead(u);
    } else if u[0] == '"' || u[0] == '\'' {
      p := QuotedRead(u);
    } else if NumberStart(u[0]) {
      p := NumberRead(u);
    } else {
      p, ws := NamedRead(u);
    }
    assert PText(p) + [] == PText(p);
  }

  lemma QuotedRead(u: string) returns (p: Primary)
    requires ParsePrimary(u).Ok? && Skip(u) == u && (u[0] == '"' || u[0] == '\'')
    ensures WFP(p) && PAst(p) == ParsePrimary(u).value && u == PText(p) + ParsePrimary(u).rest
  {
    var body := QuoteRead(u[0], u[1..], "");
    p := Quoted(u[0], body);
    NothingBefore(BodyValue(body));
    HeadAndTail(u);
  }

  lemma NumberRead(u: string) returns (p: Primary)
    requires u != [] && Skip(u) == u && NumberStart(u[0])
    ensures ParsePrimary(u).Ok?
    ensures WFP(p) && PAst(p) == ParsePrimary(u).value && u == PText(p) + ParsePrimary(u).rest
  {
    NumberRunParts(u[1..]);
    var n := 1 + NumberRun(u[1..]);
    p := Number(u[..n]);
    assert forall i :: 1 <= i < n ==> u[..n][i] == u[1..][i - 1];
  }

  lemma NameSplit(u: string) returns (name: string, gap: string, w: string)
    requires u != [] && NameStart(u[0])
    ensures NameText(name) && |name| <= |u| && name == u[..1 + NameRun(u[1..])]
    ensures Spaces(gap) && w == Skip(u[|name|..]) && u == name + gap + w
    ensures w != [] ==> u == name + gap + [w[0]] + w[1..]
  {
    name := NameHead(u);
    var rest := u[|name|..];
    assert u == name + rest;
    gap := SplitSpaces(rest);
    w := Skip(rest);
    GlueName(u, name, rest, gap, w);
  }

  lemma NameHead(u: string) returns (name: string)
    requires u != [] && NameStart(u[0])
    ensures NameText(name) && |name| <= |u| && name == u[..1 + NameRun(u[1..])]
  {
    var n := 1 + NameRun(u[1..]);
    NameRunParts(u[1..]);
    name := u[..n];
    assert forall i :: 1 <= i < n ==> name[i] == u[1..][i - 1];
  }

  lemma {:induction false} NamedRead(u: string) returns (p: Primary, ws: string)
    requires ParsePrimary(u).Ok? && Skip(u) == u && NameStart(u[0]) && !NumberStart(u[0])
    ensures WFP(p) && Spaces(ws) && PAst(p) == ParsePrimary(u).value
    ensures u == PText(p) + ws + ParsePrimary(u).rest
    decreases |u|, 0, 2
  {
    var name, gap, w := NameSplit(u);
    if w != [] && w[0] == '(' {
      CallInverse(u, name, w);
      p := CallRead(name, gap, w[1..], ParsePrimary(u).rest);
      ws := [];
      assert PText(p) + [] == PText(p);
    } else {
      p, ws := Name(name), gap;
    }
  }

  lemma {:induction false} ParenRead(u: string) returns (p: Primary)
    requires ParsePrimary(u).Ok? && Skip(u) == u && u[0] == '('
    ensures WFP(p) && PAst(p) == ParsePrimary(u).value && u == PText(p) + ParsePrimary(u).rest
    decreases |u|, 0, 1
  {
    var v := u[1..];
    var inner, ws := OrRead(v);
    var r := ParseOr(v).rest;
    var close := SplitSpaces(r);
    JoinSpaces(ws, close);
    p := Paren(inner, ws + close);
    var z := Skip(r)[1..];
    assert Skip(r) == [')'] + z && u == "(" + v;
    GlueClosed(u, "(", v, Text(inner), ws, r, close, z);
  }

  /** What an accepted call consists of. */
  lemma CallInverse(u: string, name: string, w: string)
    requires ParsePrimary(u).Ok? && Skip(u) == u && NameStart(u[0]) && !NumberStart(u[0])
    requires name == u[..1 + NameRun(u[1..])] && w == Skip(u[|name|..]) && w != [] && w[0] == '('
    ensures ParsePrimary(w[1..]).Ok? && Skip(ParsePrimary(w[1..]).rest) == [')'] + ParsePrimary(u).rest
    ensures ParsePrimary(u).value == Call(name, ParsePrimary(w[1..]).value)
  {
    HeadAndTail(Skip(ParsePrimary(w[1..]).rest));
  }

  lemma {:induction false} CallRead(name: string, gap: string, v: string, z: string) returns (p: Primary)
    requires NameText(name) && Spaces(gap)
    requires ParsePrimary(v).Ok? && Skip(ParsePrimary(v).rest) == [')'] + z
    ensures WFP(p) && PAst(p) == Call(name, ParsePrimary(v).value) && name + gap + "(" + v == PText(p) + z
    decreases |v|, 2
  {
    var arg, ws := PrimRead(v);
    var r := ParsePrimary(v).rest;
    var close := SplitSpaces(r);
    JoinSpaces(ws, close);
    p := CallOf(name, gap, arg, ws + close);
    GlueClosed(name + gap + "(" + v, name + gap + "(", v, Text(arg), ws, r, close, z);
  }

  lemma {:induction false} CmpRead(t: string) returns (e: Expr, ws: string)
    requires ParseCmp(t).Ok?
    ensures Level(e) <= 1 && Reads(t, ParseCmp(t).value, ParseCmp(t).rest, e, ws)
    decreases |t|, 2
  {
    var left, wl := PrimRead(t);
    var r := ParsePrimary(t).rest;
    var gap := SplitSpaces(r);
    JoinSpaces(wl, gap);
    var u := Skip(r);
    GlueGap(t, Text(left), wl, r, gap, u);
    if Starts(u, "==") || Starts(u, "!=") {
      var op, v := if Starts(u, "==") then Eq else Ne, u[2..];
      assert u == OpText(op) + v;
      var right;
      right, ws := PrimRead(v);
      e := Infix(op, left, wl + gap, right);
      GlueInfix(t, Text(left), wl + gap, u, OpText(op), v, Text(right), ws, ParseCmp(t).rest);
    } else {
      e, ws := left, wl + gap;
    }
  }

  lemma {:induction false} AndLoopRead(left: Expr, t: string) returns (e: Expr, ws: string)
    requires WF(left) && Level(left) <= 2 && AndLoop(Ast(left), t).Ok?
    ensures Level(e) <= 2
    ensures Reads(Text(left) + t, AndLoop(Ast(left), t).value, AndLoop(Ast(left), t).rest, e, ws)
    decreases |t|, 3, 0
  {
    var gap := SplitSpaces(t);
    var u := Skip(t);
    assert Text(left) + t == Text(left) + gap + u;
    if Starts(u, "&&") {
      var v := u[2..];
      assert u == "&&" + v;
      var right, wr := CmpRead(v);
      var r := ParseCmp(v).rest;
      var more := Infix(And, left, gap, right);
      GlueInfix(Text(left) + t, Text(left), gap, u, "&&", v, Text(right), wr, r);
      SkipSpaces(wr, r);
      LoopsIgnoreSpace(Ast(more), wr + r, r);
      assert |wr + r| <= |v|;
      e, ws := AndLoopRead(more, wr + r);
    } else {
      e, ws := left, gap;
    }
  }

  lemma {:induction false} AndRead(t: string) returns (e: Expr, ws: string)
    requires ParseAnd(t).Ok?
    ensures Level(e) <= 2 && Reads(t, ParseAnd(t).value, ParseAnd(t).rest, e, ws)
    decreases |t|, 3, 1
  {
    var left, wl := CmpRead(t);
    var r := ParseCmp(t).rest;
    SkipSpaces(wl, r);
    LoopsIgnoreSpace(Ast(left), wl + r, r);
    Associate(Text(left), wl, r);
    e, ws := AndLoopRead(left, wl + r);
  }

  lemma {:induction false} OrLoopRead(left: Expr, t: string) returns (e: Expr, ws: string)
    requires WF(left) && OrLoop(Ast(left), t).Ok?
    ensures Reads(Text(left) + t, OrLoop(Ast(left), t).value, OrLoop(Ast(left), t).rest, e, ws)
    decreases |t|, 4, 0
  {
    var gap := SplitSpaces(t);
    var u := Skip(t);
    assert Text(left) + t == Text(left) + gap + u;
    if Starts(u, "||") {
      var v := u[2..];
      assert u == "||" + v;
      var right, wr := AndRead(v);
      var r := ParseAnd(v).rest;
      var more := Infix(Or, left, gap, right);
      GlueInfix(Text(left) + t, Text(left), gap, u, "||", v, Text(right), wr, r);
      SkipSpaces(wr, r);
      LoopsIgnoreSpace(Ast(more), wr + r, r);
      assert |wr + r| <= |v|;
      e, ws := OrLoopRead(more, wr + r);
    } else {
      e, ws := left, gap;
    }
  }

  lemma {:induction false} OrRead(t: string) returns (e: Expr, ws: string)
    requires ParseOr(t).Ok?
    ensures Reads(t, ParseOr(t).value, ParseOr(t).rest, e, ws)
    decreases |t|, 4, 1
  {
    var left, wl := AndRead(t);
    var r := ParseAnd(t).rest;
    SkipSpaces(wl, r);
    LoopsIgnoreSpace(Ast(left), wl + r, r);
    Associate(Text(left), wl, r);
    e, ws := OrLoopRead(left, wl + r);
  }
}
