/** The scanner that drops trailing commas outside strings, on JSON texts (sections 4, 5 and 7 of
    RFC 8259) and on any other text. */
module TrailingCommas {
  import opened Collections

  predicate IsWs(c: char) { c == ' ' || c == '\t' || c == '\n' || c == '\r' }

  function SkipWs(s: string): string {
    if s != "" && IsWs(s[0]) then SkipWs(s[1..]) else s
  }

  /** Nothing but white space before a closing bracket. */
  predicate Closes(s: string) {
    var t := SkipWs(s);
    t != "" && (t[0] == '}' || t[0] == ']')
  }

  /** The scanner's flags. */
  datatype Mode = Outside | Quoted | Escaped

  function After(m: Mode, c: char): Mode {
    match m
    case Outside => if c == '"' then Quoted else Outside
    case Quoted => if c == '\\' then Escaped else if c == '"' then Outside else Quoted
    case Escaped => Quoted
  }

  predicate Drops(m: Mode, s: string)
    requires s != ""
  {
    m.Outside? && s[0] == ',' && Closes(s[1..])
  }

  function Strip(m: Mode, s: string): string
    decreases |s|
  {
    if s == "" then ""
    else (if Drops(m, s) then "" else [s[0]]) + Strip(After(m, s[0]), s[1..])
  }

  method StripTrailingCommas(value: string) returns (out: string)
    ensures out == Strip(Outside, value)
  {
    out := "";
    var quoted, escaped := false, false;
    var i := 0;
    assert value[0..] == value;
    while i < |value|
      invariant 0 <= i <= |value| && (escaped ==> quoted)
      invariant out + Strip(if escaped then Escaped else if quoted then Quoted else Outside, value[i..])
             == Strip(Outside, value)
    {
      var ch := value[i];
      assert value[i..][1..] == value[i + 1..];
      ghost var m := if escaped then Escaped else if quoted then Quoted else Outside;
      Associate(out, if Drops(m, value[i..]) then "" else [ch], Strip(After(m, ch), value[i + 1..]));
      if quoted {
        out := out + [ch];
        if escaped {
          escaped := false;
        } else if ch == '\\' {
          escaped := true;
        } else if ch == '"' {
          quoted := false;
        }
        i := i + 1;
        continue;
      }
      if ch == '"' {
        quoted := true;
        out := out + [ch];
        i := i + 1;
        continue;
      }
      if ch == ',' {
        var next := NextVisible(value, i + 1);
        if next < |value| && (value[next] == '}' || value[next] == ']') {
          assert out + "" == out;
          i := i + 1;
          continue;
        }
      }
      out := out + [ch];
      i := i + 1;
    }
    assert value[|value|..] == "";
  }

  method NextVisible(value: string, start: nat) returns (next: nat)
    requires start <= |value|
    ensures start <= next <= |value| && value[next..] == SkipWs(value[start..])
  {
    next := start;
    while next < |value| && IsWs(value[next])
      invariant start <= next <= |value|
      invariant SkipWs(value[next..]) == SkipWs(value[start..])
    {
      assert value[next..][1..] == value[next + 1..];
      next := next + 1;
    }
  }

  // ---- JSON texts ----

  datatype Glyph = Plain(c: char) | Esc(c: char)

  datatype Key = NoKey | KeyOf(body: seq<Glyph>, mid: string, gap: string)

  datatype Trail = NoComma | Comma(ws: string)

  /** A value as written. `text` is a number or true, false, null; `lead`, `pre`, `post`, `mid`,
      `gap` and `ws` are the white space around structural characters. */
  datatype Json =
    | Lit(text: string)
    | Str(body: seq<Glyph>)
    | Box(square: bool, lead: string, items: Items, trail: Trail)

  datatype Items = End | More(pre: string, key: Key, value: Json, post: string, rest: Items)

  predicate Ws(s: string) { forall i :: 0 <= i < |s| ==> IsWs(s[i]) }

  predicate LitChar(c: char) {
    !IsWs(c) && c != '"' && c != ',' && c != ':' && c != '[' && c != ']' && c != '{' && c != '}'
  }

  predicate Body(b: seq<Glyph>) {
    forall i :: 0 <= i < |b| && b[i].Plain? ==> b[i].c != '"' && b[i].c != '\\'
  }

  predicate WF(j: Json) {
    match j
    case Lit(text) => text != "" && forall i :: 0 <= i < |text| ==> LitChar(text[i])
    case Str(body) => Body(body)
    case Box(square, lead, items, trail) => Ws(lead) && WFItems(items, square) && (trail.Comma? ==> Ws(trail.ws))
  }

  predicate WFItems(items: Items, square: bool) {
    match items
    case End => true
    case More(pre, key, value, post, rest) =>
      && Ws(pre) && Ws(post) && WF(value) && WFItems(rest, square)
      && (square <==> key.NoKey?)
      && (key.KeyOf? ==> Body(key.body) && Ws(key.mid) && Ws(key.gap))
  }

  function GlyphText(u: Glyph): string {
    match u case Plain(c) => [c] case Esc(c) => ['\\', c]
  }

  function GlyphsText(b: seq<Glyph>): string {
    if b == [] then "" else GlyphText(b[0]) + GlyphsText(b[1..])
  }

  function QuoteText(b: seq<Glyph>): string { "\"" + GlyphsText(b) + "\"" }

  function KeyText(key: Key): string {
    match key case NoKey => "" case KeyOf(body, mid, gap) => QuoteText(body) + mid + ":" + gap
  }

  function TrailText(trail: Trail, commas: bool): string {
    match trail case NoComma => "" case Comma(ws) => (if commas then "," else "") + ws
  }

  /** The text, with or without the trailing commas the layout has. */
  function Text(j: Json, commas: bool): string {
    match j
    case Lit(text) => text
    case Str(body) => QuoteText(body)
    case Box(square, lead, items, trail) =>
      (if square then "[" else "{") + lead + ItemsText(items, true, commas) + TrailText(trail, commas)
      + (if square then "]" else "}")
  }

  function ItemsText(items: Items, first: bool, commas: bool): string {
    match items
    case End => ""
    case More(pre, key, value, post, rest) =>
      (if first then "" else ",") + pre + KeyText(key) + Text(value, commas) + post + ItemsText(rest, false, commas)
  }

  // ---- how the scanner passes over each part ----

  lemma OneStep(m: Mode, c: char, r: string)
    ensures Strip(m, [c] + r) == (if Drops(m, [c] + r) then "" else [c]) + Strip(After(m, c), r)
  {
    assert ([c] + r)[1..] == r;
  }

  predicate Inert(s: string) {
    forall i :: 0 <= i < |s| ==> s[i] != '"' && s[i] != ','
  }

  lemma {:induction false} PassInert(s: string, r: string)
    requires Inert(s)
    ensures Strip(Outside, s + r) == s + Strip(Outside, r)
  {
    if s == "" {
      assert s + r == r;
    } else {
      assert (s + r)[1..] == s[1..] + r;
      PassInert(s[1..], r);
    }
  }

  lemma {:induction false} PassGlyphs(b: seq<Glyph>, r: string)
    requires Body(b)
    ensures Strip(Quoted, GlyphsText(b) + r) == GlyphsText(b) + Strip(Quoted, r)
  {
    if b == [] {
      assert GlyphsText(b) + r == r;
    } else {
      PassGlyphs(b[1..], r);
      PassGlyph(b[0], GlyphsText(b[1..]) + r);
      Associate(GlyphText(b[0]), GlyphsText(b[1..]), r);
      Associate(GlyphText(b[0]), GlyphsText(b[1..]), Strip(Quoted, r));
    }
  }

  lemma PassGlyph(u: Glyph, r: string)
    requires u.Plain? ==> u.c != '"' && u.c != '\\'
    ensures Strip(Quoted, GlyphText(u) + r) == GlyphText(u) + Strip(Quoted, r)
  {
    var t := GlyphText(u) + r;
    if u.Esc? {
      assert t[1..] == [u.c] + r && ([u.c] + r)[1..] == r;
      assert Strip(Escaped, [u.c] + r) == [u.c] + Strip(Quoted, r);
    } else {
      assert t[1..] == r;
    }
  }

  lemma PassQuote(b: seq<Glyph>, r: string)
    requires Body(b)
    ensures Strip(Outside, QuoteText(b) + r) == QuoteText(b) + Strip(Outside, r)
  {
    SplitQuote(b, r);
    OneStep(Outside, '"', GlyphsText(b) + (['"'] + r));
    PassGlyphs(b, ['"'] + r);
    OneStep(Quoted, '"', r);
    SplitQuote(b, Strip(Outside, r));
  }

  lemma SplitQuote(b: seq<Glyph>, r: string)
    ensures QuoteText(b) + r == ['"'] + (GlyphsText(b) + (['"'] + r))
  {
  }

  lemma PassKey(key: Key, r: string)
    requires key.KeyOf? ==> Body(key.body) && Ws(key.mid) && Ws(key.gap)
    ensures Strip(Outside, KeyText(key) + r) == KeyText(key) + Strip(Outside, r)
  {
    if key.NoKey? {
      assert KeyText(key) + r == r;
    } else {
      var colon := key.mid + ":" + key.gap;
      assert KeyText(key) == QuoteText(key.body) + colon;
      Associate(QuoteText(key.body), colon, r);
      PassQuote(key.body, colon + r);
      PassInert(colon, r);
      Associate(QuoteText(key.body), colon, Strip(Outside, r));
    }
  }

  lemma {:induction false} SkipWsOf(ws: string, r: string)
    requires Ws(ws)
    ensures SkipWs(ws + r) == SkipWs(r)
  {
    if ws == "" {
      assert ws + r == r;
    } else {
      assert (ws + r)[1..] == ws[1..] + r;
      SkipWsOf(ws[1..], r);
    }
  }

  /** A value or a key does not start with a closing bracket or white space. */
  lemma StartsOpen(key: Key, value: Json, commas: bool, r: string)
    requires WF(value)
    ensures !Closes(KeyText(key) + Text(value, commas) + r)
  {
    var t := KeyText(key) + Text(value, commas) + r;
    if key.KeyOf? {
      assert t[0] == '"';
    } else {
      ValueStartsOpen(value, commas);
      assert t[0] == Text(value, commas)[0];
    }
    OpenDoesNotClose(t);
  }

  predicate OpensText(c: char) { c != '}' && c != ']' && !IsWs(c) }

  lemma ValueStartsOpen(value: Json, commas: bool)
    requires WF(value)
    ensures Text(value, commas) != "" && OpensText(Text(value, commas)[0])
  {
  }

  lemma OpenDoesNotClose(t: string)
    requires t != "" && OpensText(t[0])
    ensures !Closes(t)
  {
  }

  lemma PassSeparator(first: bool, pre: string, t: string)
    requires Ws(pre) && !Closes(t)
    ensures var sep := if first then "" else ",";
      Strip(Outside, sep + pre + t) == sep + pre + Strip(Outside, t)
  {
    PassInert(pre, t);
    if first {
      assert "" + pre + t == pre + t;
      assert "" + pre == pre;
    } else {
      SkipWsOf(pre, t);
      assert "," + pre + t == "," + (pre + t);
      assert ("," + (pre + t))[1..] == pre + t;
      assert Strip(Outside, "," + (pre + t)) == "," + Strip(Outside, pre + t);
      Associate(",", pre, Strip(Outside, t));
    }
  }

  lemma JoinBox(a: string, b: string, t: string, c: string, r: string)
    ensures a + (b + (t + (c + r))) == a + b + t + c + r
  {
  }

  lemma JoinItem(sep: string, pre: string, k: string, v: string, post: string, rest: string, r: string)
    ensures (sep + pre + k + v + post + rest) + r == sep + pre + (k + v + (post + (rest + r)))
  {
  }

  lemma {:induction false} PassJson(j: Json, commas: bool, r: string)
    requires WF(j)
    ensures Strip(Outside, Text(j, commas) + r) == Text(j, false) + Strip(Outside, r)
    decreases j, 1
  {
    match j
    case Lit(text) => PassInert(text, r);
    case Str(body) => PassQuote(body, r);
    case Box(square, lead, items, trail) =>
      var o, c := if square then "[" else "{", if square then "]" else "}";
      var tail := TrailText(trail, commas) + (c + r);
      JoinBox(o + lead, ItemsText(items, true, commas), TrailText(trail, commas), c, r);
      PassInert(o + lead, ItemsText(items, true, commas) + tail);
      PassItems(items, square, true, commas, tail);
      PassTrail(trail, commas, c[0], r);
      assert c == [c[0]];
      JoinBox(o + lead, ItemsText(items, true, false), TrailText(trail, false), c, Strip(Outside, r));
  }

  lemma WsIsInert(ws: string)
    requires Ws(ws)
    ensures Inert(ws)
  {
  }

  lemma PassComma(ws: string, c: char, r: string)
    requires Ws(ws) && (c == ']' || c == '}')
    ensures Strip(Outside, "," + (ws + ([c] + r))) == Strip(Outside, ws + ([c] + r))
  {
    var t := ws + ([c] + r);
    SkipWsOf(ws, [c] + r);
    assert Closes(t);
    OneStep(Outside, ',', t);
    assert "" + Strip(Outside, t) == Strip(Outside, t);
  }

  lemma PassTrail(trail: Trail, commas: bool, c: char, r: string)
    requires (trail.Comma? ==> Ws(trail.ws)) && (c == ']' || c == '}')
    ensures Strip(Outside, TrailText(trail, commas) + ([c] + r)) == TrailText(trail, false) + ([c] + Strip(Outside, r))
  {
    PassInert([c], r);
    assert "" + ([c] + r) == [c] + r;
    assert "" + ([c] + Strip(Outside, r)) == [c] + Strip(Outside, r);
    if trail.Comma? {
      var ws := trail.ws;
      WsIsInert(ws);
      PassInert(ws, [c] + r);
      PassComma(ws, c, r);
      assert "" + ws == ws;
      Associate(if commas then "," else "", ws, [c] + r);
      assert "" + (ws + ([c] + r)) == ws + ([c] + r);
    }
  }

  lemma {:induction false} PassItems(items: Items, square: bool, first: bool, commas: bool, r: string)
    requires WFItems(items, square)
    ensures Strip(Outside, ItemsText(items, first, commas) + r) == ItemsText(items, first, false) + Strip(Outside, r)
    decreases items, 0
  {
    match items
    case End =>
      assert "" + r == r;
      assert "" + Strip(Outside, r) == Strip(Outside, r);
    case More(pre, key, value, post, rest) =>
      var sep := if first then "" else ",";
      var after := ItemsText(rest, false, commas) + r;
      var t := KeyText(key) + Text(value, commas) + (post + after);
      JoinItem(sep, pre, KeyText(key), Text(value, commas), post, ItemsText(rest, false, commas), r);
      StartsOpen(key, value, commas, post + after);
      PassSeparator(first, pre, t);
      Associate(KeyText(key), Text(value, commas), post + after);
      PassKey(key, Text(value, commas) + (post + after));
      PassJson(value, commas, post + after);
      PassInert(post, after);
      PassItems(rest, square, false, commas, r);
      JoinItem(sep, pre, KeyText(key), Text(value, false), post, ItemsText(rest, false, false), Strip(Outside, r));
      Associate(KeyText(key), Text(value, false), post + (ItemsText(rest, false, false) + Strip(Outside, r)));
  }

  /** For every JSON value and every layout, white space around it included, stripping the text
      with trailing commas gives the text without them, strings and all other characters untouched. */
  lemma StripsExactlyTheTrailingCommas(before: string, j: Json, after: string)
    requires Ws(before) && WF(j) && Ws(after)
    ensures Strip(Outside, before + Text(j, true) + after) == before + Text(j, false) + after
  {
    PassDocument(before, j, true, after);
  }

  /** In particular it leaves a JSON text alone. */
  lemma IdentityOnJson(before: string, j: Json, after: string)
    requires Ws(before) && WF(j) && Ws(after)
    ensures Strip(Outside, before + Text(j, false) + after) == before + Text(j, false) + after
  {
    PassDocument(before, j, false, after);
  }

  lemma PassDocument(before: string, j: Json, commas: bool, after: string)
    requires Ws(before) && WF(j) && Ws(after)
    ensures Strip(Outside, before + Text(j, commas) + after) == before + Text(j, false) + after
  {
    PassWs(after);
    PassJson(j, commas, after);
    WsIsInert(before);
    PassInert(before, Text(j, commas) + after);
    Associate(before, Text(j, commas), after);
    Associate(before, Text(j, false), after);
  }

  lemma PassWs(ws: string)
    requires Ws(ws)
    ensures Strip(Outside, ws) == ws
  {
    WsIsInert(ws);
    PassInert(ws, "");
    NothingAdded(ws);
  }

  lemma Bare(t: string)
    ensures "" + t + "" == t
  {
  }

  lemma StripsOneValue(j: Json)
    requires WF(j)
    ensures Strip(Outside, Text(j, true)) == Text(j, false)
  {
    StripsExactlyTheTrailingCommas("", j, "");
    Bare(Text(j, true));
    Bare(Text(j, false));
  }

  // ---- texts that are not JSON ----

  /** A comma outside strings whose next visible character is a comma that is dropped. */
  predicate Stacked(m: Mode, s: string)
    requires s != ""
  {
    && m.Outside? && s[0] == ','
    && var t := SkipWs(s[1..]); t != "" && t[0] == ',' && Closes(t[1..])
  }

  function StackedCommas(m: Mode, s: string): nat
    decreases |s|
  {
    if s == "" then 0 else (if Stacked(m, s) then 1 else 0) + StackedCommas(After(m, s[0]), s[1..])
  }

  /** A bracket comes up after stripping if one came up before, or behind a dropped comma. */
  lemma {:induction false} ClosesAfterStrip(s: string)
    ensures Closes(Strip(Outside, s)) <==>
      Closes(s) || (var t := SkipWs(s); t != "" && t[0] == ',' && Closes(t[1..]))
  {
    if s != "" {
      if IsWs(s[0]) {
        ClosesAfterStrip(s[1..]);
        assert Strip(Outside, s)[1..] == Strip(Outside, s[1..]);
      } else if Drops(Outside, s) {
        ClosesStays(s[1..]);
        assert Strip(Outside, s) == Strip(Outside, s[1..]);
      } else {
        assert Strip(Outside, s)[0] == s[0];
      }
    }
  }

  lemma {:induction false} ClosesStays(s: string)
    requires Closes(s)
    ensures Closes(Strip(Outside, s))
  {
    if IsWs(s[0]) {
      ClosesStays(s[1..]);
      assert Strip(Outside, s)[1..] == Strip(Outside, s[1..]);
    } else {
      assert Strip(Outside, s)[0] == s[0];
    }
  }

  /** A second pass drops one more character for every stacked comma, and nothing else. */
  lemma {:induction false} SecondPass(m: Mode, s: string)
    ensures |Strip(m, Strip(m, s))| + StackedCommas(m, s) == |Strip(m, s)|
    ensures StackedCommas(m, s) == 0 ==> Strip(m, Strip(m, s)) == Strip(m, s)
    decreases |s|
  {
    if s != "" {
      var n, rest := After(m, s[0]), s[1..];
      SecondPass(n, rest);
      var once := Strip(n, rest);
      if Drops(m, s) {
        assert Strip(m, s) == once && n == m;
        assert !Stacked(m, s);
      } else {
        assert Strip(m, s) == [s[0]] + once;
        assert ([s[0]] + once)[1..] == once;
        if m.Outside? && s[0] == ',' {
          ClosesAfterStrip(rest);
        }
      }
    }
  }

  /** Stripping twice is stripping once exactly when no comma outside strings is followed, but
      for white space, by a trailing one. */
  lemma IdempotentUnlessStacked(s: string)
    ensures Strip(Outside, Strip(Outside, s)) == Strip(Outside, s) <==> StackedCommas(Outside, s) == 0
  {
    SecondPass(Outside, s);
  }

  /** Such texts exist: the first pass over [1,,] leaves [1,], the second [1]. */
  lemma NotIdempotentOnMalformedText()
    ensures Strip(Outside, "[1,,]") == "[1,]" && Strip(Outside, "[1,]") == "[1]"
  {
    StripEnd();
    assert !Closes(",]");
    OneStep(Outside, ',', ",]");
    assert "," + ",]" == ",,]";
    PassInert("[1", ",]");
    PassInert("[1", ",,]");
    assert "[1" + ",]" == "[1,]" && "[1" + ",,]" == "[1,,]" && "[1" + "]" == "[1]";
  }

  lemma StripEnd()
    ensures Strip(Outside, ",]") == "]"
  {
    PassInert("]", "");
    assert "]" + "" == "]";
    assert Closes("]");
    OneStep(Outside, ',', "]");
    assert "," + "]" == ",]" && "" + "]" == "]";
  }
}
