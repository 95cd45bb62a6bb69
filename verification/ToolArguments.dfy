/** Repairing tool-call arguments before they are decoded: a code fence around the whole value is
    taken off, trailing commas are stripped, and only a text that decodes as an object gets
    through; anything else becomes the empty object. `decodes` stands for the JSON decoder. */
module ToolArguments {
  import opened TrailingCommas
  import opened Trimming

  const FENCE := "```"

  function FirstNewline(s: string): (i: int)
    ensures -1 <= i < |s|
    ensures i >= 0 ==> s[i] == '\n' && forall j :: 0 <= j < i ==> s[j] != '\n'
    ensures i < 0 ==> forall j :: 0 <= j < |s| ==> s[j] != '\n'
  {
    if s == "" then -1
    else if s[0] == '\n' then 0
    else
      var i := FirstNewline(s[1..]);
      if i < 0 then -1 else i + 1
  }

  function TrimNewlines(s: string): string {
    if s != "" && (s[|s| - 1] == '\n' || s[|s| - 1] == '\r') then TrimNewlines(s[..|s| - 1]) else s
  }

  predicate EndsWith(s: string, end: string) { |end| <= |s| && s[|s| - |end|..] == end }

  /** The contents of a fence around the whole value, or nothing. */
  function FenceContents(value: string): string {
    if !(FENCE <= value) then ""
    else
      var rest := value[3..];
      var nl := FirstNewline(rest);
      if nl < 0 then ""
      else
        var lang := Trim(rest[..nl]);
        if lang != "" && lang != "json" then ""
        else
          var inner := TrimNewlines(rest[nl + 1..]);
          if EndsWith(inner, FENCE) then inner[..|inner| - 3] else ""
  }

  function Unwrapped(value: string): string {
    var trimmed := Trim(value);
    var fence := FenceContents(trimmed);
    if fence != "" then Trim(fence) else trimmed
  }

  function Repair(value: string, decodes: string -> bool): (r: string)
    ensures r == "{}" || decodes(r)
  {
    if Trim(value) == "" then "{}"
    else
      var text := Unwrapped(value);
      var repaired := Strip(Outside, text);
      if decodes(repaired) then repaired else if decodes(text) then text else "{}"
  }

  method RepairToolCallArguments(value: string, decodes: string -> bool) returns (r: string)
    ensures r == Repair(value, decodes)
  {
    var trimmed := Trim(value);
    if trimmed == "" {
      return "{}";
    }
    var fence := FenceContents(trimmed);
    if fence != "" {
      trimmed := Trim(fence);
    }
    var repaired := StripTrailingCommas(trimmed);
    if decodes(repaired) {
      return repaired;
    }
    if decodes(trimmed) {
      return trimmed;
    }
    return "{}";
  }

  lemma Braced(a: string, b: string, c: string)
    ensures var t := "{" + a + b + c + "}"; Tight(t) && t[0] == '{' && t[|t| - 1] == '}'
  {
  }

  lemma ObjectIsTight(j: Json, commas: bool)
    requires WF(j) && j.Box? && !j.square
    ensures Tight(Text(j, commas))
  {
    match j {
      case Box(_, lead, items, trail) => Braced(lead, ItemsText(items, true, commas), TrailText(trail, commas));
    }
  }

  /** An object text with trailing commas, in any white space, comes out without them. */
  lemma RepairsObjects(j: Json, a: string, b: string, decodes: string -> bool)
    requires WF(j) && j.Box? && !j.square && Blanks(a) && Blanks(b) && decodes(Text(j, false))
    ensures Repair(a + Text(j, true) + b, decodes) == Text(j, false)
  {
    ObjectIsTight(j, true);
    TrimDropsBlanks(a, Text(j, true), b);
    StripsOneValue(j);
  }

  lemma FirstNewlineAfter(lang: string, tail: string)
    requires lang == "" || lang == "json"
    ensures FirstNewline(lang + "\n" + tail) == |lang|
  {
    var rest := lang + "\n" + tail;
    assert forall i :: 0 <= i < |lang| ==> rest[i] == lang[i] && lang[i] != '\n';
    assert rest[|lang|] == '\n';
  }

  lemma ClosingFence(t: string)
    ensures var tail := t + FENCE; TrimNewlines(tail) == tail && EndsWith(tail, FENCE) && tail[..|tail| - 3] == t
  {
    var tail := t + FENCE;
    assert tail[|tail| - 1] == '`';
    assert tail[|tail| - 3..] == FENCE;
  }

  lemma FenceRest(lang: string, t: string)
    ensures var value := FENCE + lang + "\n" + t + FENCE; FENCE <= value && value[3..] == lang + "\n" + (t + FENCE)
  {
  }

  lemma FenceAround(lang: string, t: string)
    requires lang == "" || lang == "json"
    ensures FenceContents(FENCE + lang + "\n" + t + FENCE) == t
  {
    var tail := t + FENCE;
    var rest := lang + "\n" + tail;
    FenceRest(lang, t);
    FirstNewlineAfter(lang, tail);
    assert rest[..|lang|] == lang && rest[|lang| + 1..] == tail;
    ClosingFence(t);
    if lang == "json" {
      TrimKeeps(lang);
    }
  }

  lemma FencedIsTight(lang: string, t: string)
    ensures Tight(FENCE + lang + "\n" + t + FENCE)
  {
    var value := FENCE + lang + "\n" + t + FENCE;
    assert value[0] == '`' && value[|value| - 1] == '`';
  }

  /** So does one inside a fence, plain or marked json, in any white space inside and outside. */
  lemma RepairsFencedObjects(j: Json, marked: bool, out: string, a: string, b: string, back: string,
                             decodes: string -> bool)
    requires WF(j) && j.Box? && !j.square && decodes(Text(j, false))
    requires Blanks(out) && Blanks(a) && Blanks(b) && Blanks(back)
    ensures var lang := if marked then "json" else "";
      Repair(out + (FENCE + lang + "\n" + (a + Text(j, true) + b) + FENCE) + back, decodes) == Text(j, false)
  {
    var lang := if marked then "json" else "";
    var t := Text(j, true);
    var contents := a + t + b;
    ObjectIsTight(j, true);
    FencedIsTight(lang, contents);
    TrimDropsBlanks(out, FENCE + lang + "\n" + contents + FENCE, back);
    FenceAround(lang, contents);
    assert contents != "" by { assert |contents| >= |t|; }
    TrimDropsBlanks(a, t, b);
    StripsOneValue(j);
  }

  // Which texts are fenced.

  predicate Newlines(t: string) { forall i :: 0 <= i < |t| ==> t[i] == '\n' || t[i] == '\r' }

  /** The text is a fence around c: opened by a first line that says nothing or json, and closed at the
      end but for newlines. */
  ghost predicate FencedBy(v: string, lang: string, c: string, nl: string) {
    && v == FENCE + (lang + "\n" + ((c + FENCE) + nl))
    && '\n' !in lang && (Trim(lang) == "" || Trim(lang) == "json") && Newlines(nl)
  }

  lemma {:induction false} NewlinesTrimmed(t: string) returns (nl: string)
    ensures t == TrimNewlines(t) + nl && Newlines(nl)
  {
    if t != "" && (t[|t| - 1] == '\n' || t[|t| - 1] == '\r') {
      nl := NewlinesTrimmed(t[..|t| - 1]);
      nl := nl + [t[|t| - 1]];
      assert t == t[..|t| - 1] + [t[|t| - 1]];
    } else {
      nl := "";
    }
  }

  lemma {:induction false} TrimsNewlines(t: string, nl: string)
    requires Newlines(nl) && t != "" && t[|t| - 1] != '\n' && t[|t| - 1] != '\r'
    ensures TrimNewlines(t + nl) == t
    decreases |nl|
  {
    if nl == "" {
      assert t + nl == t;
    } else {
      assert (t + nl)[..|t + nl| - 1] == t + nl[..|nl| - 1];
      TrimsNewlines(t, nl[..|nl| - 1]);
    }
  }

  lemma FencedOpens(v: string, lang: string, c: string, nl: string)
    requires FencedBy(v, lang, c, nl)
    ensures FENCE <= v && FirstNewline(v[3..]) == |lang|
    ensures v[3..][..|lang|] == lang && v[3..][|lang| + 1..] == (c + FENCE) + nl
  {
    var rest := lang + "\n" + ((c + FENCE) + nl);
    assert v == FENCE + rest;
    assert v[3..] == rest;
    assert forall i :: 0 <= i < |lang| ==> rest[i] == lang[i];
    assert rest[|lang|] == '\n';
  }

  lemma FenceFound(v: string, c: string) returns (lang: string, nl: string)
    requires c != "" && FenceContents(v) == c
    ensures FencedBy(v, lang, c, nl)
  {
    var rest := v[3..];
    var i := FirstNewline(rest);
    lang := rest[..i];
    nl := NewlinesTrimmed(rest[i + 1..]);
    Closed(TrimNewlines(rest[i + 1..]), c);
    CutAtNewline(rest, i);
    assert v == FENCE + rest;
  }

  lemma Closed(inner: string, c: string)
    requires EndsWith(inner, FENCE) && inner[..|inner| - 3] == c
    ensures inner == c + FENCE
  {
  }

  lemma CutAtNewline(rest: string, i: nat)
    requires i < |rest| && rest[i] == '\n'
    ensures rest == rest[..i] + "\n" + rest[i + 1..]
  {
  }

  /** The contents of a fence are c exactly when the text is fenced around it; so a fence of any other
      language, or one that is not closed, is none. */
  lemma FencesExactly(v: string, c: string)
    requires c != ""
    ensures FenceContents(v) == c <==> exists lang, nl :: FencedBy(v, lang, c, nl)
  {
    if FenceContents(v) == c {
      var lang, nl := FenceFound(v, c);
    }
    if lang, nl :| FencedBy(v, lang, c, nl) {
      FencedOpens(v, lang, c, nl);
      TrimsNewlines(c + FENCE, nl);
      ClosingFence(c);
    }
  }

  /** White space is the empty object. Else the text, out of its fence if it has one, comes out without
      trailing commas if that decodes, as it is if only that does, and as the empty object otherwise. */
  lemma RepairFallsBack(value: string, decodes: string -> bool)
    ensures Trim(value) == "" ==> Repair(value, decodes) == "{}"
    ensures Trim(value) != "" ==>
      var fence := FenceContents(Trim(value));
      var text := if fence == "" then Trim(value) else Trim(fence);
      && (decodes(Strip(Outside, text)) ==> Repair(value, decodes) == Strip(Outside, text))
      && (!decodes(Strip(Outside, text)) && decodes(text) ==> Repair(value, decodes) == text)
      && (!decodes(Strip(Outside, text)) && !decodes(text) ==> Repair(value, decodes) == "{}")
  {
  }
}
