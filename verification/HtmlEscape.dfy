/** `escapeHtml` of the mail templates (template-helpers.ts): five global replacements in a row. */
module HtmlEscape {

  /** `replace(/c/g, by)` for a single character. */
  function ReplaceAll(s: string, c: char, to: string): string {
    if s == "" then "" else (if s[0] == c then to else [s[0]]) + ReplaceAll(s[1..], c, to)
  }

  function EscapeHtml(value: string): string {
    ReplaceAll(
      ReplaceAll(
        ReplaceAll(
          ReplaceAll(
            ReplaceAll(value, '&', "&amp;"),
            '<', "&lt;"),
          '>', "&gt;"),
        '"', "&quot;"),
      '\'', "&#39;")
  }

  // ---------------------------------------------------------------- one substitution

  function Entity(c: char): string {
    match c
    case '&' => "&amp;"
    case '<' => "&lt;"
    case '>' => "&gt;"
    case '"' => "&quot;"
    case '\'' => "&#39;"
    case _ => [c]
  }

  /** Each character replaced on its own. */
  function Substitute(s: string): string {
    if s == "" then "" else Entity(s[0]) + Substitute(s[1..])
  }

  lemma {:induction false} ReplaceAllAppend(s: string, t: string, c: char, to: string)
    ensures ReplaceAll(s + t, c, to) == ReplaceAll(s, c, to) + ReplaceAll(t, c, to)
  {
    if s == "" {
      assert s + t == t;
    } else {
      assert (s + t)[1..] == s[1..] + t;
      ReplaceAllAppend(s[1..], t, c, to);
    }
  }

  lemma {:induction false} ReplaceAllAbsent(s: string, c: char, to: string)
    requires c !in s
    ensures ReplaceAll(s, c, to) == s
  {
    if s != "" {
      ReplaceAllAbsent(s[1..], c, to);
    }
  }

  lemma ReplaceAllOne(x: char, c: char, to: string)
    ensures ReplaceAll([x], c, to) == if x == c then to else [x]
  {
    assert [x][1..] == "";
    assert ReplaceAll([x], c, to) == (if x == c then to else [x]) + "";
  }

  lemma EscapeHtmlAppend(s: string, t: string)
    ensures EscapeHtml(s + t) == EscapeHtml(s) + EscapeHtml(t)
  {
    var s1, t1 := ReplaceAll(s, '&', "&amp;"), ReplaceAll(t, '&', "&amp;");
    var s2, t2 := ReplaceAll(s1, '<', "&lt;"), ReplaceAll(t1, '<', "&lt;");
    var s3, t3 := ReplaceAll(s2, '>', "&gt;"), ReplaceAll(t2, '>', "&gt;");
    var s4, t4 := ReplaceAll(s3, '"', "&quot;"), ReplaceAll(t3, '"', "&quot;");
    ReplaceAllAppend(s, t, '&', "&amp;");
    ReplaceAllAppend(s1, t1, '<', "&lt;");
    ReplaceAllAppend(s2, t2, '>', "&gt;");
    ReplaceAllAppend(s3, t3, '"', "&quot;");
    ReplaceAllAppend(s4, t4, '\'', "&#39;");
  }

  /** No replacement touches what an earlier one produced. */
  lemma EscapeHtmlOne(x: char)
    ensures EscapeHtml([x]) == Entity(x)
  {
    hide ReplaceAll;
    ReplaceAllOne(x, '&', "&amp;");
    var s1 := ReplaceAll([x], '&', "&amp;");
    if x == '&' {
      ReplaceAllAbsent(s1, '<', "&lt;");
    } else {
      ReplaceAllOne(x, '<', "&lt;");
    }
    var s2 := ReplaceAll(s1, '<', "&lt;");
    if x == '&' || x == '<' {
      ReplaceAllAbsent(s2, '>', "&gt;");
    } else {
      ReplaceAllOne(x, '>', "&gt;");
    }
    var s3 := ReplaceAll(s2, '>', "&gt;");
    if x == '&' || x == '<' || x == '>' {
      ReplaceAllAbsent(s3, '"', "&quot;");
    } else {
      ReplaceAllOne(x, '"', "&quot;");
    }
    var s4 := ReplaceAll(s3, '"', "&quot;");
    if x == '&' || x == '<' || x == '>' || x == '"' {
      ReplaceAllAbsent(s4, '\'', "&#39;");
    } else {
      ReplaceAllOne(x, '\'', "&#39;");
    }
  }

  /** The five replacements are one character-by-character substitution. */
  lemma {:induction false} EscapeIsSubstitution(s: string)
    ensures EscapeHtml(s) == Substitute(s)
  {
    if s != "" {
      assert s == [s[0]] + s[1..];
      EscapeHtmlAppend([s[0]], s[1..]);
      EscapeHtmlOne(s[0]);
      EscapeIsSubstitution(s[1..]);
    }
  }

  // ---------------------------------------------------------------- undoing it

  predicate StartsWith(s: string, prefix: string) {
    |prefix| <= |s| && s[..|prefix|] == prefix
  }

  /** Reads the five entities back, left to right; anything else stands for itself. */
  function Unescape(s: string): string {
    if s == "" then ""
    else if StartsWith(s, "&amp;") then "&" + Unescape(s[5..])
    else if StartsWith(s, "&lt;") then "<" + Unescape(s[4..])
    else if StartsWith(s, "&gt;") then ">" + Unescape(s[4..])
    else if StartsWith(s, "&quot;") then "\"" + Unescape(s[6..])
    else if StartsWith(s, "&#39;") then "'" + Unescape(s[5..])
    else [s[0]] + Unescape(s[1..])
  }

  lemma UnescapeEntity(c: char, rest: string)
    ensures Unescape(Entity(c) + rest) == [c] + Unescape(rest)
  {
    var e := Entity(c);
    var s := e + rest;
    assert s[..|e|] == e && s[|e|..] == rest;
    assert |e| > 1 ==> s[1] == e[1];
    assert s[0] == e[0];
    assert |s| >= 4 ==> s[..4][1] == s[1];
    assert |s| >= 5 ==> s[..5][1] == s[1];
    assert |s| >= 6 ==> s[..6][1] == s[1];
    if |e| == 1 {
      assert |s| >= 4 ==> s[..4][0] == c;
      assert |s| >= 5 ==> s[..5][0] == c;
      assert |s| >= 6 ==> s[..6][0] == c;
    }
  }

  /** Escaping loses nothing. */
  lemma {:induction false} EscapeRoundTrip(s: string)
    ensures Unescape(EscapeHtml(s)) == s
  {
    EscapeIsSubstitution(s);
    if s != "" {
      EscapeIsSubstitution(s[1..]);
      EscapeRoundTrip(s[1..]);
      UnescapeEntity(s[0], Substitute(s[1..]));
    }
  }

  lemma EscapeInjective(s: string, t: string)
    requires EscapeHtml(s) == EscapeHtml(t)
    ensures s == t
  {
    EscapeRoundTrip(s);
    EscapeRoundTrip(t);
  }

  predicate NoMarkup(s: string) {
    forall i :: 0 <= i < |s| ==> s[i] != '<' && s[i] != '>' && s[i] != '"' && s[i] != '\''
  }

  lemma {:induction false} SubstituteLeavesNoMarkup(s: string)
    ensures NoMarkup(Substitute(s))
  {
    if s != "" {
      SubstituteLeavesNoMarkup(s[1..]);
    }
  }

  /** Nothing that could open a tag or close an attribute is left. */
  lemma EscapeLeavesNoMarkup(s: string)
    ensures NoMarkup(EscapeHtml(s))
  {
    EscapeIsSubstitution(s);
    SubstituteLeavesNoMarkup(s);
  }
}
