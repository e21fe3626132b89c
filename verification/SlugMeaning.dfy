/** What `toSlug` makes of a name, and sanitizing of a folder string, said without the chain of replacements. */
module SlugMeaning {
  import opened FolderPaths

  /** A character that a slug keeps and that is no hyphen. */
  predicate Solid(c: char) { IsSafe(c) && c != '-' }

  /** A character that a slug shows as a hyphen. */
  predicate Separates(c: char) { IsSpace(c) || c == '-' }

  /** One pass: solid characters stay, the first separator after one shows, everything else goes. */
  function Scan(s: string, separated: bool): string {
    if s == "" then ""
    else if Solid(s[0]) then [s[0]] + Scan(s[1..], false)
    else if Separates(s[0]) then (if separated then "" else "-") + Scan(s[1..], true)
    else Scan(s[1..], separated)
  }

  lemma KeepSafeCons(c: char, s: string)
    ensures KeepSafe([c] + s) == (if IsSafe(c) then [c] else "") + KeepSafe(s)
  {
    assert ([c] + s)[1..] == s;
  }

  lemma CollapseCons(c: char, s: string)
    ensures CollapseHyphens([c] + s) == if s != "" && c == '-' && s[0] == '-' then CollapseHyphens(s) else [c] + CollapseHyphens(s)
  {
    assert ([c] + s)[1..] == s;
    assert s != "" ==> ([c] + s)[1] == s[0];
  }

  function Replaced(s: string): string {
    KeepSafe(HyphenateSpaces(s))
  }

  lemma ReplacedCons(s: string)
    requires s != ""
    ensures Replaced(s) ==
      if IsSpace(s[0]) then (if |s| > 1 && IsSpace(s[1]) then Replaced(s[1..]) else "-" + Replaced(s[1..]))
      else (if IsSafe(s[0]) then [s[0]] else "") + Replaced(s[1..])
  {
    KeepSafeCons(s[0], HyphenateSpaces(s[1..]));
    KeepSafeCons('-', HyphenateSpaces(s[1..]));
    assert "-" == ['-'];
  }

  lemma CharacterKinds(c: char)
    ensures Solid(c) <==> IsSafe(c) && c != '-'
    ensures Separates(c) <==> IsSpace(c) || c == '-'
    ensures c == '-' ==> IsSafe(c)
    ensures IsSpace(c) ==> !IsSafe(c)
  {}

  /** The replacements are that one pass, with or without a hyphen in front. */
  lemma {:induction false} ReplacementsScan(s: string)
    ensures CollapseHyphens(Replaced(s)) == Scan(s, false)
    ensures CollapseHyphens("-" + Replaced(s)) == "-" + Scan(s, true)
    decreases |s|
  {
    hide IsSafe;
    hide IsSpace;
    hide Solid;
    hide Separates;
    CollapseCons('-', Replaced(s));
    assert "-" == ['-'];
    if s != "" {
      CharacterKinds(s[0]);
      if |s| > 1 { CharacterKinds(s[1]); }
      var rest := Replaced(s[1..]);
      ReplacedCons(s);
      ReplacementsScan(s[1..]);
      CollapseCons('-', rest);
      if Solid(s[0]) {
        CollapseCons(s[0], rest);
        assert "-" + ([s[0]] + rest) == ['-'] + ([s[0]] + rest);
      } else if Separates(s[0]) && !(IsSpace(s[0]) && |s| > 1 && IsSpace(s[1])) {
        assert Replaced(s) == "-" + rest;
        CollapseCons('-', "-" + rest);
      } else if IsSpace(s[0]) {
        assert Separates(s[1]) && s[1..][0] == s[1] && !Solid(s[1]);
        assert Scan(s[1..], false) == "-" + Scan(s[1..][1..], true) && Scan(s[1..], true) == Scan(s[1..][1..], true);
        assert Scan(s, false) == "-" + Scan(s[1..], true) && Scan(s, true) == "" + Scan(s[1..], true);
      } else {
        assert "" + rest == rest;
      }
    }
  }

  lemma ToSlugScans(lower: string -> string, name: string)
    ensures ToSlug(lower, name) == Scan(TrimEnd(TrimStart(lower(name))), false)
  {
    ReplacementsScan(TrimEnd(TrimStart(lower(name))));
  }

  // ---------------------------------------------------------------- the solid characters

  function Solids(s: string): string {
    if s == "" then "" else (if Solid(s[0]) then [s[0]] else "") + Solids(s[1..])
  }

  lemma SolidsCons(c: char, s: string)
    ensures Solids([c] + s) == (if Solid(c) then [c] else "") + Solids(s)
  {
    assert ([c] + s)[1..] == s;
  }

  lemma {:induction false} SolidsAppend(s: string, t: string)
    ensures Solids(s + t) == Solids(s) + Solids(t)
  {
    if s == "" {
      assert s + t == t;
    } else {
      hide Solid;
      SolidsAppend(s[1..], t);
      assert s + t == [s[0]] + (s[1..] + t) && s == [s[0]] + s[1..];
      SolidsCons(s[0], s[1..] + t);
      SolidsCons(s[0], s[1..]);
    }
  }

  lemma {:induction false} ScanSolids(s: string, separated: bool)
    ensures Solids(Scan(s, separated)) == Solids(s)
  {
    if s != "" {
      ScanSolids(s[1..], false);
      ScanSolids(s[1..], true);
      ScanSolids(s[1..], separated);
      SolidsCons(s[0], Scan(s[1..], false));
      SolidsCons('-', Scan(s[1..], true));
      assert "-" == ['-'];
      assert "" + Scan(s[1..], true) == Scan(s[1..], true);
      assert "" + Solids(Scan(s[1..], true)) == Solids(Scan(s[1..], true));
      assert "" + Solids(s[1..]) == Solids(s[1..]);
    }
  }

  lemma {:induction false} TrimSolids(s: string)
    ensures Solids(TrimStart(s)) == Solids(s) && Solids(TrimEnd(s)) == Solids(s)
    decreases |s|
  {
    if s != "" {
      TrimSolids(s[1..]);
      TrimSolids(s[..|s| - 1]);
      assert s == s[..|s| - 1] + [s[|s| - 1]];
      SolidsAppend(s[..|s| - 1], [s[|s| - 1]]);
      assert [s[|s| - 1]][1..] == "";
    }
  }

  /** The characters of a slug, hyphens aside, are exactly the solid ones of the lowered name, in order. */
  lemma SlugSolids(lower: string -> string, name: string)
    ensures Solids(ToSlug(lower, name)) == Solids(lower(name))
  {
    ToSlugScans(lower, name);
    TrimSolids(lower(name));
    TrimSolids(TrimStart(lower(name)));
    ScanSolids(TrimEnd(TrimStart(lower(name))), false);
  }

  // ---------------------------------------------------------------- the hyphens

  /** Whether the scan has just shown, or passed, a separator. */
  function Separated(s: string, before: bool): bool {
    if s == "" then before
    else Separated(s[1..], if Solid(s[0]) then false else if Separates(s[0]) then true else before)
  }

  lemma {:induction false} ScanAppend(s: string, t: string, separated: bool)
    ensures Scan(s + t, separated) == Scan(s, separated) + Scan(t, Separated(s, separated))
    decreases |s|
  {
    if s == "" {
      assert s + t == t;
    } else {
      assert (s + t)[1..] == s[1..] + t;
      ScanAppend(s[1..], t, if Solid(s[0]) then false else if Separates(s[0]) then true else separated);
    }
  }

  predicate NoSolids(s: string) { forall i :: 0 <= i < |s| ==> !Solid(s[i]) }

  predicate HasSeparator(s: string) { exists i :: 0 <= i < |s| && Separates(s[i]) }

  lemma {:induction false} ScanGap(gap: string, separated: bool)
    requires NoSolids(gap)
    ensures Scan(gap, separated) == if HasSeparator(gap) && !separated then "-" else ""
    ensures Separated(gap, separated) == (separated || HasSeparator(gap))
  {
    if gap != "" {
      ScanGap(gap[1..], separated);
      ScanGap(gap[1..], true);
      assert HasSeparator(gap) <==> Separates(gap[0]) || HasSeparator(gap[1..]) by {
        if HasSeparator(gap) && !Separates(gap[0]) {
          var i :| 0 <= i < |gap| && Separates(gap[i]);
          assert gap[1..][i - 1] == gap[i];
        }
        if HasSeparator(gap[1..]) {
          var i :| 0 <= i < |gap[1..]| && Separates(gap[1..][i]);
          assert gap[i + 1] == gap[1..][i];
        }
      }
    }
  }

  lemma {:induction false} TrimStartUpTo(a: string, x: char, rest: string)
    requires !IsSpace(x)
    ensures TrimStart(a + [x] + rest) == TrimStart(a) + [x] + rest
  {
    var s := a + [x] + rest;
    if a == "" {
      assert s == [x] + rest;
    } else {
      assert s[0] == a[0] && s[1..] == a[1..] + [x] + rest;
      TrimStartUpTo(a[1..], x, rest);
    }
  }

  lemma {:induction false} TrimEndUpTo(front: string, y: char, b: string)
    requires !IsSpace(y)
    ensures TrimEnd(front + [y] + b) == front + [y] + TrimEnd(b)
    decreases |b|
  {
    var s := front + [y] + b;
    if b == "" {
      assert s == front + [y];
    } else {
      assert s[|s| - 1] == b[|b| - 1] && s[..|s| - 1] == front + [y] + b[..|b| - 1];
      TrimEndUpTo(front, y, b[..|b| - 1]);
    }
  }

  lemma SolidIsNoSpace(c: char)
    requires Solid(c)
    ensures !IsSpace(c)
  {}

  lemma ScanSolidChar(c: char, separated: bool)
    requires Solid(c)
    ensures Scan([c], separated) == [c] && !Separated([c], separated)
  {
    assert [c][1..] == "";
  }

  /**
    Between two neighbouring solid characters of the name the slug has one hyphen if white
    space or a hyphen stood there, and nothing otherwise; what comes before and after is
    the slug of what came before and after.
  */
  lemma SlugBetween(lower: string -> string, name: string, a: string, x: char, gap: string, y: char, b: string)
    requires lower(name) == a + [x] + gap + [y] + b
    requires Solid(x) && Solid(y) && NoSolids(gap)
    ensures ToSlug(lower, name) ==
      Scan(TrimStart(a), false) + [x] + (if HasSeparator(gap) then "-" else "") + [y] + Scan(TrimEnd(b), false)
  {
    SolidIsNoSpace(x);
    SolidIsNoSpace(y);
    ToSlugScans(lower, name);
    var lead, tail := TrimStart(a), TrimEnd(b);
    assert lower(name) == a + [x] + (gap + [y] + b);
    TrimStartUpTo(a, x, gap + [y] + b);
    assert lead + [x] + (gap + [y] + b) == (lead + [x] + gap) + [y] + b;
    TrimEndUpTo(lead + [x] + gap, y, b);
    ScanAppend(lead + [x] + gap + [y], tail, false);
    ScanAppend(lead + [x] + gap, [y], false);
    ScanAppend(lead + [x], gap, false);
    ScanAppend(lead, [x], false);
    ScanSolidChar(x, Separated(lead, false));
    SeparatedAppend(lead, [x], false);
    ScanGap(gap, false);
    SeparatedAppend(lead + [x], gap, false);
    ScanSolidChar(y, Separated(lead + [x] + gap, false));
    SeparatedAppend(lead + [x] + gap, [y], false);
  }

  lemma {:induction false} SeparatedAppend(s: string, t: string, before: bool)
    ensures Separated(s + t, before) == Separated(t, Separated(s, before))
    decreases |s|
  {
    if s == "" {
      assert s + t == t;
    } else {
      assert (s + t)[1..] == s[1..] + t;
      SeparatedAppend(s[1..], t, if Solid(s[0]) then false else if Separates(s[0]) then true else before);
    }
  }

  // ---------------------------------------------------------------- words

  predicate IsWord(s: string) { s != "" && forall i :: 0 <= i < |s| ==> Solid(s[i]) }

  predicate IsGap(s: string) { s != "" && IsWhite(s) }

  predicate IsWhite(s: string) { forall i :: 0 <= i < |s| ==> IsSpace(s[i]) }

  /** Words with a gap between each two. */
  function Spread(words: seq<string>, gaps: seq<string>): string
    requires |words| == |gaps| + 1
  {
    if gaps == [] then words[0] else words[0] + gaps[0] + Spread(words[1..], gaps[1..])
  }

  function Hyphenated(words: seq<string>): string
    requires words != []
  {
    if |words| == 1 then words[0] else words[0] + "-" + Hyphenated(words[1..])
  }

  lemma {:induction false} ScanWord(word: string, separated: bool)
    requires IsWord(word)
    ensures Scan(word, separated) == word && !Separated(word, separated)
  {
    if |word| > 1 {
      assert IsWord(word[1..]);
      ScanWord(word[1..], false);
    } else {
      assert word == [word[0]];
      ScanSolidChar(word[0], separated);
    }
  }

  lemma WhiteHasNoSolids(s: string)
    requires IsWhite(s)
    ensures NoSolids(s) && (s != "" ==> HasSeparator(s))
  {
    forall i | 0 <= i < |s| ensures !Solid(s[i]) {
      assert IsSpace(s[i]);
    }
    if s != "" {
      assert Separates(s[0]);
    }
  }

  lemma {:induction false} ScanSpread(words: seq<string>, gaps: seq<string>, separated: bool)
    requires |words| == |gaps| + 1
    requires (forall i :: 0 <= i < |words| ==> IsWord(words[i])) && forall i :: 0 <= i < |gaps| ==> IsGap(gaps[i])
    ensures Scan(Spread(words, gaps), separated) == Hyphenated(words)
    decreases |words|
  {
    ScanWord(words[0], separated);
    if gaps != [] {
      var rest := Spread(words[1..], gaps[1..]);
      WhiteHasNoSolids(gaps[0]);
      ScanGap(gaps[0], false);
      ScanAppend(words[0] + gaps[0], rest, separated);
      ScanAppend(words[0], gaps[0], separated);
      SeparatedAppend(words[0], gaps[0], separated);
      ScanSpread(words[1..], gaps[1..], true);
    }
  }

  lemma {:induction false} TrimAll(s: string)
    requires IsWhite(s)
    ensures TrimStart(s) == "" && TrimEnd(s) == ""
    decreases |s|
  {
    if s != "" {
      TrimAll(s[1..]);
      TrimAll(s[..|s| - 1]);
    }
  }

  lemma {:induction false} SpreadEnds(words: seq<string>, gaps: seq<string>)
    requires |words| == |gaps| + 1
    requires forall i :: 0 <= i < |words| ==> IsWord(words[i])
    ensures
      var s := Spread(words, gaps);
      s != "" && Solid(s[0]) && Solid(s[|s| - 1])
    decreases |words|
  {
    var word := words[0];
    assert IsWord(word) && Solid(word[0]) && Solid(word[|word| - 1]);
    if gaps != [] {
      SpreadEnds(words[1..], gaps[1..]);
    }
  }

  lemma TrimPadded(before: string, s: string, after: string)
    requires IsWhite(before) && IsWhite(after) && s != "" && !IsSpace(s[0]) && !IsSpace(s[|s| - 1])
    ensures TrimEnd(TrimStart(before + s + after)) == s
  {
    hide TrimStart;
    hide TrimEnd;
    hide IsSpace;
    TrimAll(before);
    TrimAll(after);
    assert before + s + after == before + [s[0]] + (s[1..] + after);
    TrimStartUpTo(before, s[0], s[1..] + after);
    var front := s[..|s| - 1];
    assert "" + [s[0]] + (s[1..] + after) == front + [s[|s| - 1]] + after;
    TrimEndUpTo(front, s[|s| - 1], after);
  }

  /** The slug of words set apart by white space, with any white space around, is the words joined by single hyphens. */
  lemma SlugOfWords(lower: string -> string, name: string, before: string, words: seq<string>, gaps: seq<string>, after: string)
    requires |words| == |gaps| + 1 && IsWhite(before) && IsWhite(after)
    requires (forall i :: 0 <= i < |words| ==> IsWord(words[i])) && forall i :: 0 <= i < |gaps| ==> IsGap(gaps[i])
    requires lower(name) == before + Spread(words, gaps) + after
    ensures ToSlug(lower, name) == Hyphenated(words)
  {
    var s := Spread(words, gaps);
    SpreadEnds(words, gaps);
    SolidIsNoSpace(s[0]);
    SolidIsNoSpace(s[|s| - 1]);
    ToSlugScans(lower, name);
    TrimPadded(before, s, after);
    ScanSpread(words, gaps, false);
  }

  // ---------------------------------------------------------------- sanitizing

  lemma {:induction false} KeepSafeAppend(s: string, t: string)
    ensures KeepSafe(s + t) == KeepSafe(s) + KeepSafe(t)
  {
    if s == "" {
      assert s + t == t;
    } else {
      hide IsSafe;
      KeepSafeAppend(s[1..], t);
      assert s + t == [s[0]] + (s[1..] + t) && s == [s[0]] + s[1..];
      KeepSafeCons(s[0], s[1..] + t);
      KeepSafeCons(s[0], s[1..]);
    }
  }

  /** Around any unsafe character a segment is what its two sides are; safe ones stay. */
  lemma KeepSafeAround(a: string, c: char, b: string)
    ensures KeepSafe(a + [c] + b) == KeepSafe(a) + (if IsSafe(c) then [c] else "") + KeepSafe(b)
  {
    KeepSafeAppend(a + [c], b);
    KeepSafeAppend(a, [c]);
    assert [c][1..] == "";
  }

  /** A sanitized segment is the first 50 of the safe characters, or "general" if there are none. */
  lemma SanitizedSegment(folder: string)
    ensures (forall i :: 0 <= i < |folder| ==> !IsSafe(folder[i])) ==> SanitizeName(folder) == "general"
    ensures (exists i :: 0 <= i < |folder| && IsSafe(folder[i])) ==>
      && SanitizeName(folder) <= KeepSafe(folder) && |SanitizeName(folder)| <= 50
      && (|SanitizeName(folder)| < 50 ==> SanitizeName(folder) == KeepSafe(folder))
  {
    SafeLeft(folder);
  }

  lemma {:induction false} SafeLeft(s: string)
    ensures KeepSafe(s) == "" <==> forall i :: 0 <= i < |s| ==> !IsSafe(s[i])
  {
    if s != "" {
      SafeLeft(s[1..]);
      if !IsSafe(s[0]) && KeepSafe(s) == "" {
        forall i | 0 <= i < |s| ensures !IsSafe(s[i]) {
          assert i > 0 ==> s[1..][i - 1] == s[i];
        }
      }
      if KeepSafe(s[1..]) != "" {
        var i :| 0 <= i < |s[1..]| && IsSafe(s[1..][i]);
        assert s[i + 1] == s[1..][i];
      }
    }
  }
}
