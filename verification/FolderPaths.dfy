/**
  How folder names become slugs (media-folders.service.ts) and how folder strings become
  paths on disk (storage.service.ts).
*/
module FolderPaths {

  // ---------------------------------------------------------------- characters

  /** White space as `\s` and `trim` see it. */
  predicate IsSpace(c: char) {
    || '\t' <= c <= '\r' || c == ' '
    || c == '\U{00A0}' || c == '\U{1680}' || '\U{2000}' <= c <= '\U{200A}'
    || c == '\U{2028}' || c == '\U{2029}' || c == '\U{202F}' || c == '\U{205F}'
    || c == '\U{3000}' || c == '\U{FEFF}'
  }

  predicate IsUpper(c: char) { 'A' <= c <= 'Z' }

  /** `[\w-]`, which is also what a folder name on disk may contain. */
  predicate IsSafe(c: char) {
    'a' <= c <= 'z' || IsUpper(c) || '0' <= c <= '9' || c == '_' || c == '-'
  }

  predicate IsAscii(s: string) { forall i :: 0 <= i < |s| ==> s[i] < '\U{0080}' }

  predicate NoUpper(s: string) { forall i :: 0 <= i < |s| ==> !IsUpper(s[i]) }

  predicate AllSafe(s: string) { forall i :: 0 <= i < |s| ==> IsSafe(s[i]) }

  /**
    What is used of `toLowerCase`, which the host provides: it leaves no ASCII capital, and
    an ASCII string without capitals is left alone.
  */
  ghost predicate LowerCases(lower: string -> string) {
    && (forall s :: NoUpper(lower(s)))
    && (forall s :: IsAscii(s) && NoUpper(s) ==> lower(s) == s)
  }

  // ---------------------------------------------------------------- toSlug

  function TrimStart(s: string): string {
    if s != "" && IsSpace(s[0]) then TrimStart(s[1..]) else s
  }

  function TrimEnd(s: string): string {
    if s != "" && IsSpace(s[|s| - 1]) then TrimEnd(s[..|s| - 1]) else s
  }

  /** `replace(/\s+/g, '-')` */
  function HyphenateSpaces(s: string): string
    decreases |s|
  {
    if s == "" then ""
    else if !IsSpace(s[0]) then [s[0]] + HyphenateSpaces(s[1..])
    else if |s| > 1 && IsSpace(s[1]) then HyphenateSpaces(s[1..])
    else "-" + HyphenateSpaces(s[1..])
  }

  /** `replace(/[^\w-]/g, '')` */
  function KeepSafe(s: string): string {
    if s == "" then "" else (if IsSafe(s[0]) then [s[0]] else "") + KeepSafe(s[1..])
  }

  /** `replace(/--+/g, '-')` */
  function CollapseHyphens(s: string): string {
    if s == "" then ""
    else if |s| > 1 && s[0] == '-' && s[1] == '-' then CollapseHyphens(s[1..])
    else [s[0]] + CollapseHyphens(s[1..])
  }

  function ToSlug(lower: string -> string, name: string): string {
    CollapseHyphens(KeepSafe(HyphenateSpaces(TrimEnd(TrimStart(lower(name))))))
  }

  predicate NoDoubleHyphen(s: string) {
    forall i :: 0 <= i < |s| - 1 ==> !(s[i] == '-' && s[i + 1] == '-')
  }

  /** What a slug looks like. */
  predicate SlugShaped(s: string) {
    AllSafe(s) && NoUpper(s) && NoDoubleHyphen(s)
  }

  lemma {:induction false} TrimNoUpper(s: string)
    requires NoUpper(s)
    ensures NoUpper(TrimStart(s)) && NoUpper(TrimEnd(s))
    decreases |s|
  {
    if s != "" {
      TrimNoUpper(s[1..]);
      TrimNoUpper(s[..|s| - 1]);
    }
  }

  lemma {:induction false} HyphenateNoUpper(s: string)
    requires NoUpper(s)
    ensures NoUpper(HyphenateSpaces(s))
    decreases |s|
  {
    if s != "" {
      HyphenateNoUpper(s[1..]);
    }
  }

  lemma {:induction false} KeepSafeIsSafe(s: string)
    ensures AllSafe(KeepSafe(s))
  {
    if s != "" {
      KeepSafeIsSafe(s[1..]);
    }
  }

  lemma {:induction false} KeepSafeNoUpper(s: string)
    requires NoUpper(s)
    ensures NoUpper(KeepSafe(s))
  {
    if s != "" {
      KeepSafeNoUpper(s[1..]);
    }
  }

  lemma {:induction false} KeepSafeOfSafe(s: string)
    requires AllSafe(s)
    ensures KeepSafe(s) == s
  {
    if s != "" {
      KeepSafeOfSafe(s[1..]);
    }
  }

  lemma {:induction false} CollapseHead(s: string)
    requires s != ""
    ensures CollapseHyphens(s) != "" && CollapseHyphens(s)[0] == s[0]
  {
    if |s| > 1 && s[0] == '-' && s[1] == '-' {
      CollapseHead(s[1..]);
    }
  }

  lemma {:induction false} CollapseNoDouble(s: string)
    ensures NoDoubleHyphen(CollapseHyphens(s))
  {
    if s != "" {
      CollapseNoDouble(s[1..]);
      if |s| > 1 {
        CollapseHead(s[1..]);
      }
      if !(|s| > 1 && s[0] == '-' && s[1] == '-') {
        CollapseHeadKeeps(s[0], CollapseHyphens(s[1..]), s[1..]);
      }
    }
  }

  lemma {:induction false} CollapseSafe(s: string)
    requires AllSafe(s) && NoUpper(s)
    ensures AllSafe(CollapseHyphens(s)) && NoUpper(CollapseHyphens(s))
  {
    if s != "" {
      CollapseSafe(s[1..]);
    }
  }

  lemma {:induction false} CollapseNothing(s: string)
    requires NoDoubleHyphen(s)
    ensures CollapseHyphens(s) == s
  {
    if s != "" {
      CollapseNothing(s[1..]);
    }
  }

  lemma CollapseHeadKeeps(c: char, rest: string, tail: string)
    requires NoDoubleHyphen(rest) && (rest != "" ==> tail != "" && rest[0] == tail[0])
    requires tail != "" ==> !(c == '-' && tail[0] == '-')
    ensures NoDoubleHyphen([c] + rest)
  {
    var s := [c] + rest;
    forall i | 0 <= i < |s| - 1 ensures !(s[i] == '-' && s[i + 1] == '-') {
      if i > 0 {
        assert s[i] == rest[i - 1] && s[i + 1] == rest[i];
      }
    }
  }

  lemma {:induction false} HyphenateNothing(s: string)
    requires AllSafe(s)
    ensures TrimStart(s) == s && TrimEnd(s) == s && HyphenateSpaces(s) == s
  {
    if s != "" {
      assert IsSafe(s[0]) && IsSafe(s[|s| - 1]);
      HyphenateNothing(s[1..]);
    }
  }

  lemma ToSlugShape(lower: string -> string, name: string)
    requires LowerCases(lower)
    ensures SlugShaped(ToSlug(lower, name))
  {
    var lowered := lower(name);
    TrimNoUpper(lowered);
    TrimNoUpper(TrimStart(lowered));
    var trimmed := TrimEnd(TrimStart(lowered));
    HyphenateNoUpper(trimmed);
    KeepSafeIsSafe(HyphenateSpaces(trimmed));
    KeepSafeNoUpper(HyphenateSpaces(trimmed));
    CollapseSafe(KeepSafe(HyphenateSpaces(trimmed)));
    CollapseNoDouble(KeepSafe(HyphenateSpaces(trimmed)));
  }

  /** The slugs are exactly the strings `toSlug` leaves alone. */
  lemma SlugShapedIsFixed(lower: string -> string, s: string)
    requires LowerCases(lower)
    ensures SlugShaped(s) <==> ToSlug(lower, s) == s
  {
    ToSlugShape(lower, s);
    if SlugShaped(s) {
      assert IsAscii(s) by {
        assert forall i :: 0 <= i < |s| ==> IsSafe(s[i]);
      }
      HyphenateNothing(s);
      KeepSafeOfSafe(s);
      CollapseNothing(s);
    }
  }

  lemma ToSlugIdempotent(lower: string -> string, name: string)
    requires LowerCases(lower)
    ensures ToSlug(lower, ToSlug(lower, name)) == ToSlug(lower, name)
  {
    ToSlugShape(lower, name);
    SlugShapedIsFixed(lower, ToSlug(lower, name));
  }

  // ---------------------------------------------------------------- split and join

  function Split(s: string): (parts: seq<string>)
    ensures parts != []
  {
    if s == "" then [""]
    else if s[0] == '/' then [""] + Split(s[1..])
    else
      var rest := Split(s[1..]);
      [[s[0]] + rest[0]] + rest[1..]
  }

  function Join(parts: seq<string>): string {
    if parts == [] then "" else if |parts| == 1 then parts[0] else parts[0] + "/" + Join(parts[1..])
  }

  ghost predicate NoSlash(s: string) {
    forall i :: 0 <= i < |s| ==> s[i] != '/'
  }

  lemma {:induction false} SplitPrefix(head: string, tail: string)
    requires NoSlash(head)
    ensures Split(head + tail) == [head + Split(tail)[0]] + Split(tail)[1..]
  {
    if head == "" {
      assert head + tail == tail;
      assert head + Split(tail)[0] == Split(tail)[0];
      assert [Split(tail)[0]] + Split(tail)[1..] == Split(tail);
    } else {
      SplitPrefix(head[1..], tail);
      assert (head + tail)[1..] == head[1..] + tail;
      assert [head[0]] + (head[1..] + Split(tail)[0]) == head + Split(tail)[0];
    }
  }

  /** Splitting a join gives the parts back. */
  lemma {:induction false} SplitJoin(parts: seq<string>)
    requires parts != [] && forall i :: 0 <= i < |parts| ==> NoSlash(parts[i])
    ensures Split(Join(parts)) == parts
  {
    if |parts| == 1 {
      SplitPrefix(parts[0], "");
      assert parts[0] + "" == parts[0];
      assert parts == [parts[0]];
    } else {
      var tail := "/" + Join(parts[1..]);
      SplitJoin(parts[1..]);
      assert tail[1..] == Join(parts[1..]);
      assert Split(tail) == [""] + parts[1..];
      SplitPrefix(parts[0], tail);
      assert parts[0] + "/" + Join(parts[1..]) == parts[0] + tail;
      assert parts[0] + "" == parts[0];
    }
  }

  // ---------------------------------------------------------------- sanitizing

  const MAX_SEGMENT := 50

  function SanitizeName(folder: string): string {
    var kept := KeepSafe(folder);
    var cut := if |kept| > MAX_SEGMENT then kept[..MAX_SEGMENT] else kept;
    if cut == "" then "general" else cut
  }

  function SanitizeParts(parts: seq<string>): (r: seq<string>)
    ensures |r| == |parts|
  {
    if parts == [] then [] else [SanitizeName(parts[0])] + SanitizeParts(parts[1..])
  }

  /** `filter(Boolean)` */
  function NonEmpty(parts: seq<string>): seq<string> {
    if parts == [] then [] else (if parts[0] == "" then [] else [parts[0]]) + NonEmpty(parts[1..])
  }

  function SanitizeChain(chain: string): string {
    var parts := NonEmpty(SanitizeParts(Split(chain)));
    if |parts| > 0 then Join(parts) else "general"
  }

  /** A segment that sanitizing leaves alone. */
  predicate Sane(s: string) {
    AllSafe(s) && 1 <= |s| <= MAX_SEGMENT
  }

  lemma SanitizeNameShape(folder: string)
    ensures Sane(SanitizeName(folder))
    ensures Sane(folder) ==> SanitizeName(folder) == folder
  {
    KeepSafeIsSafe(folder);
    if Sane(folder) {
      KeepSafeOfSafe(folder);
    }
  }

  lemma {:induction false} SanitizePartsShape(parts: seq<string>)
    ensures NonEmpty(SanitizeParts(parts)) == SanitizeParts(parts)
    ensures forall i :: 0 <= i < |parts| ==> SanitizeParts(parts)[i] == SanitizeName(parts[i]) && Sane(SanitizeParts(parts)[i])
  {
    if parts != [] {
      SanitizeNameShape(parts[0]);
      SanitizePartsShape(parts[1..]);
    }
  }

  lemma SafeHasNoSlash(s: string)
    requires AllSafe(s)
    ensures NoSlash(s)
  {
    forall i | 0 <= i < |s| ensures s[i] != '/' {
      assert IsSafe(s[i]);
    }
  }

  /** Sanitizing keeps the number of segments and sanitizes each one. */
  lemma SanitizeChainParts(chain: string)
    ensures SanitizeChain(chain) == Join(SanitizeParts(Split(chain)))
    ensures Split(SanitizeChain(chain)) == SanitizeParts(Split(chain))
  {
    var parts := SanitizeParts(Split(chain));
    SanitizePartsShape(Split(chain));
    forall i | 0 <= i < |parts| ensures NoSlash(parts[i]) {
      SafeHasNoSlash(parts[i]);
    }
    SplitJoin(parts);
  }

  lemma SanitizeChainIdempotent(chain: string)
    ensures SanitizeChain(SanitizeChain(chain)) == SanitizeChain(chain)
  {
    SanitizeChainParts(chain);
    SanitizeChainParts(SanitizeChain(chain));
    var parts := SanitizeParts(Split(chain));
    SanitizePartsShape(Split(chain));
    SanitizePartsShape(parts);
    forall i | 0 <= i < |parts| ensures SanitizeParts(parts)[i] == parts[i] {
      SanitizeNameShape(parts[i]);
    }
    assert SanitizeParts(parts) == parts;
  }

  /**
    A file uploaded to a folder is stored under exactly the folder's slug chain if and only
    if every slug of the chain is neither empty nor longer than a segment may be.
  */
  lemma StoredUnderItsChain(slugs: seq<string>)
    requires slugs != [] && forall i :: 0 <= i < |slugs| ==> SlugShaped(slugs[i])
    ensures SanitizeChain(Join(slugs)) == Join(slugs) <==> forall i :: 0 <= i < |slugs| ==> 1 <= |slugs[i]| <= MAX_SEGMENT
    ensures Split(SanitizeChain(Join(slugs))) == slugs <==> forall i :: 0 <= i < |slugs| ==> 1 <= |slugs[i]| <= MAX_SEGMENT
  {
    forall i | 0 <= i < |slugs| ensures NoSlash(slugs[i]) {
      SafeHasNoSlash(slugs[i]);
    }
    SplitJoin(slugs);
    SanitizeChainParts(Join(slugs));
    SanitizePartsShape(slugs);
    var stored := SanitizeParts(slugs);
    forall i | 0 <= i < |slugs| ensures stored[i] == slugs[i] <==> 1 <= |slugs[i]| <= MAX_SEGMENT {
      SanitizeNameShape(slugs[i]);
    }
    if stored == slugs {
    } else {
      assert Split(SanitizeChain(Join(slugs))) == stored != Split(Join(slugs));
    }
  }
}
