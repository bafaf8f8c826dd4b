/**
 * Resolution of a `## ...` heading's text to a short language code
 * (`slugifyLanguage` and its synonym table `LANG_FALLBACKS`).
 */
module Languages {
  import opened Wrappers
  import opened Strings
  import opened Syntax

  /** 中文, 简体中文 and 繁體中文 as table keys. */
  const Zhongwen: string := "\U{4E2D}\U{6587}"
  const JiantiZhongwen: string := "\U{7B80}\U{4F53}\U{4E2D}\U{6587}"
  const FantiZhongwen: string := "\U{7E41}\U{9AD4}\U{4E2D}\U{6587}"

  /** `LANG_FALLBACKS`: lower-cased language names and their codes. */
  const LangFallbacks: map<string, string> := map[
    "english" := "en",
    "en" := "en",
    "chinese" := "zh",
    Zhongwen := "zh",
    JiantiZhongwen := "zh",
    "traditional chinese" := "zh-tw",
    FantiZhongwen := "zh-tw"
  ]

  predicate IsLetterOrHyphen(c: char) {
    'a' <= c <= 'z' || 'A' <= c <= 'Z' || c == '-'
  }

  /** The characters a code can hold once it has been lower-cased and filtered. */
  predicate IsCodeChar(c: char) {
    'a' <= c <= 'z' || c == '-'
  }

  /** `replace(/[^a-zA-Z-]/g, "")`. */
  function LettersAndHyphens(s: string): (r: string)
    ensures |r| <= |s|
    ensures forall i | 0 <= i < |r| :: IsLetterOrHyphen(r[i])
    ensures (forall i | 0 <= i < |s| :: !IsUpper(s[i])) ==> forall i | 0 <= i < |r| :: IsCodeChar(r[i])
  {
    if s == [] then []
    else (if IsLetterOrHyphen(s[0]) then [s[0]] else []) + LettersAndHyphens(s[1..])
  }

  /**
   * `slugifyLanguage`.  A parenthesised hint wins; the trimmed, lower-cased
   * text (hint or whole title) is looked up in the table, and otherwise
   * reduced to its letters and hyphens; a hint whose reduction is empty
   * stands for itself, lower-cased.
   */
  function SlugifyLanguage(title: string): (r: string)
    ensures MatchLanguageHint(title).Some? && Trim(MatchLanguageHint(title).value) != "" ==> r != ""
    ensures MatchLanguageHint(title).None? && ToLower(Trim(title)) !in LangFallbacks ==>
      forall i | 0 <= i < |r| :: IsCodeChar(r[i])
    ensures MatchLanguageHint(title).None? && ToLower(Trim(title)) in LangFallbacks ==>
      r == LangFallbacks[ToLower(Trim(title))]
  {
    match MatchLanguageHint(title)
    case Some(raw) => FromHint(ToLower(Trim(raw)))
    case None => FromName(ToLower(Trim(title)))
  }

  /** The code a trimmed, lower-cased hint stands for. */
  function FromHint(hint: string): (r: string)
    ensures hint != "" ==> r != ""
  {
    if hint in LangFallbacks then LangFallbacks[hint]
    else if LettersAndHyphens(hint) != "" then LettersAndHyphens(hint)
    else hint
  }

  /** The code a trimmed, lower-cased title without a hint stands for. */
  function FromName(normalized: string): (r: string)
    ensures normalized !in LangFallbacks && (forall i | 0 <= i < |normalized| :: !IsUpper(normalized[i])) ==>
      forall i | 0 <= i < |r| :: IsCodeChar(r[i])
  {
    if normalized in LangFallbacks then LangFallbacks[normalized]
    else LettersAndHyphens(normalized)
  }

  // ---------------------------------------------------------------------
  // Case does not matter

  lemma ToLowerIdempotent(s: string)
    ensures ToLower(ToLower(s)) == ToLower(s)
  {
  }

  lemma LowerOfLower(s: string)
    requires forall i | 0 <= i < |s| :: !IsUpper(s[i])
    ensures ToLower(s) == s
  {
  }

  lemma {:induction false} IndexOfLower(s: string)
    ensures IndexOf(ToLower(s), ')') == IndexOf(s, ')')
  {
    if s != [] {
      assert ToLower(s)[1..] == ToLower(s[1..]);
      IndexOfLower(s[1..]);
    }
  }

  /** The hint of a lower-cased title is the lower-cased hint. */
  lemma {:induction false} HintOfLower(s: string)
    ensures MatchLanguageHint(ToLower(s)) ==
      match MatchLanguageHint(s) case Some(h) => Some(ToLower(h)) case None => None
  {
    if s != [] {
      var l := ToLower(s);
      assert l[1..] == ToLower(s[1..]);
      IndexOfLower(s[1..]);
      HintOfLower(s[1..]);
      var k := IndexOf(s[1..], ')');
      if s[0] == '(' && k.Some? && k.value >= 1 {
        assert l[1..1 + k.value] == ToLower(s[1..1 + k.value]);
      }
    }
  }

  /** `slugifyLanguage` gives the same code for a title and its lower-cased form. */
  lemma {:induction false} SlugifyOfLower(title: string)
    ensures SlugifyLanguage(ToLower(title)) == SlugifyLanguage(title)
  {
    HintOfLower(title);
    match MatchLanguageHint(title)
    case Some(raw) =>
      LowerTrimLower(raw);
    case None =>
      LowerTrimLower(title);
  }

  lemma {:induction false} LowerTrimLower(s: string)
    ensures ToLower(Trim(ToLower(s))) == ToLower(Trim(s))
  {
    TrimLower(s);
    ToLowerIdempotent(Trim(s));
  }

  /** Two titles that differ only in letter case resolve to the same code. */
  lemma {:induction false} SlugifyIgnoresCase(a: string, b: string)
    requires ToLower(a) == ToLower(b)
    ensures SlugifyLanguage(a) == SlugifyLanguage(b)
  {
    SlugifyOfLower(a);
    SlugifyOfLower(b);
  }

  // ---------------------------------------------------------------------
  // The hint takes precedence

  /**
   * A title with a hint resolves as the hint alone would, except that a
   * hint with no letters stands for itself lower-cased.
   */
  lemma {:induction false} SlugifyByHint(title: string, hint: string)
    requires MatchLanguageHint(title) == Some(hint)
    ensures var alone := SlugifyLanguage(Trim(hint));
      SlugifyLanguage(title) == if alone == "" then ToLower(Trim(hint)) else alone
  {
    var t := Trim(hint);
    TrimKeepsChars(hint);
    HintNeedsClose(t);
    TrimIsTrimmed(hint);
    TrimmedIsFixpoint(t);
    assert SlugifyLanguage(t) == FromName(ToLower(t));
    FromHintByName(ToLower(t));
  }

  /** Every code in the table is non-empty. */
  lemma FallbackCodesNonEmpty()
    ensures forall k | k in LangFallbacks :: LangFallbacks[k] != ""
  {
  }

  /** A hint resolves like a bare title, except that a hint with no code stands for itself. */
  lemma {:induction false} FromHintByName(x: string)
    ensures FromHint(x) == if FromName(x) == "" then x else FromName(x)
  {
    FallbackCodesNonEmpty();
  }

  /** A text without `)` holds no hint. */
  lemma {:induction false} HintNeedsClose(s: string)
    requires forall i | 0 <= i < |s| :: s[i] != ')'
    ensures MatchLanguageHint(s).None?
  {
    if s != [] {
      HintNeedsClose(s[1..]);
    }
  }

  // ---------------------------------------------------------------------
  // Worked cases

  lemma {:induction false} HintSkipsPrefix(a: string, b: string)
    requires forall i | 0 <= i < |a| :: a[i] != '('
    ensures MatchLanguageHint(a + b) == MatchLanguageHint(b)
  {
    if a != [] {
      assert (a + b)[0] == a[0] != '(';
      assert (a + b)[1..] == a[1..] + b;
      HintSkipsPrefix(a[1..], b);
    } else {
      assert a + b == b;
    }
  }

  /** A character other than `(` cannot open the leftmost hint. */
  lemma {:induction false} HintSkipsChar(s: string)
    requires s != [] && s[0] != '('
    ensures MatchLanguageHint(s) == MatchLanguageHint(s[1..])
  {
  }

  lemma HintAtFront(inner: string, rest: string)
    requires inner != [] && forall i | 0 <= i < |inner| :: inner[i] != ')'
    ensures MatchLanguageHint("(" + inner + ")" + rest) == Some(inner)
  {
    var s := "(" + inner + ")" + rest;
    assert s[1..] == inner + ")" + rest;
    IndexOfFirst(s[1..], ')', |inner|);
    assert s[1..1 + |inner|] == inner;
  }

  /** A title without a hint is looked up, or reduced, as its trimmed lower-case text. */
  lemma SlugifyWithoutHint(title: string, normalized: string)
    requires forall i | 0 <= i < |title| :: title[i] != ')'
    requires ToLower(Trim(title)) == normalized
    ensures SlugifyLanguage(title) ==
      if normalized in LangFallbacks then LangFallbacks[normalized] else LettersAndHyphens(normalized)
  {
    HintNeedsClose(title);
  }

  lemma TrimmedText(s: string)
    requires s != [] && !IsSpace(s[0]) && !IsSpace(s[|s| - 1])
    ensures Trim(s) == s
  {
    TrimmedIsFixpoint(s);
  }
}
