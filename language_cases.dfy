/** Worked cases of `slugifyLanguage` on concrete headings. */
module LanguageCases {
  import opened Wrappers
  import opened Strings
  import opened Syntax
  import opened Languages

  // Each worked case is assembled from single facts about literals, one
  // lemma per fact, so that no proof has to evaluate several at once.

  lemma LookupEnglish() ensures "english" in LangFallbacks && LangFallbacks["english"] == "en" {}
  lemma LookupChinese() ensures "chinese" in LangFallbacks && LangFallbacks["chinese"] == "zh" {}
  lemma LookupZhongwen() ensures Zhongwen in LangFallbacks && LangFallbacks[Zhongwen] == "zh" {}

  lemma EnglishIsTrimmed() ensures Trim("english") == "english" { TrimmedText("english"); }
  lemma EnglishIsLower() ensures ToLower("english") == "english" { LowerOfLower("english"); }

  lemma EnglishHasNoHint() ensures MatchLanguageHint("english").None? { HintNeedsClose("english"); }

  /** `## english` resolves to `en`. */
  lemma EnglishLowerCase()
    ensures SlugifyLanguage("english") == "en"
  {
    LookupEnglish();
    EnglishIsTrimmed();
    EnglishIsLower();
    EnglishHasNoHint();
  }

  lemma LowerEnglish() ensures ToLower("English") == "english" {}

  /** `## English` resolves to `en`, like `## english`. */
  lemma EnglishCapitalised()
    ensures SlugifyLanguage("English") == "en"
  {
    EnglishLowerCase();
    LowerEnglish();
    SlugifyIgnoresCase("English", "english");
  }

  lemma PaddedHasNoHint() ensures MatchLanguageHint("  ENGLISH ").None? { HintNeedsClose("  ENGLISH "); }

  lemma TrimStartPadded()
    ensures TrimStart("  ENGLISH ") == "ENGLISH "
  {
    var t := "  ENGLISH ";
    assert t[1..][1..] == "ENGLISH ";
    TrimStartOfNonSpace("ENGLISH ");
  }

  lemma TrimEndPadded()
    ensures TrimEnd("ENGLISH ") == "ENGLISH"
  {
    assert "ENGLISH "[..7] == "ENGLISH";
  }

  lemma LowerShouted() ensures ToLower("ENGLISH") == "english" {}

  /** `##   ENGLISH ` resolves to `en`: the heading text is trimmed before the lookup. */
  lemma EnglishPadded()
    ensures SlugifyLanguage("  ENGLISH ") == "en"
  {
    TrimStartPadded();
    TrimEndPadded();
    LowerShouted();
    LookupEnglish();
    PaddedHasNoHint();
  }

  lemma ZhongwenIsTrimmed() ensures Trim(Zhongwen) == Zhongwen { TrimmedText(Zhongwen); }
  lemma ZhongwenIsLower() ensures ToLower(Zhongwen) == Zhongwen { LowerOfLower(Zhongwen); }

  lemma ZhongwenHasNoHint() ensures MatchLanguageHint(Zhongwen).None? { HintNeedsClose(Zhongwen); }

  /** `## 中文` resolves to `zh`. */
  lemma ChineseHeading()
    ensures SlugifyLanguage(Zhongwen) == "zh"
  {
    LookupZhongwen();
    ZhongwenIsTrimmed();
    ZhongwenIsLower();
    ZhongwenHasNoHint();
  }

  /** 日本語, which the table does not hold. */
  function Nihongo(): string { "\U{65E5}\U{672C}\U{8A9E}" }

  lemma NihongoIsTrimmed() ensures Trim(Nihongo()) == Nihongo() { TrimmedText(Nihongo()); }
  lemma NihongoIsLower() ensures ToLower(Nihongo()) == Nihongo() { LowerOfLower(Nihongo()); }

  lemma NihongoHasNoHint() ensures MatchLanguageHint(Nihongo()).None? { HintNeedsClose(Nihongo()); }
  lemma NihongoNotListed() ensures Nihongo() !in LangFallbacks {}
  lemma NihongoHasNoLetters() ensures LettersAndHyphens(Nihongo()) == "" {}

  /** `## 日本語` is not in the table and has no ASCII letters: its code is empty. */
  lemma JapaneseHeading()
    ensures SlugifyLanguage(Nihongo()) == ""
  {
    NihongoIsTrimmed();
    NihongoIsLower();
    NihongoHasNoHint();
    NihongoNotListed();
    NihongoHasNoLetters();
  }

  lemma ChineseHintAtFront() ensures MatchLanguageHint("(Chinese)") == Some("Chinese")
  {
    HintAtFront("Chinese", "");
    assert "(" + "Chinese" + ")" + "" == "(Chinese)";
  }

  lemma ChineseHintFound()
    ensures MatchLanguageHint("Foo (Chinese)") == Some("Chinese")
  {
    var t := "Foo (Chinese)";
    HintSkipsChar(t);
    HintSkipsChar(t[1..]);
    HintSkipsChar(t[2..]);
    HintSkipsChar(t[3..]);
    assert t[1..][1..] == t[2..];
    assert t[2..][1..] == t[3..];
    assert t[3..][1..] == "(Chinese)";
    ChineseHintAtFront();
  }

  lemma ChineseHintIsTrimmed() ensures Trim("Chinese") == "Chinese" { TrimmedText("Chinese"); }
  lemma ChineseHintLowered() ensures ToLower("Chinese") == "chinese" {}

  /** The hint wins over the rest of the title: `Foo (Chinese)` is `zh`. */
  lemma ChineseHint()
    ensures SlugifyLanguage("Foo (Chinese)") == "zh"
  {
    ChineseHintFound();
    ChineseHintIsTrimmed();
    ChineseHintLowered();
    LookupChinese();
  }

  lemma UsHintAtFront() ensures MatchLanguageHint("(US)") == Some("US")
  {
    HintAtFront("US", "");
    assert "(" + "US" + ")" + "" == "(US)";
  }

  lemma UsHintFound()
    ensures MatchLanguageHint("X (US)") == Some("US")
  {
    var t := "X (US)";
    HintSkipsChar(t);
    HintSkipsChar(t[1..]);
    assert t[1..][1..] == "(US)";
    UsHintAtFront();
  }

  lemma UsHintIsTrimmed() ensures Trim("US") == "US" { TrimmedText("US"); }
  lemma UsHintLowered() ensures ToLower("US") == "us" {}
  lemma UsNotListed() ensures "us" !in LangFallbacks {}
  lemma UsLetters() ensures LettersAndHyphens("us") == "us" {}

  /** A hint outside the table is reduced to its letters: `X (US)` is `us`. */
  lemma UnknownHint()
    ensures SlugifyLanguage("X (US)") == "us"
  {
    UsHintFound();
    UsHintIsTrimmed();
    UsHintLowered();
    UsNotListed();
    UsLetters();
  }
}
