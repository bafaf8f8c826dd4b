/**
 * Worked replies for `normalizeTags`: an empty reply, a clean JSON array,
 * case variants of one tag, and a prose reply that does not parse.
 */
module TagCases {
  import opened Strings
  import opened Tags
  import opened TagLaws

  /** An empty reply (on which `JSON.parse` throws) gives no tags. */
  lemma EmptyReply()
    ensures Normalize("", ParseFailed) == []
  {
    assert Split(StripBrackets(""), Delimiters) == [""];
    assert TrimEach([""]) == [""];
    assert Fallback("") == [];
  }

  lemma CatsIsTag()
    ensures IsTag("cats")
  {
  }

  lemma PetPhotographyIsTag()
    ensures IsTag("pet-photography")
  {
  }

  /** `["cats","pet-photography"]` comes back as it is. */
  lemma CleanListKept(content: string)
    ensures Normalize(content, ParsedArray([JString("cats"), JString("pet-photography")]))
      == ["cats", "pet-photography"]
  {
    var tags := ["cats", "pet-photography"];
    CatsIsTag();
    PetPhotographyIsTag();
    assert JsonStrings(tags) == [JString("cats"), JString("pet-photography")];
    CleanArrayKept(content, tags);
  }

  lemma VariantItems(a: string, b: string, c: string)
    ensures StringItems([JString(a), JString(b), JString(c)]) == [a] + ([b] + [c])
  {
    var items := [JString(a), JString(b), JString(c)];
    assert items[..0] == [];
    StringItemsNext(items, 0);
    StringItemsNext(items, 1);
    StringItemsNext(items, 2);
    assert items[..3] == items;
  }

  lemma UpperCleaned(t: string, upper: string)
    requires IsTag(t) && ToLower(upper) == t
    ensures CleanTag(upper) == t
  {
    CleanTagOfTagText(t);
    ToLowerOfTagText(t);
    CleanTagIgnoresCase(upper, t);
  }

  lemma ThreeDeduped(t: string)
    requires t != ""
    ensures Dedupe(NonEmpty([t] + ([t] + [t]))) == [t]
  {
    var three := [t] + ([t] + [t]);
    NonEmptyOfNonEmpty(three);
    assert [t][..0] == [];
    assert Dedupe([t]) == [t];
    assert three[..2] == [t, t];
    assert [t, t][..1] == [t];
    assert Dedupe([t, t]) == [t];
  }

  lemma CleanAllOne(c: string)
    ensures CleanAll([c]) == [CleanTag(c)]
  {
    assert [c][1..] == [];
  }

  lemma CleanAllThree(a: string, b: string, c: string)
    ensures CleanAll([a] + ([b] + [c])) == [CleanTag(a)] + ([CleanTag(b)] + [CleanTag(c)])
  {
    CleanAllOne(c);
    CleanAllCons(b, [c]);
    CleanAllCons(a, [b] + [c]);
  }

  /**
   * A tag, a case variant of it and a padded case variant of it collapse
   * into the one tag.
   */
  lemma VariantsCollapse(content: string, t: string, upper: string, padded: string)
    requires IsTag(t) && ToLower(upper) == t && ToLower(padded) == " " + t + " "
    ensures Normalize(content, ParsedArray([JString(upper), JString(t), JString(padded)])) == [t]
  {
    var parsed := ParsedArray([JString(upper), JString(t), JString(padded)]);
    var chosen := [upper] + ([t] + [padded]);
    VariantItems(upper, t, padded);
    assert Chosen(content, parsed) == chosen;
    CleanTagOfTagText(t);
    UpperCleaned(t, upper);
    CleanTagPadded(padded, t);
    CleanAllThree(upper, t, padded);
    assert CleanAll(chosen) == [t] + ([t] + [t]);
    ThreeDeduped(t);
  }

  lemma CatsLower()
    ensures ToLower("Cats") == "cats"
  {
  }

  lemma PaddedCatsLower()
    ensures ToLower(" CATS ") == " " + "cats" + " "
  {
  }

  /** `["Cats","cats"," CATS "]` gives `["cats"]`. */
  lemma CatsVariants(content: string)
    ensures Normalize(content, ParsedArray([JString("Cats"), JString("cats"), JString(" CATS ")])) == ["cats"]
  {
    CatsIsTag();
    CatsLower();
    PaddedCatsLower();
    VariantsCollapse(content, "cats", "Cats", " CATS ");
  }

  // ---------------------------------------------------------------------
  // A prose reply

  lemma FinishThree(x: string, y: string, z: string)
    requires x != "" && y != "" && z != ""
    requires x != y && x != z && y != z
    ensures Dedupe(NonEmpty([x] + ([y] + [z]))) == [x] + ([y] + [z])
  {
    var xs := [x] + ([y] + [z]);
    assert xs[0] == x && xs[1] == y && xs[2] == z;
    NonEmptyOfNonEmpty(xs);
    DedupeOfDistinct(xs);
  }

  /**
   * A reply that does not parse, made of three pieces separated by `, ` and
   * `; `, gives the three cleaned pieces, whatever prose they hold.
   */
  lemma DelimitedReply(a: string, b: string, c: string, ta: string, tb: string, tc: string)
    requires IsFallbackPiece(a) && IsFallbackPiece(b) && IsFallbackPiece(c)
    requires CleanTag(a) == ta && CleanTag(b) == tb && CleanTag(c) == tc
    requires ta != "" && tb != "" && tc != "" && ta != tb && ta != tc && tb != tc
    ensures Normalize(a + ", " + b + "; " + c, ParseFailed) == [ta] + ([tb] + [tc])
  {
    var content := a + ", " + b + "; " + c;
    FallbackOfThree(a, b, c);
    assert Chosen(content, ParseFailed) == [a] + ([b] + [c]);
    CleanAllThree(a, b, c);
    FinishThree(ta, tb, tc);
  }

  /** Only characters that are kept. */
  predicate AllKept(s: string) {
    forall i | 0 <= i < |s| :: IsKept(s[i])
  }

  /** Two characters that are not kept vanish from between three runs of kept ones. */
  lemma KeepPunctuated(w1: string, p1: char, w2: string, p2: char, w3: string)
    requires AllKept(w1) && AllKept(w2) && AllKept(w3) && !IsKept(p1) && !IsKept(p2)
    ensures KeepTagChars(w1 + [p1] + w2 + [p2] + w3) == w1 + w2 + w3
  {
    KeepDrops(w1 + [p1] + w2, p2, w3);
    KeepDrops(w1, p1, w2);
    KeepTagCharsOfKept(w1);
    KeepTagCharsOfKept(w2);
    KeepTagCharsOfKept(w3);
  }

  lemma SureLower(tag: string)
    requires tag == "Sure! Here are tags: cats"
    ensures ToLower(tag) == "sure! here are tags: cats"
  {
  }

  lemma SurePunctuation(lowered: string)
    requires lowered == "sure! here are tags: cats"
    ensures lowered == "sure" + ['!'] + " here are tags" + [':'] + " cats"
  {
  }

  lemma SureRunsKept()
    ensures AllKept("sure") && AllKept(" here are tags") && AllKept(" cats")
  {
  }

  lemma SureRejoined()
    ensures "sure" + " here are tags" + " cats" == "sure here are tags cats"
  {
  }

  /** `!` and `:` are deleted; letters and spaces stay. */
  lemma SureKept(lowered: string)
    requires lowered == "sure! here are tags: cats"
    ensures KeepTagChars(lowered) == "sure here are tags cats"
  {
    SurePunctuation(lowered);
    SureRunsKept();
    KeepPunctuated("sure", '!', " here are tags", ':', " cats");
    SureRejoined();
  }

  lemma SureWords(kept: string)
    requires kept == "sure here are tags cats"
    ensures kept == Join(["sure", "here", "are", "tags", "cats"], " ")
  {
  }

  lemma SureWordsAreTags()
    ensures forall i | 0 <= i < 5 :: IsTag(["sure", "here", "are", "tags", "cats"][i])
  {
  }

  lemma SureHyphenated()
    ensures Join(["sure", "here", "are", "tags", "cats"], "-") == "sure-here-are-tags-cats"
  {
  }

  /** Each space becomes a dash. */
  lemma SureDashed(kept: string)
    requires kept == "sure here are tags cats"
    ensures DashRuns(kept) == "sure-here-are-tags-cats"
  {
    SureWords(kept);
    SureWordsAreTags();
    DashRunsJoin(["sure", "here", "are", "tags", "cats"]);
    SureHyphenated();
  }

  lemma SureEnds(kept: string)
    requires kept == "sure here are tags cats"
    ensures IsTrimmed(kept)
  {
  }

  /** The prose before the first comma becomes one long tag. */
  lemma SureCleaned(tag: string)
    requires tag == "Sure! Here are tags: cats"
    ensures CleanTag(tag) == "sure-here-are-tags-cats"
  {
    SureLower(tag);
    var lowered := ToLower(tag);
    SureKept(lowered);
    var kept := KeepTagChars(lowered);
    SureEnds(kept);
    TrimmedKeepsEnds(kept);
    SureDashed(kept);
  }

  lemma PetPhotographyLower(tag: string)
    requires tag == "Pet Photography"
    ensures ToLower(tag) == Join(["pet", "photography"], " ")
  {
  }

  lemma PetPhotographyWords()
    ensures (forall i | 0 <= i < 2 :: IsTag(["pet", "photography"][i]))
      && Join(["pet", "photography"], "-") == "pet-photography"
  {
  }

  lemma PetPhotographyCleaned(tag: string)
    requires tag == "Pet Photography"
    ensures CleanTag(tag) == "pet-photography"
  {
    PetPhotographyLower(tag);
    var lowered := ToLower(tag);
    assert AllKept(lowered);
    KeepTagCharsOfKept(lowered);
    assert IsTrimmed(lowered);
    TrimmedKeepsEnds(lowered);
    PetPhotographyWords();
    DashRunsJoin(["pet", "photography"]);
  }

  lemma CuteAnimalCleaned(tag: string)
    requires tag == "cute-animal"
    ensures CleanTag(tag) == "cute-animal"
  {
    assert IsTagText(tag);
    CleanTagOfTagText(tag);
  }

  lemma SureIsPiece(tag: string)
    requires tag == "Sure! Here are tags: cats"
    ensures IsFallbackPiece(tag)
  {
  }

  lemma OtherPieces(b: string, c: string)
    requires b == "Pet Photography" && c == "cute-animal"
    ensures IsFallbackPiece(b) && IsFallbackPiece(c)
  {
  }

  lemma ProseParts(content: string)
    requires content == "Sure! Here are tags: cats, Pet Photography; cute-animal"
    ensures content == "Sure! Here are tags: cats" + ", " + "Pet Photography" + "; " + "cute-animal"
  {
  }

  lemma ProseTags()
    ensures ["sure-here-are-tags-cats", "pet-photography", "cute-animal"]
      == ["sure-here-are-tags-cats"] + (["pet-photography"] + ["cute-animal"])
  {
  }

  /**
   * `Sure! Here are tags: cats, Pet Photography; cute-animal` is not JSON:
   * the split keeps the prose, which ends up in the first tag.
   */
  lemma ProseReply()
    ensures Normalize("Sure! Here are tags: cats, Pet Photography; cute-animal", ParseFailed)
      == ["sure-here-are-tags-cats", "pet-photography", "cute-animal"]
  {
    var a, b, c := "Sure! Here are tags: cats", "Pet Photography", "cute-animal";
    ProseParts("Sure! Here are tags: cats, Pet Photography; cute-animal");
    SureIsPiece(a);
    OtherPieces(b, c);
    SureCleaned(a);
    PetPhotographyCleaned(b);
    CuteAnimalCleaned(c);
    DelimitedReply(a, b, c, "sure-here-are-tags-cats", "pet-photography", "cute-animal");
    ProseTags();
  }
}
