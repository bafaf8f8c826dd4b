/**
 * A worked document for `parsePrompts`: one `## English` section holding
 * two entries, the first with an author and a prompt continued on an
 * indented line, the second with only a category.
 */
module ParseCases {
  import opened Strings
  import opened Syntax
  import opened Languages
  import opened Entries
  import opened Parser
  import opened EntryCases
  import opened LanguageCases

  /** A line that starts with neither `#` nor a line terminator is block text. */
  lemma BlockLine(line: string)
    requires line != [] && line[0] != '#' && NoLineTerminator(line)
    ensures ClassifyMd(line) == TextLine(line)
  {
    assert !IsLineTerminator(line[|line| - 1]);
  }

  /** A block line written as a fixed lead-in followed by a one-line value. */
  lemma LeadInLine(leadIn: string, v: string)
    requires leadIn != [] && leadIn[0] != '#' && NoLineTerminator(leadIn) && NoLineTerminator(v)
    ensures ClassifyMd(leadIn + v) == TextLine(leadIn + v)
  {
    var line := leadIn + v;
    assert forall i | 0 <= i < |line| :: line[i] == if i < |leadIn| then leadIn[i] else v[i - |leadIn|];
    BlockLine(line);
  }

  lemma AuthorLeadIn(p: string)
    requires p == "- Author: "
    ensures p != [] && p[0] != '#' && NoLineTerminator(p)
  {
  }

  lemma PromptLeadIn(p: string)
    requires p == "- Prompt: "
    ensures p != [] && p[0] != '#' && NoLineTerminator(p)
  {
  }

  lemma CategoryLeadIn(p: string)
    requires p == "- Category: "
    ensures p != [] && p[0] != '#' && NoLineTerminator(p)
  {
  }

  lemma IndentLeadIn(p: string)
    requires p == "  "
    ensures p != [] && p[0] != '#' && NoLineTerminator(p)
  {
  }

  /** A title the heading line gives back unchanged. */
  predicate IsTitle(t: string) {
    t != [] && NoLineTerminator(t) && IsTrimmed(t)
  }

  lemma TitleLine(t: string)
    requires IsTitle(t)
    ensures ClassifyMd("### " + t) == EntryHeading(t)
  {
    EntryHeadingLine(t);
    TrimmedKeepsEnds(t);
  }

  lemma EnglishLine()
    ensures ClassifyMd("## English") == LanguageHeading("en")
  {
    assert "## English" == "## " + "English";
    LanguageHeadingLine("English");
    EnglishCapitalised();
  }

  /** The two sections of the worked document. */
  function WorkedSections(t1: string, author: string, prompt: string, more: string, t2: string, category: string)
    : seq<Section>
  {
    [Section(t1, ["- Author: " + author, "- Prompt: " + prompt, "  " + more]),
     Section(t2, ["- Category: " + category])]
  }

  function WorkedDocument(t1: string, author: string, prompt: string, more: string, t2: string, category: string)
    : seq<string>
  {
    ["## English", "### " + t1, "- Author: " + author, "- Prompt: " + prompt, "  " + more,
     "### " + t2, "- Category: " + category]
  }

  lemma TwoSectionLines(s1: Section, s2: Section)
    ensures SectionLines([s1, s2])
      == [EntryHeading(s1.title)] + TextLines(s1.body) + [EntryHeading(s2.title)] + TextLines(s2.body)
  {
    var a, b := [EntryHeading(s1.title)] + TextLines(s1.body), [EntryHeading(s2.title)] + TextLines(s2.body);
    assert [s1, s2][..1] == [s1];
    assert [s1][..0] == [];
    assert SectionLines([s1]) == [] + [EntryHeading(s1.title)] + TextLines(s1.body);
    assert SectionLines([s1]) == a;
    assert SectionLines([s1, s2]) == a + [EntryHeading(s2.title)] + TextLines(s2.body);
  }

  /** A document whose lines classify one by one as `expected`. */
  lemma ClassifiedAs(doc: seq<string>, expected: seq<MdLine>)
    requires |doc| == |expected|
    requires forall i | 0 <= i < |doc| :: ClassifyMd(doc[i]) == expected[i]
    ensures ClassifyDocument(doc) == expected
  {
  }

  lemma ThreeTextLines(body: seq<string>)
    requires |body| == 3
    ensures TextLines(body) == [TextLine(body[0]), TextLine(body[1]), TextLine(body[2])]
  {
  }

  lemma OneTextLine(body: seq<string>)
    requires |body| == 1
    ensures TextLines(body) == [TextLine(body[0])]
  {
  }

  /** The lines of two sections under one language heading, one by one. */
  lemma SectionsFlat(code: string, s1: Section, s2: Section)
    requires |s1.body| == 3 && |s2.body| == 1
    ensures [LanguageHeading(code)] + SectionLines([s1, s2])
      == [LanguageHeading(code), EntryHeading(s1.title), TextLine(s1.body[0]), TextLine(s1.body[1]),
          TextLine(s1.body[2]), EntryHeading(s2.title), TextLine(s2.body[0])]
  {
    TwoSectionLines(s1, s2);
    ThreeTextLines(s1.body);
    OneTextLine(s2.body);
  }

  /** The block lines of the worked document. */
  lemma WorkedBlockLines(author: string, prompt: string, more: string, category: string)
    requires NoLineTerminator(author) && NoLineTerminator(prompt) && NoLineTerminator(more)
    requires NoLineTerminator(category)
    ensures ClassifyMd("- Author: " + author) == TextLine("- Author: " + author)
    ensures ClassifyMd("- Prompt: " + prompt) == TextLine("- Prompt: " + prompt)
    ensures ClassifyMd("  " + more) == TextLine("  " + more)
    ensures ClassifyMd("- Category: " + category) == TextLine("- Category: " + category)
  {
    AuthorLeadIn("- Author: ");
    LeadInLine("- Author: ", author);
    PromptLeadIn("- Prompt: ");
    LeadInLine("- Prompt: ", prompt);
    IndentLeadIn("  ");
    LeadInLine("  ", more);
    CategoryLeadIn("- Category: ");
    LeadInLine("- Category: ", category);
  }

  /** The worked document, classified line by line. */
  lemma WorkedClassified(t1: string, author: string, prompt: string, more: string, t2: string, category: string)
    requires IsTitle(t1) && IsTitle(t2)
    requires IsValue(author) && IsValue(prompt) && IsValue(category) && IsValue(more)
    ensures ClassifyDocument(WorkedDocument(t1, author, prompt, more, t2, category))
      == [LanguageHeading("en")] + SectionLines(WorkedSections(t1, author, prompt, more, t2, category))
  {
    var doc := WorkedDocument(t1, author, prompt, more, t2, category);
    var secs := WorkedSections(t1, author, prompt, more, t2, category);
    SectionsFlat("en", secs[0], secs[1]);
    EnglishLine();
    TitleLine(t1);
    TitleLine(t2);
    WorkedBlockLines(author, prompt, more, category);
    var expected := [LanguageHeading("en"), EntryHeading(t1), TextLine(doc[2]), TextLine(doc[3]), TextLine(doc[4]),
                     EntryHeading(t2), TextLine(doc[6])];
    forall i | 0 <= i < 7 ensures ClassifyMd(doc[i]) == expected[i] {
      if i == 0 {
      } else if i == 1 {
      } else if i == 2 {
      } else if i == 3 {
      } else if i == 4 {
      } else if i == 5 {
      } else {
        assert i == 6;
      }
    }
    ClassifiedAs(doc, expected);
  }

  /** Two sections under one language heading, starting from nothing. */
  lemma {:induction false} OneLanguage(build: (string, seq<string>) -> Entry, code: string, sections: seq<Section>)
    requires code != ""
    requires forall i | 0 <= i < |sections| :: sections[i].title != ""
    ensures Flush(build, Scan(build, Start, [LanguageHeading(code)] + SectionLines(sections))).groups
      == CommittedGroups(build, map[], code, sections)
  {
    var open := ScanState(map[], code, "", []);
    assert [LanguageHeading(code)][..0] == [];
    assert Scan(build, Start, [LanguageHeading(code)]) == open;
    ScanAppend(build, Start, [LanguageHeading(code)], SectionLines(sections));
    LanguageSection(build, map[], code, sections);
  }

  lemma CommittedTwo(build: (string, seq<string>) -> Entry, s1: Section, s2: Section)
    ensures Committed(build, [], [s1, s2])
      == [build(s1.title, s1.body).(id := 1), build(s2.title, s2.body).(id := 2)]
  {
    assert [s1, s2][..1] == [s1];
    assert [s1][..0] == [];
  }

  /** The worked document parses to one group, `en`, holding its two blocks' records numbered 1 and 2. */
  lemma WorkedGroups(t1: string, author: string, prompt: string, more: string, t2: string, category: string)
    requires IsTitle(t1) && IsTitle(t2)
    requires IsValue(author) && IsValue(prompt) && IsValue(category) && IsValue(more)
    ensures var secs := WorkedSections(t1, author, prompt, more, t2, category);
      Parse(WorkedDocument(t1, author, prompt, more, t2, category))
        == map["en" := [Build(t1, secs[0].body).(id := 1), Build(t2, secs[1].body).(id := 2)]]
  {
    var secs := WorkedSections(t1, author, prompt, more, t2, category);
    WorkedClassified(t1, author, prompt, more, t2, category);
    OneLanguage(Build, "en", secs);
    CommittedTwo(Build, secs[0], secs[1]);
  }

  /**
   * The document parses to one group, `en`, holding the two records in
   * order, numbered 1 and 2, the first prompt joined with its continuation
   * line.
   */
  lemma WorkedParse(t1: string, author: string, prompt: string, more: string, t2: string, category: string)
    requires IsTitle(t1) && IsTitle(t2)
    requires IsValue(author) && IsValue(prompt) && prompt != "" && IsValue(category)
    requires more != [] && IsValue(more) && more[0] != '-'
    ensures var g := Parse(WorkedDocument(t1, author, prompt, more, t2, category));
      g.Keys == {"en"} && |g["en"]| == 2
      && g["en"][0].id == 1 && g["en"][0].title == t1 && g["en"][0].author == author
      && g["en"][0].prompt == prompt + "\n" + more && g["en"][0].category == ""
      && g["en"][1].id == 2 && g["en"][1].title == t2 && g["en"][1].category == category
      && g["en"][1].author == "" && g["en"][1].prompt == ""
  {
    var secs := WorkedSections(t1, author, prompt, more, t2, category);
    WorkedGroups(t1, author, prompt, more, t2, category);
    AuthorAndPrompt(t1, author, prompt, more);
    CategoryOnly(t2, category);
    var e1, e2 := Build(t1, secs[0].body), Build(t2, secs[1].body);
    assert e1.title == t1 && e1.author == author && e1.prompt == prompt + "\n" + more && e1.category == "";
    assert e2.title == t2 && e2.category == category && e2.author == "" && e2.prompt == "";
  }

  // The concrete document

  lemma CatPortraitTitle(t: string) requires t == "Cat Portrait" ensures IsTitle(t) {}
  lemma DogPortraitTitle(t: string) requires t == "Dog Portrait" ensures IsTitle(t) {}
  lemma JaneValue(v: string) requires v == "Jane" ensures IsValue(v) {}
  lemma DrawValue(v: string) requires v == "Draw a cat" ensures IsValue(v) && v != "" {}
  lemma SittingValue(v: string) requires v == "sitting on a windowsill" ensures IsValue(v) && v != [] && v[0] != '-' {}
  lemma AnimalsValue(v: string) requires v == "Animals" ensures IsValue(v) {}

  lemma CatPortraitLines(doc: seq<string>)
    requires doc == ["## English", "### Cat Portrait", "- Author: Jane", "- Prompt: Draw a cat",
                     "  sitting on a windowsill", "### Dog Portrait", "- Category: Animals"]
    ensures doc == WorkedDocument("Cat Portrait", "Jane", "Draw a cat", "sitting on a windowsill", "Dog Portrait", "Animals")
  {
    assert "### " + "Cat Portrait" == "### Cat Portrait";
    assert "- Author: " + "Jane" == "- Author: Jane";
    assert "- Prompt: " + "Draw a cat" == "- Prompt: Draw a cat";
    assert "  " + "sitting on a windowsill" == "  sitting on a windowsill";
    assert "### " + "Dog Portrait" == "### Dog Portrait";
    assert "- Category: " + "Animals" == "- Category: Animals";
  }

  lemma CatPortraitPrompt()
    ensures "Draw a cat" + "\n" + "sitting on a windowsill" == "Draw a cat\nsitting on a windowsill"
  {
  }

  /**
   * `## English`, `### Cat Portrait`, `- Author: Jane`, `- Prompt: Draw a cat`,
   * `  sitting on a windowsill`, `### Dog Portrait`, `- Category: Animals`
   * gives two records under `en`: number 1 with the two prompt lines joined,
   * number 2 with the category.
   */
  lemma CatPortraitDocument(doc: seq<string>)
    requires doc == ["## English", "### Cat Portrait", "- Author: Jane", "- Prompt: Draw a cat",
                     "  sitting on a windowsill", "### Dog Portrait", "- Category: Animals"]
    ensures var g := Parse(doc);
      g.Keys == {"en"} && |g["en"]| == 2
      && g["en"][0].id == 1 && g["en"][0].title == "Cat Portrait" && g["en"][0].author == "Jane"
      && g["en"][0].prompt == "Draw a cat\nsitting on a windowsill"
      && g["en"][1].id == 2 && g["en"][1].title == "Dog Portrait" && g["en"][1].category == "Animals"
  {
    CatPortraitTitle("Cat Portrait");
    DogPortraitTitle("Dog Portrait");
    JaneValue("Jane");
    DrawValue("Draw a cat");
    SittingValue("sitting on a windowsill");
    AnimalsValue("Animals");
    CatPortraitLines(doc);
    WorkedParse("Cat Portrait", "Jane", "Draw a cat", "sitting on a windowsill", "Dog Portrait", "Animals");
    CatPortraitPrompt();
  }
}
