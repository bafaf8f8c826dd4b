/**
 * `parsePrompts`: a markdown document becomes the prompt records grouped by
 * language code.  `## <language>` opens a language section, `### <title>` an
 * entry, and the lines after an entry heading are its block; an entry is
 * committed, with the next id of its language, when the next heading or the
 * end of the document closes it.
 *
 * As for `buildEntry`, each line is first classified, `ScanLine` and `Flush`
 * state one line's effect and the closure `flushBlock` on a `ScanState`,
 * and the method `ParsePrompts` is the source's loop, proved to agree.  The
 * grouping does not depend on how a block becomes a record, so the
 * functions that state it take the record builder as a parameter; `Parse`
 * passes `Build`, the model of `buildEntry`.
 */
module Parser {
  import opened Wrappers
  import opened Strings
  import opened Syntax
  import opened Languages
  import opened Entries

  /** A document line once the heading patterns have been tried. */
  datatype MdLine =
    | LanguageHeading(code: string)   // `## text`, already turned into its code
    | EntryHeading(title: string)     // `### text`, trimmed
    | TextLine(text: string)          // anything else

  function ClassifyMd(rawLine: string): (r: MdLine)
    ensures var line := StripTrailingNewline(rawLine);
      (r.LanguageHeading? <==> MatchLanguageHeading(line).Some?)
      && (r.EntryHeading? <==> MatchLanguageHeading(line).None? && MatchEntryHeading(line).Some?)
      && (r.TextLine? ==> r.text == line)
    ensures r.EntryHeading? ==> IsTrimmed(r.title)
  {
    var line := StripTrailingNewline(rawLine);
    match MatchLanguageHeading(line)
    case Some(text) => LanguageHeading(SlugifyLanguage(text))
    case None =>
      match MatchEntryHeading(line)
      case Some(text) =>
        TrimIsTrimmed(text);
        EntryHeading(Trim(text))
      case None => TextLine(line)
  }

  function ClassifyDocument(lines: seq<string>): (r: seq<MdLine>)
    ensures |r| == |lines| && forall i | 0 <= i < |lines| :: r[i] == ClassifyMd(lines[i])
  {
    seq(|lines|, i requires 0 <= i < |lines| => ClassifyMd(lines[i]))
  }

  /** `promptsByLang`, and `currentLang`, `currentTitle` ("" for null) and `blockLines`. */
  datatype ScanState = ScanState(groups: map<string, seq<Entry>>, lang: string, title: string, blockLines: seq<string>)

  const Start := ScanState(map[], "", "", [])

  /** `promptsByLang[lang] || []`. */
  function Group(groups: map<string, seq<Entry>>, lang: string): seq<Entry> {
    if lang in groups then groups[lang] else []
  }

  /** The record for the open entry, numbered after the entries its language already has. */
  function Numbered(build: (string, seq<string>) -> Entry, s: ScanState): Entry {
    build(s.title, s.blockLines).(id := |Group(s.groups, s.lang)| + 1)
  }

  /** `flushBlock`. */
  function Flush(build: (string, seq<string>) -> Entry, s: ScanState): ScanState
  {
    if s.lang == "" || s.title == "" then
      s.(blockLines := [])
    else
      ScanState(s.groups[s.lang := Group(s.groups, s.lang) + [Numbered(build, s)]], s.lang, "", [])
  }

  /** One pass of the loop over the document's lines. */
  function ScanLine(build: (string, seq<string>) -> Entry, s: ScanState, line: MdLine): ScanState
  {
    match line
    case LanguageHeading(code) => Flush(build, s).(lang := code)
    case EntryHeading(title) => Flush(build, s).(title := title)
    case TextLine(text) => if s.lang != "" then s.(blockLines := s.blockLines + [text]) else s
  }

  /** The state after the given lines, starting from `s`. */
  function Scan(build: (string, seq<string>) -> Entry, s: ScanState, lines: seq<MdLine>): ScanState
  {
    if lines == [] then s else ScanLine(build, Scan(build, s, lines[..|lines| - 1]), lines[|lines| - 1])
  }

  /** What `parsePrompts(lines)` returns. */
  function Parse(lines: seq<string>): map<string, seq<Entry>>
  {
    Flush(Build, Scan(Build, Start, ClassifyDocument(lines))).groups
  }

  // ---------------------------------------------------------------------
  // The source's loop

  /** `flushBlock`, the closure over `promptsByLang`, `currentTitle` and `blockLines`. */
  method FlushBlock(promptsByLang: map<string, seq<Entry>>, currentLang: string, currentTitle: string, blockLines: seq<string>)
    returns (promptsByLang': map<string, seq<Entry>>, currentTitle': string, blockLines': seq<string>)
    ensures ScanState(promptsByLang', currentLang, currentTitle', blockLines')
      == Flush(Build, ScanState(promptsByLang, currentLang, currentTitle, blockLines))
  {
    promptsByLang', currentTitle' := promptsByLang, currentTitle;
    if currentLang == "" || currentTitle == "" {
      blockLines' := [];
      return;
    }
    ghost var s := ScanState(promptsByLang, currentLang, currentTitle, blockLines);
    var entry := BuildEntry(currentTitle, blockLines);
    if currentLang !in promptsByLang' {
      promptsByLang' := promptsByLang'[currentLang := []];
    }
    var group := promptsByLang'[currentLang];
    entry := entry.(id := |group| + 1);
    LazyGroup(promptsByLang, currentLang, group + [entry]);
    assert entry == Numbered(Build, s);
    promptsByLang' := promptsByLang'[currentLang := group + [entry]];
    blockLines' := [];
    currentTitle' := "";
    assert promptsByLang' == Flush(Build, s).groups;
  }

  /** Creating the missing group first and then replacing it is replacing it. */
  lemma LazyGroup(groups: map<string, seq<Entry>>, lang: string, g: seq<Entry>)
    ensures (if lang in groups then groups else groups[lang := []])[lang := g] == groups[lang := g]
    ensures Group(if lang in groups then groups else groups[lang := []], lang) == Group(groups, lang)
  {
  }

  /** `parsePrompts`. */
  method ParsePrompts(lines: seq<string>) returns (promptsByLang: map<string, seq<Entry>>)
    ensures promptsByLang == Parse(lines)
  {
    promptsByLang := map[];
    var currentLang := "";
    var currentTitle := "";
    var blockLines: seq<string> := [];
    for i := 0 to |lines|
      invariant ScanState(promptsByLang, currentLang, currentTitle, blockLines)
        == Scan(Build, Start, ClassifyDocument(lines)[..i])
    {
      ScanNext(Build, Start, ClassifyDocument(lines), i);
      var line := StripTrailingNewline(lines[i]);
      var langMatch := MatchLanguageHeading(line);
      if langMatch.Some? {
        promptsByLang, currentTitle, blockLines := FlushBlock(promptsByLang, currentLang, currentTitle, blockLines);
        currentLang := SlugifyLanguage(langMatch.value);
        continue;
      }
      var titleMatch := MatchEntryHeading(line);
      if titleMatch.Some? {
        promptsByLang, currentTitle, blockLines := FlushBlock(promptsByLang, currentLang, currentTitle, blockLines);
        currentTitle := Trim(titleMatch.value);
        continue;
      }
      if currentLang != "" {
        blockLines := blockLines + [line];
      }
    }
    assert ClassifyDocument(lines)[..|lines|] == ClassifyDocument(lines);
    promptsByLang, currentTitle, blockLines := FlushBlock(promptsByLang, currentLang, currentTitle, blockLines);
  }

  // ---------------------------------------------------------------------
  // Reading the document

  /** Reading `xs` then `ys` is reading `xs + ys`. */
  lemma {:induction false} ScanAppend(build: (string, seq<string>) -> Entry, s: ScanState, xs: seq<MdLine>, ys: seq<MdLine>)
    ensures Scan(build, s, xs + ys) == Scan(build, Scan(build, s, xs), ys)
  {
    if ys == [] {
      assert xs + ys == xs;
    } else {
      var n := |ys| - 1;
      assert (xs + ys)[..|xs + ys| - 1] == xs + ys[..n];
      ScanAppend(build, s, xs, ys[..n]);
    }
  }

  /** One more line is one more step. */
  lemma ScanNext(build: (string, seq<string>) -> Entry, s: ScanState, ls: seq<MdLine>, i: nat)
    requires i < |ls|
    ensures Scan(build, s, ls[..i + 1]) == ScanLine(build, Scan(build, s, ls[..i]), ls[i])
  {
    assert ls[..i + 1][..i] == ls[..i];
  }

  /** A flush changes no group but the open entry's language, and that one only by appending the entry. */
  lemma FlushGroups(build: (string, seq<string>) -> Entry, s: ScanState)
    ensures var r := Flush(build, s);
      r.lang == s.lang && r.blockLines == []
      && (s.lang == "" || s.title == "" ==> r.groups == s.groups && r.title == s.title)
      && (s.lang != "" && s.title != "" ==>
            r.title == "" && r.groups.Keys == s.groups.Keys + {s.lang}
            && r.groups[s.lang] == Group(s.groups, s.lang) + [Numbered(build, s)])
    ensures forall l | l != s.lang && l in s.groups :: l in Flush(build, s).groups && Flush(build, s).groups[l] == s.groups[l]
  {
  }

  // Numbering

  /** Every group is non-empty and its ids are 1, 2, ... in order. */
  predicate WellNumbered(groups: map<string, seq<Entry>>) {
    forall l | l in groups :: groups[l] != [] && forall j | 0 <= j < |groups[l]| :: groups[l][j].id == j + 1
  }

  lemma FlushNumbers(build: (string, seq<string>) -> Entry, s: ScanState)
    requires WellNumbered(s.groups)
    ensures WellNumbered(Flush(build, s).groups)
  {
    FlushGroups(build, s);
  }

  lemma ScanLineNumbers(build: (string, seq<string>) -> Entry, s: ScanState, line: MdLine)
    requires WellNumbered(s.groups)
    ensures WellNumbered(ScanLine(build, s, line).groups)
  {
    FlushNumbers(build, s);
  }

  lemma {:induction false} ScanNumbers(build: (string, seq<string>) -> Entry, s: ScanState, lines: seq<MdLine>)
    requires WellNumbered(s.groups)
    ensures WellNumbered(Scan(build, s, lines).groups)
  {
    if lines != [] {
      var n := |lines| - 1;
      ScanNumbers(build, s, lines[..n]);
      ScanLineNumbers(build, Scan(build, s, lines[..n]), lines[n]);
    }
  }

  /** Each language's records are numbered 1, 2, ... in document order, and no language is empty. */
  lemma ParseNumbered(lines: seq<string>)
    ensures WellNumbered(Parse(lines))
  {
    var ls := ClassifyDocument(lines);
    ScanNumbers(Build, Start, ls);
    FlushNumbers(Build, Scan(Build, Start, ls));
  }

  // Growth

  /** What a state holds is kept, each group as a prefix of what it becomes. */
  predicate Extends(before: map<string, seq<Entry>>, after: map<string, seq<Entry>>) {
    forall l | l in before :: l in after && before[l] <= after[l]
  }

  lemma ExtendsTransitive(a: map<string, seq<Entry>>, b: map<string, seq<Entry>>, c: map<string, seq<Entry>>)
    requires Extends(a, b) && Extends(b, c)
    ensures Extends(a, c)
  {
  }

  lemma FlushExtends(build: (string, seq<string>) -> Entry, s: ScanState)
    ensures Extends(s.groups, Flush(build, s).groups)
  {
    FlushGroups(build, s);
  }

  lemma ScanLineExtends(build: (string, seq<string>) -> Entry, s: ScanState, line: MdLine)
    ensures Extends(s.groups, ScanLine(build, s, line).groups)
  {
    FlushExtends(build, s);
  }

  lemma {:induction false} ScanExtends(build: (string, seq<string>) -> Entry, s: ScanState, lines: seq<MdLine>)
    ensures Extends(s.groups, Scan(build, s, lines).groups)
  {
    if lines != [] {
      var n := |lines| - 1;
      var t := Scan(build, s, lines[..n]);
      ScanExtends(build, s, lines[..n]);
      ScanLineExtends(build, t, lines[n]);
      ExtendsTransitive(s.groups, t.groups, ScanLine(build, t, lines[n]).groups);
    }
  }

  lemma AppendExtends(build: (string, seq<string>) -> Entry, xs: seq<MdLine>, ys: seq<MdLine>)
    ensures Extends(Scan(build, Start, xs).groups, Flush(build, Scan(build, Start, xs + ys)).groups)
  {
    ScanAppend(build, Start, xs, ys);
    var t := Scan(build, Start, xs);
    var u := Scan(build, t, ys);
    ScanExtends(build, t, ys);
    FlushExtends(build, u);
    ExtendsTransitive(t.groups, u.groups, Flush(build, u).groups);
  }

  /** The groups after a prefix of the lines are extended by the groups at the end. */
  lemma PrefixExtends(build: (string, seq<string>) -> Entry, ls: seq<MdLine>, i: nat)
    requires i <= |ls|
    ensures Extends(Scan(build, Start, ls[..i]).groups, Flush(build, Scan(build, Start, ls)).groups)
  {
    assert ls[..i] + ls[i..] == ls;
    AppendExtends(build, ls[..i], ls[i..]);
  }

  /**
   * Records are only ever appended: the groups read from a prefix of the
   * document are prefixes of the groups read from all of it.
   */
  lemma GroupsOnlyGrow(lines: seq<string>, i: nat)
    requires i <= |lines|
    ensures Extends(Scan(Build, Start, ClassifyDocument(lines)[..i]).groups, Parse(lines))
  {
    PrefixExtends(Build, ClassifyDocument(lines), i);
  }

  // Before the first language heading

  /** The title of the last entry heading among `lines`, "" when there is none. */
  function LastTitle(lines: seq<MdLine>): string {
    if lines == [] then ""
    else if lines[|lines| - 1].EntryHeading? then lines[|lines| - 1].title
    else LastTitle(lines[..|lines| - 1])
  }

  /**
   * Until a language heading is read nothing is recorded or buffered; only
   * the last entry title is remembered, and it carries over into the first
   * language section.
   */
  lemma {:induction false} Preamble(build: (string, seq<string>) -> Entry, lines: seq<MdLine>)
    requires forall i | 0 <= i < |lines| :: !lines[i].LanguageHeading?
    ensures Scan(build, Start, lines) == ScanState(map[], "", LastTitle(lines), [])
  {
    if lines != [] {
      Preamble(build, lines[..|lines| - 1]);
    }
  }

  /** A document without a language heading yields no records at all. */
  lemma WithoutLanguageHeading(lines: seq<string>)
    requires forall i | 0 <= i < |lines| :: MatchLanguageHeading(StripTrailingNewline(lines[i])).None?
    ensures Parse(lines) == map[]
  {
    Preamble(Build, ClassifyDocument(lines));
  }

  // Sections

  /** An entry heading and the lines of its block. */
  datatype Section = Section(title: string, body: seq<string>)

  function TextLines(body: seq<string>): (r: seq<MdLine>)
    ensures |r| == |body| && forall i | 0 <= i < |body| :: r[i] == TextLine(body[i])
  {
    seq(|body|, i requires 0 <= i < |body| => TextLine(body[i]))
  }

  function SectionLines(sections: seq<Section>): seq<MdLine> {
    if sections == [] then []
    else
      var last := sections[|sections| - 1];
      SectionLines(sections[..|sections| - 1]) + [EntryHeading(last.title)] + TextLines(last.body)
  }

  /** `group` followed by the records of `sections`, numbered on from it. */
  function Committed(build: (string, seq<string>) -> Entry, group: seq<Entry>, sections: seq<Section>): (r: seq<Entry>)
    ensures |r| == |group| + |sections|
  {
    if sections == [] then group
    else
      var n := |sections| - 1;
      Committed(build, group, sections[..n]) + [build(sections[n].title, sections[n].body).(id := |group| + n + 1)]
  }

  /** The groups once `sections` are committed under `code`. */
  function CommittedGroups(build: (string, seq<string>) -> Entry, groups: map<string, seq<Entry>>, code: string, sections: seq<Section>)
    : map<string, seq<Entry>>
  {
    if sections == [] then groups else groups[code := Committed(build, Group(groups, code), sections)]
  }

  /** Inside a language section plain lines go to the block as they are. */
  lemma {:induction false} TextLinesBuffered(build: (string, seq<string>) -> Entry, s: ScanState, body: seq<string>)
    requires s.lang != ""
    ensures Scan(build, s, TextLines(body)) == s.(blockLines := s.blockLines + body)
  {
    if body != [] {
      var n := |body| - 1;
      assert TextLines(body)[..n] == TextLines(body[..n]);
      TextLinesBuffered(build, s, body[..n]);
      assert body[..n] + [body[n]] == body;
    }
  }

  /** One more section: its heading commits the open entry and opens its own. */
  lemma OneMoreSection(build: (string, seq<string>) -> Entry, s: ScanState, sec: Section)
    requires s.lang != "" && sec.title != ""
    ensures Scan(build, s, [EntryHeading(sec.title)] + TextLines(sec.body))
      == ScanState(Flush(build, s).groups, s.lang, sec.title, sec.body)
  {
    ScanAppend(build, s, [EntryHeading(sec.title)], TextLines(sec.body));
    assert [EntryHeading(sec.title)][..0] == [];
    TextLinesBuffered(build, Flush(build, s).(title := sec.title), sec.body);
  }

  /**
   * After the sections of a language, every section but the last has been
   * committed in order and the last is the open entry.
   */
  lemma {:induction false} ScanSections(build: (string, seq<string>) -> Entry, groups: map<string, seq<Entry>>, code: string, sections: seq<Section>)
    requires code != "" && sections != []
    requires forall i | 0 <= i < |sections| :: sections[i].title != ""
    ensures var n := |sections| - 1;
      Scan(build, ScanState(groups, code, "", []), SectionLines(sections))
        == ScanState(CommittedGroups(build, groups, code, sections[..n]), code, sections[n].title, sections[n].body)
  {
    var n := |sections| - 1;
    var start := ScanState(groups, code, "", []);
    var before := sections[..n];
    var last := [EntryHeading(sections[n].title)] + TextLines(sections[n].body);
    assert SectionLines(sections) == SectionLines(before) + last;
    ScanAppend(build, start, SectionLines(before), last);
    if n == 0 {
      OneMoreSection(build, start, sections[n]);
    } else {
      assert forall i | 0 <= i < |before| :: before[i].title != "" by {
        forall i | 0 <= i < |before| ensures before[i].title != "" {
          assert before[i] == sections[i];
        }
      }
      ScanSections(build, groups, code, before);
      var mid := Scan(build, start, SectionLines(before));
      var open := before[n - 1];
      assert mid == ScanState(CommittedGroups(build, groups, code, before[..n - 1]), code, open.title, open.body);
      OneMoreSection(build, mid, sections[n]);
      CommitOne(build, groups, code, before);
      assert Flush(build, mid).groups == CommittedGroups(build, groups, code, before);
    }
  }

  /** Committing the open entry of a section list extends the committed groups by that entry. */
  lemma CommitOne(build: (string, seq<string>) -> Entry, groups: map<string, seq<Entry>>, code: string, sections: seq<Section>)
    requires code != "" && sections != [] && sections[|sections| - 1].title != ""
    ensures var n := |sections| - 1;
      Flush(build, ScanState(CommittedGroups(build, groups, code, sections[..n]), code, sections[n].title, sections[n].body)).groups
        == CommittedGroups(build, groups, code, sections)
  {
    var n := |sections| - 1;
    var cg := CommittedGroups(build, groups, code, sections[..n]);
    var g := Group(groups, code);
    assert Group(cg, code) == Committed(build, g, sections[..n]);
  }

  /**
   * A language section made of entry sections: each entry is recorded under
   * the section's code, in order and numbered on from what the code already
   * holds, and nothing else changes.
   */
  lemma LanguageSection(build: (string, seq<string>) -> Entry, groups: map<string, seq<Entry>>, code: string, sections: seq<Section>)
    requires code != ""
    requires forall i | 0 <= i < |sections| :: sections[i].title != ""
    ensures Flush(build, Scan(build, ScanState(groups, code, "", []), SectionLines(sections)))
      == ScanState(CommittedGroups(build, groups, code, sections), code, "", [])
  {
    if sections != [] {
      ScanSections(build, groups, code, sections);
      CommitOne(build, groups, code, sections);
    }
  }
  /** Committing `a` and then `b` is committing `a + b`. */
  lemma {:induction false} CommittedAppend(build: (string, seq<string>) -> Entry, g: seq<Entry>, a: seq<Section>, b: seq<Section>)
    ensures Committed(build, Committed(build, g, a), b) == Committed(build, g, a + b)
  {
    if b == [] {
      assert a + b == a;
    } else {
      var n := |b| - 1;
      assert (a + b)[..|a + b| - 1] == a + b[..n];
      assert (a + b)[|a + b| - 1] == b[n];
      CommittedAppend(build, g, a, b[..n]);
    }
  }

  lemma CommittedGroupsAppend(build: (string, seq<string>) -> Entry, groups: map<string, seq<Entry>>, code: string, a: seq<Section>, b: seq<Section>)
    ensures CommittedGroups(build, CommittedGroups(build, groups, code, a), code, b) == CommittedGroups(build, groups, code, a + b)
  {
    if a == [] {
      assert a + b == b;
    } else if b == [] {
      assert a + b == a;
    } else {
      CommittedAppend(build, Group(groups, code), a, b);
    }
  }

  /**
   * Two language sections whose headings give the same code share one group:
   * the second section's records follow the first's, numbered on from them.
   */
  lemma SharedLanguage(build: (string, seq<string>) -> Entry, code: string, a: seq<Section>, b: seq<Section>)
    requires code != ""
    requires forall i | 0 <= i < |a| :: a[i].title != ""
    requires forall i | 0 <= i < |b| :: b[i].title != ""
    ensures Flush(build, Scan(build, Start, [LanguageHeading(code)] + SectionLines(a) + [LanguageHeading(code)] + SectionLines(b))).groups
      == CommittedGroups(build, map[], code, a + b)
  {
    var open := ScanState(map[], code, "", []);
    var first := [LanguageHeading(code)] + SectionLines(a) + [LanguageHeading(code)];
    ScanAppend(build, Start, first, SectionLines(b));
    ScanAppend(build, Start, [LanguageHeading(code)] + SectionLines(a), [LanguageHeading(code)]);
    ScanAppend(build, Start, [LanguageHeading(code)], SectionLines(a));
    assert [LanguageHeading(code)][..0] == [];
    assert Scan(build, Start, [LanguageHeading(code)]) == open;
    LanguageSection(build, map[], code, a);
    var mid := ScanState(CommittedGroups(build, map[], code, a), code, "", []);
    assert Scan(build, Start, first) == mid;
    LanguageSection(build, mid.groups, code, b);
    CommittedGroupsAppend(build, map[], code, a, b);
  }

  // Headings as written

  /** A heading written on one line has no trailing line feed to strip. */
  lemma {:induction false} HeadingKept(marker: string, text: string)
    requires NoLineTerminator(text)
    ensures StripTrailingNewline(marker + " " + text) == marker + " " + text
  {
    var line := marker + " " + text;
    if text != [] {
      assert line[|line| - 1] == text[|text| - 1];
    }
  }

  lemma ClassifyLanguageLine(line: string, text: string)
    requires StripTrailingNewline(line) == line && MatchLanguageHeading(line) == Some(text)
    ensures ClassifyMd(line) == LanguageHeading(SlugifyLanguage(text))
  {
  }

  lemma ClassifyEntryLine(line: string, text: string)
    requires StripTrailingNewline(line) == line && MatchLanguageHeading(line).None? && MatchEntryHeading(line) == Some(text)
    ensures ClassifyMd(line) == EntryHeading(Trim(text))
  {
  }

  /** `## text` is a language heading whose code is the one `text` resolves to. */
  lemma LanguageHeadingLine(text: string)
    requires NoLineTerminator(text) && (text == [] || !IsSpace(text[0]))
    ensures ClassifyMd("## " + text) == LanguageHeading(SlugifyLanguage(text))
  {
    HeadingRoundTrip("##", text);
    HeadingKept("##", text);
    ClassifyLanguageLine("## " + text, text);
  }

  /** `### text` is an entry heading titled with `text`, trimmed. */
  lemma EntryHeadingLine(text: string)
    requires NoLineTerminator(text) && (text == [] || !IsSpace(text[0]))
    ensures ClassifyMd("### " + text) == EntryHeading(Trim(text))
  {
    HeadingRoundTrip("###", text);
    HeadingsExclusive("### " + text);
    HeadingKept("###", text);
    ClassifyEntryLine("### " + text, text);
  }

  /** `## English` and `## english` open the same group. */
  lemma HeadingsIgnoreCase(a: string, b: string)
    requires NoLineTerminator(a) && (a == [] || !IsSpace(a[0]))
    requires NoLineTerminator(b) && (b == [] || !IsSpace(b[0]))
    requires ToLower(a) == ToLower(b)
    ensures ClassifyMd("## " + a) == ClassifyMd("## " + b)
  {
    LanguageHeadingLine(a);
    LanguageHeadingLine(b);
    SlugifyIgnoresCase(a, b);
  }
}
