/**
 * The tag normaliser of `generate_prompt_tags.js`: a language model's raw
 * reply becomes a list of clean, distinct tags.
 *
 * `normalizeTags` first collects candidates: the string elements of the
 * reply when it parses as a JSON array, the delimiter-split fallback when it
 * does not parse at all.  An empty candidate list falls back as well.  Every
 * candidate is then cleaned (lower-cased, stripped to `a-z`, `0-9`,
 * whitespace and `-`, trimmed, whitespace runs turned into `-`), empty
 * results are dropped and duplicates removed, first occurrence first.
 *
 * What `JSON.parse` makes of the reply is a parameter of type `JsonParse`.
 */
module Tags {
  import opened Strings
  import Entries

  // ---------------------------------------------------------------------
  // The parsed reply

  /** An element of a parsed JSON array: a string, or anything else. */
  datatype JsonValue = JString(text: string) | JOther

  /** The outcome of `JSON.parse(content)`. */
  datatype JsonParse = ParseFailed | ParsedNonArray | ParsedArray(items: seq<JsonValue>)

  /** The string elements of an array, in order (the `forEach` that pushes them). */
  function StringItems(items: seq<JsonValue>): seq<string>
  {
    if items == [] then []
    else
      var last := items[|items| - 1];
      StringItems(items[..|items| - 1]) + (if last.JString? then [last.text] else [])
  }

  /** One more element of the array extends its string elements by at most that one. */
  lemma StringItemsNext(items: seq<JsonValue>, i: nat)
    requires i < |items|
    ensures StringItems(items[..i + 1])
      == StringItems(items[..i]) + (if items[i].JString? then [items[i].text] else [])
  {
    assert items[..i + 1][..i] == items[..i];
  }

  /** A list of tags written back as a JSON array of strings. */
  function JsonStrings(tags: seq<string>): (r: seq<JsonValue>)
    ensures |r| == |tags|
    ensures forall i | 0 <= i < |r| :: r[i] == JString(tags[i])
  {
    seq(|tags|, i requires 0 <= i < |tags| => JString(tags[i]))
  }

  // ---------------------------------------------------------------------
  // The fallback split

  /** `replace(/[\[\]]/g, "")`. */
  function StripBrackets(s: string): string
  {
    if s == [] then []
    else (if s[0] == '[' || s[0] == ']' then [] else [s[0]]) + StripBrackets(s[1..])
  }

  /** The characters `split(/,|\n|;/)` cuts at. */
  const Delimiters: set<char> := {',', '\n', ';'}

  /** `filter(Boolean)` on strings: the empty ones go. */
  function NonEmpty(parts: seq<string>): seq<string>
  {
    if parts == [] then []
    else (if parts[0] == "" then [] else [parts[0]]) + NonEmpty(parts[1..])
  }

  /** The fallback candidate list: brackets deleted, split at delimiters, trimmed, empties dropped. */
  function Fallback(content: string): seq<string>
  {
    NonEmpty(TrimEach(Split(StripBrackets(content), Delimiters)))
  }

  // ---------------------------------------------------------------------
  // Cleaning one tag

  /** The characters `[^a-z0-9\s-]` does not delete. */
  predicate IsKept(c: char) {
    'a' <= c <= 'z' || '0' <= c <= '9' || IsSpace(c) || c == '-'
  }

  /** The characters a clean tag is made of. */
  predicate IsTagChar(c: char) {
    'a' <= c <= 'z' || '0' <= c <= '9' || c == '-'
  }

  /** Only tag characters (possibly none). */
  predicate IsTagText(s: string) {
    forall i | 0 <= i < |s| :: IsTagChar(s[i])
  }

  /** A tag as `normalizeTags` returns it: non-empty, only `a-z`, `0-9` and `-`. */
  predicate IsTag(s: string) {
    s != [] && IsTagText(s)
  }

  /** `replace(/[^a-z0-9\s-]/g, "")`. */
  function KeepTagChars(s: string): string
  {
    if s == [] then []
    else (if IsKept(s[0]) then [s[0]] else []) + KeepTagChars(s[1..])
  }

  /** `replace(/\s+/g, "-")`: every maximal run of whitespace becomes one `-`. */
  function DashRuns(s: string): string
    decreases |s|
  {
    if s == [] then []
    else if IsSpace(s[0]) then "-" + DashRuns(TrimStart(s[1..]))
    else [s[0]] + DashRuns(s[1..])
  }

  /** The cleaning `map` applied to one candidate. */
  function CleanTag(tag: string): string
  {
    DashRuns(Trim(KeepTagChars(ToLower(tag))))
  }

  /** The cleaning `map` over all candidates. */
  function CleanAll(tags: seq<string>): seq<string>
  {
    if tags == [] then [] else [CleanTag(tags[0])] + CleanAll(tags[1..])
  }

  // ---------------------------------------------------------------------
  // Deduplication

  /** `Array.from(new Set(xs))`: each value once, where it first occurs. */
  function Dedupe(xs: seq<string>): seq<string>
  {
    if xs == [] then []
    else
      var r := Dedupe(xs[..|xs| - 1]);
      var x := xs[|xs| - 1];
      if x in r then r else r + [x]
  }

  /** The position of the first occurrence of `x` in `xs`. */
  function FirstIndex(xs: seq<string>, x: string): (r: nat)
    requires x in xs
    ensures r < |xs| && xs[r] == x && x !in xs[..r]
  {
    if xs[0] == x then 0
    else
      assert x in xs[1..] by {
        var k :| 0 <= k < |xs| && xs[k] == x;
        assert xs[1..][k - 1] == x;
      }
      var r := 1 + FirstIndex(xs[1..], x);
      assert xs[..r] == [xs[0]] + xs[1..][..r - 1];
      r
  }

  predicate Distinct(xs: seq<string>) {
    forall i, j | 0 <= i < j < |xs| :: xs[i] != xs[j]
  }

  // ---------------------------------------------------------------------
  // normalizeTags

  /** The candidates the `try`/`catch` collects. */
  function Candidates(content: string, parsed: JsonParse): seq<string>
  {
    match parsed
    case ParseFailed => Fallback(content)
    case ParsedNonArray => []
    case ParsedArray(items) => StringItems(items)
  }

  /** `candidates.length ? candidates : fallback`. */
  function Chosen(content: string, parsed: JsonParse): seq<string>
  {
    var candidates := Candidates(content, parsed);
    if |candidates| > 0 then candidates else Fallback(content)
  }

  /** The cleaned, non-empty candidates in order: what the `Set` is built from. */
  function Cleaned(content: string, parsed: JsonParse): seq<string>
  {
    NonEmpty(CleanAll(Chosen(content, parsed)))
  }

  /** The map/filter/`Set` pipeline over the chosen candidates. */
  function Finish(chosen: seq<string>): seq<string>
  {
    Dedupe(NonEmpty(CleanAll(chosen)))
  }

  /** What `normalizeTags(content)` returns when `JSON.parse(content)` gives `parsed`. */
  function Normalize(content: string, parsed: JsonParse): seq<string>
  {
    Finish(Chosen(content, parsed))
  }

  lemma EmptyPlus(xs: seq<string>)
    ensures [] + xs == xs
  {
  }

  /**
   * `normalizeTags`: the candidate array is filled by the `forEach` over the
   * parsed array, or with the fallback in the `catch`; the rest is the
   * map/filter/`Set` pipeline.
   */
  method NormalizeTags(content: string, parsed: JsonParse) returns (tags: seq<string>)
    ensures tags == Normalize(content, parsed)
  {
    var fallback := Fallback(content);
    var candidates: seq<string> := [];
    match parsed {
      case ParseFailed =>
        EmptyPlus(fallback);
        candidates := candidates + fallback;
      case ParsedNonArray =>
      case ParsedArray(items) =>
        for i := 0 to |items|
          invariant candidates == StringItems(items[..i])
        {
          StringItemsNext(items, i);
          if items[i].JString? {
            candidates := candidates + [items[i].text];
          }
        }
        assert items[..|items|] == items;
    }
    assert candidates == Candidates(content, parsed);
    var chosen := if |candidates| > 0 then candidates else fallback;
    assert chosen == Chosen(content, parsed);
    tags := Finish(chosen);
  }

  // ---------------------------------------------------------------------
  // buildTagPrompt

  // The three fixed lines, each written as a few short pieces so that
  // facts about their characters can be proved piece by piece.
  const TagPromptIntro: string := "You are given a " + "prompt entry from" + " a public prompt list."
  const TagPromptTask: string :=
    "Generate between 3 " + "and 8 concise tags " + "that describe the " + "topic or use-case."
  const TagPromptFormat: string :=
    "Return only a JSON " + "array of lower-case, " + "hyphenated strings " + "with no explanations."

  /** The five lines of the request sent for one entry. */
  function TagPromptLines(entry: Entries.Entry): seq<string>
  {
    [TagPromptIntro, "Title: " + entry.title, "Description: " + entry.description, TagPromptTask, TagPromptFormat]
  }

  /** `buildTagPrompt`: the five lines joined with line feeds. */
  function BuildTagPrompt(entry: Entries.Entry): string
  {
    Join(TagPromptLines(entry), "\n")
  }
}
