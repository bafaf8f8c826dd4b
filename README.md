# Prompt list parser and tag normaliser, modelled in Dafny

This project models two small text-processing components of a prompt-list
toolkit:

* **`parsePrompts`** (`scripts/generate_prompts_json.ts`, line-for-line the
  same as `scripts/generate_prompts_json.js`). It reads a markdown prompt
  list into prompt records grouped by language code:
  * `## <language>` opens a language section; its text is resolved to a
    code by `slugifyLanguage` and the synonym table `LANG_FALLBACKS`.
  * `### <title>` opens an entry.
  * The lines after an entry heading form its block, and `buildEntry` turns
    the block into a record: `- Key: value` bullets fill fields, and plain
    lines after a `prompt` or `description` bullet continue that field.
  * An entry is committed, numbered after the entries its language already
    holds, when the next heading or the end of the document closes it.
* **`normalizeTags`** (`scripts/generate_prompt_tags.js`). It turns a
  language model's raw reply into a list of clean, distinct tags:
  * It prefers the string elements of a JSON array.
  * Otherwise it falls back to splitting the reply at `,`, `;` and line
    feeds.
  * Each candidate is then lower-cased, stripped to `a-z`, `0-9`,
    whitespace and `-`, trimmed, and its whitespace runs become `-`.
  * Empty results are dropped and duplicates removed, first occurrence first.
* **`buildTagPrompt`**, the request sent for one record.

Modules, one per file:

| module | file | content |
|---|---|---|
| `Wrappers` | `wrappers.dfy` | `Option` |
| `Strings` | `strings.dfy` | ASCII whitespace, `toLowerCase`, `trim`, `join`, `split`, with their laws |
| `Syntax` | `syntax.dfy` | the four regular expressions as extractor functions that return what the capture groups hold |
| `Languages` | `languages.dfy` | `LANG_FALLBACKS` and `slugifyLanguage` |
| `LanguageCases` | `language_cases.dfy` | worked headings |
| `Entries` | `entries.dfy` | `buildEntry` |
| `EntryCases` | `entry_cases.dfy` | worked keys and blocks |
| `Parser` | `parser.dfy` | `parsePrompts` |
| `ParseCases` | `parse_cases.dfy` | a worked document |
| `Tags` | `tags.dfy` | `normalizeTags` and `buildTagPrompt` |
| `TagLaws` | `tag_laws.dfy` | what the tag pipeline guarantees |
| `TagCases` | `tag_cases.dfy` | worked replies |

The two loops are methods that update the source's local variables:
* `Entries.BuildEntry` updates `data`, `collectingKey` and `continuation`.
* `Parser.ParsePrompts` updates `promptsByLang`, `currentLang`,
  `currentTitle` and `blockLines`.

The closures `commitContinuation` and `flushBlock` become the methods
`CommitContinuation` and `FlushBlock`. Their in- and out-parameters are the
captured variables.

Each method is proved equal to a fold over the classified lines:
`Entries.Run` over `Step`/`Commit`, and `Parser.Scan` over `ScanLine`/`Flush`.
The properties are proved about the fold. `Parser.Scan` takes the record
builder as a parameter, so the grouping laws hold whatever a block becomes.
`Parse` instantiates it with `Build`, the model of `buildEntry`.

What `JSON.parse` makes of the reply is the parameter `Tags.JsonParse`:
* `ParseFailed`: it throws.
* `ParsedNonArray`: it returns something other than an array.
* `ParsedArray(items)`: each item is `JString(text)` or `JOther`.

Behaviour of the code that is easy to misread:
* `LANG_FALLBACKS` (`scripts/generate_prompts_json.ts:17-25`) has no
  `simplified chinese` key; its CJK keys are `中文`, `简体中文` and `繁體中文`.
* Continuation lines are trimmed one by one and joined with line feeds
  (`scripts/generate_prompts_json.ts:86`); they are not kept verbatim.
* A `prompt` or `description` bullet with an inline value also opens a
  continuation (`scripts/generate_prompts_json.ts:110-111`), so later plain
  lines are appended to that value.
* A flush that drops its block because there is no language or no title
  keeps `currentTitle` (`scripts/generate_prompts_json.ts:145-147`); only a
  committed block resets it (`scripts/generate_prompts_json.ts:156`).
* A `- Title:` bullet with an empty value writes `""` over the heading's
  title (`scripts/generate_prompts_json.ts:109`, `133`).
* `Image URL` is not an alias: the alias table
  (`scripts/generate_prompts_json.ts:99-101`) is looked up with whitespace
  removed, but a key outside it keeps its spaces. Only `Image`, `imageUrl`,
  `Author URL` and `authorUrl` reach the link fields.
* The fallback split (`scripts/generate_prompt_tags.js:61-65`) keeps prose:
  `Sure! Here are tags: cats, ...` gives the tag `sure-here-are-tags-cats`,
  not `cats`.

## Model

| member | source | states |
|---|---|---|
| Strings.ToLower | scripts/generate_prompts_json.ts:51 | lower-casing keeps the length and leaves no upper-case ASCII letter |
| Strings.TrimIsTrimmed | scripts/generate_prompts_json.ts:43 | `trim` leaves no whitespace at either end |
| Strings.TrimEmptyIffBlank | scripts/generate_prompts_json.ts:86 | `trim` gives "" exactly when the text is all whitespace |
| Strings.TrimLower | scripts/generate_prompts_json.ts:51 | trimming and lower-casing commute |
| Strings.TrimJoinedPair | scripts/generate_prompts_json.ts:87 | trimming `a + "\n" + b` of trimmed parts gives `b` when `a` is empty, `a` when `b` is empty, and the joined text otherwise |
| Strings.Split | scripts/generate_prompt_tags.js:63 | a split has at least one piece and no piece holds a separator |
| Strings.SplitJoin | scripts/generate_prompt_tags.js:63 | splitting pieces joined by a separator they do not hold gives the pieces back |
| Strings.JoinSplit | scripts/generate_prompts_json.ts:86 | joining the pieces of a split with the separator gives the text back |
| Syntax.StripTrailingNewline | scripts/generate_prompts_json.ts:160 | the line loses exactly one trailing line feed when it has one and is unchanged otherwise |
| Syntax.MatchHeading | scripts/generate_prompts_json.ts:28-29 | a heading matches exactly when the line starts with the marker followed by whitespace; the capture has no line terminator and does not start with whitespace |
| Syntax.HeadingRoundTrip | scripts/generate_prompts_json.ts:28-29 | `marker + " " + text` matches with capture `text` for any one-line text not starting with whitespace |
| Syntax.HeadingsExclusive | scripts/generate_prompts_json.ts:161-172 | a `###` heading is never a `##` heading |
| Syntax.MatchBullet | scripts/generate_prompts_json.ts:30 | a bullet's key is non-empty and free of `:`, and its value has no line terminator and does not start with whitespace |
| Syntax.BulletRoundTrip | scripts/generate_prompts_json.ts:30 | `- key: value` is read back as exactly that key and value |
| Syntax.LanguageHintSpec | scripts/generate_prompts_json.ts:27 | the hint is the text of the leftmost `(...)` with non-empty content free of `)`; there is none exactly when no such pair exists |
| Languages.LettersAndHyphens | scripts/generate_prompts_json.ts:46 | the filter keeps only ASCII letters and `-`, and on lower-cased input only `a-z` and `-` |
| Languages.FromHint | scripts/generate_prompts_json.ts:44-48 | a non-empty trimmed hint never resolves to "" |
| Languages.SlugifyLanguage | scripts/generate_prompts_json.ts:40-56 | with a non-empty hint the code is non-empty; without one a table name gives its code and any other name gives only `a-z` and `-` |
| Languages.FallbackCodesNonEmpty | scripts/generate_prompts_json.ts:17-25 | every code in the table is non-empty |
| Languages.SlugifyIgnoresCase | scripts/generate_prompts_json.ts:45-51 | two headings equal up to case resolve to the same code |
| Languages.SlugifyByHint | scripts/generate_prompts_json.ts:41-48 | a title with a hint resolves as the trimmed hint alone would, or to the lower-cased hint when that is empty |
| Languages.SlugifyWithoutHint | scripts/generate_prompts_json.ts:51-55 | a title without `)` resolves by table lookup of its trimmed lower-cased text, or to that text's letters and hyphens |
| LanguageCases.EnglishCapitalised | scripts/generate_prompts_json.ts:17-19 | `English` resolves to `en` |
| LanguageCases.EnglishPadded | scripts/generate_prompts_json.ts:51-53 | `  ENGLISH ` resolves to `en` |
| LanguageCases.ChineseHeading | scripts/generate_prompts_json.ts:21 | `中文` resolves to `zh` |
| LanguageCases.JapaneseHeading | scripts/generate_prompts_json.ts:55 | `日本語` resolves to "" |
| LanguageCases.ChineseHint | scripts/generate_prompts_json.ts:41-45 | `Foo (Chinese)` resolves to `zh` |
| LanguageCases.UnknownHint | scripts/generate_prompts_json.ts:41-46 | `X (US)` resolves to `us` |
| Entries.LinkFieldKeys | scripts/generate_prompts_json.ts:99-103 | a bullet fills the author link exactly when its key, lower-cased and without whitespace, is `authorurl`, and the image link exactly when that is `image` or the lower-cased key is `imageurl`; `Image URL` reaches neither |
| Entries.FieldKeyIgnoresCase | scripts/generate_prompts_json.ts:99-103 | keys equal up to case fill the same field |
| Entries.Classify | scripts/generate_prompts_json.ts:94-98 | a line is a bullet exactly when the bullet pattern matches; bullet values are trimmed and plain lines kept as they are |
| Entries.ContinuationText | scripts/generate_prompts_json.ts:86 | the joined continuation is trimmed |
| Entries.Commit | scripts/generate_prompts_json.ts:84-91 | committing clears the collection, changes no field but the collecting one, and changes nothing when nothing is collected |
| Entries.CommitContinuation | scripts/generate_prompts_json.ts:84-91 | the closure leaves the three variables as `Commit` states |
| Entries.BuildEntry | scripts/generate_prompts_json.ts:74-136 | the loop returns the record of the fold over the classified lines |
| Entries.RunAppend | scripts/generate_prompts_json.ts:93-121 | reading `xs + ys` is reading `xs` then `ys` |
| Entries.PlainLinesIgnored | scripts/generate_prompts_json.ts:118-120 | plain lines with no open collection change nothing |
| Entries.PlainLinesCollected | scripts/generate_prompts_json.ts:118-120 | plain lines during a collection are appended to it in order |
| Entries.BulletCommits | scripts/generate_prompts_json.ts:95-96 | a bullet first commits the open collection, then touches only its own field |
| Entries.ContinuationFieldsTrimmed | scripts/generate_prompts_json.ts:86-87 | `prompt` and `description` are trimmed after every line and in the record |
| Entries.ContinuationJoined | scripts/generate_prompts_json.ts:84-91 | the field's value (inline, or the previous one when the inline value is empty) and the trimmed continuation are joined with a line feed; either one alone stays when the other is empty |
| Entries.CollectionCommitted | scripts/generate_prompts_json.ts:84-91 | committing collected plain lines appends their text to the field |
| Entries.BlankContinuation | scripts/generate_prompts_json.ts:86-87 | a continuation of blank lines adds nothing |
| Entries.KeyUntouched | scripts/generate_prompts_json.ts:109 | lines without a bullet for a field leave that field as it was |
| Entries.LastBulletWins | scripts/generate_prompts_json.ts:109 | for a key other than `prompt` and `description`, the last bullet for it gives the field's value |
| Entries.FieldWithoutBullet | scripts/generate_prompts_json.ts:75-79 | a field with no bullet is "" in the record, except `title`, which keeps the heading's title |
| Entries.UnknownKeyIgnored | scripts/generate_prompts_json.ts:125-135 | a bullet for a key the record does not read changes no record field and closes the collection |
| Entries.BuildDefaults | scripts/generate_prompts_json.ts:129-132 | a built record has id 0 and no tags |
| EntryCases.AuthorUrlSpaced | scripts/generate_prompts_json.ts:99-101 | `Author URL` fills `authorUrl` |
| EntryCases.AuthorUrlCamel | scripts/generate_prompts_json.ts:99-103 | `authorUrl` fills `authorUrl` |
| EntryCases.ImageAlias | scripts/generate_prompts_json.ts:99-101 | `Image` fills `imageUrl` |
| EntryCases.ImageUrlCamel | scripts/generate_prompts_json.ts:99-103 | `imageUrl` fills `imageUrl` |
| EntryCases.ImageUrlSpaced | scripts/generate_prompts_json.ts:99-103 | `Image URL` fills no record field |
| EntryCases.AuthorAndPrompt | scripts/generate_prompts_json.js:53-109 | an author bullet, a prompt bullet and one indented line give that author and the prompt joined with the line; every other field is "" |
| EntryCases.CategoryOnly | scripts/generate_prompts_json.js:53-109 | a lone category bullet gives the category, the heading's title and "" elsewhere |
| Parser.ClassifyMd | scripts/generate_prompts_json.ts:160-173 | a line is a language heading when `##` matches, an entry heading (trimmed) when only `###` does, and text otherwise |
| Parser.FlushBlock | scripts/generate_prompts_json.ts:144-157 | the closure leaves the variables as `Flush` states |
| Parser.FlushGroups | scripts/generate_prompts_json.ts:144-157 | a flush commits only with a language and a title: it appends the record numbered after its group, resets the title and keeps the language; otherwise it only clears the block and keeps the title; other groups never change |
| Parser.LazyGroup | scripts/generate_prompts_json.ts:150-152 | creating the missing group before the push is the same as pushing onto an empty group |
| Parser.ParsePrompts | scripts/generate_prompts_json.ts:138-182 | the loop returns the groups of the fold over the classified lines, after the final flush |
| Parser.ScanAppend | scripts/generate_prompts_json.ts:159-178 | reading `xs + ys` is reading `xs` then `ys` |
| Parser.ParseNumbered | scripts/generate_prompts_json.ts:150-154 | in every group the ids are 1..N in order |
| Parser.GroupsOnlyGrow | scripts/generate_prompts_json.ts:150-154 | the groups after any prefix of the document are prefixes of the final groups |
| Parser.Preamble | scripts/generate_prompts_json.ts:175-177 | before the first language heading nothing is buffered or recorded; only the last entry title is remembered |
| Parser.WithoutLanguageHeading | scripts/generate_prompts_json.ts:145 | a document without a `##` heading gives no groups |
| Parser.LanguageSection | scripts/generate_prompts_json.ts:159-180 | a language's sections are committed in order under its code, numbered on from the group |
| Parser.SharedLanguage | scripts/generate_prompts_json.ts:150-152 | two sections whose headings resolve to the same code fill one group, in document order |
| Parser.LanguageHeadingLine | scripts/generate_prompts_json.ts:161-165 | `## text` opens the language `text` resolves to |
| Parser.EntryHeadingLine | scripts/generate_prompts_json.ts:168-172 | `### text` opens an entry titled with `text` trimmed |
| Parser.HeadingsIgnoreCase | scripts/generate_prompts_json.ts:161-164 | `## English` and `## english` open the same group |
| ParseCases.WorkedParse | scripts/generate_prompts_json.js:111-155 | one `## English` section with two entries gives one `en` group with records 1 and 2: the first with its author and prompt plus continuation line, the second with its category |
| ParseCases.CatPortraitDocument | scripts/generate_prompts_json.js:53-155 | the Cat Portrait / Dog Portrait document gives records 1 and 2 under `en`, with prompt `Draw a cat\nsitting on a windowsill` and category `Animals` |
| Tags.NormalizeTags | scripts/generate_prompt_tags.js:60-92 | the `forEach`/`catch` code returns the tags of the candidate pipeline |
| TagLaws.StringItemsSpec | scripts/generate_prompt_tags.js:72-76 | an array has no string candidates exactly when it has no string element, and every candidate is one of its strings |
| TagLaws.StringItemsOfStrings | scripts/generate_prompt_tags.js:72-76 | an array of strings gives exactly those strings |
| TagLaws.ArrayStringsWin | scripts/generate_prompt_tags.js:69-82 | an array with a string element is used alone, and the fallback is ignored |
| TagLaws.FallbackWithoutStrings | scripts/generate_prompt_tags.js:78-82 | a failed parse, a non-array or an array without strings uses the fallback |
| TagLaws.StripBracketsChars | scripts/generate_prompt_tags.js:62 | no bracket is left and nothing is added |
| TagLaws.FallbackPieces | scripts/generate_prompt_tags.js:61-65 | every fallback piece is non-empty, trimmed, and free of brackets and delimiters |
| TagLaws.FallbackOfThree | scripts/generate_prompt_tags.js:61-65 | `a, b; c` falls back to the pieces `a`, `b`, `c` |
| TagLaws.FallbackOfCommaList | scripts/generate_prompt_tags.js:61-65 | a comma-joined list of tags falls back to the list |
| TagLaws.KeepTagCharsKeeps | scripts/generate_prompt_tags.js:85 | only kept characters from the input survive |
| TagLaws.DashRunsChars | scripts/generate_prompt_tags.js:87 | after the dash replacement every character is `-` or a non-space character of the input |
| TagLaws.DashRunsJoin | scripts/generate_prompt_tags.js:87 | words joined with single spaces come out joined with `-` |
| TagLaws.CleanTagChars | scripts/generate_prompt_tags.js:83-87 | a cleaned tag has only `a-z`, `0-9` and `-` |
| TagLaws.CleanTagOfTagText | scripts/generate_prompt_tags.js:83-87 | a clean tag is its own cleaning |
| TagLaws.CleanTagIdempotent | scripts/generate_prompt_tags.js:83-87 | cleaning twice is cleaning once |
| TagLaws.CleanTagIgnoresCase | scripts/generate_prompt_tags.js:84 | candidates equal up to case clean to the same tag |
| TagLaws.CleanTagPadded | scripts/generate_prompt_tags.js:86 | a tag padded with spaces cleans to the tag |
| TagLaws.NonEmptyMembers | scripts/generate_prompt_tags.js:90 | `filter(Boolean)` keeps exactly the non-empty strings |
| TagLaws.DedupeMembers | scripts/generate_prompt_tags.js:90 | the `Set` keeps every value and adds none |
| TagLaws.DedupeDistinct | scripts/generate_prompt_tags.js:90 | the `Set` holds no value twice |
| TagLaws.DedupeFirstOrder | scripts/generate_prompt_tags.js:90 | the `Set` lists the values in the order of their first occurrence |
| TagLaws.DedupeOfDistinct | scripts/generate_prompt_tags.js:90 | a list without duplicates comes out unchanged |
| TagLaws.NormalizedTagsClean | scripts/generate_prompt_tags.js:82-90 | every returned tag is non-empty and made of `a-z`, `0-9` and `-` |
| TagLaws.NormalizedTagsDistinct | scripts/generate_prompt_tags.js:90 | no tag is returned twice |
| TagLaws.NormalizedTagsCover | scripts/generate_prompt_tags.js:82-90 | a tag is returned exactly when it is the non-empty cleaning of a chosen candidate |
| TagLaws.NormalizedTagsOrder | scripts/generate_prompt_tags.js:90 | the tags come in the order of their first cleaned occurrence |
| TagLaws.CleanArrayKept | scripts/generate_prompt_tags.js:69-92 | a JSON array of distinct clean tags is returned unchanged |
| TagLaws.NormalizeIdempotent | scripts/generate_prompt_tags.js:60-92 | normalising a result written back as a JSON array gives the same result |
| TagLaws.CommaListKept | scripts/generate_prompt_tags.js:61-92 | an unparsable comma-joined list of distinct clean tags gives the list |
| TagLaws.TagPromptReadsBack | scripts/generate_prompt_tags.js:50-57 | for a one-line title and description, the request splits at line feeds into exactly five lines: the introduction, `Title: <title>`, `Description: <description>`, the instruction and the answer format |
| TagCases.EmptyReply | scripts/generate_prompt_tags.js:128 | an empty reply gives no tags |
| TagCases.CleanListKept | scripts/generate_prompt_tags.js:69-90 | `["cats","pet-photography"]` gives that list |
| TagCases.VariantsCollapse | scripts/generate_prompt_tags.js:83-90 | a tag, an upper-case variant and a padded variant collapse into the one tag |
| TagCases.CatsVariants | scripts/generate_prompt_tags.js:83-90 | `["Cats","cats"," CATS "]` gives `["cats"]` |
| TagCases.DelimitedReply | scripts/generate_prompt_tags.js:61-90 | an unparsable `a, b; c` gives the three cleanings when they are distinct and non-empty |
| TagCases.SureCleaned | scripts/generate_prompt_tags.js:83-87 | `Sure! Here are tags: cats` cleans to `sure-here-are-tags-cats` |
| TagCases.ProseReply | scripts/generate_prompt_tags.js:61-90 | `Sure! Here are tags: cats, Pet Photography; cute-animal` gives `sure-here-are-tags-cats`, `pet-photography`, `cute-animal` |

## Left out

- Reading the document and writing the output files (`readSource`, `fetch`, `ensureDir`, `writeOutputs`, `readPromptEntries`, `writePromptEntries`) are left out: they are I/O. The model starts from the document's lines and ends at the grouped records.
- The `main` functions and `parseArgs` are left out: they are command-line glue.
- `fetchTagsForEntry`, `loadOpenRouter` and `loadApiKey` are left out: they call a foreign SDK and read the environment. The streamed reply is the `content` parameter, and at `scripts/generate_prompt_tags.js:128`, `content || ""` is `content` itself for a string.
- `JSON.parse`'s grammar is not modelled; its outcome is the parameter `Tags.JsonParse`.
- Case and whitespace are modelled for ASCII only:
  - `toLowerCase` maps only `A-Z`;
  - `\s` and `trim` see only ASCII whitespace (space, tab, line feed, carriage return, vertical tab, form feed);
  - `.` stops only at line feed and carriage return.
  - Non-ASCII whitespace and non-ASCII upper case (for example `É`) are not modelled.
  - The CJK table keys are compared as plain strings.
- Object property lookups are finite maps holding only the listed keys; names a JavaScript object inherits are treated as ordinary unknown keys and names. The source behaves differently for them:
  - A `- Constructor: ...` or `- __proto__: ...` bullet makes the alias lookup at `scripts/generate_prompts_json.ts:100-101` return an inherited, truthy value. `mappedKey.toLowerCase()` at `scripts/generate_prompts_json.ts:103` then throws a `TypeError`, which ends the whole run.
  - A `## Constructor` heading makes the table lookup at `scripts/generate_prompts_json.ts:52-53` return a function as the language code.
- The key order of the output object is not modelled: the groups are a `map`.
- `null` and `""` are both `""` for `currentLang`, `currentTitle` and `collectingKey`, since the source only tests their truthiness. A record whose `title` would be `undefined` cannot arise from the parser and is not modelled.
