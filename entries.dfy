/**
 * `buildEntry`: the block of lines under one `### title` heading becomes a
 * prompt record.  Bullets `- Key: value` fill a field buffer; after a
 * `prompt` or `description` bullet the plain lines that follow are
 * collected and appended to that field when the collection closes.
 *
 * `Step` and `Commit` state one line's effect and the closure
 * `commitContinuation` as functions on a `Builder`; the method `BuildEntry`
 * is the source's loop and is proved to agree with them.
 */
module Entries {
  import opened Wrappers
  import opened Strings
  import opened Syntax

  /** A prompt record (`PromptEntry`). */
  datatype Entry = Entry(
    author: string,
    authorUrl: string,
    category: string,
    id: nat,
    imageUrl: string,
    prompt: string,
    tags: seq<string>,
    title: string,
    description: string)

  /** The buffer keys the record is read from. */
  const RecordKeys: set<string> :=
    {"author", "authorurl", "category", "imageurl", "prompt", "title", "description"}

  /** `replace(/\s+/g, "")`. */
  function RemoveSpaces(s: string): string
  {
    if s == [] then [] else (if IsSpace(s[0]) then [] else [s[0]]) + RemoveSpaces(s[1..])
  }

  /**
   * The buffer key of a trimmed bullet key (`lowerKey`): `Author URL` and
   * `authorUrl` become `authorurl`, `Image` becomes `imageurl`, and every
   * other key is lower-cased as written.
   */
  function FieldKey(key: string): string
  {
    var normalizedKey := RemoveSpaces(ToLower(key));
    var mappedKey :=
      if normalizedKey == "authorurl" then "authorUrl"
      else if normalizedKey == "image" then "imageUrl"
      else key;
    ToLower(mappedKey)
  }

  /** The two fields whose bullets open a continuation. */
  predicate IsContinuationKey(k: string) {
    k == "prompt" || k == "description"
  }

  /**
   * A block line as `buildEntry` reads it: a bullet, with its buffer key
   * and trimmed value, or a plain line.
   */
  datatype Line = BulletLine(key: string, value: string) | PlainLine(text: string)

  function Classify(line: string): (r: Line)
    ensures r.BulletLine? <==> MatchBullet(line).Some?
    ensures r.PlainLine? ==> r.text == line
    ensures r.BulletLine? ==> IsTrimmed(r.value)
  {
    match MatchBullet(line)
    case None => PlainLine(line)
    case Some(b) =>
      TrimIsTrimmed(b.value);
      BulletLine(FieldKey(Trim(b.key)), Trim(b.value))
  }

  function ClassifyAll(lines: seq<string>): (r: seq<Line>)
    ensures |r| == |lines| && forall i | 0 <= i < |lines| :: r[i] == Classify(lines[i])
  {
    seq(|lines|, i requires 0 <= i < |lines| => Classify(lines[i]))
  }

  /** `data` (the field buffer), `collectingKey` ("" for null) and `continuation`. */
  datatype Builder = Builder(data: map<string, string>, collectingKey: string, continuation: seq<string>)

  /** `data[k] || ""`. */
  function Get(data: map<string, string>, k: string): string {
    if k in data then data[k] else ""
  }

  function Initial(title: string): Builder {
    Builder(map["title" := title, "prompt" := "", "description" := ""], "", [])
  }

  /** The collected lines, each trimmed, joined with newlines, trimmed (`text`). */
  function ContinuationText(lines: seq<string>): (r: string)
    ensures IsTrimmed(r)
  {
    TrimIsTrimmed(Join(TrimEach(lines), "\n"));
    Trim(Join(TrimEach(lines), "\n"))
  }

  /** `commitContinuation`. */
  function Commit(b: Builder): (r: Builder)
    ensures r.collectingKey == "" && r.continuation == []
    ensures forall k | k != b.collectingKey :: Get(r.data, k) == Get(b.data, k)
    ensures b.collectingKey == "" || b.continuation == [] ==> r.data == b.data
  {
    if b.collectingKey != "" && |b.continuation| > 0 then
      var k := b.collectingKey;
      Builder(b.data[k := Trim(Get(b.data, k) + "\n" + ContinuationText(b.continuation))], "", [])
    else
      Builder(b.data, "", [])
  }

  /** One pass of the loop over `blockLines`. */
  function Step(b: Builder, line: Line): Builder
  {
    match line
    case BulletLine(key, value) =>
      var c := Commit(b);
      if IsContinuationKey(key) && value == "" then
        Builder(c.data, key, [])
      else
        Builder(c.data[key := value], if IsContinuationKey(key) then key else "", [])
    case PlainLine(text) =>
      if b.collectingKey != "" then Builder(b.data, b.collectingKey, b.continuation + [text]) else b
  }

  /** The builder after the given lines, starting from `b`. */
  function Run(b: Builder, lines: seq<Line>): Builder
  {
    if lines == [] then b else Step(Run(b, lines[..|lines| - 1]), lines[|lines| - 1])
  }

  /** The record read off a finished buffer. */
  function ToEntry(data: map<string, string>): Entry
  {
    Entry(Get(data, "author"), Get(data, "authorurl"), Get(data, "category"), 0,
          Get(data, "imageurl"), Get(data, "prompt"), [], Get(data, "title"), Get(data, "description"))
  }

  /** The buffer once every line is read and the last continuation committed. */
  function FinalData(title: string, lines: seq<Line>): map<string, string>
  {
    Commit(Run(Initial(title), lines)).data
  }

  /** What `buildEntry(title, lines)` returns. */
  function Build(title: string, lines: seq<string>): Entry
  {
    ToEntry(FinalData(title, ClassifyAll(lines)))
  }

  // ---------------------------------------------------------------------
  // The source's loop

  /** `commitContinuation`, the closure over the three local variables. */
  method CommitContinuation(data: map<string, string>, collectingKey: string, continuation: seq<string>)
    returns (data': map<string, string>, collectingKey': string, continuation': seq<string>)
    ensures Builder(data', collectingKey', continuation') == Commit(Builder(data, collectingKey, continuation))
  {
    data' := data;
    if collectingKey != "" && |continuation| > 0 {
      var text := ContinuationText(continuation);
      data' := data[collectingKey := Trim(Get(data, collectingKey) + "\n" + text)];
    }
    collectingKey' := "";
    continuation' := [];
  }

  /** `buildEntry`. */
  method BuildEntry(title: string, blockLines: seq<string>) returns (entry: Entry)
    ensures entry == Build(title, blockLines)
  {
    var data := map["title" := title, "prompt" := "", "description" := ""];
    var collectingKey := "";
    var continuation: seq<string> := [];
    ghost var lines := ClassifyAll(blockLines);
    for i := 0 to |blockLines|
      invariant Builder(data, collectingKey, continuation) == Run(Initial(title), lines[..i])
    {
      var line := blockLines[i];
      ghost var before := Builder(data, collectingKey, continuation);
      RunSnoc(Initial(title), lines, i);
      var bulletMatch := MatchBullet(line);
      if bulletMatch.Some? {
        data, collectingKey, continuation := CommitContinuation(data, collectingKey, continuation);
        var key := Trim(bulletMatch.value.key);
        var value := Trim(bulletMatch.value.value);
        var lowerKey := FieldKey(key);
        assert lines[i] == BulletLine(lowerKey, value);
        if IsContinuationKey(lowerKey) && value == "" {
          collectingKey := lowerKey;
          continue;
        }
        data := data[lowerKey := value];
        if IsContinuationKey(lowerKey) {
          collectingKey := lowerKey;
        } else {
          collectingKey := "";
        }
        continue;
      }
      assert lines[i] == PlainLine(line);
      if collectingKey != "" {
        continuation := continuation + [line];
      }
    }
    assert lines[..|blockLines|] == lines;
    data, collectingKey, continuation := CommitContinuation(data, collectingKey, continuation);
    entry := Entry(Get(data, "author"), Get(data, "authorurl"), Get(data, "category"), 0,
                   Get(data, "imageurl"), Get(data, "prompt"), [], Get(data, "title"), Get(data, "description"));
  }

  /** Reading one more line is one more step. */
  lemma RunSnoc(b: Builder, lines: seq<Line>, i: nat)
    requires i < |lines|
    ensures Run(b, lines[..i + 1]) == Step(Run(b, lines[..i]), lines[i])
  {
    assert lines[..i + 1][..i] == lines[..i];
  }

  // ---------------------------------------------------------------------
  // Running the lines

  /** Reading `xs` then `ys` is reading `xs + ys`. */
  lemma {:induction false} RunAppend(b: Builder, xs: seq<Line>, ys: seq<Line>)
    ensures Run(b, xs + ys) == Run(Run(b, xs), ys)
  {
    if ys == [] {
      assert xs + ys == xs;
    } else {
      var n := |ys| - 1;
      assert (xs + ys)[..|xs + ys| - 1] == xs + ys[..n];
      RunAppend(b, xs, ys[..n]);
    }
  }

  lemma RunOne(b: Builder, line: Line)
    ensures Run(b, [line]) == Step(b, line)
  {
    assert [line][..0] == [];
  }

  predicate AllPlain(lines: seq<Line>) {
    forall i | 0 <= i < |lines| :: lines[i].PlainLine?
  }

  function Texts(lines: seq<Line>): (r: seq<string>)
    requires AllPlain(lines)
    ensures |r| == |lines| && forall i | 0 <= i < |lines| :: r[i] == lines[i].text
  {
    seq(|lines|, i requires 0 <= i < |lines| => lines[i].text)
  }

  /** Plain lines are ignored while no collection is open. */
  lemma {:induction false} PlainLinesIgnored(b: Builder, lines: seq<Line>)
    requires b.collectingKey == "" && AllPlain(lines)
    ensures Run(b, lines) == b
  {
    if lines != [] {
      PlainLinesIgnored(b, lines[..|lines| - 1]);
    }
  }

  /** While a collection is open, plain lines are appended to the continuation as they are. */
  lemma {:induction false} PlainLinesCollected(b: Builder, lines: seq<Line>)
    requires b.collectingKey != "" && AllPlain(lines)
    ensures Run(b, lines) == Builder(b.data, b.collectingKey, b.continuation + Texts(lines))
  {
    if lines != [] {
      var n := |lines| - 1;
      PlainLinesCollected(b, lines[..n]);
      assert Texts(lines[..n]) + [lines[n].text] == Texts(lines);
      assert b.continuation + Texts(lines[..n]) + [lines[n].text] == b.continuation + Texts(lines);
    }
  }

  /** A bullet closes the open collection: every other key holds its committed value. */
  lemma BulletCommits(b: Builder, key: string, value: string)
    ensures Step(b, BulletLine(key, value)).continuation == []
    ensures forall k | k != key :: Get(Step(b, BulletLine(key, value)).data, k) == Get(Commit(b).data, k)
  {
  }

  /** `prompt` and `description` always hold trimmed text. */
  lemma {:induction false} ContinuationFieldsTrimmed(title: string, lines: seq<Line>)
    requires forall i | 0 <= i < |lines| :: lines[i].BulletLine? ==> IsTrimmed(lines[i].value)
    ensures forall k | IsContinuationKey(k) :: IsTrimmed(Get(Run(Initial(title), lines).data, k))
    ensures forall k | IsContinuationKey(k) :: IsTrimmed(Get(FinalData(title, lines), k))
  {
    var b := Run(Initial(title), lines);
    if lines != [] {
      var n := |lines| - 1;
      ContinuationFieldsTrimmed(title, lines[..n]);
      StepKeepsTrimmed(Run(Initial(title), lines[..n]), lines[n]);
    }
    CommitKeepsTrimmed(b);
  }

  /** Committing keeps `prompt` and `description` trimmed. */
  lemma CommitKeepsTrimmed(b: Builder)
    requires forall k | IsContinuationKey(k) :: IsTrimmed(Get(b.data, k))
    ensures forall k | IsContinuationKey(k) :: IsTrimmed(Get(Commit(b).data, k))
  {
    if b.collectingKey != "" && |b.continuation| > 0 {
      TrimIsTrimmed(Get(b.data, b.collectingKey) + "\n" + ContinuationText(b.continuation));
    }
  }

  /** So does reading a line whose bullet value, if any, is trimmed. */
  lemma StepKeepsTrimmed(b: Builder, line: Line)
    requires forall k | IsContinuationKey(k) :: IsTrimmed(Get(b.data, k))
    requires line.BulletLine? ==> IsTrimmed(line.value)
    ensures forall k | IsContinuationKey(k) :: IsTrimmed(Get(Step(b, line).data, k))
  {
    CommitKeepsTrimmed(b);
  }

  /**
   * After a `prompt` or `description` bullet, the field holds the inline
   * value (or, when that is empty, what it held before), and the plain lines
   * that follow are trimmed, joined with newlines and appended to it after a
   * newline, the whole trimmed.
   */
  lemma ContinuationJoined(title: string, before: seq<Line>, k: string, v: string, plain: seq<Line>)
    requires forall i | 0 <= i < |before| :: before[i].BulletLine? ==> IsTrimmed(before[i].value)
    requires IsContinuationKey(k) && IsTrimmed(v) && AllPlain(plain)
    ensures var base := if v == "" then Get(FinalData(title, before), k) else v;
      var text := ContinuationText(Texts(plain));
      Get(FinalData(title, before + [BulletLine(k, v)] + plain), k) ==
        if plain == [] || text == "" then base
        else if base == "" then text
        else base + "\n" + text
  {
    var b := Run(Initial(title), before);
    RunAppend(Initial(title), before, [BulletLine(k, v)]);
    RunOne(b, BulletLine(k, v));
    var s := Step(b, BulletLine(k, v));
    RunAppend(Initial(title), before + [BulletLine(k, v)], plain);
    ContinuationFieldsTrimmed(title, before);
    CollectionCommitted(s, k, plain);
  }

  /** What an open collection with no lines yet holds once `plain` is read and committed. */
  lemma CollectionCommitted(s: Builder, k: string, plain: seq<Line>)
    requires s.collectingKey == k && k != "" && s.continuation == [] && AllPlain(plain)
    requires IsTrimmed(Get(s.data, k))
    ensures var base, text := Get(s.data, k), ContinuationText(Texts(plain));
      Get(Commit(Run(s, plain)).data, k) ==
        if plain == [] || text == "" then base
        else if base == "" then text
        else base + "\n" + text
  {
    PlainLinesCollected(s, plain);
    assert Run(s, plain).continuation == Texts(plain);
    TrimJoinedPair(Get(s.data, k), ContinuationText(Texts(plain)));
  }

  /** A continuation made only of blank lines adds nothing. */
  lemma BlankContinuation(lines: seq<string>)
    requires forall i | 0 <= i < |lines| :: AllSpaces(lines[i])
    ensures ContinuationText(lines) == ""
  {
    var parts := TrimEach(lines);
    TrimEachOfBlanks(lines);
    JoinOfEmptiesIsBlank(parts);
    TrimEmptyIffBlank(Join(parts, "\n"));
  }

  // ---------------------------------------------------------------------
  // Fields other than prompt and description

  predicate NotBulletFor(line: Line, k: string) {
    line.PlainLine? || line.key != k
  }

  /** Lines without a bullet for `k` leave `k` as it was, unless it is being collected. */
  lemma {:induction false} KeyUntouched(b: Builder, lines: seq<Line>, k: string)
    requires k != "" && b.collectingKey != k
    requires forall i | 0 <= i < |lines| :: NotBulletFor(lines[i], k)
    ensures Run(b, lines).collectingKey != k
    ensures Get(Run(b, lines).data, k) == Get(b.data, k)
    ensures Get(Commit(Run(b, lines)).data, k) == Get(b.data, k)
  {
    if lines != [] {
      var init := lines[..|lines| - 1];
      assert forall i | 0 <= i < |init| :: init[i] == lines[i];
      KeyUntouched(b, init, k);
      StepKeepsKey(Run(b, init), lines[|lines| - 1], k);
    }
  }

  lemma StepKeepsKey(b: Builder, line: Line, k: string)
    requires k != "" && b.collectingKey != k && NotBulletFor(line, k)
    ensures Step(b, line).collectingKey != k
    ensures Get(Step(b, line).data, k) == Get(b.data, k)
  {
  }

  /**
   * For a key other than `prompt` and `description`, the last bullet for
   * that key decides its value.
   */
  lemma LastBulletWins(title: string, lines: seq<Line>, i: nat, k: string)
    requires i < |lines| && lines[i].BulletLine? && lines[i].key == k && !IsContinuationKey(k) && k != ""
    requires forall j | i < j < |lines| :: NotBulletFor(lines[j], k)
    ensures Get(FinalData(title, lines), k) == lines[i].value
  {
    var head, tail := lines[..i + 1], lines[i + 1..];
    HeadSets(title, lines, i, k);
    forall j | 0 <= j < |tail| ensures NotBulletFor(tail[j], k) {
      assert tail[j] == lines[i + 1 + j];
    }
    var b := Run(Initial(title), head);
    KeyUntouched(b, tail, k);
    assert head + tail == lines;
    RunAppend(Initial(title), head, tail);
  }

  /** Up to and including the bullet, `k` holds its value and nothing is collected. */
  lemma HeadSets(title: string, lines: seq<Line>, i: nat, k: string)
    requires i < |lines| && lines[i].BulletLine? && lines[i].key == k && !IsContinuationKey(k)
    ensures Run(Initial(title), lines[..i + 1]).collectingKey == ""
    ensures Get(Run(Initial(title), lines[..i + 1]).data, k) == lines[i].value
  {
    var head := lines[..i + 1];
    assert head[..i] == lines[..i];
    BulletSets(Run(Initial(title), lines[..i]), k, lines[i].value);
  }

  /** A bullet for a key other than `prompt` and `description` sets it and closes collection. */
  lemma BulletSets(b: Builder, k: string, v: string)
    requires !IsContinuationKey(k)
    ensures Step(b, BulletLine(k, v)).collectingKey == "" && Get(Step(b, BulletLine(k, v)).data, k) == v
  {
  }

  /**
   * A key no bullet names keeps its initial value: the heading title for
   * `title`, "" for every other field.
   */
  lemma FieldWithoutBullet(title: string, lines: seq<Line>, k: string)
    requires k != ""
    requires forall j | 0 <= j < |lines| :: NotBulletFor(lines[j], k)
    ensures Get(FinalData(title, lines), k) == if k == "title" then title else ""
  {
    KeyUntouched(Initial(title), lines, k);
  }

  /**
   * A bullet whose key the record does not read only closes the open
   * collection: the record read off the buffer is the same as after the
   * commit alone.
   */
  lemma UnknownKeyIgnored(b: Builder, key: string, value: string)
    requires key !in RecordKeys
    ensures Step(b, BulletLine(key, value)).collectingKey == "" && Step(b, BulletLine(key, value)).continuation == []
    ensures ToEntry(Step(b, BulletLine(key, value)).data) == ToEntry(Commit(b).data)
  {
  }

  /** Every record `buildEntry` returns has id 0 (the caller numbers it) and no tags. */
  lemma BuildDefaults(title: string, lines: seq<string>)
    ensures Build(title, lines).id == 0 && Build(title, lines).tags == []
  {
  }

  /** Bullet keys are read case-insensitively. */
  lemma FieldKeyIgnoresCase(a: string, b: string)
    requires ToLower(a) == ToLower(b)
    ensures FieldKey(a) == FieldKey(b)
  {
  }
  /** A bullet written as `- key: value` is read back as its field and value. */
  lemma {:induction false} ClassifyBullet(key: string, value: string)
    requires key != "" && !IsSpace(key[0]) && !IsSpace(key[|key| - 1])
    requires forall i | 0 <= i < |key| :: key[i] != ':'
    requires NoLineTerminator(value) && IsTrimmed(value)
    ensures Classify("- " + key + ": " + value) == BulletLine(FieldKey(key), value)
  {
    BulletRoundTrip(key, value);
    TrimmedIsFixpoint(key);
    TrimmedIsFixpoint(value);
  }

  /**
   * An indented line of text that does not start with a dash is plain, and
   * a continuation made of it alone is the text without its indentation.
   */
  lemma {:induction false} ClassifyIndented(text: string)
    requires text != [] && IsTrimmed(text) && text[0] != '-'
    ensures Classify("  " + text) == PlainLine("  " + text)
    ensures ContinuationText(["  " + text]) == text
  {
    var line := "  " + text;
    assert line[1..] == " " + text;
    TrimStartOfSpaced(text);
    TrimmedIsFixpoint(text);
    TrimEachOne(line);
    assert Join([text], "\n") == text;
  }
  /** What is left has no whitespace, and a text without whitespace is left as it is. */
  lemma {:induction false} RemoveSpacesSpec(s: string)
    ensures forall i | 0 <= i < |RemoveSpaces(s)| :: !IsSpace(RemoveSpaces(s)[i])
    ensures (forall i | 0 <= i < |s| :: !IsSpace(s[i])) ==> RemoveSpaces(s) == s
  {
    if s != [] {
      RemoveSpacesSpec(s[1..]);
      assert s == [s[0]] + s[1..];
    }
  }

  /** Removing whitespace distributes over concatenation. */
  lemma {:induction false} RemoveSpacesAppend(a: string, b: string)
    ensures RemoveSpaces(a + b) == RemoveSpaces(a) + RemoveSpaces(b)
  {
    if a == [] {
      assert a + b == b;
    } else {
      assert (a + b)[1..] == a[1..] + b;
      RemoveSpacesAppend(a[1..], b);
    }
  }

  /**
   * The buffer key: `authorurl` and `image`, however cased and spaced, are
   * the aliases of `authorurl` and `imageurl`; any other key is its own
   * lower-case form.
   */
  lemma FieldKeyCases(key: string)
    ensures var n := RemoveSpaces(ToLower(key));
      FieldKey(key) == if n == "authorurl" then "authorurl" else if n == "image" then "imageurl" else ToLower(key)
  {
  }

  /**
   * Which bullet keys fill the two link fields: the author link exactly
   * when the key, lower-cased and without whitespace, is `authorurl`; the
   * image link exactly when that is `image`, or when the lower-cased key is
   * `imageurl` itself. So `Image URL` reaches neither.
   */
  lemma LinkFieldKeys(key: string)
    ensures FieldKey(key) == "authorurl" <==> RemoveSpaces(ToLower(key)) == "authorurl"
    ensures FieldKey(key) == "imageurl" <==> RemoveSpaces(ToLower(key)) == "image" || ToLower(key) == "imageurl"
  {
    FieldKeyCases(key);
    LinkKeysUnspaced(ToLower(key));
  }

  /** The two link keys hold no whitespace, so removing it leaves them. */
  lemma LinkKeysUnspaced(lower: string)
    ensures lower == "authorurl" || lower == "imageurl" ==> RemoveSpaces(lower) == lower
    ensures "authorurl" != "imageurl" && "authorurl" != "image" && "image" != "imageurl"
  {
    if lower == "authorurl" || lower == "imageurl" {
      assert forall i | 0 <= i < |lower| :: !IsSpace(lower[i]);
      RemoveSpacesSpec(lower);
    }
  }
}
