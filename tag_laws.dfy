/**
 * What `normalizeTags` promises about its result: every tag is non-empty
 * and made of `a-z`, `0-9` and `-`; no tag appears twice; tags come in the
 * order of their first occurrence among the cleaned candidates; a JSON
 * array's strings take precedence over the fallback split; and clean input
 * comes back unchanged.
 */
module TagLaws {
  import opened Strings
  import opened Tags
  import Entries

  // ---------------------------------------------------------------------
  // Cleaning one tag

  lemma {:induction false} KeepTagCharsKeeps(s: string)
    ensures forall c | c in KeepTagChars(s) :: IsKept(c) && c in s
  {
    if s != [] {
      KeepTagCharsKeeps(s[1..]);
    }
  }

  /** Replacing whitespace runs leaves `-` and the non-space characters of the input. */
  lemma {:induction false} DashRunsChars(s: string)
    ensures forall c | c in DashRuns(s) :: c == '-' || (c in s && !IsSpace(c))
    decreases |s|
  {
    if s != [] {
      if IsSpace(s[0]) {
        var t := TrimStart(s[1..]);
        TrimStartSuffix(s[1..]);
        DashRunsChars(t);
        assert forall c | c in t :: c in s by {
          forall c | c in t
            ensures c in s
          {
            var i :| 0 <= i < |t| && t[i] == c;
            assert s[|s| - |t| + i] == c;
          }
        }
      } else {
        DashRunsChars(s[1..]);
      }
    }
  }

  /** A cleaned candidate holds only `a-z`, `0-9` and `-`. */
  lemma CleanTagChars(tag: string)
    ensures IsTagText(CleanTag(tag))
  {
    var k := KeepTagChars(ToLower(tag));
    KeepTagCharsKeeps(ToLower(tag));
    TrimKeepsChars(k);
    DashRunsChars(Trim(k));
    var r := CleanTag(tag);
    assert forall i | 0 <= i < |r| :: r[i] in r;
  }

  lemma ToLowerOfTagText(s: string)
    requires IsTagText(s)
    ensures ToLower(s) == s
  {
    assert forall i | 0 <= i < |s| :: ToLower(s)[i] == s[i];
  }

  lemma {:induction false} KeepTagCharsOfKept(s: string)
    requires forall i | 0 <= i < |s| :: IsKept(s[i])
    ensures KeepTagChars(s) == s
  {
    if s != [] {
      KeepTagCharsOfKept(s[1..]);
    }
  }

  lemma {:induction false} DashRunsOfTagText(s: string)
    requires IsTagText(s)
    ensures DashRuns(s) == s
  {
    if s != [] {
      DashRunsOfTagText(s[1..]);
    }
  }

  /** Cleaning leaves a text of tag characters as it is. */
  lemma CleanTagOfTagText(s: string)
    requires IsTagText(s)
    ensures CleanTag(s) == s
  {
    ToLowerOfTagText(s);
    KeepTagCharsOfKept(s);
    TrimmedIsFixpoint(s);
    DashRunsOfTagText(s);
  }

  lemma KeepPadded(t: string)
    requires IsTag(t)
    ensures KeepTagChars(" " + t + " ") == " " + t + " "
  {
    KeepTagCharsOfKept(" " + t + " ");
  }

  lemma TrimPadded(t: string)
    requires IsTag(t)
    ensures Trim(" " + t + " ") == t
  {
    var padded := " " + t + " ";
    assert padded[1..] == t + " ";
    TrimStartOfNonSpace(t + " ");
    assert TrimStart(padded) == t + " ";
    assert (t + " ")[..|t|] == t;
    TrimmedIsFixpoint(t);
    assert TrimEnd(t + " ") == t;
  }

  /** Whitespace around a tag, in any case, is trimmed away. */
  lemma CleanTagPadded(s: string, t: string)
    requires IsTag(t) && ToLower(s) == " " + t + " "
    ensures CleanTag(s) == t
  {
    KeepPadded(t);
    TrimPadded(t);
    DashRunsOfTagText(t);
  }

  /** Every cleaned candidate holds only tag characters. */
  lemma {:induction false} CleanAllTagText(xs: seq<string>)
    ensures forall x | x in CleanAll(xs) :: IsTagText(x)
  {
    if xs != [] {
      CleanAllTagText(xs[1..]);
      CleanTagChars(xs[0]);
      forall x | x in CleanAll(xs)
        ensures IsTagText(x)
      {
        if x != CleanTag(xs[0]) {
          assert x in CleanAll(xs[1..]);
        }
      }
    }
  }

  /** Cleaning leaves a list of tag texts as it is. */
  lemma {:induction false} CleanAllOfTagTexts(xs: seq<string>)
    requires forall i | 0 <= i < |xs| :: IsTagText(xs[i])
    ensures CleanAll(xs) == xs
  {
    if xs != [] {
      CleanTagOfTagText(xs[0]);
      CleanAllOfTagTexts(xs[1..]);
      assert [xs[0]] + xs[1..] == xs;
    }
  }

  lemma CleanAllCons(x: string, xs: seq<string>)
    ensures CleanAll([x] + xs) == [CleanTag(x)] + CleanAll(xs)
  {
    assert ([x] + xs)[1..] == xs;
  }

  /** Cleaning is idempotent. */
  lemma CleanTagIdempotent(tag: string)
    ensures CleanTag(CleanTag(tag)) == CleanTag(tag)
  {
    CleanTagChars(tag);
    CleanTagOfTagText(CleanTag(tag));
  }

  /** Cleaning ignores case. */
  lemma CleanTagIgnoresCase(a: string, b: string)
    requires ToLower(a) == ToLower(b)
    ensures CleanTag(a) == CleanTag(b)
  {
  }

  /** Deleting characters works piece by piece. */
  lemma {:induction false} KeepTagCharsAppend(x: string, y: string)
    ensures KeepTagChars(x + y) == KeepTagChars(x) + KeepTagChars(y)
  {
    if x == [] {
      assert x + y == y;
    } else {
      var head := if IsKept(x[0]) then [x[0]] else [];
      assert (x + y)[0] == x[0] && (x + y)[1..] == x[1..] + y;
      KeepTagCharsAppend(x[1..], y);
      var rest, tail := KeepTagChars(x[1..]), KeepTagChars(y);
      assert head + (rest + tail) == (head + rest) + tail;
    }
  }

  /** The space after a word becomes a dash; the word is left as it is. */
  lemma {:induction false} DashRunsWord(w: string, rest: string)
    requires IsTagText(w) && rest != [] && !IsSpace(rest[0])
    ensures DashRuns(w + " " + rest) == w + "-" + DashRuns(rest)
  {
    if w == [] {
      assert (" " + rest)[1..] == rest;
      TrimStartOfNonSpace(rest);
    } else {
      assert (w + " " + rest)[1..] == w[1..] + " " + rest;
      DashRunsWord(w[1..], rest);
    }
  }

  /** Deleting a character that is not kept joins what stood on either side of it. */
  lemma KeepDrops(x: string, p: char, y: string)
    requires !IsKept(p)
    ensures KeepTagChars(x + [p] + y) == KeepTagChars(x) + KeepTagChars(y)
  {
    assert x + [p] + y == x + ([p] + y);
    KeepTagCharsAppend(x, [p] + y);
    assert ([p] + y)[1..] == y;
  }

  /** Words separated by single spaces come out separated by dashes. */
  lemma {:induction false} DashRunsJoin(words: seq<string>)
    requires forall i | 0 <= i < |words| :: IsTag(words[i])
    ensures DashRuns(Join(words, " ")) == Join(words, "-")
  {
    if |words| == 1 {
      DashRunsOfTagText(words[0]);
    } else if |words| > 1 {
      var rest := words[1..];
      DashRunsJoin(rest);
      JoinStart(rest, " ");
      DashRunsWord(words[0], Join(rest, " "));
    }
  }

  // ---------------------------------------------------------------------
  // Filtering and deduplication

  lemma {:induction false} NonEmptyMembers(xs: seq<string>)
    ensures forall x :: x in NonEmpty(xs) <==> x in xs && x != ""
  {
    if xs != [] {
      NonEmptyMembers(xs[1..]);
      assert xs == [xs[0]] + xs[1..];
    }
  }

  lemma {:induction false} NonEmptyOfNonEmpty(xs: seq<string>)
    requires forall i | 0 <= i < |xs| :: xs[i] != ""
    ensures NonEmpty(xs) == xs
  {
    if xs != [] {
      NonEmptyOfNonEmpty(xs[1..]);
      assert xs == [xs[0]] + xs[1..];
    }
  }

  /** Deduplication keeps exactly the values of its input. */
  lemma {:induction false} DedupeMembers(xs: seq<string>)
    ensures forall x :: x in Dedupe(xs) <==> x in xs
  {
    if xs != [] {
      var init := xs[..|xs| - 1];
      DedupeMembers(init);
      assert xs == init + [xs[|xs| - 1]];
    }
  }

  /** No value comes out of deduplication twice. */
  lemma {:induction false} DedupeDistinct(xs: seq<string>)
    ensures Distinct(Dedupe(xs))
  {
    if xs != [] {
      DedupeDistinct(xs[..|xs| - 1]);
    }
  }

  /** `FirstIndex` is determined by what it ensures. */
  lemma FirstIndexUnique(xs: seq<string>, x: string, p: nat)
    requires p < |xs| && xs[p] == x && x !in xs[..p]
    ensures FirstIndex(xs, x) == p
  {
  }

  lemma FirstIndexAppend(xs: seq<string>, y: string, x: string)
    requires x in xs
    ensures x in xs + [y] && FirstIndex(xs + [y], x) == FirstIndex(xs, x)
  {
    var p := FirstIndex(xs, x);
    assert (xs + [y])[..p] == xs[..p];
    FirstIndexUnique(xs + [y], x, p);
  }

  /** `r` lists values of `xs` in the order of their first occurrence there. */
  predicate InFirstOccurrenceOrder(xs: seq<string>, r: seq<string>) {
    forall i, j | 0 <= i < j < |r| ::
      r[i] in xs && r[j] in xs && FirstIndex(xs, r[i]) < FirstIndex(xs, r[j])
  }

  /** Values leave deduplication in the order of their first occurrence. */
  lemma {:induction false} DedupeFirstOrder(xs: seq<string>)
    ensures InFirstOccurrenceOrder(xs, Dedupe(xs))
  {
    if xs != [] {
      var init := xs[..|xs| - 1];
      var x := xs[|xs| - 1];
      var prev := Dedupe(init);
      var r := Dedupe(xs);
      DedupeFirstOrder(init);
      DedupeMembers(init);
      assert xs == init + [x];
      forall i, j | 0 <= i < j < |r|
        ensures r[i] in xs && r[j] in xs && FirstIndex(xs, r[i]) < FirstIndex(xs, r[j])
      {
        assert r[i] == prev[i] && prev[i] in prev;
        FirstIndexAppend(init, x, r[i]);
        if j < |prev| {
          assert r[j] == prev[j] && prev[j] in prev;
          FirstIndexAppend(init, x, r[j]);
        } else {
          assert r[j] == x && x !in init;
          FirstIndexUnique(xs, x, |xs| - 1);
        }
      }
    }
  }

  /** Deduplicating a list without repeats changes nothing. */
  lemma {:induction false} DedupeOfDistinct(xs: seq<string>)
    requires Distinct(xs)
    ensures Dedupe(xs) == xs
  {
    if xs != [] {
      var init := xs[..|xs| - 1];
      DedupeOfDistinct(init);
      assert xs[|xs| - 1] !in init;
    }
  }

  // ---------------------------------------------------------------------
  // Candidates

  /** The string elements are the strings of the array: none exactly when no element is a string. */
  lemma {:induction false} StringItemsSpec(items: seq<JsonValue>)
    ensures StringItems(items) == [] <==> forall i | 0 <= i < |items| :: !items[i].JString?
    ensures forall s | s in StringItems(items) :: JString(s) in items
  {
    if items != [] {
      var init := items[..|items| - 1];
      StringItemsSpec(init);
      assert forall i | 0 <= i < |init| :: init[i] == items[i];
      assert forall v | v in init :: v in items;
    }
  }

  lemma {:induction false} StringItemsOfStrings(tags: seq<string>)
    ensures StringItems(JsonStrings(tags)) == tags
  {
    if tags != [] {
      var init := tags[..|tags| - 1];
      StringItemsOfStrings(init);
      assert JsonStrings(tags)[..|tags| - 1] == JsonStrings(init);
    }
  }

  /** An array with a string element supplies the candidates; the reply's text is not split. */
  lemma ArrayStringsWin(content: string, items: seq<JsonValue>, k: nat)
    requires k < |items| && items[k].JString?
    ensures Chosen(content, ParsedArray(items)) == StringItems(items)
  {
    StringItemsSpec(items);
  }

  /** A failed parse, a non-array, or an array without strings all fall back to the split. */
  lemma FallbackWithoutStrings(content: string, parsed: JsonParse)
    requires parsed.ParsedArray? ==> forall i | 0 <= i < |parsed.items| :: !parsed.items[i].JString?
    ensures Chosen(content, parsed) == Fallback(content)
  {
    if parsed.ParsedArray? {
      StringItemsSpec(parsed.items);
    }
  }

  // ---------------------------------------------------------------------
  // The fallback split

  lemma {:induction false} StripBracketsChars(s: string)
    ensures forall c | c in StripBrackets(s) :: c != '[' && c != ']' && c in s
  {
    if s != [] {
      StripBracketsChars(s[1..]);
    }
  }

  lemma {:induction false} StripBracketsOfPlain(s: string)
    requires '[' !in s && ']' !in s
    ensures StripBrackets(s) == s
  {
    if s != [] {
      StripBracketsOfPlain(s[1..]);
    }
  }

  /** Every character of `p` occurs in `s`. */
  predicate CharsFrom(p: string, s: string) {
    forall c | c in p :: c in s
  }

  /** Every piece of a split comes from the text. */
  lemma {:induction false} SplitChars(s: string, seps: set<char>)
    ensures forall p | p in Split(s, seps) :: CharsFrom(p, s)
  {
    if s != [] {
      var rest := Split(s[1..], seps);
      SplitChars(s[1..], seps);
      assert CharsFrom(s[1..], s) by {
        forall c | c in s[1..]
          ensures c in s
        {
          var k :| 0 <= k < |s[1..]| && s[1..][k] == c;
          assert s[k + 1] == c;
        }
      }
      forall p | p in Split(s, seps)
        ensures CharsFrom(p, s)
      {
        if p !in rest {
          if s[0] !in seps {
            assert p == [s[0]] + rest[0];
            assert CharsFrom(rest[0], s[1..]);
          }
        } else {
          assert CharsFrom(p, s[1..]);
        }
      }
    }
  }

  /** No bracket and no delimiter. */
  predicate PlainText(p: string) {
    forall c | c in p :: c !in Delimiters && c != '[' && c != ']'
  }

  /** A piece of the fallback split: non-empty, trimmed, free of brackets and delimiters. */
  predicate IsFallbackPiece(p: string) {
    p != "" && IsTrimmed(p) && PlainText(p)
  }

  /** Trimming plain parts leaves trimmed plain parts. */
  lemma {:induction false} TrimEachPlain(parts: seq<string>)
    requires forall p | p in parts :: PlainText(p)
    ensures forall q | q in TrimEach(parts) :: IsTrimmed(q) && PlainText(q)
  {
    if parts != [] {
      assert forall p | p in parts[1..] :: p in parts;
      TrimEachPlain(parts[1..]);
      TrimIsTrimmed(parts[0]);
      TrimKeepsChars(parts[0]);
      assert PlainText(parts[0]);
      forall q | q in TrimEach(parts)
        ensures IsTrimmed(q) && PlainText(q)
      {
        if q !in TrimEach(parts[1..]) {
          assert q == Trim(parts[0]);
        }
      }
    }
  }

  /** The pieces of the bracket-free text are plain. */
  lemma SplitPlain(content: string)
    ensures forall p | p in Split(StripBrackets(content), Delimiters) :: PlainText(p)
  {
    var stripped := StripBrackets(content);
    StripBracketsChars(content);
    SplitChars(stripped, Delimiters);
    forall p | p in Split(stripped, Delimiters)
      ensures PlainText(p)
    {
      assert CharsFrom(p, stripped);
      var i :| 0 <= i < |Split(stripped, Delimiters)| && Split(stripped, Delimiters)[i] == p;
    }
  }

  /** Every fallback piece is non-empty, trimmed, and holds no bracket and no delimiter. */
  lemma FallbackPieces(content: string)
    ensures forall p | p in Fallback(content) :: IsFallbackPiece(p)
  {
    var pieces := Split(StripBrackets(content), Delimiters);
    SplitPlain(content);
    TrimEachPlain(pieces);
    NonEmptyMembers(TrimEach(pieces));
  }

  lemma TrimSpaced(p: string)
    requires p != "" && IsTrimmed(p)
    ensures Trim(" " + p) == p
  {
    assert (" " + p)[1..] == p;
    TrimStartOfNonSpace(p);
    TrimmedKeepsEnds(p);
  }

  lemma PieceCharsPlain(p: string)
    requires IsFallbackPiece(p)
    ensures PlainText(" " + p)
  {
    assert forall ch | ch in " " + p :: ch == ' ' || ch in p;
  }

  /** Three pieces joined by `, ` and `; ` hold no bracket. */
  lemma ThreeWithoutBrackets(a: string, b: string, c: string)
    requires IsFallbackPiece(a) && IsFallbackPiece(b) && IsFallbackPiece(c)
    ensures '[' !in a + ", " + b + "; " + c && ']' !in a + ", " + b + "; " + c
  {
    PieceCharsPlain(b);
    PieceCharsPlain(c);
    var content := a + ", " + b + "; " + c;
    assert content == a + "," + (" " + b) + ";" + (" " + c);
  }

  /** Three pieces joined by `, ` and `; ` split at the two delimiters. */
  lemma SplitThree(a: string, b: string, c: string)
    requires IsFallbackPiece(a) && IsFallbackPiece(b) && IsFallbackPiece(c)
    ensures Split(a + ", " + b + "; " + c, Delimiters) == [a] + ([" " + b] + [" " + c])
  {
    var tail := " " + c;
    var middle := " " + b + "; " + c;
    assert a + ", " + b + "; " + c == a + [','] + middle;
    assert middle == " " + b + [';'] + tail;
    PieceCharsPlain(b);
    PieceCharsPlain(c);
    SplitWithoutSeparator(tail, Delimiters);
    SplitAfterPiece(" " + b, ';', tail, Delimiters);
    SplitAfterPiece(a, ',', middle, Delimiters);
  }

  /**
   * Three pieces, the first two ended by `, ` and `; `, are split back into
   * those pieces.
   */
  lemma FallbackOfThree(a: string, b: string, c: string)
    requires IsFallbackPiece(a) && IsFallbackPiece(b) && IsFallbackPiece(c)
    ensures Fallback(a + ", " + b + "; " + c) == [a] + ([b] + [c])
  {
    var content := a + ", " + b + "; " + c;
    NonEmptyOfNonEmpty([a] + ([b] + [c]));
    ThreeWithoutBrackets(a, b, c);
    StripBracketsOfPlain(content);
    SplitThree(a, b, c);
    TrimThree(a, b, c);
  }

  lemma TrimThree(a: string, b: string, c: string)
    requires IsFallbackPiece(a) && IsFallbackPiece(b) && IsFallbackPiece(c)
    ensures TrimEach([a] + ([" " + b] + [" " + c])) == [a] + ([b] + [c])
  {
    TrimEachOne(" " + c);
    TrimEachCons(" " + b, [" " + c]);
    TrimEachCons(a, [" " + b] + [" " + c]);
    TrimmedIsFixpoint(a);
    TrimSpaced(b);
    TrimSpaced(c);
  }

  /** A split at a separator of the set peels off a first part that holds none. */
  lemma {:induction false} SplitJoinAt(parts: seq<string>, sep: char, seps: set<char>)
    requires |parts| > 0 && sep in seps
    requires forall i, c | 0 <= i < |parts| && c in parts[i] :: c !in seps
    ensures Split(Join(parts, [sep]), seps) == parts
  {
    if |parts| == 1 {
      SplitWithoutSeparator(parts[0], seps);
    } else {
      SplitJoinAt(parts[1..], sep, seps);
      SplitAfterPiece(parts[0], sep, Join(parts[1..], [sep]), seps);
      assert [parts[0]] + parts[1..] == parts;
    }
  }

  /** Clean tags hold no bracket, no delimiter and no whitespace. */
  lemma TagCharsArePlain(t: string)
    requires IsTagText(t)
    ensures forall c | c in t :: c !in Delimiters && c != '[' && c != ']' && !IsSpace(c)
  {
    forall c | c in t
      ensures c !in Delimiters && c != '[' && c != ']' && !IsSpace(c)
    {
      var k :| 0 <= k < |t| && t[k] == c;
      assert IsTagChar(t[k]);
    }
  }

  lemma {:induction false} CommaListHasNoBrackets(tags: seq<string>)
    requires forall i | 0 <= i < |tags| :: IsTag(tags[i])
    ensures '[' !in Join(tags, ",") && ']' !in Join(tags, ",")
  {
    if |tags| > 0 {
      TagCharsArePlain(tags[0]);
    }
    if |tags| > 1 {
      CommaListHasNoBrackets(tags[1..]);
      assert Join(tags, ",") == tags[0] + "," + Join(tags[1..], ",");
    }
  }

  lemma TagTrimmed(t: string)
    requires IsTag(t)
    ensures Trim(t) == t
  {
    assert IsTagChar(t[0]) && IsTagChar(t[|t| - 1]);
    TrimmedKeepsEnds(t);
  }

  lemma {:induction false} TrimEachOfTags(tags: seq<string>)
    requires forall i | 0 <= i < |tags| :: IsTag(tags[i])
    ensures TrimEach(tags) == tags
  {
    if tags != [] {
      var t, rest := tags[0], tags[1..];
      assert [t] + rest == tags;
      TrimEachOfTags(rest);
      TagTrimmed(t);
      TrimEachCons(t, rest);
    }
  }

  /** A comma-separated list of clean tags is split back into those tags. */
  lemma FallbackOfCommaList(tags: seq<string>)
    requires |tags| > 0
    requires forall i | 0 <= i < |tags| :: IsTag(tags[i])
    ensures Fallback(Join(tags, ",")) == tags
  {
    var content := Join(tags, ",");
    CommaListHasNoBrackets(tags);
    StripBracketsOfPlain(content);
    forall i | 0 <= i < |tags|
      ensures forall c | c in tags[i] :: c !in Delimiters
    {
      TagCharsArePlain(tags[i]);
    }
    SplitJoinAt(tags, ',', Delimiters);
    assert Split(StripBrackets(content), Delimiters) == tags;
    TrimEachOfTags(tags);
    NonEmptyOfNonEmpty(tags);
  }

  // ---------------------------------------------------------------------
  // normalizeTags

  /** Every returned tag is non-empty and made of `a-z`, `0-9` and `-`. */
  lemma NormalizedTagsClean(content: string, parsed: JsonParse)
    ensures var r := Normalize(content, parsed);
      forall i | 0 <= i < |r| :: IsTag(r[i])
  {
    var chosen := Chosen(content, parsed);
    var cleaned := CleanAll(chosen);
    var r := Normalize(content, parsed);
    DedupeMembers(Cleaned(content, parsed));
    NonEmptyMembers(cleaned);
    CleanAllTagText(chosen);
    forall i | 0 <= i < |r|
      ensures IsTag(r[i])
    {
      assert r[i] in r;
    }
  }

  /** No tag is returned twice. */
  lemma NormalizedTagsDistinct(content: string, parsed: JsonParse)
    ensures Distinct(Normalize(content, parsed))
  {
    DedupeDistinct(Cleaned(content, parsed));
  }

  /** The tags are exactly the non-empty cleaned candidates. */
  lemma NormalizedTagsCover(content: string, parsed: JsonParse)
    ensures forall t :: t in Normalize(content, parsed) <==> t != "" && t in CleanAll(Chosen(content, parsed))
  {
    DedupeMembers(Cleaned(content, parsed));
    NonEmptyMembers(CleanAll(Chosen(content, parsed)));
  }

  /** Tags come in the order in which they first occur among the non-empty cleaned candidates. */
  lemma NormalizedTagsOrder(content: string, parsed: JsonParse)
    ensures InFirstOccurrenceOrder(Cleaned(content, parsed), Normalize(content, parsed))
  {
    DedupeFirstOrder(Cleaned(content, parsed));
  }

  /** The cleaning pipeline keeps a list of distinct clean tags as it is. */
  lemma PipelineKeepsTags(tags: seq<string>)
    requires Distinct(tags)
    requires forall i | 0 <= i < |tags| :: IsTag(tags[i])
    ensures Dedupe(NonEmpty(CleanAll(tags))) == tags
  {
    CleanAllOfTagTexts(tags);
    NonEmptyOfNonEmpty(tags);
    DedupeOfDistinct(tags);
  }

  /** A JSON array of distinct clean tags is returned unchanged, whatever the reply's text. */
  lemma CleanArrayKept(content: string, tags: seq<string>)
    requires |tags| > 0 && Distinct(tags)
    requires forall i | 0 <= i < |tags| :: IsTag(tags[i])
    ensures Normalize(content, ParsedArray(JsonStrings(tags))) == tags
  {
    StringItemsOfStrings(tags);
    assert Chosen(content, ParsedArray(JsonStrings(tags))) == tags;
    PipelineKeepsTags(tags);
  }

  /**
   * Normalising is idempotent: writing the tags back as a JSON array and
   * normalising that gives the same tags.
   */
  lemma NormalizeIdempotent(content: string, parsed: JsonParse, again: string)
    requires Normalize(content, parsed) != []
    ensures var r := Normalize(content, parsed);
      Normalize(again, ParsedArray(JsonStrings(r))) == r
  {
    NormalizedTagsClean(content, parsed);
    NormalizedTagsDistinct(content, parsed);
    CleanArrayKept(again, Normalize(content, parsed));
  }

  /** A reply that is a comma-separated list of distinct clean tags gives those tags. */
  lemma CommaListKept(tags: seq<string>, parsed: JsonParse)
    requires |tags| > 0 && Distinct(tags)
    requires forall i | 0 <= i < |tags| :: IsTag(tags[i])
    requires !parsed.ParsedArray?
    ensures Normalize(Join(tags, ","), parsed) == tags
  {
    var content := Join(tags, ",");
    FallbackWithoutStrings(content, parsed);
    FallbackOfCommaList(tags);
    assert Chosen(content, parsed) == tags;
    PipelineKeepsTags(tags);
  }

  // ---------------------------------------------------------------------
  // buildTagPrompt

  /** No line feed anywhere in `s`. */
  predicate NoLineFeed(s: string) {
    forall i | 0 <= i < |s| :: s[i] != '\n'
  }

  lemma GlueNoLineFeed(a: string, b: string)
    requires NoLineFeed(a) && NoLineFeed(b)
    ensures NoLineFeed(a + b)
  {
    assert forall i | 0 <= i < |a + b| :: (a + b)[i] == if i < |a| then a[i] else b[i - |a|];
  }

  lemma IntroPiece1(p: string) requires p == "You are given a " ensures NoLineFeed(p) {}
  lemma IntroPiece2(p: string) requires p == "prompt entry from" ensures NoLineFeed(p) {}
  lemma IntroPiece3(p: string) requires p == " a public prompt list." ensures NoLineFeed(p) {}
  lemma TaskPiece1(p: string) requires p == "Generate between 3 " ensures NoLineFeed(p) {}
  lemma TaskPiece2(p: string) requires p == "and 8 concise tags " ensures NoLineFeed(p) {}
  lemma TaskPiece3(p: string) requires p == "that describe the " ensures NoLineFeed(p) {}
  lemma TaskPiece4(p: string) requires p == "topic or use-case." ensures NoLineFeed(p) {}
  lemma FormatPiece1(p: string) requires p == "Return only a JSON " ensures NoLineFeed(p) {}
  lemma FormatPiece2(p: string) requires p == "array of lower-case, " ensures NoLineFeed(p) {}
  lemma FormatPiece3(p: string) requires p == "hyphenated strings " ensures NoLineFeed(p) {}
  lemma FormatPiece4(p: string) requires p == "with no explanations." ensures NoLineFeed(p) {}

  lemma IntroOneLine()
    ensures '\n' !in TagPromptIntro
  {
    var a, b, c := "You are given a ", "prompt entry from", " a public prompt list.";
    IntroPiece1(a);
    IntroPiece2(b);
    IntroPiece3(c);
    GlueNoLineFeed(a, b);
    GlueNoLineFeed(a + b, c);
  }

  lemma TaskOneLine()
    ensures '\n' !in TagPromptTask
  {
    var a, b, c, d := "Generate between 3 ", "and 8 concise tags ", "that describe the ", "topic or use-case.";
    TaskPiece1(a);
    TaskPiece2(b);
    TaskPiece3(c);
    TaskPiece4(d);
    GlueNoLineFeed(a, b);
    GlueNoLineFeed(a + b, c);
    GlueNoLineFeed(a + b + c, d);
  }

  lemma FormatOneLine()
    ensures '\n' !in TagPromptFormat
  {
    var a, b, c, d := "Return only a JSON ", "array of lower-case, ", "hyphenated strings ", "with no explanations.";
    FormatPiece1(a);
    FormatPiece2(b);
    FormatPiece3(c);
    FormatPiece4(d);
    GlueNoLineFeed(a, b);
    GlueNoLineFeed(a + b, c);
    GlueNoLineFeed(a + b + c, d);
  }

  lemma LabelledOneLine(prefix: string, text: string)
    requires '\n' !in prefix && '\n' !in text
    ensures '\n' !in prefix + text
  {
  }

  /**
   * For an entry whose title and description are one line each, the
   * request reads back as exactly its five lines: the introduction,
   * `Title: ` and the title, `Description: ` and the description, the instruction
   * and the answer format.
   */
  lemma TagPromptReadsBack(entry: Entries.Entry)
    requires '\n' !in entry.title && '\n' !in entry.description
    ensures var lines := Split(BuildTagPrompt(entry), {'\n'});
      |lines| == 5 && lines[0] == TagPromptIntro
      && lines[1] == "Title: " + entry.title && lines[2] == "Description: " + entry.description
      && lines[3] == TagPromptTask && lines[4] == TagPromptFormat
  {
    var lines := TagPromptLines(entry);
    IntroOneLine();
    TaskOneLine();
    FormatOneLine();
    LabelledOneLine("Title: ", entry.title);
    LabelledOneLine("Description: ", entry.description);
    assert forall i | 0 <= i < |lines| :: '\n' !in lines[i];
    SplitJoin(lines, '\n');
  }
}
