/**
 * The four regular expressions of the markdown parser
 * (`LANG_HINT_RE`, `TITLE_RE`, `LANG_RE`, `BULLET_RE`), written out as
 * extractor functions that return the capture groups the JavaScript engine
 * would return, backtracking included, plus the `replace(/\n$/, "")` applied
 * to every line.
 */
module Syntax {
  import opened Wrappers
  import opened Strings

  predicate NoLineTerminator(s: string) {
    forall i | 0 <= i < |s| :: !IsLineTerminator(s[i])
  }

  /** `rawLine.replace(/\n$/, "")`: one trailing line feed is dropped. */
  function StripTrailingNewline(s: string): (r: string)
    ensures s == r || s == r + "\n"
    ensures |s| > 0 && s[|s| - 1] == '\n' ==> |r| == |s| - 1
  {
    if |s| > 0 && s[|s| - 1] == '\n' then s[..|s| - 1] else s
  }

  /** What `(.*)` captures with no `$` after it: the text up to the first line terminator. */
  function UpToLineEnd(s: string): (r: string)
    ensures |r| <= |s| && r == s[..|r|]
    ensures NoLineTerminator(r)
    ensures |r| == |s| || IsLineTerminator(s[|r|])
  {
    if s == [] || IsLineTerminator(s[0]) then [] else [s[0]] + UpToLineEnd(s[1..])
  }

  /** The first index of `c` in `s`. */
  function IndexOf(s: string, c: char): (r: Option<nat>)
    ensures r.Some? ==> r.value < |s| && s[r.value] == c
    ensures r.Some? ==> forall i | 0 <= i < r.value :: s[i] != c
    ensures r.None? <==> forall i | 0 <= i < |s| :: s[i] != c
  {
    if s == [] then None
    else if s[0] == c then Some(0)
    else match IndexOf(s[1..], c)
      case None => None
      case Some(k) => Some(k + 1)
  }

  /**
   * `^<marker>\s+(.*)`: the marker, at least one whitespace character, and
   * the capture, which starts after all of that whitespace (greedy `\s+`) and
   * stops at the first line terminator.
   */
  function MatchHeading(line: string, marker: string): (r: Option<string>)
    ensures r.Some? <==> |line| > |marker| && line[..|marker|] == marker && IsSpace(line[|marker|])
    ensures r.Some? ==> NoLineTerminator(r.value) && (r.value == [] || !IsSpace(r.value[0]))
  {
    if |line| > |marker| && line[..|marker|] == marker && IsSpace(line[|marker|]) then
      TrimStartFirst(line[|marker|..]);
      Some(UpToLineEnd(TrimStart(line[|marker|..])))
    else
      None
  }

  /** `LANG_RE = /^##\s+(.*)/`. */
  function MatchLanguageHeading(line: string): Option<string>
  {
    MatchHeading(line, "##")
  }

  /** `TITLE_RE = /^###\s+(.*)/`. */
  function MatchEntryHeading(line: string): Option<string>
  {
    MatchHeading(line, "###")
  }

  /** The two capture groups of `BULLET_RE`, before the caller trims them. */
  datatype Bullet = Bullet(key: string, value: string)

  /**
   * `BULLET_RE = /^\s*-\s+([^:]+):\s*(.*)$/`.  The key group ends at the
   * first colon after the dash; `\s+` and `[^:]+` each need one character,
   * so when only whitespace lies between dash and colon the key group is
   * that run's last character.  `(.*)$` fails when a line terminator is left
   * after the whitespace that follows the colon.
   */
  function MatchBullet(line: string): (r: Option<Bullet>)
    ensures r.Some? ==> r.value.key != "" && ':' !in r.value.key
    ensures r.Some? ==> NoLineTerminator(r.value.value)
    ensures r.Some? ==> r.value.value == [] || !IsSpace(r.value.value[0])
  {
    var rest := TrimStart(line);
    if rest == [] || rest[0] != '-' then None else MatchAfterDash(rest[1..])
  }

  /** `\s+([^:]+):\s*(.*)$`, matched against what follows the dash. */
  function MatchAfterDash(afterDash: string): (r: Option<Bullet>)
    ensures r.Some? ==> r.value.key != "" && ':' !in r.value.key
    ensures r.Some? ==> NoLineTerminator(r.value.value)
    ensures r.Some? ==> r.value.value == [] || !IsSpace(r.value.value[0])
  {
    if afterDash == [] || !IsSpace(afterDash[0]) then None
    else match IndexOf(afterDash, ':')
      case None => None
      case Some(c) =>
        if c < 2 || !NoLineTerminator(TrimStart(afterDash[c + 1..])) then None
        else
          TrimStartFirst(afterDash[c + 1..]);
          Some(Bullet(KeyGroup(afterDash[..c]), TrimStart(afterDash[c + 1..])))
  }

  /**
   * The `[^:]+` group, given everything between the dash and the colon:
   * greedy `\s+` takes the leading whitespace, but must leave one character
   * for the group.
   */
  function KeyGroup(keyPart: string): (r: string)
    requires |keyPart| >= 2
    ensures r != [] && forall ch | ch in r :: ch in keyPart
  {
    var key := TrimStart(keyPart);
    TrimStartSuffix(keyPart);
    assert forall i | 0 <= i < |key| :: key[i] == keyPart[|keyPart| - |key| + i];
    if key == [] then [keyPart[|keyPart| - 1]] else key
  }

  /** A `(`, one or more characters other than `)`, and the `)` that closes them. */
  predicate HintAt(s: string, i: int, j: int) {
    0 <= i && i + 2 <= j < |s| && s[i] == '(' && s[j] == ')' && forall m | i < m < j :: s[m] != ')'
  }

  /** `LANG_HINT_RE = /\(([^)]+)\)/`: the leftmost non-empty parenthesised text. */
  function MatchLanguageHint(s: string): (r: Option<string>)
    ensures r.Some? ==> r.value != "" && ')' !in r.value
  {
    if s == [] then None
    else if s[0] == '(' && IndexOf(s[1..], ')').Some? && IndexOf(s[1..], ')').value >= 1 then
      Some(s[1..1 + IndexOf(s[1..], ')').value])
    else
      MatchLanguageHint(s[1..])
  }

  // ---------------------------------------------------------------------
  // What the extractors mean

  /** `### x` never matches the language heading pattern: `#` is not whitespace. */
  lemma HeadingsExclusive(line: string)
    ensures MatchEntryHeading(line).Some? ==> MatchLanguageHeading(line).None?
  {
    if MatchEntryHeading(line).Some? {
      assert line[..3][2] == '#';
    }
  }

  /** Writing a heading and matching it gives its text back. */
  lemma {:induction false} HeadingRoundTrip(marker: string, text: string)
    requires NoLineTerminator(text) && (text == [] || !IsSpace(text[0]))
    ensures MatchHeading(marker + " " + text, marker) == Some(text)
  {
    var line := marker + " " + text;
    assert line[..|marker|] == marker;
    assert line[|marker|..] == " " + text;
    assert (" " + text)[1..] == text;
    assert TrimStart(text) == text;
    UpToLineEndOfLine(text);
  }

  lemma {:induction false} UpToLineEndOfLine(s: string)
    requires NoLineTerminator(s)
    ensures UpToLineEnd(s) == s
  {
    if s != [] {
      UpToLineEndOfLine(s[1..]);
      assert [s[0]] + s[1..] == s;
    }
  }

  lemma TrimStartOfSpaced(x: string)
    requires x == [] || !IsSpace(x[0])
    ensures TrimStart(" " + x) == x
  {
    assert (" " + x)[1..] == x;
  }

  lemma IndexOfFirst(s: string, c: char, k: nat)
    requires k < |s| && s[k] == c
    requires forall i | 0 <= i < k :: s[i] != c
    ensures IndexOf(s, c) == Some(k)
  {
  }

  lemma TrimStartOfDash(line: string)
    requires line != [] && line[0] == '-'
    ensures TrimStart(line) == line
  {
  }

  lemma MatchBulletOfDash(line: string)
    requires line != [] && line[0] == '-'
    ensures MatchBullet(line) == MatchAfterDash(line[1..])
  {
    TrimStartOfDash(line);
  }

  /** The first colon of ` key:rest` is the one after the key. */
  lemma {:induction false} ColonAfterKey(key: string, rest: string)
    requires forall i | 0 <= i < |key| :: key[i] != ':'
    ensures IndexOf(" " + key + ":" + rest, ':') == Some(1 + |key|)
  {
    var s := " " + key + ":" + rest;
    forall i | 1 <= i < 1 + |key| ensures s[i] != ':' {
      assert s[i] == key[i - 1];
    }
    IndexOfFirst(s, ':', 1 + |key|);
  }

  /** Where the parts of ` key: value` sit. */
  lemma {:induction false} SpacedBulletParts(key: string, value: string)
    requires forall i | 0 <= i < |key| :: key[i] != ':'
    ensures var s := " " + key + ": " + value;
      s[0] == ' ' && s[..1 + |key|] == " " + key && s[2 + |key|..] == " " + value
      && IndexOf(s, ':') == Some(1 + |key|)
  {
    var s := " " + key + ": " + value;
    assert s == " " + key + ":" + (" " + value);
    ColonAfterKey(key, " " + value);
  }

  lemma {:induction false} AfterDashRoundTrip(key: string, value: string)
    requires key != "" && !IsSpace(key[0])
    requires forall i | 0 <= i < |key| :: key[i] != ':'
    requires NoLineTerminator(value) && (value == [] || !IsSpace(value[0]))
    ensures MatchAfterDash(" " + key + ": " + value) == Some(Bullet(key, value))
  {
    var afterDash := " " + key + ": " + value;
    var c := 1 + |key|;
    SpacedBulletParts(key, value);
    TrimStartOfSpaced(value);
    TrimStartOfSpaced(key);
    assert KeyGroup(afterDash[..c]) == key;
  }

  /** Writing `- key: value` and matching it gives the key and the value back. */
  lemma {:induction false} BulletRoundTrip(key: string, value: string)
    requires key != "" && !IsSpace(key[0])
    requires forall i | 0 <= i < |key| :: key[i] != ':'
    requires NoLineTerminator(value) && (value == [] || !IsSpace(value[0]))
    ensures MatchBullet("- " + key + ": " + value) == Some(Bullet(key, value))
  {
    var line := "- " + key + ": " + value;
    assert line[1..] == " " + key + ": " + value;
    MatchBulletOfDash(line);
    AfterDashRoundTrip(key, value);
  }

  /** Hints in a text without its first character are the text's hints that start later. */
  lemma HintShift(s: string)
    requires s != []
    ensures forall i, j :: HintAt(s[1..], i, j) ==> HintAt(s, i + 1, j + 1)
    ensures forall i, j :: HintAt(s, i, j) && i >= 1 ==> HintAt(s[1..], i - 1, j - 1)
  {
    forall i, j | HintAt(s[1..], i, j) ensures HintAt(s, i + 1, j + 1) {
      forall m | i + 1 < m < j + 1 ensures s[m] != ')' {
        assert s[m] == s[1..][m - 1];
      }
    }
    forall i, j | HintAt(s, i, j) && i >= 1 ensures HintAt(s[1..], i - 1, j - 1) {
      forall m | i - 1 < m < j - 1 ensures s[1..][m] != ')' {
        assert s[1..][m] == s[m + 1];
      }
    }
  }

  /** Where the `(` of the leftmost hint sits (meaningful when there is one). */
  ghost function HintIndex(s: string): nat
  {
    if s == [] then 0
    else if s[0] == '(' && IndexOf(s[1..], ')').Some? && IndexOf(s[1..], ')').value >= 1 then 0
    else 1 + HintIndex(s[1..])
  }

  /** What `LANG_HINT_RE.exec` returns is a hint of the title, found where `HintIndex` says. */
  lemma {:induction false} HintFound(s: string)
    requires MatchLanguageHint(s).Some?
    ensures var i, h := HintIndex(s), MatchLanguageHint(s).value;
      HintAt(s, i, i + |h| + 1) && h == s[i + 1..i + |h| + 1]
  {
    var k := IndexOf(s[1..], ')');
    if s[0] == '(' && k.Some? && k.value >= 1 {
      HintAtStart(s);
    } else {
      assert MatchLanguageHint(s) == MatchLanguageHint(s[1..]) && HintIndex(s) == 1 + HintIndex(s[1..]);
      HintFound(s[1..]);
      HintShiftFound(s, HintIndex(s[1..]), MatchLanguageHint(s[1..]).value);
    }
  }

  /** A hint of the title without its first character is a hint of the title, one position on. */
  lemma HintShiftFound(s: string, i: int, h: string)
    requires s != [] && HintAt(s[1..], i, i + |h| + 1) && h == s[1..][i + 1..i + |h| + 1]
    ensures HintAt(s, i + 1, i + |h| + 2) && h == s[i + 2..i + |h| + 2]
  {
    HintShiftUp(s, i, i + |h| + 1);
    assert s[1..][i + 1..i + |h| + 1] == s[i + 2..i + |h| + 2];
  }

  lemma HintShiftUp(s: string, i: int, j: int)
    requires s != [] && HintAt(s[1..], i, j)
    ensures HintAt(s, i + 1, j + 1)
  {
    forall m | i + 1 < m < j + 1 ensures s[m] != ')' {
      assert s[m] == s[1..][m - 1];
    }
  }

  lemma HintAtStart(s: string)
    requires s != [] && s[0] == '(' && IndexOf(s[1..], ')').Some? && IndexOf(s[1..], ')').value >= 1
    ensures var k := IndexOf(s[1..], ')').value;
      HintAt(s, 0, k + 1) && MatchLanguageHint(s) == Some(s[1..k + 1]) && HintIndex(s) == 0
  {
    var k := IndexOf(s[1..], ')').value;
    assert HintAt(s, 0, k + 1);
  }

  /** Every hint of the title is found, and none starts before the one `exec` returns. */
  lemma {:induction false} HintLeftmost(s: string, i: int, j: int)
    requires HintAt(s, i, j)
    ensures MatchLanguageHint(s).Some? && HintIndex(s) <= i
  {
    var k := IndexOf(s[1..], ')');
    if i == 0 {
      assert s[1..][j - 1] == ')';
      assert s[1..][0] == s[1];
    } else if !(s[0] == '(' && k.Some? && k.value >= 1) {
      HintShift(s);
      HintLeftmost(s[1..], i - 1, j - 1);
    }
  }

  /**
   * `LANG_HINT_RE.exec` returns the text of the leftmost hint, and returns
   * nothing exactly when the title holds no hint at all.
   */
  lemma LanguageHintSpec(s: string)
    ensures MatchLanguageHint(s).None? <==> forall i, j :: !HintAt(s, i, j)
    ensures MatchLanguageHint(s).Some? ==>
      var i, h := HintIndex(s), MatchLanguageHint(s).value;
      HintAt(s, i, i + |h| + 1) && h == s[i + 1..i + |h| + 1]
      && forall i', j' :: HintAt(s, i', j') ==> i <= i'
  {
    forall i, j | HintAt(s, i, j) ensures MatchLanguageHint(s).Some? && HintIndex(s) <= i {
      HintLeftmost(s, i, j);
    }
    if MatchLanguageHint(s).Some? {
      HintFound(s);
    }
  }
}
