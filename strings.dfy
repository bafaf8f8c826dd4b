/**
 * Text primitives shared by the markdown parser and the tag normaliser, in
 * the ASCII reading of the JavaScript operations they stand for:
 * `\s` and `String.prototype.trim` use the six ASCII whitespace characters,
 * `toLowerCase` maps `A`-`Z` to `a`-`z`, and `Array.prototype.join` /
 * `String.prototype.split` keep their JavaScript edge cases (joining no parts
 * gives "", splitting "" gives [""]).
 */
module Strings {

  /** ASCII whitespace: space, tab, line feed, carriage return, vertical tab, form feed. */
  predicate IsSpace(c: char) {
    c == ' ' || c == '\t' || c == '\n' || c == '\r' || c == '\U{000B}' || c == '\U{000C}'
  }

  /** The characters a regular-expression `.` does not match. */
  predicate IsLineTerminator(c: char) {
    c == '\n' || c == '\r'
  }

  predicate IsUpper(c: char) { 'A' <= c <= 'Z' }

  predicate AllSpaces(s: string) {
    forall i | 0 <= i < |s| :: IsSpace(s[i])
  }

  /** No whitespace at either end (what `trim` leaves behind). */
  predicate IsTrimmed(s: string) {
    s == [] || (!IsSpace(s[0]) && !IsSpace(s[|s| - 1]))
  }

  function LowerChar(c: char): (r: char)
    ensures !IsUpper(r)
    ensures !IsUpper(c) ==> r == c
    ensures IsSpace(r) <==> IsSpace(c)
  {
    if IsUpper(c) then (c as int + 32) as char else c
  }

  /** `toLowerCase`, restricted to ASCII letters. */
  function ToLower(s: string): (r: string)
    ensures |r| == |s|
    ensures forall i | 0 <= i < |r| :: !IsUpper(r[i])
  {
    seq(|s|, i requires 0 <= i < |s| => LowerChar(s[i]))
  }

  /** The suffix left after dropping leading whitespace. */
  function TrimStart(s: string): (r: string)
    ensures |r| <= |s|
  {
    if s != [] && IsSpace(s[0]) then
      TrimStart(s[1..])
    else s
  }

  /** The prefix left after dropping trailing whitespace. */
  function TrimEnd(s: string): (r: string)
    ensures |r| <= |s|
  {
    if s != [] && IsSpace(s[|s| - 1]) then TrimEnd(s[..|s| - 1]) else s
  }

  /** `String.prototype.trim`. */
  function Trim(s: string): (r: string)
  {
    TrimEnd(TrimStart(s))
  }

  /** `Array.prototype.join`. */
  function Join(parts: seq<string>, sep: string): string
  {
    if |parts| == 0 then ""
    else if |parts| == 1 then parts[0]
    else parts[0] + sep + Join(parts[1..], sep)
  }

  /** `split` on a character class: every separator ends the current piece. */
  function Split(s: string, seps: set<char>): (r: seq<string>)
    ensures |r| > 0
    ensures forall i | 0 <= i < |r| :: forall c | c in r[i] :: c !in seps
  {
    if s == [] then [""]
    else
      var rest := Split(s[1..], seps);
      if s[0] in seps then [""] + rest
      else [[s[0]] + rest[0]] + rest[1..]
  }

  /** `parts.map((p) => p.trim())`. */
  function TrimEach(parts: seq<string>): seq<string>
  {
    if parts == [] then [] else [Trim(parts[0])] + TrimEach(parts[1..])
  }

  // ---------------------------------------------------------------------
  // Trimming

  /** Blank parts are trimmed to nothing. */
  lemma {:induction false} TrimEachOfBlanks(parts: seq<string>)
    requires forall i | 0 <= i < |parts| :: AllSpaces(parts[i])
    ensures forall i | 0 <= i < |TrimEach(parts)| :: TrimEach(parts)[i] == ""
  {
    if parts != [] {
      TrimEachOfBlanks(parts[1..]);
      TrimEmptyIffBlank(parts[0]);
    }
  }

  lemma TrimEachCons(x: string, xs: seq<string>)
    ensures TrimEach([x] + xs) == [Trim(x)] + TrimEach(xs)
  {
    assert ([x] + xs)[1..] == xs;
  }

  lemma TrimEachOne(x: string)
    ensures TrimEach([x]) == [Trim(x)]
  {
    assert [x][1..] == [];
  }

  /** What `trimStart` leaves is a suffix of the text. */
  lemma {:induction false} TrimStartSuffix(s: string)
    ensures TrimStart(s) == s[|s| - |TrimStart(s)|..]
  {
    if s != [] && IsSpace(s[0]) {
      TrimStartSuffix(s[1..]);
    }
  }

  /** What `trimStart` leaves does not start with whitespace. */
  lemma {:induction false} TrimStartFirst(s: string)
    ensures TrimStart(s) == [] || !IsSpace(TrimStart(s)[0])
  {
    if s != [] && IsSpace(s[0]) {
      TrimStartFirst(s[1..]);
    }
  }

  /** What `trimEnd` leaves is a prefix of the text. */
  lemma {:induction false} TrimEndPrefix(s: string)
    ensures TrimEnd(s) == s[..|TrimEnd(s)|]
  {
    if s != [] && IsSpace(s[|s| - 1]) {
      TrimEndPrefix(s[..|s| - 1]);
    }
  }

  /** What `trimEnd` leaves does not end in whitespace. */
  lemma {:induction false} TrimEndLast(s: string)
    ensures TrimEnd(s) == [] || !IsSpace(TrimEnd(s)[|TrimEnd(s)| - 1])
  {
    if s != [] && IsSpace(s[|s| - 1]) {
      TrimEndLast(s[..|s| - 1]);
    }
  }

  /** A text that starts with a non-space is its own `trimStart`. */
  lemma {:induction false} TrimStartOfNonSpace(s: string)
    requires s != [] && !IsSpace(s[0])
    ensures TrimStart(s) == s
  {
  }

  lemma {:induction false} TrimmedIsFixpoint(s: string)
    ensures Trim(s) == s <==> IsTrimmed(s)
  {
    if IsTrimmed(s) {
      TrimmedKeepsEnds(s);
    } else {
      TrimIsTrimmed(s);
    }
  }

  lemma {:induction false} TrimIsTrimmed(s: string)
    ensures IsTrimmed(Trim(s))
  {
    var t := TrimStart(s);
    var r := TrimEnd(t);
    TrimEndLast(t);
    TrimStartFirst(s);
    TrimEndPrefix(t);
    if r != [] {
      assert r[0] == t[0];
    }
  }

  /** Trimming only removes characters. */
  lemma TrimKeepsChars(s: string)
    ensures forall c | c in Trim(s) :: c in s
  {
    var t := TrimStart(s);
    var r := TrimEnd(t);
    TrimStartSuffix(s);
    TrimEndPrefix(t);
    forall c | c in r
      ensures c in s
    {
      var i :| 0 <= i < |r| && r[i] == c;
      assert t[i] == c;
      assert s[|s| - |t| + i] == c;
    }
  }

  /** Trimming removes everything exactly when the text is blank. */
  lemma {:induction false} TrimEmptyIffBlank(s: string)
    ensures Trim(s) == "" <==> AllSpaces(s)
  {
    TrimStartEmptyIffBlank(s);
    TrimEndEmptyIffBlank(TrimStart(s));
    TrimStartFirst(s);
  }

  lemma {:induction false} TrimStartEmptyIffBlank(s: string)
    ensures TrimStart(s) == "" <==> AllSpaces(s)
  {
    if s != [] && IsSpace(s[0]) {
      TrimStartEmptyIffBlank(s[1..]);
      assert AllSpaces(s) <==> AllSpaces(s[1..]) by {
        assert forall i | 1 <= i < |s| :: s[i] == s[1..][i - 1];
      }
    }
  }

  lemma {:induction false} TrimEndEmptyIffBlank(s: string)
    ensures TrimEnd(s) == "" <==> AllSpaces(s)
  {
    if s != [] && IsSpace(s[|s| - 1]) {
      TrimEndEmptyIffBlank(s[..|s| - 1]);
      assert AllSpaces(s) <==> AllSpaces(s[..|s| - 1]) by {
        assert forall i | 0 <= i < |s| - 1 :: s[i] == s[..|s| - 1][i];
      }
    }
  }

  lemma {:induction false} LowerKeepsSpaces(s: string)
    ensures forall i | 0 <= i < |s| :: IsSpace(ToLower(s)[i]) <==> IsSpace(s[i])
  {
  }

  /** Lower-casing and trimming commute: neither touches what the other looks at. */
  lemma {:induction false} TrimStartLower(s: string)
    ensures TrimStart(ToLower(s)) == ToLower(TrimStart(s))
  {
    if s != [] {
      var l := ToLower(s);
      assert l[0] == LowerChar(s[0]);
      if IsSpace(s[0]) {
        assert l[1..] == ToLower(s[1..]);
        TrimStartLower(s[1..]);
      }
    }
  }

  lemma {:induction false} TrimEndLower(s: string)
    ensures TrimEnd(ToLower(s)) == ToLower(TrimEnd(s))
  {
    if s != [] {
      var l := ToLower(s);
      assert l[|s| - 1] == LowerChar(s[|s| - 1]);
      if IsSpace(s[|s| - 1]) {
        assert l[..|s| - 1] == ToLower(s[..|s| - 1]);
        TrimEndLower(s[..|s| - 1]);
      }
    }
  }

  lemma {:induction false} TrimLower(s: string)
    ensures Trim(ToLower(s)) == ToLower(Trim(s))
  {
    TrimStartLower(s);
    TrimEndLower(TrimStart(s));
  }

  lemma {:induction false} TrimmedKeepsEnds(s: string)
    requires IsTrimmed(s)
    ensures TrimStart(s) == s && TrimEnd(s) == s
  {
  }

  /**
   * `(a + "\n" + b).trim()` for two trimmed texts: the newline survives
   * only between two non-empty texts.
   */
  lemma {:induction false} TrimJoinedPair(a: string, b: string)
    requires IsTrimmed(a) && IsTrimmed(b)
    ensures Trim(a + "\n" + b) == if a == "" then b else if b == "" then a else a + "\n" + b
  {
    if a == "" {
      TrimLeadingNewline(b);
    } else if b == "" {
      TrimTrailingNewline(a);
    } else {
      var s := a + "\n" + b;
      assert s[0] == a[0];
      assert s[|s| - 1] == b[|b| - 1];
      TrimmedKeepsEnds(s);
    }
  }

  lemma {:induction false} TrimLeadingNewline(b: string)
    requires IsTrimmed(b)
    ensures Trim("" + "\n" + b) == b
  {
    var s := "" + "\n" + b;
    assert s[1..] == b;
    TrimmedKeepsEnds(b);
    assert TrimStart(s) == b;
  }

  lemma {:induction false} TrimTrailingNewline(a: string)
    requires IsTrimmed(a) && a != ""
    ensures Trim(a + "\n" + "") == a
  {
    var s := a + "\n" + "";
    assert s[..|s| - 1] == a;
    assert TrimStart(s) == s;
    TrimmedKeepsEnds(a);
    assert TrimEnd(s) == a;
  }

  // ---------------------------------------------------------------------
  // Joining and splitting

  /** A join whose first part is non-empty starts with that part's first character. */
  lemma {:induction false} JoinStart(parts: seq<string>, sep: string)
    requires |parts| > 0 && parts[0] != ""
    ensures |Join(parts, sep)| > 0 && Join(parts, sep)[0] == parts[0][0]
  {
  }

  /** A join whose last part is non-empty ends with that part's last character. */
  lemma {:induction false} JoinEnd(parts: seq<string>, sep: string)
    requires |parts| > 0 && parts[|parts| - 1] != ""
    ensures var j := Join(parts, sep);
      |j| > 0 && j[|j| - 1] == parts[|parts| - 1][|parts[|parts| - 1]| - 1]
  {
    if |parts| > 1 {
      JoinEnd(parts[1..], sep);
    }
  }

  /** Joining empty parts with newlines gives nothing but newlines. */
  lemma {:induction false} JoinOfEmptiesIsBlank(parts: seq<string>)
    requires forall i | 0 <= i < |parts| :: parts[i] == ""
    ensures AllSpaces(Join(parts, "\n"))
  {
    if |parts| > 1 {
      JoinOfEmptiesIsBlank(parts[1..]);
      assert Join(parts, "\n") == "\n" + Join(parts[1..], "\n");
    }
  }

  /** Splitting at a piece that holds no separator peels that piece off. */
  lemma {:induction false} SplitAfterPiece(piece: string, sep: char, rest: string, seps: set<char>)
    requires sep in seps
    requires forall c | c in piece :: c !in seps
    ensures Split(piece + [sep] + rest, seps) == [piece] + Split(rest, seps)
  {
    var s := piece + [sep] + rest;
    if piece == [] {
      assert s[1..] == rest;
    } else {
      assert s[1..] == piece[1..] + [sep] + rest;
      assert piece[0] in piece;
      SplitAfterPiece(piece[1..], sep, rest, seps);
      assert [piece[0]] + piece[1..] == piece;
    }
  }

  /** A text without separators is one piece. */
  lemma {:induction false} SplitWithoutSeparator(s: string, seps: set<char>)
    requires forall c | c in s :: c !in seps
    ensures Split(s, seps) == [s]
  {
    if s != [] {
      assert s[0] in s;
      SplitWithoutSeparator(s[1..], seps);
      assert [s[0]] + s[1..] == s;
    }
  }

  /** Splitting undoes joining when no part holds the separator. */
  lemma {:induction false} SplitJoin(parts: seq<string>, sep: char)
    requires |parts| > 0
    requires forall i | 0 <= i < |parts| :: sep !in parts[i]
    ensures Split(Join(parts, [sep]), {sep}) == parts
  {
    if |parts| == 1 {
      SplitWithoutSeparator(parts[0], {sep});
    } else {
      SplitJoin(parts[1..], sep);
      assert Join(parts, [sep]) == parts[0] + [sep] + Join(parts[1..], [sep]);
      SplitAfterPiece(parts[0], sep, Join(parts[1..], [sep]), {sep});
      assert [parts[0]] + parts[1..] == parts;
    }
  }

  /** Joining undoes splitting on a single separator. */
  lemma {:induction false} JoinSplit(s: string, sep: char)
    ensures Join(Split(s, {sep}), [sep]) == s
  {
    if s != [] {
      JoinSplit(s[1..], sep);
      var rest := Split(s[1..], {sep});
      if s[0] != sep {
        var r := [[s[0]] + rest[0]] + rest[1..];
        if |rest| == 1 {
          assert Join(r, [sep]) == [s[0]] + rest[0];
        } else {
          assert rest == [rest[0]] + rest[1..];
          assert Join(rest, [sep]) == rest[0] + [sep] + Join(rest[1..], [sep]);
          assert r[1..] == rest[1..];
          assert Join(r, [sep]) == [s[0]] + rest[0] + [sep] + Join(rest[1..], [sep]);
        }
      }
    }
  }
}
