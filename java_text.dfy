/**
 * The parts of java.lang.String, java.lang.Character and java.util.regex that the classifiers
 * rely on, stated over Dafny strings. A Dafny char is a Unicode scalar value and a Java char a
 * UTF-16 code unit, so a supplementary character is one char here and two in Java, and a lone
 * surrogate has no counterpart here; every pattern character, trim bound and white space
 * character the classifiers use lies in the Basic Multilingual Plane, where the two agree.
 *
 *  - three different notions of "white space" are in use: the regex class `\s`, the characters
 *    that String.trim() removes, and Character.isWhitespace;
 *  - the regex `.` does not match a line terminator (no DOTALL flag), so every `.*` of a pattern
 *    is written as "contains no line terminator";
 *  - String.split with a literal separator (or the `\s+` class) drops trailing empty strings.
 */
module JavaText {

  /** Java's null reference for a String field or result. */
  datatype Option<T> = None | Some(value: T)

  // ---------------------------------------------------------------------------------------------
  // Character classes

  /** The predefined regex class `\s`: [ \t\n\x0B\f\r]. */
  predicate IsRegexSpace(c: char) {
    c == ' ' || c == '\t' || c == '\n' || c == '\U{B}' || c == '\U{C}' || c == '\r'
  }

  /** Characters the regex `.` refuses to match (no DOTALL, no UNIX_LINES). */
  predicate IsLineTerminator(c: char) {
    c == '\n' || c == '\r' || c == '\U{85}' || c == '\U{2028}' || c == '\U{2029}'
  }

  /** Character.isWhitespace (Unicode space separators except the non-breaking ones, plus the
      ASCII controls TAB..CR and FS..US). */
  predicate IsWhitespace(c: char) {
    ('\t' <= c <= '\r') || ('\U{1C}' <= c <= ' ') || c == '\U{1680}'
    || ('\U{2000}' <= c <= '\U{2006}') || ('\U{2008}' <= c <= '\U{200A}')
    || c == '\U{2028}' || c == '\U{2029}' || c == '\U{205F}' || c == '\U{3000}'
  }

  /** A string the regex `.*` matches. */
  predicate NoLineTerminator(s: string) {
    forall i :: 0 <= i < |s| ==> !IsLineTerminator(s[i])
  }

  /** A string the regex `\s*` matches. */
  predicate AllRegexSpace(s: string) {
    forall i :: 0 <= i < |s| ==> IsRegexSpace(s[i])
  }

  /** `s.trim().isEmpty()`: every character is at most U+0020. */
  predicate IsBlank(s: string) {
    forall i :: 0 <= i < |s| ==> s[i] <= ' '
  }

  // ---------------------------------------------------------------------------------------------
  // trim, startsWith, endsWith, indexOf, contains

  function TrimLeft(s: string): string {
    if |s| > 0 && s[0] <= ' ' then TrimLeft(s[1..]) else s
  }

  function TrimRight(s: string): string {
    if |s| > 0 && s[|s| - 1] <= ' ' then TrimRight(s[..|s| - 1]) else s
  }

  /** String.trim(): drops leading and trailing characters that are at most U+0020. */
  function Trim(s: string): string {
    TrimRight(TrimLeft(s))
  }

  lemma {:induction false} TrimLeftShape(s: string)
    ensures |TrimLeft(s)| <= |s|
    ensures TrimLeft(s) == s[|s| - |TrimLeft(s)|..]
    ensures IsBlank(s[..|s| - |TrimLeft(s)|])
    ensures TrimLeft(s) != "" ==> TrimLeft(s)[0] > ' '
    decreases |s|
  {
    if |s| > 0 && s[0] <= ' ' {
      TrimLeftShape(s[1..]);
      var k := |s| - |TrimLeft(s)|;
      assert s[1..][k - 1..] == s[k..];
      forall i | 0 <= i < k ensures s[..k][i] <= ' ' {
        if i > 0 { assert s[1..][..k - 1][i - 1] == s[i]; }
      }
    }
  }

  lemma {:induction false} TrimRightShape(s: string)
    ensures |TrimRight(s)| <= |s|
    ensures TrimRight(s) == s[..|TrimRight(s)|]
    ensures TrimRight(s) != "" ==> TrimRight(s)[|TrimRight(s)| - 1] > ' '
    ensures TrimRight(s) == "" ==> IsBlank(s)
    decreases |s|
  {
    if |s| > 0 && s[|s| - 1] <= ' ' {
      TrimRightShape(s[..|s| - 1]);
      assert s[..|s| - 1][..|TrimRight(s)|] == s[..|TrimRight(s)|];
      if TrimRight(s) == "" {
        assert forall i :: 0 <= i < |s| - 1 ==> s[..|s| - 1][i] == s[i];
      }
    }
  }

  /** trim().isEmpty() and IsBlank agree. */
  lemma TrimEmptyIsBlank(s: string)
    ensures Trim(s) == "" <==> IsBlank(s)
  {
    var t := TrimLeft(s);
    TrimLeftShape(s);
    TrimRightShape(t);
    if t == "" {
      assert s[..|s| - |t|] == s;
    } else {
      assert !IsBlank(t) by { assert t[0] > ' '; }
      assert t == s[|s| - |t|..];
      assert !IsBlank(s) by { assert s[|s| - |t|] == t[0]; }
    }
  }

  predicate StartsWith(s: string, p: string) {
    |p| <= |s| && s[..|p|] == p
  }

  predicate EndsWith(s: string, p: string) {
    |p| <= |s| && s[|s| - |p|..] == p
  }

  /** `p` occurs in `s` starting at index `i`. */
  predicate OccursAt(s: string, p: string, i: nat) {
    i + |p| <= |s| && s[i..i + |p|] == p
  }

  /** String.indexOf(p, from), None standing for -1. */
  function IndexFrom(s: string, p: string, from: nat): (r: Option<nat>)
    requires from <= |s|
    ensures r.Some? ==> from <= r.value <= |s| - |p| && OccursAt(s, p, r.value)
    decreases |s| - from
  {
    if OccursAt(s, p, from) then Some(from)
    else if from == |s| then None
    else IndexFrom(s, p, from + 1)
  }

  /** indexOf finds the first occurrence at or after `from`, and -1 means there is none. */
  lemma {:induction false} IndexFromSpec(s: string, p: string, from: nat)
    requires from <= |s|
    ensures var r := IndexFrom(s, p, from);
      && (r.Some? ==> forall j :: from <= j < r.value ==> !OccursAt(s, p, j))
      && (r.None? ==> forall j :: from <= j <= |s| ==> !OccursAt(s, p, j))
    decreases |s| - from
  {
    if !OccursAt(s, p, from) && from < |s| {
      IndexFromSpec(s, p, from + 1);
    }
  }

  function IndexOf(s: string, p: string): Option<nat> {
    IndexFrom(s, p, 0)
  }

  /** String.contains. */
  predicate Contains(s: string, p: string) {
    exists i | 0 <= i <= |s| - |p| :: OccursAt(s, p, i)
  }

  /** contains(p) is indexOf(p) >= 0. */
  lemma ContainsIndexOf(s: string, p: string)
    ensures Contains(s, p) <==> IndexOf(s, p).Some?
  {
    IndexFromSpec(s, p, 0);
  }

  lemma ContainsAt(s: string, p: string, i: nat)
    requires OccursAt(s, p, i)
    ensures Contains(s, p)
  {
  }

  /** One character occurring at `i` can be seen through `Contains`. */
  lemma ContainsChar(s: string, c: char, i: nat)
    requires i < |s| && s[i] == c
    ensures Contains(s, [c])
  {
    assert OccursAt(s, [c], i);
    ContainsAt(s, [c], i);
  }

  /** Without the character, no string containing it occurs. */
  lemma NotContainsChar(s: string, c: char)
    requires forall i :: 0 <= i < |s| ==> s[i] != c
    ensures !Contains(s, [c])
  {
    forall j | 0 <= j <= |s| ensures !OccursAt(s, [c], j) {
      if j < |s| { assert s[j..j + 1][0] == s[j]; }
    }
  }

  /** The text before the first occurrence of `p`, or all of `s`. */
  function Before(s: string, p: string): string {
    match IndexOf(s, p)
    case None => s
    case Some(i) => s[..i]
  }

  /** The text after the first occurrence of `p`, or "" when there is none. */
  function After(s: string, p: string): string {
    match IndexOf(s, p)
    case None => ""
    case Some(i) => s[i + |p|..]
  }

  /** The text between the first and the second occurrence of `p` (or the end of `s`), or "" when
      `p` does not occur. */
  function SegmentAfter(s: string, p: string): string {
    if Contains(s, p) then Before(After(s, p), p) else ""
  }

  // ---------------------------------------------------------------------------------------------
  // String.split

  /** Removes trailing empty strings, as split(regex) does with limit 0. */
  function DropTrailingEmpty(parts: seq<string>): seq<string>
    decreases |parts|
  {
    if |parts| > 0 && parts[|parts| - 1] == "" then DropTrailingEmpty(parts[..|parts| - 1]) else parts
  }

  lemma {:induction false} DropTrailingEmptyPrefix(parts: seq<string>)
    ensures |DropTrailingEmpty(parts)| <= |parts|
    ensures DropTrailingEmpty(parts) == parts[..|DropTrailingEmpty(parts)|]
    ensures forall j :: |DropTrailingEmpty(parts)| <= j < |parts| ==> parts[j] == ""
    decreases |parts|
  {
    if |parts| > 0 && parts[|parts| - 1] == "" {
      var q := parts[..|parts| - 1];
      DropTrailingEmptyPrefix(q);
      assert q[..|DropTrailingEmpty(q)|] == parts[..|DropTrailingEmpty(q)|];
    }
  }

  /** The pieces of `s` between successive non-overlapping occurrences of `p`, searched left to
      right, before any empty strings are dropped. */
  function Pieces(s: string, p: string): (r: seq<string>)
    requires |p| > 0
    ensures |r| >= 1
    decreases |s|
  {
    match IndexOf(s, p)
    case None => [s]
    case Some(i) => [s[..i]] + Pieces(s[i + |p|..], p)
  }

  /** String.split for a separator that the regex engine reads literally ("//", "/\\*", "\\{",
      "#", "\\.", "-", "\n", ...). With no occurrence the result is [s], even for s == "". */
  function Split(s: string, p: string): seq<string>
    requires |p| > 0
  {
    if IndexOf(s, p).None? then [s] else DropTrailingEmpty(Pieces(s, p))
  }

  /** The element the source reads as `parts.length > k ? parts[k] : ""`. */
  function Part(parts: seq<string>, k: nat): string {
    if k < |parts| then parts[k] else ""
  }

  /** Part k of a sequence whose trailing empty strings were dropped is part k of the original. */
  lemma DropTrailingEmptyPart(parts: seq<string>, k: nat)
    ensures Part(DropTrailingEmpty(parts), k) == Part(parts, k)
  {
    DropTrailingEmptyPrefix(parts);
  }

  /** Part 0 of a split is the text before the first separator. */
  lemma SplitFirst(s: string, p: string)
    requires |p| > 0
    ensures Part(Split(s, p), 0) == Before(s, p)
  {
    if IndexOf(s, p).Some? {
      DropTrailingEmptyPart(Pieces(s, p), 0);
    }
  }

  /** Part 1 of a split is the text between the first and the second separator. */
  lemma SplitSecond(s: string, p: string)
    requires |p| > 0
    ensures Part(Split(s, p), 1) == SegmentAfter(s, p)
  {
    ContainsIndexOf(s, p);
    if IndexOf(s, p).Some? {
      DropTrailingEmptyPart(Pieces(s, p), 1);
      var i := IndexOf(s, p).value;
      var rest := s[i + |p|..];
      assert Pieces(s, p)[1] == Pieces(rest, p)[0];
      assert After(s, p) == rest;
    }
  }

  predicate AllEmpty(parts: seq<string>) {
    forall j :: 0 <= j < |parts| ==> parts[j] == ""
  }

  /** `s` consists only of the character `c`. */
  predicate AllChar(s: string, c: char) {
    forall i :: 0 <= i < |s| ==> s[i] == c
  }

  /** Every piece is empty exactly when `s` is a run of the one-character separator. */
  lemma {:induction false} PiecesAllEmpty(s: string, c: char)
    ensures AllEmpty(Pieces(s, [c])) <==> AllChar(s, c)
    decreases |s|
  {
    var q := Pieces(s, [c]);
    match IndexOf(s, [c])
    case None =>
      assert q == [s];
      NotAllChar(s, c);
      if s != "" {
        assert q[0] != "";
      }
    case Some(i) =>
      var rest := s[i + 1..];
      PiecesAllEmpty(rest, c);
      assert q == [s[..i]] + Pieces(rest, [c]);
      assert s[i..i + 1] == [c];
      if forall i' :: 0 <= i' < |s| ==> s[i'] == c {
        assert s[0..1] == [c];
        assert OccursAt(s, [c], 0);
        assert forall i' :: 0 <= i' < |rest| ==> rest[i'] == s[i' + 1];
      }
      if forall j :: 0 <= j < |q| ==> q[j] == "" {
        assert q[0] == "";
        assert i == 0;
        assert forall j :: 0 <= j < |Pieces(rest, [c])| ==> Pieces(rest, [c])[j] == q[j + 1];
        forall i' | 0 <= i' < |s| ensures s[i'] == c {
          if i' > 0 {
            assert s[i'] == rest[i' - 1];
          }
        }
      }
  }

  lemma NotAllChar(s: string, c: char)
    requires IndexOf(s, [c]).None?
    ensures AllChar(s, c) <==> s == ""
  {
    if |s| > 0 {
      assert !OccursAt(s, [c], 0);
      assert s[0..1] == [s[0]];
    }
  }

  /** Splitting on a one-character separator gives no part at all exactly when the string is a
      non-empty run of that character. */
  lemma SplitEmptyIff(s: string, c: char)
    ensures |Split(s, [c])| == 0 <==> |s| > 0 && AllChar(s, c)
  {
    var q := Pieces(s, [c]);
    PiecesAllEmpty(s, c);
    if IndexOf(s, [c]).Some? {
      DropTrailingEmptyPrefix(q);
      DropIdempotentStep(q);
      var d := DropTrailingEmpty(q);
      if |d| > 0 {
        assert q[|d| - 1] == d[|d| - 1];
      }
    } else {
      NotAllChar(s, c);
    }
  }

  /** What DropTrailingEmpty returns ends in a non-empty string (or is empty). */
  lemma {:induction false} DropIdempotentStep(parts: seq<string>)
    ensures var d := DropTrailingEmpty(parts); |d| == 0 || d[|d| - 1] != ""
    ensures DropTrailingEmpty(parts) == DropTrailingEmpty(DropTrailingEmpty(parts))
    decreases |parts|
  {
    if |parts| > 0 && parts[|parts| - 1] == "" {
      DropIdempotentStep(parts[..|parts| - 1]);
    }
  }

  // ---------------------------------------------------------------------------------------------
  // split("\\s+")

  /** Index of the first `\s` character at or after `from`. */
  function SpaceFrom(s: string, from: nat): (r: Option<nat>)
    requires from <= |s|
    ensures r.Some? ==> from <= r.value < |s| && IsRegexSpace(s[r.value])
    ensures r.Some? ==> forall j :: from <= j < r.value ==> !IsRegexSpace(s[j])
    ensures r.None? ==> forall j :: from <= j < |s| ==> !IsRegexSpace(s[j])
    decreases |s| - from
  {
    if from == |s| then None
    else if IsRegexSpace(s[from]) then Some(from)
    else SpaceFrom(s, from + 1)
  }

  /** End of the run of `\s` characters that starts at `i` (the greedy `\s+`). */
  function SpaceRunEnd(s: string, i: nat): (r: nat)
    requires i <= |s|
    ensures i <= r <= |s| && AllRegexSpace(s[i..r]) && (r == |s| || !IsRegexSpace(s[r]))
    decreases |s| - i
  {
    if i < |s| && IsRegexSpace(s[i]) then
      var r := SpaceRunEnd(s, i + 1);
      assert s[i..r] == [s[i]] + s[i + 1..r];
      r
    else i
  }

  function SpacePieces(s: string): (r: seq<string>)
    ensures |r| >= 1
    decreases |s|
  {
    match SpaceFrom(s, 0)
    case None => [s]
    case Some(i) => [s[..i]] + SpacePieces(s[SpaceRunEnd(s, i)..])
  }

  /** String.split("\\s+"). */
  function SplitOnSpaces(s: string): seq<string> {
    if SpaceFrom(s, 0).None? then [s] else DropTrailingEmpty(SpacePieces(s))
  }

  /** The text before the first `\s` character. */
  function FirstToken(s: string): string {
    match SpaceFrom(s, 0)
    case None => s
    case Some(i) => s[..i]
  }

  /** Part 0 of split("\\s+") is the text before the first white-space character. */
  lemma SplitOnSpacesFirst(s: string)
    ensures Part(SplitOnSpaces(s), 0) == FirstToken(s)
  {
    if SpaceFrom(s, 0).Some? {
      DropTrailingEmptyPart(SpacePieces(s), 0);
    }
  }

  /** split("\\s+") gives no part at all exactly when the string is a non-empty run of `\s`. */
  lemma SplitOnSpacesEmptyIff(s: string)
    ensures |SplitOnSpaces(s)| == 0 <==> |s| > 0 && AllRegexSpace(s)
  {
    var q := SpacePieces(s);
    match SpaceFrom(s, 0)
    case None =>
      if |s| > 0 { assert !IsRegexSpace(s[0]); }
    case Some(i) =>
      DropTrailingEmptyPrefix(q);
      var j := SpaceRunEnd(s, i);
      var rest := s[j..];
      if i == 0 && j == |s| {
        assert s[0..j] == s;
        assert q == ["", ""];
        assert DropTrailingEmpty(q) == DropTrailingEmpty([""]) == [];
      } else if i > 0 {
        assert q[0] != "";
        assert !IsRegexSpace(s[0]);
      } else {
        assert !IsRegexSpace(rest[0]);
        assert SpacePieces(rest)[0] != "" by {
          match SpaceFrom(rest, 0)
          case None =>
          case Some(i2) => assert i2 > 0;
        }
        assert q[1] != "";
        assert !IsRegexSpace(s[j]);
      }
  }

  // ---------------------------------------------------------------------------------------------
  // Joining and splitting on one character

  /** `s` does not contain the character `c`. */
  predicate Free(s: string, c: char) {
    forall i :: 0 <= i < |s| ==> s[i] != c
  }

  /** The parts with the character `sep` between each two of them. */
  function Join(parts: seq<string>, sep: char): string
    decreases |parts|
  {
    if |parts| == 0 then "" else if |parts| == 1 then parts[0] else parts[0] + [sep] + Join(parts[1..], sep)
  }

  /** indexOf starting at `from` finds the occurrence at `k` when there is none before it. */
  lemma {:induction false} IndexFromAt(s: string, p: string, from: nat, k: nat)
    requires from <= k && OccursAt(s, p, k)
    requires forall j :: from <= j < k ==> !OccursAt(s, p, j)
    ensures IndexFrom(s, p, from) == Some(k)
    decreases k - from
  {
    if from < k {
      IndexFromAt(s, p, from + 1, k);
    }
  }

  /** The first occurrence of a character is where it first appears. */
  lemma IndexOfChar(s: string, c: char, k: nat)
    requires k < |s| && s[k] == c && Free(s[..k], c)
    ensures IndexOf(s, [c]) == Some(k)
  {
    assert s[k..k + 1] == [c];
    forall j | 0 <= j < k ensures !OccursAt(s, [c], j) {
      assert s[..k][j] == s[j];
      assert s[j..j + 1][0] == s[j];
    }
    IndexFromAt(s, [c], 0, k);
  }

  /** A character that does not occur has no index. */
  lemma IndexOfNoChar(s: string, c: char)
    requires Free(s, c)
    ensures IndexOf(s, [c]) == None
  {
    forall j | 0 <= j < |s| ensures !OccursAt(s, [c], j) {
      assert s[j..j + 1][0] == s[j];
    }
  }

  /** The text before the first `c` keeps a prefix in which `c` does not occur. */
  lemma BeforeKeepsPrefix(s: string, c: char, k: nat)
    requires k <= |s| && Free(s[..k], c)
    ensures k <= |Before(s, [c])| && Before(s, [c])[..k] == s[..k]
  {
    forall j | 0 <= j < k ensures !OccursAt(s, [c], j) {
      assert s[j..j + 1][0] == s[j] == s[..k][j];
    }
  }

  /** Splitting joined parts on their separator gives back the parts. */
  lemma {:induction false} PiecesJoin(parts: seq<string>, c: char)
    requires |parts| > 0 && forall k :: 0 <= k < |parts| ==> Free(parts[k], c)
    ensures Pieces(Join(parts, c), [c]) == parts
    decreases |parts|
  {
    if |parts| == 1 {
      IndexOfNoChar(parts[0], c);
    } else {
      var s := Join(parts, c);
      var p0 := parts[0];
      assert s == p0 + [c] + Join(parts[1..], c);
      assert s[..|p0|] == p0;
      IndexOfChar(s, c, |p0|);
      assert s[|p0| + 1..] == Join(parts[1..], c);
      PiecesJoin(parts[1..], c);
    }
  }

  /** String.split on a character gives back joined parts when the last part is not empty (a
      single part comes back whatever it is). */
  lemma SplitJoin(parts: seq<string>, c: char)
    requires |parts| > 0 && forall k :: 0 <= k < |parts| ==> Free(parts[k], c)
    requires |parts| == 1 || parts[|parts| - 1] != ""
    ensures Split(Join(parts, c), [c]) == parts
  {
    PiecesJoin(parts, c);
    if |parts| == 1 {
      IndexOfNoChar(parts[0], c);
    } else {
      var s := Join(parts, c);
      assert s == parts[0] + [c] + Join(parts[1..], c);
      assert s[..|parts[0]|] == parts[0];
      IndexOfChar(s, c, |parts[0]|);
    }
  }

  /** Joining two neighbouring parts gives the same text as a single part holding both with the
      separator between them. */
  lemma {:induction false} JoinMerge(xs: seq<string>, a: string, b: string, ys: seq<string>, c: char)
    ensures Join(xs + [a + [c] + b] + ys, c) == Join(xs + [a, b] + ys, c)
    decreases |xs|
  {
    if xs == [] {
      assert [a, b] + ys == [a] + ([b] + ys);
      if ys == [] {
        assert Join([b], c) == b;
      } else {
        assert ([b] + ys)[1..] == ys;
        assert ([a + [c] + b] + ys)[1..] == ys;
      }
    } else {
      var l := xs + [a + [c] + b] + ys;
      var r := xs + [a, b] + ys;
      assert l[1..] == xs[1..] + [a + [c] + b] + ys;
      assert r[1..] == xs[1..] + [a, b] + ys;
      JoinMerge(xs[1..], a, b, ys, c);
    }
  }

  /** The first token of a text that starts with a word free of `\s` followed by a `\s`
      character is that word. */
  lemma FirstTokenOf(a: string, rest: string)
    requires forall i :: 0 <= i < |a| ==> !IsRegexSpace(a[i])
    requires rest == "" || IsRegexSpace(rest[0])
    ensures FirstToken(a + rest) == a
  {
    var s := a + rest;
    assert forall i :: 0 <= i < |a| ==> s[i] == a[i];
    assert rest != "" ==> IsRegexSpace(s[|a|]);
  }

  // ---------------------------------------------------------------------------------------------
  // Decimal numbers

  predicate IsAsciiDigit(c: char) {
    '0' <= c <= '9'
  }

  predicate AllDigits(s: string) {
    forall i :: 0 <= i < |s| ==> IsAsciiDigit(s[i])
  }

  /** The value of a string of decimal digits (Integer.parseInt on digits only). */
  function DecimalValue(s: string): nat
    requires AllDigits(s)
    decreases |s|
  {
    if s == [] then 0 else 10 * DecimalValue(s[..|s| - 1]) + (s[|s| - 1] as int - '0' as int)
  }

  /** Integer.toString of a non-negative number: its decimal digits, without leading zeros. */
  function DecimalString(n: nat): (r: string)
    ensures |r| > 0 && AllDigits(r) && DecimalValue(r) == n
    ensures |r| > 1 ==> r[0] != '0'
    decreases n
  {
    var last := [(('0' as int) + n % 10) as char];
    if n < 10 then last
    else
      var r := DecimalString(n / 10) + last;
      assert r[..|r| - 1] == DecimalString(n / 10);
      r
  }
}
