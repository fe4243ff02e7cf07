/**
 * Classification of the changed lines of a C-family source file.
 *
 * A line is a variability change when it refers to a Kconfig symbol (`CONFIG_` after a
 * delimiter), or when it closes a block (`#else`/`#endif`, or `}`) whose opening condition
 * refers to one. The block owner is found by scanning backwards over the diff lines with a
 * nesting counter that ignores block ends carrying the opposite change marker.
 */
module SourceFileDiff {
  import opened JavaText
  import opened DiffLines

  // ---------------------------------------------------------------------------------------------
  // Patterns

  /** The single characters of the delimiter group `(\s+|\(|\[|\{|\<|\)|\]|\}|\>)`. */
  predicate IsBracketDelimiter(c: char) {
    c in "([{<)]}>"
  }

  predicate IsDelimiter(c: char) {
    IsRegexSpace(c) || IsBracketDelimiter(c)
  }

  /** `d` matches the delimiter group: one bracket, or a non-empty run of `\s`. */
  predicate DelimiterMatch(d: string) {
    (|d| == 1 && IsBracketDelimiter(d[0])) || (|d| > 0 && AllRegexSpace(d))
  }

  /** `r` starts with an optionally negated `CONFIG_` and the rest is matched by `.*`. */
  predicate ConfigRef(r: string) {
    (StartsWith(r, "CONFIG_") || StartsWith(r, "!CONFIG_")) && NoLineTerminator(r)
  }

  predicate SourceVarAt(s: string, i: int, j: int) {
    0 <= i < j <= |s| && NoLineTerminator(s[..i]) && DelimiterMatch(s[i..j]) && ConfigRef(s[j..])
  }

  /** The full match of `.*(\s+|\(|\[|\{|\<|\)|\]|\}|\>)\!?CONFIG_.*`. */
  predicate SourceVar(s: string) {
    exists i, j | 0 <= i < j <= |s| :: SourceVarAt(s, i, j)
  }

  /** The full match of `.*#\s*(else|endif).*`: `#` at `i`, the keyword at `j`. */
  predicate IfEndAt(s: string, i: int, j: int) {
    0 <= i < j <= |s| && s[i] == '#' && AllRegexSpace(s[i + 1..j])
    && (StartsWith(s[j..], "else") || StartsWith(s[j..], "endif"))
    && NoLineTerminator(s[..i]) && NoLineTerminator(s[j..])
  }

  predicate IfEnd(s: string) {
    exists i, j | 0 <= i < j <= |s| :: IfEndAt(s, i, j)
  }

  /** The block-start pattern: `#`, `\s*`, then `if` or `elif`, then a `CONFIG_` reference in the
      sense of SourceVar. The `ifdef`/`ifndef` alternative and the optional helper-macro group
      (`defined(`, `IS_ENABLED(`, ...) match no further line: both are absorbed by the `.*` in
      front of the delimiter. */
  predicate IfStartAt(s: string, i: int, j: int, k: int) {
    0 <= i < j <= k <= |s| && s[i] == '#' && AllRegexSpace(s[i + 1..j])
    && (s[j..k] == "if" || s[j..k] == "elif") && NoLineTerminator(s[..i]) && SourceVar(s[k..])
  }

  predicate IfStart(s: string) {
    exists i, j, k | 0 <= i < j <= k <= |s| :: IfStartAt(s, i, j, k)
  }

  /** `.*#if.*` */
  predicate HasIf(s: string) {
    NoLineTerminator(s) && Contains(s, "#if")
  }

  /** `.*#endif.*` */
  predicate HasEndif(s: string) {
    NoLineTerminator(s) && Contains(s, "#endif")
  }

  /** The full match of `.*(\}\s*else\s*\{).*`: `}` at `i`, `else` at `j`, `{` at `k`. */
  predicate ElseBraceAt(s: string, i: int, j: int, k: int) {
    0 <= i < j && j + 4 <= k < |s| && s[i] == '}' && AllRegexSpace(s[i + 1..j])
    && s[j..j + 4] == "else" && AllRegexSpace(s[j + 4..k]) && s[k] == '{'
    && NoLineTerminator(s[..i]) && NoLineTerminator(s[k + 1..])
  }

  predicate ElseBrace(s: string) {
    exists i, j, k | 0 <= i < j <= k < |s| :: ElseBraceAt(s, i, j, k)
  }

  /** A line that consists of `{` characters only: split("\\{") leaves no part. */
  predicate BareBrace(l: string) {
    |Split(l, "{")| == 0
  }

  lemma BareBraceIff(l: string)
    ensures BareBrace(l) <==> |l| > 0 && AllChar(l, '{')
  {
    SplitEmptyIff(l, '{');
  }

  /** Near the source's own reading of its pattern: on a line without line terminators,
      SourceVar holds exactly when some delimiter character is directly followed by an
      optionally negated `CONFIG_`. */
  lemma SourceVarIff(s: string)
    requires NoLineTerminator(s)
    ensures SourceVar(s) <==>
      exists j | 0 < j <= |s| :: IsDelimiter(s[j - 1]) && (StartsWith(s[j..], "CONFIG_") || StartsWith(s[j..], "!CONFIG_"))
  {
    if SourceVar(s) {
      var i, j :| 0 <= i < j <= |s| && SourceVarAt(s, i, j);
      assert s[i..j][j - i - 1] == s[j - 1];
      assert IsDelimiter(s[j - 1]);
    }
    if exists j | 0 < j <= |s| :: IsDelimiter(s[j - 1]) && (StartsWith(s[j..], "CONFIG_") || StartsWith(s[j..], "!CONFIG_")) {
      var j :| 0 < j <= |s| && IsDelimiter(s[j - 1]) && (StartsWith(s[j..], "CONFIG_") || StartsWith(s[j..], "!CONFIG_"));
      assert s[j - 1..j] == [s[j - 1]];
      assert SourceVarAt(s, j - 1, j);
    }
  }

  /** A line without any delimiter character, such as one with `CONFIG_` at column 0 and no
      blank or bracket after it, is never a reference. */
  lemma NoDelimiterNoReference(s: string)
    requires forall k | 0 <= k < |s| :: !IsDelimiter(s[k])
    ensures !SourceVar(s)
  {
    forall i, j | 0 <= i < j <= |s| ensures !SourceVarAt(s, i, j) {
      assert s[i..j][j - i - 1] == s[j - 1];
      assert !IsDelimiter(s[j - 1]);
    }
  }

  /** On a line without line terminators, any delimiter followed by `CONFIG_` or `!CONFIG_`
      makes the line a reference, whatever comes before and after. */
  lemma ConfigAfterDelimiter(p: string, c: char, rest: string)
    requires IsDelimiter(c) && NoLineTerminator(p) && NoLineTerminator(rest)
    ensures SourceVar(p + [c] + "CONFIG_" + rest) && SourceVar(p + [c] + "!CONFIG_" + rest)
  {
    forall r | r == "CONFIG_" || r == "!CONFIG_" ensures SourceVar(p + [c] + r + rest) {
      var s := p + [c] + r + rest;
      assert s[..|p|] == p;
      assert s[|p|..|p| + 1] == [c];
      assert s[|p| + 1..] == r + rest;
      assert StartsWith(r + rest, r);
      assert NoLineTerminator(r + rest) by {
        forall k | 0 <= k < |r + rest| ensures !IsLineTerminator((r + rest)[k]) {
          if k >= |r| { assert (r + rest)[k] == rest[k - |r|]; }
        }
      }
      assert SourceVarAt(s, |p|, |p| + 1);
    }
  }

  /** Every line that SourceVar accepts contains `CONFIG_`. */
  lemma SourceVarContainsConfig(s: string)
    requires SourceVar(s)
    ensures Contains(s, "CONFIG_")
  {
    var i, j :| 0 <= i < j <= |s| && SourceVarAt(s, i, j);
    if StartsWith(s[j..], "CONFIG_") {
      assert s[j..j + 7] == s[j..][..7];
      ContainsAt(s, "CONFIG_", j);
    } else {
      assert s[j + 1..j + 8] == s[j..][1..8];
      ContainsAt(s, "CONFIG_", j + 1);
    }
  }

  /** A `#endif` line is a block end in the sense of IfEnd, so it is never taken as an opener. */
  lemma HasEndifIsIfEnd(s: string)
    requires HasEndif(s)
    ensures IfEnd(s)
  {
    var i :| 0 <= i <= |s| - 6 && OccursAt(s, "#endif", i);
    assert s[i] == s[i..i + 6][0] == '#';
    assert s[i + 1..][..5] == s[i..i + 6][1..] == "endif";
    assert s[i + 1..i + 1] == "";
    assert NoLineTerminator(s[..i]) && NoLineTerminator(s[i + 1..]);
    assert IfEndAt(s, i, i + 1);
  }

  // ---------------------------------------------------------------------------------------------
  // normalize

  // Removes `//` comment text and block-comment text that starts or ends on the line, using the
  // parts String.split yields.
  function StripComments(t: string): string {
    if Contains(t, "//") then Part(Split(t, "//"), 0)
    else if Contains(t, "/*") then
      if Contains(t, "*/") then Part(Split(t, "/*"), 0) + " " + Part(Split(t, "*/"), 1)
      else Part(Split(t, "/*"), 0)
    else if Contains(t, "*/") then Part(Split(t, "*/"), 1)
    else t
  }

  /** normalize(diffLines[pos], pos): marker and comments removed; non-blank text inside a
      multi-line comment becomes "". */
  function Normalize(lines: seq<string>, pos: nat): string
    requires pos < |lines|
  {
    var t := StripComments(StripMarker(lines[pos]));
    if !IsBlank(t) && InComment(lines, pos) then "" else t
  }

  function NormalizeAt(lines: seq<string>): nat --> string {
    (pos: nat) requires pos < |lines| => Normalize(lines, pos)
  }

  /** Every line of the block, normalized. */
  function Normalized(lines: seq<string>): (r: seq<string>)
    ensures |r| == |lines|
  {
    Tabulate(NormalizeAt(lines), |lines|)
  }

  /** Line `i` of the normalized block is normalize(diffLines[i], i). */
  lemma NormalizedAt(lines: seq<string>, i: nat)
    requires i < |lines|
    ensures Normalized(lines)[i] == Normalize(lines, i)
  {
    TabulateAt(NormalizeAt(lines), |lines|, i);
  }

  /** What survives comment stripping, in terms of the first occurrences of the markers. */
  lemma StripCommentsCases(t: string)
    ensures Contains(t, "//") ==> StripComments(t) == Before(t, "//") && !Contains(StripComments(t), "//")
    ensures !Contains(t, "//") && Contains(t, "/*") && Contains(t, "*/")
        ==> StripComments(t) == Before(t, "/*") + " " + SegmentAfter(t, "*/")
    ensures !Contains(t, "//") && Contains(t, "/*") && !Contains(t, "*/")
        ==> StripComments(t) == Before(t, "/*")
    ensures !Contains(t, "//") && !Contains(t, "/*") && Contains(t, "*/")
        ==> StripComments(t) == SegmentAfter(t, "*/")
    ensures !Contains(t, "//") && !Contains(t, "/*") && !Contains(t, "*/") ==> StripComments(t) == t
  {
    SplitFirst(t, "//");
    SplitFirst(t, "/*");
    SplitSecond(t, "*/");
    if Contains(t, "//") {
      BeforeFirstHasNone(t, "//");
    }
  }

  /** The text before the first occurrence of `p` does not contain `p`. */
  lemma BeforeFirstHasNone(t: string, p: string)
    requires |p| > 0 && Contains(t, p)
    ensures !Contains(Before(t, p), p)
  {
    ContainsIndexOf(t, p);
    IndexFromSpec(t, p, 0);
    var i := IndexOf(t, p).value;
    var b := t[..i];
    forall j | 0 <= j <= |b| ensures !OccursAt(b, p, j) {
      if j + |p| <= |b| {
        var bs, ts := b[j..j + |p|], t[j..j + |p|];
        forall k | 0 <= k < |p| ensures bs[k] == ts[k] {
          assert bs[k] == b[j + k];
        }
        assert ts == bs;
        assert !OccursAt(t, p, j);
      }
    }
  }

  /** Inside a multi-line comment the normalized line is blank, outside it is the stripped text. */
  lemma NormalizeInComment(lines: seq<string>, pos: nat)
    requires pos < |lines|
    ensures InComment(lines, pos) ==> IsBlank(Normalize(lines, pos))
    ensures !InComment(lines, pos) ==> Normalize(lines, pos) == StripComments(StripMarker(lines[pos]))
  {
  }

  method NormalizeLine(lines: seq<string>, pos: nat) returns (r: string)
    requires pos < |lines|
    ensures r == Normalize(lines, pos)
  {
    r := StripComments(StripMarker(lines[pos]));
    if !IsBlank(r) {
      var inComment := IsPartOfComment(lines, pos);
      if inComment {
        r := "";
      }
    }
  }

  // ---------------------------------------------------------------------------------------------
  // isPartOfComment

  // The backward search of isPartOfComment: the nearest earlier line holding a block-comment end
  // marker (tested first) or a block-comment start marker decides.
  function InComment(lines: seq<string>, pos: nat): bool
    requires pos <= |lines|
    decreases pos
  {
    if pos == 0 then false
    else if Contains(lines[pos - 1], "*/") then false
    else if Contains(lines[pos - 1], "/*") then true
    else InComment(lines, pos - 1)
  }

  predicate HasCommentMarker(l: string) {
    Contains(l, "*/") || Contains(l, "/*")
  }

  /** A line is inside a comment exactly when the nearest earlier line with a marker opens one. */
  lemma {:induction false} InCommentNearestMarker(lines: seq<string>, pos: nat)
    requires pos <= |lines|
    ensures InComment(lines, pos) <==>
      exists q | 0 <= q < pos :: Contains(lines[q], "/*") && !Contains(lines[q], "*/")
        && forall j | q < j < pos :: !HasCommentMarker(lines[j])
    decreases pos
  {
    if pos > 0 {
      InCommentNearestMarker(lines, pos - 1);
      var l := lines[pos - 1];
      if Contains(l, "*/") {
        forall q | 0 <= q < pos && Contains(lines[q], "/*") && !Contains(lines[q], "*/")
          ensures !forall j | q < j < pos :: !HasCommentMarker(lines[j])
        {
          assert q < pos - 1;
          assert HasCommentMarker(lines[pos - 1]);
        }
      } else if Contains(l, "/*") {
        assert Contains(lines[pos - 1], "/*") && !Contains(lines[pos - 1], "*/");
      } else {
        if InComment(lines, pos) {
          var q :| 0 <= q < pos - 1 && Contains(lines[q], "/*") && !Contains(lines[q], "*/")
            && forall j | q < j < pos - 1 :: !HasCommentMarker(lines[j]);
          assert forall j | q < j < pos :: !HasCommentMarker(lines[j]);
        }
        forall q | 0 <= q < pos && Contains(lines[q], "/*") && !Contains(lines[q], "*/")
            && (forall j | q < j < pos :: !HasCommentMarker(lines[j]))
          ensures InComment(lines, pos)
        {
          assert q < pos - 1;
        }
      }
    }
  }

  method IsPartOfComment(lines: seq<string>, pos: nat) returns (r: bool)
    requires pos <= |lines|
    ensures r == InComment(lines, pos)
  {
    r := false;
    var found := false;
    var k := pos as int - 1;
    while k >= 0 && !found
      invariant -1 <= k < pos
      invariant !found ==> !r && InComment(lines, pos) == InComment(lines, k + 1)
      invariant found ==> r == InComment(lines, pos)
      decreases k + 1
    {
      var l := lines[k];
      if Contains(l, "*/") {
        found := true;
      } else if Contains(l, "/*") {
        found := true;
        r := true;
      }
      k := k - 1;
    }
  }

  // ---------------------------------------------------------------------------------------------
  // invertChangeType, hasUnclosedBrackets

  function InvertChangeType(c: char): (r: char)
    ensures r == '+' || r == '-'
    ensures c == '+' <==> r == '-'
  {
    if c == '+' then '-' else '+'
  }

  lemma InvertInvolution(c: char)
    requires c == '+' || c == '-'
    ensures InvertChangeType(InvertChangeType(c)) == c && InvertChangeType(c) != c
  {
  }

  /** Number of `(` minus number of `)`, counted from the left. */
  function BracketBalance(s: string): int
    decreases |s|
  {
    if s == [] then 0
    else
      var last := s[|s| - 1];
      BracketBalance(s[..|s| - 1]) + (if last == '(' then 1 else if last == ')' then -1 else 0)
  }

  lemma {:induction false} BracketBalanceCounts(s: string)
    ensures BracketBalance(s) == multiset(s)['('] as int - multiset(s)[')'] as int
    decreases |s|
  {
    if s != [] {
      BracketBalanceCounts(s[..|s| - 1]);
      assert s == s[..|s| - 1] + [s[|s| - 1]];
      assert multiset(s) == multiset(s[..|s| - 1]) + multiset{s[|s| - 1]};
    }
  }

  /** The two kinds of round bracket occur a different number of times. */
  predicate Unbalanced(s: string) {
    multiset(s)['('] != multiset(s)[')']
  }

  method HasUnclosedBrackets(s: string) returns (r: bool)
    ensures r <==> Unbalanced(s)
  {
    var counter := 0;
    for i := 0 to |s|
      invariant counter == BracketBalance(s[..i])
    {
      assert s[..i + 1][..i] == s[..i];
      if s[i] == '(' {
        counter := counter + 1;
      } else if s[i] == ')' {
        counter := counter - 1;
      }
    }
    assert s[..|s|] == s;
    BracketBalanceCounts(s);
    r := counter != 0;
  }

  // ---------------------------------------------------------------------------------------------
  // backtrackPreprocessorCondition

  /** A `#endif` that the nesting counter counts: not marked with the inverse change type. */
  predicate CountedEndif(l: string, inv: char) {
    |l| > 0 && l[0] != inv && HasEndif(l)
  }

  predicate PPOpenerLine(l: string) {
    !IfEnd(l) && HasIf(l)
  }

  /** The backward scan from index `k`, with `nested` unmatched `#endif` lines seen so far: the
      index of the owning `#if` line, if the scan finds one. */
  function PPOwner(lines: seq<string>, inv: char, k: int, nested: nat): (r: Option<nat>)
    requires -1 <= k < |lines|
    ensures r.Some? ==> r.value <= k && PPOpenerLine(lines[r.value])
    decreases k + 1
  {
    if k < 0 then None
    else
      var l := lines[k];
      if nested == 0 && PPOpenerLine(l) then Some(k)
      else if CountedEndif(l, inv) then PPOwner(lines, inv, k - 1, nested + 1)
      else if nested > 0 && HasIf(l) then PPOwner(lines, inv, k - 1, nested - 1)
      else PPOwner(lines, inv, k - 1, nested)
  }

  /** backtrackPreprocessorCondition(end): the owner of the block end at `end` exists and is
      variability related. */
  function PreprocessorCondition(lines: seq<string>, end: nat): bool
    requires end < |lines| && |lines[end]| > 0
  {
    match PPOwner(lines, InvertChangeType(lines[end][0]), end - 1, 0)
    case None => false
    case Some(q) => PPOpener(lines, end, q)
  }

  /** Whether the owning `#if` line at `k` is variability related. */
  function PPOpener(lines: seq<string>, end: nat, k: nat): bool
    requires k < end < |lines|
  {
    IfStart(lines[k]) || (EndsWith(Trim(lines[k]), "\\") && PPContinuation(lines, end, k + 1))
  }

  /** The continuation lines of a `#if` ending in `\\`, from `c` on and not past the block end. */
  function PPContinuation(lines: seq<string>, end: nat, c: nat): bool
    requires c <= end < |lines|
  {
    ContinuationRef(Normalized(lines), end, c)
  }

  /** The continuation chain over the normalized lines `norm`: a reference on line `c`, or a line
      ending in a backslash followed by a chain with a reference. */
  function ContinuationRef(norm: seq<string>, end: nat, c: nat): bool
    requires c <= end < |norm|
    decreases end - c
  {
    SourceVar(norm[c]) || (c + 1 < end && EndsWith(Trim(norm[c]), "\\") && ContinuationRef(norm, end, c + 1))
  }

  /** The reference may sit on any line of an unbroken chain of backslash continuations. */
  lemma {:induction false} PPContinuationChain(norm: seq<string>, end: nat, c: nat)
    requires c <= end < |norm|
    ensures ContinuationRef(norm, end, c) <==>
      exists d | c <= d <= end :: (d == c || d < end) && SourceVar(norm[d])
        && forall x | c <= x < d :: EndsWith(Trim(norm[x]), "\\")
    decreases end - c
  {
    if c + 1 < end {
      PPContinuationChain(norm, end, c + 1);
      if ContinuationRef(norm, end, c) && !SourceVar(norm[c]) {
        var d :| c + 1 <= d <= end && (d == c + 1 || d < end) && SourceVar(norm[d])
          && forall x | c + 1 <= x < d :: EndsWith(Trim(norm[x]), "\\");
        assert forall x | c <= x < d :: EndsWith(Trim(norm[x]), "\\");
      }
      forall d | c <= d <= end && (d == c || d < end) && SourceVar(norm[d])
          && (forall x | c <= x < d :: EndsWith(Trim(norm[x]), "\\"))
        ensures ContinuationRef(norm, end, c)
      {
        if d > c {
          assert EndsWith(Trim(norm[c]), "\\");
        }
      }
    }
  }

  /** Lines the scan passes over without any effect on its counter. */
  predicate PPQuiet(l: string, inv: char) {
    !HasIf(l) && !CountedEndif(l, inv)
  }

  lemma {:induction false} PPSkipQuiet(lines: seq<string>, inv: char, q: int, k: int, n: nat)
    requires -1 <= q <= k < |lines|
    requires forall j | q < j <= k :: PPQuiet(lines[j], inv)
    ensures PPOwner(lines, inv, k, n) == PPOwner(lines, inv, q, n)
    decreases k
  {
    if q < k {
      PPSkipQuiet(lines, inv, q, k - 1, n);
    }
  }

  /** The owner is the nearest earlier `#if` line when no counted `#endif` or other `#if` lies in
      between: an `#endif` marked with the inverse change type does not open a nested block. */
  lemma PPNearestOpener(lines: seq<string>, end: nat, q: nat)
    requires q < end < |lines| && |lines[end]| > 0
    requires PPOpenerLine(lines[q])
    requires forall j | q < j < end :: PPQuiet(lines[j], InvertChangeType(lines[end][0]))
    ensures PPOwner(lines, InvertChangeType(lines[end][0]), end - 1, 0) == Some(q)
    ensures PreprocessorCondition(lines, end) == PPOpener(lines, end, q)
  {
    PPSkipQuiet(lines, InvertChangeType(lines[end][0]), q, end - 1, 0);
  }

  /** Without any `#if` line before the block end there is no owner, and the result is false. */
  lemma {:induction false} PPNoOpener(lines: seq<string>, inv: char, k: int, n: nat)
    requires -1 <= k < |lines|
    requires forall j | 0 <= j <= k :: !HasIf(lines[j])
    ensures PPOwner(lines, inv, k, n) == None
    decreases k + 1
  {
    if k >= 0 {
      PPNoOpener(lines, inv, k - 1, n + 1);
      PPNoOpener(lines, inv, k - 1, n);
    }
  }

  /** A nested block, closed by a counted `#endif` at `m` and opened by an `#if` at `q`, is
      stepped over whatever the counter was before it. */
  lemma PPNestedBlockSkipped(lines: seq<string>, inv: char, q: nat, m: nat, n: nat)
    requires q < m < |lines|
    requires CountedEndif(lines[m], inv)
    requires forall j | q < j < m :: PPQuiet(lines[j], inv)
    requires HasIf(lines[q]) && !CountedEndif(lines[q], inv)
    ensures PPOwner(lines, inv, m, n) == PPOwner(lines, inv, q - 1, n)
  {
    HasEndifIsIfEnd(lines[m]);
    PPSkipQuiet(lines, inv, q, m - 1, n + 1);
  }

  /** The do-while over the continuation lines of an owning `#if` that ends in `\`. */
  method ScanContinuation(lines: seq<string>, end: nat, start: nat) returns (r: bool)
    requires start <= end < |lines|
    ensures r == PPContinuation(lines, end, start)
  {
    r := false;
    var c := start;
    while true
      invariant start <= c <= end
      invariant (r || PPContinuation(lines, end, c)) == PPContinuation(lines, end, start)
      decreases end - c
    {
      var found, more := ContinuationLine(lines, end, c);
      if found {
        r := true;
      }
      if !more {
        break;
      }
      c := c + 1;
    }
  }

  /** One round of the do-while over continuation lines: whether line `c` holds a reference, and
      whether it ends in a backslash with the block end still ahead. */
  method ContinuationLine(lines: seq<string>, end: nat, c: nat) returns (found: bool, more: bool)
    requires c <= end < |lines|
    ensures more ==> c + 1 < end && PPContinuation(lines, end, c) == (found || PPContinuation(lines, end, c + 1))
    ensures !more ==> PPContinuation(lines, end, c) == found
  {
    var b := NormalizeLine(lines, c);
    NormalizedAt(lines, c);
    found := SourceVar(b);
    more := c + 1 < end && EndsWith(Trim(b), "\\");
  }

  /** The owner test of backtrackPreprocessorCondition for the `#if` line at `k`. */
  method TestPPOpener(lines: seq<string>, end: nat, k: nat) returns (r: bool)
    requires k < end < |lines|
    ensures r == PPOpener(lines, end, k)
  {
    r := false;
    var l := lines[k];
    if IfStart(l) {
      r := true;
    } else if EndsWith(Trim(l), "\\") {
      r := ScanContinuation(lines, end, k + 1);
    }
  }

  method BacktrackPreprocessorCondition(lines: seq<string>, end: nat) returns (r: bool)
    requires end < |lines| && |lines[end]| > 0
    ensures r == PreprocessorCondition(lines, end)
  {
    var inv := InvertChangeType(lines[end][0]);
    r := false;
    var found := false;
    var nested: nat := 0;
    var k := end as int - 1;
    while !found && k >= 0
      invariant -1 <= k < end
      invariant !found ==> !r && PPOwner(lines, inv, k, nested) == PPOwner(lines, inv, end - 1, 0)
      invariant found ==> PPOwner(lines, inv, end - 1, 0).Some? && r == PreprocessorCondition(lines, end)
      decreases k + 1
    {
      var l := lines[k];
      if nested == 0 && !IfEnd(l) && HasIf(l) {
        found := true;
        r := TestPPOpener(lines, end, k);
      } else {
        if |l| > 0 && l[0] != inv && HasEndif(l) {
          nested := nested + 1;
        } else if nested > 0 && HasIf(l) {
          nested := nested - 1;
        }
      }
      k := k - 1;
    }
  }

  // ---------------------------------------------------------------------------------------------
  // backtrackRuntimeCondition

  /** A `}` that the nesting counter counts: not marked with the inverse change type. */
  predicate CountedClose(l: string, inv: char) {
    |l| > 0 && l[0] != inv && Contains(l, "}")
  }

  predicate RTOpenerLine(l: string) {
    Contains(l, "{") && !ElseBrace(l)
  }

  /** The counter after one line of the scan: a counted `}` raises it, then a `{` lowers it. */
  function RTStep(l: string, inv: char, nested: nat): nat {
    var raised := if CountedClose(l, inv) then nested + 1 else nested;
    if raised > 0 && Contains(l, "{") then raised - 1 else raised
  }

  /** The backward scan from index `k` with counter `nested`: the index of the owning line. */
  function RTOwner(lines: seq<string>, inv: char, k: int, nested: nat): (r: Option<nat>)
    requires -1 <= k < |lines|
    ensures r.Some? ==> r.value <= k && RTOpenerLine(lines[r.value])
    decreases k + 1
  {
    if k < 0 then None
    else if nested == 0 && RTOpenerLine(lines[k]) then Some(k)
    else RTOwner(lines, inv, k - 1, RTStep(lines[k], inv, nested))
  }

  /** backtrackRuntimeCondition(end): the owner of the `}` at `end` exists and is variability
      related. */
  function RuntimeCondition(lines: seq<string>, end: nat): bool
    requires end < |lines| && |lines[end]| > 0 && !BareBrace(lines[0])
  {
    match RTOwner(lines, InvertChangeType(lines[end][0]), end - 1, 0)
    case None => false
    case Some(q) => RTOpener(lines, q)
  }

  /** Whether the owning line at `k` (one with `{`) is variability related: the text before its
      first `{`, or, for a line of `{` only, the lines above it. */
  function RTOpener(lines: seq<string>, k: nat): bool
    requires k < |lines| && !BareBrace(lines[0])
  {
    var parts := Split(lines[k], "{");
    (|parts| >= 1 && SourceVar(parts[0])) || (|parts| == 0 && ParenScan(lines, k - 1))
  }

  /** The lines above a bare `{`, upwards while parentheses stay unbalanced. */
  function ParenScan(lines: seq<string>, c: nat): bool
    requires c < |lines|
  {
    ParenRef(Normalized(lines), c)
  }

  /** The upward search over the normalized lines `norm`. */
  function ParenRef(norm: seq<string>, c: nat): bool
    requires c < |norm|
    decreases c
  {
    SourceVar(norm[c]) || (c >= 1 && Unbalanced(norm[c]) && ParenRef(norm, c - 1))
  }

  /** The opener tests the text before its first `{`; only a line made of `{` alone sends the
      search upwards. */
  lemma RTOpenerMeaning(lines: seq<string>, k: nat)
    requires k < |lines| && !BareBrace(lines[0])
    ensures |lines[k]| > 0 && AllChar(lines[k], '{') ==> k >= 1 && RTOpener(lines, k) == ParenScan(lines, k - 1)
    ensures !(|lines[k]| > 0 && AllChar(lines[k], '{')) ==> RTOpener(lines, k) == SourceVar(Before(lines[k], "{"))
  {
    BareBraceIff(lines[k]);
    BareBraceIff(lines[0]);
    SplitFirst(lines[k], "{");
  }

  /** The upward search finds a reference on a line `d` when every line from `c` down to just
      above `d` has unbalanced parentheses. */
  lemma {:induction false} ParenScanChain(norm: seq<string>, c: nat)
    requires c < |norm|
    ensures ParenRef(norm, c) <==>
      exists d | 0 <= d <= c :: SourceVar(norm[d]) && forall x | d < x <= c :: Unbalanced(norm[x])
    decreases c
  {
    if c >= 1 {
      ParenScanChain(norm, c - 1);
      if ParenRef(norm, c) && !SourceVar(norm[c]) {
        var d :| 0 <= d <= c - 1 && SourceVar(norm[d]) && forall x | d < x <= c - 1 :: Unbalanced(norm[x]);
        assert forall x | d < x <= c :: Unbalanced(norm[x]);
      }
      forall d | 0 <= d <= c && SourceVar(norm[d]) && (forall x | d < x <= c :: Unbalanced(norm[x]))
        ensures ParenRef(norm, c)
      {
        if d < c {
          assert Unbalanced(norm[c]);
        }
      }
    }
  }

  predicate RTQuiet(l: string, inv: char) {
    !Contains(l, "{") && !CountedClose(l, inv)
  }

  lemma {:induction false} RTSkipQuiet(lines: seq<string>, inv: char, q: int, k: int, n: nat)
    requires -1 <= q <= k < |lines|
    requires forall j | q < j <= k :: RTQuiet(lines[j], inv)
    ensures RTOwner(lines, inv, k, n) == RTOwner(lines, inv, q, n)
    decreases k
  {
    if q < k {
      RTSkipQuiet(lines, inv, q, k - 1, n);
    }
  }

  /** The owner of a `}` is the nearest earlier line with `{` when nothing counted lies between. */
  lemma RTNearestOpener(lines: seq<string>, end: nat, q: nat)
    requires q < end < |lines| && |lines[end]| > 0 && !BareBrace(lines[0])
    requires RTOpenerLine(lines[q])
    requires forall j | q < j < end :: RTQuiet(lines[j], InvertChangeType(lines[end][0]))
    ensures RTOwner(lines, InvertChangeType(lines[end][0]), end - 1, 0) == Some(q)
    ensures RuntimeCondition(lines, end) == RTOpener(lines, q)
  {
    var inv := InvertChangeType(lines[end][0]);
    RTSkipQuiet(lines, inv, q, end - 1, 0);
    assert RTOwner(lines, inv, q, 0) == Some(q);
    assert RTOwner(lines, inv, end - 1, 0) == Some(q);
  }

  /** A counted line holding both `}` and `{` (such as `} else {`) leaves the counter as it was. */
  lemma RTBothBracesKeepCounter(lines: seq<string>, inv: char, k: nat, n: nat)
    requires k < |lines|
    requires CountedClose(lines[k], inv) && Contains(lines[k], "{")
    requires n > 0 || ElseBrace(lines[k])
    ensures RTOwner(lines, inv, k, n) == RTOwner(lines, inv, k - 1, n)
  {
  }

  /** Without any `{` before the block end there is no owner, and the result is false. */
  lemma {:induction false} RTNoOpener(lines: seq<string>, inv: char, k: int, n: nat)
    requires -1 <= k < |lines|
    requires forall j | 0 <= j <= k :: !Contains(lines[j], "{")
    ensures RTOwner(lines, inv, k, n) == None
    decreases k + 1
  {
    if k >= 0 {
      RTNoOpener(lines, inv, k - 1, RTStep(lines[k], inv, n));
    }
  }

  /** A nested block, from a counted `}` at `m` back to a `{` at `q`, is stepped over. */
  lemma RTNestedBlockSkipped(lines: seq<string>, inv: char, q: nat, m: nat, n: nat)
    requires q < m < |lines|
    requires CountedClose(lines[m], inv) && !Contains(lines[m], "{")
    requires forall j | q < j < m :: RTQuiet(lines[j], inv)
    requires Contains(lines[q], "{") && !CountedClose(lines[q], inv)
    ensures RTOwner(lines, inv, m, n) == RTOwner(lines, inv, q - 1, n)
  {
    RTSkipQuiet(lines, inv, q, m - 1, n + 1);
  }

  /** One round of the do-while above a bare `{`: whether line `c` holds a reference, and whether
      the search goes on to the line above it. */
  method ParenScanLine(lines: seq<string>, c: nat) returns (found: bool, more: bool)
    requires c < |lines|
    ensures more ==> c >= 1 && ParenScan(lines, c) == (found || ParenScan(lines, c - 1))
    ensures !more ==> ParenScan(lines, c) == found
  {
    var b := NormalizeLine(lines, c);
    NormalizedAt(lines, c);
    found := SourceVar(b);
    var unclosed := HasUnclosedBrackets(b);
    more := c >= 1 && unclosed;
  }

  /** The do-while over the lines above a bare `{`, upwards while parentheses are unbalanced. */
  method ScanParentheses(lines: seq<string>, start: nat) returns (r: bool)
    requires start < |lines|
    ensures r == ParenScan(lines, start)
  {
    r := false;
    var c: nat := start;
    while true
      invariant c <= start
      invariant (r || ParenScan(lines, c)) == ParenScan(lines, start)
      decreases c
    {
      var found, more := ParenScanLine(lines, c);
      if found {
        r := true;
      }
      if !more {
        break;
      }
      c := c - 1;
    }
  }

  /** The owner test of backtrackRuntimeCondition for the line at `k`. */
  method TestOpener(lines: seq<string>, k: nat) returns (r: bool)
    requires k < |lines| && !BareBrace(lines[0])
    ensures r == RTOpener(lines, k)
  {
    r := false;
    var parts := Split(lines[k], "{");
    if |parts| >= 1 && SourceVar(parts[0]) {
      r := true;
    }
    if |parts| == 0 {
      r := ScanParentheses(lines, k - 1);
    }
  }

  method BacktrackRuntimeCondition(lines: seq<string>, end: nat) returns (r: bool)
    requires end < |lines| && |lines[end]| > 0 && !BareBrace(lines[0])
    ensures r == RuntimeCondition(lines, end)
  {
    var inv := InvertChangeType(lines[end][0]);
    r := false;
    var found := false;
    var nested: nat := 0;
    var k := end as int - 1;
    while !found && k >= 0
      invariant -1 <= k < end
      invariant !found ==> !r && RTOwner(lines, inv, k, nested) == RTOwner(lines, inv, end - 1, 0)
      invariant found ==> RTOwner(lines, inv, end - 1, 0).Some? && r == RuntimeCondition(lines, end)
      decreases k + 1
    {
      var l := lines[k];
      if nested == 0 && Contains(l, "{") && !ElseBrace(l) {
        found := true;
        r := TestOpener(lines, k);
      } else {
        if |l| > 0 && l[0] != inv && Contains(l, "}") {
          nested := nested + 1;
        }
        if nested > 0 && Contains(l, "{") {
          nested := nested - 1;
        }
      }
      k := k - 1;
    }
  }

  // ---------------------------------------------------------------------------------------------
  // isVariabilityChange

  /** isVariabilityChange(clean, pos) for the changed line `lines[pos]` and its normalized text. */
  function IsVarChange(lines: seq<string>, clean: string, pos: nat): bool
    requires pos < |lines| && |lines[pos]| > 0 && !BareBrace(lines[0])
  {
    !InComment(lines, pos)
    && (SourceVar(clean)
        || (IfEnd(clean) && PreprocessorCondition(lines, pos))
        || (Contains(clean, "}") && RuntimeCondition(lines, pos)))
  }

  /** Lines inside a multi-line comment are never variability changes; outside one, a
      `CONFIG_` reference always is, and a text with none of a reference, a block end or a `}`
      never is. */
  lemma IsVarChangeCases(lines: seq<string>, clean: string, pos: nat)
    requires pos < |lines| && |lines[pos]| > 0 && !BareBrace(lines[0])
    ensures InComment(lines, pos) ==> !IsVarChange(lines, clean, pos)
    ensures !InComment(lines, pos) && SourceVar(clean) ==> IsVarChange(lines, clean, pos)
    ensures !SourceVar(clean) && !IfEnd(clean) && !Contains(clean, "}") ==> !IsVarChange(lines, clean, pos)
  {
  }

  method IsVariabilityChange(lines: seq<string>, clean: string, pos: nat) returns (r: bool)
    requires pos < |lines| && |lines[pos]| > 0 && !BareBrace(lines[0])
    ensures r == IsVarChange(lines, clean, pos)
  {
    r := false;
    var inComment := IsPartOfComment(lines, pos);
    if !inComment {
      if SourceVar(clean) {
        r := true;
      } else {
        var owner := false;
        if IfEnd(clean) {
          owner := BacktrackPreprocessorCondition(lines, pos);
        }
        if owner {
          r := true;
        } else if Contains(clean, "}") {
          r := BacktrackRuntimeCondition(lines, pos);
        }
      }
    }
  }
}
