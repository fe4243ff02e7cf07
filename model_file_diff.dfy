/**
 * Classification of the changed lines of a Kconfig file.
 *
 * A line is a variability change when it is not part of a help text and it either starts with
 * a Kconfig keyword, is a `source` include, or is a `depends on` line whose nearest earlier
 * model element is a variability line rather than a `comment "..."`. Help texts are recognised
 * by indentation: an indented line belongs to the nearest earlier, less indented line, and that
 * line opens a help text when it starts with `help`, `--help--` or `comment`.
 */
module ModelFileDiff {
  import opened JavaText
  import opened DiffLines

  // ---------------------------------------------------------------------------------------------
  // normalize, getIndentation

  /** normalize(line, pos): one change marker removed and the text from the first `#` on
      removed, as part 0 of split("#") ("" when there is no part). The position is not used. */
  function Normalize(line: string): string {
    Part(Split(StripMarker(line), "#"), 0)
  }

  /** The normalized text is the marker-free text before the first `#`. */
  lemma NormalizeIsBefore(line: string)
    ensures Normalize(line) == Before(StripMarker(line), "#")
  {
    SplitFirst(StripMarker(line), "#");
  }

  function NormalizeAt(lines: seq<string>): nat --> string {
    (x: nat) requires x < |lines| => Normalize(lines[x])
  }

  /** Every line normalized, as the backward scans see them. */
  function Normalized(lines: seq<string>): (r: seq<string>)
    ensures |r| == |lines|
  {
    Tabulate(NormalizeAt(lines), |lines|)
  }

  lemma NormalizedAt(lines: seq<string>, x: nat)
    requires x < |lines|
    ensures Normalized(lines)[x] == Normalize(lines[x])
  {
    TabulateAt(NormalizeAt(lines), |lines|, x);
  }

  /** The number of leading Character.isWhitespace characters. */
  function Indentation(s: string): (r: nat)
    ensures r <= |s|
    ensures forall i | 0 <= i < r :: IsWhitespace(s[i])
    ensures r == |s| || !IsWhitespace(s[r])
  {
    if |s| > 0 && IsWhitespace(s[0]) then
      var r := Indentation(s[1..]);
      assert forall i | 1 <= i < r + 1 :: s[i] == s[1..][i - 1];
      r + 1
    else 0
  }

  method GetIndentation(s: string) returns (r: nat)
    ensures r == Indentation(s)
  {
    r := 0;
    while r < |s| && IsWhitespace(s[r])
      invariant r <= |s|
      invariant forall i | 0 <= i < r :: IsWhitespace(s[i])
    {
      r := r + 1;
    }
    IndentationUnique(s, r);
  }

  /** The indentation is the only count with the three properties of its contract. */
  lemma IndentationUnique(s: string, n: nat)
    requires n <= |s|
    requires forall i | 0 <= i < n :: IsWhitespace(s[i])
    requires n == |s| || !IsWhitespace(s[n])
    ensures n == Indentation(s)
  {
  }

  // ---------------------------------------------------------------------------------------------
  // isPartOfHelp

  /** A trimmed line that opens a help text. */
  predicate HelpOpener(t: string) {
    StartsWith(t, "help") || StartsWith(t, "--help--") || StartsWith(t, "comment")
  }

  /** A normalized line that can be the parent of a line indented by `ind`. */
  predicate Parent(p: string, ind: nat) {
    p != "" && Indentation(p) < ind
  }

  /** The backward search of isPartOfHelp over the normalized lines, from index `c`. */
  function HelpScan(norm: seq<string>, ind: nat, c: int): bool
    requires -1 <= c < |norm|
    decreases c + 1
  {
    if c < 0 then false
    else if Parent(norm[c], ind) then HelpOpener(Trim(norm[c]))
    else HelpScan(norm, ind, c - 1)
  }

  /** isPartOfHelp(line, pos). A line with no indentation is never help text; indented lines are
      judged by their parent. An indented line at index 0 would make the Java code read index -1. */
  function IsPartOfHelp(lines: seq<string>, line: string, pos: nat): bool
    requires pos <= |lines|
    requires Indentation(line) > 0 ==> pos > 0
  {
    Indentation(line) > 0 && HelpScan(Normalized(lines), Indentation(line), pos - 1)
  }

  /** The search finds the nearest parent: it answers for the last parent at or before `c`,
      and is false when there is none. */
  lemma {:induction false} HelpScanNearest(norm: seq<string>, ind: nat, c: int)
    requires -1 <= c < |norm|
    ensures HelpScan(norm, ind, c) <==>
      exists q | 0 <= q <= c :: Parent(norm[q], ind) && HelpOpener(Trim(norm[q]))
        && forall j | q < j <= c :: !Parent(norm[j], ind)
    decreases c + 1
  {
    if c >= 0 {
      HelpScanNearest(norm, ind, c - 1);
      if Parent(norm[c], ind) {
      } else {
        if HelpScan(norm, ind, c) {
          var q :| 0 <= q <= c - 1 && Parent(norm[q], ind) && HelpOpener(Trim(norm[q]))
            && forall j | q < j <= c - 1 :: !Parent(norm[j], ind);
          assert forall j | q < j <= c :: !Parent(norm[j], ind);
        }
      }
    }
  }

  /** isPartOfHelp is true exactly when the nearest earlier non-empty normalized line with smaller
      indentation opens a help text; it is false for a line without indentation. */
  lemma IsPartOfHelpMeaning(lines: seq<string>, line: string, pos: nat)
    requires pos <= |lines|
    requires Indentation(line) > 0 ==> pos > 0
    ensures Indentation(line) == 0 ==> !IsPartOfHelp(lines, line, pos)
    ensures IsPartOfHelp(lines, line, pos) <==>
      Indentation(line) > 0 && exists q | 0 <= q < pos ::
        Parent(Normalized(lines)[q], Indentation(line)) && HelpOpener(Trim(Normalized(lines)[q]))
        && forall j | q < j < pos :: !Parent(Normalized(lines)[j], Indentation(line))
  {
    if Indentation(line) > 0 {
      var norm, ind := Normalized(lines), Indentation(line);
      HelpScanNearest(norm, ind, pos - 1);
      assert IsPartOfHelp(lines, line, pos) == HelpScan(norm, ind, pos - 1);
    }
  }

  method IsPartOfHelpScan(lines: seq<string>, line: string, pos: nat) returns (r: bool)
    requires pos <= |lines|
    requires Indentation(line) > 0 ==> pos > 0
    ensures r == IsPartOfHelp(lines, line, pos)
  {
    ghost var norm := Normalized(lines);
    r := false;
    var ind := GetIndentation(line);
    if ind > 0 {
      var found := false;
      var c := pos as int - 1;
      // the do-while of the source: its first round runs because pos > 0
      while c >= 0 && !found
        invariant -1 <= c < pos
        invariant !found ==> !r && HelpScan(norm, ind, pos - 1) == HelpScan(norm, ind, c)
        invariant found ==> r == HelpScan(norm, ind, pos - 1)
        decreases c + 1
      {
        var p := Normalize(lines[c]);
        NormalizedAt(lines, c);
        if p != "" {
          var pInd := GetIndentation(p);
          if pInd < ind {
            found := true;
            p := Trim(p);
            if StartsWith(p, "help") || StartsWith(p, "--help--") || StartsWith(p, "comment") {
              r := true;
            }
          }
        }
        c := c - 1;
      }
    }
  }

  // ---------------------------------------------------------------------------------------------
  // Patterns. Each regex is matched against the whole line. Its leading `\s*` must take the whole
  // run of `\s` characters, because the keyword that follows starts with a letter.

  /** The text after the leading run of `\s` characters. */
  function DropSpaces(s: string): string {
    s[SpaceRunEnd(s, 0)..]
  }

  /** `\s+.*` at the start of `u`: a `\s` character first, and no line terminator after the run
      of `\s` characters (a shorter `\s+` would only leave more characters for `.*`). */
  predicate SpacedRest(u: string) {
    |u| > 0 && IsRegexSpace(u[0]) && NoLineTerminator(DropSpaces(u))
  }

  /** The alternatives of the definition pattern, in their order. */
  const DefKeywords: seq<string> := ["config", "menuconfig", "choice", "endchoice", "menu",
    "endmenu", "if", "endif", "bool", "tristate", "string", "hex", "int", "default", "def_bool",
    "def_tristate", "prompt", "select", "visible if", "range"]

  /** `^\s*(config|menuconfig|...|range)(\s+.*)?`: a keyword that either ends the line or is
      followed by white space. */
  predicate ConfigDef(s: string) {
    var t := DropSpaces(s);
    exists k | 0 <= k < |DefKeywords| ::
      StartsWith(t, DefKeywords[k]) && (t == DefKeywords[k] || SpacedRest(t[|DefKeywords[k]|..]))
  }

  /** `^\s*source\s+((\".*\".*)|(.*\/.*))`: a quoted name, or a path with a `/`. */
  predicate Include(s: string) {
    var t := DropSpaces(s);
    StartsWith(t, "source") &&
      var u := t[6..];
      var v := DropSpaces(u);
      |u| > 0 && IsRegexSpace(u[0]) && NoLineTerminator(v)
      && ((StartsWith(v, "\"") && Contains(v[1..], "\"")) || Contains(v, "/"))
  }

  /** `^\s*depends on\s+.*` */
  predicate DependsOn(s: string) {
    var t := DropSpaces(s);
    StartsWith(t, "depends on") && SpacedRest(t[10..])
  }

  /** `^\s*comment\s+\".*` */
  predicate ConfigComment(s: string) {
    var t := DropSpaces(s);
    StartsWith(t, "comment") &&
      var u := t[7..];
      var v := DropSpaces(u);
      |u| > 0 && IsRegexSpace(u[0]) && StartsWith(v, "\"") && NoLineTerminator(v)
  }

  /** The run of `\s` characters from `i` ends at the first character that is not one. */
  lemma {:induction false} SpaceRunEndAt(s: string, i: nat, r: nat)
    requires i <= r <= |s| && AllRegexSpace(s[i..r]) && (r == |s| || !IsRegexSpace(s[r]))
    ensures SpaceRunEnd(s, i) == r
    decreases r - i
  {
    if i < r {
      assert IsRegexSpace(s[i..r][0]);
      assert s[i + 1..r] == s[i..r][1..];
      SpaceRunEndAt(s, i + 1, r);
    }
  }

  /** Indentation made of `\s` characters is dropped up to the first other character. */
  lemma IndentationDropped(ws: string, w: string)
    requires AllRegexSpace(ws) && (w == [] || !IsRegexSpace(w[0]))
    ensures DropSpaces(ws + w) == w
  {
    var s := ws + w;
    assert s[0..|ws|] == ws;
    if w != [] { assert s[|ws|] == w[0]; }
    SpaceRunEndAt(s, 0, |ws|);
    assert s[|ws|..] == w;
  }

  lemma KeywordsStartWithLetter(k: nat)
    requires k < |DefKeywords|
    ensures |DefKeywords[k]| > 0 && 'a' <= DefKeywords[k][0] <= 'z'
  {
  }

  /** White space followed by any text without line terminators is what `\s+.*` matches. */
  lemma SpacedText(c: char, rest: string)
    requires IsRegexSpace(c) && NoLineTerminator(rest)
    ensures SpacedRest([c] + rest)
  {
    var u := [c] + rest;
    var r := SpaceRunEnd(u, 0);
    assert r >= 1 by { assert IsRegexSpace(u[0]); }
    forall i | 0 <= i < |u[r..]| ensures !IsLineTerminator(u[r..][i]) {
      assert u[r..][i] == rest[r - 1 + i];
    }
  }

  /** After any indentation, every keyword is a definition line on its own, and so is every
      keyword followed by white space and any text. */
  lemma KeywordLines(ws: string, k: nat, c: char, rest: string)
    requires AllRegexSpace(ws) && k < |DefKeywords|
    requires IsRegexSpace(c) && NoLineTerminator(rest)
    ensures ConfigDef(ws + DefKeywords[k])
    ensures ConfigDef(ws + DefKeywords[k] + [c] + rest)
  {
    var kw := DefKeywords[k];
    KeywordsStartWithLetter(k);
    IndentationDropped(ws, kw);
    assert StartsWith(kw, kw);
    var u := [c] + rest;
    var t := kw + u;
    assert ws + kw + [c] + rest == ws + t;
    assert t[0] == kw[0];
    IndentationDropped(ws, t);
    assert t[..|kw|] == kw && t[|kw|..] == u;
    SpacedText(c, rest);
  }

  /** A single word after any indentation is a definition line exactly when it is one of the
      keywords: `configure` is not one, although it starts with `config`. */
  lemma WordDefinitionIff(ws: string, w: string)
    requires AllRegexSpace(ws) && forall i | 0 <= i < |w| :: !IsRegexSpace(w[i])
    ensures ConfigDef(ws + w) <==> w in DefKeywords
  {
    IndentationDropped(ws, w);
    if w in DefKeywords {
      var k :| 0 <= k < |DefKeywords| && DefKeywords[k] == w;
      KeywordLines(ws, k, ' ', "");
    }
    if ConfigDef(ws + w) {
      var k :| 0 <= k < |DefKeywords| && StartsWith(w, DefKeywords[k])
        && (w == DefKeywords[k] || SpacedRest(w[|DefKeywords[k]|..]));
      if w != DefKeywords[k] {
        assert w[|DefKeywords[k]|..][0] == w[|DefKeywords[k]|];
      }
    }
  }

  // ---------------------------------------------------------------------------------------------
  // isVariabilityChange and its `depends on` recursion

  /** isVariabilityChange(clean, pos): the Java code would read index -1 if the immediately
      needed help check or a help check of the recursion ran at index 0 with an indented line;
      the requires clauses exclude it. */
  function IsVarChange(lines: seq<string>, clean: string, pos: nat): bool
    requires pos < |lines|
    requires Indentation(Normalize(lines[0])) == 0
    requires Indentation(clean) > 0 ==> pos > 0
    decreases pos, 1
  {
    !IsPartOfHelp(lines, clean, pos)
    && (ConfigDef(clean) || Include(clean) || (DependsOn(clean) && DependsScan(lines, pos as int - 1)))
  }

  /** The backward scan of a `depends on` line from index `c`: a `comment "..."` line ends it
      with false, a variability line with true. */
  function DependsScan(lines: seq<string>, c: int): bool
    requires -1 <= c < |lines|
    requires |lines| > 0 && Indentation(Normalize(lines[0])) == 0
    decreases c + 1, 0
  {
    if c < 0 then false
    else
      var prev := Normalize(lines[c]);
      if ConfigComment(prev) then false
      else if IsVarChange(lines, prev, c) then true
      else DependsScan(lines, c - 1)
  }

  /** Help text is never a variability change; outside help texts, keyword and include lines
      are, and lines that are neither keyword, include nor `depends on` lines are not. */
  lemma IsVarChangeCases(lines: seq<string>, clean: string, pos: nat)
    requires pos < |lines|
    requires Indentation(Normalize(lines[0])) == 0
    requires Indentation(clean) > 0 ==> pos > 0
    ensures IsPartOfHelp(lines, clean, pos) ==> !IsVarChange(lines, clean, pos)
    ensures !IsPartOfHelp(lines, clean, pos) && (ConfigDef(clean) || Include(clean)) ==> IsVarChange(lines, clean, pos)
    ensures !ConfigDef(clean) && !Include(clean) && !DependsOn(clean) ==> !IsVarChange(lines, clean, pos)
  {
  }

  /** What line `q` tells a `depends on` scan: Some(false) for a `comment "..."` line, Some(true)
      for a variability line, and None when the scan goes on. */
  function Verdict(lines: seq<string>, q: nat): Option<bool>
    requires q < |lines|
    requires Indentation(Normalize(lines[0])) == 0
  {
    var prev := Normalize(lines[q]);
    if ConfigComment(prev) then Some(false)
    else if IsVarChange(lines, prev, q) then Some(true)
    else None
  }

  lemma DependsStep(lines: seq<string>, c: nat)
    requires c < |lines|
    requires Indentation(Normalize(lines[0])) == 0
    ensures DependsScan(lines, c) ==
      if Verdict(lines, c).Some? then Verdict(lines, c).value else DependsScan(lines, c - 1)
  {
  }

  function VerdictAt(lines: seq<string>): nat --> Option<bool>
    requires |lines| > 0 && Indentation(Normalize(lines[0])) == 0
  {
    (q: nat) requires q < |lines| => Verdict(lines, q)
  }

  /** The verdict of every line. */
  function Verdicts(lines: seq<string>): (r: seq<Option<bool>>)
    requires |lines| > 0 && Indentation(Normalize(lines[0])) == 0
    ensures |r| == |lines|
  {
    Tabulate(VerdictAt(lines), |lines|)
  }

  lemma VerdictsAt(lines: seq<string>, q: nat)
    requires q < |lines| && Indentation(Normalize(lines[0])) == 0
    ensures Verdicts(lines)[q] == Verdict(lines, q)
  {
    TabulateAt(VerdictAt(lines), |lines|, q);
  }

  /** A backward scan over verdicts from index `c` that stops at the first decided one. */
  function FirstVerdict(vs: seq<Option<bool>>, c: int): bool
    requires -1 <= c < |vs|
    decreases c + 1
  {
    if c < 0 then false
    else if vs[c].Some? then vs[c].value
    else FirstVerdict(vs, c - 1)
  }

  lemma {:induction false} FirstVerdictNearest(vs: seq<Option<bool>>, c: int)
    requires -1 <= c < |vs|
    ensures FirstVerdict(vs, c) <==>
      exists q | 0 <= q <= c :: vs[q] == Some(true) && forall j | q < j <= c :: vs[j].None?
    decreases c + 1
  {
    if c >= 0 {
      FirstVerdictNearest(vs, c - 1);
      if vs[c].None? && FirstVerdict(vs, c) {
        var q :| 0 <= q <= c - 1 && vs[q] == Some(true) && forall j | q < j <= c - 1 :: vs[j].None?;
        assert forall j | q < j <= c :: vs[j].None?;
      }
    }
  }

  lemma {:induction false} DependsScanVerdicts(lines: seq<string>, c: int)
    requires -1 <= c < |lines|
    requires |lines| > 0 && Indentation(Normalize(lines[0])) == 0
    ensures DependsScan(lines, c) == FirstVerdict(Verdicts(lines), c)
    decreases c + 1
  {
    if c >= 0 {
      DependsStep(lines, c);
      VerdictsAt(lines, c);
      DependsScanVerdicts(lines, c - 1);
    }
  }

  /** The `depends on` scan is decided by its nearest earlier decisive line: it is true exactly
      when that line is a variability line, so a `comment "..."` line, or no decisive line at
      all, gives false. */
  lemma DependsScanNearest(lines: seq<string>, c: int)
    requires -1 <= c < |lines|
    requires |lines| > 0 && Indentation(Normalize(lines[0])) == 0
    ensures DependsScan(lines, c) <==>
      exists q | 0 <= q <= c :: Verdicts(lines)[q] == Some(true) && forall j | q < j <= c :: Verdicts(lines)[j].None?
  {
    DependsScanVerdicts(lines, c);
    FirstVerdictNearest(Verdicts(lines), c);
  }

  /** One round of the `depends on` loop: the verdict of line `c`. */
  method DependsLine(lines: seq<string>, c: nat) returns (v: Option<bool>)
    requires c < |lines|
    requires Indentation(Normalize(lines[0])) == 0
    ensures v == Verdict(lines, c)
    decreases c + 1, 0
  {
    var prev := Normalize(lines[c]);
    if ConfigComment(prev) {
      v := Some(false);
    } else {
      var b := IsVariabilityChange(lines, prev, c);
      v := if b then Some(true) else None;
    }
  }

  /** The `depends on` loop of isVariabilityChange for the line at `pos`. */
  method ScanDepends(lines: seq<string>, pos: nat) returns (r: bool)
    requires pos < |lines|
    requires Indentation(Normalize(lines[0])) == 0
    ensures r == DependsScan(lines, pos as int - 1)
    decreases pos, 1
  {
    r := false;
    var c := pos as int - 1;
    var found := false;
    while c >= 0 && !found
      invariant -1 <= c < pos
      invariant !found ==> !r && DependsScan(lines, pos as int - 1) == DependsScan(lines, c)
      invariant found ==> r == DependsScan(lines, pos as int - 1)
      decreases c + 1
    {
      var v := DependsLine(lines, c);
      DependsStep(lines, c);
      if v.Some? {
        found := true;
        r := v.value;
      }
      c := c - 1;
    }
  }

  method IsVariabilityChange(lines: seq<string>, clean: string, pos: nat) returns (r: bool)
    requires pos < |lines|
    requires Indentation(Normalize(lines[0])) == 0
    requires Indentation(clean) > 0 ==> pos > 0
    ensures r == IsVarChange(lines, clean, pos)
    decreases pos, 2
  {
    r := false;
    var help := IsPartOfHelpScan(lines, clean, pos);
    if !help {
      if ConfigDef(clean) || Include(clean) {
        r := true;
      } else if DependsOn(clean) {
        r := ScanDepends(lines, pos);
      }
    }
  }
}
