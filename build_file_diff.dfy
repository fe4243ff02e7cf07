/**
 * Classification of the changed lines of a Makefile/Kbuild file.
 *
 * A line is a variability change when it refers to `$(CONFIG_`, or when it is an `else` or
 * `endif` whose owning `ifeq`/`ifneq`/`ifdef`/`ifndef` line (or one of that line's backslash
 * continuations) refers to `$(CONFIG_`. `#` starts a comment, and a comment line ending in a
 * backslash continues on the next line.
 */
module BuildFileDiff {
  import opened JavaText
  import opened DiffLines

  // ---------------------------------------------------------------------------------------------
  // Patterns (each regex is matched against the whole normalized line)

  /** `.*\$\(CONFIG_.*` */
  predicate BuildVar(s: string) {
    NoLineTerminator(s) && Contains(s, "$(CONFIG_")
  }

  /** `.*(ifeq|ifneq|ifdef|ifndef).*` */
  predicate ConditionStart(s: string) {
    NoLineTerminator(s)
    && (Contains(s, "ifeq") || Contains(s, "ifneq") || Contains(s, "ifdef") || Contains(s, "ifndef"))
  }

  /** `.*endif.*` */
  predicate ConditionEnd(s: string) {
    NoLineTerminator(s) && Contains(s, "endif")
  }

  /** `.*(else|endif).*` */
  predicate BlockEnd(s: string) {
    NoLineTerminator(s) && (Contains(s, "else") || Contains(s, "endif"))
  }

  /** Every line that ends an entire block also ends a part of one. */
  lemma ConditionEndIsBlockEnd(s: string)
    requires ConditionEnd(s)
    ensures BlockEnd(s)
  {
  }

  // ---------------------------------------------------------------------------------------------
  // normalize, isPartOfComment

  /** The text before the first `#`: part 0 of split("#"), or "" when there is no part. */
  function CommentFree(t: string): string {
    Part(Split(t, "#"), 0)
  }

  lemma CommentFreeIsBefore(t: string)
    ensures CommentFree(t) == Before(t, "#")
    ensures !Contains(CommentFree(t), "#")
  {
    SplitFirst(t, "#");
    if Contains(t, "#") {
      ContainsIndexOf(t, "#");
      IndexFromSpec(t, "#", 0);
      var i := IndexOf(t, "#").value;
      assert Before(t, "#") == t[..i];
      forall j | 0 <= j < i ensures t[..i][j] != '#' {
        assert !OccursAt(t, "#", j);
        assert t[j..j + 1] == [t[j]];
      }
      NotContainsChar(t[..i], '#');
    }
  }

  /** A raw line that continues onto the next one: non-empty and, trimmed, ending in `\`. */
  predicate Continued(l: string) {
    l != "" && EndsWith(Trim(l), "\\")
  }

  /** The backward search of isPartOfComment: lines ending in a backslash are followed upwards
      until one of them holds `#`; an empty line or one without a backslash ends the search. */
  function InComment(lines: seq<string>, pos: nat): bool
    requires pos <= |lines|
    decreases pos
  {
    if pos == 0 then false
    else
      var l := lines[pos - 1];
      if l == "" then false
      else if !EndsWith(Trim(l), "\\") then false
      else if Contains(Trim(l), "#") then true
      else InComment(lines, pos - 1)
  }

  /** Line `q` holds `#` and it and every line after it up to `pos` end in a backslash. */
  predicate CommentChain(lines: seq<string>, q: nat, pos: nat)
    requires q < pos <= |lines|
  {
    Contains(Trim(lines[q]), "#") && forall j | q <= j < pos :: Continued(lines[j])
  }

  /** Line `pos` is inside a continued comment exactly when an unbroken chain of continued
      lines above it reaches one that holds `#`. */
  lemma {:induction false} InCommentChain(lines: seq<string>, pos: nat)
    requires pos <= |lines|
    ensures InComment(lines, pos) <==> exists q | 0 <= q < pos :: CommentChain(lines, q, pos)
    decreases pos
  {
    if pos > 0 {
      InCommentChain(lines, pos - 1);
      var l := lines[pos - 1];
      if !Continued(l) {
        assert forall q | 0 <= q < pos :: !CommentChain(lines, q, pos);
      } else if Contains(Trim(l), "#") {
        assert CommentChain(lines, pos - 1, pos);
      } else {
        if InComment(lines, pos) {
          var q :| 0 <= q < pos - 1 && CommentChain(lines, q, pos - 1);
          assert CommentChain(lines, q, pos);
        }
        forall q | 0 <= q < pos && CommentChain(lines, q, pos) ensures InComment(lines, pos) {
          assert q < pos - 1;
          assert CommentChain(lines, q, pos - 1);
        }
      }
    }
  }

  method IsPartOfComment(lines: seq<string>, pos: nat) returns (r: bool)
    requires pos <= |lines|
    ensures r == InComment(lines, pos)
  {
    r := false;
    var found := false;
    var k := pos as int - 1;
    while k >= 0 && !found
      invariant -1 <= k < pos
      invariant !found ==> !r && InComment(lines, pos) == InComment(lines, k + 1)
      invariant found ==> r == InComment(lines, pos)
      decreases k + 1
    {
      var l := lines[k];
      if l != "" {
        l := Trim(l);
        if EndsWith(l, "\\") {
          if Contains(l, "#") {
            found := true;
            r := true;
          }
        } else {
          found := true;
        }
      } else {
        found := true;
      }
      k := k - 1;
    }
  }

  /** normalize(line, pos): marker removed, text from the first `#` on removed, and non-blank
      text inside a continued comment (judged at index `pos`) becomes "". */
  function Normalize(lines: seq<string>, line: string, pos: nat): string
    requires pos <= |lines|
  {
    var t := CommentFree(StripMarker(line));
    if !IsBlank(t) && InComment(lines, pos) then "" else t
  }

  /** The normalized text is the text before the first `#`, or blank inside a continued comment;
      it never holds `#`. */
  lemma NormalizeCases(lines: seq<string>, line: string, pos: nat)
    requires pos <= |lines|
    ensures !InComment(lines, pos) ==> Normalize(lines, line, pos) == Before(StripMarker(line), "#")
    ensures InComment(lines, pos) ==> IsBlank(Normalize(lines, line, pos))
    ensures !Contains(Normalize(lines, line, pos), "#")
  {
    CommentFreeIsBefore(StripMarker(line));
    if Normalize(lines, line, pos) == "" {
      assert !OccursAt("", "#", 0);
    }
  }

  method NormalizeLine(lines: seq<string>, line: string, pos: nat) returns (r: string)
    requires pos <= |lines|
    ensures r == Normalize(lines, line, pos)
  {
    r := StripMarker(line);
    var parts := Split(r, "#");
    if |parts| > 0 {
      r := parts[0];
    } else {
      r := "";
    }
    if !IsBlank(r) {
      var inComment := IsPartOfComment(lines, pos);
      if inComment {
        r := "";
      }
    }
  }

  /** Each line normalized at its own index, as the backward scan of backtrackCondition sees it. */
  function NormalizeOwn(lines: seq<string>): nat --> string {
    (x: nat) requires x < |lines| => Normalize(lines, lines[x], x)
  }

  function Normalized(lines: seq<string>): (r: seq<string>)
    ensures |r| == |lines|
  {
    Tabulate(NormalizeOwn(lines), |lines|)
  }

  lemma NormalizedAt(lines: seq<string>, x: nat)
    requires x < |lines|
    ensures Normalized(lines)[x] == Normalize(lines, lines[x], x)
  {
    TabulateAt(NormalizeOwn(lines), |lines|, x);
  }

  /** Each line normalized with the index `k` of the owning line, as the continuation scan does. */
  function NormalizeWith(lines: seq<string>, k: nat): nat --> string
    requires k <= |lines|
  {
    (x: nat) requires x < |lines| => Normalize(lines, lines[x], k)
  }

  function ContinuationView(lines: seq<string>, k: nat): (r: seq<string>)
    requires k <= |lines|
    ensures |r| == |lines|
  {
    Tabulate(NormalizeWith(lines, k), |lines|)
  }

  lemma ContinuationViewAt(lines: seq<string>, k: nat, x: nat)
    requires k <= |lines| && x < |lines|
    ensures ContinuationView(lines, k)[x] == Normalize(lines, lines[x], k)
  {
    TabulateAt(NormalizeWith(lines, k), |lines|, x);
  }

  // ---------------------------------------------------------------------------------------------
  // backtrackCondition

  /** A line that may own the block end: a start keyword and neither `else` nor `endif`. */
  predicate OwnerLine(d: string) {
    !BlockEnd(d) && ConditionStart(d)
  }

  /** The backward scan over the normalized lines `norm` from index `k` with counter `nested`:
      an `endif` line raises the counter, any other start line lowers it, also below zero. */
  function Owner(norm: seq<string>, k: int, nested: int): (r: Option<nat>)
    requires -1 <= k < |norm|
    ensures r.Some? ==> r.value <= k && OwnerLine(norm[r.value])
    decreases k + 1
  {
    if k < 0 then None
    else
      var d := norm[k];
      if nested == 0 && OwnerLine(d) then Some(k)
      else if ConditionEnd(d) then Owner(norm, k - 1, nested + 1)
      else if ConditionStart(d) then Owner(norm, k - 1, nested - 1)
      else Owner(norm, k - 1, nested)
  }

  /** The continuation lines of an owner ending in `\`, each normalized with the owner's index:
      a reference on line `c`, or a further continuation that is not itself a start line. */
  function Continuation(texts: seq<string>, end: nat, c: nat): bool
    requires c <= end < |texts|
    decreases end - c
  {
    var b := texts[c];
    BuildVar(b) || (c + 1 < end && EndsWith(Trim(b), "\\") && !ConditionStart(b) && Continuation(texts, end, c + 1))
  }

  /** Whether the owner at `q` is variability related. */
  function Opener(lines: seq<string>, end: nat, q: nat): bool
    requires q < end < |lines|
  {
    var d := Normalized(lines)[q];
    BuildVar(d) || (EndsWith(Trim(d), "\\") && Continuation(ContinuationView(lines, q), end, q + 1))
  }

  /** backtrackCondition(end). */
  function Condition(lines: seq<string>, end: nat): bool
    requires end < |lines|
  {
    match Owner(Normalized(lines), end - 1, 0)
    case None => false
    case Some(q) => Opener(lines, end, q)
  }

  /** The reference may sit on any line of the continuation chain, as long as every line before it
      ends in a backslash and is not a start line of its own. */
  lemma {:induction false} ContinuationChain(texts: seq<string>, end: nat, c: nat)
    requires c <= end < |texts|
    ensures Continuation(texts, end, c) <==>
      exists d | c <= d <= end :: (d == c || d < end) && BuildVar(texts[d])
        && forall x | c <= x < d :: EndsWith(Trim(texts[x]), "\\") && !ConditionStart(texts[x])
    decreases end - c
  {
    if c + 1 < end {
      ContinuationChain(texts, end, c + 1);
      if Continuation(texts, end, c) && !BuildVar(texts[c]) {
        var d :| c + 1 <= d <= end && (d == c + 1 || d < end) && BuildVar(texts[d])
          && forall x | c + 1 <= x < d :: EndsWith(Trim(texts[x]), "\\") && !ConditionStart(texts[x]);
        assert forall x | c <= x < d :: EndsWith(Trim(texts[x]), "\\") && !ConditionStart(texts[x]);
      }
      forall d | c <= d <= end && (d == c || d < end) && BuildVar(texts[d])
          && (forall x | c <= x < d :: EndsWith(Trim(texts[x]), "\\") && !ConditionStart(texts[x]))
        ensures Continuation(texts, end, c)
      {
        if d > c {
          assert EndsWith(Trim(texts[c]), "\\") && !ConditionStart(texts[c]);
        }
      }
    }
  }

  /** Lines without a start keyword and without `endif` leave the scan unchanged. */
  predicate Quiet(d: string) {
    !ConditionStart(d) && !ConditionEnd(d)
  }

  lemma {:induction false} SkipQuiet(norm: seq<string>, q: int, k: int, n: int)
    requires -1 <= q <= k < |norm|
    requires forall j | q < j <= k :: Quiet(norm[j])
    ensures Owner(norm, k, n) == Owner(norm, q, n)
    decreases k
  {
    if q < k {
      SkipQuiet(norm, q, k - 1, n);
    }
  }

  /** The owner is the nearest owner line above the block end when only quiet lines lie between. */
  lemma NearestOwner(lines: seq<string>, end: nat, q: nat)
    requires q < end < |lines|
    requires OwnerLine(Normalized(lines)[q])
    requires forall j | q < j < end :: Quiet(Normalized(lines)[j])
    ensures Owner(Normalized(lines), end - 1, 0) == Some(q)
    ensures Condition(lines, end) == Opener(lines, end, q)
  {
    SkipQuiet(Normalized(lines), q, end - 1, 0);
  }

  /** Without any start line there is no owner. */
  lemma {:induction false} NoStartNoOwner(norm: seq<string>, k: int, n: int)
    requires -1 <= k < |norm|
    requires forall j | 0 <= j <= k :: !ConditionStart(norm[j])
    ensures Owner(norm, k, n) == None
    decreases k + 1
  {
    if k >= 0 {
      NoStartNoOwner(norm, k - 1, n + 1);
      NoStartNoOwner(norm, k - 1, n);
    }
  }

  /** A nested block from an `endif` at `m` back to its start line at `q` is stepped over. */
  lemma NestedBlockSkipped(norm: seq<string>, q: nat, m: nat, n: int)
    requires q < m < |norm| && n >= 0
    requires ConditionEnd(norm[m])
    requires forall j | q < j < m :: Quiet(norm[j])
    requires ConditionStart(norm[q]) && !ConditionEnd(norm[q])
    ensures Owner(norm, m, n) == Owner(norm, q - 1, n)
  {
    ConditionEndIsBlockEnd(norm[m]);
    SkipQuiet(norm, q, m - 1, n + 1);
  }

  /** A start line that also holds `else` (such as `else ifeq`) is not an owner, yet it lowers the
      counter even from zero; with no `endif` further up the scan then finds no owner at all. */
  lemma {:induction false} NegativeCounterNoOwner(norm: seq<string>, k: int, n: int)
    requires -1 <= k < |norm| && n < 0
    requires forall j | 0 <= j <= k :: !ConditionEnd(norm[j])
    ensures Owner(norm, k, n) == None
    decreases k + 1
  {
    if k >= 0 {
      NegativeCounterNoOwner(norm, k - 1, n - 1);
      NegativeCounterNoOwner(norm, k - 1, n);
    }
  }

  lemma ElseStartLowersCounter(norm: seq<string>, k: nat, n: int)
    requires k < |norm|
    requires ConditionStart(norm[k]) && BlockEnd(norm[k]) && !ConditionEnd(norm[k])
    ensures Owner(norm, k, n) == Owner(norm, k - 1, n - 1)
  {
  }

  /** One round of the continuation do-while: whether line `c` (normalized with index `k`) holds
      a reference, and whether the scan goes on to line `c + 1`. */
  method ContinuationLine(lines: seq<string>, end: nat, k: nat, c: nat) returns (found: bool, more: bool)
    requires k <= c <= end < |lines|
    ensures more ==>
      c + 1 < end && Continuation(ContinuationView(lines, k), end, c) == (found || Continuation(ContinuationView(lines, k), end, c + 1))
    ensures !more ==> Continuation(ContinuationView(lines, k), end, c) == found
  {
    var b := NormalizeLine(lines, lines[c], k);
    ContinuationViewAt(lines, k, c);
    found := BuildVar(b);
    more := c + 1 < end && EndsWith(Trim(b), "\\") && !ConditionStart(b);
  }

  method ScanContinuation(lines: seq<string>, end: nat, k: nat) returns (r: bool)
    requires k < end < |lines|
    ensures r == Continuation(ContinuationView(lines, k), end, k + 1)
  {
    r := false;
    var c := k + 1;
    while true
      invariant k + 1 <= c <= end
      invariant (r || Continuation(ContinuationView(lines, k), end, c)) == Continuation(ContinuationView(lines, k), end, k + 1)
      decreases end - c
    {
      var found, more := ContinuationLine(lines, end, k, c);
      if found {
        r := true;
      }
      if !more {
        break;
      }
      c := c + 1;
    }
  }

  /** The owner test of backtrackCondition for the owner at `k`, whose normalized text is `d`. */
  method TestOpener(lines: seq<string>, end: nat, k: nat, d: string) returns (r: bool)
    requires k < end < |lines| && d == Normalized(lines)[k]
    ensures r == Opener(lines, end, k)
  {
    r := false;
    if BuildVar(d) {
      r := true;
    } else if EndsWith(Trim(d), "\\") {
      r := ScanContinuation(lines, end, k);
    }
  }

  /** One round of the backward scan at line `k` with counter `nested`: whether the line is the
      owner, and otherwise the counter for the line above. */
  method OwnerStep(lines: seq<string>, k: nat, nested: int) returns (owner: bool, next: int, d: string)
    requires k < |lines|
    ensures d == Normalized(lines)[k]
    ensures owner ==> Owner(Normalized(lines), k, nested) == Some(k)
    ensures !owner ==> Owner(Normalized(lines), k, nested) == Owner(Normalized(lines), k - 1, next)
  {
    d := NormalizeLine(lines, lines[k], k);
    NormalizedAt(lines, k);
    owner := nested == 0 && !BlockEnd(d) && ConditionStart(d);
    next := nested;
    if !owner {
      if ConditionEnd(d) {
        next := nested + 1;
      } else if ConditionStart(d) {
        next := nested - 1;
      }
    }
  }

  method BacktrackCondition(lines: seq<string>, end: nat) returns (r: bool)
    requires end < |lines|
    ensures r == Condition(lines, end)
  {
    ghost var norm := Normalized(lines);
    r := false;
    var found := false;
    var nested := 0;
    var k := end as int - 1;
    while !found && k >= 0
      invariant -1 <= k < end
      invariant !found ==> !r && Owner(norm, k, nested) == Owner(norm, end - 1, 0)
      invariant found ==> r == Condition(lines, end)
      decreases k + 1
    {
      var owner, next, d := OwnerStep(lines, k, nested);
      if owner {
        found := true;
        r := TestOpener(lines, end, k, d);
      }
      nested := next;
      k := k - 1;
    }
  }

  // ---------------------------------------------------------------------------------------------
  // isVariabilityChange

  /** isVariabilityChange(clean, pos). */
  function IsVarChange(lines: seq<string>, clean: string, pos: nat): bool
    requires pos < |lines|
  {
    !InComment(lines, pos) && (BuildVar(clean) || (BlockEnd(clean) && Condition(lines, pos)))
  }

  /** Inside a continued comment nothing is a variability change; outside one, a `$(CONFIG_`
      reference always is, and a line with neither a reference nor `else`/`endif` never is. */
  lemma IsVarChangeCases(lines: seq<string>, clean: string, pos: nat)
    requires pos < |lines|
    ensures InComment(lines, pos) ==> !IsVarChange(lines, clean, pos)
    ensures !InComment(lines, pos) && BuildVar(clean) ==> IsVarChange(lines, clean, pos)
    ensures !BuildVar(clean) && !BlockEnd(clean) ==> !IsVarChange(lines, clean, pos)
    ensures IsVarChange(lines, clean, pos) && !BuildVar(clean) ==> Owner(Normalized(lines), pos - 1, 0).Some?
  {
  }

  method IsVariabilityChange(lines: seq<string>, clean: string, pos: nat) returns (r: bool)
    requires pos < |lines|
    ensures r == IsVarChange(lines, clean, pos)
  {
    r := false;
    var inComment := IsPartOfComment(lines, pos);
    if !inComment {
      if BuildVar(clean) {
        r := true;
      } else if BlockEnd(clean) {
        r := BacktrackCondition(lines, pos);
      }
    }
  }
}
