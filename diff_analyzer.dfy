/**
 * The analysis of one commit: its text is cut into one block per changed file, each block is
 * given a file kind by the path in its first line, and the counts of the file diffs are summed
 * per kind. The commit number comes from the name of the commit file and the commit date from
 * the first line of its text.
 */
module DiffAnalyzer {
  import opened JavaText
  import opened DiffLines
  import opened FileDiff
  import Source = SourceFileDiff
  import Model = ModelFileDiff

  /** FILE_EXTENSION_BLACKLIST */
  const FileExtensionBlacklist: seq<string> := ["lb"]

  /** DIFF_START_PATTERN and CHANGES_START_PATTERN */
  const DiffStartPattern: string := "diff --git"
  const ChangesStartPattern: string := "@@"

  // ---------------------------------------------------------------------------------------------
  // getFirstChangeLine

  /** The index of the first line from `k` on that starts with `@@`, or -1. */
  function FirstChangeFrom(lines: seq<string>, k: nat): int
    requires k <= |lines|
    decreases |lines| - k
  {
    if k == |lines| then -1
    else if StartsWith(lines[k], ChangesStartPattern) then k
    else FirstChangeFrom(lines, k + 1)
  }

  function FirstChangeLine(lines: seq<string>): int {
    FirstChangeFrom(lines, 0)
  }

  lemma {:induction false} FirstChangeFromSpec(lines: seq<string>, k: nat)
    requires k <= |lines|
    ensures var r := FirstChangeFrom(lines, k);
      && (r == -1 <==> forall i | k <= i < |lines| :: !StartsWith(lines[i], ChangesStartPattern))
      && (r != -1 ==>
            k <= r < |lines| && StartsWith(lines[r], ChangesStartPattern)
            && forall j | k <= j < r :: !StartsWith(lines[j], ChangesStartPattern))
    decreases |lines| - k
  {
    if k < |lines| && !StartsWith(lines[k], ChangesStartPattern) {
      FirstChangeFromSpec(lines, k + 1);
    }
  }

  /** The first `@@` line: -1 exactly when there is none, otherwise the smallest index of one. */
  lemma FirstChangeLineSpec(lines: seq<string>)
    ensures var r := FirstChangeLine(lines);
      && (r == -1 <==> forall i | 0 <= i < |lines| :: !StartsWith(lines[i], ChangesStartPattern))
      && (r != -1 ==>
            0 <= r < |lines| && StartsWith(lines[r], ChangesStartPattern)
            && forall j | 0 <= j < r :: !StartsWith(lines[j], ChangesStartPattern))
  {
    FirstChangeFromSpec(lines, 0);
  }

  method GetFirstChangeLine(lines: seq<string>) returns (r: int)
    ensures r == FirstChangeLine(lines)
    ensures r == -1 || (0 <= r < |lines| && StartsWith(lines[r], ChangesStartPattern))
  {
    r := -1;
    var k := 0;
    while r < 0 && k < |lines|
      invariant 0 <= k <= |lines|
      invariant r < 0 ==> r == -1 && FirstChangeFrom(lines, k) == FirstChangeLine(lines)
      invariant r >= 0 ==> r == FirstChangeLine(lines) && r < |lines| && StartsWith(lines[r], ChangesStartPattern)
    {
      if StartsWith(lines[k], ChangesStartPattern) {
        r := k;
      }
      k := k + 1;
    }
  }

  // ---------------------------------------------------------------------------------------------
  // isBlacklisted

  /** The trimmed header ends in `.` and one of the blacklisted extensions. */
  predicate Blacklisted(header: string) {
    exists k | 0 <= k < |FileExtensionBlacklist| :: EndsWith(Trim(header), "." + FileExtensionBlacklist[k])
  }

  /** With the one blacklisted extension, a header is blacklisted exactly when it ends in `.lb`. */
  lemma BlacklistedIff(header: string)
    ensures Blacklisted(header) <==> EndsWith(Trim(header), ".lb")
  {
    assert "." + FileExtensionBlacklist[0] == ".lb";
  }

  method IsBlacklisted(header: string) returns (r: bool)
    ensures r == Blacklisted(header)
  {
    r := false;
    var k := 0;
    while k < |FileExtensionBlacklist| && !r
      invariant 0 <= k <= |FileExtensionBlacklist|
      invariant r <==> exists j | 0 <= j < k :: EndsWith(Trim(header), "." + FileExtensionBlacklist[j])
    {
      if EndsWith(Trim(header), "." + FileExtensionBlacklist[k]) {
        r := true;
      }
      k := k + 1;
    }
  }

  // ---------------------------------------------------------------------------------------------
  // The path patterns, each matched against the whole header line. Every character of such a
  // match is matched by `.` or by a literal, so no match holds a line terminator.

  /** The separators of the optional name suffix `(\.|\-|\_|\+|\~)`. */
  predicate IsSuffixSeparator(c: char) {
    c in ".-_+~"
  }

  /** `r` is `name` followed by `((\.|\-|\_|\+|\~).*)?`. */
  predicate NameWithSuffix(r: string, name: string) {
    StartsWith(r, name) && (|r| == |name| || IsSuffixSeparator(r[|name|]))
  }

  /** `[dD]ocumentation(s)?` or `[sS]cript(s)?` */
  predicate ExcludedDirectory(d: string) {
    d in {"documentation", "Documentation", "documentations", "Documentations",
          "script", "Script", "scripts", "Scripts"}
  }

  /** A directory entry `/<d>/` whose name `d` is excluded, from index `i` to index `j`. */
  predicate ExcludedDirectoryAt(h: string, i: int, j: int) {
    0 <= i < j < |h| && h[i] == '/' && h[j] == '/' && ExcludedDirectory(h[i + 1..j])
  }

  // FILE_EXCLUDE_PATTERN: `(.*/(documentation or script directory)/.*)|(.*\.txt)`
  predicate Excluded(h: string) {
    NoLineTerminator(h)
    && ((exists i, j | 0 <= i < j < |h| :: ExcludedDirectoryAt(h, i, j)) || EndsWith(h, ".txt"))
  }

  // SOURCE_FILE_PATTERN: `.*/.*\.[hcS]` and the optional suffix; `/` at `i`, `.` at `j`.
  predicate SourcePathAt(h: string, i: int, j: int) {
    0 <= i < j < |h| && h[i] == '/' && h[j] == '.'
    && (NameWithSuffix(h[j + 1..], "h") || NameWithSuffix(h[j + 1..], "c") || NameWithSuffix(h[j + 1..], "S"))
  }

  predicate IsSourcePath(h: string) {
    NoLineTerminator(h) && exists i, j | 0 <= i < j < |h| :: SourcePathAt(h, i, j)
  }

  // BUILD_FILE_PATTERN: `.*/(Makefile|Kbuild)` and the optional suffix.
  predicate BuildPathAt(h: string, i: int) {
    0 <= i < |h| && h[i] == '/' && (NameWithSuffix(h[i + 1..], "Makefile") || NameWithSuffix(h[i + 1..], "Kbuild"))
  }

  predicate IsBuildPath(h: string) {
    NoLineTerminator(h) && exists i | 0 <= i < |h| :: BuildPathAt(h, i)
  }

  // MODEL_FILE_PATTERN: `.*/Kconfig` and the optional suffix.
  predicate ModelPathAt(h: string, i: int) {
    0 <= i < |h| && h[i] == '/' && NameWithSuffix(h[i + 1..], "Kconfig")
  }

  predicate IsModelPath(h: string) {
    NoLineTerminator(h) && exists i | 0 <= i < |h| :: ModelPathAt(h, i)
  }

  /** The file kind createFileDiff chooses for a header line: excluded and blacklisted files
      first, then source, build and model files in that order; all others are of the other kind. */
  function Dispatch(header: string): (t: FileType)
    ensures Excluded(header) || Blacklisted(header) ==> t == OtherFile
    ensures t == SourceFile <==> !Excluded(header) && !Blacklisted(header) && IsSourcePath(header)
    ensures t == BuildFile <==>
      !Excluded(header) && !Blacklisted(header) && !IsSourcePath(header) && IsBuildPath(header)
    ensures t == ModelFile <==>
      !Excluded(header) && !Blacklisted(header) && !IsSourcePath(header) && !IsBuildPath(header) && IsModelPath(header)
  {
    if Excluded(header) || Blacklisted(header) then OtherFile
    else if IsSourcePath(header) then SourceFile
    else if IsBuildPath(header) then BuildFile
    else if IsModelPath(header) then ModelFile
    else OtherFile
  }

  /** A header ending in a path whose last name has the extension `.c` matches the source
      pattern. */
  lemma CFileIsSource(h: string, i: nat)
    requires NoLineTerminator(h) && i + 2 < |h| && h[i] == '/' && EndsWith(h, ".c")
    ensures IsSourcePath(h)
  {
    var j := |h| - 2;
    assert h[j..] == ".c";
    assert h[j] == '.' && h[j + 1..] == "c";
    assert SourcePathAt(h, i, j);
  }

  /** A header ending in `/Makefile` matches the build pattern. */
  lemma MakefileIsBuild(h: string)
    requires NoLineTerminator(h) && EndsWith(h, "/Makefile")
    ensures IsBuildPath(h)
  {
    var i := |h| - 9;
    assert h[i..] == "/Makefile";
    assert h[i] == '/' && h[i + 1..] == "Makefile";
    assert BuildPathAt(h, i);
  }

  /** A header ending in `/Kconfig` matches the model pattern. */
  lemma KconfigIsModel(h: string)
    requires NoLineTerminator(h) && EndsWith(h, "/Kconfig")
    ensures IsModelPath(h)
  {
    var i := |h| - 8;
    assert h[i..] == "/Kconfig";
    assert h[i] == '/' && h[i + 1..] == "Kconfig";
    assert ModelPathAt(h, i);
  }

  /** A path through a `/Documentation/` directory is of the other kind, whatever its name. */
  lemma DocumentationIsOther(h: string, i: nat)
    requires NoLineTerminator(h) && i + 14 < |h| && h[i..i + 15] == "/Documentation/"
    ensures Dispatch(h) == OtherFile
  {
    var w, d := h[i..i + 15], h[i + 1..i + 14];
    assert h[i] == w[0] && h[i + 14] == w[14];
    forall k | 0 <= k < 13 ensures d[k] == "Documentation"[k] {
      assert d[k] == w[k + 1];
    }
    assert d == "Documentation";
    assert ExcludedDirectoryAt(h, i, i + 14);
  }

  /** A header whose trimmed text ends in `.lb` is of the other kind, whatever its path. */
  lemma LbFileIsOther(h: string)
    requires EndsWith(Trim(h), ".lb")
    ensures Dispatch(h) == OtherFile
  {
    BlacklistedIff(h);
  }

  // ---------------------------------------------------------------------------------------------
  // createFileDiff

  /** diff.split("\n") */
  function BlockLines(diff: string): seq<string> {
    Split(diff, "\n")
  }

  /** A block as createDiffList builds it: empty, a continuation of the text before the first
      `diff --git` line (which starts with a line break), or a `diff --git` block. */
  predicate BlockShaped(diff: string) {
    diff == "" || StartsWith(diff, "\n") || StartsWith(diff, DiffStartPattern)
  }

  /** The first line of a block is empty or a `diff --git` line. */
  lemma BlockHeader(diff: string)
    requires BlockShaped(diff)
    ensures var lines := BlockLines(diff);
      |lines| > 0 ==> lines[0] == "" || StartsWith(lines[0], DiffStartPattern)
  {
    SplitFirst(diff, "\n");
    if StartsWith(diff, DiffStartPattern) {
      assert Free(diff[..10], '\n') by {
        assert diff[..10] == DiffStartPattern;
      }
      BeforeKeepsPrefix(diff, '\n', 10);
    } else if diff != "" {
      IndexOfChar(diff, '\n', 0);
    }
  }

  /** No file kind's backward scan reads index -1 of such a block: its first line is not a bare
      `{` and, normalized as a Kconfig line, it has no indentation. */
  lemma BlockAnalyzableFor(diff: string, t: FileType)
    requires BlockShaped(diff)
    ensures Analyzable(t, BlockLines(diff))
  {
    var lines := BlockLines(diff);
    BlockHeader(diff);
    if |lines| > 0 {
      var h := lines[0];
      Source.BareBraceIff(h);
      Model.NormalizeIsBefore(h);
      if h != "" {
        assert h[0] == 'd';
        assert StripMarker(h) == h;
        assert Free(h[..1], '#');
        BeforeKeepsPrefix(h, '#', 1);
        assert Model.Normalize(h)[0] == 'd';
      } else {
        assert StripMarker(h) == "";
        IndexOfNoChar("", '#');
      }
    }
  }

  /** Some block produces a file diff. */
  predicate AnyProduces(diffs: seq<string>)
    decreases |diffs|
  {
    diffs != [] && (AnyProduces(diffs[..|diffs| - 1]) || Produces(diffs[|diffs| - 1]))
  }

  /** analyze succeeds exactly when at least one block has a `@@` line. */
  lemma {:induction false} AnyProducesIff(diffs: seq<string>)
    ensures AnyProduces(diffs) <==> exists k | 0 <= k < |diffs| :: Produces(diffs[k])
    decreases |diffs|
  {
    if diffs != [] {
      var init := diffs[..|diffs| - 1];
      AnyProducesIff(init);
      if exists k | 0 <= k < |init| :: Produces(init[k]) {
        var k :| 0 <= k < |init| && Produces(init[k]);
        assert diffs[k] == init[k];
      }
      if exists k | 0 <= k < |diffs| :: Produces(diffs[k]) {
        var k :| 0 <= k < |diffs| && Produces(diffs[k]);
        if k < |init| {
          assert init[k] == diffs[k];
        }
      }
    }
  }

  /** What createFileDiff needs of a block: its lines can be analyzed as the kind its header
      selects. */
  predicate BlockAnalyzable(diff: string) {
    Analyzable(Dispatch(Part(BlockLines(diff), 0)), BlockLines(diff))
  }

  lemma ShapedBlockAnalyzable(diff: string)
    requires BlockShaped(diff)
    ensures BlockAnalyzable(diff)
  {
    BlockAnalyzableFor(diff, Dispatch(Part(BlockLines(diff), 0)));
  }

  /** The block has lines and one of them starts with `@@`: createFileDiff returns a file diff. */
  predicate Produces(diff: string) {
    var lines := BlockLines(diff);
    |lines| > 0 && FirstChangeLine(lines) >= 0
  }

  /** The kind and the final counts of the file diff createFileDiff makes of a block. */
  datatype FileResult = FileResult(kind: FileType, counts: LineCounts)

  function FileOutcome(diff: string): (r: Option<FileResult>)
    requires BlockAnalyzable(diff)
    ensures r.Some? <==> Produces(diff)
  {
    var lines := BlockLines(diff);
    if |lines| == 0 then None
    else
      var start := FirstChangeLine(lines);
      if start < 0 then None
      else
        var t := Dispatch(lines[0]);
        Some(FileResult(t, Tally(Changes(t, lines), start, |lines|)))
  }

  /** createFileDiff returns null exactly when the block has no `@@` line. */
  lemma NoHunkNoFileDiff(diff: string)
    requires BlockAnalyzable(diff)
    ensures FileOutcome(diff).None? <==>
      forall i | 0 <= i < |BlockLines(diff)| :: !StartsWith(BlockLines(diff)[i], ChangesStartPattern)
  {
    FirstChangeLineSpec(BlockLines(diff));
  }

  // ---------------------------------------------------------------------------------------------
  // The per-commit counters

  /** The nine counters of a commit analysis. */
  datatype CommitCounts = CommitCounts(
    modelFiles: nat, modelLines: nat, modelVarLines: nat,
    sourceFiles: nat, sourceLines: nat, sourceVarLines: nat,
    buildFiles: nat, buildLines: nat, buildVarLines: nat)

  const NoCommitCounts := CommitCounts(0, 0, 0, 0, 0, 0, 0, 0, 0)

  /** The changed-files, changed-lines and changed-variability-lines counters of one kind; the
      other kind has none. */
  function Files(c: CommitCounts, t: FileType): nat {
    match t
    case SourceFile => c.sourceFiles
    case BuildFile => c.buildFiles
    case ModelFile => c.modelFiles
    case OtherFile => 0
  }

  function Lines(c: CommitCounts, t: FileType): nat {
    match t
    case SourceFile => c.sourceLines
    case BuildFile => c.buildLines
    case ModelFile => c.modelLines
    case OtherFile => 0
  }

  function VarLines(c: CommitCounts, t: FileType): nat {
    match t
    case SourceFile => c.sourceVarLines
    case BuildFile => c.buildVarLines
    case ModelFile => c.modelVarLines
    case OtherFile => 0
  }

  /** getChangedLines(fileDiff, false) and getChangedLines(fileDiff, true). */
  function ChangedLines(l: LineCounts): nat {
    l.added + l.deleted
  }

  function ChangedVarLines(l: LineCounts): nat {
    l.addedVar + l.deletedVar
  }

  /** The file counter createFileDiff raises for a file of kind `t`. */
  function AddFile(c: CommitCounts, t: FileType): (r: CommitCounts)
    ensures forall u :: Files(r, u) == Files(c, u) + (if u == t && t != OtherFile then 1 else 0)
    ensures forall u :: Lines(r, u) == Lines(c, u) && VarLines(r, u) == VarLines(c, u)
  {
    match t
    case SourceFile => c.(sourceFiles := c.sourceFiles + 1)
    case BuildFile => c.(buildFiles := c.buildFiles + 1)
    case ModelFile => c.(modelFiles := c.modelFiles + 1)
    case OtherFile => c
  }

  /** The line counters analyze raises for a file diff of kind `t` with counts `l`. */
  function AddLines(c: CommitCounts, t: FileType, l: LineCounts): (r: CommitCounts)
    ensures forall u :: Files(r, u) == Files(c, u)
    ensures forall u :: Lines(r, u) == Lines(c, u) + (if u == t && t != OtherFile then ChangedLines(l) else 0)
    ensures forall u :: VarLines(r, u) == VarLines(c, u) + (if u == t && t != OtherFile then ChangedVarLines(l) else 0)
  {
    match t
    case SourceFile => c.(sourceLines := c.sourceLines + ChangedLines(l), sourceVarLines := c.sourceVarLines + ChangedVarLines(l))
    case BuildFile => c.(buildLines := c.buildLines + ChangedLines(l), buildVarLines := c.buildVarLines + ChangedVarLines(l))
    case ModelFile => c.(modelLines := c.modelLines + ChangedLines(l), modelVarLines := c.modelVarLines + ChangedVarLines(l))
    case OtherFile => c
  }

  /** The counters are determined by their per-kind views. */
  lemma CountsByKind(c: CommitCounts, d: CommitCounts)
    requires forall u :: Files(c, u) == Files(d, u) && Lines(c, u) == Lines(d, u) && VarLines(c, u) == VarLines(d, u)
    ensures c == d
  {
    assert Files(c, SourceFile) == Files(d, SourceFile) && Lines(c, SourceFile) == Lines(d, SourceFile);
    assert VarLines(c, SourceFile) == VarLines(d, SourceFile);
    assert Files(c, BuildFile) == Files(d, BuildFile) && Lines(c, BuildFile) == Lines(d, BuildFile);
    assert VarLines(c, BuildFile) == VarLines(d, BuildFile);
    assert Files(c, ModelFile) == Files(d, ModelFile) && Lines(c, ModelFile) == Lines(d, ModelFile);
    assert VarLines(c, ModelFile) == VarLines(d, ModelFile);
  }

  /** A block of the given kind that produces a file diff. */
  predicate OfKind(diff: string, t: FileType)
    requires BlockAnalyzable(diff)
  {
    FileOutcome(diff).Some? && FileOutcome(diff).value.kind == t
  }

  /** One round of analyze's loop: createFileDiff raises the file counter, then analyze adds the
      file diff's changed lines to the line counters of its kind. */
  function AnalyzeBlock(c: CommitCounts, diff: string): CommitCounts
    requires BlockAnalyzable(diff)
  {
    match FileOutcome(diff)
    case None => c
    case Some(f) => AddLines(AddFile(c, f.kind), f.kind, f.counts)
  }

  /** A block raises the counters of its own kind only: the file counter by one, the line and
      variability-line counters by its changed lines. */
  lemma AnalyzeBlockStep(c: CommitCounts, diff: string, t: FileType)
    requires BlockAnalyzable(diff)
    ensures var r := AnalyzeBlock(c, diff);
      && Files(r, t) == Files(c, t) + (if OfKind(diff, t) && t != OtherFile then 1 else 0)
      && Lines(r, t) == Lines(c, t) + (if OfKind(diff, t) && t != OtherFile then ChangedLines(FileOutcome(diff).value.counts) else 0)
      && VarLines(r, t) == VarLines(c, t) + (if OfKind(diff, t) && t != OtherFile then ChangedVarLines(FileOutcome(diff).value.counts) else 0)
  {
  }

  /** A block without `@@` lines or of the other kind leaves every counter as it is. */
  lemma QuietBlockAddsNothing(c: CommitCounts, diff: string)
    requires BlockAnalyzable(diff)
    requires FileOutcome(diff).None? || FileOutcome(diff).value.kind == OtherFile
    ensures AnalyzeBlock(c, diff) == c
  {
  }

  predicate AllAnalyzable(diffs: seq<string>) {
    forall k | 0 <= k < |diffs| :: BlockAnalyzable(diffs[k])
  }

  lemma AllAnalyzablePrefix(diffs: seq<string>, n: nat)
    requires AllAnalyzable(diffs) && n <= |diffs|
    ensures AllAnalyzable(diffs[..n])
  {
    forall k | 0 <= k < n ensures BlockAnalyzable(diffs[..n][k]) {
      assert diffs[..n][k] == diffs[k];
    }
  }

  /** The counters after the blocks are analyzed in their order. */
  function AnalyzeBlocks(c: CommitCounts, diffs: seq<string>): CommitCounts
    requires AllAnalyzable(diffs)
    decreases |diffs|
  {
    if diffs == [] then c
    else
      AllAnalyzablePrefix(diffs, |diffs| - 1);
      AnalyzeBlock(AnalyzeBlocks(c, diffs[..|diffs| - 1]), diffs[|diffs| - 1])
  }

  /** The number of blocks of kind `t`, and the sums of their changed lines and changed
      variability lines. */
  function KindCount(diffs: seq<string>, t: FileType): nat
    requires AllAnalyzable(diffs)
    decreases |diffs|
  {
    if diffs == [] then 0
    else
      AllAnalyzablePrefix(diffs, |diffs| - 1);
      KindCount(diffs[..|diffs| - 1], t) + (if OfKind(diffs[|diffs| - 1], t) then 1 else 0)
  }

  function KindLines(diffs: seq<string>, t: FileType): nat
    requires AllAnalyzable(diffs)
    decreases |diffs|
  {
    if diffs == [] then 0
    else
      AllAnalyzablePrefix(diffs, |diffs| - 1);
      var last := diffs[|diffs| - 1];
      KindLines(diffs[..|diffs| - 1], t) + (if OfKind(last, t) then ChangedLines(FileOutcome(last).value.counts) else 0)
  }

  function KindVarLines(diffs: seq<string>, t: FileType): nat
    requires AllAnalyzable(diffs)
    decreases |diffs|
  {
    if diffs == [] then 0
    else
      AllAnalyzablePrefix(diffs, |diffs| - 1);
      var last := diffs[|diffs| - 1];
      KindVarLines(diffs[..|diffs| - 1], t) + (if OfKind(last, t) then ChangedVarLines(FileOutcome(last).value.counts) else 0)
  }

  /** One more round of analyze's loop over the blocks. */
  lemma AnalyzeRound(c: CommitCounts, diffs: seq<string>, i: nat)
    requires AllAnalyzable(diffs) && i < |diffs|
    ensures AllAnalyzable(diffs[..i]) && AllAnalyzable(diffs[..i + 1])
    ensures AnalyzeBlocks(c, diffs[..i + 1]) == AnalyzeBlock(AnalyzeBlocks(c, diffs[..i]), diffs[i])
    ensures AnyProduces(diffs[..i + 1]) == (AnyProduces(diffs[..i]) || FileOutcome(diffs[i]).Some?)
  {
    AllAnalyzablePrefix(diffs, i);
    AllAnalyzablePrefix(diffs, i + 1);
    assert diffs[..i + 1][..i] == diffs[..i];
  }

  /** Per kind, the file counter grows by the number of that kind's blocks, the line counter by
      the sum of their added and deleted lines, and the variability counter by the sum of their
      added and deleted variability lines. */
  lemma {:induction false} AnalyzeBlocksSums(c: CommitCounts, diffs: seq<string>, t: FileType)
    requires AllAnalyzable(diffs) && t != OtherFile
    ensures var r := AnalyzeBlocks(c, diffs);
      && Files(r, t) == Files(c, t) + KindCount(diffs, t)
      && Lines(r, t) == Lines(c, t) + KindLines(diffs, t)
      && VarLines(r, t) == VarLines(c, t) + KindVarLines(diffs, t)
    decreases |diffs|
  {
    if diffs != [] {
      var init := diffs[..|diffs| - 1];
      AllAnalyzablePrefix(diffs, |diffs| - 1);
      AnalyzeBlocksSums(c, init, t);
      AnalyzeBlockStep(AnalyzeBlocks(c, init), diffs[|diffs| - 1], t);
    }
  }

  /** Each block is counted as at most one file. */
  lemma {:induction false} KindCountBound(diffs: seq<string>, t: FileType)
    requires AllAnalyzable(diffs)
    ensures KindCount(diffs, t) <= |diffs|
    ensures KindCount(diffs, SourceFile) + KindCount(diffs, BuildFile) + KindCount(diffs, ModelFile) <= |diffs|
    decreases |diffs|
  {
    if diffs != [] {
      AllAnalyzablePrefix(diffs, |diffs| - 1);
      KindCountBound(diffs[..|diffs| - 1], t);
    }
  }
  // ---------------------------------------------------------------------------------------------
  // createDiffList, over the lines that the reader returns (the first one is the date)

  /** The loop of createDiffList from the builder text `b` and the list `acc` on: a
      `diff --git` line pushes a non-empty builder and starts a new one, any other line is
      appended after a line break, and at the end the builder is pushed whatever it holds. */
  function SplitBlocks(acc: seq<string>, b: string, rest: seq<string>): seq<string>
    decreases |rest|
  {
    if rest == [] then acc + [b]
    else if StartsWith(rest[0], DiffStartPattern) then
      SplitBlocks(if |b| > 0 then acc + [b] else acc, rest[0], rest[1..])
    else SplitBlocks(acc, b + "\n" + rest[0], rest[1..])
  }

  /** The lines after the date line. */
  function Body(fileLines: seq<string>): seq<string> {
    if |fileLines| > 0 then fileLines[1..] else []
  }

  /** The blocks of the commit text. */
  function DiffList(fileLines: seq<string>): seq<string> {
    SplitBlocks([], "", Body(fileLines))
  }

  /** The number of `diff --git` lines. */
  function Headers(lines: seq<string>): nat
    decreases |lines|
  {
    if lines == [] then 0 else (if StartsWith(lines[0], DiffStartPattern) then 1 else 0) + Headers(lines[1..])
  }

  /** What the loop keeps: the first block has a block shape, every later one starts with
      `diff --git`, and so does the builder once a block has been pushed. */
  predicate BlocksInvariant(acc: seq<string>, b: string) {
    (forall k | 0 < k < |acc| :: StartsWith(acc[k], DiffStartPattern))
    && (|acc| > 0 ==> BlockShaped(acc[0]) && StartsWith(b, DiffStartPattern))
    && (|acc| == 0 ==> BlockShaped(b))
  }

  lemma {:induction false} SplitBlocksShape(acc: seq<string>, b: string, rest: seq<string>)
    requires BlocksInvariant(acc, b)
    ensures var r := SplitBlocks(acc, b, rest);
      |r| > 0 && BlockShaped(r[0]) && forall k | 0 < k < |r| :: StartsWith(r[k], DiffStartPattern)
    decreases |rest|
  {
    if rest != [] {
      if StartsWith(rest[0], DiffStartPattern) {
        var acc' := if |b| > 0 then acc + [b] else acc;
        assert BlocksInvariant(acc', rest[0]);
        SplitBlocksShape(acc', rest[0], rest[1..]);
      } else {
        var b' := b + "\n" + rest[0];
        assert |acc| > 0 ==> b'[..10] == b[..10];
        assert |acc| == 0 && b != "" ==>
          b'[..|b|] == b && (StartsWith(b, "\n") ==> b'[..1] == b[..1])
          && (StartsWith(b, DiffStartPattern) ==> b'[..10] == b[..10]);
        assert |acc| == 0 && b == "" ==> b'[..1] == "\n";
        SplitBlocksShape(acc, b', rest[1..]);
      }
    }
  }

  lemma {:induction false} SplitBlocksCount(acc: seq<string>, b: string, rest: seq<string>)
    ensures |SplitBlocks(acc, b, rest)| ==
      |acc| + Headers(rest) + 1 - (if b == "" && rest != [] && StartsWith(rest[0], DiffStartPattern) then 1 else 0)
    decreases |rest|
  {
    if rest != [] {
      if StartsWith(rest[0], DiffStartPattern) {
        SplitBlocksCount(if |b| > 0 then acc + [b] else acc, rest[0], rest[1..]);
        assert rest[0] != "";
      } else {
        SplitBlocksCount(acc, b + "\n" + rest[0], rest[1..]);
      }
    }
  }

  /** Every block has a block shape and the ones after the first start with `diff --git`; there
      is one block per `diff --git` line, and one more for the text in front of the first one
      (also when the commit text has no lines after the date at all). */
  lemma DiffListShape(fileLines: seq<string>)
    ensures var r := DiffList(fileLines); var body := Body(fileLines);
      && |r| > 0 && BlockShaped(r[0])
      && (forall k | 0 < k < |r| :: StartsWith(r[k], DiffStartPattern))
      && |r| == Headers(body) + (if body != [] && StartsWith(body[0], DiffStartPattern) then 0 else 1)
  {
    SplitBlocksShape([], "", Body(fileLines));
    SplitBlocksCount([], "", Body(fileLines));
  }

  /** Once the builder holds text, joining the blocks with line breaks gives the joined lines
      of the list, the builder and the rest: every line is kept, and in order. */
  lemma {:induction false} SplitBlocksJoin(acc: seq<string>, b: string, rest: seq<string>)
    requires b != ""
    ensures Join(SplitBlocks(acc, b, rest), '\n') == Join(acc + [b] + rest, '\n')
    decreases |rest|
  {
    if rest == [] {
      assert acc + [b] + rest == acc + [b];
    } else {
      assert acc + [b] + rest == acc + [b, rest[0]] + rest[1..];
      if StartsWith(rest[0], DiffStartPattern) {
        assert rest[0] != "";
        SplitBlocksJoin(acc + [b], rest[0], rest[1..]);
        assert acc + [b] + [rest[0]] + rest[1..] == acc + [b, rest[0]] + rest[1..];
      } else {
        SplitBlocksJoin(acc, b + "\n" + rest[0], rest[1..]);
        JoinMerge(acc, b, rest[0], rest[1..], '\n');
      }
    }
  }

  /** The blocks joined with line breaks give back the commit text after the date line, with a
      line break in front when that text does not begin with a `diff --git` line. */
  lemma DiffListJoin(fileLines: seq<string>)
    ensures var body := Body(fileLines);
      Join(DiffList(fileLines), '\n')
        == (if body != [] && !StartsWith(body[0], DiffStartPattern) then "\n" else "") + Join(body, '\n')
  {
    var body := Body(fileLines);
    if body != [] {
      assert body == [body[0]] + body[1..];
      if StartsWith(body[0], DiffStartPattern) {
        assert body[0] != "";
        SplitBlocksJoin([], body[0], body[1..]);
      } else {
        var first := "" + "\n" + body[0];
        SplitBlocksJoin([], first, body[1..]);
        assert [first] + body[1..] == [] + [first] + body[1..];
        if |body| > 1 {
          assert ([first] + body[1..])[1..] == body[1..];
        }
      }
    }
  }

  /** Every block of the commit text can be analyzed. */
  lemma DiffListAnalyzable(fileLines: seq<string>)
    ensures AllAnalyzable(DiffList(fileLines))
  {
    var r := DiffList(fileLines);
    DiffListShape(fileLines);
    forall k | 0 <= k < |r| ensures BlockAnalyzable(r[k]) {
      assert BlockShaped(r[k]);
      ShapedBlockAnalyzable(r[k]);
    }
  }

  // ---------------------------------------------------------------------------------------------
  // The commit number and the commit date

  /** The commit number taken from the name of the commit file: the part before the `.` when
      the name splits on `.` into exactly two parts, the second being `txt`; "" otherwise. */
  function CommitNumber(name: string): string {
    var parts := Split(name, ".");
    if |parts| != 2 || parts[1] != "txt" then "" else parts[0]
  }

  /** A name `<sha>.txt` whose sha holds no `.` gives back the sha. */
  lemma CommitNumberOf(sha: string)
    requires Free(sha, '.')
    ensures CommitNumber(sha + ".txt") == sha
  {
    assert Join([sha, "txt"], '.') == sha + ".txt";
    assert Free("txt", '.');
    SplitJoin([sha, "txt"], '.');
  }

  /** A name with more than one `.` inside gives no commit number, and neither does a name
      of another extension. */
  lemma CommitNumberRejects(a: string, b: string, c: string)
    requires Free(a, '.') && Free(b, '.') && Free(c, '.') && c != ""
    ensures CommitNumber(a + "." + b + "." + c) == ""
    ensures b != "" && b != "txt" ==> CommitNumber(a + "." + b) == ""
  {
    assert [a, b, c][1..] == [b, c] && [b, c][1..] == [c];
    assert Join([b, c], '.') == b + "." + c;
    assert Join([a, b, c], '.') == a + "." + (b + "." + c) == a + "." + b + "." + c;
    SplitJoin([a, b, c], '.');
    if b != "" && b != "txt" {
      assert Join([a, b], '.') == a + "." + b;
      SplitJoin([a, b], '.');
    }
  }

  /** parseCommitDate: `YYYY-MM-DD ...` becomes `YYYY/MM/DD`; None leaves the date as it was. */
  function ParsedDate(firstLine: Option<string>): Option<string> {
    if firstLine.None? || firstLine.value == "" then None
    else
      var dateAndTime := SplitOnSpaces(firstLine.value);
      if |dateAndTime| == 0 then None
      else
        var dateParts := Split(dateAndTime[0], "-");
        if |dateParts| == 3 then Some(dateParts[0] + "/" + dateParts[1] + "/" + dateParts[2]) else None
  }

  predicate NoSpace(s: string) {
    forall i :: 0 <= i < |s| ==> !IsRegexSpace(s[i])
  }

  /** A first line `<y>-<m>-<d>` followed by white space and the time gives the date
      `<y>/<m>/<d>` (the day must not be empty, or split would drop it). */
  lemma ParsedDateOf(y: string, m: string, d: string, time: string)
    requires Free(y, '-') && Free(m, '-') && Free(d, '-') && d != ""
    requires NoSpace(y) && NoSpace(m) && NoSpace(d)
    requires time == "" || IsRegexSpace(time[0])
    ensures ParsedDate(Some(y + "-" + m + "-" + d + time)) == Some(y + "/" + m + "/" + d)
  {
    var date := y + "-" + m + "-" + d;
    var line := date + time;
    assert NoSpace(date);
    FirstTokenOf(date, time);
    SplitOnSpacesFirst(line);
    SplitOnSpacesEmptyIff(line);
    assert !IsRegexSpace(line[0]);
    assert [y, m, d][1..] == [m, d] && [m, d][1..] == [d];
    assert Join([m, d], '-') == m + "-" + d;
    assert Join([y, m, d], '-') == y + "-" + (m + "-" + d) == date;
    SplitJoin([y, m, d], '-');
  }

  /** A first line whose first word does not split into three parts at `-` leaves the date
      unset. */
  lemma ParsedDateRejects(w: string, time: string)
    requires Free(w, '-') && NoSpace(w) && w != ""
    requires time == "" || IsRegexSpace(time[0])
    ensures ParsedDate(Some(w + time)) == None
  {
    FirstTokenOf(w, time);
    SplitOnSpacesFirst(w + time);
    SplitOnSpacesEmptyIff(w + time);
    assert !IsRegexSpace((w + time)[0]);
    SplitJoin([w], '-');
  }

  // ---------------------------------------------------------------------------------------------
  // The class

  class DiffAnalyzer {
    const commitNumber: string
    var commitDate: Option<string>
    var changedModelFilesCounter: nat
    var changedModelLinesCounter: nat
    var changedModelVarLinesCounter: nat
    var changedSourceFilesCounter: nat
    var changedSourceLinesCounter: nat
    var changedSourceVarLinesCounter: nat
    var changedBuildFilesCounter: nat
    var changedBuildLinesCounter: nat
    var changedBuildVarLinesCounter: nat

    /** The nine counters. */
    function Counts(): CommitCounts
      reads this
    {
      CommitCounts(
        changedModelFilesCounter, changedModelLinesCounter, changedModelVarLinesCounter,
        changedSourceFilesCounter, changedSourceLinesCounter, changedSourceVarLinesCounter,
        changedBuildFilesCounter, changedBuildLinesCounter, changedBuildVarLinesCounter)
    }

    /** The analyzer of the commit file with the given name. */
    constructor(commitFileName: string)
      ensures commitNumber == CommitNumber(commitFileName)
      ensures commitDate == None && Counts() == NoCommitCounts
    {
      var parts := Split(commitFileName, ".");
      if |parts| != 2 || (|parts| == 2 && parts[1] != "txt") {
        commitNumber := "";
      } else {
        commitNumber := Split(commitFileName, ".")[0];
      }
      commitDate := None;
      changedModelFilesCounter, changedModelLinesCounter, changedModelVarLinesCounter := 0, 0, 0;
      changedSourceFilesCounter, changedSourceLinesCounter, changedSourceVarLinesCounter := 0, 0, 0;
      changedBuildFilesCounter, changedBuildLinesCounter, changedBuildVarLinesCounter := 0, 0, 0;
    }

    /** The file diff of one block, raising the file counter of its kind. */
    method CreateFileDiff(diff: string) returns (fd: FileDiff?)
      requires BlockAnalyzable(diff)
      modifies this`changedModelFilesCounter, this`changedSourceFilesCounter, this`changedBuildFilesCounter
      ensures fd == null <==> FileOutcome(diff).None?
      ensures fd == null ==> Counts() == old(Counts())
      ensures fd != null ==> (fresh(fd) && fd.fileType == FileOutcome(diff).value.kind
        && fd.Counts() == FileOutcome(diff).value.counts && Counts() == AddFile(old(Counts()), fd.fileType))
    {
      fd := null;
      var diffLines := Split(diff, "\n");
      if |diffLines| > 0 {
        var header := diffLines[0];
        var changesStartLine := GetFirstChangeLine(diffLines);
        if changesStartLine > -1 && changesStartLine < |diffLines| {
          var blacklisted := IsBlacklisted(header);
          if Excluded(header) || blacklisted {
            fd := new FileDiff(OtherFile, diffLines, changesStartLine);
          } else if IsSourcePath(header) {
            changedSourceFilesCounter := changedSourceFilesCounter + 1;
            fd := new FileDiff(SourceFile, diffLines, changesStartLine);
          } else if IsBuildPath(header) {
            changedBuildFilesCounter := changedBuildFilesCounter + 1;
            fd := new FileDiff(BuildFile, diffLines, changesStartLine);
          } else if IsModelPath(header) {
            changedModelFilesCounter := changedModelFilesCounter + 1;
            fd := new FileDiff(ModelFile, diffLines, changesStartLine);
          } else {
            fd := new FileDiff(OtherFile, diffLines, changesStartLine);
          }
        }
      }
    }

    /** parseCommitDate */
    method ParseCommitDate(firstLine: Option<string>)
      modifies this`commitDate
      ensures commitDate == if ParsedDate(firstLine).Some? then ParsedDate(firstLine) else old(commitDate)
    {
      if firstLine.Some? && firstLine.value != "" {
        var dateAndTimeParts := SplitOnSpaces(firstLine.value);
        if |dateAndTimeParts| > 0 {
          var dateParts := Split(dateAndTimeParts[0], "-");
          if |dateParts| == 3 {
            commitDate := Some(dateParts[0] + "/" + dateParts[1] + "/" + dateParts[2]);
          }
        }
      }
    }

    /** createDiffList over the lines of the commit file: the date line sets the commit date,
        the other lines are cut into blocks. */
    method CreateDiffList(fileLines: seq<string>) returns (diffList: seq<string>)
      modifies this`commitDate
      ensures diffList == DiffList(fileLines)
      ensures commitDate ==
        var d := ParsedDate(if |fileLines| > 0 then Some(fileLines[0]) else None);
        if d.Some? then d else old(commitDate)
    {
      diffList := [];
      var builder := "";
      ParseCommitDate(if |fileLines| > 0 then Some(fileLines[0]) else None);
      var body := Body(fileLines);
      var i := 0;
      while i < |body|
        invariant 0 <= i <= |body|
        invariant SplitBlocks(diffList, builder, body[i..]) == DiffList(fileLines)
      {
        var fileLine := body[i];
        assert body[i..][1..] == body[i + 1..];
        if StartsWith(fileLine, DiffStartPattern) {
          if |builder| > 0 {
            diffList := diffList + [builder];
          }
          builder := fileLine;
        } else {
          builder := builder + "\n" + fileLine;
        }
        i := i + 1;
      }
      diffList := diffList + [builder];
    }

    /** The switch of analyze: the changed lines and changed variability lines of a file diff
        are added to the counters of its kind. */
    method AddChangedLines(fileDiff: FileDiff)
      modifies this`changedModelLinesCounter, this`changedModelVarLinesCounter,
        this`changedSourceLinesCounter, this`changedSourceVarLinesCounter,
        this`changedBuildLinesCounter, this`changedBuildVarLinesCounter
      ensures Counts() == AddLines(old(Counts()), fileDiff.fileType, fileDiff.Counts())
    {
      var lines := fileDiff.addedLinesNum + fileDiff.deletedLinesNum;
      var varLines := fileDiff.addedVarLinesNum + fileDiff.deletedVarLinesNum;
      match fileDiff.fileType {
        case ModelFile =>
          changedModelLinesCounter := changedModelLinesCounter + lines;
          changedModelVarLinesCounter := changedModelVarLinesCounter + varLines;
        case SourceFile =>
          changedSourceLinesCounter := changedSourceLinesCounter + lines;
          changedSourceVarLinesCounter := changedSourceVarLinesCounter + varLines;
        case BuildFile =>
          changedBuildLinesCounter := changedBuildLinesCounter + lines;
          changedBuildVarLinesCounter := changedBuildVarLinesCounter + varLines;
        case OtherFile =>
      }
    }

    /** One round of analyze's loop: the block's file diff, if any, and its changed lines. */
    method CountBlock(diff: string) returns (produced: bool)
      requires BlockAnalyzable(diff)
      modifies this`changedModelFilesCounter, this`changedSourceFilesCounter, this`changedBuildFilesCounter,
        this`changedModelLinesCounter, this`changedModelVarLinesCounter,
        this`changedSourceLinesCounter, this`changedSourceVarLinesCounter,
        this`changedBuildLinesCounter, this`changedBuildVarLinesCounter
      ensures Counts() == AnalyzeBlock(old(Counts()), diff)
      ensures produced == FileOutcome(diff).Some?
    {
      produced := false;
      var fileDiff := CreateFileDiff(diff);
      if fileDiff != null {
        ghost var f := FileOutcome(diff).value;
        ghost var mid := Counts();
        AddChangedLines(fileDiff);
        assert Counts() == AddLines(mid, f.kind, f.counts);
        produced := true;
      }
    }

    /** analyze: every block's file diff adds its changed lines to the counters of its kind. The
        result tells whether any block produced a file diff. */
    method Analyze(fileLines: seq<string>) returns (analyzedSuccessful: bool)
      modifies this
      ensures AllAnalyzable(DiffList(fileLines))
      ensures Counts() == AnalyzeBlocks(old(Counts()), DiffList(fileLines))
      ensures analyzedSuccessful == AnyProduces(DiffList(fileLines))
      ensures commitDate ==
        var d := ParsedDate(if |fileLines| > 0 then Some(fileLines[0]) else None);
        if d.Some? then d else old(commitDate)
    {
      analyzedSuccessful := false;
      var diffList := CreateDiffList(fileLines);
      DiffListAnalyzable(fileLines);
      ghost var start := Counts();
      ghost var date := commitDate;
      var i := 0;
      while i < |diffList|
        invariant 0 <= i <= |diffList| && commitDate == date
        invariant AllAnalyzable(diffList) && AllAnalyzable(diffList[..i])
        invariant Counts() == AnalyzeBlocks(start, diffList[..i])
        invariant analyzedSuccessful == AnyProduces(diffList[..i])
      {
        AnalyzeRound(start, diffList, i);
        var produced := CountBlock(diffList[i]);
        if produced {
          analyzedSuccessful := true;
        }
        i := i + 1;
      }
      assert diffList[..i] == diffList;
    }
  }
}
