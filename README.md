# ComAn commit analysis, modelled in Dafny

ComAn (Commit Analysis) reads a commit of a Linux-style, Kconfig-based product line and counts
its changed lines, split into *artifact* lines and *variability* lines. A variability line is one
that touches configuration information. Each changed file is classified by its path as one of
four kinds:

- a source file (C code with `#if`/`#ifdef` blocks and runtime `if (... CONFIG_...) {` blocks);
- a build file (Makefile/Kbuild, with `$(CONFIG_...)` references and `ifeq`/`ifdef` blocks);
- a model file (Kconfig, with its keywords, help texts and `depends on` lines);
- any other file, whose lines are never counted.

This project models the core of that analysis:

- `java_text.dfy`: the Java string operations the core relies on. These are `trim`, `startsWith`,
  `indexOf`/`contains`, `String.split` (which drops trailing empty parts), `split("\\s+")` and
  `Character.isWhitespace`. Regex `.` does not match line terminators, and that is modelled too.
  Each Java regular-expression constant becomes a hand-written character-level predicate.
- `diff_lines.dfy`: removing the `+`/`-` marker, which every file kind does.
- `source_file_diff.dfy`, `build_file_diff.dfy`, `model_file_diff.dfy`, `other_file_diff.dfy`:
  the per-kind `normalize` and `isVariabilityChange`. Each backward scan of the Java code (comment
  detection, the nesting counters of the two condition backtracks, bracket counting, indentation,
  help detection and the `depends on` search) has two parts:
  - a recursive specification function that mirrors the scan;
  - a `while`-loop method that is proved equal to it.

  Lemmas then describe each specification declaratively: the nearest marker, the owning opener,
  continuation chains and skipped nested blocks.
- `file_diff.dfy`: the `FileDiff` class. Its construction runs `analyzeDiff` over the diff lines
  from the first `@@` line on, and updates the four disjoint counters in place.
- `diff_analyzer.dfy`: the `DiffAnalyzer` class. It models:
  - the commit number taken from the file name;
  - the commit date taken from the first line;
  - splitting the commit's lines into per-file blocks;
  - finding the first `@@` line;
  - the extension blacklist and the file-kind dispatch;
  - the per-kind file, line and variability-line counters that `analyze` adds up.
- `result_collector.dfy`: the `ResultCollector` class. It models the run-wide counters and
  commit categories that `addResults` updates, and the result text it appends.
- `order_check.dfy`: the date-order check of result files. This covers `checkCommitOrder` and the
  main loop that carries `previousCommitDate` from line to line and from file to file.

## Model

The model itself is a set of specification functions, and the rows below state what is proved
about them. The functions are:

- `FileDiff.Classify` (src/diff/FileDiff.java:110-156), the class of one diff line;
- `SourceFileDiff.Normalize` (src/diff/SourceFileDiff.java:147-208),
  `BuildFileDiff.Normalize` (src/diff/BuildFileDiff.java:102-127) and
  `ModelFileDiff.Normalize` (src/diff/ModelFileDiff.java:81-102);
- `SourceFileDiff.IsVarChange` (src/diff/SourceFileDiff.java:215-231),
  `BuildFileDiff.IsVarChange` (src/diff/BuildFileDiff.java:133-148) and
  `ModelFileDiff.IsVarChange` (src/diff/ModelFileDiff.java:108-151);
- `DiffAnalyzer.CommitNumber` (src/diff/DiffAnalyzer.java:198-206),
  `DiffAnalyzer.ParsedDate` (src/diff/DiffAnalyzer.java:467-479) and
  `DiffAnalyzer.SplitBlocks` (src/diff/DiffAnalyzer.java:414-432);
- `ComAnResultsOrderCheck.CheckCommitOrder` (test/check/ComAnResultsOrderCheck.java:64-96).


| member | source | states |
|---|---|---|
| `DiffLines.StripMarkerAtMostOne` | src/diff/SourceFileDiff.java:156-158 | marker removal drops exactly the first character when it is `+` or `-`, and otherwise leaves the line unchanged; nothing more is removed |
| `FileDiff.ClassifyMarkers` | src/diff/FileDiff.java:110-156 | an added or added-variability line starts with `+`; a deleted one starts with `-` and not `+`; a line with neither marker is ignored; a variability class holds exactly when the kind's `isVariabilityChange` holds of the normalized text; a plain class needs non-blank normalized text; conversely, a `+` (`-`) line whose text after the marker and whose normalized text are both non-blank is classed as added (deleted), plain or variability |
| `FileDiff.BlankLinesIgnored` | src/diff/FileDiff.java:112-140 | a line that is only a marker plus whitespace, or whose normalized text is blank, is counted nowhere |
| `FileDiff.NothingBeforeStart` | src/diff/FileDiff.java:110 | the tally from the start line depends only on the lines from the start line on, whatever the lines before it are; a range that ends at or before the start line counts nothing |
| `FileDiff.TallyFromStart` | src/diff/FileDiff.java:110-157 | the tally from the start line is the start line's own count added to the tally of the rest |
| `FileDiff.TallyStep` | src/diff/FileDiff.java:119-145 | each further line raises the total by 0 or 1, and no counter ever decreases |
| `FileDiff.CountGrows` | src/diff/FileDiff.java:119-145 | counting one line raises exactly one counter by one, or none when the line is ignored |
| `FileDiff.TallyBounded` | src/diff/FileDiff.java:112-145 | when changes agree with the markers, added plus added-variability is at most the number of `+` lines in the range, and likewise for deletions |
| `FileDiff.CountsBounded` | src/diff/FileDiff.java:112-145 | for the real classification, added plus added-variability is at most the number of `+` lines after the start line, and likewise for `-` lines |
| `FileDiff.CountLine` | src/diff/FileDiff.java:110-156 | a line is classed added or added-variability exactly when it is a countable `+` line (marker, non-blank text after it, non-blank normalized text), and added-variability exactly when it is countable and its kind takes it for a variability change; likewise for `-` lines |
| `FileDiff.CountsExact` | src/diff/FileDiff.java:110-157 | from the start line on, added plus added-variability equals the number of countable `+` lines and added-variability the number of those that are variability changes; likewise deleted and deleted-variability for `-` lines |
| `FileDiff.OtherCountsNothing` | src/diff/OtherFileDiff.java:41-52 | a file of the other kind counts zero in all four counters, whatever its lines |
| `FileDiff.ClassifyLine` | src/diff/FileDiff.java:111-156 | the class of one line as the counting loop decides it |
| `FileDiff.NormalizeText` | src/diff/FileDiff.java:169 | `normalize` dispatches to the file kind's own normalization |
| `FileDiff.IsVariabilityChange` | src/diff/FileDiff.java:184 | `isVariabilityChange` dispatches to the file kind's own classifier |
| `FileDiff.FileDiff.constructor` | src/diff/FileDiff.java:90-101 | the object keeps kind, lines and start line, and its counters are the tally of the classified lines from the start line to the end |
| `FileDiff.FileDiff.AnalyzeDiff` | src/diff/FileDiff.java:107-158 | starting from zero counters, the loop leaves them equal to the tally of the classified lines from the start line on |
| `SourceFileDiff.BareBraceIff` | src/diff/SourceFileDiff.java:369-374 | `split("\\{")` leaves no part exactly when the line is non-empty and made of `{` only |
| `SourceFileDiff.SourceVarIff` | src/diff/SourceFileDiff.java:77 | a line matches the variability pattern exactly when some delimiter (whitespace or one of `([{<)]}>`) is directly followed by `CONFIG_` or `!CONFIG_` |
| `SourceFileDiff.NoDelimiterNoReference` | src/diff/SourceFileDiff.java:77 | a line with no delimiter character anywhere, such as `CONFIG_` at column 0 without any blank or bracket on the line, is never a variability reference |
| `SourceFileDiff.ConfigAfterDelimiter` | src/diff/SourceFileDiff.java:77 | on a line without line terminators, any delimiter character directly followed by `CONFIG_` or `!CONFIG_` makes the line a variability reference, whatever text surrounds it |
| `SourceFileDiff.SourceVarContainsConfig` | src/diff/SourceFileDiff.java:77 | a variability line contains `CONFIG_` |
| `SourceFileDiff.HasEndifIsIfEnd` | src/diff/SourceFileDiff.java:125 | a line with `#endif` matches the `#else`/`#endif` pattern |
| `SourceFileDiff.StripCommentsCases` | src/diff/SourceFileDiff.java:160-202 | with `//` the result is the text before the first `//` and contains no `//`; otherwise both `/*` and `*/` give the text before `/*`, a space and the segment after `*/`; `/*` alone gives the text before it; `*/` alone gives the segment after it; with no marker the text is kept |
| `SourceFileDiff.NormalizeInComment` | src/diff/SourceFileDiff.java:203-206 | inside a multi-line comment the normalized line is blank; outside it is the marker-stripped line with its comments cut |
| `SourceFileDiff.NormalizeLine` | src/diff/SourceFileDiff.java:147-208 | the method computes the source normalization of the line at the position |
| `SourceFileDiff.InCommentNearestMarker` | src/diff/SourceFileDiff.java:242-266 | a position is inside a comment exactly when the nearest earlier line with `/*` or `*/` has `/*` and not `*/`; with no such line it is not |
| `SourceFileDiff.IsPartOfComment` | src/diff/SourceFileDiff.java:242-266 | the backward loop decides the comment membership above |
| `SourceFileDiff.InvertChangeType` | src/diff/SourceFileDiff.java:420-425 | the result is a marker, and it is `-` exactly when the input is `+` |
| `SourceFileDiff.InvertInvolution` | src/diff/SourceFileDiff.java:420-425 | on `+` and `-`, inverting twice gives the marker back, and inverting once changes it |
| `SourceFileDiff.BracketBalanceCounts` | src/diff/SourceFileDiff.java:437-450 | the bracket counter ends at the number of `(` minus the number of `)` in the line |
| `SourceFileDiff.HasUnclosedBrackets` | src/diff/SourceFileDiff.java:437-450 | the loop returns true exactly when `(` and `)` occur a different number of times |
| `SourceFileDiff.PPOwner` | src/diff/SourceFileDiff.java:298-332 | an owner found by the preprocessor backtrack lies at or before the scan start, contains `#if` and does not match `#else`/`#endif` |
| `SourceFileDiff.PPContinuationChain` | src/diff/SourceFileDiff.java:306-320 | the continuation of a `#if` ending in a backslash is variability related exactly when a delimited `CONFIG_` reference is reached through lines that all end in a backslash, before the block end or on the first line |
| `SourceFileDiff.PPSkipQuiet` | src/diff/SourceFileDiff.java:298-331 | lines with no `#if` and no counted `#endif` change neither the scan nor its counter |
| `SourceFileDiff.PPNearestOpener` | src/diff/SourceFileDiff.java:290-333 | when only quiet lines separate an opener from the block end, that opener is the owner and decides the result |
| `SourceFileDiff.PPNoOpener` | src/diff/SourceFileDiff.java:298-333 | without any `#if` before the block end, no owner is found |
| `SourceFileDiff.PPNestedBlockSkipped` | src/diff/SourceFileDiff.java:322-329 | a counted `#endif` and its matching `#if` are skipped together; the search continues above the nested block with the same counter |
| `SourceFileDiff.ScanContinuation` | src/diff/SourceFileDiff.java:312-320 | the do-while loop decides the continuation chain |
| `SourceFileDiff.ContinuationLine` | src/diff/SourceFileDiff.java:314-320 | one round of that loop: either it settles the chain, or the chain equals this line's test or the rest of the chain |
| `SourceFileDiff.TestPPOpener` | src/diff/SourceFileDiff.java:303-321 | the owner is variability related when it matches the `#ifdef`/`#if` pattern with a `CONFIG_` reference, or when its backslash continuation has one |
| `SourceFileDiff.BacktrackPreprocessorCondition` | src/diff/SourceFileDiff.java:276-333 | the loop returns whether the owning `#if` of the terminator is variability related; false when there is no owner |
| `SourceFileDiff.RTOwner` | src/diff/SourceFileDiff.java:364-410 | an owner found by the runtime backtrack lies at or before the scan start, contains `{` and is not a `} else {` line |
| `SourceFileDiff.RTOpenerMeaning` | src/diff/SourceFileDiff.java:366-398 | an opener made of `{` only is decided by the bracket scan from the line above; any other opener is decided by its text before the first `{` |
| `SourceFileDiff.ParenScanChain` | src/diff/SourceFileDiff.java:389-397 | the bracket scan finds a reference exactly when some line at or above the start has one and every line between it and the start has unbalanced brackets |
| `SourceFileDiff.RTSkipQuiet` | src/diff/SourceFileDiff.java:364-410 | lines with no `{` and no counted `}` change neither the scan nor its counter |
| `SourceFileDiff.RTNearestOpener` | src/diff/SourceFileDiff.java:356-411 | when only quiet lines separate an opener from the `}` line, that opener is the owner and decides the result |
| `SourceFileDiff.RTBothBracesKeepCounter` | src/diff/SourceFileDiff.java:399-407 | a counted line with both `}` and `{`, seen while the counter is positive or on a `} else {` line, leaves the counter unchanged |
| `SourceFileDiff.RTNoOpener` | src/diff/SourceFileDiff.java:364-411 | without any `{` before the `}` line, no owner is found |
| `SourceFileDiff.RTNestedBlockSkipped` | src/diff/SourceFileDiff.java:399-407 | a counted `}` and its matching `{` are skipped together |
| `SourceFileDiff.ParenScanLine` | src/diff/SourceFileDiff.java:391-397 | one round of the bracket scan: either it settles the scan, or the scan equals this line's test or the scan from the line above |
| `SourceFileDiff.ScanParentheses` | src/diff/SourceFileDiff.java:389-397 | the do-while loop decides the bracket scan |
| `SourceFileDiff.TestOpener` | src/diff/SourceFileDiff.java:366-398 | the loop body's test of an owning `{` line decides whether it is variability related |
| `SourceFileDiff.BacktrackRuntimeCondition` | src/diff/SourceFileDiff.java:344-411 | the loop returns whether the owning `{` of the `}` line is variability related; false when there is no owner |
| `SourceFileDiff.IsVarChangeCases` | src/diff/SourceFileDiff.java:215-231 | a line in a comment is never a variability change; outside one, a delimited `CONFIG_` reference always is one; a line with no reference, no `#else`/`#endif` and no `}` never is |
| `SourceFileDiff.IsVariabilityChange` | src/diff/SourceFileDiff.java:215-231 | the method computes the source classifier: not in a comment, and a reference, a variability `#if` block end or a variability `{` block end |
| `BuildFileDiff.ConditionEndIsBlockEnd` | src/diff/BuildFileDiff.java:73-80 | a line matching the `endif` pattern also matches the `else`/`endif` block-end pattern |
| `BuildFileDiff.CommentFreeIsBefore` | src/diff/BuildFileDiff.java:115-120 | part 0 of `split("#")` (or `""`) is the text before the first `#`, and it has no `#` |
| `BuildFileDiff.InCommentChain` | src/diff/BuildFileDiff.java:159-203 | a position lies in a continued comment exactly when an unbroken chain of non-empty earlier lines, each ending in a backslash once trimmed, reaches a line with `#` |
| `BuildFileDiff.IsPartOfComment` | src/diff/BuildFileDiff.java:159-203 | the backward loop decides the continued-comment membership |
| `BuildFileDiff.NormalizeCases` | src/diff/BuildFileDiff.java:102-127 | outside a continued comment the result is the marker-stripped text before the first `#`; inside one it is blank; it never contains `#` |
| `BuildFileDiff.NormalizeLine` | src/diff/BuildFileDiff.java:102-127 | the method computes the build normalization of the line at the position |
| `BuildFileDiff.ContinuationViewAt` | src/diff/BuildFileDiff.java:238 | the continuation scan normalizes each line with the opener's position, not the line's own |
| `BuildFileDiff.Owner` | src/diff/BuildFileDiff.java:219-257 | an owner found by the backtrack lies at or before the scan start and is a normalized start line without `else`/`endif` |
| `BuildFileDiff.ContinuationChain` | src/diff/BuildFileDiff.java:235-245 | the continuation is variability related exactly when a `$(CONFIG_` line is reached through lines that end in a backslash and are not start lines, before the block end or on the first line |
| `BuildFileDiff.SkipQuiet` | src/diff/BuildFileDiff.java:219-257 | lines with neither a start keyword nor `endif` change neither the scan nor its counter |
| `BuildFileDiff.NearestOwner` | src/diff/BuildFileDiff.java:213-259 | when only quiet lines separate an owner line from the block end, that line is the owner and decides the result |
| `BuildFileDiff.NoStartNoOwner` | src/diff/BuildFileDiff.java:219-258 | without any start line before the block end, no owner is found |
| `BuildFileDiff.NestedBlockSkipped` | src/diff/BuildFileDiff.java:248-254 | an `endif` and its matching start line are skipped together |
| `BuildFileDiff.NegativeCounterNoOwner` | src/diff/BuildFileDiff.java:248-254 | once the counter is below zero and no `endif` line remains above, no owner is found |
| `BuildFileDiff.ElseStartLowersCounter` | src/diff/BuildFileDiff.java:221-254 | a start line that also has `else` is never the owner and lowers the counter by one, even at zero |
| `BuildFileDiff.ContinuationLine` | src/diff/BuildFileDiff.java:237-245 | one round of the continuation do-while: either it settles the chain, or the chain equals this line's test or the rest |
| `BuildFileDiff.ScanContinuation` | src/diff/BuildFileDiff.java:233-246 | the do-while loop decides the continuation chain after the owner |
| `BuildFileDiff.TestOpener` | src/diff/BuildFileDiff.java:231-246 | the owner is variability related when its normalized text has `$(CONFIG_` or its backslash continuation does |
| `BuildFileDiff.OwnerStep` | src/diff/BuildFileDiff.java:220-256 | one round of the backtrack: either this line is the owner, or the search continues above with the counter this line leaves |
| `BuildFileDiff.BacktrackCondition` | src/diff/BuildFileDiff.java:213-259 | the loop returns whether the owning start line of the block end is variability related; false when there is none |
| `BuildFileDiff.IsVarChangeCases` | src/diff/BuildFileDiff.java:133-148 | a line in a continued comment is never a variability change; outside one, `$(CONFIG_` always is one; a line with neither `$(CONFIG_` nor `else`/`endif` never is; a block end counts only when it has an owner |
| `BuildFileDiff.IsVariabilityChange` | src/diff/BuildFileDiff.java:133-148 | the method computes the build classifier |
| `ModelFileDiff.NormalizeIsBefore` | src/diff/ModelFileDiff.java:81-102 | the normalized line is the marker-stripped text before the first `#` |
| `ModelFileDiff.Indentation` | src/diff/ModelFileDiff.java:194-200 | the indentation is at most the length, every character before it is whitespace, and the character at it is not |
| `ModelFileDiff.IndentationUnique` | src/diff/ModelFileDiff.java:194-200 | any count with those three properties is the indentation |
| `ModelFileDiff.GetIndentation` | src/diff/ModelFileDiff.java:194-200 | the counting loop returns the indentation |
| `ModelFileDiff.HelpScanNearest` | src/diff/ModelFileDiff.java:165-182 | the help scan succeeds exactly when the nearest earlier parent line (non-empty, less indented) starts with `help`, `--help--` or `comment` once trimmed |
| `ModelFileDiff.IsPartOfHelpMeaning` | src/diff/ModelFileDiff.java:160-185 | an unindented line is never help text; an indented one is help text exactly when its nearest earlier parent line opens a help or comment text |
| `ModelFileDiff.IsPartOfHelpScan` | src/diff/ModelFileDiff.java:160-185 | the do-while loop decides help membership |
| `ModelFileDiff.WordDefinitionIff` | src/diff/ModelFileDiff.java:41 | a single word after any indentation is a definition line exactly when it is one of the twenty keywords, so `configure` is not one |
| `ModelFileDiff.KeywordLines` | src/diff/ModelFileDiff.java:41 | after any indentation, each of the keywords alone, or followed by white space and any text without line terminators, is a definition line |
| `ModelFileDiff.IsVarChangeCases` | src/diff/ModelFileDiff.java:108-151 | help text is never a variability change; outside help, a keyword or `source` line always is one; a line that is neither nor `depends on` never is |
| `ModelFileDiff.DependsStep` | src/diff/ModelFileDiff.java:129-147 | the `depends on` search ends at the first earlier line that gives a verdict (a `comment "` line gives false, a variability line gives true), and otherwise continues above |
| `ModelFileDiff.DependsScanNearest` | src/diff/ModelFileDiff.java:126-147 | a `depends on` line is variability exactly when the nearest earlier line with a verdict is a variability line; false when none has one |
| `ModelFileDiff.DependsLine` | src/diff/ModelFileDiff.java:130-145 | the loop body computes the verdict of one earlier line, recursing into the classifier at a smaller position |
| `ModelFileDiff.ScanDepends` | src/diff/ModelFileDiff.java:126-147 | the backward loop decides the `depends on` search |
| `ModelFileDiff.IsVariabilityChange` | src/diff/ModelFileDiff.java:108-151 | the method computes the model classifier; the recursion terminates because it only goes to smaller positions |
| `DiffAnalyzer.FirstChangeLineSpec` | src/diff/DiffAnalyzer.java:384-394 | the result is -1 exactly when no line starts with `@@`, and otherwise it is the smallest index of such a line |
| `DiffAnalyzer.GetFirstChangeLine` | src/diff/DiffAnalyzer.java:384-394 | the loop returns the first `@@` line index, or -1 |
| `DiffAnalyzer.BlacklistedIff` | src/diff/DiffAnalyzer.java:356-372 | a header is blacklisted exactly when its trimmed text ends with `.lb` |
| `DiffAnalyzer.IsBlacklisted` | src/diff/DiffAnalyzer.java:356-372 | the loop over the blacklist decides blacklisting |
| `DiffAnalyzer.Dispatch` | src/diff/DiffAnalyzer.java:313-337 | excluded or blacklisted paths are other files; otherwise source comes first, then build, then model, and anything else is other |
| `DiffAnalyzer.CFileIsSource` | src/diff/DiffAnalyzer.java:100 | a path ending in `.c` with a `/` earlier matches the source pattern |
| `DiffAnalyzer.MakefileIsBuild` | src/diff/DiffAnalyzer.java:107 | a path ending in `/Makefile` matches the build pattern |
| `DiffAnalyzer.KconfigIsModel` | src/diff/DiffAnalyzer.java:93 | a path ending in `/Kconfig` matches the model pattern |
| `DiffAnalyzer.DocumentationIsOther` | src/diff/DiffAnalyzer.java:83 | a path through a `/Documentation/` directory is dispatched as an other file |
| `DiffAnalyzer.LbFileIsOther` | src/diff/DiffAnalyzer.java:41 | a blacklisted `.lb` file is dispatched as an other file, whatever else its path matches |
| `DiffAnalyzer.BlockHeader` | src/diff/DiffAnalyzer.java:414-426 | the first line of a built block is empty or starts with `diff --git` |
| `DiffAnalyzer.BlockAnalyzableFor` | src/diff/DiffAnalyzer.java:283-312 | every built block meets the kind classifier's preconditions, whatever kind it is given |
| `DiffAnalyzer.ShapedBlockAnalyzable` | src/diff/DiffAnalyzer.java:283-312 | every built block can be handed to `createFileDiff` without a crash case |
| `DiffAnalyzer.FileOutcome` | src/diff/DiffAnalyzer.java:281-345 | a block produces a file diff exactly when it has an `@@` line |
| `DiffAnalyzer.NoHunkNoFileDiff` | src/diff/DiffAnalyzer.java:311-312 | no file diff is produced exactly when no line of the block starts with `@@` |
| `DiffAnalyzer.AddFile` | src/diff/DiffAnalyzer.java:313-337 | dispatching a block raises the file counter of its kind by exactly one, only for source, build and model kinds, and changes nothing else |
| `DiffAnalyzer.AddLines` | src/diff/DiffAnalyzer.java:223-266 | the kind's line total grows by added plus deleted, and its variability total by added-variability plus deleted-variability; other files add nothing; file counters stay unchanged |
| `DiffAnalyzer.AnalyzeBlockStep` | src/diff/DiffAnalyzer.java:220-242 | one block changes each kind's counters only when it is a file diff of that kind, by one file and by its changed line counts |
| `DiffAnalyzer.QuietBlockAddsNothing` | src/diff/DiffAnalyzer.java:236-238 | a block without `@@` or of the other kind leaves all counters unchanged |
| `DiffAnalyzer.AnyProducesIff` | src/diff/DiffAnalyzer.java:240 | the analysis is successful exactly when some block produces a file diff |
| `DiffAnalyzer.AnalyzeBlocksSums` | src/diff/DiffAnalyzer.java:215-245 | after all blocks, each kind's file, line and variability-line counters are their start values plus the sums over that kind's blocks |
| `DiffAnalyzer.KindCountBound` | src/diff/DiffAnalyzer.java:313-337 | together, the source, build and model file counts never exceed the number of blocks |
| `DiffAnalyzer.SplitBlocksShape` | src/diff/DiffAnalyzer.java:414-432 | the split gives at least one block; the first is well shaped, and every later one starts with `diff --git` |
| `DiffAnalyzer.SplitBlocksCount` | src/diff/DiffAnalyzer.java:414-432 | the split gives one block per `diff --git` line, plus the always-pushed last one, minus the empty first one when the input starts with a header |
| `DiffAnalyzer.DiffListShape` | src/diff/DiffAnalyzer.java:402-432 | after the date line, the blocks have that shape and that count |
| `DiffAnalyzer.SplitBlocksJoin` | src/diff/DiffAnalyzer.java:414-432 | once the builder holds text, the blocks joined with line breaks are the list, the builder and the remaining lines joined with line breaks: no line is lost, added or reordered |
| `DiffAnalyzer.DiffListJoin` | src/diff/DiffAnalyzer.java:402-432 | the blocks joined with line breaks give back the commit text after the date line, with one extra line break in front when that text does not begin with a `diff --git` line |
| `DiffAnalyzer.DiffListAnalyzable` | src/diff/DiffAnalyzer.java:414-432 | every block the split builds can be analyzed |
| `DiffAnalyzer.CommitNumberOf` | src/diff/DiffAnalyzer.java:198-206 | a name `<sha>.txt` whose sha has no dot gives the sha as commit number |
| `DiffAnalyzer.CommitNumberRejects` | src/diff/DiffAnalyzer.java:198-206 | a name with three dot-separated parts, or two parts whose second is not `txt`, gives the empty commit number |
| `DiffAnalyzer.ParsedDateOf` | src/diff/DiffAnalyzer.java:467-479 | a first line `Y-M-D` followed by whitespace or nothing gives the date `Y/M/D` |
| `DiffAnalyzer.ParsedDateRejects` | src/diff/DiffAnalyzer.java:467-479 | a first word without `-` gives no date |
| `DiffAnalyzer.DiffAnalyzer.constructor` | src/diff/DiffAnalyzer.java:195-207 | the commit number is parsed from the file name, there is no date yet, and all counters are zero |
| `DiffAnalyzer.DiffAnalyzer.CreateFileDiff` | src/diff/DiffAnalyzer.java:281-345 | returns null exactly when the block has no `@@` line; otherwise a new file diff of the dispatched kind with that block's counts, and the file counter of its kind is raised |
| `DiffAnalyzer.DiffAnalyzer.ParseCommitDate` | src/diff/DiffAnalyzer.java:467-479 | the date is set when the line parses, and left as it was otherwise |
| `DiffAnalyzer.DiffAnalyzer.CreateDiffList` | src/diff/DiffAnalyzer.java:402-459 | the date comes from the first line, and the blocks are the split of the remaining lines |
| `DiffAnalyzer.DiffAnalyzer.AddChangedLines` | src/diff/DiffAnalyzer.java:223-239 | the kind's line and variability totals grow by the file diff's changed counts |
| `DiffAnalyzer.DiffAnalyzer.CountBlock` | src/diff/DiffAnalyzer.java:220-241 | one loop round updates the counters as the block's analysis says, and reports whether a file diff was produced |
| `DiffAnalyzer.DiffAnalyzer.Analyze` | src/diff/DiffAnalyzer.java:215-245 | the counters become the per-kind sums over all blocks, the date is parsed from the first line, and the result is whether any block produced a file diff |
| `ResultCollector.CategoryOf` | src/main/ResultCollector.java:186-201 | a commit counts as variability-only, artifact-only or mixed exactly by which of the two line sums is positive; it counts as none when both are zero |
| `ResultCollector.AddCommit` | src/main/ResultCollector.java:161-201 | an accepted commit raises the commit count by one and writes the header; each of the six per-kind totals (model, source and build lines, without and with variability information) grows by the commit's own counter; a commit changing only artifact lines adds one commit and its artifact sum to the artifact-only counters, one changing only variability lines adds one commit and its variability sum to the variability-only counters, one changing both adds one commit and both sums to the combined counters, and in each case the other categories' line counters stay as they were |
| `ResultCollector.NoTotalsConsistent` | src/main/ResultCollector.java:127-142 | the initial totals satisfy the bookkeeping invariant (category line totals equal the per-kind totals) |
| `ResultCollector.AddCommitConsistent` | src/main/ResultCollector.java:179-201 | adding a commit preserves that invariant |
| `ResultCollector.AddCommitCategory` | src/main/ResultCollector.java:188-201 | each category counter is raised exactly when the commit is of that category; a commit that changes nothing only raises the commit count |
| `ResultCollector.AddCommitsConsistent` | src/main/ResultCollector.java:161-201 | over any run of commits the invariant holds, and the commit count grows by the number of commits |
| `ResultCollector.ResultLineColumns` | src/main/ResultCollector.java:213-236 | splitting a result line at tabs gives back its eleven fields in the order date, commit, then source, build and model (files, lines, variability lines) |
| `ResultCollector.HeaderColumns` | src/main/ResultCollector.java:206-211 | the header splits at tabs into its eleven titles |
| `ResultCollector.ResultText` | src/main/ResultCollector.java:206-236 | the result text is the header followed by the result line when the header is due, and the result line alone otherwise |
| `ResultCollector.ResultCollector.constructor` | src/main/ResultCollector.java:127-142 | all run-wide counters are zero and no header has been written |
| `ResultCollector.ResultCollector.AddResults` | src/main/ResultCollector.java:161-247 | an empty commit number changes nothing and writes nothing; otherwise the totals become those after adding the commit, and the text is the header (first call only) plus the result line |
| `ResultCollector.ResultCollector.CountCategory` | src/main/ResultCollector.java:188-201 | the category counters and category line totals are updated for the commit's category |
| `ComAnResultsOrderCheck.MonthDayBounds` | test/check/ComAnResultsOrderCheck.java:88-96 | the month and day read from their two-digit fields are below 100 |
| `ComAnResultsOrderCheck.InOrderIff` | test/check/ComAnResultsOrderCheck.java:64-81 | for two set, well-formed dates, the check holds exactly when (year, month, day) of the current date is at most that of the previous one, compared lexicographically |
| `ComAnResultsOrderCheck.UnsetNeverInOrder` | test/check/ComAnResultsOrderCheck.java:64-67 | an empty current date, or a missing or empty previous date, is never in order |
| `ComAnResultsOrderCheck.YearsDecide` | test/check/ComAnResultsOrderCheck.java:68-70 | set dates whose years differ are readable from their years alone, and are in order exactly when the year is earlier |
| `ComAnResultsOrderCheck.MonthsDecide` | test/check/ComAnResultsOrderCheck.java:70-73 | set dates of the same year whose months differ are readable without their days, and are in order exactly when the month is earlier |
| `ComAnResultsOrderCheck.LaterYearShortMonth` | test/check/ComAnResultsOrderCheck.java:68-70 | `2011/6/10` after `2010/06/10` is read, and reported as out of order, although its month field is not two digits |
| `ComAnResultsOrderCheck.WellFormedReadable` | test/check/ComAnResultsOrderCheck.java:83-96 | two dates with digit year, month and day fields can always be compared |
| `ComAnResultsOrderCheck.InOrderPreorder` | test/check/ComAnResultsOrderCheck.java:68-78 | on well-formed dates the check is reflexive, total and transitive |
| `ComAnResultsOrderCheck.InOrderAntisymmetric` | test/check/ComAnResultsOrderCheck.java:68-78 | two dates each in order with the other have the same year, month and day |
| `ComAnResultsOrderCheck.CollectedDateReadable` | test/check/ComAnResultsOrderCheck.java:83-96 | a commit date `YYYY-MM-DD` parsed by the analyzer becomes the result column `YYYY/MM/DD`, and the order check reads back the same year, month and day |
| `ComAnResultsOrderCheck.ResultLineDate` | test/check/ComAnResultsOrderCheck.java:40-42 | the date the check reads from a result line is the line's date column |
| `ComAnResultsOrderCheck.BlankLineDate` | test/check/ComAnResultsOrderCheck.java:40-42 | a line that starts with whitespace yields the empty date |
| `ComAnResultsOrderCheck.ScanReportsDated` | test/check/ComAnResultsOrderCheck.java:38-49 | every reported line has a date, and the reports are in increasing line order |
| `ComAnResultsOrderCheck.ScanLast` | test/check/ComAnResultsOrderCheck.java:48 | after a file, the previous date is the file's last date, or the old one when the file has none |
| `ComAnResultsOrderCheck.FirstDatedLineReported` | test/check/ComAnResultsOrderCheck.java:43-47 | with no previous date, the first dated line is always reported |
| `ComAnResultsOrderCheck.BlankDateReported` | test/check/ComAnResultsOrderCheck.java:40-47 | a line with the empty date is always reported |
| `ComAnResultsOrderCheck.OrderedNotReported` | test/check/ComAnResultsOrderCheck.java:38-50 | a file of well-formed dates, each at most the one before and the first at most the previous date, reports nothing |
| `ComAnResultsOrderCheck.OrderCheck.constructor` | test/check/ComAnResultsOrderCheck.java:25 | there is no previous date at the start |
| `ComAnResultsOrderCheck.OrderCheck.CheckFile` | test/check/ComAnResultsOrderCheck.java:36-53 | an empty file reports nothing and keeps the previous date; otherwise the lines after the header are scanned, and the reports and the new previous date are those of the scan |
| `ComAnResultsOrderCheck.OrderCheck.CheckRound` | test/check/ComAnResultsOrderCheck.java:38-50 | one round of the line loop keeps the scan's progress invariant |
| `ComAnResultsOrderCheck.OrderCheck.CheckLine` | test/check/ComAnResultsOrderCheck.java:39-48 | one data line is reported exactly when its date is not in order with the previous date, and the previous date advances to it |

## Left out

- File and console I/O is not modelled:
  - reading a commit file (`FileReader`, `BufferedReader`, `IOException`); its lines are a parameter;
  - writing the result file; `AddResults` returns the text it would append;
  - `writeSummary` and `addUnanalyzed` of `ResultCollector`;
  - listing and reading the result directory, and printing reports. `CheckFile` takes one file's
    lines and returns the indices of the lines it would report.
- `Main.java` (command-line handling), `ComAnLogger` and every log call are not part of this model.
  The log calls never affect control flow.
- `UnanalyzedCommitsCheck` and the JUnit classes are not part of this model.
- `java.util.regex` is not modelled as an engine. Each pattern constant is a hand-written predicate
  over characters, with `.` excluding line terminators. The optional helper-macro group of the
  `#if` condition pattern adds no matches, so it is dropped.
- Java `int` and `long` overflow are not modelled; all counters are unbounded.
- `ComAnResultsOrderCheck.OrderCheck.CheckLine` and `ComAnResultsOrderCheck.OrderCheck.CheckFile`
  read `Integer.parseInt` for ASCII digit strings only. They require that checkCommitOrder parses
  only digit substrings:
  - both years, always;
  - both months, only when the years are equal;
  - both days, only when the months are equal too.

  This follows Java's lazy parse, so `2011/6/10` after `2010/06/10` is accepted and reported, as
  Java does. Java throws on a short date or a non-digit field among these. Java's `parseInt` also
  accepts a leading sign and non-ASCII decimal digits; those inputs are excluded here.
- Java crash cases are preconditions, as the index-out-of-range they stand for is not modelled:
  - a `}`'s opener line made of `{` only at index 0 (`!BareBrace(lines[0])`);
  - `charAt(0)` of an empty block-end line;
  - `isPartOfHelp` at position 0 on an indented line, also when the `depends on` recursion
    reaches position 0.

  The block split proves that every block it builds meets these preconditions.
- `FileDiff.FileDiff.AnalyzeDiff` requires zero counters: the Java constructor sets them to zero
  just before calling it.
- `DiffAnalyzer.analyze` guards on a non-null commit number. The commit number is a string that
  is never null here, so the guard always holds, as in Java where it is `""` or the sha.
- `DiffAnalyzer.DiffAnalyzer.CountBlock`, `DiffAnalyzer.DiffAnalyzer.AddChangedLines`,
  `ResultCollector.ResultCollector.CountCategory` and `ComAnResultsOrderCheck.OrderCheck.CheckRound`
  are not separate methods in the Java code. They are its loop bodies and branches, split out.
- The `FileDiff` getters are the object's fields, read directly.

Where the documentation and the code disagree, the model follows the code:

- The `FileDiff` field comments describe the plain counters as including the variability
  counters. In the code the four counters are disjoint: each counted line raises exactly one.
- The `parseCommitDate` comments describe a `dd/mm/yyyy` date. The code produces `YYYY/MM/DD`
  from the `YYYY-MM-DD` prefix.
- The build backtrack lowers its nesting counter on a non-owning start line even when the counter
  is zero (the source-file backtrack checks for a positive counter first). The model keeps this,
  so a start line with `else` ahead of the owner makes the counter negative
  (`BuildFileDiff.ElseStartLowersCounter`, `BuildFileDiff.NegativeCounterNoOwner`).
- The build continuation scan normalizes each continuation line with the opener's position
  (`BuildFileDiff.ContinuationViewAt`).
- The order check reports the first dated line of a run when there is no previous date yet.
  It also reports a line starting with whitespace, which `split("\\s+")` turns into an empty date.
- The `ResultCollector` constructor does not reset the mixed-category commit counter. It still
  starts at zero, as Java's default, and the model starts it there.
