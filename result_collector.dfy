/**
 * The collection of the results of all analyzed commits: the counters of one commit are added to
 * the totals over all commits, the commit is put into one of three categories by the kinds of
 * lines it changes, and a tab-separated result line (after a header line, the first time) is
 * produced for the result file.
 */
module ResultCollector {
  import opened JavaText
  import opened DiffAnalyzer

  /** The column titles of the result file; the last one ends the line. */
  const HeaderTitles: seq<string> :=
    ["Date", "Commit", "CCF", "CCLAI", "CCLVI", "CBF", "CBLAI", "CBLVI", "CMF", "CMLAI", "CMLVI\n"]

  /** The header line: the titles with a tab between each two. */
  const Header: string := Join(HeaderTitles, '\t')

  /** The sums of a commit's changed lines without and with variability information. */
  function ArtifactSum(c: CommitCounts): nat {
    c.modelLines + c.sourceLines + c.buildLines
  }

  function VariabilitySum(c: CommitCounts): nat {
    c.modelVarLines + c.sourceVarLines + c.buildVarLines
  }

  /** The category of a commit. */
  datatype Category = NoLinesChanged | VariabilityOnly | ArtifactOnly | ArtifactAndVariability

  function CategoryOf(c: CommitCounts): (k: Category)
    ensures k == NoLinesChanged <==> ArtifactSum(c) == 0 && VariabilitySum(c) == 0
    ensures k == VariabilityOnly <==> ArtifactSum(c) == 0 && VariabilitySum(c) > 0
    ensures k == ArtifactOnly <==> ArtifactSum(c) > 0 && VariabilitySum(c) == 0
    ensures k == ArtifactAndVariability <==> ArtifactSum(c) > 0 && VariabilitySum(c) > 0
  {
    var a := ArtifactSum(c);
    var v := VariabilitySum(c);
    if a == 0 && v > 0 then VariabilityOnly
    else if a > 0 && v == 0 then ArtifactOnly
    else if a > 0 && v > 0 then ArtifactAndVariability
    else NoLinesChanged
  }

  /** The totals over all analyzed commits. */
  datatype Totals = Totals(
    analyzedCommits: nat,
    commitsChangingArtifactInfo: nat,
    commitsChangingVariabilityInfo: nat,
    commitsChangingArtifactAndVariabilityInfo: nat,
    changedArtifactInfoLinesOnly: nat,
    changedVariabilityInfoLinesOnly: nat,
    changedArtifactInfoLines: nat,
    changedVariabilityInfoLines: nat,
    modelLines: nat, modelVarLines: nat,
    sourceLines: nat, sourceVarLines: nat,
    buildLines: nat, buildVarLines: nat,
    headerWritten: bool)

  const NoTotals := Totals(0, 0, 0, 0, 0, 0, 0, 0, 0, 0, 0, 0, 0, 0, false)

  /** The per-kind line sums after a commit with a commit number, and one more analyzed commit. */
  function AddLineSums(t: Totals, c: CommitCounts): Totals {
    t.(analyzedCommits := t.analyzedCommits + 1,
       modelLines := t.modelLines + c.modelLines, modelVarLines := t.modelVarLines + c.modelVarLines,
       sourceLines := t.sourceLines + c.sourceLines, sourceVarLines := t.sourceVarLines + c.sourceVarLines,
       buildLines := t.buildLines + c.buildLines, buildVarLines := t.buildVarLines + c.buildVarLines)
  }

  /** The counters of the commit's category grow by one commit and by its line sums. */
  function AddToCategory(t: Totals, c: CommitCounts): Totals {
    var a := ArtifactSum(c);
    var v := VariabilitySum(c);
    if a == 0 && v > 0 then
      t.(commitsChangingVariabilityInfo := t.commitsChangingVariabilityInfo + 1,
         changedVariabilityInfoLinesOnly := t.changedVariabilityInfoLinesOnly + v)
    else if a > 0 && v == 0 then
      t.(commitsChangingArtifactInfo := t.commitsChangingArtifactInfo + 1,
         changedArtifactInfoLinesOnly := t.changedArtifactInfoLinesOnly + a)
    else if a > 0 && v > 0 then
      t.(commitsChangingArtifactAndVariabilityInfo := t.commitsChangingArtifactAndVariabilityInfo + 1,
         changedArtifactInfoLines := t.changedArtifactInfoLines + a,
         changedVariabilityInfoLines := t.changedVariabilityInfoLines + v)
    else t
  }

  /** The new totals after one commit with a commit number: one more analyzed commit, the
      per-kind line sums grow by the commit's counters, the counters of the commit's category
      grow by one commit and by its line sums, and the header is written. */
  function AddCommit(t: Totals, c: CommitCounts): (r: Totals)
    ensures r.analyzedCommits == t.analyzedCommits + 1 && r.headerWritten
    ensures r.modelLines + r.sourceLines + r.buildLines == t.modelLines + t.sourceLines + t.buildLines + ArtifactSum(c)
    ensures r.modelVarLines + r.sourceVarLines + r.buildVarLines
      == t.modelVarLines + t.sourceVarLines + t.buildVarLines + VariabilitySum(c)
    ensures r.commitsChangingArtifactInfo + r.commitsChangingVariabilityInfo + r.commitsChangingArtifactAndVariabilityInfo
      == t.commitsChangingArtifactInfo + t.commitsChangingVariabilityInfo + t.commitsChangingArtifactAndVariabilityInfo
        + (if CategoryOf(c) == NoLinesChanged then 0 else 1)
    ensures r.changedArtifactInfoLinesOnly + r.changedArtifactInfoLines
      == t.changedArtifactInfoLinesOnly + t.changedArtifactInfoLines + ArtifactSum(c)
    ensures r.changedVariabilityInfoLinesOnly + r.changedVariabilityInfoLines
      == t.changedVariabilityInfoLinesOnly + t.changedVariabilityInfoLines + VariabilitySum(c)
    ensures && r.modelLines == t.modelLines + c.modelLines && r.modelVarLines == t.modelVarLines + c.modelVarLines
            && r.sourceLines == t.sourceLines + c.sourceLines && r.sourceVarLines == t.sourceVarLines + c.sourceVarLines
            && r.buildLines == t.buildLines + c.buildLines && r.buildVarLines == t.buildVarLines + c.buildVarLines
    ensures CategoryOf(c) == ArtifactOnly ==>
      && r.commitsChangingArtifactInfo == t.commitsChangingArtifactInfo + 1
      && r.changedArtifactInfoLinesOnly == t.changedArtifactInfoLinesOnly + ArtifactSum(c)
      && r.changedVariabilityInfoLinesOnly == t.changedVariabilityInfoLinesOnly
      && r.changedArtifactInfoLines == t.changedArtifactInfoLines
      && r.changedVariabilityInfoLines == t.changedVariabilityInfoLines
    ensures CategoryOf(c) == VariabilityOnly ==>
      && r.commitsChangingVariabilityInfo == t.commitsChangingVariabilityInfo + 1
      && r.changedVariabilityInfoLinesOnly == t.changedVariabilityInfoLinesOnly + VariabilitySum(c)
      && r.changedArtifactInfoLinesOnly == t.changedArtifactInfoLinesOnly
      && r.changedArtifactInfoLines == t.changedArtifactInfoLines
      && r.changedVariabilityInfoLines == t.changedVariabilityInfoLines
    ensures CategoryOf(c) == ArtifactAndVariability ==>
      && r.commitsChangingArtifactAndVariabilityInfo == t.commitsChangingArtifactAndVariabilityInfo + 1
      && r.changedArtifactInfoLines == t.changedArtifactInfoLines + ArtifactSum(c)
      && r.changedVariabilityInfoLines == t.changedVariabilityInfoLines + VariabilitySum(c)
      && r.changedArtifactInfoLinesOnly == t.changedArtifactInfoLinesOnly
      && r.changedVariabilityInfoLinesOnly == t.changedVariabilityInfoLinesOnly
  {
    AddToCategory(AddLineSums(t, c), c).(headerWritten := true)
  }

  /** What the totals keep over any run: the category line counters add up to the per-kind line
      sums, each category's commits are no more than its lines, at most every analyzed commit
      has a category, and the header is written once some commit was analyzed. */
  predicate Consistent(t: Totals) {
    && t.changedArtifactInfoLinesOnly + t.changedArtifactInfoLines == t.modelLines + t.sourceLines + t.buildLines
    && t.changedVariabilityInfoLinesOnly + t.changedVariabilityInfoLines
         == t.modelVarLines + t.sourceVarLines + t.buildVarLines
    && t.commitsChangingArtifactInfo <= t.changedArtifactInfoLinesOnly
    && t.commitsChangingVariabilityInfo <= t.changedVariabilityInfoLinesOnly
    && t.commitsChangingArtifactAndVariabilityInfo <= t.changedArtifactInfoLines
    && t.commitsChangingArtifactAndVariabilityInfo <= t.changedVariabilityInfoLines
    && t.commitsChangingArtifactInfo + t.commitsChangingVariabilityInfo + t.commitsChangingArtifactAndVariabilityInfo
         <= t.analyzedCommits
    && (t.headerWritten <==> t.analyzedCommits > 0)
  }

  lemma NoTotalsConsistent()
    ensures Consistent(NoTotals)
  {
  }

  lemma AddCommitConsistent(t: Totals, c: CommitCounts)
    requires Consistent(t)
    ensures Consistent(AddCommit(t, c))
  {
  }

  /** A commit changes the counters of its own category only. */
  lemma AddCommitCategory(t: Totals, c: CommitCounts)
    ensures var r := AddCommit(t, c);
      && (r.commitsChangingArtifactInfo == t.commitsChangingArtifactInfo + 1 <==> CategoryOf(c) == ArtifactOnly)
      && (r.commitsChangingVariabilityInfo == t.commitsChangingVariabilityInfo + 1 <==> CategoryOf(c) == VariabilityOnly)
      && ((r.commitsChangingArtifactAndVariabilityInfo == t.commitsChangingArtifactAndVariabilityInfo + 1)
            <==> CategoryOf(c) == ArtifactAndVariability)
      && (CategoryOf(c) == NoLinesChanged ==> r == t.(analyzedCommits := t.analyzedCommits + 1, headerWritten := true))
  {
  }

  /** The totals after the commits of a run, one after the other. */
  function AddCommits(t: Totals, commits: seq<CommitCounts>): Totals
    decreases |commits|
  {
    if commits == [] then t else AddCommit(AddCommits(t, commits[..|commits| - 1]), commits[|commits| - 1])
  }

  /** Over a whole run, every commit is counted once and the totals stay consistent. */
  lemma {:induction false} AddCommitsConsistent(t: Totals, commits: seq<CommitCounts>)
    requires Consistent(t)
    ensures Consistent(AddCommits(t, commits))
    ensures AddCommits(t, commits).analyzedCommits == t.analyzedCommits + |commits|
    decreases |commits|
  {
    if commits != [] {
      AddCommitsConsistent(t, commits[..|commits| - 1]);
      AddCommitConsistent(AddCommits(t, commits[..|commits| - 1]), commits[|commits| - 1]);
    }
  }

  // ---------------------------------------------------------------------------------------------
  // The result line

  /** The date column: a commit without a date prints as `null`. */
  function DateField(date: Option<string>): string {
    if date.None? then "null" else date.value
  }

  /** The columns of a commit's result line, the last one ending the line. */
  function ResultFields(date: Option<string>, commit: string, c: CommitCounts): seq<string> {
    [DateField(date), commit,
     DecimalString(c.sourceFiles), DecimalString(c.sourceLines), DecimalString(c.sourceVarLines),
     DecimalString(c.buildFiles), DecimalString(c.buildLines), DecimalString(c.buildVarLines),
     DecimalString(c.modelFiles), DecimalString(c.modelLines), DecimalString(c.modelVarLines) + "\n"]
  }

  function ResultLine(date: Option<string>, commit: string, c: CommitCounts): string {
    Join(ResultFields(date, commit, c), '\t')
  }

  lemma DigitsTabFree(s: string)
    requires AllDigits(s)
    ensures Free(s, '\t') && Free(s + "\n", '\t')
  {
    assert forall i :: 0 <= i < |s| ==> IsAsciiDigit(s[i]);
  }

  /** Splitting a result line at its tabs gives back the date, the commit and, in the order of
      the header, the decimal numbers of the nine counters. */
  lemma ResultLineColumns(date: Option<string>, commit: string, c: CommitCounts)
    requires Free(DateField(date), '\t') && Free(commit, '\t')
    ensures var cols := Split(ResultLine(date, commit, c), "\t");
      && cols == ResultFields(date, commit, c)
      && |cols| == |HeaderTitles|
      && cols[0] == DateField(date) && cols[1] == commit
      && DecimalValue(cols[2]) == c.sourceFiles && DecimalValue(cols[3]) == c.sourceLines
      && DecimalValue(cols[4]) == c.sourceVarLines
      && DecimalValue(cols[5]) == c.buildFiles && DecimalValue(cols[6]) == c.buildLines
      && DecimalValue(cols[7]) == c.buildVarLines
      && DecimalValue(cols[8]) == c.modelFiles && DecimalValue(cols[9]) == c.modelLines
      && cols[10] == DecimalString(c.modelVarLines) + "\n"
  {
    var fields := ResultFields(date, commit, c);
    forall k | 2 <= k < 10 ensures Free(fields[k], '\t') {
      DigitsTabFree(fields[k]);
    }
    DigitsTabFree(DecimalString(c.modelVarLines));
    SplitJoin(fields, '\t');
  }

  /** What addResults appends to the result file: the header, when it is not yet written, and
      the commit's result line. */
  function ResultText(withHeader: bool, date: Option<string>, commit: string, c: CommitCounts): (r: string)
    ensures withHeader ==> |Header| <= |r| && r[..|Header|] == Header && r[|Header|..] == ResultLine(date, commit, c)
    ensures !withHeader ==> r == ResultLine(date, commit, c)
  {
    (if withHeader then Header else "") + ResultLine(date, commit, c)
  }

  /** Splitting the header at its tabs gives one title per column of a result line. */
  lemma HeaderColumns()
    ensures Split(Header, "\t") == HeaderTitles
  {
    var h := HeaderTitles;
    forall k | 0 <= k < |h| ensures Free(h[k], '\t') {
      assert forall i :: 0 <= i < |h[k]| ==> 'A' <= h[k][i] <= 'z' || h[k][i] == '\n';
    }
    SplitJoin(h, '\t');
  }

  // ---------------------------------------------------------------------------------------------
  // The class

  class ResultCollector {
    var analyzedCommitsCounter: nat
    var commitsChangingArtifactInfoCounter: nat
    var commitsChangingVariabilityInfoCounter: nat
    var commitsChangingArtifactAndVariabilityInfoCounter: nat
    var changedArtifactInfoLinesOnlyCounter: nat
    var changedVariabilityInfoLinesOnlyCounter: nat
    var changedArtifactInfoLinesCounter: nat
    var changedVariabilityInfoLinesCounter: nat
    var changedModelLinesCounter: nat
    var changedModelVarLinesCounter: nat
    var changedSourceLinesCounter: nat
    var changedSourceVarLinesCounter: nat
    var changedBuildLinesCounter: nat
    var changedBuildVarLinesCounter: nat
    var resultHeaderWritten: bool

    function State(): Totals
      reads this
    {
      Totals(analyzedCommitsCounter,
        commitsChangingArtifactInfoCounter, commitsChangingVariabilityInfoCounter,
        commitsChangingArtifactAndVariabilityInfoCounter,
        changedArtifactInfoLinesOnlyCounter, changedVariabilityInfoLinesOnlyCounter,
        changedArtifactInfoLinesCounter, changedVariabilityInfoLinesCounter,
        changedModelLinesCounter, changedModelVarLinesCounter,
        changedSourceLinesCounter, changedSourceVarLinesCounter,
        changedBuildLinesCounter, changedBuildVarLinesCounter,
        resultHeaderWritten)
    }

    constructor()
      ensures State() == NoTotals
    {
      analyzedCommitsCounter := 0;
      commitsChangingArtifactInfoCounter := 0;
      commitsChangingVariabilityInfoCounter := 0;
      // not set in the constructor; a new long field starts at 0
      commitsChangingArtifactAndVariabilityInfoCounter := 0;
      changedArtifactInfoLinesCounter := 0;
      changedArtifactInfoLinesOnlyCounter := 0;
      changedVariabilityInfoLinesCounter := 0;
      changedVariabilityInfoLinesOnlyCounter := 0;
      changedModelLinesCounter := 0;
      changedModelVarLinesCounter := 0;
      changedSourceLinesCounter := 0;
      changedSourceVarLinesCounter := 0;
      changedBuildLinesCounter := 0;
      changedBuildVarLinesCounter := 0;
      resultHeaderWritten := false;
    }

    /** addResults: a commit without a commit number changes nothing and writes nothing; any
        other commit is added to the totals and its result line, after the header the first
        time, is the text appended to the result file. */
    method AddResults(diffAnalyzer: DiffAnalyzer) returns (written: string)
      modifies this
      ensures diffAnalyzer.commitNumber == "" ==> State() == old(State()) && written == ""
      ensures diffAnalyzer.commitNumber != "" ==>
        && State() == AddCommit(old(State()), diffAnalyzer.Counts())
        && written == ResultText(!old(resultHeaderWritten), diffAnalyzer.commitDate, diffAnalyzer.commitNumber, diffAnalyzer.Counts())
    {
      written := "";
      ghost var before := State();
      var analyzedCommit := diffAnalyzer.commitNumber;
      if analyzedCommit != "" {
        analyzedCommitsCounter := analyzedCommitsCounter + 1;
        var c := diffAnalyzer.Counts();
        changedModelLinesCounter := changedModelLinesCounter + c.modelLines;
        changedModelVarLinesCounter := changedModelVarLinesCounter + c.modelVarLines;
        changedSourceLinesCounter := changedSourceLinesCounter + c.sourceLines;
        changedSourceVarLinesCounter := changedSourceVarLinesCounter + c.sourceVarLines;
        changedBuildLinesCounter := changedBuildLinesCounter + c.buildLines;
        changedBuildVarLinesCounter := changedBuildVarLinesCounter + c.buildVarLines;
        assert State() == AddLineSums(before, c);
        CountCategory(c);
        written := ResultText(!resultHeaderWritten, diffAnalyzer.commitDate, analyzedCommit, c);
        if !resultHeaderWritten {
          resultHeaderWritten := true;
        }
      }
    }

    /** The category counters of addResults: a commit changing only variability lines, only
        other lines, or both, adds one commit and its line sums to the counters of its
        category. */
    method CountCategory(c: CommitCounts)
      modifies this`commitsChangingVariabilityInfoCounter, this`changedVariabilityInfoLinesOnlyCounter,
        this`commitsChangingArtifactInfoCounter, this`changedArtifactInfoLinesOnlyCounter,
        this`commitsChangingArtifactAndVariabilityInfoCounter, this`changedArtifactInfoLinesCounter,
        this`changedVariabilityInfoLinesCounter
      ensures State() == AddToCategory(old(State()), c)
    {
      var artifactSum := c.modelLines + c.sourceLines + c.buildLines;
      var variabilitySum := c.modelVarLines + c.sourceVarLines + c.buildVarLines;
      if artifactSum == 0 && variabilitySum > 0 {
        commitsChangingVariabilityInfoCounter := commitsChangingVariabilityInfoCounter + 1;
        changedVariabilityInfoLinesOnlyCounter := changedVariabilityInfoLinesOnlyCounter + variabilitySum;
      } else if artifactSum > 0 && variabilitySum == 0 {
        commitsChangingArtifactInfoCounter := commitsChangingArtifactInfoCounter + 1;
        changedArtifactInfoLinesOnlyCounter := changedArtifactInfoLinesOnlyCounter + artifactSum;
      } else if artifactSum > 0 && variabilitySum > 0 {
        commitsChangingArtifactAndVariabilityInfoCounter := commitsChangingArtifactAndVariabilityInfoCounter + 1;
        changedArtifactInfoLinesCounter := changedArtifactInfoLinesCounter + artifactSum;
        changedVariabilityInfoLinesCounter := changedVariabilityInfoLinesCounter + variabilitySum;
      }
    }
  }
}
