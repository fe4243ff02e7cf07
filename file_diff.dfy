/**
 * The shared driver of all file diffs: one pass over the lines from the first `@@` line on that
 * sorts every changed line into exactly one of four counters, or into none.
 */
module FileDiff {
  import opened JavaText
  import opened DiffLines
  import Source = SourceFileDiff
  import Build = BuildFileDiff
  import Model = ModelFileDiff
  import Other = OtherFileDiff

  /** FileType */
  datatype FileType = ModelFile | BuildFile | SourceFile | OtherFile

  /** What the Java code needs of a diff so that no backward scan reads index -1: a source diff
      must not start with a bare `{` line, a model diff not with an indented line. */
  predicate Analyzable(t: FileType, lines: seq<string>) {
    |lines| > 0 ==>
      match t
      case SourceFile => !Source.BareBrace(lines[0])
      case ModelFile => Model.Indentation(Model.Normalize(lines[0])) == 0
      case _ => true
  }

  /** normalize(diffLines[pos], pos) of the file kind. */
  function NormalizeAs(t: FileType, lines: seq<string>, pos: nat): string
    requires pos < |lines|
  {
    match t
    case SourceFile => Source.Normalize(lines, pos)
    case BuildFile => Build.Normalize(lines, lines[pos], pos)
    case ModelFile => Model.Normalize(lines[pos])
    case OtherFile => Other.Normalize(lines[pos], pos)
  }

  /** isVariabilityChange(clean, pos) of the file kind, for a changed line at `pos`. */
  predicate IsVarAs(t: FileType, lines: seq<string>, clean: string, pos: nat)
    requires pos < |lines| && |lines[pos]| > 0 && Analyzable(t, lines)
    requires t == ModelFile && Model.Indentation(clean) > 0 ==> pos > 0
  {
    match t
    case SourceFile => Source.IsVarChange(lines, clean, pos)
    case BuildFile => Build.IsVarChange(lines, clean, pos)
    case ModelFile => Model.IsVarChange(lines, clean, pos)
    case OtherFile => Other.IsVarChange(clean, pos)
  }

  /** Where one diff line goes: into one of the four counters, or nowhere. */
  datatype Change = Ignored | Added | AddedVar | Deleted | DeletedVar

  /** The treatment of line `i` by analyzeDiff. A changed line whose text after the marker is
      blank, or whose normalized text is blank, is ignored; other changed lines are variability
      changes or not as the file kind decides. */
  function Classify(t: FileType, lines: seq<string>, i: nat): Change
    requires i < |lines| && Analyzable(t, lines)
  {
    var l := lines[i];
    if !StartsWith(l, AddedMarker) && !StartsWith(l, DeletedMarker) then Ignored
    else if IsBlank(l[1..]) then Ignored
    else
      var clean := NormalizeAs(t, lines, i);
      if IsBlank(clean) then Ignored
      else if IsVarAs(t, lines, clean, i) then
        (if StartsWith(l, AddedMarker) then AddedVar else DeletedVar)
      else if StartsWith(l, AddedMarker) then Added
      else Deleted
  }

  /** The four counters. */
  datatype LineCounts = LineCounts(added: nat, addedVar: nat, deleted: nat, deletedVar: nat)

  const NoCounts := LineCounts(0, 0, 0, 0)

  /** The counters after one more line. */
  function Count(c: LineCounts, k: Change): LineCounts {
    match k
    case Ignored => c
    case Added => c.(added := c.added + 1)
    case AddedVar => c.(addedVar := c.addedVar + 1)
    case Deleted => c.(deleted := c.deleted + 1)
    case DeletedVar => c.(deletedVar := c.deletedVar + 1)
  }

  function ClassifyAt(t: FileType, lines: seq<string>): nat --> Change
    requires Analyzable(t, lines)
  {
    (i: nat) requires i < |lines| => Classify(t, lines, i)
  }

  /** The classification of every line. */
  function Changes(t: FileType, lines: seq<string>): (r: seq<Change>)
    requires Analyzable(t, lines)
    ensures |r| == |lines|
  {
    Tabulate(ClassifyAt(t, lines), |lines|)
  }

  lemma ChangesAt(t: FileType, lines: seq<string>, i: nat)
    requires i < |lines| && Analyzable(t, lines)
    ensures Changes(t, lines)[i] == Classify(t, lines, i)
  {
    TabulateAt(ClassifyAt(t, lines), |lines|, i);
  }

  /** The counters once the lines from `start` up to (not including) `n` are counted. */
  function Tally(ks: seq<Change>, start: nat, n: nat): LineCounts
    requires n <= |ks|
    decreases n
  {
    if n <= start then NoCounts else Count(Tally(ks, start, n - 1), ks[n - 1])
  }

  /** The number of lines from `start` up to `n` that start with `marker`. */
  function Marked(lines: seq<string>, marker: string, start: nat, n: nat): nat
    requires n <= |lines|
    decreases n
  {
    if n <= start then 0
    else Marked(lines, marker, start, n - 1) + (if StartsWith(lines[n - 1], marker) then 1 else 0)
  }

  // ---------------------------------------------------------------------------------------------
  // The classification of one line

  /** A changed line counts as added exactly when it starts with `+`, as deleted exactly when it
      starts with `-` (and not `+`), and neither for any other line. Both counters of a kind are
      chosen by the file kind's isVariabilityChange. */
  lemma ClassifyMarkers(t: FileType, lines: seq<string>, i: nat)
    requires i < |lines| && Analyzable(t, lines)
    ensures Classify(t, lines, i) in {Added, AddedVar} ==> StartsWith(lines[i], AddedMarker)
    ensures Classify(t, lines, i) in {Deleted, DeletedVar} ==>
      StartsWith(lines[i], DeletedMarker) && !StartsWith(lines[i], AddedMarker)
    ensures !StartsWith(lines[i], AddedMarker) && !StartsWith(lines[i], DeletedMarker) ==> Classify(t, lines, i) == Ignored
    ensures Classify(t, lines, i) in {AddedVar, DeletedVar} ==>
      IsVarAs(t, lines, NormalizeAs(t, lines, i), i)
    ensures Classify(t, lines, i) in {Added, Deleted} ==>
      !IsBlank(NormalizeAs(t, lines, i)) && !IsVarAs(t, lines, NormalizeAs(t, lines, i), i)
    ensures Countable(t, lines, i, AddedMarker) ==> Classify(t, lines, i) in {Added, AddedVar}
    ensures Countable(t, lines, i, DeletedMarker) ==> Classify(t, lines, i) in {Deleted, DeletedVar}
  {
  }

  /** A line that analyzeDiff counts under `marker`: it starts with the marker, the text after
      the marker is not blank, and neither is its normalized text. */
  predicate Countable(t: FileType, lines: seq<string>, i: nat, marker: string)
    requires i < |lines|
  {
    |lines[i]| > 0 && StartsWith(lines[i], marker) && !IsBlank(lines[i][1..]) && !IsBlank(NormalizeAs(t, lines, i))
  }

  /** A countable line that the file kind also takes for a variability change. */
  predicate CountableVar(t: FileType, lines: seq<string>, i: nat, marker: string)
    requires i < |lines| && Analyzable(t, lines)
  {
    Countable(t, lines, i, marker) && IsVarAs(t, lines, NormalizeAs(t, lines, i), i)
  }

  /** The number of countable lines from `start` up to `n`. */
  function CountableLines(t: FileType, lines: seq<string>, marker: string, start: nat, n: nat): nat
    requires n <= |lines|
    decreases n
  {
    if n <= start then 0
    else CountableLines(t, lines, marker, start, n - 1) + (if Countable(t, lines, n - 1, marker) then 1 else 0)
  }

  /** The number of countable variability lines from `start` up to `n`. */
  function CountableVarLines(t: FileType, lines: seq<string>, marker: string, start: nat, n: nat): nat
    requires n <= |lines| && Analyzable(t, lines)
    decreases n
  {
    if n <= start then 0
    else CountableVarLines(t, lines, marker, start, n - 1) + (if CountableVar(t, lines, n - 1, marker) then 1 else 0)
  }

  /** A line that is only a marker followed by white space is never counted, and neither is a
      changed line whose normalized text is blank (a comment-only line). */
  lemma BlankLinesIgnored(t: FileType, lines: seq<string>, i: nat)
    requires i < |lines| && Analyzable(t, lines)
    ensures |lines[i]| > 0 && IsBlank(lines[i][1..]) ==> Classify(t, lines, i) == Ignored
    ensures IsBlank(NormalizeAs(t, lines, i)) ==> Classify(t, lines, i) == Ignored
  {
  }

  // ---------------------------------------------------------------------------------------------
  // The whole pass

  /** Counter-wise addition. */
  function Sum(a: LineCounts, b: LineCounts): LineCounts {
    LineCounts(a.added + b.added, a.addedVar + b.addedVar, a.deleted + b.deleted, a.deletedVar + b.deletedVar)
  }

  /** Counting a line commutes with adding further counters. */
  lemma CountSum(a: LineCounts, b: LineCounts, k: Change)
    ensures Count(Sum(a, b), k) == Sum(Count(a, k), b)
  {
    match k
    case Ignored =>
    case Added =>
    case AddedVar =>
    case Deleted =>
    case DeletedVar =>
  }

  /** Lines before `start` are never counted, and each line from `start` on is counted once:
      the tally is the first line's contribution plus the tally of the rest. */
  lemma {:induction false} TallyFromStart(ks: seq<Change>, start: nat, n: nat)
    requires start < n <= |ks|
    ensures Tally(ks, start, n) == Sum(Tally(ks, start + 1, n), Count(NoCounts, ks[start]))
    decreases n
  {
    var x := Count(NoCounts, ks[start]);
    if n > start + 1 {
      TallyFromStart(ks, start, n - 1);
      var a := Tally(ks, start + 1, n - 1);
      assert Tally(ks, start, n - 1) == Sum(a, x);
      CountSum(a, x, ks[n - 1]);
      assert Tally(ks, start, n) == Count(Sum(a, x), ks[n - 1]);
      assert Tally(ks, start + 1, n) == Count(a, ks[n - 1]);
    } else {
      assert Tally(ks, start, n) == Count(NoCounts, ks[start]);
      assert Sum(NoCounts, x) == x;
    }
  }

  /** The classes of the lines before `start` never matter: two classifications that agree from
      `start` on have the same tally. A pass that starts at or after the end counts nothing. */
  lemma {:induction false} NothingBeforeStart(ks: seq<Change>, ks': seq<Change>, start: nat, n: nat)
    requires n <= |ks| && n <= |ks'|
    ensures (forall k | start <= k < n :: ks[k] == ks'[k]) ==> Tally(ks, start, n) == Tally(ks', start, n)
    ensures n <= start ==> Tally(ks, start, n) == NoCounts
    decreases n
  {
    if n > start && forall k | start <= k < n :: ks[k] == ks'[k] {
      NothingBeforeStart(ks, ks', start, n - 1);
      assert ks[n - 1] == ks'[n - 1];
    }
  }

  /** The total of the counters. */
  function Total(c: LineCounts): nat {
    c.added + c.addedVar + c.deleted + c.deletedVar
  }

  /** Every counter only grows, and the counters together grow by at most one per line. */
  lemma TallyStep(ks: seq<Change>, start: nat, n: nat)
    requires start < n <= |ks|
    ensures Total(Tally(ks, start, n)) - Total(Tally(ks, start, n - 1)) in {0, 1}
    ensures Tally(ks, start, n - 1).added <= Tally(ks, start, n).added
    ensures Tally(ks, start, n - 1).addedVar <= Tally(ks, start, n).addedVar
    ensures Tally(ks, start, n - 1).deleted <= Tally(ks, start, n).deleted
    ensures Tally(ks, start, n - 1).deletedVar <= Tally(ks, start, n).deletedVar
  {
    CountGrows(Tally(ks, start, n - 1), ks[n - 1]);
  }

  /** One line adds one to exactly one counter, or nothing when it is ignored. */
  lemma CountGrows(c: LineCounts, k: Change)
    ensures Total(Count(c, k)) == Total(c) + (if k == Ignored then 0 else 1)
    ensures c.added <= Count(c, k).added && c.addedVar <= Count(c, k).addedVar
    ensures c.deleted <= Count(c, k).deleted && c.deletedVar <= Count(c, k).deletedVar
  {
    match k
    case Ignored =>
    case Added =>
    case AddedVar =>
    case Deleted =>
    case DeletedVar =>
  }

  /** Every line that goes into an added counter starts with `+`, and every line that goes into
      a deleted counter starts with `-`. */
  predicate MarkersAgree(ks: seq<Change>, lines: seq<string>) {
    |ks| == |lines|
    && forall i | 0 <= i < |ks| ::
      && (ks[i] in {Added, AddedVar} ==> StartsWith(lines[i], AddedMarker))
      && (ks[i] in {Deleted, DeletedVar} ==> StartsWith(lines[i], DeletedMarker))
  }

  lemma ChangesAgree(t: FileType, lines: seq<string>)
    requires Analyzable(t, lines)
    ensures MarkersAgree(Changes(t, lines), lines)
  {
    var ks := Changes(t, lines);
    forall i | 0 <= i < |lines|
      ensures ks[i] in {Added, AddedVar} ==> StartsWith(lines[i], AddedMarker)
      ensures ks[i] in {Deleted, DeletedVar} ==> StartsWith(lines[i], DeletedMarker)
    {
      ChangesAt(t, lines, i);
      ClassifyMarkers(t, lines, i);
    }
  }

  lemma {:induction false} TallyBounded(ks: seq<Change>, lines: seq<string>, start: nat, n: nat)
    requires n <= |lines| && MarkersAgree(ks, lines)
    ensures Tally(ks, start, n).added + Tally(ks, start, n).addedVar <= Marked(lines, AddedMarker, start, n)
    ensures Tally(ks, start, n).deleted + Tally(ks, start, n).deletedVar <= Marked(lines, DeletedMarker, start, n)
    decreases n
  {
    if n > start {
      TallyBounded(ks, lines, start, n - 1);
    }
  }

  /** The counting pass counts exactly the countable lines: added plus added-variability is the
      number of countable `+` lines from the start on, added-variability the number of those that
      are variability changes, and likewise for `-` lines. */
  lemma CountsExact(t: FileType, lines: seq<string>, start: nat, n: nat)
    requires n <= |lines| && Analyzable(t, lines)
    ensures var c := Tally(Changes(t, lines), start, n);
      && c.added + c.addedVar == CountableLines(t, lines, AddedMarker, start, n)
      && c.addedVar == CountableVarLines(t, lines, AddedMarker, start, n)
      && c.deleted + c.deletedVar == CountableLines(t, lines, DeletedMarker, start, n)
      && c.deletedVar == CountableVarLines(t, lines, DeletedMarker, start, n)
  {
    AddedExact(t, lines, start, n);
    DeletedExact(t, lines, start, n);
  }

  lemma {:induction false} AddedExact(t: FileType, lines: seq<string>, start: nat, n: nat)
    requires n <= |lines| && Analyzable(t, lines)
    ensures var c := Tally(Changes(t, lines), start, n);
      && c.added + c.addedVar == CountableLines(t, lines, AddedMarker, start, n)
      && c.addedVar == CountableVarLines(t, lines, AddedMarker, start, n)
    decreases n
  {
    if n > start {
      AddedExact(t, lines, start, n - 1);
      var ks := Changes(t, lines);
      var c := Tally(ks, start, n - 1);
      assert Tally(ks, start, n) == Count(c, ks[n - 1]);
      ChangesAt(t, lines, n - 1);
      CountLine(t, lines, n - 1);
      CountStep(c, ks[n - 1]);
    }
  }

  lemma {:induction false} DeletedExact(t: FileType, lines: seq<string>, start: nat, n: nat)
    requires n <= |lines| && Analyzable(t, lines)
    ensures var c := Tally(Changes(t, lines), start, n);
      && c.deleted + c.deletedVar == CountableLines(t, lines, DeletedMarker, start, n)
      && c.deletedVar == CountableVarLines(t, lines, DeletedMarker, start, n)
    decreases n
  {
    if n > start {
      DeletedExact(t, lines, start, n - 1);
      var ks := Changes(t, lines);
      var c := Tally(ks, start, n - 1);
      assert Tally(ks, start, n) == Count(c, ks[n - 1]);
      ChangesAt(t, lines, n - 1);
      CountLine(t, lines, n - 1);
      CountStep(c, ks[n - 1]);
    }
  }

  /** Countable lines are marked lines, so there are no more of them than of marked lines. */
  lemma {:induction false} CountableMarked(t: FileType, lines: seq<string>, marker: string, start: nat, n: nat)
    requires n <= |lines|
    ensures CountableLines(t, lines, marker, start, n) <= Marked(lines, marker, start, n)
    decreases n
  {
    if n > start {
      CountableMarked(t, lines, marker, start, n - 1);
    }
  }

  /** The added and added-variability counters together never exceed the number of `+` lines
      from the start on, and likewise for `-` lines. */
  lemma CountsBounded(t: FileType, lines: seq<string>, start: nat, n: nat)
    requires n <= |lines| && Analyzable(t, lines)
    ensures Tally(Changes(t, lines), start, n).added + Tally(Changes(t, lines), start, n).addedVar
      <= Marked(lines, AddedMarker, start, n)
    ensures Tally(Changes(t, lines), start, n).deleted + Tally(Changes(t, lines), start, n).deletedVar
      <= Marked(lines, DeletedMarker, start, n)
  {
    CountsExact(t, lines, start, n);
    CountableMarked(t, lines, AddedMarker, start, n);
    CountableMarked(t, lines, DeletedMarker, start, n);
  }

  /** What counting one line of a class adds to each counter. */
  lemma CountStep(c: LineCounts, k: Change)
    ensures Count(c, k).added + Count(c, k).addedVar == c.added + c.addedVar + (if k in {Added, AddedVar} then 1 else 0)
    ensures Count(c, k).addedVar == c.addedVar + (if k == AddedVar then 1 else 0)
    ensures Count(c, k).deleted + Count(c, k).deletedVar
      == c.deleted + c.deletedVar + (if k in {Deleted, DeletedVar} then 1 else 0)
    ensures Count(c, k).deletedVar == c.deletedVar + (if k == DeletedVar then 1 else 0)
  {
  }

  /** Where one line goes, in terms of countability. */
  lemma CountLine(t: FileType, lines: seq<string>, i: nat)
    requires i < |lines| && Analyzable(t, lines)
    ensures Classify(t, lines, i) in {Added, AddedVar} <==> Countable(t, lines, i, AddedMarker)
    ensures Classify(t, lines, i) == AddedVar <==> CountableVar(t, lines, i, AddedMarker)
    ensures Classify(t, lines, i) in {Deleted, DeletedVar} <==> Countable(t, lines, i, DeletedMarker)
    ensures Classify(t, lines, i) == DeletedVar <==> CountableVar(t, lines, i, DeletedMarker)
  {
    var l := lines[i];
    if StartsWith(l, AddedMarker) {
      assert !StartsWith(l, DeletedMarker) by { assert l[0] == '+'; }
    }
  }

  /** A diff of the other kind counts nothing at all. */
  lemma {:induction false} OtherCountsNothing(lines: seq<string>, start: nat, n: nat)
    requires n <= |lines|
    ensures Tally(Changes(OtherFile, lines), start, n) == NoCounts
    decreases n
  {
    if n > start {
      OtherCountsNothing(lines, start, n - 1);
      ChangesAt(OtherFile, lines, n - 1);
      assert IsBlank(NormalizeAs(OtherFile, lines, n - 1));
    }
  }

  // ---------------------------------------------------------------------------------------------
  // The class

  /** The imperative classification of line `i`, calling the file kind's own methods. */
  method ClassifyLine(t: FileType, lines: seq<string>, i: nat) returns (k: Change)
    requires i < |lines| && Analyzable(t, lines)
    ensures k == Classify(t, lines, i)
  {
    k := Ignored;
    var l := lines[i];
    if StartsWith(l, AddedMarker) || StartsWith(l, DeletedMarker) {
      if !IsBlank(l[1..]) {
        var clean := NormalizeText(t, lines, i);
        if !IsBlank(clean) {
          var v := IsVariabilityChange(t, lines, clean, i);
          if StartsWith(l, AddedMarker) {
            k := if v then AddedVar else Added;
          } else {
            k := if v then DeletedVar else Deleted;
          }
        }
      }
    }
  }

  method NormalizeText(t: FileType, lines: seq<string>, pos: nat) returns (r: string)
    requires pos < |lines|
    ensures r == NormalizeAs(t, lines, pos)
  {
    match t
    case SourceFile => r := Source.NormalizeLine(lines, pos);
    case BuildFile => r := Build.NormalizeLine(lines, lines[pos], pos);
    case ModelFile => r := Model.Normalize(lines[pos]);
    case OtherFile => r := "";
  }

  method IsVariabilityChange(t: FileType, lines: seq<string>, clean: string, pos: nat) returns (r: bool)
    requires pos < |lines| && |lines[pos]| > 0 && Analyzable(t, lines)
    requires t == ModelFile && Model.Indentation(clean) > 0 ==> pos > 0
    ensures r == IsVarAs(t, lines, clean, pos)
  {
    match t
    case SourceFile => r := Source.IsVariabilityChange(lines, clean, pos);
    case BuildFile => r := Build.IsVariabilityChange(lines, clean, pos);
    case ModelFile => r := Model.IsVariabilityChange(lines, clean, pos);
    case OtherFile => r := false;
  }

  class FileDiff {
    const fileType: FileType
    const diffLines: seq<string>
    const changesStartLine: nat
    var addedLinesNum: nat
    var deletedLinesNum: nat
    var addedVarLinesNum: nat
    var deletedVarLinesNum: nat

    /** The four counters. */
    function Counts(): LineCounts
      reads this
    {
      LineCounts(addedLinesNum, addedVarLinesNum, deletedLinesNum, deletedVarLinesNum)
    }

    /** Records the diff and runs analyzeDiff over it. */
    constructor(fileType: FileType, diffLines: seq<string>, changesStartLine: nat)
      requires Analyzable(fileType, diffLines)
      ensures this.fileType == fileType && this.diffLines == diffLines
      ensures this.changesStartLine == changesStartLine
      ensures Counts() == Tally(Changes(fileType, diffLines), changesStartLine, |diffLines|)
    {
      this.fileType := fileType;
      this.diffLines := diffLines;
      this.changesStartLine := changesStartLine;
      addedLinesNum := 0;
      deletedLinesNum := 0;
      addedVarLinesNum := 0;
      deletedVarLinesNum := 0;
      new;
      AnalyzeDiff();
    }

    /** analyzeDiff: one pass from changesStartLine to the last line. */
    method AnalyzeDiff()
      requires Analyzable(fileType, diffLines)
      requires Counts() == NoCounts
      modifies this
      ensures Counts() == Tally(Changes(fileType, diffLines), changesStartLine, |diffLines|)
    {
      var i := changesStartLine;
      while i < |diffLines|
        invariant changesStartLine <= i && (i <= |diffLines| || i == changesStartLine)
        invariant i <= |diffLines| ==> Counts() == Tally(Changes(fileType, diffLines), changesStartLine, i)
        invariant i > |diffLines| ==> Counts() == NoCounts
      {
        var k := ClassifyLine(fileType, diffLines, i);
        ChangesAt(fileType, diffLines, i);
        match k {
          case AddedVar => addedVarLinesNum := addedVarLinesNum + 1;
          case Added => addedLinesNum := addedLinesNum + 1;
          case DeletedVar => deletedVarLinesNum := deletedVarLinesNum + 1;
          case Deleted => deletedLinesNum := deletedLinesNum + 1;
          case Ignored =>
        }
        i := i + 1;
      }
      if i > |diffLines| {
        NothingBeforeStart(Changes(fileType, diffLines), Changes(fileType, diffLines), changesStartLine, |diffLines|);
      }
    }
  }
}
