/**
 * The check over result files that the commits are listed from the latest to the earliest:
 * every line after the column titles is reported when its date is later than the date of the
 * line before it. The last date seen is kept across lines and across files.
 */
module ComAnResultsOrderCheck {
  import opened JavaText
  import DiffAnalyzer
  import ResultCollector

  /** The year, month and day substrings that getYear, getMonth and getDay parse exist and are
      decimal digits. */
  predicate YearReadable(d: string) {
    |d| >= 4 && AllDigits(d[0..4])
  }

  predicate MonthReadable(d: string) {
    |d| >= 7 && AllDigits(d[5..7])
  }

  predicate DayReadable(d: string) {
    |d| >= 10 && AllDigits(d[8..10])
  }

  /** A date `YYYY/MM/DD...` whose year, month and day substrings are decimal digits. */
  predicate WellFormedDate(d: string) {
    YearReadable(d) && MonthReadable(d) && DayReadable(d)
  }

  /** getYear, getMonth and getDay */
  function Year(d: string): nat
    requires YearReadable(d)
  {
    DecimalValue(d[0..4])
  }

  function Month(d: string): nat
    requires MonthReadable(d)
  {
    DecimalValue(d[5..7])
  }

  function Day(d: string): nat
    requires DayReadable(d)
  {
    DecimalValue(d[8..10])
  }

  /** The substrings checkCommitOrder parses, when the date and the previous date are set: both
      years; both months only when the years are equal; both days only when the months are
      equal too. */
  predicate Readable(date: string, previous: Option<string>) {
    date != "" && previous.Some? && previous.value != "" ==>
      var p := previous.value;
      && YearReadable(date) && YearReadable(p)
      && (Year(date) == Year(p) ==>
            && MonthReadable(date) && MonthReadable(p)
            && (Month(date) == Month(p) ==> DayReadable(date) && DayReadable(p)))
  }

  /** checkCommitOrder: the date is not later than the previous date, compared by year, then
      month, then day. A missing date or previous date is never in order. */
  function CheckCommitOrder(date: string, previous: Option<string>): bool
    requires Readable(date, previous)
  {
    if date == "" || previous.None? || previous.value == "" then false
    else
      var p := previous.value;
      if Year(date) < Year(p) then true
      else if Year(date) == Year(p) then
        if Month(date) < Month(p) then true
        else Month(date) == Month(p) && Day(date) <= Day(p)
      else false
  }

  /** Dates whose years differ are compared by the years alone: the months and days are never
      parsed, so `2011/6/10` after `2010/06/10` is readable and out of order. */
  lemma YearsDecide(date: string, p: string)
    requires date != "" && p != "" && YearReadable(date) && YearReadable(p) && Year(date) != Year(p)
    ensures Readable(date, Some(p))
    ensures CheckCommitOrder(date, Some(p)) <==> Year(date) < Year(p)
  {
  }

  /** A later year with a one-digit month is read and reported without parsing the month. */
  lemma LaterYearShortMonth()
    ensures Readable("2011/6/10", Some("2010/06/10")) && !CheckCommitOrder("2011/6/10", Some("2010/06/10"))
    ensures !WellFormedDate("2011/6/10")
  {
    var d, p := "2011/6/10", "2010/06/10";
    assert d[0..4] == "2011" && p[0..4] == "2010";
    assert AllDigits("2011") && AllDigits("2010");
    assert "2011"[..3] == "201" && "2010"[..3] == "201";
    assert Year(d) == DecimalValue("201") * 10 + 1;
    assert Year(p) == DecimalValue("201") * 10;
    YearsDecide(d, p);
  }

  /** Dates of the same year whose months differ are compared by the months alone: the days are
      never parsed. */
  lemma MonthsDecide(date: string, p: string)
    requires date != "" && p != "" && YearReadable(date) && YearReadable(p) && Year(date) == Year(p)
    requires MonthReadable(date) && MonthReadable(p) && Month(date) != Month(p)
    ensures Readable(date, Some(p))
    ensures CheckCommitOrder(date, Some(p)) <==> Month(date) < Month(p)
  {
  }

  /** Every pair of set, well-formed dates is readable. */
  lemma WellFormedReadable(date: string, p: string)
    requires WellFormedDate(date) && WellFormedDate(p)
    ensures Readable(date, Some(p))
  {
  }

  /** A date as one number whose decimal digits are the year, the month and the day. */
  function DateKey(d: string): nat
    requires WellFormedDate(d)
  {
    Year(d) * 10000 + Month(d) * 100 + Day(d)
  }

  lemma TwoDigitsBelow100(s: string)
    requires |s| == 2 && AllDigits(s)
    ensures DecimalValue(s) < 100
  {
    assert s[..1][..0] == [] && s[..1][0] == s[0];
    assert IsAsciiDigit(s[0]) && IsAsciiDigit(s[1]);
    assert DecimalValue(s[..1]) == s[0] as int - '0' as int;
  }

  lemma MonthDayBounds(d: string)
    requires WellFormedDate(d)
    ensures Month(d) < 100 && Day(d) < 100
  {
    TwoDigitsBelow100(d[5..7]);
    TwoDigitsBelow100(d[8..10]);
  }

  /** With both dates set, the commits are in order exactly when the date's key is at most the
      previous date's key. */
  lemma InOrderIff(date: string, p: string)
    requires date != "" && p != "" && WellFormedDate(date) && WellFormedDate(p)
    ensures CheckCommitOrder(date, Some(p)) <==> DateKey(date) <= DateKey(p)
  {
    MonthDayBounds(date);
    MonthDayBounds(p);
    var y, m := Year(date), Month(date);
    var y', m' := Year(p), Month(p);
    if y < y' {
      assert y * 10000 + 9999 < y' * 10000;
    } else if y > y' {
      assert y' * 10000 + 9999 < y * 10000;
    } else if m < m' {
      assert m * 100 + 99 < m' * 100;
    } else if m > m' {
      assert m' * 100 + 99 < m * 100;
    }
  }

  /** A missing date or a missing previous date is always reported. */
  lemma UnsetNeverInOrder(date: string, previous: Option<string>)
    requires date == "" || previous.None? || previous.value == ""
    ensures !CheckCommitOrder(date, previous)
  {
  }

  /** On set, well-formed dates the order is a total preorder: every date is in order after
      itself, of two dates one is in order after the other, and being in order is transitive. */
  lemma InOrderPreorder(a: string, b: string, c: string)
    requires a != "" && b != "" && c != ""
    requires WellFormedDate(a) && WellFormedDate(b) && WellFormedDate(c)
    ensures CheckCommitOrder(a, Some(a))
    ensures CheckCommitOrder(a, Some(b)) || CheckCommitOrder(b, Some(a))
    ensures CheckCommitOrder(a, Some(b)) && CheckCommitOrder(b, Some(c)) ==> CheckCommitOrder(a, Some(c))
  {
    InOrderIff(a, a);
    InOrderIff(a, b);
    InOrderIff(b, a);
    InOrderIff(b, c);
    InOrderIff(a, c);
  }

  /** Two dates that are each in order after the other have the same year, month and day. */
  lemma InOrderAntisymmetric(a: string, b: string)
    requires a != "" && b != "" && WellFormedDate(a) && WellFormedDate(b)
    requires CheckCommitOrder(a, Some(b)) && CheckCommitOrder(b, Some(a))
    ensures Year(a) == Year(b) && Month(a) == Month(b) && Day(a) == Day(b)
  {
  }

  // ---------------------------------------------------------------------------------------------
  // The dates the collector writes

  lemma DigitsAreWord(s: string)
    requires AllDigits(s)
    ensures Free(s, '-') && DiffAnalyzer.NoSpace(s)
  {
    assert forall i :: 0 <= i < |s| ==> IsAsciiDigit(s[i]);
  }

  /** A commit whose first line starts with a date of four, two and two digits is written with
      a date the order check can read, whose year, month and day are those digits. */
  lemma CollectedDateReadable(y: string, m: string, d: string, time: string)
    requires |y| == 4 && |m| == 2 && |d| == 2 && AllDigits(y) && AllDigits(m) && AllDigits(d)
    requires time == "" || IsRegexSpace(time[0])
    ensures var date := ResultCollector.DateField(DiffAnalyzer.ParsedDate(Some(y + "-" + m + "-" + d + time)));
      && date == y + "/" + m + "/" + d && WellFormedDate(date)
      && Year(date) == DecimalValue(y) && Month(date) == DecimalValue(m) && Day(date) == DecimalValue(d)
  {
    DigitsAreWord(y);
    DigitsAreWord(m);
    DigitsAreWord(d);
    DiffAnalyzer.ParsedDateOf(y, m, d, time);
    SlashDate(y, m, d);
  }

  lemma SlashDate(y: string, m: string, d: string)
    requires |y| == 4 && |m| == 2 && |d| == 2 && AllDigits(y) && AllDigits(m) && AllDigits(d)
    ensures var date := y + "/" + m + "/" + d;
      WellFormedDate(date) && date[0..4] == y && date[5..7] == m && date[8..10] == d
  {
    var date := y + "/" + m + "/" + d;
    assert date == y + ("/" + m + "/" + d);
    assert date[0..4] == y;
    assert date[5..] == m + "/" + d;
    assert date[5..7] == m;
    assert date[8..] == d;
    assert date[8..10] == d;
  }

  /** The first word of a result line is its date column. */
  lemma ResultLineDate(date: Option<string>, commit: string, c: DiffAnalyzer.CommitCounts)
    requires ResultCollector.DateField(date) != ""
    requires forall i :: 0 <= i < |ResultCollector.DateField(date)| ==> !IsRegexSpace(ResultCollector.DateField(date)[i])
    ensures LineDate(ResultCollector.ResultLine(date, commit, c)) == Some(ResultCollector.DateField(date))
  {
    var f := ResultCollector.DateField(date);
    var fields := ResultCollector.ResultFields(date, commit, c);
    var line := ResultCollector.ResultLine(date, commit, c);
    assert fields[1..][..0] == [];
    assert line == f + ("\t" + Join(fields[1..], '\t'));
    FirstTokenOf(f, "\t" + Join(fields[1..], '\t'));
    SplitOnSpacesFirst(line);
    SplitOnSpacesEmptyIff(line);
    assert !IsRegexSpace(line[0]);
  }

  // ---------------------------------------------------------------------------------------------
  // The loop over the lines of a result file

  /** The first part of the line split at `\s+`, if the split gives any part. */
  function LineDate(line: string): Option<string> {
    var parts := SplitOnSpaces(line);
    if |parts| > 0 then Some(parts[0]) else None
  }

  /** The date of every line. */
  function LineDates(lines: seq<string>): (dates: seq<Option<string>>)
    ensures |dates| == |lines|
    ensures forall k | 0 <= k < |lines| :: dates[k] == LineDate(lines[k])
  {
    seq(|lines|, k requires 0 <= k < |lines| => LineDate(lines[k]))
  }

  /** What checking one line's date against the previous date needs: both can be parsed. */
  predicate StepReadable(previous: Option<string>, date: Option<string>) {
    date.Some? ==> Readable(date.value, previous)
  }

  /** Whether a line with the given date is reported: it has a date, not in order after the
      previous date. */
  predicate Reported(previous: Option<string>, date: Option<string>)
    requires StepReadable(previous, date)
  {
    date.Some? && !CheckCommitOrder(date.value, previous)
  }

  /** The previous date after a line: the line's date when it has one. */
  function Advance(previous: Option<string>, date: Option<string>): Option<string> {
    if date.Some? then date else previous
  }

  /** What the scan of the lines from `j` on needs: every date it compares can be parsed. */
  predicate ScanReadable(previous: Option<string>, dates: seq<Option<string>>, j: nat)
    requires j <= |dates|
    decreases |dates| - j
  {
    j == |dates| ||
    (StepReadable(previous, dates[j]) && ScanReadable(Advance(previous, dates[j]), dates, j + 1))
  }

  /** The indices of the reported lines and the previous date at the end. */
  datatype Scan = Scan(reports: seq<nat>, last: Option<string>)

  /** The lines from `j` on, given their dates: a line with a date is reported when it is not in
      order after the previous date, and its date becomes the previous date. */
  function ScanFrom(previous: Option<string>, dates: seq<Option<string>>, j: nat): Scan
    requires j <= |dates| && ScanReadable(previous, dates, j)
    decreases |dates| - j
  {
    if j == |dates| then Scan([], previous)
    else
      var rest := ScanFrom(Advance(previous, dates[j]), dates, j + 1);
      Scan((if Reported(previous, dates[j]) then [j] else []) + rest.reports, rest.last)
  }

  /** Part of a scan done: the lines before `j` reported `done`, and the scan from `j` on with
      the previous date at `j` completes the whole scan. */
  predicate ScanProgress(previous: Option<string>, done: seq<nat>, dates: seq<Option<string>>, j: nat, whole: Scan) {
    && j <= |dates| && ScanReadable(previous, dates, j)
    && done + ScanFrom(previous, dates, j).reports == whole.reports
    && ScanFrom(previous, dates, j).last == whole.last
  }

  /** The scan after one more line. */
  lemma ScanAdvance(previous: Option<string>, done: seq<nat>, dates: seq<Option<string>>, j: nat, whole: Scan)
    requires j < |dates| && ScanProgress(previous, done, dates, j, whole)
    ensures StepReadable(previous, dates[j])
    ensures Reported(previous, dates[j]) ==> ScanProgress(Advance(previous, dates[j]), done + [j], dates, j + 1, whole)
    ensures !Reported(previous, dates[j]) ==> ScanProgress(Advance(previous, dates[j]), done, dates, j + 1, whole)
  {
    var rest := ScanFrom(Advance(previous, dates[j]), dates, j + 1).reports;
    if Reported(previous, dates[j]) {
      assert (done + [j]) + rest == done + ([j] + rest);
    }
  }

  /** Indices of lines with a date, from `j` on, in increasing order. */
  predicate DatedIndices(r: seq<nat>, dates: seq<Option<string>>, j: nat) {
    && (forall k | 0 <= k < |r| :: j <= r[k] < |dates| && dates[r[k]].Some?)
    && (forall k, l | 0 <= k < l < |r| :: r[k] < r[l])
  }

  /** The reported lines are lines with a date, from `j` on, in increasing order. */
  lemma {:induction false} ScanReportsDated(previous: Option<string>, dates: seq<Option<string>>, j: nat)
    requires j <= |dates| && ScanReadable(previous, dates, j)
    ensures DatedIndices(ScanFrom(previous, dates, j).reports, dates, j)
    decreases |dates| - j
  {
    if j < |dates| {
        var next := Advance(previous, dates[j]);
        ScanReportsDated(next, dates, j + 1);
        var rest := ScanFrom(next, dates, j + 1).reports;
        var head: seq<nat> := if Reported(previous, dates[j]) then [j] else [];
        var r := head + rest;
        assert r == ScanFrom(previous, dates, j).reports;
        forall k | 0 <= k < |r| ensures j <= r[k] < |dates| && dates[r[k]].Some? {
          if k >= |head| {
            assert r[k] == rest[k - |head|];
          } else {
            assert r[k] == j;
          }
        }
        forall k, l | 0 <= k < l < |r| ensures r[k] < r[l] {
          assert r[l] == rest[l - |head|];
          if k >= |head| {
            assert r[k] == rest[k - |head|];
          }
        }
    }
  }

  /** The previous date after the scan is the date of the last line with one, or the previous
      date before it when no line has one. */
  lemma {:induction false} ScanLast(previous: Option<string>, dates: seq<Option<string>>, j: nat)
    requires j <= |dates| && ScanReadable(previous, dates, j)
    ensures var last := ScanFrom(previous, dates, j).last;
      && ((forall k | j <= k < |dates| :: dates[k].None?) ==> last == previous)
      && (forall k | j <= k < |dates| :: dates[k].Some? && (forall l | k < l < |dates| :: dates[l].None?)
            ==> last == dates[k])
    decreases |dates| - j
  {
    if j < |dates| {
      ScanLast(Advance(previous, dates[j]), dates, j + 1);
    }
  }

  /** Without a previous date, the first line with a date is reported. */
  lemma FirstDatedLineReported(dates: seq<Option<string>>, j: nat)
    requires j < |dates| && dates[j].Some? && ScanReadable(None, dates, j)
    ensures |ScanFrom(None, dates, j).reports| > 0 && ScanFrom(None, dates, j).reports[0] == j
  {
  }

  /** A line starting with white space has the empty date. */
  lemma BlankLineDate(line: string)
    requires |line| > 0 && IsRegexSpace(line[0]) && !AllRegexSpace(line)
    ensures LineDate(line) == Some("")
  {
    SplitOnSpacesFirst(line);
    SplitOnSpacesEmptyIff(line);
    assert SpaceFrom(line, 0) == Some(0);
  }

  /** A line with the empty date is reported, and the empty date becomes the previous date. */
  lemma BlankDateReported(previous: Option<string>, dates: seq<Option<string>>, j: nat)
    requires j < |dates| && dates[j] == Some("") && ScanReadable(previous, dates, j)
    ensures var r := ScanFrom(previous, dates, j).reports; |r| > 0 && r[0] == j
  {
  }

  /** Lines whose dates are set, well formed and never later than the date before them (the
      first one no later than the previous date) are not reported. */
  lemma {:induction false} OrderedNotReported(previous: string, dates: seq<Option<string>>, j: nat)
    requires j <= |dates| && previous != "" && WellFormedDate(previous)
    requires forall k | j <= k < |dates| :: dates[k].Some? && dates[k].value != "" && WellFormedDate(dates[k].value)
    requires j < |dates| ==> DateKey(dates[j].value) <= DateKey(previous)
    requires forall k | j <= k < |dates| - 1 :: DateKey(dates[k + 1].value) <= DateKey(dates[k].value)
    ensures ScanReadable(Some(previous), dates, j)
    ensures ScanFrom(Some(previous), dates, j).reports == []
    decreases |dates| - j
  {
    if j < |dates| {
      var d := dates[j].value;
      OrderedNotReported(d, dates, j + 1);
      InOrderIff(d, previous);
    }
  }

  /** The commit order check over result files, with the previous date that main keeps. */
  class OrderCheck {
    var previousCommitDate: Option<string>

    constructor()
      ensures previousCommitDate == None
    {
      previousCommitDate := None;
    }

    /** The loop of main over one result file's lines: the first line holds the column titles
        and is skipped; the reported lines are returned. */
    method CheckFile(content: seq<string>) returns (reports: seq<nat>)
      requires |content| > 0 ==> ScanReadable(previousCommitDate, LineDates(content), 1)
      modifies this
      ensures |content| == 0 ==> reports == [] && previousCommitDate == old(previousCommitDate)
      ensures |content| > 0 ==>
        && reports == ScanFrom(old(previousCommitDate), LineDates(content), 1).reports
        && previousCommitDate == ScanFrom(old(previousCommitDate), LineDates(content), 1).last
    {
      reports := [];
      if |content| > 0 {
        ghost var dates := LineDates(content);
        ghost var scan := ScanFrom(previousCommitDate, dates, 1);
        var j := 1;
        while j < |content|
          invariant 1 <= j <= |content|
          invariant ScanProgress(previousCommitDate, reports, dates, j, scan)
        {
          reports := CheckRound(content, j, dates, scan, reports);
          j := j + 1;
        }
      }
    }

    /** One round of main's loop, line `j`: the line is checked and, when reported, added to the
        reported lines; the scan from the next line on then completes the whole scan. */
    method CheckRound(content: seq<string>, j: nat, ghost dates: seq<Option<string>>, ghost scan: Scan,
                      done: seq<nat>) returns (reports: seq<nat>)
      requires j < |content| && dates == LineDates(content)
      requires ScanProgress(previousCommitDate, done, dates, j, scan)
      modifies this
      ensures ScanProgress(previousCommitDate, reports, dates, j + 1, scan)
    {
      ScanAdvance(previousCommitDate, done, dates, j, scan);
      var reported := CheckLine(content[j], dates[j]);
      reports := done;
      if reported {
        reports := reports + [j];
      }
    }

    /** The body of main's loop for one line: a line whose split gives a first part is checked
        against the previous date, and that part becomes the previous date. */
    method CheckLine(fileContentLine: string, ghost date: Option<string>) returns (reported: bool)
      requires date == LineDate(fileContentLine) && StepReadable(previousCommitDate, date)
      modifies this
      ensures reported == Reported(old(previousCommitDate), date)
      ensures previousCommitDate == Advance(old(previousCommitDate), date)
    {
      reported := false;
      var splittedFileContentLine := SplitOnSpaces(fileContentLine);
      if |splittedFileContentLine| > 0 {
        var commitDate := splittedFileContentLine[0];
        var inOrder := CheckCommitOrder(commitDate, previousCommitDate);
        if !inOrder {
          reported := true;
        }
        previousCommitDate := Some(commitDate);
      }
    }
  }
}
