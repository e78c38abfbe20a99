/**
 * `DataCleaner`: one cleaning rule set per OULAD table.  Each rule set is a
 * function over the table's rows (`XCleaned`) and a method (`CleanX`) that
 * rebinds `df` step by step as the cleaner does, proved to compute it.
 * Nullable cells are `Option`s.
 */
module Cleaner {
  import opened Wrappers
  import opened Seqs
  import Text
  import GroupSum

  // ---------------------------------------------------------------- courses

  datatype Course = Course(codeModule: string, codePresentation: string, length: Option<int>)

  /** `df['length'] > 0`; a null length compares false. */
  function HasPositiveLength(c: Course): bool {
    c.length.Some? && c.length.value > 0
  }

  /** drop_duplicates, then keep the rows whose length is positive. */
  function CoursesCleaned(df: seq<Course>): (r: seq<Course>)
    ensures forall i :: 0 <= i < |r| ==> r[i].length.Some? && r[i].length.value > 0
    ensures NoDups(r)
  {
    FilterOfDistinct(HasPositiveLength, Dedup(df));
    Filter(HasPositiveLength, Dedup(df))
  }

  method CleanCourses(df: seq<Course>) returns (r: seq<Course>)
    ensures r == CoursesCleaned(df)
  {
    r := DropDuplicates(df);
    r := FilterRows(HasPositiveLength, r);
  }

  /**
   * A course row is kept exactly when its length is positive; rows with a
   * non-positive or null length are dropped, not repaired, and every kept
   * row is an input row, unchanged.
   */
  lemma CoursesCleanedKeeps(df: seq<Course>)
    ensures forall i :: 0 <= i < |df| ==> (df[i] in CoursesCleaned(df) <==> HasPositiveLength(df[i]))
    ensures forall j :: 0 <= j < |CoursesCleaned(df)| ==> CoursesCleaned(df)[j] in df
  {
    var d := Dedup(df);
    forall i | 0 <= i < |df| ensures df[i] in CoursesCleaned(df) <==> HasPositiveLength(df[i]) {
      assert df[i] in d;
    }
    forall j | 0 <= j < |CoursesCleaned(df)| ensures CoursesCleaned(df)[j] in df {
      assert CoursesCleaned(df)[j] in d;
    }
  }

  /** Cleaning the courses table twice is cleaning it once. */
  lemma CoursesCleanedIdempotent(df: seq<Course>)
    ensures CoursesCleaned(CoursesCleaned(df)) == CoursesCleaned(df)
  {
    var r := CoursesCleaned(df);
    DedupOfDistinct(r);
    FilterIdempotent(HasPositiveLength, Dedup(df));
  }

  /** `{length: -1}, {length: 30}` cleans to the second row alone. */
  lemma CoursesScenario()
    ensures CoursesCleaned([Course("AAA", "2013J", Some(-1)), Course("AAA", "2013J", Some(30))])
         == [Course("AAA", "2013J", Some(30))]
  {
    var a := Course("AAA", "2013J", Some(-1));
    var b := Course("AAA", "2013J", Some(30));
    assert [a, b][..1] == [a];
    assert Dedup([a]) == [a];
    assert Dedup([a, b]) == [a, b];
    assert Filter(HasPositiveLength, [a]) == [];
    assert [a, b][..1] == [a];
  }

  // ------------------------------------------------------------ assessments

  datatype Assessment = Assessment(
    codeModule: string, codePresentation: string, idAssessment: int,
    assessmentType: Option<string>, date: Option<int>, weight: int)

  /** The date given to an assessment with no date: the end of the course. */
  const EndOfCourse := 999

  /** `df['date'].fillna(999)` on one row. */
  function FillDate(a: Assessment): Assessment {
    a.(date := Some(a.date.GetOr(EndOfCourse)))
  }

  /** `df['weight'] >= 0`. */
  function NonNegativeWeight(a: Assessment): bool { a.weight >= 0 }

  /** drop_duplicates, fill the missing dates, keep the rows of non-negative weight. */
  function AssessmentsCleaned(df: seq<Assessment>): (r: seq<Assessment>)
    ensures forall i :: 0 <= i < |r| ==> r[i].date.Some? && r[i].weight >= 0
  {
    Filter(NonNegativeWeight, Map(FillDate, Dedup(df)))
  }

  method CleanAssessments(df: seq<Assessment>) returns (r: seq<Assessment>)
    ensures r == AssessmentsCleaned(df)
  {
    r := DropDuplicates(df);
    r := MapRows(FillDate, r);
    r := FilterRows(NonNegativeWeight, r);
  }

  /**
   * Every input row of non-negative weight is in the output with its date
   * filled: 999 for a null date, its own date otherwise.
   */
  lemma AssessmentsCleanedKeeps(df: seq<Assessment>)
    ensures forall i :: 0 <= i < |df| && df[i].weight >= 0 ==>
      df[i].(date := Some(if df[i].date.None? then 999 else df[i].date.value)) in AssessmentsCleaned(df)
  {
    var d := Dedup(df);
    var m := Map(FillDate, d);
    forall i | 0 <= i < |df| && df[i].weight >= 0 ensures FillDate(df[i]) in AssessmentsCleaned(df) {
      assert df[i] in d;
      var k :| 0 <= k < |d| && d[k] == df[i];
      assert m[k] == FillDate(df[i]);
    }
  }

  /** Filling the date of a row twice is filling it once. */
  lemma FillDateIdempotent(a: Assessment)
    ensures FillDate(FillDate(a)) == FillDate(a)
  {
  }

  /**
   * drop_duplicates runs before the date is filled, so a null date and an
   * explicit 999 end up as two equal rows, which a second cleaning merges:
   * the assessments cleaner is not idempotent as a whole.
   */
  lemma AssessmentsCleanedNotIdempotent()
    ensures var df := [Assessment("AAA", "2013J", 1752, Some("TMA"), None, 10),
                       Assessment("AAA", "2013J", 1752, Some("TMA"), Some(999), 10)];
      AssessmentsCleaned(AssessmentsCleaned(df)) != AssessmentsCleaned(df)
  {
    var a := Assessment("AAA", "2013J", 1752, Some("TMA"), None, 10);
    var b := Assessment("AAA", "2013J", 1752, Some("TMA"), Some(999), 10);
    assert a != b && FillDate(a) == b && FillDate(b) == b;
    CleanedPair(a, b);
    CleanedPair(b, b);
  }

  /** Two rows of non-negative weight that fill to the same row `b`. */
  lemma CleanedPair(a: Assessment, b: Assessment)
    requires FillDate(a) == FillDate(b) == b && b.weight >= 0
    ensures AssessmentsCleaned([a, b]) == if a == b then [b] else [b, b]
  {
    DedupOfTwo(a, b);
    KeepWeighted(b);
    if a == b {
      assert Map(FillDate, [b]) == [b];
    } else {
      assert Map(FillDate, [a, b]) == [b, b];
    }
  }

  /** Rows of non-negative weight all pass the weight filter. */
  lemma KeepWeighted(b: Assessment)
    requires b.weight >= 0
    ensures Filter(NonNegativeWeight, [b]) == [b]
    ensures Filter(NonNegativeWeight, [b, b]) == [b, b]
  {
    assert [b, b][..1] == [b] && [b][..0] == [];
  }

  /** `x` is an input row of non-negative weight with its date filled. */
  predicate FilledFrom(df: seq<Assessment>, x: Assessment) {
    exists i :: 0 <= i < |df| && df[i].weight >= 0 && x == FillDate(df[i])
  }

  /** Every output row is an input row of non-negative weight with its date filled. */
  lemma AssessmentsCleanedOnly(df: seq<Assessment>)
    ensures forall j :: 0 <= j < |AssessmentsCleaned(df)| ==> FilledFrom(df, AssessmentsCleaned(df)[j])
  {
    var d := Dedup(df);
    var m := Map(FillDate, d);
    var r := AssessmentsCleaned(df);
    forall j | 0 <= j < |r| ensures FilledFrom(df, r[j]) {
      assert r[j] in m;
      var k :| 0 <= k < |m| && m[k] == r[j];
      assert d[k] in df;
      var i :| 0 <= i < |df| && df[i] == d[k];
      assert NonNegativeWeight(r[j]);
    }
  }

  // -------------------------------------------------------------------- vle

  datatype Vle = Vle(
    idSite: int, codeModule: string, codePresentation: string,
    activityType: Option<string>, weekFrom: Option<int>, weekTo: Option<int>)

  /** `week_from.fillna(0)`, then `week_to.fillna(week_from)`. */
  function FillWeeks(v: Vle): Vle {
    var from := v.weekFrom.GetOr(0);
    v.(weekFrom := Some(from), weekTo := Some(v.weekTo.GetOr(from)))
  }

  /** `df.loc[week_to < week_from, 'week_to'] = week_from`. */
  function ClampWeekTo(v: Vle): Vle {
    if v.weekTo.Some? && v.weekFrom.Some? && v.weekTo.value < v.weekFrom.value
    then v.(weekTo := v.weekFrom) else v
  }

  /** The per-row effect of the vle cleaner. */
  function NormalizeWeeks(v: Vle): Vle { ClampWeekTo(FillWeeks(v)) }

  function VleCleaned(df: seq<Vle>): (r: seq<Vle>)
    ensures |r| <= |df|
  {
    Map(ClampWeekTo, Map(FillWeeks, Dedup(df)))
  }

  method CleanVle(df: seq<Vle>) returns (r: seq<Vle>)
    ensures r == VleCleaned(df)
  {
    r := DropDuplicates(df);
    r := MapRows(FillWeeks, r);
    r := MapRows(ClampWeekTo, r);
  }

  /**
   * One cleaned vle row: a null `week_from` becomes 0, a null `week_to`
   * becomes the row's `week_from`, a `week_to` below `week_from` is raised
   * to it, so `week_to >= week_from`; other columns are unchanged.
   */
  lemma NormalizeWeeksSpec(v: Vle)
    ensures var n := NormalizeWeeks(v);
      n.weekFrom == Some(if v.weekFrom.None? then 0 else v.weekFrom.value) &&
      n.weekTo.Some? && n.weekTo.value >= n.weekFrom.value &&
      (v.weekTo.Some? && v.weekTo.value >= n.weekFrom.value ==> n.weekTo == v.weekTo) &&
      (v.weekTo.None? ==> n.weekTo == n.weekFrom) &&
      (v.weekTo.Some? && v.weekTo.value < n.weekFrom.value ==> n.weekTo == n.weekFrom) &&
      n.idSite == v.idSite && n.codeModule == v.codeModule &&
      n.codePresentation == v.codePresentation && n.activityType == v.activityType
  {
  }

  /** Normalising the weeks of a row twice is normalising them once. */
  lemma NormalizeWeeksIdempotent(v: Vle)
    ensures NormalizeWeeks(NormalizeWeeks(v)) == NormalizeWeeks(v)
  {
  }

  /** The vle table is the normalised distinct rows, so every row has week_to >= week_from. */
  lemma VleCleanedRows(df: seq<Vle>)
    ensures |VleCleaned(df)| == |Dedup(df)|
    ensures forall i :: 0 <= i < |VleCleaned(df)| ==> VleCleaned(df)[i] == NormalizeWeeks(Dedup(df)[i])
    ensures forall i :: 0 <= i < |VleCleaned(df)| ==>
      VleCleaned(df)[i].weekFrom.Some? && VleCleaned(df)[i].weekTo.Some? &&
      VleCleaned(df)[i].weekTo.value >= VleCleaned(df)[i].weekFrom.value
  {
    var d := Dedup(df);
    var m := Map(FillWeeks, d);
    var r := VleCleaned(df);
    assert r == Map(ClampWeekTo, m);
    forall i | 0 <= i < |r|
      ensures r[i] == NormalizeWeeks(d[i])
      ensures r[i].weekFrom.Some? && r[i].weekTo.Some? && r[i].weekTo.value >= r[i].weekFrom.value
    {
      assert r[i] == ClampWeekTo(m[i]) && m[i] == FillWeeks(d[i]);
      NormalizeWeeksSpec(d[i]);
    }
  }

  /**
   * drop_duplicates runs before the weeks are filled, so a cleaned vle table
   * can hold two equal rows and cleaning it again removes one: the vle
   * cleaner is not idempotent as a whole.
   */
  lemma VleCleanedNotIdempotent()
    ensures var df := [Vle(1, "AAA", "2013J", Some("page"), None, Some(2)),
                       Vle(1, "AAA", "2013J", Some("page"), Some(0), Some(2))];
      VleCleaned(VleCleaned(df)) != VleCleaned(df)
  {
    var a := Vle(1, "AAA", "2013J", Some("page"), None, Some(2));
    var b := Vle(1, "AAA", "2013J", Some("page"), Some(0), Some(2));
    var n := Vle(1, "AAA", "2013J", Some("page"), Some(0), Some(2));
    DedupOfTwo(a, b);
    VleCleanedRows([a, b]);
    assert VleCleaned([a, b]) == [n, n] by {
      assert NormalizeWeeks(a) == n && NormalizeWeeks(b) == n;
    }
    DedupOfTwo(n, n);
    VleCleanedRows([n, n]);
  }

  // ----------------------------------------------------------- student_info

  datatype StudentInfo = StudentInfo(
    codeModule: string, codePresentation: string, idStudent: int,
    gender: Option<string>, region: Option<string>, highestEducation: Option<string>,
    imdBand: Option<string>, ageBand: Option<string>,
    numOfPrevAttempts: Option<int>, studiedCredits: Option<int>,
    disability: Option<string>, finalResult: Option<string>)

  /** The seven text columns the cleaner loops over. */
  datatype TextColumn = Gender | Region | HighestEducation | ImdBand | AgeBand | Disability | FinalResult

  const TextColumns: seq<TextColumn> :=
    [Gender, Region, HighestEducation, ImdBand, AgeBand, Disability, FinalResult]

  /** The position of a column in the loop. */
  function ColumnIndex(c: TextColumn): (i: nat)
    ensures i < |TextColumns| && TextColumns[i] == c
    ensures forall j :: 0 <= j < |TextColumns| && TextColumns[j] == c ==> j == i
  {
    match c
    case Gender => 0
    case Region => 1
    case HighestEducation => 2
    case ImdBand => 3
    case AgeBand => 4
    case Disability => 5
    case FinalResult => 6
  }

  /** The sentinel for a null text value. */
  const UnknownText := "Unknown"

  function Get(s: StudentInfo, c: TextColumn): Option<string> {
    match c
    case Gender => s.gender
    case Region => s.region
    case HighestEducation => s.highestEducation
    case ImdBand => s.imdBand
    case AgeBand => s.ageBand
    case Disability => s.disability
    case FinalResult => s.finalResult
  }

  function Set(s: StudentInfo, c: TextColumn, v: Option<string>): (r: StudentInfo)
    ensures Get(r, c) == v
    ensures forall c' :: c' != c ==> Get(r, c') == Get(s, c')
    ensures r.codeModule == s.codeModule && r.codePresentation == s.codePresentation
    ensures r.idStudent == s.idStudent
    ensures r.numOfPrevAttempts == s.numOfPrevAttempts && r.studiedCredits == s.studiedCredits
  {
    match c
    case Gender => s.(gender := v)
    case Region => s.(region := v)
    case HighestEducation => s.(highestEducation := v)
    case ImdBand => s.(imdBand := v)
    case AgeBand => s.(ageBand := v)
    case Disability => s.(disability := v)
    case FinalResult => s.(finalResult := v)
  }

  /** `num_of_prev_attempts` and `studied_credits`: `fillna(0)`. */
  function FillCounts(s: StudentInfo): StudentInfo {
    s.(numOfPrevAttempts := Some(s.numOfPrevAttempts.GetOr(0)),
       studiedCredits := Some(s.studiedCredits.GetOr(0)))
  }

  /** `df[col] = df[col].fillna('Unknown')`. */
  function FillUnknown(s: StudentInfo, c: TextColumn): StudentInfo {
    Set(s, c, Some(Get(s, c).GetOr(UnknownText)))
  }

  /** `df[col] = df[col].str.strip()`; a null stays null. */
  function StripColumn(s: StudentInfo, c: TextColumn): StudentInfo {
    Set(s, c, if Get(s, c).Some? then Some(Text.Strip(Get(s, c).value)) else None)
  }

  /** The row after the first `k` passes of the text-column loop. */
  function CleanTexts(s: StudentInfo, k: nat): StudentInfo
    requires k <= |TextColumns|
  {
    if k == 0 then s
    else StripColumn(FillUnknown(CleanTexts(s, k - 1), TextColumns[k - 1]), TextColumns[k - 1])
  }

  /** `replace({'Y': 'Yes', 'N': 'No'})`: exact matches only. */
  function DisabilityCode(v: Option<string>): (r: Option<string>)
    ensures r.Some? <==> v.Some?
  {
    if v == Some("Y") then Some("Yes") else if v == Some("N") then Some("No") else v
  }

  function NormalizeDisability(s: StudentInfo): StudentInfo {
    s.(disability := DisabilityCode(s.disability))
  }

  /** The per-row effect of the student_info cleaner. */
  function NormalizeInfo(s: StudentInfo): StudentInfo {
    NormalizeDisability(CleanTexts(FillCounts(s), |TextColumns|))
  }

  function StudentInfoCleaned(df: seq<StudentInfo>): (r: seq<StudentInfo>)
    ensures |r| <= |df|
  {
    Map(NormalizeInfo, Dedup(df))
  }

  method CleanStudentInfo(df: seq<StudentInfo>) returns (r: seq<StudentInfo>)
    ensures r == StudentInfoCleaned(df)
  {
    var d := DropDuplicates(df);
    d := MapRows(FillCounts, d);
    d := CleanTextColumns(d);
    r := MapRows(NormalizeDisability, d);
    assert forall i :: 0 <= i < |r| ==> r[i] == NormalizeInfo(Dedup(df)[i]);
  }

  /** `for col in text_columns: df[col] = df[col].fillna('Unknown'); df[col] = df[col].str.strip()`. */
  method CleanTextColumns(df: seq<StudentInfo>) returns (d: seq<StudentInfo>)
    ensures |d| == |df|
    ensures forall i :: 0 <= i < |d| ==> d[i] == CleanTexts(df[i], |TextColumns|)
  {
    d := df;
    for k := 0 to |TextColumns|
      invariant |d| == |df|
      invariant forall i :: 0 <= i < |d| ==> d[i] == CleanTexts(df[i], k)
    {
      d := FillAndStripColumn(d, TextColumns[k]);
    }
  }

  /** One pass of the text loop over column `col`. */
  method FillAndStripColumn(df: seq<StudentInfo>, col: TextColumn) returns (d: seq<StudentInfo>)
    ensures |d| == |df|
    ensures forall i :: 0 <= i < |d| ==> d[i] == StripColumn(FillUnknown(df[i], col), col)
  {
    d := MapRows((s: StudentInfo) => FillUnknown(s, col), df);
    d := MapRows((s: StudentInfo) => StripColumn(s, col), d);
  }

  /** What the first `k` passes of the text loop do to one column. */
  lemma {:induction false} CleanTextsColumn(s: StudentInfo, k: nat, c: TextColumn)
    requires k <= |TextColumns|
    ensures Get(CleanTexts(s, k), c) ==
      if ColumnIndex(c) < k then Some(Text.Strip(Get(s, c).GetOr(UnknownText))) else Get(s, c)
  {
    if k > 0 {
      CleanTextsColumn(s, k - 1, c);
      CleanTextsStep(CleanTexts(s, k - 1), TextColumns[k - 1], c);
      assert TextColumns[k - 1] == c <==> ColumnIndex(c) == k - 1;
    }
  }

  /** One pass of the text loop, on column `col`, seen from column `c`. */
  lemma CleanTextsStep(s: StudentInfo, col: TextColumn, c: TextColumn)
    ensures Get(StripColumn(FillUnknown(s, col), col), c) ==
      if col == c then Some(Text.Strip(Get(s, c).GetOr(UnknownText))) else Get(s, c)
  {
    var filled := FillUnknown(s, col);
    if col == c {
      assert Get(filled, c) == Some(Get(s, c).GetOr(UnknownText));
    } else {
      assert Get(filled, c) == Get(s, c);
    }
  }

  /** The text loop leaves the other columns alone. */
  lemma {:induction false} CleanTextsOthers(s: StudentInfo, k: nat)
    requires k <= |TextColumns|
    ensures CleanTexts(s, k).codeModule == s.codeModule
    ensures CleanTexts(s, k).codePresentation == s.codePresentation
    ensures CleanTexts(s, k).idStudent == s.idStudent
    ensures CleanTexts(s, k).numOfPrevAttempts == s.numOfPrevAttempts
    ensures CleanTexts(s, k).studiedCredits == s.studiedCredits
  {
    if k > 0 {
      CleanTextsOthers(s, k - 1);
    }
  }

  /** The value one text column of a student_info row is cleaned to. */
  function CleanedText(c: TextColumn, v: Option<string>): string {
    var t := Text.Strip(v.GetOr(UnknownText));
    if c == Disability then DisabilityCode(Some(t)).value else t
  }

  /**
   * One cleaned student_info row: null counts become 0; every text column is
   * its value with null replaced by "Unknown" and then stripped; disability
   * "Y"/"N" (after stripping) become "Yes"/"No"; the key columns are unchanged.
   */
  lemma NormalizeInfoSpec(s: StudentInfo)
    ensures forall c :: Get(NormalizeInfo(s), c) == Some(CleanedText(c, Get(s, c)))
    ensures NormalizeInfo(s).numOfPrevAttempts == Some(s.numOfPrevAttempts.GetOr(0))
    ensures NormalizeInfo(s).studiedCredits == Some(s.studiedCredits.GetOr(0))
    ensures NormalizeInfo(s).codeModule == s.codeModule
    ensures NormalizeInfo(s).codePresentation == s.codePresentation
    ensures NormalizeInfo(s).idStudent == s.idStudent
  {
    var f := FillCounts(s);
    forall c ensures Get(NormalizeInfo(s), c) == Some(CleanedText(c, Get(s, c))) {
      CleanTextsColumn(f, |TextColumns|, c);
      assert Get(f, c) == Get(s, c);
    }
    CleanTextsOthers(f, |TextColumns|);
  }

  /** The raw disability code `"Y"` is cleaned to `"Yes"`. */
  lemma DisabilityYesCleaned(s: StudentInfo)
    requires s.disability == Some("Y")
    ensures NormalizeInfo(s).disability == Some("Yes")
  {
    NormalizeInfoSpec(s);
    assert Get(NormalizeInfo(s), Disability) == Some(CleanedText(Disability, Some("Y")));
    Text.StripOfStripped("Y");
  }

  /** A cleaned text value has no whitespace at either end. */
  lemma CleanedTextStripped(c: TextColumn, v: Option<string>)
    ensures Text.Strip(CleanedText(c, v)) == CleanedText(c, v)
    ensures CleanedText(c, Some(CleanedText(c, v))) == CleanedText(c, v)
  {
    var t := Text.Strip(v.GetOr(UnknownText));
    Text.StripIdempotent(v.GetOr(UnknownText));
    if c == Disability {
      DisabilityCodeStable(t);
    }
  }

  /** Recoding a stripped disability value gives a stripped value that recodes to itself. */
  lemma DisabilityCodeStable(t: string)
    requires Text.Strip(t) == t
    ensures Text.Strip(DisabilityCode(Some(t)).value) == DisabilityCode(Some(t)).value
    ensures DisabilityCode(Some(DisabilityCode(Some(t)).value)) == DisabilityCode(Some(t))
  {
    if t == "Y" {
      Text.StripOfStripped("Yes");
    } else if t == "N" {
      Text.StripOfStripped("No");
    }
  }

  /** Cleaning a student_info row twice is cleaning it once. */
  lemma NormalizeInfoIdempotent(s: StudentInfo)
    ensures NormalizeInfo(NormalizeInfo(s)) == NormalizeInfo(s)
  {
    var n := NormalizeInfo(s);
    NormalizeInfoSpec(s);
    NormalizeInfoSpec(n);
    forall c ensures Get(NormalizeInfo(n), c) == Get(n, c) {
      CleanedTextStripped(c, Get(s, c));
    }
    var m := NormalizeInfo(n);
    assert Get(m, Gender) == Get(n, Gender) && Get(m, Region) == Get(n, Region);
    assert Get(m, HighestEducation) == Get(n, HighestEducation) && Get(m, ImdBand) == Get(n, ImdBand);
    assert Get(m, AgeBand) == Get(n, AgeBand) && Get(m, Disability) == Get(n, Disability);
    assert Get(m, FinalResult) == Get(n, FinalResult);
  }

  // --------------------------------------------------- student_registration

  /** A `date_unregistration` cell: a number, a text (such as "?"), or null. */
  datatype Cell = Missing | Number(n: int) | Text(s: string)

  datatype Registration = Registration(
    codeModule: string, codePresentation: string, idStudent: int,
    dateRegistration: Option<int>, dateUnregistration: Cell)

  predicate IsDigit(c: char) { '0' <= c <= '9' }

  predicate AllDigits(s: string) { forall k :: 0 <= k < |s| ==> IsDigit(s[k]) }

  /** The text after an optional leading sign. */
  function Magnitude(s: string): string {
    if |s| > 0 && (s[0] == '-' || s[0] == '+') then s[1..] else s
  }

  /** A decimal integer literal with an optional sign. */
  predicate IsIntLiteral(s: string) {
    |Magnitude(s)| > 0 && AllDigits(Magnitude(s))
  }

  function DigitsValue(s: string): nat
    requires AllDigits(s)
  {
    if s == [] then 0
    else
      assert IsDigit(s[|s| - 1]);
      10 * DigitsValue(s[..|s| - 1]) + (s[|s| - 1] as int - '0' as int)
  }

  function ParseInt(s: string): int
    requires IsIntLiteral(s)
  {
    if s[0] == '-' then 0 - DigitsValue(Magnitude(s)) else DigitsValue(Magnitude(s))
  }

  /** `date_registration.fillna(0)`. */
  function FillRegistrationDate(r: Registration): Registration {
    r.(dateRegistration := Some(r.dateRegistration.GetOr(0)))
  }

  /** `date_unregistration.replace('?', NaN)`. */
  function ReplaceMarker(r: Registration): Registration {
    if r.dateUnregistration == Text("?") then r.(dateUnregistration := Missing) else r
  }

  /** `pd.to_numeric(date_unregistration, errors='coerce')`. */
  function ToNumeric(r: Registration): Registration {
    match r.dateUnregistration
    case Text(s) =>
      r.(dateUnregistration := if IsIntLiteral(s) then Number(ParseInt(s)) else Missing)
    case _ => r
  }

  /** The per-row effect of the registration cleaner. */
  function NormalizeRegistration(r: Registration): Registration {
    ToNumeric(ReplaceMarker(FillRegistrationDate(r)))
  }

  function RegistrationsCleaned(df: seq<Registration>): (r: seq<Registration>)
    ensures |r| == |Dedup(df)|
    ensures forall i :: 0 <= i < |r| ==> r[i] == NormalizeRegistration(Dedup(df)[i])
  {
    Map(ToNumeric, Map(ReplaceMarker, Map(FillRegistrationDate, Dedup(df))))
  }

  method CleanStudentRegistration(df: seq<Registration>) returns (r: seq<Registration>)
    ensures r == RegistrationsCleaned(df)
  {
    r := DropDuplicates(df);
    r := MapRows(FillRegistrationDate, r);
    r := MapRows(ReplaceMarker, r);
    r := MapRows(ToNumeric, r);
  }

  /**
   * A cleaned registration: a null registration date becomes 0; the
   * unregistration date ends up null or a number: numbers are kept, numeric
   * text is parsed, and "?" or any other text becomes null.
   */
  lemma NormalizeRegistrationSpec(d: Registration)
    ensures var r := NormalizeRegistration(d);
      r.dateRegistration == Some(d.dateRegistration.GetOr(0)) &&
      (r.dateUnregistration.Missing? || r.dateUnregistration.Number?) &&
      (d.dateUnregistration.Number? ==> r.dateUnregistration == d.dateUnregistration) &&
      (d.dateUnregistration.Missing? ==> r.dateUnregistration.Missing?) &&
      (d.dateUnregistration == Text("?") ==> r.dateUnregistration.Missing?) &&
      (d.dateUnregistration.Text? && !IsIntLiteral(d.dateUnregistration.s) ==> r.dateUnregistration.Missing?) &&
      (d.dateUnregistration.Text? && IsIntLiteral(d.dateUnregistration.s) && d.dateUnregistration.s != "?" ==>
         r.dateUnregistration == Number(ParseInt(d.dateUnregistration.s))) &&
      r.idStudent == d.idStudent && r.codeModule == d.codeModule && r.codePresentation == d.codePresentation
  {
  }

  /** Cleaning a registration row twice is cleaning it once. */
  lemma NormalizeRegistrationIdempotent(d: Registration)
    ensures NormalizeRegistration(NormalizeRegistration(d)) == NormalizeRegistration(d)
  {
  }

  /** The text "-12" is parsed to -12 and "?" is not numeric. */
  lemma ParseScenario()
    ensures IsIntLiteral("-12") && ParseInt("-12") == -12
    ensures !IsIntLiteral("?")
  {
    assert Magnitude("-12") == "12";
    assert "12"[..1] == "1" && "1"[..0] == "";
    assert DigitsValue("1") == 1;
    assert DigitsValue("12") == 12;
  }

  // ----------------------------------------------------- student_assessment

  datatype StudentAssessmentRaw = StudentAssessmentRaw(
    idAssessment: int, idStudent: int, dateSubmitted: Option<int>, isBanked: int, score: Option<int>)

  datatype StudentAssessment = StudentAssessment(
    idAssessment: int, idStudent: int, dateSubmitted: Option<int>, isBanked: bool, score: Option<int>)

  /** `is_banked.astype(int).astype(bool)`. */
  function CastBanked(a: StudentAssessmentRaw): StudentAssessment {
    StudentAssessment(a.idAssessment, a.idStudent, a.dateSubmitted, a.isBanked != 0, a.score)
  }

  /** `date_submitted.fillna(0)`. */
  function FillSubmitted(a: StudentAssessment): StudentAssessment {
    a.(dateSubmitted := Some(a.dateSubmitted.GetOr(0)))
  }

  /** `score.clip(0, 100)`; a null score stays null. */
  function ClipScore(a: StudentAssessment): StudentAssessment {
    match a.score
    case None => a
    case Some(x) => a.(score := Some(if x < 0 then 0 else if x > 100 then 100 else x))
  }

  function StudentAssessmentsCleaned(df: seq<StudentAssessmentRaw>): (r: seq<StudentAssessment>)
    ensures |r| <= |df|
  {
    Map(ClipScore, Map(FillSubmitted, Map(CastBanked, Dedup(df))))
  }

  method CleanStudentAssessment(df: seq<StudentAssessmentRaw>) returns (r: seq<StudentAssessment>)
    ensures r == StudentAssessmentsCleaned(df)
  {
    var d := DropDuplicates(df);
    r := MapRows(CastBanked, d);
    r := MapRows(FillSubmitted, r);
    r := MapRows(ClipScore, r);
  }

  /**
   * The cleaned scores are the distinct input rows with a present score
   * clamped into [0, 100] (in-range scores unchanged, null scores null), a
   * null submission date set to 0, and `is_banked` true exactly when the
   * input flag is non-zero.
   */
  lemma StudentAssessmentsCleanedRows(df: seq<StudentAssessmentRaw>)
    ensures |StudentAssessmentsCleaned(df)| == |Dedup(df)|
    ensures forall i :: 0 <= i < |StudentAssessmentsCleaned(df)| ==>
      var d := Dedup(df)[i];
      var r := StudentAssessmentsCleaned(df)[i];
      r.idAssessment == d.idAssessment && r.idStudent == d.idStudent &&
      (r.isBanked <==> d.isBanked != 0) &&
      r.dateSubmitted == Some(d.dateSubmitted.GetOr(0)) &&
      (d.score.None? <==> r.score.None?) &&
      (r.score.Some? ==> 0 <= r.score.value <= 100) &&
      (d.score.Some? && 0 <= d.score.value <= 100 ==> r.score == d.score) &&
      (d.score.Some? && d.score.value > 100 ==> r.score == Some(100)) &&
      (d.score.Some? && d.score.value < 0 ==> r.score == Some(0))
  {
  }

  /** Filling the submission date and clipping the score of a row twice is doing it once. */
  lemma ScoreRowIdempotent(a: StudentAssessment)
    ensures ClipScore(FillSubmitted(ClipScore(FillSubmitted(a)))) == ClipScore(FillSubmitted(a))
  {
  }

  /** A score of 105 is clamped to 100. */
  lemma ScoreScenario()
    ensures ClipScore(StudentAssessment(1752, 11391, Some(18), false, Some(105))).score == Some(100)
  {
  }

  // ------------------------------------------------------------ student_vle

  /** groupby-sum over the key, then keep the groups with a positive total. */
  method CleanStudentVle(df: seq<GroupSum.StudentVleRaw>) returns (r: seq<GroupSum.StudentVle>)
    ensures r == GroupSum.Aggregated(df)
  {
    var groups: seq<GroupSum.StudentVle> := [];
    for i := 0 to |df|
      invariant groups == GroupSum.Grouped(df[..i])
    {
      assert df[..i + 1][..i] == df[..i];
      match GroupSum.KeyOf(df[i])
      case None =>
      case Some(k) => groups := GroupSum.AddClicks(groups, k, GroupSum.Clicks(df[i]));
    }
    assert df[..|df|] == df;
    r := FilterRows(GroupSum.Positive, groups);
  }

  /** Two interaction rows of the same key, 3 and 4 clicks, aggregate to one row of 7. */
  lemma StudentVleScenario()
    ensures var k := GroupSum.VleKey(1, "AAA", "2013J", 5, 10);
      GroupSum.Aggregated([GroupSum.StudentVleRaw("AAA", "2013J", 1, 5, Some(10), Some(3)),
                           GroupSum.StudentVleRaw("AAA", "2013J", 1, 5, Some(10), Some(4))])
      == [GroupSum.StudentVle(k, 7)]
  {
    var a := GroupSum.StudentVleRaw("AAA", "2013J", 1, 5, Some(10), Some(3));
    var b := GroupSum.StudentVleRaw("AAA", "2013J", 1, 5, Some(10), Some(4));
    var k := GroupSum.VleKey(1, "AAA", "2013J", 5, 10);
    assert [a, b][..1] == [a];
    assert GroupSum.Grouped([a]) == [GroupSum.StudentVle(k, 3)];
    assert GroupSum.Grouped([a, b]) == [GroupSum.StudentVle(k, 7)];
    var g := [GroupSum.StudentVle(k, 7)];
    assert g[..0] == [];
    assert Filter(GroupSum.Positive, g) == g;
  }
}
