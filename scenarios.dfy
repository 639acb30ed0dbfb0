/**
 * Concrete parses against a two-family sample catalog: a correct request, a
 * series from the wrong family, a short title, an unknown pay grade, empty
 * codes, blank text and the 100-character boundary.
 */
module Scenarios {
  import opened Wrappers
  import opened JsText
  import opened OpmCatalog
  import opened Validation
  import opened ValidationProperties

  function SampleSeries(code: string): seq<SeriesEntry>
  {
    if code == "0200" then [SeriesEntry("0201", "Human Resources Management", "0200")]
    else if code == "2200" then [SeriesEntry("2210", "Information Technology Management", "2200")]
    else []
  }

  const Sample := Catalog(
    [OccupationalGroup("0200", "Human Resources Management"),
     OccupationalGroup("2200", "Information Technology")],
    SampleSeries)

  /** The sample satisfies the catalog's expected shape. */
  lemma SampleWellFormed()
    ensures WellFormed(Sample)
  {
    SampleCodes();
    forall code | code !in JobFamilyCodes(Sample) ensures Sample.seriesByGroup(code) == [] {
    }
    forall code, e | e in Sample.seriesByGroup(code) ensures e.groupCode == code {
    }
    forall g1, g2, e1, e2 |
      e1 in Sample.seriesByGroup(g1) && e2 in Sample.seriesByGroup(g2) && e1.code == e2.code
      ensures g1 == g2
    {
    }
  }

  function Request(title: string, department: string, grade: string, family: string, series: string): Candidate
  {
    Candidate(Str(title), Str(department), Str(grade), Str(family), Str(series))
  }

  /*
   * Each scenario is stated for any set of message texts, and so holds for
   * the form schema and for the API schema alike.
   */

  /** The codes of the sample, as the schemas look them up. */
  lemma SampleCodes()
    ensures JobFamilyCodes(Sample) == ["0200", "2200"]
    ensures SeriesCodesFor(Sample, "0200") == ["0201"]
    ensures SeriesCodesFor(Sample, "2200") == ["2210"]
    ensures "" !in JobFamilyCodes(Sample) && "9999" !in JobFamilyCodes(Sample)
    ensures SeriesCodesFor(Sample, "9999") == []
  {
  }

  /** The grades the scenarios submit: "GS-12" is listed and "GS-99" is not. */
  lemma SampleGrades()
    ensures "GS-12" in PayScaleGrades
    ensures "GS-99" !in PayScaleGrades
  {
    assert PayScaleGrades[11] == "GS-12";
  }

  /** What `trim` makes of the texts the scenarios submit. */
  lemma SampleTrims()
    ensures Trim("Dev") == "Dev" && Trim("Eng") == "Eng"
    ensures Trim("   ") == ""
  {
    TrimOfTrimmed("Dev");
    TrimOfTrimmed("Eng");
    assert TrimStart("   ") == TrimStart("  ") == TrimStart(" ") == "";
  }

  /** A correct request passes unchanged. */
  lemma CorrectRequestAccepted(m: Messages)
    ensures Validate(Request("Dev", "Eng", "GS-12", "2200", "2210"), Sample, m) ==
      Success(PositionRequest("Dev", "Eng", "GS-12", "2200", "2210"))
  {
    var c := Request("Dev", "Eng", "GS-12", "2200", "2210");
    SampleCodes();
    SampleGrades();
    SampleTrims();
    assert Acceptable(c, Sample);
  }

  /** A series of another family is reported on `series` alone. */
  lemma ForeignSeriesRejected(m: Messages)
    ensures Validate(Request("Dev", "Eng", "GS-12", "2200", "0201"), Sample, m) ==
      Failure([Issue(Series, m.seriesMismatch)])
  {
    var c := Request("Dev", "Eng", "GS-12", "2200", "0201");
    SampleCodes();
    SampleGrades();
    IssuesOfValidate(c, Sample, m);
    assert TitleCheck(c, m).issues == [];
    assert DepartmentCheck(c, m).issues == [];
    assert GradeCheck(c, m).issues == [];
    assert FamilyCheck(c, Sample, m).issues == [];
    assert SeriesCheck(c, m).issues == [];
    assert RefinementIssues(c, Sample, m) == [Issue(Series, m.seriesMismatch)];
    assert IssuesOf(Validate(c, Sample, m)) == [Issue(Series, m.seriesMismatch)];
  }

  /** A two-character title draws the length issue and nothing else. */
  lemma ShortTitleRejected(m: Messages)
    ensures Validate(Request("ab", "Eng", "GS-12", "2200", "2210"), Sample, m) ==
      Failure([Issue(JobTitle, m.titleTooShort)])
  {
    var c := Request("ab", "Eng", "GS-12", "2200", "2210");
    SampleCodes();
    SampleGrades();
    assert TitleCheck(c, m).issues == [Issue(JobTitle, m.titleTooShort)];
    assert DepartmentCheck(c, m).issues == [];
    assert GradeCheck(c, m).issues == [];
    assert FamilyCheck(c, Sample, m).issues == [];
    assert SeriesCheck(c, m).issues == [];
    assert FieldIssues(c, Sample, m) == [Issue(JobTitle, m.titleTooShort)];
    assert RefinementIssues(c, Sample, m) == [];
    assert FieldIssues(c, Sample, m) + RefinementIssues(c, Sample, m) == [Issue(JobTitle, m.titleTooShort)];
  }

  /** An unlisted pay grade draws one issue, and the aborted field skips the cross-check. */
  lemma UnknownGradeRejected(m: Messages)
    ensures Validate(Request("Dev", "Eng", "GS-99", "2200", "0201"), Sample, m) ==
      Failure([Issue(PayScaleGrade, m.gradeInvalid)])
  {
    var c := Request("Dev", "Eng", "GS-99", "2200", "0201");
    SampleCodes();
    SampleGrades();
    assert TitleCheck(c, m).issues == [];
    assert DepartmentCheck(c, m).issues == [];
    assert GradeCheck(c, m).issues == [Issue(PayScaleGrade, m.gradeInvalid)];
    assert FamilyCheck(c, Sample, m).issues == [];
    assert SeriesCheck(c, m).issues == [];
    assert FieldIssues(c, Sample, m) == [Issue(PayScaleGrade, m.gradeInvalid)];
    assert RefinementIssues(c, Sample, m) == [];
    assert FieldIssues(c, Sample, m) + RefinementIssues(c, Sample, m) == [Issue(PayScaleGrade, m.gradeInvalid)];
  }

  /**
   * Empty family and series: `jobFamily` draws both its issues, `series` its
   * "required" issue, and the cross-check is skipped.
   */
  lemma EmptyCodesRejected(m: Messages)
    ensures Validate(Request("Dev", "Eng", "GS-12", "", ""), Sample, m) ==
      Failure([Issue(JobFamily, m.familyRequired), Issue(JobFamily, m.familyUnknown),
               Issue(Series, m.seriesRequired)])
  {
    var c := Request("Dev", "Eng", "GS-12", "", "");
    var expected := [Issue(JobFamily, m.familyRequired), Issue(JobFamily, m.familyUnknown),
                     Issue(Series, m.seriesRequired)];
    SampleCodes();
    SampleGrades();
    assert TitleCheck(c, m).issues == [];
    assert DepartmentCheck(c, m).issues == [];
    assert GradeCheck(c, m).issues == [];
    assert FamilyCheck(c, Sample, m) ==
      Parsed("", [Issue(JobFamily, m.familyRequired), Issue(JobFamily, m.familyUnknown)]);
    assert SeriesCheck(c, m) == Parsed("", [Issue(Series, m.seriesRequired)]);
    assert FieldIssues(c, Sample, m) == expected;
    assert RefinementIssues(c, Sample, m) == [];
    assert FieldIssues(c, Sample, m) + RefinementIssues(c, Sample, m) == expected;
  }

  /** A non-empty unknown family draws a family issue and a series issue. */
  lemma UnknownFamilyRejected(m: Messages)
    ensures Validate(Request("Dev", "Eng", "GS-12", "9999", "2210"), Sample, m) ==
      Failure([Issue(JobFamily, m.familyUnknown), Issue(Series, m.seriesMismatch)])
  {
    var c := Request("Dev", "Eng", "GS-12", "9999", "2210");
    SampleCodes();
    SampleGrades();
    IssuesOfValidate(c, Sample, m);
    assert TitleCheck(c, m).issues == [];
    assert DepartmentCheck(c, m).issues == [];
    assert GradeCheck(c, m).issues == [];
    assert FamilyCheck(c, Sample, m).issues == [Issue(JobFamily, m.familyUnknown)];
    assert SeriesCheck(c, m).issues == [];
    assert RefinementIssues(c, Sample, m) == [Issue(Series, m.seriesMismatch)];
    assert IssuesOf(Validate(c, Sample, m)) ==
      [Issue(JobFamily, m.familyUnknown), Issue(Series, m.seriesMismatch)];
  }

  /** A title of three spaces is long enough to pass, and comes out empty. */
  lemma BlankTitleAccepted(m: Messages)
    ensures Validate(Request("   ", "Eng", "GS-12", "2200", "2210"), Sample, m) ==
      Success(PositionRequest("", "Eng", "GS-12", "2200", "2210"))
  {
    SampleCodes();
    SampleGrades();
    var c := Request("   ", "Eng", "GS-12", "2200", "2210");
    SampleTrims();
    assert Acceptable(c, Sample);
  }

  /** The empty title that request carries fails when it is submitted again. */
  lemma EmptyTitleRejected(m: Messages)
    ensures Validate(Request("", "Eng", "GS-12", "2200", "2210"), Sample, m) ==
      Failure([Issue(JobTitle, m.titleRequired), Issue(JobTitle, m.titleTooShort)])
  {
    SampleCodes();
    SampleGrades();
    var e := Request("", "Eng", "GS-12", "2200", "2210");
    assert TitleCheck(e, m).issues == [Issue(JobTitle, m.titleRequired), Issue(JobTitle, m.titleTooShort)];
    assert DepartmentCheck(e, m).issues == [];
    assert GradeCheck(e, m).issues == [];
    assert FamilyCheck(e, Sample, m).issues == [];
    assert SeriesCheck(e, m).issues == [];
    assert FieldIssues(e, Sample, m) == [Issue(JobTitle, m.titleRequired), Issue(JobTitle, m.titleTooShort)];
    assert RefinementIssues(e, Sample, m) == [];
    assert FieldIssues(e, Sample, m) + RefinementIssues(e, Sample, m) == [Issue(JobTitle, m.titleRequired), Issue(JobTitle, m.titleTooShort)];
  }

  /** 100 characters is still accepted; 101 draws the "less than 100" issue. */
  lemma HundredCharactersIsTheLimit(m: Messages)
    ensures Validate(Request(seq(100, _ => 'a'), "Eng", "GS-12", "2200", "2210"), Sample, m).Success?
    ensures Validate(Request(seq(101, _ => 'a'), "Eng", "GS-12", "2200", "2210"), Sample, m) ==
      Failure([Issue(JobTitle, m.titleTooLong)])
  {
    SampleCodes();
    SampleGrades();
    var c := Request(seq(100, _ => 'a'), "Eng", "GS-12", "2200", "2210");
    assert Acceptable(c, Sample);
    var e := Request(seq(101, _ => 'a'), "Eng", "GS-12", "2200", "2210");
    assert TitleCheck(e, m).issues == [Issue(JobTitle, m.titleTooLong)];
    assert DepartmentCheck(e, m).issues == [];
    assert GradeCheck(e, m).issues == [];
    assert FamilyCheck(e, Sample, m).issues == [];
    assert SeriesCheck(e, m).issues == [];
    assert FieldIssues(e, Sample, m) == [Issue(JobTitle, m.titleTooLong)];
    assert RefinementIssues(e, Sample, m) == [];
    assert FieldIssues(e, Sample, m) + RefinementIssues(e, Sample, m) == [Issue(JobTitle, m.titleTooLong)];
  }
}
