/**
 * What the schemas promise, stated on the issues of a parse: which field an
 * issue is attached to, when each rule fires, and that the form and the API
 * schema accept the same candidates.
 */
module ValidationProperties {
  import opened Wrappers
  import opened JsText
  import opened OpmCatalog
  import opened Validation

  lemma {:induction false} IssuesAtAppend(a: seq<Issue>, b: seq<Issue>, f: Field)
    ensures IssuesAt(a + b, f) == IssuesAt(a, f) + IssuesAt(b, f)
  {
    if a == [] {
      assert a + b == b;
    } else {
      var head := if a[0].path == f then [a[0]] else [];
      assert (a + b)[0] == a[0];
      assert (a + b)[1..] == a[1..] + b;
      calc {
        IssuesAt(a + b, f);
        head + IssuesAt(a[1..] + b, f);
        { IssuesAtAppend(a[1..], b, f); }
        head + (IssuesAt(a[1..], f) + IssuesAt(b, f));
        IssuesAt(a, f) + IssuesAt(b, f);
      }
    }
  }

  /** An issue is among those on `f` exactly when it is one of the issues and sits on `f`. */
  lemma {:induction false} IssuesAtMembers(issues: seq<Issue>, f: Field, x: Issue)
    ensures x in IssuesAt(issues, f) <==> x in issues && x.path == f
  {
    if issues != [] {
      IssuesAtMembers(issues[1..], f, x);
      assert issues == [issues[0]] + issues[1..];
    }
  }

  /** A list whose issues all sit on `f` is kept whole by `IssuesAt(_, f)` and dropped by any other field. */
  lemma {:induction false} IssuesAtUniform(a: seq<Issue>, f: Field, g: Field)
    requires forall i :: 0 <= i < |a| ==> a[i].path == f
    ensures IssuesAt(a, g) == if f == g then a else []
  {
    if a != [] {
      IssuesAtUniform(a[1..], f, g);
    }
  }

  lemma {:induction false} PathsAppend(a: seq<Issue>, b: seq<Issue>)
    ensures Paths(a + b) == Paths(a) + Paths(b)
  {
    if a == [] {
      assert a + b == b;
    } else {
      assert (a + b)[0] == a[0];
      assert (a + b)[1..] == a[1..] + b;
      PathsAppend(a[1..], b);
    }
  }

  /** Every issue of `a` sits on `f`. */
  predicate AllOn(a: seq<Issue>, f: Field)
  {
    forall i :: 0 <= i < |a| ==> a[i].path == f
  }

  /** `IssuesAt` distributes over the six segments of a parse's issues. */
  lemma IssuesAtSix(t: seq<Issue>, d: seq<Issue>, g: seq<Issue>, j: seq<Issue>,
                    s: seq<Issue>, x: seq<Issue>, f: Field)
    ensures IssuesAt(t + d + g + j + s + x, f) ==
      IssuesAt(t, f) + IssuesAt(d, f) + IssuesAt(g, f) + IssuesAt(j, f) + IssuesAt(s, f) + IssuesAt(x, f)
  {
    var u2 := t + d;
    var u3 := u2 + g;
    var u4 := u3 + j;
    var u5 := u4 + s;
    IssuesAtAppend(t, d, f);
    IssuesAtAppend(u2, g, f);
    IssuesAtAppend(u3, j, f);
    IssuesAtAppend(u4, s, f);
    IssuesAtAppend(u5, x, f);
  }

  /** The issues on `f` among the six segments of a parse's issues, each segment on one field. */
  lemma IssuesAtSegments(t: seq<Issue>, d: seq<Issue>, g: seq<Issue>, j: seq<Issue>,
                         s: seq<Issue>, x: seq<Issue>, f: Field)
    requires AllOn(t, JobTitle) && AllOn(d, Department) && AllOn(g, PayScaleGrade)
    requires AllOn(j, JobFamily) && AllOn(s, Series) && AllOn(x, Series)
    ensures IssuesAt(t + d + g + j + s + x, f) ==
      (if f == JobTitle then t else []) + (if f == Department then d else []) +
      (if f == PayScaleGrade then g else []) + (if f == JobFamily then j else []) +
      (if f == Series then s else []) + (if f == Series then x else [])
  {
    IssuesAtSix(t, d, g, j, s, x, f);
    IssuesAtUniform(t, JobTitle, f);
    IssuesAtUniform(d, Department, f);
    IssuesAtUniform(g, PayScaleGrade, f);
    IssuesAtUniform(j, JobFamily, f);
    IssuesAtUniform(s, Series, f);
    IssuesAtUniform(x, Series, f);
  }

  /** A failed parse reports the field issues in field order, then the refinement's. */
  lemma IssuesOfValidate(c: Candidate, cat: Catalog, m: Messages)
    ensures IssuesOf(Validate(c, cat, m)) ==
      TitleCheck(c, m).issues + DepartmentCheck(c, m).issues +
      GradeCheck(c, m).issues + FamilyCheck(c, cat, m).issues +
      SeriesCheck(c, m).issues + RefinementIssues(c, cat, m)
  {
  }

  /** Each field check reports on its own field, and the refinement on `series`. */
  lemma ChecksReportOnTheirField(c: Candidate, cat: Catalog, m: Messages)
    ensures AllOn(TitleCheck(c, m).issues, JobTitle)
    ensures AllOn(DepartmentCheck(c, m).issues, Department)
    ensures AllOn(GradeCheck(c, m).issues, PayScaleGrade)
    ensures AllOn(FamilyCheck(c, cat, m).issues, JobFamily)
    ensures AllOn(SeriesCheck(c, m).issues, Series)
    ensures AllOn(RefinementIssues(c, cat, m), Series)
  {
  }

  /**
   * The issues a parse reports on each field are exactly those of that
   * field's own checks, except that the object-level refinement adds its
   * issue to `series`.
   */
  lemma IssuesByField(c: Candidate, cat: Catalog, m: Messages)
    ensures IssuesAt(IssuesOf(Validate(c, cat, m)), JobTitle) == TitleCheck(c, m).issues
    ensures IssuesAt(IssuesOf(Validate(c, cat, m)), Department) == DepartmentCheck(c, m).issues
    ensures IssuesAt(IssuesOf(Validate(c, cat, m)), PayScaleGrade) ==
      GradeCheck(c, m).issues
    ensures IssuesAt(IssuesOf(Validate(c, cat, m)), JobFamily) == FamilyCheck(c, cat, m).issues
    ensures IssuesAt(IssuesOf(Validate(c, cat, m)), Series) ==
      SeriesCheck(c, m).issues + RefinementIssues(c, cat, m)
  {
    var t := TitleCheck(c, m).issues;
    var d := DepartmentCheck(c, m).issues;
    var g := GradeCheck(c, m).issues;
    var j := FamilyCheck(c, cat, m).issues;
    var s := SeriesCheck(c, m).issues;
    var x := RefinementIssues(c, cat, m);
    var all := IssuesOf(Validate(c, cat, m));
    IssuesOfValidate(c, cat, m);
    assert all == t + d + g + j + s + x;
    ChecksReportOnTheirField(c, cat, m);
    IssuesAtSegments(t, d, g, j, s, x, JobTitle);
    assert IssuesAt(all, JobTitle) == t + [] + [] + [] + [] + [];
    IssuesAtSegments(t, d, g, j, s, x, Department);
    assert IssuesAt(all, Department) == [] + d + [] + [] + [] + [];
    IssuesAtSegments(t, d, g, j, s, x, PayScaleGrade);
    assert IssuesAt(all, PayScaleGrade) == [] + [] + g + [] + [] + [];
    IssuesAtSegments(t, d, g, j, s, x, JobFamily);
    assert IssuesAt(all, JobFamily) == [] + [] + [] + j + [] + [];
    IssuesAtSegments(t, d, g, j, s, x, Series);
    assert IssuesAt(all, Series) == [] + [] + [] + [] + s + x;
  }

  /**
   * `jobTitle` draws no issue exactly when it is a string whose raw length is
   * in [3, 100]; the empty title draws both the "required" and the "at least
   * 3" issue, and a title over 100 characters draws the "less than 100" issue
   * alone.
   */
  lemma JobTitleRule(c: Candidate, cat: Catalog, m: Messages)
    ensures IssuesAt(IssuesOf(Validate(c, cat, m)), JobTitle) == [] <==>
      c.jobTitle.Str? && 3 <= |c.jobTitle.s| <= 100
    ensures c.jobTitle == Str("") ==>
      IssuesAt(IssuesOf(Validate(c, cat, m)), JobTitle) ==
        [Issue(JobTitle, m.titleRequired), Issue(JobTitle, m.titleTooShort)]
    ensures c.jobTitle.Str? && |c.jobTitle.s| > 100 ==>
      IssuesAt(IssuesOf(Validate(c, cat, m)), JobTitle) == [Issue(JobTitle, m.titleTooLong)]
  {
    IssuesByField(c, cat, m);
  }

  /**
   * `department` draws no issue exactly when it is a string whose raw length
   * is in [2, 100]; the empty department draws both the "required" and the
   * "at least 2" issue.
   */
  lemma DepartmentRule(c: Candidate, cat: Catalog, m: Messages)
    ensures IssuesAt(IssuesOf(Validate(c, cat, m)), Department) == [] <==>
      c.department.Str? && 2 <= |c.department.s| <= 100
    ensures c.department == Str("") ==>
      IssuesAt(IssuesOf(Validate(c, cat, m)), Department) ==
        [Issue(Department, m.departmentRequired), Issue(Department, m.departmentTooShort)]
    ensures c.department.Str? && |c.department.s| > 100 ==>
      IssuesAt(IssuesOf(Validate(c, cat, m)), Department) == [Issue(Department, m.departmentTooLong)]
  {
    IssuesByField(c, cat, m);
  }

  /**
   * The pay scale enum's values: 27 codes, none of them empty and no two
   * alike, so each listed grade is one enum member.
   */
  lemma PayScaleGradeList()
    ensures |PayScaleGrades| == 27
    ensures forall i :: 0 <= i < |PayScaleGrades| ==> PayScaleGrades[i] != ""
    ensures forall i, j :: 0 <= i < j < |PayScaleGrades| ==> PayScaleGrades[i] != PayScaleGrades[j]
  {
  }

  /**
   * `payScaleGrade` is accepted exactly when it is one of the listed
   * codes; anything else (another string, another type, a missing value)
   * draws exactly one issue, carrying the schema's pay grade message.
   */
  lemma PayScaleGradeRule(c: Candidate, cat: Catalog, m: Messages)
    ensures c.payScaleGrade.Str? && c.payScaleGrade.s in PayScaleGrades ==>
      IssuesAt(IssuesOf(Validate(c, cat, m)), PayScaleGrade) == []
    ensures !(c.payScaleGrade.Str? && c.payScaleGrade.s in PayScaleGrades) ==>
      IssuesAt(IssuesOf(Validate(c, cat, m)), PayScaleGrade) == [Issue(PayScaleGrade, m.gradeInvalid)]
  {
    IssuesByField(c, cat, m);
  }

  /**
   * `jobFamily` draws no issue exactly when it is a non-empty string among
   * the catalog's group codes; the empty string always draws the "required"
   * issue, and also the "valid job family" one unless it is itself a code.
   */
  lemma JobFamilyRule(c: Candidate, cat: Catalog, m: Messages)
    ensures IssuesAt(IssuesOf(Validate(c, cat, m)), JobFamily) == [] <==>
      c.jobFamily.Str? && c.jobFamily.s != "" && c.jobFamily.s in JobFamilyCodes(cat)
    ensures c.jobFamily == Str("") && "" !in JobFamilyCodes(cat) ==>
      IssuesAt(IssuesOf(Validate(c, cat, m)), JobFamily) ==
        [Issue(JobFamily, m.familyRequired), Issue(JobFamily, m.familyUnknown)]
  {
    IssuesByField(c, cat, m);
  }

  /**
   * When every field parsed, `jobFamily` is non-empty and `series` is not
   * listed under it, the mismatch is reported as the last issue, on `series`.
   */
  lemma SeriesMismatchReportedOnSeries(c: Candidate, cat: Catalog, m: Messages)
    requires RefinementRuns(c) && c.jobFamily.s != ""
    requires c.series.s !in SeriesCodesFor(cat, c.jobFamily.s)
    ensures Validate(c, cat, m).Failure?
    ensures var issues := IssuesOf(Validate(c, cat, m));
      issues[|issues| - 1] == Issue(Series, m.seriesMismatch)
  {
  }

  /**
   * The cross-field check never blames `jobFamily`: whatever `series` holds,
   * the issues on `jobFamily` are the same.
   */
  lemma SeriesNeverBlamesJobFamily(c: Candidate, cat: Catalog, m: Messages, series: Value)
    ensures IssuesAt(IssuesOf(Validate(c, cat, m)), JobFamily) ==
      IssuesAt(IssuesOf(Validate(c.(series := series), cat, m)), JobFamily)
  {
    IssuesByField(c, cat, m);
    IssuesByField(c.(series := series), cat, m);
  }

  /**
   * When the cross-field check does not run, because `jobFamily` is the empty
   * string or because some field aborted, the refinement adds nothing and
   * `series` draws exactly its own issues: at most one, and none at all when
   * it is a non-empty string.
   */
  lemma CrossCheckSkipped(c: Candidate, cat: Catalog, m: Messages)
    requires c.jobFamily == Str("") || !RefinementRuns(c)
    ensures RefinementIssues(c, cat, m) == []
    ensures IssuesAt(IssuesOf(Validate(c, cat, m)), Series) == SeriesCheck(c, m).issues
    ensures |IssuesAt(IssuesOf(Validate(c, cat, m)), Series)| <= 1
    ensures c.series.Str? && c.series.s != "" ==> IssuesAt(IssuesOf(Validate(c, cat, m)), Series) == []
  {
    IssuesByField(c, cat, m);
  }

  /**
   * A non-empty family the catalog does not know draws the family issue and,
   * when the refinement runs, the series issue as well: the cross-check is
   * skipped only for the empty family, and an unknown family has no series.
   */
  lemma UnknownFamilyReportsBoth(c: Candidate, cat: Catalog, m: Messages)
    requires WellFormed(cat)
    requires RefinementRuns(c) && c.jobFamily.s != "" && c.jobFamily.s !in JobFamilyCodes(cat)
    ensures Issue(JobFamily, m.familyUnknown) in IssuesOf(Validate(c, cat, m))
    ensures Issue(Series, m.seriesMismatch) in IssuesOf(Validate(c, cat, m))
  {
    UnknownFamilyHasNoSeries(cat, c.jobFamily.s);
    IssuesByField(c, cat, m);
    var issues := IssuesOf(Validate(c, cat, m));
    assert Issue(JobFamily, m.familyUnknown) in IssuesAt(issues, JobFamily);
    assert Issue(Series, m.seriesMismatch) in IssuesAt(issues, Series);
    IssuesAtMembers(issues, JobFamily, Issue(JobFamily, m.familyUnknown));
    IssuesAtMembers(issues, Series, Issue(Series, m.seriesMismatch));
  }

  /**
   * The two schemas share one rule set: with any two sets of messages a
   * candidate is accepted by both or by neither, is parsed to the same
   * request, and draws issues on the same fields in the same order.
   */
  lemma SameRulesAnyMessages(c: Candidate, cat: Catalog, m1: Messages, m2: Messages)
    ensures Validate(c, cat, m1).Success? <==> Validate(c, cat, m2).Success?
    ensures Validate(c, cat, m1).Success? ==> Validate(c, cat, m1).value == Validate(c, cat, m2).value
    ensures Paths(IssuesOf(Validate(c, cat, m1))) == Paths(IssuesOf(Validate(c, cat, m2)))
  {
    IssuesOfValidate(c, cat, m1);
    IssuesOfValidate(c, cat, m2);
    ChecksReportOnTheirField(c, cat, m1);
    ChecksReportOnTheirField(c, cat, m2);
    SameFieldSamePaths(TitleCheck(c, m1).issues, TitleCheck(c, m2).issues, JobTitle);
    SameFieldSamePaths(DepartmentCheck(c, m1).issues, DepartmentCheck(c, m2).issues, Department);
    SameFieldSamePaths(GradeCheck(c, m1).issues,
      GradeCheck(c, m2).issues, PayScaleGrade);
    SameFieldSamePaths(FamilyCheck(c, cat, m1).issues, FamilyCheck(c, cat, m2).issues, JobFamily);
    SameFieldSamePaths(SeriesCheck(c, m1).issues, SeriesCheck(c, m2).issues, Series);
    SameFieldSamePaths(RefinementIssues(c, cat, m1), RefinementIssues(c, cat, m2), Series);
    SamePathsSegments(
      TitleCheck(c, m1).issues, DepartmentCheck(c, m1).issues,
      GradeCheck(c, m1).issues, FamilyCheck(c, cat, m1).issues,
      SeriesCheck(c, m1).issues, RefinementIssues(c, cat, m1),
      TitleCheck(c, m2).issues, DepartmentCheck(c, m2).issues,
      GradeCheck(c, m2).issues, FamilyCheck(c, cat, m2).issues,
      SeriesCheck(c, m2).issues, RefinementIssues(c, cat, m2));
  }

  /** Two equally long lists of issues that all sit on one field have the same paths. */
  lemma {:induction false} SameFieldSamePaths(a: seq<Issue>, b: seq<Issue>, f: Field)
    requires AllOn(a, f) && AllOn(b, f) && |a| == |b|
    ensures Paths(a) == Paths(b)
  {
    if a != [] {
      SameFieldSamePaths(a[1..], b[1..], f);
    }
  }

  /** Segment-wise equal paths give equal paths for the whole. */
  lemma SamePathsSegments(t1: seq<Issue>, d1: seq<Issue>, g1: seq<Issue>, j1: seq<Issue>,
                          s1: seq<Issue>, x1: seq<Issue>,
                          t2: seq<Issue>, d2: seq<Issue>, g2: seq<Issue>, j2: seq<Issue>,
                          s2: seq<Issue>, x2: seq<Issue>)
    requires Paths(t1) == Paths(t2) && Paths(d1) == Paths(d2) && Paths(g1) == Paths(g2)
    requires Paths(j1) == Paths(j2) && Paths(s1) == Paths(s2) && Paths(x1) == Paths(x2)
    ensures Paths(t1 + d1 + g1 + j1 + s1 + x1) == Paths(t2 + d2 + g2 + j2 + s2 + x2)
  {
    PathsSix(t1, d1, g1, j1, s1, x1);
    PathsSix(t2, d2, g2, j2, s2, x2);
  }

  /** `Paths` distributes over the six segments of a parse's issues. */
  lemma PathsSix(t: seq<Issue>, d: seq<Issue>, g: seq<Issue>, j: seq<Issue>, s: seq<Issue>, x: seq<Issue>)
    ensures Paths(t + d + g + j + s + x) ==
      Paths(t) + Paths(d) + Paths(g) + Paths(j) + Paths(s) + Paths(x)
  {
    var u2 := t + d;
    var u3 := u2 + g;
    var u4 := u3 + j;
    var u5 := u4 + s;
    PathsAppend(t, d);
    PathsAppend(u2, g);
    PathsAppend(u3, j);
    PathsAppend(u4, s);
    PathsAppend(u5, x);
  }

  /**
   * `jobDescriptionFormSchema` and `generateDescriptionRequestSchema` accept
   * exactly the same candidates, produce the same request and report issues
   * on the same fields; only the message texts differ.
   */
  lemma FormAndApiAgree(c: Candidate, cat: Catalog)
    ensures ValidateForm(c, cat).Success? <==> ValidateApi(c, cat).Success?
    ensures ValidateForm(c, cat).Success? ==> ValidateForm(c, cat).value == ValidateApi(c, cat).value
    ensures Paths(IssuesOf(ValidateForm(c, cat))) == Paths(IssuesOf(ValidateApi(c, cat)))
  {
    SameRulesAnyMessages(c, cat, FormMessages, ApiMessages);
  }

  /**
   * Because `.trim()` runs after the length checks, a title or department
   * made only of white space, long enough to pass, is accepted and comes out
   * empty.
   */
  lemma BlankTextComesOutEmpty(c: Candidate, cat: Catalog, m: Messages)
    requires Acceptable(c, cat)
    ensures (forall k :: 0 <= k < |c.jobTitle.s| ==> IsWhiteSpace(c.jobTitle.s[k])) ==>
      Validate(c, cat, m).value.jobTitle == ""
    ensures (forall k :: 0 <= k < |c.department.s| ==> IsWhiteSpace(c.department.s[k])) ==>
      Validate(c, cat, m).value.department == ""
  {
    TrimEmptyIff(c.jobTitle.s);
    TrimEmptyIff(c.department.s);
  }

  /** The candidate that resubmits an already parsed request. */
  function Resubmit(p: PositionRequest): Candidate
  {
    Candidate(Str(p.jobTitle), Str(p.department), Str(p.payScaleGrade), Str(p.jobFamily), Str(p.series))
  }

  /** Trimming never lengthens a string. */
  lemma TrimShortens(s: string)
    ensures |Trim(s)| <= |s|
  {
    TrimStartSpec(s);
    TrimEndSpec(TrimStart(s));
  }

  /** The request an acceptable candidate parses to is itself acceptable when its texts stay long enough. */
  lemma OutputAcceptable(c: Candidate, cat: Catalog)
    requires Acceptable(c, cat)
    requires 3 <= |Trim(c.jobTitle.s)| && 2 <= |Trim(c.department.s)|
    ensures Acceptable(Resubmit(Output(c)), cat)
    ensures Output(Resubmit(Output(c))) == Output(c)
  {
    var q := Resubmit(Output(c));
    TrimShortens(c.jobTitle.s);
    TrimShortens(c.department.s);
    assert q.jobTitle == Str(Trim(c.jobTitle.s)) && q.department == Str(Trim(c.department.s));
    assert q.payScaleGrade == c.payScaleGrade && q.jobFamily == c.jobFamily && q.series == c.series;
    assert Acceptable(q, cat);
    TrimIdempotent(c.jobTitle.s);
    TrimIdempotent(c.department.s);
  }

  /**
   * Parsing the output of a successful parse again gives the same request,
   * provided trimming left the title and the department long enough.
   */
  lemma ResubmitAccepted(c: Candidate, cat: Catalog, m: Messages, p: PositionRequest)
    ensures Validate(c, cat, m) == Success(p) && 3 <= |p.jobTitle| && 2 <= |p.department| ==>
      Validate(Resubmit(p), cat, m) == Success(p)
  {
    if Validate(c, cat, m) == Success(p) && 3 <= |p.jobTitle| && 2 <= |p.department| {
      OutputAcceptable(c, cat);
    }
  }
}
