/**
 * The two object schemas of lib/validation.ts, `jobDescriptionFormSchema`
 * and `generateDescriptionRequestSchema`, as one rule set parameterised by
 * its message texts (the only thing the two schemas do not share).
 *
 * A safe parse follows Zod 3: every field of the object is parsed and the
 * issues of all fields are collected in field order; a string field runs its
 * checks in chain order and keeps going after a failed check (the field is
 * then "dirty"); a value of the wrong type, or a pay grade outside the enum,
 * aborts its field; the object-level refinement runs only when no field
 * aborted, and its issue comes last.
 */
module Validation {
  import opened Wrappers
  import opened JsText
  import opened OpmCatalog

  datatype Field = JobTitle | Department | PayScaleGrade | JobFamily | Series

  /**
   * The type Zod reports for a value that is neither `undefined` nor a
   * string (its `ZodParsedType`, less those two).
   */
  datatype ParsedType =
    | NaN | Number | Boolean | BigInt | Symbol | Function | Null | Array | Object
    | Date | Map | Set | Promise | Unknown

  /** The name Zod gives the type in its default message. */
  function TypeName(t: ParsedType): (name: string)
    ensures name != "undefined" && name != "string"
  {
    match t
    case NaN => "nan"
    case Number => "number"
    case Boolean => "boolean"
    case BigInt => "bigint"
    case Symbol => "symbol"
    case Function => "function"
    case Null => "null"
    case Array => "array"
    case Object => "object"
    case Date => "date"
    case Map => "map"
    case Set => "set"
    case Promise => "promise"
    case Unknown => "unknown"
  }

  /** One property of the submitted object before it is parsed: missing (`undefined`), a string, or a value of another type. */
  datatype Value = Absent | Str(s: string) | NonString(received: ParsedType)

  datatype Candidate = Candidate(
    jobTitle: Value, department: Value, payScaleGrade: Value, jobFamily: Value, series: Value)

  /** The parsed, submission-ready request. */
  datatype PositionRequest = PositionRequest(
    jobTitle: string, department: string, payScaleGrade: string, jobFamily: string, series: string)

  /** A Zod issue, reduced to the field it is attached to and its message. */
  datatype Issue = Issue(path: Field, message: string)

  /** The message texts a schema attaches to its checks. */
  datatype Messages = Messages(
    titleRequired: string, titleTooShort: string, titleTooLong: string,
    departmentRequired: string, departmentTooShort: string, departmentTooLong: string,
    gradeInvalid: string,
    familyRequired: string, familyUnknown: string,
    seriesRequired: string, seriesMismatch: string)

  /** The closed set of pay scale and grade codes (`VALID_PAY_SCALE_GRADES`). */
  const PayScaleGrades: seq<string> := [
    "GS-1", "GS-2", "GS-3", "GS-4", "GS-5", "GS-6", "GS-7", "GS-8", "GS-9", "GS-10",
    "GS-11", "GS-12", "GS-13", "GS-14", "GS-15",
    "SES",
    "ES-1", "ES-2", "ES-3", "ES-4", "ES-5", "ES-6",
    "SL",
    "ST",
    "GM", "GG", "AD"
  ]

  const FormMessages := Messages(
    "Job title is required", "Job title must be at least 3 characters",
    "Job title must be less than 100 characters",
    "Department is required", "Department must be at least 2 characters",
    "Department must be less than 100 characters",
    "Please select a valid pay scale and grade",
    "Job family is required", "Please select a valid job family",
    "Series is required", "Please select a valid series for the chosen job family")

  const ApiMessages := Messages(
    "Job title is required", "Job title must be at least 3 characters",
    "Job title must be less than 100 characters",
    "Department is required", "Department must be at least 2 characters",
    "Department must be less than 100 characters",
    "Invalid pay scale and grade",
    "Job family is required", "Invalid job family code",
    "Series is required", "Invalid series code for the selected job family")

  /**
   * The outcome of parsing one field: aborted, or parsed to an output value
   * together with the issues its checks raised (none: valid; some: dirty).
   */
  datatype FieldResult = Aborted(issues: seq<Issue>) | Parsed(output: string, issues: seq<Issue>)

  /** Zod's default message for a value that is not a string. */
  function WrongTypeMessage(v: Value): string
    requires !v.Str?
  {
    if v.Absent? then "Required" else "Expected string, received " + TypeName(v.received)
  }

  /**
   * `z.string().min(1, required).min(min, tooShort).max(max, tooLong).trim()`:
   * the length checks see the raw string; only the output is trimmed.
   */
  function TextField(path: Field, v: Value, min: nat, max: nat,
                     required: string, tooShort: string, tooLong: string): (r: FieldResult)
    requires 1 <= min
    ensures r.Aborted? <==> !v.Str?
    ensures r.Aborted? ==> r.issues == [Issue(path, WrongTypeMessage(v))]
    ensures r.Parsed? ==> r.output == Trim(v.s)
    ensures r.Parsed? ==> (r.issues == [] <==> min <= |v.s| <= max)
    ensures v == Str("") ==> r.issues == [Issue(path, required), Issue(path, tooShort)]
    ensures forall i :: 0 <= i < |r.issues| ==> r.issues[i].path == path
  {
    match v
    case Str(s) =>
      Parsed(Trim(s),
        (if |s| < 1 then [Issue(path, required)] else []) +
        (if |s| < min then [Issue(path, tooShort)] else []) +
        (if |s| > max then [Issue(path, tooLong)] else []))
    case _ => Aborted([Issue(path, WrongTypeMessage(v))])
  }

  /**
   * `z.enum(VALID_PAY_SCALE_GRADES, { errorMap })`: the schema's own error
   * map replaces the message of every issue the enum raises.
   */
  function GradeField(v: Value, invalid: string): (r: FieldResult)
    ensures r.Parsed? <==> v.Str? && v.s in PayScaleGrades
    ensures r.Parsed? ==> r.output == v.s && r.issues == []
    ensures r.Aborted? ==> r.issues == [Issue(PayScaleGrade, invalid)]
  {
    if v.Str? && v.s in PayScaleGrades then Parsed(v.s, [])
    else Aborted([Issue(PayScaleGrade, invalid)])
  }

  /**
   * `z.string().min(1, required).refine(code => getAllJobFamilyCodes().includes(code), unknown)`:
   * the refinement also runs when `min(1)` failed, so the empty string draws
   * both issues unless it is itself a family code.
   */
  function FamilyField(v: Value, cat: Catalog, required: string, unknown: string): (r: FieldResult)
    ensures r.Aborted? <==> !v.Str?
    ensures r.Aborted? ==> r.issues == [Issue(JobFamily, WrongTypeMessage(v))]
    ensures r.Parsed? ==> r.output == v.s
    ensures r.Parsed? ==> (r.issues == [] <==> v.s != "" && v.s in JobFamilyCodes(cat))
    ensures forall i :: 0 <= i < |r.issues| ==> r.issues[i].path == JobFamily
  {
    match v
    case Str(s) =>
      Parsed(s,
        (if |s| < 1 then [Issue(JobFamily, required)] else []) +
        (if s !in JobFamilyCodes(cat) then [Issue(JobFamily, unknown)] else []))
    case _ => Aborted([Issue(JobFamily, WrongTypeMessage(v))])
  }

  /** `z.string().min(1, required)`. */
  function SeriesField(v: Value, required: string): (r: FieldResult)
    ensures r.Aborted? <==> !v.Str?
    ensures r.Aborted? ==> r.issues == [Issue(Series, WrongTypeMessage(v))]
    ensures r.Parsed? ==> r.output == v.s
    ensures r.Parsed? ==> (r.issues == [] <==> v.s != "")
    ensures v == Str("") ==> r.issues == [Issue(Series, required)]
    ensures forall i :: 0 <= i < |r.issues| ==> r.issues[i].path == Series
  {
    match v
    case Str(s) => Parsed(s, if |s| < 1 then [Issue(Series, required)] else [])
    case _ => Aborted([Issue(Series, WrongTypeMessage(v))])
  }

  /**
   * The object-level refinement: it passes when `jobFamily` is the empty
   * string, and otherwise when some series listed under `jobFamily` carries
   * the code `series`.
   */
  predicate SeriesFitsFamily(cat: Catalog, jobFamily: string, series: string)
    ensures SeriesFitsFamily(cat, jobFamily, series) <==>
      jobFamily == "" || exists e :: e in cat.seriesByGroup(jobFamily) && e.code == series
  {
    jobFamily == "" || series in SeriesCodesFor(cat, jobFamily)
  }

  /** The `jobTitle` chain of the object schema. */
  function TitleCheck(c: Candidate, m: Messages): FieldResult
  {
    TextField(JobTitle, c.jobTitle, 3, 100, m.titleRequired, m.titleTooShort, m.titleTooLong)
  }

  /** The `department` chain of the object schema. */
  function DepartmentCheck(c: Candidate, m: Messages): FieldResult
  {
    TextField(Department, c.department, 2, 100,
      m.departmentRequired, m.departmentTooShort, m.departmentTooLong)
  }

  /** The `payScaleGrade` enum of the object schema. */
  function GradeCheck(c: Candidate, m: Messages): FieldResult
  {
    GradeField(c.payScaleGrade, m.gradeInvalid)
  }

  /** The `jobFamily` chain of the object schema. */
  function FamilyCheck(c: Candidate, cat: Catalog, m: Messages): FieldResult
  {
    FamilyField(c.jobFamily, cat, m.familyRequired, m.familyUnknown)
  }

  /** The `series` chain of the object schema. */
  function SeriesCheck(c: Candidate, m: Messages): FieldResult
  {
    SeriesField(c.series, m.seriesRequired)
  }

  /** Every field parsed without aborting, so the object-level refinement runs. */
  predicate RefinementRuns(c: Candidate)
  {
    c.jobTitle.Str? && c.department.Str? && c.payScaleGrade.Str? &&
    c.payScaleGrade.s in PayScaleGrades && c.jobFamily.Str? && c.series.Str?
  }

  /** The issues the field checks raise, in field order. */
  function FieldIssues(c: Candidate, cat: Catalog, m: Messages): seq<Issue>
  {
    TitleCheck(c, m).issues + DepartmentCheck(c, m).issues + GradeCheck(c, m).issues +
    FamilyCheck(c, cat, m).issues + SeriesCheck(c, m).issues
  }

  /**
   * The issue the object-level refinement raises: one mismatch on `series`
   * exactly when every field parsed, the family is non-empty and the series
   * is not among the codes listed under it; otherwise nothing.
   */
  function RefinementIssues(c: Candidate, cat: Catalog, m: Messages): (r: seq<Issue>)
    ensures r == [] || r == [Issue(Series, m.seriesMismatch)]
    ensures r != [] <==>
      RefinementRuns(c) && c.jobFamily.s != "" && c.series.s !in SeriesCodesFor(cat, c.jobFamily.s)
  {
    if RefinementRuns(c) && !SeriesFitsFamily(cat, c.jobFamily.s, c.series.s)
    then [Issue(Series, m.seriesMismatch)]
    else []
  }

  /**
   * Everything a candidate must satisfy to be accepted, stated field by field
   * on the raw input.
   */
  predicate Acceptable(c: Candidate, cat: Catalog)
  {
    c.jobTitle.Str? && 3 <= |c.jobTitle.s| <= 100 &&
    c.department.Str? && 2 <= |c.department.s| <= 100 &&
    c.payScaleGrade.Str? && c.payScaleGrade.s in PayScaleGrades &&
    c.jobFamily.Str? && c.jobFamily.s != "" && c.jobFamily.s in JobFamilyCodes(cat) &&
    c.series.Str? && c.series.s != "" && c.series.s in SeriesCodesFor(cat, c.jobFamily.s)
  }

  /** The request an acceptable candidate parses to: the two texts trimmed, the codes as given. */
  function Output(c: Candidate): PositionRequest
    requires c.jobTitle.Str? && c.department.Str? && c.payScaleGrade.Str?
    requires c.jobFamily.Str? && c.series.Str?
  {
    PositionRequest(Trim(c.jobTitle.s), Trim(c.department.s), c.payScaleGrade.s,
      c.jobFamily.s, c.series.s)
  }

  /**
   * `schema.safeParse(candidate)` for a schema with message texts `m`:
   * when no check raised an issue, success with the object assembled from
   * the fields' parsed outputs; otherwise failure with every issue raised,
   * of which there is always at least one (a parse never fails silently).
   */
  function Validate(c: Candidate, cat: Catalog, m: Messages): (r: Result<PositionRequest, seq<Issue>>)
    ensures r.Success? <==> Acceptable(c, cat)
    ensures r.Success? ==> r.value == Output(c)
    ensures r.Failure? ==> r.error != []
  {
    var issues := FieldIssues(c, cat, m) + RefinementIssues(c, cat, m);
    if issues == [] then
      Success(PositionRequest(TitleCheck(c, m).output, DepartmentCheck(c, m).output,
        GradeCheck(c, m).output, FamilyCheck(c, cat, m).output, SeriesCheck(c, m).output))
    else Failure(issues)
  }

  /** `jobDescriptionFormSchema.safeParse`. */
  function ValidateForm(c: Candidate, cat: Catalog): (r: Result<PositionRequest, seq<Issue>>)
    ensures r.Success? <==> Acceptable(c, cat)
    ensures r.Success? ==> r.value == Output(c)
    ensures r.Failure? ==> r.error != []
  {
    Validate(c, cat, FormMessages)
  }

  /** `generateDescriptionRequestSchema.safeParse`. */
  function ValidateApi(c: Candidate, cat: Catalog): (r: Result<PositionRequest, seq<Issue>>)
    ensures r.Success? <==> Acceptable(c, cat)
    ensures r.Success? ==> r.value == Output(c)
    ensures r.Failure? ==> r.error != []
  {
    Validate(c, cat, ApiMessages)
  }

  /** The issues of a parse result; a success has none. */
  function IssuesOf(r: Result<PositionRequest, seq<Issue>>): seq<Issue>
  {
    if r.Success? then [] else r.error
  }

  /** The issues attached to field `f`, in order. */
  function IssuesAt(issues: seq<Issue>, f: Field): (r: seq<Issue>)
  {
    if issues == [] then []
    else (if issues[0].path == f then [issues[0]] else []) + IssuesAt(issues[1..], f)
  }

  /** The field each issue is attached to, in order. */
  function Paths(issues: seq<Issue>): seq<Field>
  {
    if issues == [] then [] else [issues[0].path] + Paths(issues[1..])
  }
}
