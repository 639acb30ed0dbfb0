# HR position request validation: a Dafny model

This project models the validation rule set of the HR position description
generator: the two Zod object schemas in `lib/validation.ts`,
`jobDescriptionFormSchema` (client side) and `generateDescriptionRequestSchema`
(server side). Both decide whether a candidate
`{ jobTitle, department, payScaleGrade, jobFamily, series }` may become a
position request. It proves what those schemas accept, which issues they report
and on which field, and that the two schemas differ only in message text.

Modules:

- `Wrappers` (`wrappers.dfy`): the `Result` of a safe parse.
- `JsText` (`js_text.dfy`): `String.prototype.trim` and the ECMAScript white
  space it removes.
- `OpmCatalog` (`opm_catalog.dfy`): the occupational group and series catalog,
  plus `getAllJobFamilyCodes` and `getAllSeriesCodes`. The catalog's data module
  is not part of this model. The catalog is a parameter: the list of groups and a
  total lookup from a group code to its series entries. `WellFormed` states what
  the data is expected to satisfy: an unknown code has no series, each series is
  listed under its own group, and no series code appears under two groups.
- `Validation` (`validation.dfy`): the pay grade list, the per-field checks, the
  object-level series refinement, and `Validate`. `Validate` is the one rule set,
  parameterised by the schema's messages. `ValidateForm` and `ValidateApi` are the
  two schemas.
- `ValidationProperties` (`validation_properties.dfy`): the field-by-field rules,
  the cross-check, the agreement of the two schemas, and resubmission of a parsed
  request.
- `Scenarios` (`scenarios.dfy`): concrete parses against a two-group sample
  catalog (0200 → 0201, 2200 → 2210).

## Zod semantics assumed

The schema library is not part of this model. Its behaviour is written out
explicitly, following Zod 3:

- A candidate field is `Absent` (undefined), `Str(s)`, or `NonString(t)`, where
  `t` is one of Zod's parsed types other than undefined and string. Any value
  that is not a string aborts its field. The issue message is Zod's default:
  "Required" when the value is undefined, "Expected string, received " followed
  by the type's name otherwise. For the pay grade enum, the schema's own `errorMap` replaces every
  message.
- String checks run in chain order and do not stop at the first failure. An empty
  title therefore gets both "required" and "at least 3".
- `.trim()` comes last in each chain. Lengths are measured on the raw string, and
  only the parsed output is trimmed.
- The `.refine` on `jobFamily` also runs after `min(1)` has failed. The empty
  family therefore gets "required" and also "valid job family", unless `""` is
  itself a catalog code.
- The object-level `.refine` runs only when no field aborted. A field aborts when
  its value is not a string, or when the pay grade is not in the enum. The
  refinement's issue comes after all field issues. `RefinementRuns` encodes this
  as an assumption about Zod, not as a proved fact.

## Consequences of the code as written

- `.trim()` is the last step of the `jobTitle` and `department` chains
  (lib/validation.ts:38 and 45), after the length checks at lines 35-37 and
  42-44. So a title of three spaces is accepted and comes out as the empty
  string (`BlankTextComesOutEmpty`, `Scenarios.BlankTitleAccepted`). Submitting
  that output again then fails (`Scenarios.EmptyTitleRejected`).
- The object-level refinement returns early only when `jobFamily` is the empty
  string (line 65). The comment there says the `jobFamily` validation "will
  catch this", but a non-empty unknown family is not skipped: it gets both a
  family issue and a series issue (`UnknownFamilyReportsBoth`).
- The `jobFamily` refine at lines 55-58 runs even after `min(1)` at line 54 has
  failed. An empty family and an empty series therefore produce two issues on
  `jobFamily` and one on `series` (`Scenarios.EmptyCodesRejected`).
- The messages at lines 37 and 44 say "less than 100 characters", but
  `max(100)` accepts exactly 100 (`Scenarios.HundredCharactersIsTheLimit`).

## Model

| member | source | states |
|---|---|---|
| `JsText.TrimStartSpec` | lib/validation.ts:38 | `trim`'s leading pass removes only white space and stops at the first other character |
| `JsText.TrimEndSpec` | lib/validation.ts:38 | `trim`'s trailing pass removes only white space and stops at the last other character |
| `JsText.TrimIsCore` | lib/validation.ts:38 | the trimmed output is a slice of the input, with only white space cut off either side and none left at its ends |
| `JsText.TrimIdempotent` | lib/validation.ts:45 | trimming the output again changes nothing |
| `JsText.TrimEmptyIff` | lib/validation.ts:45 | the output is empty exactly when the input is all white space |
| `OpmCatalog.CodesOf` | lib/validation.ts:20-27 | the job family codes and a family's series codes are the listed items' codes, one for one and in order |
| `OpmCatalog.JobFamilyCodes` | lib/validation.ts:20-22 | `getAllJobFamilyCodes` lists each group's code in catalog order, so a code is listed exactly when some catalog group carries it |
| `OpmCatalog.SeriesCodesFor` | lib/validation.ts:25-27 | `getAllSeriesCodes` lists the code of each series under the family in order, so a code is listed exactly when some series listed under that family carries it |
| `OpmCatalog.UnknownFamilyHasNoSeries` | lib/validation.ts:25-27 | in a well-formed catalog, an unknown family yields an empty code list, not a failure |
| `OpmCatalog.SeriesBelongsToOneFamily` | lib/validation.ts:66 | in a well-formed catalog, a listed series is accepted under its own family and under no other |
| `Validation.SeriesFitsFamily` | lib/validation.ts:64-67 | the object refinement holds exactly when the family is empty or some series listed under the family carries the submitted series code |
| `Validation.RefinementIssues` | lib/validation.ts:63-72 | at most one issue, the mismatch message on `series`, raised exactly when every field parsed, the family is non-empty and the series is not listed under it |
| `Validation.TextField` | lib/validation.ts:33-38 | a non-string aborts with one issue; a string passes exactly when its raw length is within [min, max]; the output is the trimmed string; "" gets the required and too-short issues; every issue is on the field's own path |
| `Validation.GradeField` | lib/validation.ts:47-50 | parses exactly the listed grade strings, unchanged; anything else aborts with the single custom message |
| `Validation.FamilyField` | lib/validation.ts:52-58 | a non-string aborts; a string passes exactly when it is non-empty and a catalog group code; the output is not trimmed |
| `Validation.SeriesField` | lib/validation.ts:60-62 | a non-string aborts; a string passes exactly when it is non-empty; "" gets only the required issue, on `series` |
| `Validation.Validate` | lib/validation.ts:32-72 | success exactly when title length is in [3,100], department length in [2,100], the grade is listed, the family is a non-empty catalog code and the series is non-empty and listed under it; the success value, assembled from the fields' parsed outputs, is the trimmed texts and the unchanged codes; a failure always carries at least one issue |
| `Validation.ValidateForm` | lib/validation.ts:32-72 | the form schema accepts exactly the acceptable candidates, with the trimmed output, and never fails without an issue |
| `Validation.ValidateApi` | lib/validation.ts:77-117 | the API schema accepts exactly the acceptable candidates, with the trimmed output, and never fails without an issue |
| `ValidationProperties.IssuesByField` | lib/validation.ts:32-72 | the issues on each field are exactly that field's own check issues; `series` also gets the object refinement's issue |
| `ValidationProperties.JobTitleRule` | lib/validation.ts:33-38 | no `jobTitle` issue iff it is a string of raw length in [3,100]; "" gets both the required and at-least-3 issues; over 100 gets only the less-than-100 issue |
| `ValidationProperties.DepartmentRule` | lib/validation.ts:40-45 | no `department` issue iff it is a string of raw length in [2,100]; "" gets both the required and at-least-2 issues; over 100 gets only the less-than-100 issue |
| `ValidationProperties.PayScaleGradeList` | lib/validation.ts:9-17 | the grade list has 27 codes, none empty and no two alike |
| `ValidationProperties.PayScaleGradeRule` | lib/validation.ts:47-50 | a listed grade gets no issue; any other value, missing or not a string included, gets exactly one `payScaleGrade` issue |
| `ValidationProperties.JobFamilyRule` | lib/validation.ts:52-58 | no `jobFamily` issue iff it is a non-empty catalog group code; "" that is not a code gets both the required and valid-job-family issues |
| `ValidationProperties.SeriesMismatchReportedOnSeries` | lib/validation.ts:63-72 | when every field parsed, a non-empty family with an unlisted series fails, and the last issue is the mismatch message on `series` |
| `ValidationProperties.SeriesNeverBlamesJobFamily` | lib/validation.ts:70 | the issues on `jobFamily` do not depend on `series`, so the cross-check never reports on `jobFamily` |
| `ValidationProperties.CrossCheckSkipped` | lib/validation.ts:63-65 | with an empty family, or an aborted field, the refinement adds no issue: the issues on `series` are exactly its own check's, so at most one, and none when it is a non-empty string |
| `ValidationProperties.UnknownFamilyReportsBoth` | lib/validation.ts:63-67 | with a well-formed catalog and all fields parsed, a non-empty unknown family gets the family issue and the series mismatch issue |
| `ValidationProperties.SameRulesAnyMessages` | lib/validation.ts:32-72 | with any two message sets: both accept or both reject, they give the same output, and their issues are on the same fields in the same order |
| `ValidationProperties.FormAndApiAgree` | lib/validation.ts:77-117 | the form and API schemas accept the same candidates, give the same request and report on the same fields |
| `ValidationProperties.BlankTextComesOutEmpty` | lib/validation.ts:33-45 | an accepted title or department made only of white space comes out as "" |
| `ValidationProperties.ResubmitAccepted` | lib/validation.ts:32-45 | submitting a parsed request again gives the same request, provided trimming left the title at least 3 and the department at least 2 characters long |
| `Scenarios.CorrectRequestAccepted` | lib/validation.ts:32-72 | Dev / Eng / GS-12 / 2200 / 2210 is accepted and returned unchanged |
| `Scenarios.ForeignSeriesRejected` | lib/validation.ts:63-72 | series 0201 under family 2200 fails with one issue, on `series` |
| `Scenarios.ShortTitleRejected` | lib/validation.ts:36 | a two-character title fails with only the at-least-3 issue |
| `Scenarios.UnknownGradeRejected` | lib/validation.ts:47-50 | GS-99 fails with one pay grade issue, and the cross-check is skipped |
| `Scenarios.EmptyCodesRejected` | lib/validation.ts:52-72 | an empty family and series give two `jobFamily` issues and one `series` issue, with no mismatch |
| `Scenarios.UnknownFamilyRejected` | lib/validation.ts:52-72 | family 9999 gives a family issue and a series mismatch |
| `Scenarios.BlankTitleAccepted` | lib/validation.ts:33-38 | a three-space title passes and comes out as "" |
| `Scenarios.EmptyTitleRejected` | lib/validation.ts:35-36 | the empty title gets the required and at-least-3 issues |
| `Scenarios.HundredCharactersIsTheLimit` | lib/validation.ts:37 | a 100-character title passes; a 101-character title fails with the less-than-100 issue |

## Left out

- The catalog data module (`./opm-data`) is not part of this model. The catalog is a parameter. The data is assumed to satisfy `WellFormed`; nothing in `lib/validation.ts` checks it.
- Zod issue fields other than path and message are not modelled: issue codes, `minimum`, `inclusive`, `received` as a field, and the flattened error formats.
- An input that is not an object at all (a single root issue) is not modelled. Unknown keys, which Zod strips, are not modelled either: the candidate carries only the five fields.
- String length is counted in characters. JavaScript counts UTF-16 code units, so a character outside the Basic Multilingual Plane counts as 2 in the source and as 1 here. Everything `trim` removes lies in the Basic Multilingual Plane.
- Calling a schema twice on the same input gives the same result. Dafny functions are deterministic, so no lemma is needed for this.
- `app/api/generate-description/route.ts` is not modelled: HTTP handling, prompt templating, and the external text-generation call. Its only check is a truthiness test on the older `experienceLevel` shape, and it does not call these schemas.
- `components/HRPositionDescriptionGenerator.tsx` is not modelled: UI state, fetch and markup. Its check is presence-only, it does not call these schemas, and it has no code that resets `series` when `jobFamily` changes.
- `lib/bedrock.ts`, `components/providers/theme-provider.tsx`, `types/index.ts`, `components/ui/footer.tsx` and `app/page.tsx` are not modelled. They are configuration, client plumbing, theming and markup.
