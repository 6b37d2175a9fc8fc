# Student data-collection form: validation and normalisation pipeline

This project models the pure data path of the University Data Collector's
form page (`src/app/page.tsx`). A draft is a record of field name to
string value; a missing key is an unset (`undefined`) field. The model
covers four parts:

- **Validation.** The form's schema has a rule per field: exact or minimum
  length, and an enumeration for `place_of_living`. One cross-field rule
  branches on `place_of_living`. In the home branch it rewrites
  `home_address` into the composed string
  `"Address: …, PS: …, PIN: …, State: …, District: …"`. In the pg branch it
  demands all five pg fields. Validation follows the schema library's object
  semantics:
  - undeclared keys are stripped;
  - a missing required field or an unknown enumeration value aborts the
    object, so the cross-field rule does not run;
  - a length violation only records an issue, so the cross-field rule still
    runs.

  The draft is accepted exactly when no issue was recorded (`Schema`).
- **Normalisation** (`filterData`). In the home branch it drops every `pg…`
  key and the four home parts already folded into `home_address`. In the pg
  branch it drops every `home…` key. In both it rewrites `student_code` to
  `"BWU/BCA/23/" + code` (`Filter`).
- **Conditional rendering** (`shouldRenderFormFields`): which inputs are
  shown for each `place_of_living` value (`Render`).
- **The existence check's request** and the submit payload. The model proves
  that the check asks about the same canonical code that a submit stores,
  and that every payload is a document of the declared stored record
  (`Pipeline`, `Records`).

`Records` restates the stored document as a tagged union with one case per
residence branch. It serves as an independent reference: `filterData`
applied to validated data must produce exactly the document of that
per-branch record.

Modules: `Wrappers` (Option/Result), `Text` (JavaScript string operations),
`Fields` (field names and field sets), `Schema`, `Filter`, `Records`,
`Render`, `Pipeline`.

## How the cross-field rule behaves

- The home branch of the cross-field rule never fails. It returns the
  composed address, and that string always begins with `"Address: "`, so it
  is never empty. The schema therefore accepts a home draft with no home
  field at all, and its `home_address` becomes
  `"Address: undefined, PS: undefined, PIN: undefined, State: undefined, District: undefined"`
  (`Schema.HomeBranchNeverFails`). In the page itself the `home_address`
  input is a textarea marked `required`, so the browser stops a submit with
  an empty address before the schema runs. Only the four other home parts
  can reach the payload as "undefined".
- Only the pg branch reports a cross-field failure:
  `"All relevant fields must be filled"` under `student_code`.
- A length failure does not stop the cross-field rule, so a pg draft can be
  rejected with both field issues and the cross-field issue
  (`Schema.PgCrossFieldDespiteFieldFailures`).

## Model

| member | source | states |
|---|---|---|
| Schema.CheckField | src/app/page.tsx:174-187 | one field's rule: a missing optional field passes; a missing required one aborts; otherwise the length or enumeration test decides; a failure is reported under that field |
| Schema.CrossField | src/app/page.tsx:188-200 | home branch: always passes and sets `home_address` to the composed address; pg branch: passes iff all five pg fields are present and non-empty; the data is otherwise untouched |
| Schema.Validate | src/app/page.tsx:173-200 | a rejection carries at least one issue; an accepted value keeps only declared keys, keeps every declared key of the draft with its value, and holds the composed `home_address` in the home branch |
| Schema.ValidateAcceptsExactly | src/app/page.tsx:173-200 | a draft is accepted iff `student_code` has 3 characters, `mobile` 10, `name` at least 2, `place_of_living` is home or pg, each present optional field meets its rule, and a pg draft has all five pg fields |
| Schema.RuleBrokenRejected | src/app/page.tsx:174-187 | a draft that breaks any one field rule is rejected |
| Schema.RulesHoldThenCrossFieldDecides | src/app/page.tsx:188-200 | once every field rule holds, the draft is accepted iff the cross-field requirement holds |
| Schema.RefinedData | src/app/page.tsx:173-191 | the object the cross-field rule returns holds only declared keys and keeps every declared key of the draft with its value; a home draft's `home_address` becomes the composed address, and any other draft's `home_address` is left as it was |
| Schema.FieldFailureReported | src/app/page.tsx:174-187 | every field that fails its rule makes validation fail with that field's own message among the issues |
| Schema.PgMissingFieldReported | src/app/page.tsx:193-199 | a pg draft that passes every field rule but lacks a pg field is rejected with exactly one issue: "All relevant fields must be filled" under `student_code` |
| Schema.HomeBranchNeverFails | src/app/page.tsx:189-191 | a home draft that passes the field rules is always accepted; with no home field the address reads "undefined" for every part |
| Schema.PgCrossFieldDespiteFieldFailures | src/app/page.tsx:173-200 | a pg draft whose required fields are present but which lacks a non-empty pg field is rejected, and the last issue is "All relevant fields must be filled" under `student_code`, even when field rules also failed |
| Schema.RequiredPresentDoesNotAbort | src/app/page.tsx:174-187 | with `student_code`, `name` and `mobile` present and `place_of_living` home or pg, no field aborts the object, whatever the lengths |
| Schema.ShortNameEmptyPgAddressExample | src/app/page.tsx:173-200 | a pg draft with name "J" and an empty `pg_address` is rejected with the name's length message and the cross-field message |
| Schema.ComposeHomeAddress | src/app/page.tsx:190 | the composed address always begins with "Address: ", so it is never empty and the home branch cannot fail |
| Schema.Strip | src/app/page.tsx:173-187 | the object keeps exactly the draft's keys that the schema declares, each with its value |
| Schema.HomeAddressComposed | src/app/page.tsx:190 | an acceptable home draft with all home parts is accepted, and its `home_address` is exactly `"Address: " + addr + ", PS: " + ps + ", PIN: " + pin + ", State: " + state + ", District: " + district` |
| Schema.EmptyFormRejected | src/app/page.tsx:173-210 | the empty form the page starts from is rejected with the messages of `student_code`, `name`, `mobile` and `place_of_living`, in that order |
| Filter.CanonicalCode | src/app/page.tsx:238 | the canonical code starts with "BWU/BCA/23/" and the rest is the entered code |
| Filter.RawCode | src/app/page.tsx:238 | removing the prefix recovers the entered code exactly when the prefix is there |
| Filter.CanonicalRoundTrip | src/app/page.tsx:238 | stripping the prefix from a canonical code gives back the entered code |
| Filter.CanonicalInjective | src/app/page.tsx:238 | different entered codes never share a canonical code |
| Filter.PrefixedOnce | src/app/page.tsx:238 | a 3-character code is prefixed exactly once: 14 characters; canonicalising again changes it |
| Filter.FilterData | src/app/page.tsx:221-239 | `student_code` becomes the canonical code; no key is invented and kept keys keep their values; home branch: no `pg…` key and no folded home part remain, and every other key stays; pg branch: no `home…` key remains and every other key stays; no branch: only `student_code` changes |
| Records.Document | src/server/schema/record.ts:4-15 | a record's document has the required fields, only declared fields, exactly one residence branch, and a `place_of_living` that names that branch |
| Records.DocumentRoundTrip | src/server/schema/record.ts:4-15 | reading a document back gives the record it was written from |
| Records.RecordOfRoundTrip | src/server/schema/record.ts:4-15 | every conforming one-branch document whose `place_of_living` is "home" when it holds `home_address` and "pg" otherwise is the document of the record it reads back as; a stored document always has that property |
| Render.ShouldRender | src/app/page.tsx:241-246 | a name that mentions neither "home" nor "pg" is shown whatever `place_of_living` holds; only names mentioning a branch can be hidden |
| Render.HomeNameShownUnlessPg | src/app/page.tsx:241-246 | a `home…` name without "pg" in it is shown exactly when a branch has been chosen and it is not pg |
| Render.PgNameShownUnlessHome | src/app/page.tsx:241-246 | a `pg…` name without "home" in it is shown exactly when a branch has been chosen and it is not home |
| Render.CoreFieldsAlwaysShown | src/app/page.tsx:241-246 | `student_code`, `name`, `mobile` and `place_of_living` are shown for every `place_of_living` value |
| Render.VisibleFieldsByBranch | src/app/page.tsx:241-246 | among the form's fields, the four core fields show before a choice; the core fields plus the chosen branch's five show after it |
| Pipeline.SubmitPayload | src/app/page.tsx:248-251 | a payload is produced iff the draft is acceptable; otherwise at least one issue is returned |
| Pipeline.SubmitBuildsRecord | src/app/page.tsx:221-239 | for an acceptable draft the payload is exactly the document of the per-branch record: canonical code, name, mobile, and the composed home address or the five pg fields |
| Pipeline.SubmitConforms | src/server/schema/record.ts:4-15 | an acceptable draft carries the fields its record needs, and its payload has the required stored fields, only declared ones, one residence branch, and reads back as the draft's record |
| Pipeline.HomePayload | src/app/page.tsx:224-229 | a home payload holds exactly the core fields and `home_address`: no `pg…` key, no folded part, composed address, other values unchanged |
| Pipeline.PgPayload | src/app/page.tsx:230-235 | a pg payload holds exactly the core and pg fields: no `home…` key, pg, name, mobile and residence values unchanged |
| Pipeline.VerifyRequestBody | src/app/page.tsx:353-357 | the existence-check request body holds only `student_code`: the prefix "BWU/BCA/23/" followed by the typed code ("undefined" when none) |
| Pipeline.VerifyUsesCanonicalCode | src/app/page.tsx:356 | the existence check's request carries `"BWU/BCA/23/" + code`, the same string as the normaliser's canonical code |
| Pipeline.VerifyMatchesSubmit | src/app/page.tsx:353-357 | for an acceptable draft, the existence check asks about exactly the `student_code` the submit stores |
| Pipeline.PersistedFieldsWereShown | src/app/page.tsx:241-246 | every field a submit stores was on screen for the chosen branch |
| Pipeline.PgSubmissionExample | src/app/page.tsx:221-239 | the pg example stores code "BWU/BCA/23/406" and the five pg values as entered |
| Pipeline.HomeSubmissionExample | src/app/page.tsx:188-239 | the home example stores "Address: 12 St, PS: Central, PIN: 700001, State: WB, District: Kolkata" |

## Left out

- Page markup, form-library wiring and notifications are not modelled. This covers React rendering, `useForm`/`zodResolver` and toast messages. Validation is modelled as a function on drafts instead.
- The posting of the payload and the existence-check request are not modelled as I/O. The model covers the request body and the payload; the HTTP exchange and its responses are out of scope.
- The page's `isSubmitting`, `isAcknowledged`, `loading` and `check` flags are not modelled. `isSubmitting` and `loading` replace the Submit and Check buttons with busy buttons while a request is in flight. `isAcknowledged` keeps Submit disabled until the acknowledgement box is ticked. `check` shows a tick after a successful existence check.
- The existence-check endpoint (`src/app/api/verify/route.ts`) is not modelled. It is a database lookup whose contents the model cannot see.
- The database connection (`src/server/db/connect.ts`) is process lifecycle and I/O.
- Stored timestamps and the storage layer behind the record declaration are not modelled.
- The `required` attribute on the `home_address` textarea (src/app/page.tsx:335) is not modelled. It is a browser check that runs before the schema and blocks a submit with an empty home address; the model describes what the schema alone accepts.
- Records.RecordOf: the record declaration accepts any string as `place_of_living`. The model reads back only documents whose `place_of_living` names the branch they hold, which every document the form stores does; other documents read back as `None`.
- Schema.CheckField: lengths are counted in Unicode scalar values, while the page counts UTF-16 code units. The two differ only for characters outside the Basic Multilingual Plane.
- Schema.CheckField: drafts hold only strings. The library's wrong-type issues for non-string values are not modelled; the form's inputs always yield strings.
- Schema.Validate: an issue's path is a single field name rather than the library's path array. The issue text for an unknown enumeration value follows the library's default wording.
