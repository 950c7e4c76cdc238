# School admission form — a verified model

This project models the two pieces of the school admission form application
that carry rules:

- **The admission form** (`app/components/AdmissionForm.tsx`):
  - the validation schema. It is modelled as a pure function
    `Schema.Validate` from a form to a map from field path (`schoolBranch`,
    `siblings.2.branch`, …) to error message. A form may be submitted
    exactly when that map is empty;
  - the default values;
  - the state the form keeps: its values, and whether the permanent
    address mirrors the current one;
  - the handlers that change that state: copy-address, current academic
    year, adding and removing sibling and vaccination rows, and reset after
    a successful submission;
  - the conditions that decide which sections are on screen.
- **The server action** (`app/actions/admission.ts`):
  - the form data type;
  - the create payload, in which child rows are nested only when their list
    is present and not empty;
  - the all-or-nothing insert into an admissions store, modelled as a map
    from id to record;
  - the tagged success or failure result.

## Files and modules

| file | module | contents |
|---|---|---|
| `optional.dfy` | `Optional` | `Option` and `OrEmpty`, which reads an absent list as empty |
| `decimal.dfy` | `Decimal` | digit strings (the schema's `^\d{n}$` patterns), decimal rendering of a year, and the `"Y-(Y+1)"` academic-year text with its parser |
| `admission_data.dfy` | `AdmissionData` | the form data: 56 scalar fields in source order, plus the optional sibling and vaccination lists |
| `schema.dfy` | `Schema` | the rule of each checked key with its message, and `Validate` |
| `schema_properties.dfy` | `SchemaProperties` | what each rule means, and "no errors iff the form is acceptable" |
| `form_state.dfy` | `FormController` | the defaults, the visibility conditions, and the `FormState` class with its handlers |
| `submission.dfy` | `Submission` | the create payload, stored records, and the `AdmissionStore` class |
| `admission_flow.dfy` | `AdmissionFlow` | one submit: validate, then store, then reset |

### Modelling choices

- **Field types.**
  - Required text fields are `string`. An empty input gives `""`.
  - Optional text fields are `Option<string>`. The three yes/no answers and
    the declaration are `bool`.
- **Email syntax** belongs to the validation library and is not visible. It
  is the parameter `isEmail: string -> bool` of every validation member.
- **The current year** comes from the clock. It is the parameter `year` of
  `HandleCurrentYear`.
- **The database's behaviour** in one create call is the parameter
  `outcome`: either `Inserted(newId)` or `Threw`.
  - An id that is already taken is treated as a failed insert, as a primary
    key constraint would make it.
  - Parent and child rows are written together or not at all.
- **The copy-address toggle** is component state, separate from the form
  library's values. `Reset` therefore leaves it as it was.

## Model

| member | source | states |
|---|---|---|
| Decimal.DigitRunIff | app/components/AdmissionForm.tsx:28 | a string matches `^\d{n}$` iff it has exactly n characters and every one is in '0'..'9' |
| Decimal.NatToDecimal | app/components/AdmissionForm.tsx:158-160 | a year renders as a non-empty digit string with no leading zero |
| Decimal.DecimalRoundTrip | app/components/AdmissionForm.tsx:158-160 | reading back a rendered year gives the same number |
| Decimal.YearRangeRoundTrip | app/components/AdmissionForm.tsx:156-162 | the academic-year text for year Y parses back as exactly (Y, Y+1) |
| SchemaProperties.ValidateAt | app/components/AdmissionForm.tsx:14-99 | a path is in the error map iff its rule fails, and it maps to that rule's message |
| SchemaProperties.BasicInfoRequired | app/components/AdmissionForm.tsx:16-18 | school branch, purpose and academic year each give an error iff empty; any non-empty text passes, whitespace included |
| SchemaProperties.StudentIdentityRequired | app/components/AdmissionForm.tsx:21-23 | student name, date of birth and gender each give an error iff empty |
| SchemaProperties.StudentBackgroundRequired | app/components/AdmissionForm.tsx:24-32 | nationality, caste category and current address each give an error iff empty |
| SchemaProperties.AcademicRequired | app/components/AdmissionForm.tsx:36-39 | admission type and standard applying for each give an error iff empty |
| SchemaProperties.ParentRequired | app/components/AdmissionForm.tsx:63-71 | both parents' names and occupations each give an error iff empty |
| SchemaProperties.AadhaarRule | app/components/AdmissionForm.tsx:28 | no Aadhaar error iff exactly 12 characters, all digits; otherwise "Aadhaar must be 12 digits" |
| SchemaProperties.FatherMobileRule | app/components/AdmissionForm.tsx:66 | no error iff exactly 10 digits; otherwise "Mobile must be 10 digits" |
| SchemaProperties.MotherMobileRule | app/components/AdmissionForm.tsx:73 | no error iff exactly 10 digits; otherwise "Mobile must be 10 digits" |
| SchemaProperties.EmailRule | app/components/AdmissionForm.tsx:67-74 | a parent's email passes iff it is absent, empty, or satisfies `isEmail` |
| SchemaProperties.DeclarationRule | app/components/AdmissionForm.tsx:96-98 | an error iff the declaration is unticked, with "You must accept the declaration", and then the form never passes, whatever else it holds |
| SchemaProperties.SiblingRowRule | app/components/AdmissionForm.tsx:55-60 | for row i of the list, an error at `siblings.i.name`, `.classGrade` or `.branch` iff that row exists and the field is empty, with "Sibling name is required", "Class/Grade is required" or "Branch is required"; an absent list has no rows |
| SchemaProperties.VaccinationRowRule | app/components/AdmissionForm.tsx:91-94 | for row i, an error at `vaccinations.i.vaccineName` or `.vaccinationDate` iff that row exists and the field is empty, with "Vaccine name is required" or "Vaccination date is required"; an absent list has no rows |
| SchemaProperties.OptionalFieldsIrrelevant | app/components/AdmissionForm.tsx:25-85 | two forms that agree on the 21 checked fields and the row lists get the same errors, so no optional field can cause one |
| SchemaProperties.FlagsDoNotAffectValidation | app/components/AdmissionForm.tsx:46-88 | the siblings, rejoining and transport answers change no error; rows are checked even when "has siblings" is false |
| SchemaProperties.AcceptableScalarsPass | app/components/AdmissionForm.tsx:14-99 | in an acceptable form every top-level rule passes |
| SchemaProperties.AcceptableFormsPass | app/components/AdmissionForm.tsx:14-99 | an acceptable form has no errors |
| SchemaProperties.PassingFormsAcceptable | app/components/AdmissionForm.tsx:14-99 | a form with no errors is acceptable |
| SchemaProperties.ValidateEmptyIffAcceptable | app/components/AdmissionForm.tsx:14-99 | the error map is empty iff every required field is filled, the Aadhaar and mobile numbers have the right digit count, the emails are empty or well formed, the declaration is ticked and every row is complete |
| FormController.DefaultsAreRejected | app/components/AdmissionForm.tsx:118-126 | the default form is refused: declaration unticked, student name missing; nationality "Indian" passes |
| FormController.RemoveAt | app/components/AdmissionForm.tsx:714 | removing element i keeps the elements before it, shifts the later ones down one place in order, and loses only that element |
| FormController.RemoveFirstOfTwoAppended | app/components/AdmissionForm.tsx:714 | of two rows appended last, removing the first leaves the second in its place and every earlier row as it was |
| FormController.RemoveAppended | app/components/AdmissionForm.tsx:783 | removing a row just appended (line 783, removed as at line 714) restores the list |
| FormController.VisibleSections | app/components/AdmissionForm.tsx:498 | the current/last standard fields show iff the admission type is "Existing Student" or "Re-Admission" (line 498); re-admission fields iff rejoining (line 625); sibling rows iff "has siblings" (line 706); the pickup location iff transport is required (line 1089); the permanent address is locked iff copy-address is on (line 466) |
| FormController.AppendedSiblingFails | app/components/AdmissionForm.tsx:783 | a newly added empty sibling row has an error at its name, class/grade and branch |
| FormController.AppendedVaccinationFails | app/components/AdmissionForm.tsx:1177 | a newly added empty vaccination row has an error at both of its fields |
| FormController.CurrentYearPasses | app/components/AdmissionForm.tsx:156-162 | the academic year filled in from the clock always passes its rule |
| FormController.FormState.constructor | app/components/AdmissionForm.tsx:104-127 | a new form holds the default values with copy-address off |
| FormController.FormState.SetCurrentAddress | app/components/AdmissionForm.tsx:143-153 | editing the current address changes only that field; a permanent address copied earlier is not updated |
| FormController.FormState.HandleCopyAddress | app/components/AdmissionForm.tsx:146-153 | on: the permanent address becomes the current address at that moment; off: it becomes ""; the toggle records the choice; nothing else changes |
| FormController.FormState.HandleCurrentYear | app/components/AdmissionForm.tsx:156-162 | on: the academic year becomes "Y-(Y+1)", which parses back as (Y, Y+1); off: nothing changes |
| FormController.FormState.AppendSibling | app/components/AdmissionForm.tsx:783 | one all-empty row is added at the end; nothing else changes |
| FormController.FormState.RemoveSibling | app/components/AdmissionForm.tsx:714 | only row i is removed, the rest keep their order; nothing else changes |
| FormController.FormState.AppendVaccination | app/components/AdmissionForm.tsx:1177 | one empty vaccination row is added at the end; nothing else changes |
| FormController.FormState.RemoveVaccination | app/components/AdmissionForm.tsx:1135 | only row i is removed, the rest keep their order; nothing else changes |
| FormController.FormState.Reset | app/components/AdmissionForm.tsx:171 | the values become the defaults of lines 118-126; the copy-address toggle keeps its value |
| FormController.AppendTwoRemoveFirst | app/components/AdmissionForm.tsx:714 | adding two rows and removing the first leaves one empty row |
| Submission.NestedRows | app/actions/admission.ts:139-141 | a nested create exists iff the list is present and has at least one row, and then it holds exactly that list (the same rule serves vaccinations at lines 174-176) |
| Submission.NestedRowsLossless | app/actions/admission.ts:174-176 | the rows created are the rows given, an absent list giving none (siblings at lines 139-141, vaccinations here) |
| Submission.CreatePayload | app/actions/admission.ts:96-181 | every scalar is copied unchanged; sibling and vaccination rows are nested iff their list is present and not empty, in order |
| Submission.Persist | app/actions/admission.ts:96-181 | the stored row carries the new id and the payload's scalars |
| Submission.StoredRecordIsInput | app/actions/admission.ts:96-181 | the stored record is the submitted data: same scalars (nothing is validated again, so even an unticked declaration is stored) and the same rows in order |
| Submission.SiblingRowsIgnoreFlag | app/actions/admission.ts:138-141 | sibling rows are created whenever the list has rows, even when "has siblings" is false |
| Submission.AdmissionStore.constructor | app/actions/admission.ts:96 | the store starts empty |
| Submission.AdmissionStore.SubmitAdmissionForm | app/actions/admission.ts:94-189 | success iff the insert went through under a new id, returning that id and adding exactly that one record; failure leaves the store unchanged and returns "Failed to submit form. Please try again."; existing records are never changed |
| AdmissionFlow.SubmitForm | app/components/AdmissionForm.tsx:164-181 | the server is called iff the schema reports no errors; the stored form is then acceptable and its declaration ticked; on success the form is reset; on failure or errors the values stay; the copy-address toggle is never touched |

## Left out

- Markup, styling, select option lists and `maxLength` attributes are left out. They are presentation only; in particular, any non-empty school branch passes the schema even when it is not in the list.
- How the validation and form libraries work inside is left out. The schema's meaning is modelled directly. Email syntax is the parameter `isEmail`, since its pattern is not visible.
- A required field that was never touched may be absent rather than `""` in the form library. The model treats it as `""`, which the schema refuses in the same way. The message for an absent value would be the library's "Required" rather than the field's own message.
- The effect of the `disabled` attribute on the permanent-address input while copy-address is on is left out. Whether a disabled input's value is submitted depends on the form library version.
- The clock is the `year` parameter of `HandleCurrentYear`. Years are natural numbers, so negative years are not modelled.
- Asynchronous submission and UI feedback are left out: `isSubmitting`, toast messages, and the unused date-picker state `selectedDate`. They are UI plumbing. A network error thrown by the server action call is not modelled separately from the action's own failure result.
- Database client internals are left out: generated ids for child rows, `createdAt`, and the `revalidatePath` cache refresh. They are framework I/O; the store is an abstract map from id to record.
- Console logging of the error is left out.
- Submission.AdmissionStore.SubmitAdmissionForm: does not model a failure of the cache refresh that follows the insert inside the same error handler. There the source would report the failure message with the record already stored; in the model a failure always leaves the store unchanged, because the refresh is framework I/O outside the store.
- The admin pages are not part of this model (listing ordered by the database, a details page). They only render stored records.
- SchemaProperties.BasicInfoRequired, SchemaProperties.StudentIdentityRequired, SchemaProperties.StudentBackgroundRequired, SchemaProperties.AcademicRequired, SchemaProperties.ParentRequired: state when the error is present, not its text. The text of each message is fixed by `Schema.FieldRule`, and `SchemaProperties.ValidateAt` ties it to the error map.
- SchemaProperties.EmailRule: states when the error is present, not its text ("Invalid email", the first alternative's message).
