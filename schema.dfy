/**
 * The admission form's validation schema. Each key that carries a check has a
 * `Rule`; the rows of the two lists are checked one by one; `Validate` maps
 * every failing field path to its message, and the form is accepted exactly
 * when that map is empty. Keys declared `.optional()` (and the three section
 * flags, plain `z.boolean()`) carry no check and so have no path here.
 */
module Schema {
  import opened Optional
  import opened Decimal
  import opened AdmissionData

  /** The scalar keys that carry a check. */
  datatype FieldName =
    | SchoolBranch | PurposeOfForm | AcademicYear
    | StudentFullName | DateOfBirth | Gender | Nationality | CasteCategory | AadhaarNumber
    | CurrentResidentialAddress
    | AdmissionType | StandardApplyingFor
    | FatherFullName | FatherOccupation | FatherMobileNumber | FatherEmail
    | MotherFullName | MotherOccupation | MotherMobileNumber | MotherEmail
    | DeclarationAccepted

  /** The checked keys of a sibling row (`rollNumber` is optional). */
  datatype SiblingKey = Name | ClassGrade | Branch

  /** The checked keys of a vaccination row. */
  datatype VaccinationKey = VaccineName | VaccinationDate

  /** A field path: `aadhaarNumber`, `siblings.<index>.<key>` or `vaccinations.<index>.<key>`. */
  datatype Path =
    | Top(field: FieldName)
    | SiblingAt(index: nat, siblingKey: SiblingKey)
    | VaccinationAt(index: nat, vaccinationKey: VaccinationKey)

  /** The kinds of check the schema uses. */
  datatype Rule =
    | NonEmpty(text: string, message: string)             // z.string().min(1, message)
    | DigitRun(text: string, count: nat, message: string) // z.string().regex(/^\d{count}$/, message)
    | EmailOrEmpty(email: Option<string>)                 // z.string().email().optional().or(z.literal(''))
    | MustBeTrue(flag: bool, message: string)             // z.boolean().refine(val => val === true, message)

  /** The message of the email check, the one the union reports when both of its options fail. */
  const InvalidEmail := "Invalid email"
  const DeclarationMessage := "You must accept the declaration"

  /** The message a rule produces when it fails; `isEmail` is the email syntax check. */
  function RuleError(r: Rule, isEmail: string -> bool): Option<string>
  {
    match r
    case NonEmpty(text, message) => if |text| < 1 then Some(message) else None
    case DigitRun(text, count, message) => if MatchesDigitRun(text, count) then None else Some(message)
    case EmailOrEmpty(email) =>
      if email == None || email == Some("") || isEmail(email.value) then None else Some(InvalidEmail)
    case MustBeTrue(flag, message) => if flag then None else Some(message)
  }

  /** The rule on each checked scalar key. */
  function FieldRule(s: Scalars, n: FieldName): Rule
  {
    match n
    case SchoolBranch => NonEmpty(s.schoolBranch, "School branch is required")
    case PurposeOfForm => NonEmpty(s.purposeOfForm, "Purpose is required")
    case AcademicYear => NonEmpty(s.academicYear, "Academic year is required")
    case StudentFullName => NonEmpty(s.studentFullName, "Student name is required")
    case DateOfBirth => NonEmpty(s.dateOfBirth, "Date of birth is required")
    case Gender => NonEmpty(s.gender, "Gender is required")
    case Nationality => NonEmpty(s.nationality, "Nationality is required")
    case CasteCategory => NonEmpty(s.casteCategory, "Caste category is required")
    case AadhaarNumber => DigitRun(s.aadhaarNumber, 12, "Aadhaar must be 12 digits")
    case CurrentResidentialAddress => NonEmpty(s.currentResidentialAddress, "Current address is required")
    case AdmissionType => NonEmpty(s.admissionType, "Admission type is required")
    case StandardApplyingFor => NonEmpty(s.standardApplyingFor, "Standard applying for is required")
    case FatherFullName => NonEmpty(s.fatherFullName, "Father's name is required")
    case FatherOccupation => NonEmpty(s.fatherOccupation, "Father's occupation is required")
    case FatherMobileNumber => DigitRun(s.fatherMobileNumber, 10, "Mobile must be 10 digits")
    case FatherEmail => EmailOrEmpty(s.fatherEmail)
    case MotherFullName => NonEmpty(s.motherFullName, "Mother's name is required")
    case MotherOccupation => NonEmpty(s.motherOccupation, "Mother's occupation is required")
    case MotherMobileNumber => DigitRun(s.motherMobileNumber, 10, "Mobile must be 10 digits")
    case MotherEmail => EmailOrEmpty(s.motherEmail)
    case DeclarationAccepted => MustBeTrue(s.declarationAccepted, DeclarationMessage)
  }

  /** The rule on each checked key of a sibling row. */
  function SiblingRule(x: Sibling, k: SiblingKey): Rule
  {
    match k
    case Name => NonEmpty(x.name, "Sibling name is required")
    case ClassGrade => NonEmpty(x.classGrade, "Class/Grade is required")
    case Branch => NonEmpty(x.branch, "Branch is required")
  }

  /** The rule on each checked key of a vaccination row. */
  function VaccinationRule(x: Vaccination, k: VaccinationKey): Rule
  {
    match k
    case VaccineName => NonEmpty(x.vaccineName, "Vaccine name is required")
    case VaccinationDate => NonEmpty(x.vaccinationDate, "Vaccination date is required")
  }

  /** The error at one path; an absent list, and an index past its end, have none. */
  function PathError(f: AdmissionFormData, p: Path, isEmail: string -> bool): Option<string>
  {
    match p
    case Top(n) => RuleError(FieldRule(f.scalars, n), isEmail)
    case SiblingAt(i, k) =>
      var rows := OrEmpty(f.siblings);
      if i < |rows| then RuleError(SiblingRule(rows[i], k), isEmail) else None
    case VaccinationAt(i, k) =>
      var rows := OrEmpty(f.vaccinations);
      if i < |rows| then RuleError(VaccinationRule(rows[i], k), isEmail) else None
  }

  /** Every path the schema visits for this form: each checked key, and each key of each row. */
  function CheckedPaths(f: AdmissionFormData): set<Path>
  {
    (set n: FieldName :: Top(n))
    + (set i: nat, k: SiblingKey | i < |OrEmpty(f.siblings)| :: SiblingAt(i, k))
    + (set i: nat, k: VaccinationKey | i < |OrEmpty(f.vaccinations)| :: VaccinationAt(i, k))
  }

  /** The error map of the whole form: each visited path whose check fails, with its message. */
  function Validate(f: AdmissionFormData, isEmail: string -> bool): map<Path, string>
  {
    map p | p in CheckedPaths(f) && PathError(f, p, isEmail).Some? :: PathError(f, p, isEmail).value
  }
}
