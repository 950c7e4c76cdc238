/**
 * What the admission schema promises, stated over `Validate`: when each path
 * fails and with which message, that nothing else can fail, and an
 * independent description of the forms it accepts.
 */
module SchemaProperties {
  import opened Optional
  import opened Decimal
  import opened AdmissionData
  import opened Schema

  predicate EmailAcceptable(e: Option<string>, isEmail: string -> bool)
  {
    e == None || e == Some("") || isEmail(e.value)
  }

  predicate SiblingComplete(x: Sibling)
  {
    |x.name| > 0 && |x.classGrade| > 0 && |x.branch| > 0
  }

  predicate VaccinationComplete(x: Vaccination)
  {
    |x.vaccineName| > 0 && |x.vaccinationDate| > 0
  }

  /** The forms the schema accepts, written field by field; the section flags play no part. */
  predicate Acceptable(f: AdmissionFormData, isEmail: string -> bool)
  {
    var s := f.scalars;
    |s.schoolBranch| > 0 && |s.purposeOfForm| > 0 && |s.academicYear| > 0
    && |s.studentFullName| > 0 && |s.dateOfBirth| > 0 && |s.gender| > 0 && |s.nationality| > 0
    && |s.casteCategory| > 0 && |s.currentResidentialAddress| > 0
    && |s.admissionType| > 0 && |s.standardApplyingFor| > 0
    && |s.fatherFullName| > 0 && |s.fatherOccupation| > 0
    && |s.motherFullName| > 0 && |s.motherOccupation| > 0
    && |s.aadhaarNumber| == 12 && AllDigits(s.aadhaarNumber)
    && |s.fatherMobileNumber| == 10 && AllDigits(s.fatherMobileNumber)
    && |s.motherMobileNumber| == 10 && AllDigits(s.motherMobileNumber)
    && EmailAcceptable(s.fatherEmail, isEmail) && EmailAcceptable(s.motherEmail, isEmail)
    && s.declarationAccepted
    && (forall i :: 0 <= i < |OrEmpty(f.siblings)| ==> SiblingComplete(OrEmpty(f.siblings)[i]))
    && (forall i :: 0 <= i < |OrEmpty(f.vaccinations)| ==> VaccinationComplete(OrEmpty(f.vaccinations)[i]))
  }

  /** Two forms that agree on every checked value and on the rows. */
  predicate SameCheckedValues(f: AdmissionFormData, g: AdmissionFormData)
  {
    var s, t := f.scalars, g.scalars;
    s.schoolBranch == t.schoolBranch && s.purposeOfForm == t.purposeOfForm && s.academicYear == t.academicYear
    && s.studentFullName == t.studentFullName && s.dateOfBirth == t.dateOfBirth && s.gender == t.gender
    && s.nationality == t.nationality && s.casteCategory == t.casteCategory
    && s.aadhaarNumber == t.aadhaarNumber && s.currentResidentialAddress == t.currentResidentialAddress
    && s.admissionType == t.admissionType && s.standardApplyingFor == t.standardApplyingFor
    && s.fatherFullName == t.fatherFullName && s.fatherOccupation == t.fatherOccupation
    && s.fatherMobileNumber == t.fatherMobileNumber && s.fatherEmail == t.fatherEmail
    && s.motherFullName == t.motherFullName && s.motherOccupation == t.motherOccupation
    && s.motherMobileNumber == t.motherMobileNumber && s.motherEmail == t.motherEmail
    && s.declarationAccepted == t.declarationAccepted
    && f.siblings == g.siblings && f.vaccinations == g.vaccinations
  }

  /** A path is in the error map exactly when its check fails, and then maps to that check's message. */
  lemma ValidateAt(f: AdmissionFormData, isEmail: string -> bool, p: Path)
    ensures p in Validate(f, isEmail) <==> PathError(f, p, isEmail).Some?
    ensures p in Validate(f, isEmail) ==> Validate(f, isEmail)[p] == PathError(f, p, isEmail).value
  {
    if PathError(f, p, isEmail).Some? {
      assert p in CheckedPaths(f);
    }
  }

  /** Section 1: each required value fails exactly when it is empty; a blank but non-empty value passes. */
  lemma BasicInfoRequired(f: AdmissionFormData, isEmail: string -> bool)
    ensures Top(SchoolBranch) in Validate(f, isEmail) <==> |f.scalars.schoolBranch| == 0
    ensures Top(PurposeOfForm) in Validate(f, isEmail) <==> |f.scalars.purposeOfForm| == 0
    ensures Top(AcademicYear) in Validate(f, isEmail) <==> |f.scalars.academicYear| == 0
  {
    ValidateAt(f, isEmail, Top(SchoolBranch));
    ValidateAt(f, isEmail, Top(PurposeOfForm));
    ValidateAt(f, isEmail, Top(AcademicYear));
  }

  /** Section 2: each required value of the student's identity fails exactly when it is empty. */
  lemma StudentIdentityRequired(f: AdmissionFormData, isEmail: string -> bool)
    ensures Top(StudentFullName) in Validate(f, isEmail) <==> |f.scalars.studentFullName| == 0
    ensures Top(DateOfBirth) in Validate(f, isEmail) <==> |f.scalars.dateOfBirth| == 0
    ensures Top(Gender) in Validate(f, isEmail) <==> |f.scalars.gender| == 0
  {
    ValidateAt(f, isEmail, Top(StudentFullName));
    ValidateAt(f, isEmail, Top(DateOfBirth));
    ValidateAt(f, isEmail, Top(Gender));
  }

  /** Section 2: nationality, caste category and the current address fail exactly when empty. */
  lemma StudentBackgroundRequired(f: AdmissionFormData, isEmail: string -> bool)
    ensures Top(Nationality) in Validate(f, isEmail) <==> |f.scalars.nationality| == 0
    ensures Top(CasteCategory) in Validate(f, isEmail) <==> |f.scalars.casteCategory| == 0
    ensures Top(CurrentResidentialAddress) in Validate(f, isEmail) <==> |f.scalars.currentResidentialAddress| == 0
  {
    ValidateAt(f, isEmail, Top(Nationality));
    ValidateAt(f, isEmail, Top(CasteCategory));
    ValidateAt(f, isEmail, Top(CurrentResidentialAddress));
  }

  /** Section 3: the admission type and the standard applied for fail exactly when empty. */
  lemma AcademicRequired(f: AdmissionFormData, isEmail: string -> bool)
    ensures Top(AdmissionType) in Validate(f, isEmail) <==> |f.scalars.admissionType| == 0
    ensures Top(StandardApplyingFor) in Validate(f, isEmail) <==> |f.scalars.standardApplyingFor| == 0
  {
    ValidateAt(f, isEmail, Top(AdmissionType));
    ValidateAt(f, isEmail, Top(StandardApplyingFor));
  }

  /** Section 5: each parent's name and occupation fail exactly when empty. */
  lemma ParentRequired(f: AdmissionFormData, isEmail: string -> bool)
    ensures Top(FatherFullName) in Validate(f, isEmail) <==> |f.scalars.fatherFullName| == 0
    ensures Top(FatherOccupation) in Validate(f, isEmail) <==> |f.scalars.fatherOccupation| == 0
    ensures Top(MotherFullName) in Validate(f, isEmail) <==> |f.scalars.motherFullName| == 0
    ensures Top(MotherOccupation) in Validate(f, isEmail) <==> |f.scalars.motherOccupation| == 0
  {
    ValidateAt(f, isEmail, Top(FatherFullName));
    ValidateAt(f, isEmail, Top(FatherOccupation));
    ValidateAt(f, isEmail, Top(MotherFullName));
    ValidateAt(f, isEmail, Top(MotherOccupation));
  }

  /** The Aadhaar number passes exactly when it is twelve decimal digits. */
  lemma AadhaarRule(f: AdmissionFormData, isEmail: string -> bool)
    ensures Top(AadhaarNumber) !in Validate(f, isEmail)
      <==> |f.scalars.aadhaarNumber| == 12 && AllDigits(f.scalars.aadhaarNumber)
    ensures Top(AadhaarNumber) in Validate(f, isEmail)
      ==> Validate(f, isEmail)[Top(AadhaarNumber)] == "Aadhaar must be 12 digits"
  {
    ValidateAt(f, isEmail, Top(AadhaarNumber));
    DigitRunIff(f.scalars.aadhaarNumber, 12);
  }

  /** The father's mobile number passes exactly when it is ten decimal digits. */
  lemma FatherMobileRule(f: AdmissionFormData, isEmail: string -> bool)
    ensures Top(FatherMobileNumber) !in Validate(f, isEmail)
      <==> |f.scalars.fatherMobileNumber| == 10 && AllDigits(f.scalars.fatherMobileNumber)
    ensures Top(FatherMobileNumber) in Validate(f, isEmail)
      ==> Validate(f, isEmail)[Top(FatherMobileNumber)] == "Mobile must be 10 digits"
  {
    ValidateAt(f, isEmail, Top(FatherMobileNumber));
    DigitRunIff(f.scalars.fatherMobileNumber, 10);
  }

  /** The mother's mobile number passes exactly when it is ten decimal digits. */
  lemma MotherMobileRule(f: AdmissionFormData, isEmail: string -> bool)
    ensures Top(MotherMobileNumber) !in Validate(f, isEmail)
      <==> |f.scalars.motherMobileNumber| == 10 && AllDigits(f.scalars.motherMobileNumber)
    ensures Top(MotherMobileNumber) in Validate(f, isEmail)
      ==> Validate(f, isEmail)[Top(MotherMobileNumber)] == "Mobile must be 10 digits"
  {
    ValidateAt(f, isEmail, Top(MotherMobileNumber));
    DigitRunIff(f.scalars.motherMobileNumber, 10);
  }

  /** An email passes when absent or empty, and otherwise exactly when it is well-formed. */
  lemma EmailRule(f: AdmissionFormData, isEmail: string -> bool)
    ensures Top(FatherEmail) !in Validate(f, isEmail) <==> EmailAcceptable(f.scalars.fatherEmail, isEmail)
    ensures Top(MotherEmail) !in Validate(f, isEmail) <==> EmailAcceptable(f.scalars.motherEmail, isEmail)
  {
    ValidateAt(f, isEmail, Top(FatherEmail));
    ValidateAt(f, isEmail, Top(MotherEmail));
  }

  /** An unaccepted declaration always fails, with the fixed message, whatever else the form holds. */
  lemma DeclarationRule(f: AdmissionFormData, isEmail: string -> bool)
    ensures Top(DeclarationAccepted) in Validate(f, isEmail) <==> !f.scalars.declarationAccepted
    ensures !f.scalars.declarationAccepted
      ==> Validate(f, isEmail)[Top(DeclarationAccepted)] == DeclarationMessage && Validate(f, isEmail) != map[]
  {
    ValidateAt(f, isEmail, Top(DeclarationAccepted));
  }

  /** Sibling row i fails at a key exactly when the row exists and that value is empty, with that key's message. */
  lemma SiblingRowRule(f: AdmissionFormData, isEmail: string -> bool, i: nat, k: SiblingKey)
    ensures var rows := OrEmpty(f.siblings);
      SiblingAt(i, k) in Validate(f, isEmail)
      <==> (i < |rows|
            && match k
               case Name => |rows[i].name| == 0
               case ClassGrade => |rows[i].classGrade| == 0
               case Branch => |rows[i].branch| == 0)
    ensures SiblingAt(i, k) in Validate(f, isEmail) ==>
      Validate(f, isEmail)[SiblingAt(i, k)]
      == (match k
          case Name => "Sibling name is required"
          case ClassGrade => "Class/Grade is required"
          case Branch => "Branch is required")
  {
    ValidateAt(f, isEmail, SiblingAt(i, k));
  }

  /** Vaccination row i fails at a key exactly when the row exists and that value is empty, with that key's message. */
  lemma VaccinationRowRule(f: AdmissionFormData, isEmail: string -> bool, i: nat, k: VaccinationKey)
    ensures var rows := OrEmpty(f.vaccinations);
      VaccinationAt(i, k) in Validate(f, isEmail)
      <==> (i < |rows|
            && match k
               case VaccineName => |rows[i].vaccineName| == 0
               case VaccinationDate => |rows[i].vaccinationDate| == 0)
    ensures VaccinationAt(i, k) in Validate(f, isEmail) ==>
      Validate(f, isEmail)[VaccinationAt(i, k)]
      == (match k
          case VaccineName => "Vaccine name is required"
          case VaccinationDate => "Vaccination date is required")
  {
    ValidateAt(f, isEmail, VaccinationAt(i, k));
  }

  /** Optional values never matter: forms that agree on the checked values and the rows get the same errors. */
  lemma OptionalFieldsIrrelevant(f: AdmissionFormData, g: AdmissionFormData, isEmail: string -> bool)
    requires SameCheckedValues(f, g)
    ensures Validate(f, isEmail) == Validate(g, isEmail)
  {
    forall n ensures FieldRule(f.scalars, n) == FieldRule(g.scalars, n) {
    }
    assert CheckedPaths(f) == CheckedPaths(g);
    forall p ensures PathError(f, p, isEmail) == PathError(g, p, isEmail) {
    }
  }

  /** The section flags never change the outcome: rows are checked even when their section is hidden. */
  lemma FlagsDoNotAffectValidation(f: AdmissionFormData, isEmail: string -> bool, siblings: bool, rejoining: bool, transport: bool)
    ensures var g := f.(scalars := f.scalars.(hasSiblingsInSchool := siblings, isRejoining := rejoining,
                                              transportRequired := transport));
      Validate(g, isEmail) == Validate(f, isEmail)
  {
    var g := f.(scalars := f.scalars.(hasSiblingsInSchool := siblings, isRejoining := rejoining,
                                      transportRequired := transport));
    OptionalFieldsIrrelevant(f, g, isEmail);
  }

  /** In an `Acceptable` form no scalar rule fails. */
  lemma AcceptableScalarsPass(f: AdmissionFormData, isEmail: string -> bool, n: FieldName)
    requires Acceptable(f, isEmail)
    ensures RuleError(FieldRule(f.scalars, n), isEmail) == None
  {
    match n
    case AadhaarNumber => DigitRunIff(f.scalars.aadhaarNumber, 12);
    case FatherMobileNumber => DigitRunIff(f.scalars.fatherMobileNumber, 10);
    case MotherMobileNumber => DigitRunIff(f.scalars.motherMobileNumber, 10);
    case _ =>
  }

  /** Every `Acceptable` form passes. */
  lemma AcceptableFormsPass(f: AdmissionFormData, isEmail: string -> bool)
    requires Acceptable(f, isEmail)
    ensures Validate(f, isEmail) == map[]
  {
    forall p | p in Validate(f, isEmail) ensures false {
      ValidateAt(f, isEmail, p);
      match p
      case Top(n) => AcceptableScalarsPass(f, isEmail, n);
      case SiblingAt(i, k) =>
      case VaccinationAt(i, k) =>
    }
  }

  /** Every form that passes is `Acceptable`. */
  lemma PassingFormsAcceptable(f: AdmissionFormData, isEmail: string -> bool)
    requires Validate(f, isEmail) == map[]
    ensures Acceptable(f, isEmail)
  {
    var sibs, vacs := OrEmpty(f.siblings), OrEmpty(f.vaccinations);
    BasicInfoRequired(f, isEmail);
    StudentIdentityRequired(f, isEmail);
    StudentBackgroundRequired(f, isEmail);
    AcademicRequired(f, isEmail);
    ParentRequired(f, isEmail);
    AadhaarRule(f, isEmail);
    FatherMobileRule(f, isEmail);
    MotherMobileRule(f, isEmail);
    EmailRule(f, isEmail);
    DeclarationRule(f, isEmail);
    forall i | 0 <= i < |sibs| ensures SiblingComplete(sibs[i]) {
      SiblingRowRule(f, isEmail, i, Name);
      SiblingRowRule(f, isEmail, i, ClassGrade);
      SiblingRowRule(f, isEmail, i, Branch);
    }
    forall i | 0 <= i < |vacs| ensures VaccinationComplete(vacs[i]) {
      VaccinationRowRule(f, isEmail, i, VaccineName);
      VaccinationRowRule(f, isEmail, i, VaccinationDate);
    }
  }

  /** The schema accepts a form exactly when it is `Acceptable`. */
  lemma ValidateEmptyIffAcceptable(f: AdmissionFormData, isEmail: string -> bool)
    ensures Validate(f, isEmail) == map[] <==> Acceptable(f, isEmail)
  {
    if Validate(f, isEmail) == map[] {
      PassingFormsAcceptable(f, isEmail);
    }
    if Acceptable(f, isEmail) {
      AcceptableFormsPass(f, isEmail);
    }
  }
}
