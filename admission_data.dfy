/**
 * The admission form's data, shared by the client form and the server action
 * (`AdmissionFormData`). The scalar keys are gathered in `Scalars`, in the
 * order they are declared; the two row lists sit beside them.
 */
module AdmissionData {
  import opened Optional

  /** One row of the sibling section. */
  datatype Sibling = Sibling(
    name: string,
    classGrade: string,
    rollNumber: Option<string>,
    branch: string)

  /** One row of the vaccination section; the date is free text, not a calendar date. */
  datatype Vaccination = Vaccination(vaccineName: string, vaccinationDate: string)

  /** Every scalar field of the form, required ones as `string`, optional ones as `Option<string>`. */
  datatype Scalars = Scalars(
    // Basic information
    schoolBranch: string,
    purposeOfForm: string,
    academicYear: string,
    // Student's personal details
    studentFullName: string,
    dateOfBirth: string,
    gender: string,
    nationality: string,
    religion: Option<string>,
    casteCategory: string,
    subCaste: Option<string>,
    aadhaarNumber: string,
    bloodGroup: Option<string>,
    identificationMarks: Option<string>,
    specialNeedsOrDisabilities: Option<string>,
    currentResidentialAddress: string,
    permanentAddress: Option<string>,
    // Academic details
    admissionType: string,
    currentLastStandard: Option<string>,
    currentLastSection: Option<string>,
    standardApplyingFor: string,
    previousSchoolName: Option<string>,
    previousSchoolAddress: Option<string>,
    lastClassAttended: Option<string>,
    yearOfPassingLastClass: Option<string>,
    marksPercentageLastExam: Option<string>,
    // Re-admission
    isRejoining: bool,
    previousRollNumber: Option<string>,
    yearStandardWhenLeft: Option<string>,
    reasonForLeaving: Option<string>,
    reasonForRejoining: Option<string>,
    extracurricularInterests: Option<string>,
    // Siblings
    hasSiblingsInSchool: bool,
    // Parents and guardian
    fatherFullName: string,
    fatherOccupation: string,
    fatherAnnualIncome: Option<string>,
    fatherMobileNumber: string,
    fatherEmail: Option<string>,
    fatherAadhaarNumber: Option<string>,
    motherFullName: string,
    motherOccupation: string,
    motherAnnualIncome: Option<string>,
    motherMobileNumber: string,
    motherEmail: Option<string>,
    motherAadhaarNumber: Option<string>,
    guardianName: Option<string>,
    guardianRelation: Option<string>,
    guardianOccupation: Option<string>,
    guardianMobileNumber: Option<string>,
    guardianAadhaarNumber: Option<string>,
    emergencyContactName: Option<string>,
    emergencyContactRelation: Option<string>,
    emergencyContactMobile: Option<string>,
    // Transport and medical
    transportRequired: bool,
    pickupDropLocation: Option<string>,
    medicalHistoryOrAllergies: Option<string>,
    // Declaration
    declarationAccepted: bool)

  /** The whole form; either list may be absent. */
  datatype AdmissionFormData = AdmissionFormData(
    scalars: Scalars,
    siblings: Option<seq<Sibling>>,
    vaccinations: Option<seq<Vaccination>>)
}
