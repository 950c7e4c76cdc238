/**
 * The admission form's client-side state: the current values, the
 * "same as current address" toggle, the handlers that change them, the
 * default values restored after a successful submission, and which
 * conditional sections are on screen.
 */
module FormController {
  import opened Optional
  import opened Decimal
  import opened AdmissionData
  import opened Schema
  import opened SchemaProperties

  /** The row the "Add Sibling" button appends. */
  const EmptySibling := Sibling(name := "", classGrade := "", rollNumber := Some(""), branch := "")

  /** The row the "Add Vaccination" button appends. */
  const EmptyVaccination := Vaccination(vaccineName := "", vaccinationDate := "")

  /**
   * The form's default values. Only seven keys have one; right after a reset
   * every other optional key is absent, since the defaults do not name it.
   * The required text fields, also without a default, are modelled as "",
   * which their inputs hold once rendered and which the schema refuses alike.
   */
  function DefaultValues(): AdmissionFormData
  {
    AdmissionFormData(
      scalars := Scalars(
        schoolBranch := "", purposeOfForm := "", academicYear := "",
        studentFullName := "", dateOfBirth := "", gender := "", nationality := "Indian",
        religion := None, casteCategory := "", subCaste := None, aadhaarNumber := "",
        bloodGroup := None, identificationMarks := None, specialNeedsOrDisabilities := None,
        currentResidentialAddress := "", permanentAddress := None,
        admissionType := "", currentLastStandard := None, currentLastSection := None,
        standardApplyingFor := "", previousSchoolName := None, previousSchoolAddress := None,
        lastClassAttended := None, yearOfPassingLastClass := None, marksPercentageLastExam := None,
        isRejoining := false, previousRollNumber := None, yearStandardWhenLeft := None,
        reasonForLeaving := None, reasonForRejoining := None, extracurricularInterests := None,
        hasSiblingsInSchool := false,
        fatherFullName := "", fatherOccupation := "", fatherAnnualIncome := None,
        fatherMobileNumber := "", fatherEmail := None, fatherAadhaarNumber := None,
        motherFullName := "", motherOccupation := "", motherAnnualIncome := None,
        motherMobileNumber := "", motherEmail := None, motherAadhaarNumber := None,
        guardianName := None, guardianRelation := None, guardianOccupation := None,
        guardianMobileNumber := None, guardianAadhaarNumber := None,
        emergencyContactName := None, emergencyContactRelation := None, emergencyContactMobile := None,
        transportRequired := false, pickupDropLocation := None, medicalHistoryOrAllergies := None,
        declarationAccepted := false),
      siblings := Some([]),
      vaccinations := Some([]))
  }

  /** A freshly reset form cannot be submitted: the declaration is unticked and the student's name is empty. */
  lemma DefaultsAreRejected(isEmail: string -> bool)
    ensures Validate(DefaultValues(), isEmail)[Top(DeclarationAccepted)] == DeclarationMessage
    ensures Top(StudentFullName) in Validate(DefaultValues(), isEmail)
    ensures Top(Nationality) !in Validate(DefaultValues(), isEmail)
  {
    DeclarationRule(DefaultValues(), isEmail);
    StudentIdentityRequired(DefaultValues(), isEmail);
    StudentBackgroundRequired(DefaultValues(), isEmail);
  }

  /** `useFieldArray`'s remove: drop element i, keep the others in their order. */
  function RemoveAt<T>(s: seq<T>, i: nat): (r: seq<T>)
    requires i < |s|
    ensures |r| == |s| - 1
    ensures forall j :: 0 <= j < i ==> r[j] == s[j]
    ensures forall j :: i <= j < |r| ==> r[j] == s[j + 1]
    ensures multiset(r) + multiset{s[i]} == multiset(s)
  {
    assert s == s[..i] + [s[i]] + s[i + 1..];
    s[..i] + s[i + 1..]
  }

  /** Of two rows appended last, removing the first keeps the second, in its place. */
  lemma RemoveFirstOfTwoAppended<T>(s: seq<T>, a: T, b: T)
    ensures RemoveAt(s + [a] + [b], |s|) == s + [b]
  {
    var t := s + [a] + [b];
    assert t[..|s|] == s;
    assert t[|s| + 1..] == [b];
  }

  /** Appending a blank row then removing it gives back the rows there were. */
  lemma RemoveAppended<T>(s: seq<T>, x: T)
    ensures RemoveAt(s + [x], |s|) == s
  {
    assert (s + [x])[..|s|] == s;
  }

  /** The sections whose display depends on the current values. */
  datatype Section = CurrentLastStandardFields | ReadmissionFields | SiblingRows | PickupLocation | PermanentAddressLocked

  /** Which conditional sections are shown (and whether the permanent address is read-only) for these values. */
  function VisibleSections(f: AdmissionFormData, copyAddress: bool): (v: set<Section>)
    ensures CurrentLastStandardFields in v
      <==> f.scalars.admissionType == "Existing Student" || f.scalars.admissionType == "Re-Admission"
    ensures ReadmissionFields in v <==> f.scalars.isRejoining
    ensures SiblingRows in v <==> f.scalars.hasSiblingsInSchool
    ensures PickupLocation in v <==> f.scalars.transportRequired
    ensures PermanentAddressLocked in v <==> copyAddress
  {
    (if f.scalars.admissionType == "Existing Student" || f.scalars.admissionType == "Re-Admission"
     then {CurrentLastStandardFields} else {})
    + (if f.scalars.isRejoining then {ReadmissionFields} else {})
    + (if f.scalars.hasSiblingsInSchool then {SiblingRows} else {})
    + (if f.scalars.transportRequired then {PickupLocation} else {})
    + (if copyAddress then {PermanentAddressLocked} else {})
  }

  /** A row appended and not yet filled in blocks submission at each of its checked keys. */
  lemma AppendedSiblingFails(f: AdmissionFormData, isEmail: string -> bool)
    requires f.siblings.Some?
    ensures var g := f.(siblings := Some(f.siblings.value + [EmptySibling]));
      var i := |f.siblings.value|;
      SiblingAt(i, Name) in Validate(g, isEmail) && SiblingAt(i, ClassGrade) in Validate(g, isEmail)
      && SiblingAt(i, Branch) in Validate(g, isEmail)
  {
    var g := f.(siblings := Some(f.siblings.value + [EmptySibling]));
    var i := |f.siblings.value|;
    SiblingRowRule(g, isEmail, i, Name);
    SiblingRowRule(g, isEmail, i, ClassGrade);
    SiblingRowRule(g, isEmail, i, Branch);
  }

  /** A vaccination row appended and not yet filled in blocks submission at both of its keys. */
  lemma AppendedVaccinationFails(f: AdmissionFormData, isEmail: string -> bool)
    requires f.vaccinations.Some?
    ensures var g := f.(vaccinations := Some(f.vaccinations.value + [EmptyVaccination]));
      var i := |f.vaccinations.value|;
      VaccinationAt(i, VaccineName) in Validate(g, isEmail) && VaccinationAt(i, VaccinationDate) in Validate(g, isEmail)
  {
    var g := f.(vaccinations := Some(f.vaccinations.value + [EmptyVaccination]));
    var i := |f.vaccinations.value|;
    VaccinationRowRule(g, isEmail, i, VaccineName);
    VaccinationRowRule(g, isEmail, i, VaccinationDate);
  }

  /** The current-year fill always satisfies the academic-year rule. */
  lemma CurrentYearPasses(f: AdmissionFormData, isEmail: string -> bool, year: nat)
    ensures Top(AcademicYear) !in Validate(f.(scalars := f.scalars.(academicYear := YearRange(year))), isEmail)
  {
    BasicInfoRequired(f.(scalars := f.scalars.(academicYear := YearRange(year))), isEmail);
  }

  /** The form's live state: the values held by the form library and the copy-address toggle. */
  class FormState {
    var values: AdmissionFormData
    var copyAddress: bool

    /** Both row lists are always present (they default to empty lists). */
    ghost predicate Valid()
      reads this
    {
      values.siblings.Some? && values.vaccinations.Some?
    }

    constructor ()
      ensures Valid() && values == DefaultValues() && !copyAddress
    {
      values := DefaultValues();
      copyAddress := false;
    }

    /** Typing into the current-address input; the permanent address is not kept in step. */
    method SetCurrentAddress(address: string)
      requires Valid()
      modifies this
      ensures Valid() && copyAddress == old(copyAddress)
      ensures values == old(values).(scalars := old(values).scalars.(currentResidentialAddress := address))
      ensures values.scalars.permanentAddress == old(values.scalars.permanentAddress)
    {
      values := values.(scalars := values.scalars.(currentResidentialAddress := address));
    }

    /** "Same as Current Address": on copies the current address at this moment, off clears the permanent one. */
    method HandleCopyAddress(checked: bool)
      requires Valid()
      modifies this
      ensures Valid() && copyAddress == checked
      ensures checked ==> values.scalars.permanentAddress == Some(old(values.scalars.currentResidentialAddress))
      ensures !checked ==> values.scalars.permanentAddress == Some("")
      ensures values == old(values).(scalars := old(values).scalars.(permanentAddress := values.scalars.permanentAddress))
    {
      var currentAddress := values.scalars.currentResidentialAddress;
      copyAddress := checked;
      if checked {
        values := values.(scalars := values.scalars.(permanentAddress := Some(currentAddress)));
      } else {
        values := values.(scalars := values.scalars.(permanentAddress := Some("")));
      }
    }

    /** "Use current academic year": on fills in "<year>-<year + 1>" once; off leaves the value alone. */
    method HandleCurrentYear(checked: bool, year: nat)
      requires Valid()
      modifies this
      ensures Valid() && copyAddress == old(copyAddress)
      ensures checked ==> values == old(values).(scalars := old(values).scalars.(academicYear := YearRange(year)))
      ensures checked ==> ParseYearRange(values.scalars.academicYear) == Some((year, year + 1))
      ensures !checked ==> values == old(values)
    {
      if checked {
        var range := YearRange(year);
        YearRangeRoundTrip(year);
        values := values.(scalars := values.scalars.(academicYear := range));
      }
    }

    method AppendSibling()
      requires Valid()
      modifies this
      ensures Valid() && copyAddress == old(copyAddress)
      ensures values == old(values).(siblings := Some(old(values.siblings.value) + [EmptySibling]))
    {
      values := values.(siblings := Some(values.siblings.value + [EmptySibling]));
    }

    /** Removes the sibling row whose delete button was pressed. */
    method RemoveSibling(index: nat)
      requires Valid() && index < |values.siblings.value|
      modifies this
      ensures Valid() && copyAddress == old(copyAddress)
      ensures values == old(values).(siblings := Some(RemoveAt(old(values.siblings.value), index)))
    {
      values := values.(siblings := Some(RemoveAt(values.siblings.value, index)));
    }

    method AppendVaccination()
      requires Valid()
      modifies this
      ensures Valid() && copyAddress == old(copyAddress)
      ensures values == old(values).(vaccinations := Some(old(values.vaccinations.value) + [EmptyVaccination]))
    {
      values := values.(vaccinations := Some(values.vaccinations.value + [EmptyVaccination]));
    }

    /** Removes the vaccination row whose delete button was pressed. */
    method RemoveVaccination(index: nat)
      requires Valid() && index < |values.vaccinations.value|
      modifies this
      ensures Valid() && copyAddress == old(copyAddress)
      ensures values == old(values).(vaccinations := Some(RemoveAt(old(values.vaccinations.value), index)))
    {
      values := values.(vaccinations := Some(RemoveAt(values.vaccinations.value, index)));
    }

    /** The form library's reset: values back to the defaults; the copy-address toggle is separate state and stays. */
    method Reset()
      requires Valid()
      modifies this
      ensures Valid() && values == DefaultValues()
      ensures copyAddress == old(copyAddress)
    {
      values := DefaultValues();
    }
  }

  /** Two rows appended, then the first removed: the second one is all that is left. */
  method AppendTwoRemoveFirst(form: FormState)
    requires form.Valid() && form.values.siblings == Some([])
    modifies form
    ensures form.Valid() && form.values.siblings == Some([EmptySibling])
  {
    form.AppendSibling();
    form.AppendSibling();
    form.RemoveSibling(0);
    assert |form.values.siblings.value| == 1 && form.values.siblings.value[0] == EmptySibling;
    assert form.values.siblings.value == [EmptySibling];
  }
}
