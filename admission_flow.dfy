/**
 * One press of the submit button: the schema is checked first; only a form
 * without errors reaches the server action, and only a successful store
 * resets the form.
 */
module AdmissionFlow {
  import opened Optional
  import opened Schema
  import opened SchemaProperties
  import opened FormController
  import opened Submission

  /**
   * Returns the schema's errors and, when there were none, the server
   * action's result (`None` means the action was never called).
   */
  method SubmitForm(form: FormState, store: AdmissionStore, isEmail: string -> bool, outcome: StoreOutcome)
    returns (errors: map<Path, string>, result: Option<SubmitResult>)
    requires form.Valid() && store.Valid()
    modifies form, store
    ensures form.Valid() && store.Valid()
    ensures errors == Validate(old(form.values), isEmail)
    ensures result.Some? <==> errors == map[]
    ensures form.copyAddress == old(form.copyAddress)
    ensures result.None? ==> form.values == old(form.values) && store.records == old(store.records)
    ensures result.Some? && result.value.Success? ==>
      form.values == DefaultValues()
      && store.records == old(store.records)[result.value.id := Persist(result.value.id, CreatePayload(old(form.values)))]
      && Acceptable(old(form.values), isEmail)
      && store.records[result.value.id].scalars.declarationAccepted
    ensures result.Some? && result.value.Failure? ==>
      form.values == old(form.values) && store.records == old(store.records)
      && result.value.error == FailureMessage
  {
    var data := form.values;
    errors := Validate(data, isEmail);
    if errors != map[] {
      result := None;
      return;
    }
    ValidateEmptyIffAcceptable(data, isEmail);
    var r := store.SubmitAdmissionForm(data, outcome);
    result := Some(r);
    if r.Success? {
      form.Reset();
    }
  }
}
