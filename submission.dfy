/**
 * The server action that stores a submitted admission form: the create
 * payload built from the form data, the all-or-nothing insert into the
 * admissions store, and the tagged result handed back to the form.
 */
module Submission {
  import opened Optional
  import opened AdmissionData

  /** A record identifier chosen by the database. */
  type Id = string

  /** A nested create of child rows, written together with their parent. */
  datatype NestedCreate<T> = NestedCreate(create: seq<T>)

  /** The create payload: every scalar, plus the child rows to create, if any. */
  datatype CreateData = CreateData(
    scalars: Scalars,
    siblings: Option<NestedCreate<Sibling>>,
    vaccinations: Option<NestedCreate<Vaccination>>)

  /** A stored admission with its children; absent children are stored as no rows. */
  datatype AdmissionRecord = AdmissionRecord(
    id: Id,
    scalars: Scalars,
    siblings: seq<Sibling>,
    vaccinations: seq<Vaccination>)

  /** What the database did with one create call: the row was inserted under a new id, or the call threw. */
  datatype StoreOutcome = Inserted(newId: Id) | Threw

  /** The tagged result of the server action. */
  datatype SubmitResult = Success(id: Id) | Failure(error: string)

  /** The one message reported for every failure, whatever went wrong. */
  const FailureMessage := "Failed to submit form. Please try again."

  /** A nested create is emitted only for a list that is present and has rows. */
  function NestedRows<T>(rows: Option<seq<T>>): (r: Option<NestedCreate<T>>)
    ensures r.Some? <==> rows.Some? && |rows.value| > 0
    ensures r.Some? ==> r.value.create == rows.value
  {
    if rows.Some? && |rows.value| > 0 then Some(NestedCreate(rows.value)) else None
  }

  /** The child rows a nested create produces. */
  function CreatedRows<T>(n: Option<NestedCreate<T>>): seq<T>
  {
    match n
    case None => []
    case Some(c) => c.create
  }

  /** No row is lost: the rows created are the rows given, an absent list giving none. */
  lemma NestedRowsLossless<T>(rows: Option<seq<T>>)
    ensures CreatedRows(NestedRows(rows)) == OrEmpty(rows)
    ensures |CreatedRows(NestedRows(rows))| > 0 <==> NestedRows(rows).Some?
  {
  }

  /** The payload of the single create call. */
  function CreatePayload(data: AdmissionFormData): (p: CreateData)
    ensures p.scalars == data.scalars
    ensures p.siblings.Some? <==> data.siblings.Some? && |data.siblings.value| > 0
    ensures p.vaccinations.Some? <==> data.vaccinations.Some? && |data.vaccinations.value| > 0
    ensures p.siblings.Some? ==> p.siblings.value.create == data.siblings.value
    ensures p.vaccinations.Some? ==> p.vaccinations.value.create == data.vaccinations.value
  {
    CreateData(data.scalars, NestedRows(data.siblings), NestedRows(data.vaccinations))
  }

  /** The row the database writes for a payload under a new id. */
  function Persist(id: Id, p: CreateData): (r: AdmissionRecord)
    ensures r.id == id && r.scalars == p.scalars
  {
    AdmissionRecord(id, p.scalars, CreatedRows(p.siblings), CreatedRows(p.vaccinations))
  }

  /**
   * The stored record holds exactly the submitted data: every scalar as
   * given (nothing is validated again on the server, so an unticked
   * declaration is stored as unticked) and every child row in order.
   */
  lemma {:induction false} StoredRecordIsInput(id: Id, data: AdmissionFormData)
    ensures Persist(id, CreatePayload(data))
      == AdmissionRecord(id, data.scalars, OrEmpty(data.siblings), OrEmpty(data.vaccinations))
  {
    NestedRowsLossless(data.siblings);
    NestedRowsLossless(data.vaccinations);
  }

  /** Sibling rows are created whenever the list has rows, whatever the "has siblings" answer says. */
  lemma SiblingRowsIgnoreFlag(id: Id, data: AdmissionFormData, hasSiblings: bool)
    ensures CreatePayload(data.(scalars := data.scalars.(hasSiblingsInSchool := hasSiblings))).siblings
      == CreatePayload(data).siblings
    ensures !data.scalars.hasSiblingsInSchool && data.siblings.Some? && |data.siblings.value| > 0
      ==> Persist(id, CreatePayload(data)).siblings == data.siblings.value
  {
  }

  /** The admissions table: records by id. */
  class AdmissionStore {
    var records: map<Id, AdmissionRecord>

    /** Every record is filed under its own id. */
    ghost predicate Valid()
      reads this
    {
      forall id | id in records :: records[id].id == id
    }

    constructor ()
      ensures Valid() && records == map[]
    {
      records := map[];
    }

    /**
     * Stores one admission with its child rows in a single create. The
     * database's behaviour is the parameter `outcome`; an id that is already
     * taken fails like any other database error.
     */
    method SubmitAdmissionForm(data: AdmissionFormData, outcome: StoreOutcome) returns (result: SubmitResult)
      requires Valid()
      modifies this
      ensures Valid()
      ensures result.Success? <==> outcome.Inserted? && outcome.newId !in old(records)
      ensures result.Success? ==>
        result.id == outcome.newId && records == old(records)[result.id := Persist(result.id, CreatePayload(data))]
      ensures result.Failure? ==> result.error == FailureMessage && records == old(records)
      ensures result.Success? ==> |records| == |old(records)| + 1
      ensures forall id | id in old(records) :: id in records && records[id] == old(records)[id]
    {
      if outcome.Inserted? && outcome.newId !in records {
        var id := outcome.newId;
        var row := Persist(id, CreatePayload(data));
        assert records.Keys + {id} == records[id := row].Keys;
        records := records[id := row];
        result := Success(id);
      } else {
        result := Failure(FailureMessage);
      }
    }
  }
}
