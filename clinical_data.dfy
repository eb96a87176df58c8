/**
 * The parts of the OpenMRS data model that the ART start date calculation reads.
 * A field that OpenMRS allows to be null and that the calculation tests for null
 * is an Option; a field the calculation reads without a test is a plain value.
 */
module ClinicalData {
  import opened Wrappers

  /** The id of a patient in the cohort (a java.lang.Integer). */
  type PatientId = int

  /** A java.util.Date reduced to a point on a total order, e.g. a day number. */
  type Date = int

  /** Coded answers of the "ARV plan" question. Only "start drugs" is told apart. */
  datatype Concept = StartDrugs | OtherConcept(conceptId: int)

  /**
   * Encounter types. The three named ones are the ARV pharmacy, adult follow-up and
   * paediatric follow-up visits; every other type is OtherEncounterType.
   */
  datatype EncounterType =
    | ArvPharmacy
    | AdultFollowUp
    | PaediatricFollowUp
    | OtherEncounterType(encounterTypeId: int)

  /** An encounter (visit): its type, which may be null, and its date. */
  datatype Encounter = Encounter(encounterType: Option<EncounterType>, encounterDatetime: Date)

  /**
   * An observation: its coded value and the encounter it was recorded in, each of which
   * may be null, the date of the observation, and a date-valued answer, which may be null.
   */
  datatype Obs = Obs(
    valueCoded: Option<Concept>,
    encounter: Option<Encounter>,
    obsDatetime: Date,
    valueDatetime: Option<Date>)

  /** The type of the encounter an observation was recorded in, if both are present. */
  function RecordedUnder(o: Obs): Option<EncounterType>
  {
    if o.encounter.Some? then o.encounter.value.encounterType else None
  }
}
