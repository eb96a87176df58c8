/**
 * InitialArtStartDateCalculation.evaluate: for every patient of a cohort, the date on which the
 * patient first started ART, or None (null) for a patient with no admitted start signal.
 */
module InitialArtStartDateCalculation {
  import opened Wrappers
  import opened ClinicalData
  import opened CalculationUtils
  import opened StartDateSpec

  /** The four bulk lookups, run once for the whole cohort before the loop. */
  datatype Lookups = Lookups(
    inProgram: map<PatientId, Date>,                // first HIV program enrollment
    startDrugObs: map<PatientId, Obs>,              // first "ARV plan" observation
    historicalObs: map<PatientId, Obs>,             // first "historical drug start date" observation
    pharmacyEncounters: map<PatientId, Encounter>)  // first ARV pharmacy encounter

  /** What the four lookups hold for one patient. */
  function SignalsFor(lookups: Lookups, pId: PatientId): Signals
  {
    Signals(
      ResultForPatient(lookups.inProgram, pId),
      ResultForPatient(lookups.startDrugObs, pId),
      ResultForPatient(lookups.historicalObs, pId),
      ResultForPatient(lookups.pharmacyEncounters, pId))
  }

  /**
   * The "ARV plan" observation is read without null tests: its coded value always, and the type
   * of its encounter when the value is "start drugs". The calculation needs these to be present.
   */
  predicate ArvPlanDereferenceable(arvPlan: Option<Obs>)
  {
    arvPlan.Some? ==>
      && arvPlan.value.valueCoded.Some?
      && (arvPlan.value.valueCoded.value == StartDrugs ==>
            arvPlan.value.encounter.Some? && arvPlan.value.encounter.value.encounterType.Some?)
  }

  /**
   * One iteration of the cohort loop: collects the admitted dates in a fresh list, then picks
   * the earliest with the branches for one to four dates.
   */
  method ResolvePatient(s: Signals) returns (requiredDate: Option<Date>)
    requires ArvPlanDereferenceable(s.arvPlan)
    ensures requiredDate == ResolvedStartDate(s)
  {
    ghost var fromEnrollment, fromArvPlan, fromHistorical, fromPharmacy :=
      AsSeq(SourceDate(s, ProgramEnrollment)), AsSeq(SourceDate(s, StructuredStart)),
      AsSeq(SourceDate(s, HistoricalStart)), AsSeq(SourceDate(s, PharmacyVisit));
    var enrollmentDates: seq<Date> := [];
    if s.enrollment.Some? {
      enrollmentDates := enrollmentDates + [s.enrollment.value];
    }
    assert enrollmentDates == fromEnrollment;
    if s.arvPlan.Some? && s.arvPlan.value.valueCoded.value == StartDrugs {
      var encounterType := s.arvPlan.value.encounter.value.encounterType.value;
      if encounterType == ArvPharmacy || encounterType == AdultFollowUp || encounterType == PaediatricFollowUp {
        enrollmentDates := enrollmentDates + [s.arvPlan.value.obsDatetime];
      }
    }
    assert enrollmentDates == fromEnrollment + fromArvPlan;
    var historical := s.historical;
    if historical.Some? && historical.value.encounter.Some?
      && historical.value.encounter.value.encounterType.Some?
      && historical.value.valueDatetime.Some?
    {
      var encounterType := historical.value.encounter.value.encounterType.value;
      if encounterType == ArvPharmacy || encounterType == AdultFollowUp || encounterType == PaediatricFollowUp {
        enrollmentDates := enrollmentDates + [historical.value.valueDatetime.value];
      }
    }
    assert enrollmentDates == fromEnrollment + fromArvPlan + fromHistorical;
    if s.pharmacy.Some? {
      enrollmentDates := enrollmentDates + [s.pharmacy.value.encounterDatetime];
    }
    assert enrollmentDates == fromEnrollment + fromArvPlan + fromHistorical + fromPharmacy;
    AdmittedDatesUnfolded(s);
    assert enrollmentDates == AdmittedDates(s);
    requiredDate := SelectEarliest(enrollmentDates);
  }

  /**
   * The selection at the end of an iteration: nothing for an empty list, otherwise the earliest
   * date, combined pairwise with Earliest in a branch per list size from one to four. A list of
   * five or more dates has no branch and leaves the result null.
   */
  method SelectEarliest(enrollmentDates: seq<Date>) returns (requiredDate: Option<Date>)
    ensures enrollmentDates == [] ==> requiredDate == None
    ensures 0 < |enrollmentDates| <= 4 ==> requiredDate == Some(MinOf(enrollmentDates))
    ensures |enrollmentDates| > 4 ==> requiredDate == None
  {
    requiredDate := None;
    if |enrollmentDates| > 0 {
      if |enrollmentDates| == 1 {
        requiredDate := Some(enrollmentDates[0]);
      } else if |enrollmentDates| == 2 {
        requiredDate := Some(Earliest(enrollmentDates[0], enrollmentDates[1]));
      } else if |enrollmentDates| == 3 {
        var tempDate := Earliest(enrollmentDates[0], enrollmentDates[1]);
        requiredDate := Some(Earliest(enrollmentDates[2], tempDate));
      } else if |enrollmentDates| == 4 {
        var tempDate1 := Earliest(enrollmentDates[0], enrollmentDates[1]);
        var tempDate2 := Earliest(enrollmentDates[2], enrollmentDates[3]);
        requiredDate := Some(Earliest(tempDate1, tempDate2));
      }
      if requiredDate.Some? {
        LeastIsMinOf(enrollmentDates, requiredDate.value);
      }
    }
  }

  /**
   * The whole calculation: one entry per cohort member, each the patient's resolved start
   * date, computed from that patient's own lookup entries only.
   */
  method Evaluate(cohort: seq<PatientId>, lookups: Lookups) returns (results: map<PatientId, Option<Date>>)
    requires forall pId :: pId in cohort ==> ArvPlanDereferenceable(ResultForPatient(lookups.startDrugObs, pId))
    ensures forall pId :: pId in results <==> pId in cohort
    ensures forall pId :: pId in results ==> results[pId] == ResolvedStartDate(SignalsFor(lookups, pId))
  {
    results := map[];
    for i := 0 to |cohort|
      invariant forall pId :: pId in results <==> pId in cohort[..i]
      invariant forall pId :: pId in results ==> results[pId] == ResolvedStartDate(SignalsFor(lookups, pId))
    {
      var pId := cohort[i];
      assert cohort[..i + 1] == cohort[..i] + [pId];
      var signals := SignalsFor(lookups, pId);
      var requiredDate := ResolvePatient(signals);
      results := results[pId := requiredDate];
    }
  }
}
