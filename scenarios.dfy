/**
 * Concrete patients, with dates written as yyyymmdd numbers, and the start date the
 * calculation resolves for them.
 */
module StartDateScenarios {
  import opened Wrappers
  import opened ClinicalData
  import opened StartDateSpec

  /** A patient whose only signal is a pharmacy visit on 2020-01-10 started ART that day. */
  lemma PharmacyVisitOnly()
    ensures ResolvedStartDate(Signals(None, None, None, Some(Encounter(Some(ArvPharmacy), 20200110))))
            == Some(20200110)
  {
  }

  /** Enrollment on 2020-03-01 and a qualifying "start drugs" observation on 2020-02-15: the earlier wins. */
  lemma EarlierStructuredStartWins()
    ensures ResolvedStartDate(Signals(
              Some(20200301),
              Some(Obs(Some(StartDrugs), Some(Encounter(Some(AdultFollowUp), 20200215)), 20200215, None)),
              None,
              None))
            == Some(20200215)
  {
  }

  /** A "start drugs" answer recorded in a non-qualifying visit, and nothing else: no start date. */
  lemma StartDrugsOutsideQualifyingVisit()
    ensures ResolvedStartDate(Signals(
              None,
              Some(Obs(Some(StartDrugs), Some(Encounter(Some(OtherEncounterType(1)), 20200215)), 20200215, None)),
              None,
              None))
            == None
  {
  }

  /** A historical observation in a qualifying visit but without a date value is not admitted. */
  lemma HistoricalWithoutDateValue()
    ensures ResolvedStartDate(Signals(
              None,
              None,
              Some(Obs(None, Some(Encounter(Some(ArvPharmacy), 20210101)), 20210101, None)),
              None))
            == None
  {
  }

  /** All four signals admitted, with dates 2021-05-01, 2021-04-20, 2021-06-01 and 2021-04-20: the tie wins. */
  lemma AllFourAdmittedWithTie()
    ensures ResolvedStartDate(Signals(
              Some(20210501),
              Some(Obs(Some(StartDrugs), Some(Encounter(Some(ArvPharmacy), 20210420)), 20210420, None)),
              Some(Obs(None, Some(Encounter(Some(PaediatricFollowUp), 20210101)), 20210101, Some(20210601))),
              Some(Encounter(Some(ArvPharmacy), 20210420))))
            == Some(20210420)
  {
  }
}
