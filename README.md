# Initial ART start date

A Dafny model of `InitialArtStartDateCalculation.evaluate` from the EPTS reporting module for
OpenMRS. For every patient of a cohort the calculation decides the date on which the patient
first started antiretroviral therapy (ART). It reconciles up to four signals, each of which may
be missing:

- the date of the patient's first HIV program enrollment, admitted whenever present;
- the first "ARV plan" observation, admitted only when it answers "start drugs" and was recorded
  in an ARV pharmacy, adult follow-up or paediatric follow-up encounter; its date is the date of
  the observation;
- the first "historical drug start date" observation, admitted only when its encounter, that
  encounter's type and its date value are all present and the type is one of the same three;
  its date is the observation's date value;
- the date of the first ARV pharmacy encounter, admitted whenever present.

The admitted dates are appended to a fresh list in that order. The result is the earliest of
them, chosen pairwise with `earliest` in a branch per list size from one to four, or null when
nothing is admitted. Every cohort member gets one entry in the result map.

Files and modules:

- `wrappers.dfy` (`Wrappers`): `Option`, standing for a Java reference that may be null.
- `clinical_data.dfy` (`ClinicalData`): patient ids, dates as integers, coded concepts,
  encounter types, encounters and observations.
- `calculation_utils.dfy` (`CalculationUtils`): reading a patient's entry from a bulk result
  map, and `Earliest`.
- `start_date_spec.dfy` (`StartDateSpec`): the declarative rule: which signal contributes which
  date (`SourceDate`), the admitted list (`AdmittedDates`), the earliest-date fold (`MinOf`) and
  the resolved date (`ResolvedStartDate`), with the lemmas about them.
- `initial_art_start_date.dfy` (`InitialArtStartDateCalculation`): the calculation as the source
  runs it. `ResolvePatient` is one iteration of the cohort loop: conditional appends to a list,
  then `SelectEarliest`, the size branches. `Evaluate` is the loop that fills the result map.
  Both are proved equal to the declarative rule.
- `scenarios.dfy` (`StartDateScenarios`): concrete patients and their resolved dates.

Assumptions:

- `EptsCalculationUtils.earliest` is not part of this model. It is assumed to return the earlier
  of two non-null dates; `Earliest` states that and nothing more.
- The concept and encounter-type metadata are treated as fixed, distinct constants. These are
  the three qualifying encounter types and the "start drugs" concept.
- The four bulk lookups run before the loop and are given as maps from patient id to the first
  record found. These are the in-program enrollment calculation, the two `firstObs` queries and
  `firstEncounter`.

## Model

| member | source | states |
|---|---|---|
| `CalculationUtils.Earliest` | api/src/main/java/org/openmrs/module/eptsreports/reporting/calculation/pvls/InitialArtStartDateCalculation.java:124-131 | Assumed behaviour of `earliest`: the result is one of its two dates and no later than either. |
| `StartDateSpec.AdmissionRules` | api/src/main/java/org/openmrs/module/eptsreports/reporting/calculation/pvls/InitialArtStartDateCalculation.java:86-118 | Enrollment and pharmacy visit contribute whenever present. An ARV-plan answer other than "start drugs" never contributes. An observation outside the three encounter types never contributes. A historical observation without a date value never contributes. An admitted historical observation contributes its date value, not its obs date. |
| `StartDateSpec.AdmittedFrom` | api/src/main/java/org/openmrs/module/eptsreports/reporting/calculation/pvls/InitialArtStartDateCalculation.java:85-118 | Appending at most one date per listed signal gives a list no longer than the list of signals. |
| `StartDateSpec.AdmittedDates` | api/src/main/java/org/openmrs/module/eptsreports/reporting/calculation/pvls/InitialArtStartDateCalculation.java:85-118 | The admitted list never holds more than four dates. |
| `StartDateSpec.AdmittedDatesUnfolded` | api/src/main/java/org/openmrs/module/eptsreports/reporting/calculation/pvls/InitialArtStartDateCalculation.java:85-118 | The admitted list is enrollment, then ARV plan, then historical, then pharmacy, each present exactly when admitted. |
| `StartDateSpec.AdmittedFromMembership` | api/src/main/java/org/openmrs/module/eptsreports/reporting/calculation/pvls/InitialArtStartDateCalculation.java:85-118 | A date is in the list built from some signals exactly when one of those signals is admitted with that date. |
| `StartDateSpec.AdmittedDatesMembership` | api/src/main/java/org/openmrs/module/eptsreports/reporting/calculation/pvls/InitialArtStartDateCalculation.java:85-118 | A date is admitted exactly when one of the four signals is admitted with that date. |
| `StartDateSpec.MinOfIsEarliest` | api/src/main/java/org/openmrs/module/eptsreports/reporting/calculation/pvls/InitialArtStartDateCalculation.java:120-133 | The fold of `Earliest` over a non-empty list is one of its dates and no later than any of them. |
| `StartDateSpec.LeastIsMinOf` | api/src/main/java/org/openmrs/module/eptsreports/reporting/calculation/pvls/InitialArtStartDateCalculation.java:120-133 | A date of the list that no date of the list precedes is the earliest date. |
| `StartDateSpec.MinOfDeterminedByElements` | api/src/main/java/org/openmrs/module/eptsreports/reporting/calculation/pvls/InitialArtStartDateCalculation.java:120-133 | Two lists with the same dates, in any order and with any repetition, have the same earliest date. |
| `StartDateSpec.ResolvedStartDate` | api/src/main/java/org/openmrs/module/eptsreports/reporting/calculation/pvls/InitialArtStartDateCalculation.java:84-134 | Null exactly when nothing is admitted. Otherwise one of the admitted dates, no later than any admitted date. |
| `StartDateSpec.UndeterminedIffNothingAdmitted` | api/src/main/java/org/openmrs/module/eptsreports/reporting/calculation/pvls/InitialArtStartDateCalculation.java:84-134 | The result is null if and only if none of the four signals is admitted. |
| `StartDateSpec.ResolvedIsEarliestAdmitted` | api/src/main/java/org/openmrs/module/eptsreports/reporting/calculation/pvls/InitialArtStartDateCalculation.java:86-133 | A non-null result is the date of some admitted signal. Every admitted signal makes the result non-null and no later than its date, whatever the other signals hold. |
| `StartDateSpec.AppendOrderIrrelevant` | api/src/main/java/org/openmrs/module/eptsreports/reporting/calculation/pvls/InitialArtStartDateCalculation.java:85-133 | Appending the signals in any order, listing every kind, gives the same result. |
| `StartDateSpec.IneligibleObservationIsAbsent` | api/src/main/java/org/openmrs/module/eptsreports/reporting/calculation/pvls/InitialArtStartDateCalculation.java:91-112 | A present ARV-plan or historical observation that fails its rule gives the same result as a missing one. |
| `InitialArtStartDateCalculation.SelectEarliest` | api/src/main/java/org/openmrs/module/eptsreports/reporting/calculation/pvls/InitialArtStartDateCalculation.java:120-133 | The size branches give null for an empty list and the earliest date for one to four dates, including the pairwise split for four. A list of five or more has no branch and gives null. |
| `InitialArtStartDateCalculation.ResolvePatient` | api/src/main/java/org/openmrs/module/eptsreports/reporting/calculation/pvls/InitialArtStartDateCalculation.java:80-133 | The null guards, encounter-type comparisons, appends and size branches compute exactly the declarative resolved date. |
| `InitialArtStartDateCalculation.Evaluate` | api/src/main/java/org/openmrs/module/eptsreports/reporting/calculation/pvls/InitialArtStartDateCalculation.java:79-136 | The result map has a key exactly for each cohort member. Each entry is the resolved date of that patient's own lookup entries. |
| `StartDateScenarios.PharmacyVisitOnly` | api/src/main/java/org/openmrs/module/eptsreports/reporting/calculation/pvls/InitialArtStartDateCalculation.java:53-54 | A patient whose only signal is a pharmacy visit started ART on that visit's date. |
| `StartDateScenarios.EarlierStructuredStartWins` | api/src/main/java/org/openmrs/module/eptsreports/reporting/calculation/pvls/InitialArtStartDateCalculation.java:53-54 | Between an enrollment and an earlier qualifying "start drugs" observation, the earlier date wins. |
| `StartDateScenarios.StartDrugsOutsideQualifyingVisit` | api/src/main/java/org/openmrs/module/eptsreports/reporting/calculation/pvls/InitialArtStartDateCalculation.java:53-54 | A "start drugs" answer in a non-qualifying visit, with no other signal, gives null. |
| `StartDateScenarios.HistoricalWithoutDateValue` | api/src/main/java/org/openmrs/module/eptsreports/reporting/calculation/pvls/InitialArtStartDateCalculation.java:53-54 | A historical observation without a date value, with no other signal, gives null. |
| `StartDateScenarios.AllFourAdmittedWithTie` | api/src/main/java/org/openmrs/module/eptsreports/reporting/calculation/pvls/InitialArtStartDateCalculation.java:53-54 | With all four signals admitted and two tied earliest dates, the tied date is the result. The historical date value is used, not its earlier obs date. |

## Left out

- Metadata lookups and dependency injection: the concepts and encounter types are fixed constructors. This covers `HivMetadata`, `CommonMetadata` and lines 65-71.
- The bulk queries are inputs to `Evaluate`, not modelled code. These are `InHivProgramEnrollmentCalculation` (found through the platform's component registry), `EptsCalculations.firstObs` and `firstEncounter`.
- `EptsCalculationUtils.obsResultForPatient`, `encounterResultForPatient` and `earliest` are not part of this model. The first two are modelled as a map lookup that yields null for a missing patient. `earliest` is assumed to be the minimum of two non-null dates.
- `InitialArtStartDateCalculation.ResolvePatient`: requires that the ARV-plan observation has a coded value, and an encounter with a type whenever that value is "start drugs". The source reads these without null tests and would throw a NullPointerException; that path is not modelled.
- Null dates reaching the list are outside the model: dates are never null here. This covers a present enrollment result whose value is null, an ARV-plan observation without an obs date, and a pharmacy encounter without an encounter date. The source would append null and pass it to `earliest`, whose null handling is unknown.
- `java.util.Date` time of day and time zone: dates are integers on a total order.
- `CalculationResultMap` and `SimpleResult` wrappers: the result is a map from patient id to an optional date.
