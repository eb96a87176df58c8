/**
 * The helpers of the reporting module that the calculation calls: reading one patient's
 * entry out of a bulk result map, and choosing the earlier of two dates.
 */
module CalculationUtils {
  import opened Wrappers
  import opened ClinicalData

  /** A patient's entry in a bulk result map, or None (null) when the patient has none. */
  function ResultForPatient<R>(results: map<PatientId, R>, pId: PatientId): Option<R>
  {
    if pId in results then Some(results[pId]) else None
  }

  /**
   * The earlier of two dates. Its Java body is not part of this model; what the calculation
   * relies on, and all this model assumes of it, is that it picks the smaller of two non-null
   * dates (on a tie the two are the same date).
   */
  function Earliest(a: Date, b: Date): (r: Date)
    ensures r <= a && r <= b
    ensures r == a || r == b
  {
    if b < a then b else a
  }
}
