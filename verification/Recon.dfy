/** internal/recon/recon.go: the balance of a time window. */
module Recon {
  import opened Common

  datatype Counts = Counts(sourceRows: int, esDocs: int, rawExcluded: int, dlq: int) {
    /** Validate: counts that contradict themselves are refused. */
    predicate Valid() {
      && sourceRows >= 0 && esDocs >= 0 && rawExcluded >= 0 && dlq >= 0
      && dlq <= sourceRows && rawExcluded <= esDocs && sourceRows - dlq >= 0
    }
  }

  datatype Report = Report(counts: Counts, expected: int, diff: int, ok: bool)

  function Reconcile(c: Counts): Report {
    var expected := c.sourceRows - c.dlq;
    var diff := c.esDocs - expected;
    Report(c, expected, diff, diff == 0)
  }

  function ReconcileChecked(c: Counts): Option<Report> {
    if c.Valid() then Some(Reconcile(c)) else None
  }

  /**
   * Counts are refused exactly when one is negative, more is dead than there was, or
   * more is excluded than there are documents; the others balance exactly when every
   * source row is a document or dead.
   */
  lemma CheckedExactly(c: Counts)
    ensures ReconcileChecked(c).Some? <==> 0 <= c.dlq <= c.sourceRows && 0 <= c.rawExcluded <= c.esDocs
    ensures ReconcileChecked(c).Some? ==> (ReconcileChecked(c).value.ok <==> c.esDocs + c.dlq == c.sourceRows)
    ensures ReconcileChecked(c).Some? ==> ReconcileChecked(c).value.diff == c.esDocs + c.dlq - c.sourceRows
  {
  }
}
