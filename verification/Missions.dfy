/** The Kernel mission record as the extension reads it, and the SUPPORT gates its surfaces share. */
module Missions {
  import opened Text

  const COMPLETED := "completed"
  const FAILED := "failed"
  const FORGED := "forged"
  const VERIFYING := "verifying"
  const SYNCING := "syncing"
  const VERIFIED_WITHOUT_SUPPORT := "verified_without_support"
  const WEB_READ_FAILED := "web_read_failed"

  /** A verification row: `supported` is `supported === true`, `verified` is `status === 'verified'`. */
  datatype Row = NotARow | Row(supported: bool, verified: bool, evidenceId: Field)

  datatype Failure = Failure(code: Option<string>, recordedAt: Option<string>)

  datatype Mission = Mission(
    id: Field,
    goalId: Option<string>,
    status: Field,
    createdAt: Option<string>,
    executionPhase: Option<string>,
    workState: Option<string>,
    forgedAt: Option<string>,
    completedAt: Option<string>,
    lastFailure: Option<Failure>,
    rows: Option<seq<Row>>,
    findCount: Option<nat>,
    attempt: Option<nat>,
    leaseExpiresAt: Option<int>)
  {
    predicate HasStatus(s: string) {
      status == Field.Text(s)
    }

    predicate InPhase(phase: string) {
      executionPhase == Some(phase)
    }

    predicate IsForged() {
      InPhase(FORGED) || workState == Some(FORGED)
    }
  }

  function OrElse(a: Option<string>, b: Option<string>): Option<string> {
    if a.Some? then a else b
  }

  function OrEmpty(a: Option<string>): string {
    if a.Some? then a.value else ""
  }

  function FailureTime(m: Mission): Option<string> {
    if m.lastFailure.Some? then m.lastFailure.value.recordedAt else None
  }

  function TerminalTimestamp(m: Mission): string {
    OrEmpty(OrElse(m.forgedAt, OrElse(m.completedAt, OrElse(FailureTime(m), m.createdAt))))
  }

  /** When a mission ended: when it was forged, else completed, else failed, else when it was created. */
  lemma EndedAtExactly(m: Mission)
    ensures m.forgedAt.Some? ==> TerminalTimestamp(m) == m.forgedAt.value
    ensures m.forgedAt.None? && m.completedAt.Some? ==> TerminalTimestamp(m) == m.completedAt.value
    ensures m.forgedAt.None? && m.completedAt.None? && m.lastFailure.Some? && m.lastFailure.value.recordedAt.Some? ==>
              TerminalTimestamp(m) == m.lastFailure.value.recordedAt.value
    ensures m.forgedAt.None? && m.completedAt.None? && (m.lastFailure.None? || m.lastFailure.value.recordedAt.None?) ==>
              TerminalTimestamp(m) == if m.createdAt.Some? then m.createdAt.value else ""
  {
  }

  predicate IsSupported(row: Row) {
    row.Row? && row.supported
  }

  function CountSupported(rows: seq<Row>): (n: nat)
    ensures n <= |rows|
    ensures n > 0 <==> exists row :: row in rows && IsSupported(row)
  {
    if rows == [] then 0
    else
      assert rows == [rows[0]] + rows[1..];
      (if IsSupported(rows[0]) then 1 else 0) + CountSupported(rows[1..])
  }

  /** The counting loop that each surface repeats for itself. */
  method CountSupportedFinds(rows: Option<seq<Row>>) returns (n: nat)
    ensures n == if rows.Some? then CountSupported(rows.value) else 0
  {
    n := 0;
    if rows.Some? {
      var i := 0;
      while i < |rows.value|
        invariant 0 <= i <= |rows.value|
        invariant n + CountSupported(rows.value[i..]) == CountSupported(rows.value)
      {
        assert rows.value[i..][1..] == rows.value[i + 1..];
        if IsSupported(rows.value[i]) {
          n := n + 1;
        }
        i := i + 1;
      }
    }
  }

  function SupportedFinds(m: Mission): nat {
    if m.rows.Some? then CountSupported(m.rows.value) else 0
  }

  /** Evidence ids proved by this mission's own supported rows. */
  function SupportedEvidence(m: Mission): (ids: set<string>)
    ensures ids != {} ==> SupportedFinds(m) > 0
  {
    if m.rows.None? then {}
    else
      var ids := set row | row in m.rows.value && IsSupported(row) && TextOf(row.evidenceId) != "" :: TextOf(row.evidenceId);
      assert forall id :: id in ids ==> exists row :: row in m.rows.value && IsSupported(row);
      ids
  }

  /** The Kernel's own settlement of a failed mission with no SUPPORT Find. */
  function SettlementCode(m: Mission): Option<string> {
    if !m.HasStatus(FAILED) || SupportedFinds(m) > 0 || m.lastFailure.None? then None
    else
      var code := m.lastFailure.value.code;
      if code == Some(VERIFIED_WITHOUT_SUPPORT) || code == Some(WEB_READ_FAILED) then code else None
  }
}
