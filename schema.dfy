/** The rows of the leaderboard's tables, as the server reads and writes
    them. Nullable text columns are `Option<string>` where the code tells
    null apart from a value; row ids of raw logs and point rows are left out
    because nothing reads them. */
module Schema {
  import opened Js

  /** A roster member. `aliases` is a comma-separated list of other calls
      (the empty string when there are none); `duesExpiration` is the
      `MM/DD/YYYY` date the roster gives, or absent. */
  datatype Member = Member(callsign: string, activeYn: bool, aliases: string, duesExpiration: Option<string>)

  /** Only the upload route creates submissions, and it always writes
      `accepted`; the column also admits `rejected`. */
  datatype Status = Accepted | Rejected

  /** A submission row before the store assigns its id and defaults. */
  datatype NewSubmission = NewSubmission(
    seasonYear: int,
    contestKey: string,
    mode: string,
    callsign: string,
    categoryOperator: string,
    claimedScore: int,
    operatorList: string,
    memberOperators: Option<string>,
    effectiveOperators: int,
    club: string,
    status: Status)

  /** A stored submission: the inserted fields, the id the store assigned
      and the `isActive` flag (true on insert, cleared on resubmission). */
  datatype Submission = Submission(
    id: nat,
    seasonYear: int,
    contestKey: string,
    mode: string,
    callsign: string,
    categoryOperator: string,
    claimedScore: int,
    operatorList: string,
    memberOperators: Option<string>,
    effectiveOperators: int,
    club: string,
    status: Status,
    isActive: bool)

  /** A baseline row is identified by season and contest key, the target of
      its upsert. */
  datatype BaselineKey = BaselineKey(seasonYear: int, contestKey: string)

  /** A per-operator point row. `individualClaimed` is the exact quotient the
      engine computes; `normalizedPoints` is `Math.round` of a quotient that
      is not finite when the scale is zero. */
  datatype OperatorPoints = OperatorPoints(
    submissionId: nat,
    memberCallsign: string,
    individualClaimed: real,
    normalizedPoints: Num)

  datatype RawLog = RawLog(submissionId: nat, filename: string, content: string)
}
