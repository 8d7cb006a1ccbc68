/** The storage layer: the tables as one in-memory store whose methods
    mirror the insert, update and delete statements the server issues, plus
    the post-processing the server applies to rows it has fetched (dense
    ranking, the tie-inclusive top-N cutoff and the season counts). */
module Storage {
  import opened Js
  import opened Schema
  import RosterScraper

  // --------------------------------------------------------- row queries

  predicate IsActiveFor(s: Submission, seasonYear: int, contestKey: string) {
    s.seasonYear == seasonYear && s.contestKey == contestKey && s.isActive
  }

  /** `getActiveSubmissionsByContest`: the active rows of one season and
      contest key, in table order. */
  function ActiveByContest(subs: seq<Submission>, seasonYear: int, contestKey: string): (r: seq<Submission>)
    ensures |r| <= |subs|
  {
    Filter(subs, (s: Submission) => IsActiveFor(s, seasonYear, contestKey))
  }

  lemma ActiveByContestExact(subs: seq<Submission>, seasonYear: int, contestKey: string, x: Submission)
    ensures x in ActiveByContest(subs, seasonYear, contestKey) <==> x in subs && IsActiveFor(x, seasonYear, contestKey)
  {
    FilterMember(subs, (s: Submission) => IsActiveFor(s, seasonYear, contestKey), x);
  }

  /** The row `deactivateSubmission(callsign, contestKey, seasonYear)` leaves
      in place of `s`. */
  function Deactivate(s: Submission, callsign: string, contestKey: string, seasonYear: int): Submission {
    if s.callsign == callsign && s.contestKey == contestKey && s.seasonYear == seasonYear && s.isActive
    then s.(isActive := false)
    else s
  }

  function DeactivateAll(subs: seq<Submission>, callsign: string, contestKey: string, seasonYear: int): (r: seq<Submission>)
    ensures |r| == |subs|
  {
    if |subs| == 0 then []
    else DeactivateAll(subs[..|subs| - 1], callsign, contestKey, seasonYear)
         + [Deactivate(subs[|subs| - 1], callsign, contestKey, seasonYear)]
  }

  /** Deactivation clears `isActive` on exactly the active rows of the
      callsign, contest key and season, deletes no row and changes no other
      field. */
  lemma {:induction false} DeactivateAllAt(subs: seq<Submission>, callsign: string, contestKey: string, seasonYear: int, i: int)
    requires 0 <= i < |subs|
    ensures var r := DeactivateAll(subs, callsign, contestKey, seasonYear);
      r[i].(isActive := subs[i].isActive) == subs[i]
      && (r[i].isActive <==>
            subs[i].isActive && !(subs[i].callsign == callsign && subs[i].contestKey == contestKey && subs[i].seasonYear == seasonYear))
  {
    if i < |subs| - 1 {
      DeactivateAllAt(subs[..|subs| - 1], callsign, contestKey, seasonYear, i);
    }
  }

  /** The point rows whose submission is not in `ids`, in order. */
  function Purge(points: seq<OperatorPoints>, ids: set<nat>): seq<OperatorPoints> {
    if |points| == 0 then []
    else Purge(points[..|points| - 1], ids)
         + (if points[|points| - 1].submissionId in ids then [] else [points[|points| - 1]])
  }

  /** `deleteOperatorPointsBySubmission(id)`: the point rows of other submissions. */
  function WithoutSubmission(points: seq<OperatorPoints>, id: nat): seq<OperatorPoints> {
    Purge(points, {id})
  }

  lemma {:induction false} PurgeExact(points: seq<OperatorPoints>, ids: set<nat>, x: OperatorPoints)
    ensures x in Purge(points, ids) <==> x in points && x.submissionId !in ids
  {
    if |points| > 0 {
      var init := points[..|points| - 1];
      PurgeExact(init, ids, x);
      assert points == init + [points[|points| - 1]];
    }
  }

  lemma {:induction false} PurgeAppend(a: seq<OperatorPoints>, b: seq<OperatorPoints>, ids: set<nat>)
    ensures Purge(a + b, ids) == Purge(a, ids) + Purge(b, ids)
    decreases |b|
  {
    if |b| == 0 {
      assert a + b == a;
    } else {
      var init := b[..|b| - 1];
      assert (a + b)[..|a + b| - 1] == a + init;
      PurgeAppend(a, init, ids);
    }
  }

  /** Purging twice is purging once by both sets of ids. */
  lemma {:induction false} PurgeTwice(points: seq<OperatorPoints>, s: set<nat>, t: set<nat>)
    ensures Purge(Purge(points, s), t) == Purge(points, s + t)
  {
    if |points| > 0 {
      var init := points[..|points| - 1];
      var last := points[|points| - 1];
      PurgeTwice(init, s, t);
      PurgeAppend(Purge(init, s), if last.submissionId in s then [] else [last], t);
    }
  }

  /** Rows none of whose submissions is purged are kept as they are. */
  lemma {:induction false} PurgeNone(points: seq<OperatorPoints>, ids: set<nat>)
    requires forall i :: 0 <= i < |points| ==> points[i].submissionId !in ids
    ensures Purge(points, ids) == points
  {
    if |points| > 0 {
      PurgeNone(points[..|points| - 1], ids);
    }
  }

  /** Rows all of whose submissions are purged disappear. */
  lemma {:induction false} PurgeAll(points: seq<OperatorPoints>, ids: set<nat>)
    requires forall i :: 0 <= i < |points| ==> points[i].submissionId in ids
    ensures Purge(points, ids) == []
  {
    if |points| > 0 {
      PurgeAll(points[..|points| - 1], ids);
    }
  }

  // ------------------------------------------------------ store invariant

  predicate IdsBelow(subs: seq<Submission>, bound: nat) {
    forall i :: 0 <= i < |subs| ==> subs[i].id < bound
  }

  predicate IdsDistinct(subs: seq<Submission>) {
    forall i, j :: 0 <= i < j < |subs| ==> subs[i].id != subs[j].id
  }

  /** Every stored divisor is positive: the upload route stores
      `effectiveOperators || 1`, and a valid validation counts at least one. */
  predicate DivisorsPositive(subs: seq<Submission>) {
    forall i :: 0 <= i < |subs| ==> subs[i].effectiveOperators >= 1
  }

  /** The headline invariant: at most one active row per callsign, contest
      key and season. */
  predicate OneActivePerEntrant(subs: seq<Submission>) {
    forall i, j :: 0 <= i < j < |subs| && subs[i].isActive && subs[j].isActive
      && subs[i].callsign == subs[j].callsign && subs[i].contestKey == subs[j].contestKey
      ==> subs[i].seasonYear != subs[j].seasonYear
  }

  // --------------------------------------------------------------- members

  predicate CallsignsDistinct(ms: seq<Member>) {
    forall i, j :: 0 <= i < j < |ms| ==> ms[i].callsign != ms[j].callsign
  }

  function IndexOfCallsign(table: seq<Member>, callsign: string): (r: Option<nat>)
    ensures r.Some? ==> r.value < |table| && table[r.value].callsign == callsign
    ensures r.None? ==> forall i :: 0 <= i < |table| ==> table[i].callsign != callsign
  {
    if |table| == 0 then None
    else if table[|table| - 1].callsign == callsign then Some(|table| - 1)
    else IndexOfCallsign(table[..|table| - 1], callsign)
  }

  /** One row of an insert with `ON CONFLICT (callsign) DO UPDATE`: a row with
      the same callsign has its other columns replaced, otherwise the row is
      added. */
  function UpsertMember(table: seq<Member>, m: Member): seq<Member> {
    match IndexOfCallsign(table, m.callsign)
    case Some(i) => table[i := m]
    case None => table + [m]
  }

  function UpsertMembers(table: seq<Member>, ms: seq<Member>): seq<Member>
    decreases |ms|
  {
    if |ms| == 0 then table else UpsertMembers(UpsertMember(table, ms[0]), ms[1..])
  }

  /** Into an empty table, rows with distinct callsigns are inserted as given. */
  lemma {:induction false} UpsertIntoEmpty(prefix: seq<Member>, ms: seq<Member>)
    requires CallsignsDistinct(prefix + ms)
    ensures UpsertMembers(prefix, ms) == prefix + ms
    decreases |ms|
  {
    if |ms| > 0 {
      assert IndexOfCallsign(prefix, ms[0].callsign).None? by {
        forall i | 0 <= i < |prefix| ensures prefix[i].callsign != ms[0].callsign {
          assert (prefix + ms)[i] == prefix[i] && (prefix + ms)[|prefix|] == ms[0];
        }
      }
      assert prefix + ms == (prefix + [ms[0]]) + ms[1..];
      UpsertIntoEmpty(prefix + [ms[0]], ms[1..]);
    }
  }

  /** The members a season counts as eligible (server/storage.ts:361-370 and
      the check in server/scoring-engine.ts:54): an expiration date is present
      and passes the roster's dues rule. */
  predicate DuesCurrent(m: Member, seasonYear: int) {
    m.duesExpiration.Some? && RosterScraper.IsDuesValidForYear(m.duesExpiration.value, seasonYear)
  }

  // ----------------------------------------------------------------- store

  class Store {
    var members: seq<Member>
    var submissions: seq<Submission>
    var rawLogs: seq<RawLog>
    var baselines: map<BaselineKey, int>
    var points: seq<OperatorPoints>
    /** The next value of the submissions' identity column; deletes do not reset it. */
    var nextId: nat

    predicate Valid()
      reads this
    {
      IdsBelow(submissions, nextId) && IdsDistinct(submissions) && DivisorsPositive(submissions)
    }

    constructor()
      ensures Valid()
      ensures members == [] && submissions == [] && rawLogs == [] && baselines == map[] && points == []
    {
      members := [];
      submissions := [];
      rawLogs := [];
      baselines := map[];
      points := [];
      nextId := 1;
    }

    /** `getAllActiveMembers`. */
    function ActiveMembers(): (r: seq<Member>)
      reads this
      ensures forall m :: m in r <==> m in members && m.activeYn
    {
      var r := Filter(members, (m: Member) => m.activeYn);
      assert forall m :: m in r <==> m in members && m.activeYn by {
        forall m { FilterMember(members, (m: Member) => m.activeYn, m); }
      }
      r
    }

    /** `getBaseline(seasonYear, contestKey)`: the stored highest single-operator score. */
    function GetBaseline(seasonYear: int, contestKey: string): (r: Option<int>)
      reads this
      ensures r.Some? <==> BaselineKey(seasonYear, contestKey) in baselines
      ensures r.Some? ==> r.value == baselines[BaselineKey(seasonYear, contestKey)]
    {
      var key := BaselineKey(seasonYear, contestKey);
      if key in baselines then Some(baselines[key]) else None
    }

    method CreateSubmission(s: NewSubmission) returns (sub: Submission)
      modifies this
      ensures sub == Submission(old(nextId), s.seasonYear, s.contestKey, s.mode, s.callsign, s.categoryOperator,
                                s.claimedScore, s.operatorList, s.memberOperators, s.effectiveOperators,
                                s.club, s.status, true)
      ensures submissions == old(submissions) + [sub] && nextId == old(nextId) + 1
      ensures members == old(members) && rawLogs == old(rawLogs) && baselines == old(baselines) && points == old(points)
      ensures old(Valid()) && s.effectiveOperators >= 1 ==> Valid()
    {
      sub := Submission(nextId, s.seasonYear, s.contestKey, s.mode, s.callsign, s.categoryOperator,
                        s.claimedScore, s.operatorList, s.memberOperators, s.effectiveOperators,
                        s.club, s.status, true);
      submissions := submissions + [sub];
      nextId := nextId + 1;
    }

    method DeactivateSubmission(callsign: string, contestKey: string, seasonYear: int)
      modifies this
      ensures submissions == DeactivateAll(old(submissions), callsign, contestKey, seasonYear)
      ensures members == old(members) && rawLogs == old(rawLogs) && baselines == old(baselines)
      ensures points == old(points) && nextId == old(nextId)
      ensures old(Valid()) ==> Valid()
    {
      submissions := DeactivateAll(submissions, callsign, contestKey, seasonYear);
      forall i | 0 <= i < |submissions|
        ensures submissions[i].id == old(submissions)[i].id
        ensures submissions[i].effectiveOperators == old(submissions)[i].effectiveOperators
      {
        DeactivateAllAt(old(submissions), callsign, contestKey, seasonYear, i);
      }
    }

    /** `upsertBaseline`: the conflict target is (seasonYear, contestKey). */
    method UpsertBaseline(seasonYear: int, contestKey: string, highestSingleClaimed: int)
      modifies this
      ensures baselines == old(baselines)[BaselineKey(seasonYear, contestKey) := highestSingleClaimed]
      ensures members == old(members) && submissions == old(submissions) && rawLogs == old(rawLogs)
      ensures points == old(points) && nextId == old(nextId)
    {
      baselines := baselines[BaselineKey(seasonYear, contestKey) := highestSingleClaimed];
    }

    method CreateOperatorPoints(p: OperatorPoints)
      modifies this
      ensures points == old(points) + [p]
      ensures members == old(members) && submissions == old(submissions) && rawLogs == old(rawLogs)
      ensures baselines == old(baselines) && nextId == old(nextId)
    {
      points := points + [p];
    }

    method DeleteOperatorPointsBySubmission(submissionId: nat)
      modifies this
      ensures points == WithoutSubmission(old(points), submissionId)
      ensures members == old(members) && submissions == old(submissions) && rawLogs == old(rawLogs)
      ensures baselines == old(baselines) && nextId == old(nextId)
    {
      points := WithoutSubmission(points, submissionId);
    }

    method CreateRawLog(log: RawLog)
      modifies this
      ensures rawLogs == old(rawLogs) + [log]
      ensures members == old(members) && submissions == old(submissions) && points == old(points)
      ensures baselines == old(baselines) && nextId == old(nextId)
    {
      rawLogs := rawLogs + [log];
    }

    /** `clearAllContestData`: points, raw logs, submissions and baselines go;
        members stay. */
    method ClearAllContestData()
      modifies this
      ensures points == [] && rawLogs == [] && submissions == [] && baselines == map[]
      ensures members == old(members) && nextId == old(nextId)
      ensures Valid()
    {
      points := [];
      rawLogs := [];
      submissions := [];
      baselines := map[];
    }

    method DeleteAllMembers()
      modifies this
      ensures members == []
      ensures submissions == old(submissions) && rawLogs == old(rawLogs) && points == old(points)
      ensures baselines == old(baselines) && nextId == old(nextId)
    {
      members := [];
    }

    /** `createManyMembers`: one insert with an upsert on the callsign. A
        single insert may not update the same row twice, so a batch that
        repeats a callsign fails as a whole and changes nothing. */
    method CreateManyMembers(ms: seq<Member>) returns (ok: bool)
      modifies this
      ensures ok <==> CallsignsDistinct(ms)
      ensures members == if ok then UpsertMembers(old(members), ms) else old(members)
      ensures submissions == old(submissions) && rawLogs == old(rawLogs) && points == old(points)
      ensures baselines == old(baselines) && nextId == old(nextId)
    {
      ok := CallsignsDistinct(ms);
      if ok && |ms| > 0 {
        members := UpsertMembers(members, ms);
      }
    }

    /** The two counts of `getSeasonStats` (the distinct-contest list is a
        query left to the database). */
    method SeasonStats(seasonYear: int) returns (activeMembers: nat, eligibleMembers: nat)
      ensures activeMembers == |ActiveCallsignSet(SeasonSubmissions(submissions, seasonYear))|
      ensures eligibleMembers == |EligibleMembers(members, seasonYear)|
    {
      var active := CollectActiveCallsigns(SeasonSubmissions(submissions, seasonYear));
      activeMembers := |active|;
      eligibleMembers := |EligibleMembers(members, seasonYear)|;
    }
  }

  // -------------------------------------------------------- season stats

  /** The season's active, accepted submissions. */
  function SeasonSubmissions(subs: seq<Submission>, seasonYear: int): seq<Submission> {
    Filter(subs, (s: Submission) => s.seasonYear == seasonYear && s.isActive && s.status == Accepted)
  }

  /** All members, active or not, whose dues cover the season. */
  function EligibleMembers(ms: seq<Member>, seasonYear: int): seq<Member> {
    Filter(ms, (m: Member) => DuesCurrent(m, seasonYear))
  }

  lemma EligibleMembersExact(ms: seq<Member>, seasonYear: int, m: Member)
    ensures m in EligibleMembers(ms, seasonYear) <==> m in ms && DuesCurrent(m, seasonYear)
  {
    FilterMember(ms, (x: Member) => DuesCurrent(x, seasonYear), m);
  }

  function TrimmedPieces(pieces: seq<string>): (r: set<string>)
  {
    if |pieces| == 0 then {} else TrimmedPieces(pieces[..|pieces| - 1]) + {Trim(pieces[|pieces| - 1])}
  }

  /** The trimmed comma pieces of a non-empty `memberOperators` column. */
  function OperatorCallsigns(memberOperators: Option<string>): set<string> {
    if memberOperators.Some? && memberOperators.value != "" then TrimmedPieces(Split(memberOperators.value, ','))
    else {}
  }

  function ActiveCallsignSet(subs: seq<Submission>): set<string> {
    if |subs| == 0 then {}
    else ActiveCallsignSet(subs[..|subs| - 1]) + OperatorCallsigns(subs[|subs| - 1].memberOperators)
  }

  lemma {:induction false} PieceCounted(pieces: seq<string>, k: nat)
    requires k < |pieces|
    ensures Trim(pieces[k]) in TrimmedPieces(pieces)
  {
    if k < |pieces| - 1 {
      PieceCounted(pieces[..|pieces| - 1], k);
    }
  }

  lemma {:induction false} CountedIsPiece(pieces: seq<string>, x: string) returns (k: nat)
    requires x in TrimmedPieces(pieces)
    ensures k < |pieces| && x == Trim(pieces[k])
  {
    var init := pieces[..|pieces| - 1];
    if x == Trim(pieces[|pieces| - 1]) {
      k := |pieces| - 1;
    } else {
      k := CountedIsPiece(init, x);
      assert init[k] == pieces[k];
    }
  }

  /** The set holds exactly the trimmed pieces. */
  lemma TrimmedPiecesExact(pieces: seq<string>, x: string)
    ensures x in TrimmedPieces(pieces) <==> exists k :: 0 <= k < |pieces| && x == Trim(pieces[k])
  {
    if x in TrimmedPieces(pieces) {
      var k := CountedIsPiece(pieces, x);
    }
    if exists k :: 0 <= k < |pieces| && x == Trim(pieces[k]) {
      var k :| 0 <= k < |pieces| && x == Trim(pieces[k]);
      PieceCounted(pieces, k);
    }
  }

  /** A callsign is counted exactly when it is a trimmed comma piece of the
      `memberOperators` of one of the submissions. */
  lemma {:induction false} SubmissionCounted(subs: seq<Submission>, i: nat, x: string)
    requires i < |subs| && x in OperatorCallsigns(subs[i].memberOperators)
    ensures x in ActiveCallsignSet(subs)
  {
    if i < |subs| - 1 {
      SubmissionCounted(subs[..|subs| - 1], i, x);
    }
  }

  lemma {:induction false} CountedFromSubmission(subs: seq<Submission>, x: string) returns (i: nat)
    requires x in ActiveCallsignSet(subs)
    ensures i < |subs| && x in OperatorCallsigns(subs[i].memberOperators)
  {
    if x in OperatorCallsigns(subs[|subs| - 1].memberOperators) {
      i := |subs| - 1;
    } else {
      i := CountedFromSubmission(subs[..|subs| - 1], x);
      assert subs[..|subs| - 1][i] == subs[i];
    }
  }

  /** A callsign is counted exactly when it is a trimmed comma piece of the
      non-empty `memberOperators` of one of the submissions. */
  lemma ActiveCallsignSetExact(subs: seq<Submission>, x: string)
    ensures x in ActiveCallsignSet(subs) <==> exists i :: 0 <= i < |subs| && x in OperatorCallsigns(subs[i].memberOperators)
  {
    if x in ActiveCallsignSet(subs) {
      var i := CountedFromSubmission(subs, x);
    }
    if exists i :: 0 <= i < |subs| && x in OperatorCallsigns(subs[i].memberOperators) {
      var i :| 0 <= i < |subs| && x in OperatorCallsigns(subs[i].memberOperators);
      SubmissionCounted(subs, i, x);
    }
  }

  /** The `Set` that `getSeasonStats` fills, one submission and one piece at a time. */
  method CollectActiveCallsigns(subs: seq<Submission>) returns (active: set<string>)
    ensures active == ActiveCallsignSet(subs)
  {
    active := {};
    for i := 0 to |subs|
      invariant active == ActiveCallsignSet(subs[..i])
    {
      assert subs[..i + 1][..i] == subs[..i];
      var mo := subs[i].memberOperators;
      if mo.Some? && mo.value != "" {
        var pieces := Split(mo.value, ',');
        var found := {};
        for k := 0 to |pieces|
          invariant found == TrimmedPieces(pieces[..k])
        {
          assert pieces[..k + 1][..k] == pieces[..k];
          found := found + {Trim(pieces[k])};
        }
        assert pieces[..|pieces|] == pieces;
        active := active + found;
      }
    }
    assert subs[..|subs|] == subs;
  }

  // ---------------------------------------------------------- dense rank

  /** A leaderboard row fetched in descending order of total points. */
  datatype LeaderRow = LeaderRow(callsign: string, totalPoints: int, contests: int, totalClaimed: real)

  datatype RankedRow = RankedRow(rank: nat, callsign: string, normalizedPoints: int, contests: int, claimedScore: real)

  /** The rows with dense ranks: the first row is rank 1 and the rank goes up
      by one when the points drop below the previous row's. */
  function RankRows(rows: seq<LeaderRow>): (r: seq<RankedRow>)
    ensures |r| == |rows|
  {
    if |rows| == 0 then []
    else
      var init := RankRows(rows[..|rows| - 1]);
      var row := rows[|rows| - 1];
      var rank := if |init| == 0 then 1
                  else if row.totalPoints < rows[|rows| - 2].totalPoints then init[|init| - 1].rank + 1
                  else init[|init| - 1].rank;
      init + [RankedRow(rank, row.callsign, row.totalPoints, row.contests, row.totalClaimed)]
  }

  /** The ranking loop of the two leaderboards: `currentRank` and
      `previousPoints` updated row by row. */
  method AssignRanks(rows: seq<LeaderRow>) returns (ranked: seq<RankedRow>)
    ensures ranked == RankRows(rows)
  {
    var currentRank: nat := 1;
    var previousPoints: Option<int> := None;
    ranked := [];
    for i := 0 to |rows|
      invariant ranked == RankRows(rows[..i])
      invariant i == 0 ==> previousPoints.None? && currentRank == 1
      invariant i > 0 ==> previousPoints == Some(rows[i - 1].totalPoints) && currentRank == ranked[i - 1].rank
    {
      assert rows[..i + 1][..i] == rows[..i];
      var row := rows[i];
      if previousPoints.Some? && row.totalPoints < previousPoints.value {
        currentRank := currentRank + 1;
      }
      previousPoints := Some(row.totalPoints);
      ranked := ranked + [RankedRow(currentRank, row.callsign, row.totalPoints, row.contests, row.totalClaimed)];
    }
    assert rows[..|rows|] == rows;
  }

  lemma {:induction false} RankRowsPrefix(rows: seq<LeaderRow>, n: nat)
    requires n <= |rows|
    ensures RankRows(rows[..n]) == RankRows(rows)[..n]
    decreases |rows|
  {
    if n < |rows| {
      var init := rows[..|rows| - 1];
      assert init[..n] == rows[..n];
      RankRowsPrefix(init, n);
    } else {
      assert rows[..n] == rows;
    }
  }

  /** The rows keep their fields; the first is rank 1; later ranks rise by
      exactly one on a strict drop in points and stay otherwise. */
  lemma RankRowsStep(rows: seq<LeaderRow>, i: nat)
    requires i < |rows|
    ensures var r := RankRows(rows);
      r[i].callsign == rows[i].callsign && r[i].normalizedPoints == rows[i].totalPoints
      && r[i].contests == rows[i].contests && r[i].claimedScore == rows[i].totalClaimed
      && (i == 0 ==> r[i].rank == 1)
      && (i > 0 ==> r[i].rank == r[i - 1].rank + (if rows[i].totalPoints < rows[i - 1].totalPoints then 1 else 0))
  {
    var r := RankRows(rows);
    var p := rows[..i + 1];
    RankRowsPrefix(rows, i + 1);
    assert r[i] == RankRows(p)[i];
    assert p[..|p| - 1] == rows[..i];
    var init := RankRows(rows[..i]);
    var row := rows[i];
    assert p[|p| - 1] == row;
    var rank := if |init| == 0 then 1
                else if row.totalPoints < p[|p| - 2].totalPoints then init[|init| - 1].rank + 1
                else init[|init| - 1].rank;
    assert RankRows(p) == init + [RankedRow(rank, row.callsign, row.totalPoints, row.contests, row.totalClaimed)];
    if i > 0 {
      RankRowsPrefix(rows, i);
      assert init[i - 1] == r[i - 1];
      assert p[|p| - 2] == rows[i - 1];
    }
  }

  predicate Descending(rows: seq<LeaderRow>) {
    forall i, j :: 0 <= i < j < |rows| ==> rows[i].totalPoints >= rows[j].totalPoints
  }

  /** On rows in descending order of points, two rows share a rank exactly
      when they have equal points, and fewer points mean a larger rank. */
  lemma {:induction false} RankRowsDense(rows: seq<LeaderRow>, i: nat, j: nat)
    requires Descending(rows) && i <= j < |rows|
    ensures var r := RankRows(rows);
      (r[i].rank == r[j].rank <==> rows[i].totalPoints == rows[j].totalPoints)
      && r[i].rank <= r[j].rank
    decreases j - i
  {
    if i < j {
      RankRowsDense(rows, i, j - 1);
      RankRowsStep(rows, j);
    }
  }

  // ------------------------------------------------------- top-N cutoff

  /** A row of a "most competitive contests" or "most active operators"
      query: a key, the value it is ordered by, and a second count. */
  datatype CountRow = CountRow(key: string, value: int, extra: int)

  /** The value at index `min(limit - 1, length - 1)`, or 0 when there is no
      such index. */
  function TieCutoff(rows: seq<CountRow>, limit: int): (r: int)
    ensures 1 <= limit <= |rows| ==> r == rows[limit - 1].value
    ensures 1 <= |rows| < limit ==> r == rows[|rows| - 1].value
    ensures limit < 1 || |rows| == 0 ==> r == 0
  {
    var idx := if limit - 1 < |rows| - 1 then limit - 1 else |rows| - 1;
    if 0 <= idx then rows[idx].value else 0
  }

  /** Every row at or above the cutoff, in order. */
  function TopWithTies(rows: seq<CountRow>, limit: int): (top: seq<CountRow>)
    ensures |top| <= |rows|
    ensures forall x :: x in top <==> x in rows && x.value >= TieCutoff(rows, limit)
  {
    var cutoff := TieCutoff(rows, limit);
    var top := Filter(rows, (r: CountRow) => r.value >= cutoff);
    assert forall x :: x in top <==> x in rows && x.value >= cutoff by {
      forall x { FilterMember(rows, (r: CountRow) => r.value >= cutoff, x); }
    }
    top
  }

  predicate CountsDescending(rows: seq<CountRow>) {
    forall i, j :: 0 <= i < j < |rows| ==> rows[i].value >= rows[j].value
  }

  /** On rows in descending order a filter by a lower bound keeps a prefix. */
  lemma {:induction false} FilterAtLeastIsPrefix(rows: seq<CountRow>, cutoff: int, n: nat)
    requires CountsDescending(rows)
    requires n <= |rows| && forall i :: 0 <= i < n ==> rows[i].value >= cutoff
    requires n == |rows| || rows[n].value < cutoff
    ensures Filter(rows, (r: CountRow) => r.value >= cutoff) == rows[..n]
    decreases |rows|
  {
    var p := (r: CountRow) => r.value >= cutoff;
    if |rows| > 0 {
      var init := rows[..|rows| - 1];
      if n == |rows| {
        FilterAll(rows, p);
        assert rows[..n] == rows;
      } else {
        assert !p(rows[|rows| - 1]);
        assert CountsDescending(init);
        if n < |init| {
          assert init[n] == rows[n];
        }
        FilterAtLeastIsPrefix(init, cutoff, n);
        assert init[..n] == rows[..n];
      }
    }
  }

  /** The number of leading rows at or above `cutoff`. */
  function LeadingAtLeast(rows: seq<CountRow>, cutoff: int): (n: nat)
    ensures n <= |rows| && (forall i :: 0 <= i < n ==> rows[i].value >= cutoff)
    ensures n == |rows| || rows[n].value < cutoff
  {
    if |rows| == 0 || rows[0].value < cutoff then 0 else 1 + LeadingAtLeast(rows[1..], cutoff)
  }

  /** With a positive limit and rows in descending order, the cutoff keeps a
      prefix of the rows holding at least the first `limit` (or all of them). */
  lemma TopWithTiesPrefix(rows: seq<CountRow>, limit: int)
    requires CountsDescending(rows) && limit >= 1
    ensures var r := TopWithTies(rows, limit);
      r == rows[..|r|] && |r| >= (if limit < |rows| then limit else |rows|)
  {
    var cutoff := TieCutoff(rows, limit);
    var n := LeadingAtLeast(rows, cutoff);
    FilterAtLeastIsPrefix(rows, cutoff, n);
    var m := if limit < |rows| then limit else |rows|;
    if m > 0 {
      assert forall i :: 0 <= i < m ==> rows[i].value >= cutoff by {
        forall i | 0 <= i < m ensures rows[i].value >= cutoff {
          if i < m - 1 { assert rows[i].value >= rows[m - 1].value; }
        }
      }
    }
  }
}
