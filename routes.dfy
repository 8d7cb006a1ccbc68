/** The HTTP routes that change the store: the log upload, the two roster
    imports and the administrative recomputation. Request decoding, the
    multipart upload, the CSV tokenizer and the roster fetch are inputs:
    each route receives what those produced. */
module Routes {
  import opened Js
  import opened Schema
  import opened Storage
  import opened ScoringEngine
  import opened CabrilloParser

  // ------------------------------------------------------------- upload

  /** What `POST /api/upload` answers: a 400 for a log that does not parse,
      a 400 `rejected` for a log that fails validation, or the accepted
      submission. */
  datatype UploadResponse =
    | BadRequest(error: string)
    | RejectedUpload(error: string)
    | UploadAccepted(submissionId: nat, contest: string, mode: string, callsign: string,
                     claimedScore: int, normalizedPoints: int, memberOperators: seq<string>)

  const ParseFailure: string := "Failed to parse Cabrillo file"

  /** `parsed.error || "Failed to parse Cabrillo file"`. */
  function ParseErrorText(error: string): (r: string)
    ensures r != ""
    ensures error != "" ==> r == error
  {
    if error == "" then ParseFailure else error
  }

  /** JavaScript's `n || 1` on a number. */
  function OrOne(n: int): (r: int)
    ensures r != 0
    ensures n != 0 ==> r == n
  {
    if n == 0 then 1 else n
  }

  /** The points the upload answer reports: the share `claimedScore /
      (effectiveOperators || 1)` over the stored baseline, scaled to a
      million and rounded, or exactly a million when no baseline is stored
      or it is zero. */
  function ReportedPoints(baseline: Option<int>, claimedScore: int, effectiveOperators: int): (r: int)
    ensures baseline.None? || baseline.value == 0 ==> r == 1000000
    ensures baseline.Some? && baseline.value != 0 && OrOne(effectiveOperators) == 1 && claimedScore == baseline.value
            ==> r == 1000000
    ensures baseline.Some? && baseline.value > 0 && effectiveOperators >= 1 && 0 <= claimedScore <= baseline.value
            ==> 0 <= r <= 1000000
  {
    var share := claimedScore as real / OrOne(effectiveOperators) as real;
    if baseline.Some? && baseline.value != 0 then
      ShareOfBaseline(claimedScore, OrOne(effectiveOperators), baseline.value);
      Round(share / baseline.value as real * Scale)
    else 1000000
  }

  /** The share of a claim over a baseline is one when a single operator
      claims the baseline, and lies in [0, 1] when it claims at most it. */
  lemma ShareOfBaseline(claimedScore: int, divisor: int, b: int)
    requires divisor != 0 && b != 0
    ensures divisor == 1 && claimedScore == b ==> claimedScore as real / divisor as real / b as real == 1.0
    ensures b > 0 && divisor >= 1 && 0 <= claimedScore <= b ==>
            0.0 <= claimedScore as real / divisor as real / b as real * Scale <= Scale
  {
    if b > 0 && divisor >= 1 && 0 <= claimedScore <= b {
      var share := claimedScore as real / divisor as real;
      DivByAtLeastOne(claimedScore as real, divisor as real);
      DivByAtLeast(share, b as real);
    }
  }

  /** Dividing a non-negative real by one or more keeps it in [0, c]. */
  lemma DivByAtLeastOne(c: real, d: real)
    requires 1.0 <= d && 0.0 <= c
    ensures 0.0 <= c / d <= c
  {
    var x := c / d;
    assert x * d == c;
    assert x * (d - 1.0) == c - x;
  }

  /** A real in [0, b] over b lies in [0, 1]. */
  lemma DivByAtLeast(s: real, b: real)
    requires 0.0 < b && 0.0 <= s <= b
    ensures 0.0 <= s / b <= 1.0
  {
    var x := s / b;
    assert x * b == s;
    assert (1.0 - x) * b == b - s;
  }

  /** `Array.prototype.find` on callsign: the first row of `subs` that has it. */
  function FirstWithCallsign(subs: seq<Submission>, callsign: string): (r: Option<Submission>)
    ensures r.Some? ==> r.value in subs && r.value.callsign == callsign
    ensures r.None? ==> forall i :: 0 <= i < |subs| ==> subs[i].callsign != callsign
  {
    if |subs| == 0 then None
    else if subs[0].callsign == callsign then Some(subs[0])
    else FirstWithCallsign(subs[1..], callsign)
  }

  /** The row `FirstWithCallsign` finds has no earlier row with the callsign. */
  lemma {:induction false} FirstWithCallsignIsFirst(subs: seq<Submission>, callsign: string) returns (i: nat)
    requires FirstWithCallsign(subs, callsign).Some?
    ensures i < |subs| && subs[i] == FirstWithCallsign(subs, callsign).value
    ensures forall j :: 0 <= j < i ==> subs[j].callsign != callsign
  {
    if subs[0].callsign == callsign {
      i := 0;
    } else {
      var k := FirstWithCallsignIsFirst(subs[1..], callsign);
      i := k + 1;
    }
  }

  /** The row the upload inserts, with the id the store assigns it. */
  function UploadRow(id: nat, seasonYear: int, data: CabrilloData, v: ValidationResult): Submission
    requires v.Valid?
  {
    Submission(id, seasonYear, data.contest, data.mode, data.callsign, data.categoryOperator, data.claimedScore,
               Join(data.operators, ","), Some(Join(v.memberOperators, ",")), OrOne(v.effectiveOperators),
               data.club, Accepted, true)
  }

  /** Deactivating the entrant's earlier rows and appending its new active
      row keeps at most one active row per callsign, contest and season. */
  lemma UploadKeepsOneActive(subs: seq<Submission>, row: Submission)
    requires OneActivePerEntrant(subs) && row.isActive
    ensures OneActivePerEntrant(DeactivateAll(subs, row.callsign, row.contestKey, row.seasonYear) + [row])
  {
    var d := DeactivateAll(subs, row.callsign, row.contestKey, row.seasonYear);
    var r := d + [row];
    forall i, j | 0 <= i < j < |r| && r[i].isActive && r[j].isActive
        && r[i].callsign == r[j].callsign && r[i].contestKey == r[j].contestKey
      ensures r[i].seasonYear != r[j].seasonYear
    {
      DeactivateAllAt(subs, row.callsign, row.contestKey, row.seasonYear, i);
      if j < |d| {
        DeactivateAllAt(subs, row.callsign, row.contestKey, row.seasonYear, j);
      }
    }
  }

  /** When no active row of the season and contest has the callsign,
      deactivation changes nothing. */
  lemma {:induction false} DeactivateAllNoMatch(subs: seq<Submission>, callsign: string, contestKey: string, seasonYear: int)
    requires forall i :: 0 <= i < |subs| && IsActiveFor(subs[i], seasonYear, contestKey) ==> subs[i].callsign != callsign
    ensures DeactivateAll(subs, callsign, contestKey, seasonYear) == subs
  {
    if |subs| > 0 {
      var init := subs[..|subs| - 1];
      var last := subs[|subs| - 1];
      assert forall i :: 0 <= i < |init| ==> init[i] == subs[i];
      DeactivateAllNoMatch(init, callsign, contestKey, seasonYear);
      assert Deactivate(last, callsign, contestKey, seasonYear) == last;
      assert init + [last] == subs;
    }
  }

  /** The row the upload looks for: the entrant's active row of the season
      and contest, if any. */
  function ExistingRow(subs: seq<Submission>, seasonYear: int, contestKey: string, callsign: string): Option<Submission> {
    FirstWithCallsign(ActiveByContest(subs, seasonYear, contestKey), callsign)
  }

  /** An entrant without an existing row has nothing to deactivate. */
  lemma NoExistingNoChange(subs: seq<Submission>, seasonYear: int, contestKey: string, callsign: string)
    requires ExistingRow(subs, seasonYear, contestKey, callsign).None?
    ensures DeactivateAll(subs, callsign, contestKey, seasonYear) == subs
  {
    var active := ActiveByContest(subs, seasonYear, contestKey);
    forall i | 0 <= i < |subs| && IsActiveFor(subs[i], seasonYear, contestKey)
      ensures subs[i].callsign != callsign
    {
      ActiveByContestExact(subs, seasonYear, contestKey, subs[i]);
      var k :| 0 <= k < |active| && active[k] == subs[i];
    }
    DeactivateAllNoMatch(subs, callsign, contestKey, seasonYear);
  }

  /** The point table once the existing row's points are deleted. */
  function PointsAfterReplace(points: seq<OperatorPoints>, existing: Option<Submission>): seq<OperatorPoints> {
    if existing.Some? then WithoutSubmission(points, existing.value.id) else points
  }

  /** Lines 50-65 of the upload route: delete the existing row's points and
      deactivate it. The route passes `(callsign, contest, mode,
      currentYear)` to the three-parameter `deactivateSubmission`, so the
      mode string goes where the integer season belongs. The model passes
      the season there instead; README.md says what the code as written
      most likely does. */
  method ReplaceExisting(store: Store, callsign: string, contestKey: string, seasonYear: int)
    modifies store
    requires store.Valid()
    ensures store.Valid()
    ensures store.submissions == DeactivateAll(old(store.submissions), callsign, contestKey, seasonYear)
    ensures store.points == PointsAfterReplace(old(store.points),
                                               ExistingRow(old(store.submissions), seasonYear, contestKey, callsign))
    ensures store.members == old(store.members) && store.rawLogs == old(store.rawLogs)
    ensures store.baselines == old(store.baselines) && store.nextId == old(store.nextId)
  {
    var existingSubmissions := ActiveByContest(store.submissions, seasonYear, contestKey);
    var existingSubmission := FirstWithCallsign(existingSubmissions, callsign);
    if existingSubmission.Some? {
      store.DeleteOperatorPointsBySubmission(existingSubmission.value.id);
      store.DeactivateSubmission(callsign, contestKey, seasonYear);
    } else {
      NoExistingNoChange(store.submissions, seasonYear, contestKey, callsign);
    }
  }

  /** The new row is among the rows the recomputation covers. */
  lemma UploadRowAccepted(subs: seq<Submission>, row: Submission)
    requires row.isActive && row.status == Accepted
    ensures row in AcceptedFor(subs + [row], row.seasonYear, row.contestKey)
  {
    var all := subs + [row];
    ActiveByContestExact(all, row.seasonYear, row.contestKey, row);
    FilterMember(ActiveByContest(all, row.seasonYear, row.contestKey), (s: Submission) => s.status == Accepted, row);
  }

  /** Lines 67-89 of the upload route: insert the row, store the raw log and
      recompute the contest. */
  method RecordAccepted(store: Store, data: CabrilloData, v: ValidationResult, filename: string, content: string,
                        seasonYear: int) returns (sub: Submission)
    modifies store
    requires store.Valid() && v.Valid? && v.effectiveOperators >= 1
    ensures store.Valid()
    ensures sub == UploadRow(old(store.nextId), seasonYear, data, v)
    ensures store.submissions == old(store.submissions) + [sub] && store.nextId == old(store.nextId) + 1
    ensures store.rawLogs == old(store.rawLogs) + [RawLog(sub.id, filename, content)]
    ensures store.members == old(store.members)
    ensures var acc := AcceptedFor(store.submissions, seasonYear, data.contest);
      |acc| > 0 && DivisorsPositive(acc) && IdsDistinct(acc)
    ensures var acc := AcceptedFor(store.submissions, seasonYear, data.contest);
      store.points == RecomputedPoints(old(store.points), acc, RecomputeScale(acc))
      && store.baselines == BaselinesAfter(old(store.baselines), seasonYear, data.contest, acc)
  {
    var s0 := store.submissions;
    sub := store.CreateSubmission(NewSubmission(seasonYear, data.contest, data.mode, data.callsign,
                                                data.categoryOperator, data.claimedScore, Join(data.operators, ","),
                                                Some(Join(v.memberOperators, ",")), OrOne(v.effectiveOperators),
                                                data.club, Accepted));
    store.CreateRawLog(RawLog(sub.id, filename, content));
    UploadRowAccepted(s0, sub);
    AcceptedForInvariants(store.submissions, seasonYear, data.contest);
    RecomputeBaseline(store, seasonYear, data.contest);
  }

  /** `POST /api/upload` from the parse to the answer. `clockYear` is the
      year the parser reads from the clock when the log gives no date;
      `currentYear` is the year the server read when it started. */
  method Upload(store: Store, content: string, filename: string, clockYear: int, currentYear: int)
    returns (resp: UploadResponse)
    modifies store
    requires store.Valid()
    ensures store.Valid()
    ensures OneActivePerEntrant(old(store.submissions)) ==> OneActivePerEntrant(store.submissions)
    ensures var parsed := ParseSpec(content, clockYear);
      parsed.ParseError? ==> resp == BadRequest(ParseErrorText(parsed.error)) && unchanged(store)
    ensures var parsed := ParseSpec(content, clockYear);
      parsed.Parsed? ==>
        var d := parsed.data;
        var v := Validation(d.callsign, d.operators, d.club, d.categoryOperator, currentYear, old(store.ActiveMembers()));
        v.Invalid? ==> resp == RejectedUpload(ErrorMessage(v.error)) && unchanged(store)
    ensures var parsed := ParseSpec(content, clockYear);
      parsed.Parsed? ==>
        var d := parsed.data;
        var v := Validation(d.callsign, d.operators, d.club, d.categoryOperator, currentYear, old(store.ActiveMembers()));
        v.Valid? ==>
          var row := UploadRow(old(store.nextId), currentYear, d, v);
          && store.submissions == DeactivateAll(old(store.submissions), d.callsign, d.contest, currentYear) + [row]
          && store.nextId == old(store.nextId) + 1
          && store.rawLogs == old(store.rawLogs) + [RawLog(row.id, filename, content)]
          && store.members == old(store.members)
          && resp == UploadAccepted(row.id, d.contest, d.mode, d.callsign, d.claimedScore,
                                    ReportedPoints(store.GetBaseline(currentYear, d.contest), d.claimedScore,
                                                   v.effectiveOperators),
                                    v.memberOperators)
    ensures var parsed := ParseSpec(content, clockYear);
      parsed.Parsed? ==>
        var d := parsed.data;
        var v := Validation(d.callsign, d.operators, d.club, d.categoryOperator, currentYear, old(store.ActiveMembers()));
        v.Valid? ==>
          var acc := AcceptedFor(store.submissions, currentYear, d.contest);
          var start := PointsAfterReplace(old(store.points), ExistingRow(old(store.submissions), currentYear, d.contest, d.callsign));
          && |acc| > 0 && DivisorsPositive(acc)
          && store.points == RecomputedPoints(start, acc, RecomputeScale(acc))
          && store.baselines == BaselinesAfter(old(store.baselines), currentYear, d.contest, acc)
  {
    var parsed := ParseCabrillo(content, clockYear);
    if parsed.ParseError? {
      return BadRequest(ParseErrorText(parsed.error));
    }
    var data := parsed.data;
    var validation := ValidateSubmission(store, data.callsign, data.operators, data.club, data.categoryOperator,
                                         currentYear);
    if validation.Invalid? {
      return RejectedUpload(ErrorMessage(validation.error));
    }
    ValidationResultMeaning(data.callsign, data.operators, data.club, data.categoryOperator, currentYear,
                            store.ActiveMembers(), data.callsign);
    var s0 := store.submissions;
    ReplaceExisting(store, data.callsign, data.contest, currentYear);
    var s1 := store.submissions;
    var sub := RecordAccepted(store, data, validation, filename, content, currentYear);
    if OneActivePerEntrant(s0) {
      UploadKeepsOneActive(s0, sub);
    }
    var baseline := store.GetBaseline(currentYear, data.contest);
    resp := UploadAccepted(sub.id, data.contest, data.mode, data.callsign, data.claimedScore,
                           ReportedPoints(baseline, data.claimedScore, validation.effectiveOperators),
                           validation.memberOperators);
  }

  /** When the contest has a single-operator entry with a non-zero claim,
      the points the upload reports for a submission are the points the
      recomputation stored for each of its members. */
  lemma ReportedMatchesStored(accepted: seq<Submission>, sub: Submission, piece: string)
    requires DivisorsPositive(accepted) && sub in accepted
    requires |SingleOps(accepted)| > 0 && MaxInt(Claims(SingleOps(accepted))) != 0
    ensures var stored := PointRow(sub, piece, RecomputeScale(accepted)).normalizedPoints;
      stored.Fin? && stored.value == ReportedPoints(Some(MaxInt(Claims(SingleOps(accepted)))), sub.claimedScore,
                                                    sub.effectiveOperators) as real
  {
    var k :| 0 <= k < |accepted| && accepted[k] == sub;
    StoredIsReported(sub, piece, MaxInt(Claims(SingleOps(accepted))));
  }

  /** The stored and the reported formula agree for a non-zero baseline. */
  lemma StoredIsReported(sub: Submission, piece: string, b: int)
    requires sub.effectiveOperators >= 1 && b != 0
    ensures PointRow(sub, piece, b as real).normalizedPoints
              == Fin(ReportedPoints(Some(b), sub.claimedScore, sub.effectiveOperators) as real)
  {
    var share := Quotient(sub);
    assert share == sub.claimedScore as real / OrOne(sub.effectiveOperators) as real;
    var x := share / b as real * Scale;
    assert Times(Div(share, b as real), Scale) == Fin(x);
  }

  /** Without a single-operator entry and without a stored baseline the
      upload reports a full million, whatever the recomputation stored: a
      two-operator entry claiming 2000 beside one claiming 4000 stores half
      a million for each of its operators. */
  lemma ProvisionalReportDiffers()
    ensures var small := Submission(1, 2025, "CQWW", "CW", "K1AA", "MULTI-OP", 2000, "", Some("K1AA"), 2, "", Accepted, true);
      var large := Submission(2, 2025, "CQWW", "CW", "K1BB", "MULTI-OP", 4000, "", Some("K1BB"), 2, "", Accepted, true);
      var accepted := [small, large];
      && |SingleOps(accepted)| == 0
      && PointRow(small, "K1AA", RecomputeScale(accepted)).normalizedPoints == Fin(500000.0)
      && ReportedPoints(None, small.claimedScore, small.effectiveOperators) == 1000000
  {
    var small := Submission(1, 2025, "CQWW", "CW", "K1AA", "MULTI-OP", 2000, "", Some("K1AA"), 2, "", Accepted, true);
    var large := Submission(2, 2025, "CQWW", "CW", "K1BB", "MULTI-OP", 4000, "", Some("K1BB"), 2, "", Accepted, true);
    var accepted := [small, large];
    SingleOpsExact(accepted, small);
    SingleOpsExact(accepted, large);
    var q := Quotients(accepted);
    assert q == [1000.0, 2000.0];
    assert MaxReal(q).value == 2000.0;
    assert Round(1000.0 / 2000.0 * Scale) == 500000;
  }

  // ------------------------------------------------------------- roster

  const InternalError: string := "Internal server error"
  const NoMembersFound: string := "Failed to parse roster - no members found"
  const SyncFailed: string := "Failed to sync roster from yccc.org"

  /** The answers of the two roster routes: the member count (and, for the
      sync, the first three members) or a 500 with its message. */
  datatype RosterResponse =
    | RosterUploaded(count: nat)
    | RosterSynced(count: nat, sample: seq<Member>)
    | RosterFailed(error: string)

  /** One row of the uploaded roster CSV as the CSV reader yields it with
      headers: each column is absent when the row lacks it. */
  datatype CsvRow = CsvRow(callsign: Option<string>, activeYn: Option<string>, aliasCalls: Option<string>)

  /** The member a CSV row maps to; a missing callsign maps to the empty
      callsign, which the route then drops like the undefined it stands for. */
  function CsvMember(row: CsvRow): (m: Member)
    ensures m.callsign == "" <==> row.callsign.None? || row.callsign.value == ""
    ensures NoLower(m.callsign) && m.duesExpiration.None?
    ensures row.aliasCalls.None? ==> m.aliases == ""
  {
    assert row.callsign.Some? ==> NoLower(ToUpper(row.callsign.value)) by {
      if row.callsign.Some? { UpperFacts(row.callsign.value); }
    }
    Member(if row.callsign.Some? then ToUpper(row.callsign.value) else "",
           row.activeYn == Some("Y") || row.activeYn == Some("1"),
           if row.aliasCalls.Some? then row.aliasCalls.value else "",
           None)
  }

  function CsvMembers(rows: seq<CsvRow>): seq<Member> {
    Filter(seq(|rows|, i requires 0 <= i < |rows| => CsvMember(rows[i])), (m: Member) => m.callsign != "")
  }

  /** The roster upload keeps exactly the rows with a non-empty callsign,
      and each kept member has an upper-case callsign, no expiration date
      and is active exactly when its flag is `Y` or `1`. */
  lemma CsvMembersExact(rows: seq<CsvRow>, m: Member)
    ensures m in CsvMembers(rows) <==>
              exists i :: 0 <= i < |rows| && rows[i].callsign.Some? && rows[i].callsign.value != "" && m == CsvMember(rows[i])
    ensures m in CsvMembers(rows) ==>
              m.callsign != "" && NoLower(m.callsign) && m.duesExpiration.None?
  {
    var mapped := seq(|rows|, i requires 0 <= i < |rows| => CsvMember(rows[i]));
    FilterMember(mapped, (x: Member) => x.callsign != "", m);
    if m in CsvMembers(rows) {
      var i :| 0 <= i < |mapped| && mapped[i] == m;
      UpperFacts(rows[i].callsign.value);
    }
    if exists i :: 0 <= i < |rows| && rows[i].callsign.Some? && rows[i].callsign.value != "" && m == CsvMember(rows[i]) {
      var i :| 0 <= i < |rows| && rows[i].callsign.Some? && rows[i].callsign.value != "" && m == CsvMember(rows[i]);
      assert mapped[i] == m;
    }
  }

  /** A flag other than `Y` or `1` makes the member inactive. */
  lemma CsvActiveFlag(row: CsvRow)
    ensures CsvMember(row).activeYn <==> row.activeYn.Some? && (row.activeYn.value == "Y" || row.activeYn.value == "1")
  {
  }

  /** `POST /api/admin/roster`: replace the member table with the CSV's
      members. A repeated callsign makes the insert fail after the table was
      emptied, and the route answers 500. */
  method UploadRoster(store: Store, rows: seq<CsvRow>) returns (resp: RosterResponse)
    modifies store
    ensures var ms := CsvMembers(rows);
      && (CallsignsDistinct(ms) ==> store.members == ms && resp == RosterUploaded(|ms|))
      && (!CallsignsDistinct(ms) ==> store.members == [] && resp == RosterFailed(InternalError))
    ensures store.submissions == old(store.submissions) && store.rawLogs == old(store.rawLogs)
    ensures store.points == old(store.points) && store.baselines == old(store.baselines)
    ensures store.nextId == old(store.nextId)
  {
    var members := CsvMembers(rows);
    store.DeleteAllMembers();
    var ok := store.CreateManyMembers(members);
    if ok {
      UpsertIntoEmpty([], members);
      assert [] + members == members;
      resp := RosterUploaded(|members|);
    } else {
      resp := RosterFailed(InternalError);
    }
  }

  /** A member as the roster page lists it. */
  datatype ScrapedMember = ScrapedMember(callsign: string, firstName: string, lastName: string, duesExpiration: string)

  /** The member the sync stores for a scraped one: upper-cased, active, no
      aliases, the page's expiration date. */
  function SyncMember(m: ScrapedMember): Member {
    Member(ToUpper(m.callsign), true, "", Some(m.duesExpiration))
  }

  function SyncMembers(scraped: seq<ScrapedMember>): (r: seq<Member>)
    ensures |r| == |scraped| && forall i :: 0 <= i < |r| ==> r[i] == SyncMember(scraped[i])
  {
    seq(|scraped|, i requires 0 <= i < |scraped| => SyncMember(scraped[i]))
  }

  /** A synced member counts for a season exactly when its scraped
      expiration date passes the dues rule. */
  lemma SyncedDuesCurrent(m: ScrapedMember, seasonYear: int)
    ensures var s := SyncMember(m);
      s.activeYn && NoLower(s.callsign)
      && (DuesCurrent(s, seasonYear) <==> RosterScraper.IsDuesValidForYear(m.duesExpiration, seasonYear))
  {
    UpperFacts(m.callsign);
  }

  /** `POST /api/admin/sync-roster`: an empty scrape leaves the table alone
      and answers 500; otherwise the table is replaced as in the CSV upload,
      with the first three members as the sample. */
  method SyncRoster(store: Store, scraped: seq<ScrapedMember>) returns (resp: RosterResponse)
    modifies store
    ensures |scraped| == 0 ==> resp == RosterFailed(NoMembersFound) && unchanged(store)
    ensures var ms := SyncMembers(scraped);
      |scraped| > 0 ==>
        && (CallsignsDistinct(ms) ==>
              store.members == ms && resp == RosterSynced(|ms|, ms[..if |ms| < 3 then |ms| else 3]))
        && (!CallsignsDistinct(ms) ==> store.members == [] && resp == RosterFailed(SyncFailed))
    ensures store.submissions == old(store.submissions) && store.rawLogs == old(store.rawLogs)
    ensures store.points == old(store.points) && store.baselines == old(store.baselines)
    ensures store.nextId == old(store.nextId)
  {
    if |scraped| == 0 {
      return RosterFailed(NoMembersFound);
    }
    var members := SyncMembers(scraped);
    store.DeleteAllMembers();
    var ok := store.CreateManyMembers(members);
    if ok {
      UpsertIntoEmpty([], members);
      assert [] + members == members;
      resp := RosterSynced(|members|, members[..if |members| < 3 then |members| else 3]);
    } else {
      resp := RosterFailed(SyncFailed);
    }
  }

  // ------------------------------------------------------------ recompute

  /** `seasonYear || currentYear`: a missing or zero season means the
      server's year. */
  function RequestedSeason(seasonYear: Option<int>, currentYear: int): (r: int)
    ensures seasonYear.Some? && seasonYear.value != 0 ==> r == seasonYear.value
    ensures seasonYear.None? || seasonYear.value == 0 ==> r == currentYear
  {
    if seasonYear.Some? && seasonYear.value != 0 then seasonYear.value else currentYear
  }

  /** `POST /api/admin/recompute`: recompute one contest of the requested
      season. */
  method AdminRecompute(store: Store, contestKey: string, seasonYear: Option<int>, currentYear: int)
    modifies store
    requires store.Valid()
    ensures store.Valid()
    ensures var y := RequestedSeason(seasonYear, currentYear);
      var accepted := old(AcceptedFor(store.submissions, y, contestKey));
      DivisorsPositive(accepted)
      && if |accepted| == 0 then store.points == old(store.points) && store.baselines == old(store.baselines)
         else store.points == RecomputedPoints(old(store.points), accepted, RecomputeScale(accepted))
              && store.baselines == BaselinesAfter(old(store.baselines), y, contestKey, accepted)
    ensures store.members == old(store.members) && store.submissions == old(store.submissions)
    ensures store.rawLogs == old(store.rawLogs) && store.nextId == old(store.nextId)
  {
    RecomputeBaseline(store, RequestedSeason(seasonYear, currentYear), contestKey);
  }
}
