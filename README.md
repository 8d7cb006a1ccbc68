# YCCC club leaderboard — a verified model

The leaderboard belongs to the Yankee Clipper Contest Club (YCCC). Members
upload Cabrillo 3.0 contest logs. The server works through each log in
these steps:

- it parses the log header;
- it checks that the log is a club entry and that its operators hold club
  dues valid for the season;
- it stores the log as the entrant's one active submission for the contest;
- it normalises every accepted log of the contest against the best
  single-operator score (the *baseline*), scaled to 1,000,000 points.

Two admin routes replace the member roster: one from a CSV upload, one from
the club's web roster. A DX-cluster client reads spot lines from a telnet
feed. It decides which spots earn "cheerleader" points: those where a
dues-current member spots another member.

The project models that core in Dafny, one module per source file:

| module | file | models |
|---|---|---|
| `Js` | `js.dfy` | the JavaScript runtime pieces the code relies on: ASCII case mapping, `trim`, `split`/`join`, `\s+` tokenising, `parseInt(…, 10)`, `Math.round`, division that can leave the finite numbers |
| `CabrilloParser` | `cabrillo_parser.dfy` | `server/cabrillo-parser.ts` |
| `RosterScraper` | `roster_scraper.dfy` | `isDuesValidForYear`, with the ECMAScript `Date(y, m, d)` day arithmetic it depends on (ECMA-262 sections 21.4.1.13 MakeDay and 21.4.2.1 the Date constructor) |
| `Schema` | `schema.dfy` | the rows the server reads and writes, with the columns `server/storage.ts` and `server/routes.ts` use; `shared/schema.ts` declares fewer (see "## Left out") |
| `Storage` | `storage.dfy` | `server/storage.ts` as an in-memory `Store` class, plus the TypeScript post-processing of fetched rows (ranks, top-N ties, season counts) |
| `ScoringEngine` | `scoring_engine.dfy` | `server/scoring-engine.ts` |
| `Routes` | `routes.dfy` | the upload, roster, sync-roster and recompute handlers of `server/routes.ts`, without HTTP |
| `ClusterClient` | `cluster_client.dfy` | the line framing, prompt detection, spot parsing, spot filters and member cache of `server/cluster-client.ts`, without the socket |

The model follows the code as follows.

- Wall-clock values are parameters. Routes take `currentYear`, the year read
  when the server starts. The parser takes `clockYear`, its own
  `new Date().getFullYear()`. The cluster client takes `now`.
- Stateful code is imperative Dafny:
  - the store and the cluster client are classes;
  - loops are `while` and `for` loops with invariants;
  - each method is proved equal to a specification function, and the
    properties are lemmas about those functions.
- JavaScript numbers are split by use:
  - claimed scores are integers;
  - divisions are exact `real`s, with a `NonFinite` value for a division
    by zero;
  - `Math.round(x)` is `(x + 0.5).Floor`.
- Scoring divides by `effectiveOperators`, as the code does. It takes the
  baseline from single-operator logs only and never clamps points, so a
  multi-operator log can score above 1,000,000.
- The upload route calls `deactivateSubmission(callsign, contest, mode,
  currentYear)` (`server/routes.ts:59-64`). The storage function takes
  `(callsign, contestKey, seasonYear)` (`server/storage.ts:127`), so the
  mode string, such as `"CW"`, goes where the integer `season_year` column
  (`shared/schema.ts:22`) is compared. What happens then depends on the
  database driver. Most likely Postgres rejects the value, the route's
  `catch` answers 500 (`server/routes.ts:107-109`), the old row's points
  are already deleted (`server/routes.ts:58`), the old row stays active
  and no new row is written. Only if the query ran with the string would
  it match no row, leaving the old row active beside the new one. The
  model passes the season in that position instead. With that change,
  `Routes.Upload` is proved to keep at most one active submission per
  (callsign, contest, season). `Routes.ReplaceExisting` models the step.
- Callers pass an extra `mode` argument to `getActiveSubmissionsByContest`
  and `getBaseline`. The storage signatures do not take it and JavaScript
  drops it. Queries therefore group by (season, contest) only. Baselines
  are also keyed that way, as the upsert's conflict target
  (`server/storage.ts:334-335`) is, although `shared/schema.ts:44-46`
  declares the unique key over (season, contest, mode).
- `parseCabrillo` starts `operators` at `[]`. Its later `operators ||
  [callsign]` therefore never substitutes the callsign, and the model keeps
  that behaviour (`CabrilloParser.ParsedDefaults`).

## Model

| member | source | states |
|---|---|---|
| CabrilloParser.NormalizeContestKey | server/cabrillo-parser.ts:22-24 | the contest key has no lower-case letter and no leading or trailing whitespace |
| CabrilloParser.NormalizeContestKeyIdempotent | server/cabrillo-parser.ts:22-24 | normalising a key twice gives the same key as normalising once |
| CabrilloParser.ExtractMode | server/cabrillo-parser.ts:26-42 | the mode is upper-case and trimmed; without a CATEGORY-MODE it is one of CW, SSB, RTTY, MIXED; otherwise it is a keyword or the normalised category mode passed through, and a passed-through mode contains none of CW, SSB, PHONE, RTTY, DIGITAL, MIXED |
| CabrilloParser.ClassifyCategoryMode | server/cabrillo-parser.ts:27-34 | the result is a mode keyword or the input itself, and stays upper-case and trimmed when the input was |
| CabrilloParser.ClassifyContestName | server/cabrillo-parser.ts:36-41 | a mode read off the contest name is always one of CW, SSB, RTTY, MIXED |
| CabrilloParser.ClassifyPriority | server/cabrillo-parser.ts:26-42 | CW wins whenever present; SSB exactly when SSB or PHONE is present and CW is not; RTTY exactly when neither wins and RTTY (or, for a category mode only, DIGITAL) is present; otherwise a category mode is MIXED when it contains MIXED and passes through unchanged when not, and a contest name is MIXED |
| CabrilloParser.ParseOperators | server/cabrillo-parser.ts:44-49 | every operator token is non-empty and made only of A-Z and 0-9 |
| CabrilloParser.ParseOperatorsAppend | server/cabrillo-parser.ts:44-49 | the operators of two comma-joined lists are those of the first followed by those of the second: splitting keeps input order |
| CabrilloParser.ParseOperatorsDropsSuffixed | server/cabrillo-parser.ts:48 | a token containing `/` or `-` yields no operator |
| CabrilloParser.ParseOperatorsOfCall | server/cabrillo-parser.ts:44-49 | a well-formed callsign parses to exactly itself |
| CabrilloParser.ParseOperatorsKeepsRepeats | server/cabrillo-parser.ts:44-49 | a repeated callsign is kept twice: no de-duplication |
| CabrilloParser.QsoLineCount | server/cabrillo-parser.ts:51-59 | at most one QSO is counted per line |
| CabrilloParser.QsoLineCountAppend | server/cabrillo-parser.ts:51-59 | the QSO count of concatenated logs is the sum of their counts |
| CabrilloParser.ComputeScore | server/cabrillo-parser.ts:51-59 | the fallback score is twice the number of lines starting with `QSO:` |
| CabrilloParser.FirstDateYear | server/cabrillo-parser.ts:70-76 | a year found on a QSO line lies in [1900, 2100] |
| CabrilloParser.FirstDateYearNone | server/cabrillo-parser.ts:70-76 | no year is found exactly when no token is an in-range `yyyy-mm-dd` date |
| CabrilloParser.FirstDateYearAt | server/cabrillo-parser.ts:70-76 | the year found is that of the first in-range date token; out-of-range dates are skipped |
| CabrilloParser.FirstQsoYear | server/cabrillo-parser.ts:61-83 | a contest year taken from the log body lies in [1900, 2100] |
| CabrilloParser.FirstQsoYearNone | server/cabrillo-parser.ts:66-79 | no year comes from the body exactly when no QSO line carries an in-range date |
| CabrilloParser.FirstQsoYearAt | server/cabrillo-parser.ts:66-79 | the body's year comes from the first QSO line carrying an in-range date |
| CabrilloParser.ExtractContestYear | server/cabrillo-parser.ts:61-83 | the nested loop returns the first QSO line's in-range year, else the clock's year |
| CabrilloParser.ColonPieces | server/cabrillo-parser.ts:106 | splitting a line on `:` always yields a key piece |
| CabrilloParser.TagOf | server/cabrillo-parser.ts:104-107 | a tag is read only off a non-blank line that does not start with `#`, and its value is trimmed |
| CabrilloParser.Tags | server/cabrillo-parser.ts:103-107 | every line yields one tag slot |
| CabrilloParser.TagsAt | server/cabrillo-parser.ts:103-107 | the tag slot of a line is read off that line alone |
| CabrilloParser.TrimAll | server/cabrillo-parser.ts:86 | trimming keeps one entry per line of the log |
| CabrilloParser.LastValueSome | server/cabrillo-parser.ts:103-144 | a header field has a value exactly when some header line carries its tag |
| CabrilloParser.LastValueAt | server/cabrillo-parser.ts:103-144 | the value comes from the last line carrying the tag: a later occurrence overwrites an earlier one |
| CabrilloParser.LastValueFrom | server/cabrillo-parser.ts:107 | a header value is trimmed |
| CabrilloParser.HeaderFoldIsHeaderOf | server/cabrillo-parser.ts:103-144 | running the switch line by line gives the record in which each field holds its last tag's value or its initial value |
| CabrilloParser.HeaderOfSnoc | server/cabrillo-parser.ts:109-143 | reading one more line changes exactly the field its tag names |
| CabrilloParser.LastValueSnoc | server/cabrillo-parser.ts:109-143 | one more line carrying a tag replaces that tag's value and leaves other tags alone |
| CabrilloParser.ReadLine | server/cabrillo-parser.ts:104-107 | one loop pass skips blank and comment lines, upper-cases the key and re-joins the value pieces with `:` |
| CabrilloParser.SetField | server/cabrillo-parser.ts:109-143 | the switch stores the value in the field its key names (CALLSIGN, category and mode fields upper-cased, CLAIMED-SCORE as `parseInt` or 0, OPERATORS tokenised) and ignores unknown keys |
| CabrilloParser.ReadHeader | server/cabrillo-parser.ts:103-144 | the header loop computes the line-by-line fold from the initial record |
| CabrilloParser.Complete | server/cabrillo-parser.ts:146-186 | the checks and defaults after the loop compute the reference result |
| CabrilloParser.ParseCabrillo | server/cabrillo-parser.ts:85-187 | the parser's result equals the reference reading of the log |
| CabrilloParser.FinishErrors | server/cabrillo-parser.ts:146-158 | the CONTEST error is returned exactly when the contest is empty; the CALLSIGN error exactly when the contest is present and the callsign empty |
| CabrilloParser.MissingContestFails | server/cabrillo-parser.ts:146-151 | a log fails with "Missing CONTEST field" exactly when its last CONTEST tag is missing or blank, whatever else it holds |
| CabrilloParser.MissingCallsignFails | server/cabrillo-parser.ts:153-158 | a log fails with "Missing CALLSIGN field" exactly when it has a CONTEST value and its CALLSIGN is missing or blank |
| CabrilloParser.BlankValue | server/cabrillo-parser.ts:146-158 | a field reads as empty exactly when it is missing or blank |
| CabrilloParser.ParsedContest | server/cabrillo-parser.ts:167-173 | a parsed log's contest is the non-empty, upper-cased CONTEST value, already normalised |
| CabrilloParser.ParsedCallsign | server/cabrillo-parser.ts:113-158 | a parsed log's callsign is non-empty and upper-case |
| CabrilloParser.ParsedScore | server/cabrillo-parser.ts:160-162 | the claimed score is the parsed CLAIMED-SCORE (negatives kept), or twice the QSO count when the tag is missing, not a number or 0 |
| CabrilloParser.ParsedDefaults | server/cabrillo-parser.ts:176-182 | the category defaults to SINGLE-OP; without an OPERATORS line the operator list is empty, not the callsign; all operators are call tokens |
| CabrilloParser.ParsedMode | server/cabrillo-parser.ts:164-170 | a parsed log's mode is classified from its last CATEGORY-MODE value when that is non-empty, else from its MODE value, with the CONTEST value as the fallback |
| CabrilloParser.ParsedYear | server/cabrillo-parser.ts:164-184 | the contest year is the first in-range QSO date's year, else the clock's year |
| CabrilloParser.NormalizeContestKeyOfTrimmed | server/cabrillo-parser.ts:22-24 | a trimmed, non-empty key normalises to its upper-casing, which is non-empty |
| RosterScraper.DateDay | server/roster-scraper.ts:101 | a date the `Date` constructor builds lies within 10^8 days of the epoch, the range of time values |
| RosterScraper.ExpirationDay | server/roster-scraper.ts:92-101 | a date is read only from a non-empty string of exactly three `/` parts |
| RosterScraper.IsDuesValidForYear | server/roster-scraper.ts:91-105 | dues are valid only for a non-empty string with exactly three `/` parts |
| RosterScraper.DayFromYearStep | server/roster-scraper.ts:101-102 | consecutive years start 365 or 366 days apart, by the Gregorian leap rule |
| RosterScraper.LastDayOfYear | server/roster-scraper.ts:102 | 31 December is the day before 1 January of the next year |
| RosterScraper.MonthCarry | server/roster-scraper.ts:101 | month 13 of a year is January of the next year |
| RosterScraper.DayFromYearMonotone | server/roster-scraper.ts:101-104 | later years start on later days |
| RosterScraper.RequiredDayValue | server/roster-scraper.ts:102 | the required date is 31 December of the season's constructor year, the day before the next 1 January, when that day is a representable date |
| RosterScraper.DuesMonotone | server/roster-scraper.ts:91-105 | a date that covers a season covers every season whose constructor year is no later and whose 31 December is representable |
| RosterScraper.DuesMonotoneSeasons | server/roster-scraper.ts:91-105 | dues valid for season y are valid for every earlier season from year 100 on |
| RosterScraper.DuesValidMeaning | server/roster-scraper.ts:91-105 | dues are valid exactly when the string parses to a date, the season's 31 December is representable, and the date is on or after it |
| RosterScraper.SplitDuesString | server/roster-scraper.ts:94 | an `M/D/Y` string splits into its three numerals |
| RosterScraper.ExpirationDayOf | server/roster-scraper.ts:94-101 | an `M/D/Y` string reads as the day the `Date` constructor gives for month M-1, day D, year Y |
| RosterScraper.DuesThroughSeason | server/roster-scraper.ts:101-104 | `12/31/y` is valid for season y but not y+1; `12/30/y` is not valid for y; `13/1/y` rolls over and is valid for y |
| RosterScraper.TwoDigitExpiration | server/roster-scraper.ts:101 | a date with a two-digit year never covers a season from 2000 on, so `12/31/24` fails for 2024 |
| RosterScraper.TwoDigitSeasonBreaksMonotone | server/roster-scraper.ts:102 | `12/31/y` for y in [100, 1998] covers season 100 but not season 99, which the constructor reads as 1999: monotonicity stops below 100 |
| RosterScraper.TwoDigitYear | server/roster-scraper.ts:101 | the `Date` constructor reads years 0 to 99 as 1900 to 1999 |
| ScoringEngine.OwnerMeaning | server/scoring-engine.ts:31-42 | the owner of a key is the last member whose callsign or alias gives it |
| ScoringEngine.RegisterExact | server/scoring-engine.ts:34-41 | registering a member adds its callsign and aliases as keys pointing to it, and keeps other keys |
| ScoringEngine.MemberMapLookup | server/scoring-engine.ts:31-42 | a key is in the lookup map exactly when some member gives it, and it maps to the last such member |
| ScoringEngine.RegisterMember | server/scoring-engine.ts:34-41 | one `forEach` pass adds the upper-cased callsign and each trimmed, upper-cased, non-empty alias |
| ScoringEngine.BuildMemberMap | server/scoring-engine.ts:31-42 | the loop builds the lookup map of the whole roster |
| ScoringEngine.ClassifyExact | server/scoring-engine.ts:44-60 | a callsign is admitted exactly when some checked operator resolves to a dues-valid member with that primary callsign; it is listed as expired exactly when one resolves to a member with lapsed dues; unknown calls are ignored |
| ScoringEngine.ClassifyDistinct | server/scoring-engine.ts:54-57 | admitted member operators are free of duplicates and no more numerous than the checked operators |
| ScoringEngine.ClassifyOperators | server/scoring-engine.ts:44-60 | the operator loop computes the classification |
| ScoringEngine.ValidateSubmission | server/scoring-engine.ts:14-94 | validation against the store's active members equals the reference decision |
| ScoringEngine.ValidationAccepts | server/scoring-engine.ts:21-78 | a log is accepted exactly when the trimmed, upper-cased club is YANKEE CLIPPER CONTEST CLUB and some checked operator is a dues-valid member |
| ScoringEngine.ValidationResultMeaning | server/scoring-engine.ts:44-93 | an accepted log has a non-empty, duplicate-free member list; its effective operator count is that list's length for MULTI, M/ or CHECKLOG categories and 1 otherwise; exclusions are reported exactly when some operator had lapsed dues |
| ScoringEngine.ValidationRejects | server/scoring-engine.ts:21-74 | a wrong club is rejected whatever the roster says, and the error quotes the original text; with no valid operator the error lists the lapsed members, or says no member was found |
| ScoringEngine.MaxInt | server/scoring-engine.ts:145-156 | the maximum is an element and bounds every element |
| ScoringEngine.MaxReal | server/scoring-engine.ts:111-116 | the maximum exists exactly for a non-empty list, is an element and bounds every element |
| ScoringEngine.Claims | server/scoring-engine.ts:145-149 | the claims list holds each submission's claimed score in order |
| ScoringEngine.Quotients | server/scoring-engine.ts:113-116 | the share list holds each submission's claimed score divided by its effective operators |
| ScoringEngine.SingleOpsExact | server/scoring-engine.ts:111 | the single-operator entries are exactly those with one effective operator |
| ScoringEngine.ComputeNormalizedPoints | server/scoring-engine.ts:96-131 | the method returns the reference points and writes the baseline only when it had none and single-operator entries exist |
| ScoringEngine.StoredBaselinePoints | server/scoring-engine.ts:129-130 | with a non-zero stored baseline the points are round(share / baseline × 1,000,000), nothing is written, and the baseline's own log scores exactly 1,000,000 |
| ScoringEngine.MissingBaselinePoints | server/scoring-engine.ts:104-127 | without a baseline the top single-op score becomes the baseline and the unrounded ratio is returned; with no single-op entry the ratio against the best share is returned, or 1,000,000 when that is not positive |
| ScoringEngine.AcceptedForInvariants | server/scoring-engine.ts:138-139 | the accepted active entries of a contest keep distinct ids and positive divisors |
| ScoringEngine.PointRowsFor | server/scoring-engine.ts:163-174 | one point row is written per member-operator piece, in order |
| ScoringEngine.RecomputeBaseline | server/scoring-engine.ts:133-177 | with no accepted entry nothing changes; otherwise each accepted entry's old rows are replaced by one row per trimmed comma piece, and the baseline becomes the best single-op claim when one exists |
| ScoringEngine.RewritePoints | server/scoring-engine.ts:162-175 | one pass deletes the submission's old rows and appends its new rows |
| ScoringEngine.RewriteAll | server/scoring-engine.ts:161-176 | the loop leaves the other submissions' rows followed by the new rows of every accepted entry |
| ScoringEngine.RecomputeIdempotent | server/scoring-engine.ts:161-176 | a second recompute with no store change yields the same point rows |
| ScoringEngine.BaselinesIdempotent | server/scoring-engine.ts:145-159 | a second recompute yields the same baselines |
| ScoringEngine.RecomputeKeepsOthers | server/scoring-engine.ts:161-176 | rows of non-accepted submissions are neither removed nor added |
| ScoringEngine.ScaledAtMost | server/scoring-engine.ts:166-173 | a share at most the scale rounds to at most 1,000,000, and the scale itself to exactly 1,000,000 |
| ScoringEngine.SingleOpPointsAtMostScale | server/scoring-engine.ts:145-173 | a single-op entry scores at most 1,000,000, and the top single-op entry scores exactly 1,000,000 |
| Storage.Store.ActiveMembers | server/storage.ts:65-67 | the active members are exactly the roster's members whose active flag is set |
| Storage.ActiveByContest | server/storage.ts:117-125 | the query returns no more rows than the table holds (its membership is `Storage.ActiveByContestExact`) |
| Storage.ActiveByContestExact | server/storage.ts:117-125 | the query returns exactly the active rows of that season and contest |
| Storage.DeactivateAll | server/storage.ts:127-138 | deactivation keeps every row: none is deleted or added |
| Storage.DeactivateAllAt | server/storage.ts:127-138 | a row changes only in its active flag, and stays active exactly when it was active and does not match (callsign, contest, season) |
| Storage.PurgeExact | server/storage.ts:347-349 | a point row survives deletion exactly when it belongs to another submission |
| Storage.PurgeAppend | server/storage.ts:347-349 | deleting from concatenated rows deletes from each part |
| Storage.PurgeTwice | server/storage.ts:347-349 | deleting for one set of submissions and then another equals deleting for both |
| Storage.PurgeNone | server/storage.ts:347-349 | deleting rows of absent submissions changes nothing |
| Storage.PurgeAll | server/storage.ts:347-349 | deleting every row's submission leaves no rows |
| Storage.IndexOfCallsign | server/storage.ts:88-101 | the conflict lookup finds the row holding the callsign, or reports that none does |
| Storage.UpsertIntoEmpty | server/storage.ts:88-101 | inserting distinct new callsigns appends them in order |
| Storage.Store.CreateSubmission | server/storage.ts:107-110 | the new row gets the next id, is active and is appended; nothing else changes |
| Storage.Store.DeactivateSubmission | server/storage.ts:127-138 | exactly the matching active rows are deactivated; no other table changes |
| Storage.Store.GetBaseline | server/storage.ts:323-331 | a baseline is found exactly when one is stored for (season, contest), and it is that stored value |
| Storage.Store.UpsertBaseline | server/storage.ts:333-340 | the (season, contest) baseline now holds the new value and other baselines are unchanged |
| Storage.Store.CreateOperatorPoints | server/storage.ts:342-345 | one point row is appended; nothing else changes |
| Storage.Store.DeleteOperatorPointsBySubmission | server/storage.ts:347-349 | exactly the point rows of that submission are removed; nothing else changes |
| Storage.Store.CreateRawLog | server/storage.ts:318-321 | one raw log is appended; nothing else changes |
| Storage.Store.ClearAllContestData | server/storage.ts:351-356 | points, raw logs, submissions and baselines are emptied; members are kept |
| Storage.Store.DeleteAllMembers | server/storage.ts:103-105 | the member table is emptied; nothing else changes |
| Storage.Store.CreateManyMembers | server/storage.ts:88-101 | the insert succeeds exactly when the callsigns are distinct, and then upserts each member; a failed insert changes nothing |
| Storage.Store.SeasonStats | server/storage.ts:358-402 | the counts are the distinct trimmed member-operator calls of the season's active accepted logs, and the members whose dues cover the season |
| Storage.EligibleMembersExact | server/storage.ts:361-370 | the eligible members are exactly those whose dues pass the dues rule for the season |
| Storage.TrimmedPiecesExact | server/storage.ts:381-386 | a call is counted exactly when it is the trimmed form of some comma piece |
| Storage.PieceCounted | server/storage.ts:381-386 | every trimmed comma piece is counted |
| Storage.ActiveCallsignSetExact | server/storage.ts:381-386 | a call is counted for the season exactly when some counted submission lists it |
| Storage.CollectActiveCallsigns | server/storage.ts:381-386 | the `forEach` over submissions collects that set |
| Storage.RankRows | server/storage.ts:159-175 | ranking keeps one row per input row |
| Storage.AssignRanks | server/storage.ts:159-175 | the loop over rows computes the reference ranking |
| Storage.RankRowsPrefix | server/storage.ts:159-175 | the ranks of a prefix do not depend on later rows |
| Storage.RankRowsStep | server/storage.ts:159-175 | the first row has rank 1; each later rank rises by exactly 1 when the points drop below the previous row's and otherwise stays; the row's fields are copied |
| Storage.RankRowsDense | server/storage.ts:159-175 | on rows in descending order, two rows share a rank exactly when their points are equal, and ranks never decrease |
| Storage.TieCutoff | server/storage.ts:426 | the cutoff is the count of row `limit`, or of the last row when there are fewer, and 0 when there is no row or the limit is below 1 |
| Storage.TopWithTies | server/storage.ts:429 | the kept rows are at most the fetched rows, and a row is kept exactly when its count is at least the cutoff |
| Storage.TopWithTiesPrefix | server/storage.ts:425-429 | on descending rows the kept rows are a prefix at least min(limit, length) long |
| Storage.LeadingAtLeast | server/storage.ts:425-429 | the leading run of rows at or above the cutoff ends at the first row below it |
| Routes.ParseErrorText | server/routes.ts:27-31 | a parse failure always reports a non-empty error, the parser's own when it gave one |
| Routes.OrOne | server/routes.ts:76 | `x \|\| 1` is never 0 and keeps a non-zero value |
| Routes.FirstWithCallsign | server/routes.ts:56 | the found row is one of the active rows and has the callsign; none found means no active row has it |
| Routes.FirstWithCallsignIsFirst | server/routes.ts:56 | the found row is the first one with the callsign |
| Routes.UploadKeepsOneActive | server/routes.ts:50-80 | deactivating an entrant's rows and appending the new active row keeps at most one active row per (callsign, contest, season) |
| Routes.DeactivateAllNoMatch | server/routes.ts:56-65 | with no matching active row, deactivation changes nothing |
| Routes.NoExistingNoChange | server/routes.ts:56-65 | an entrant with no existing row has nothing deactivated |
| Routes.ReplaceExisting | server/routes.ts:50-65 | the existing row's points are deleted and matching rows deactivated; members, raw logs and baselines are unchanged |
| Routes.UploadRowAccepted | server/routes.ts:67-88 | the inserted row is among the accepted entries the recompute reads |
| Routes.RecordAccepted | server/routes.ts:67-88 | the accepted row (status accepted, season = current year, comma-joined lists, operators `\|\| 1`) and its raw log are stored, then the contest is recomputed |
| Routes.Upload | server/routes.ts:18-111 | a parse error or a rejected validation changes nothing and returns the error; otherwise the entrant's earlier row is replaced, the row and raw log are stored, the contest is recomputed and the reported points follow the stored baseline; at most one active row per entrant is preserved |
| Routes.ReportedPoints | server/routes.ts:91-94 | with no stored baseline, or a zero one, the route reports exactly 1,000,000; a single operator claiming exactly the baseline reports 1,000,000; a claim between 0 and a positive baseline reports between 0 and 1,000,000 |
| Routes.ReportedMatchesStored | server/routes.ts:90-95 | with a single-op baseline, the reported points equal the points stored for the submission |
| Routes.StoredIsReported | server/routes.ts:91-94 | a point row scaled by a non-zero baseline holds the points the route reports |
| Routes.ProvisionalReportDiffers | server/routes.ts:91-95 | without a single-op entry the route reports 1,000,000 while the stored row holds less (500,000 for half the best share) |
| Routes.CsvMember | server/routes.ts:180-184 | a CSV row maps to a member with an upper-case callsign, empty exactly when the row's callsign is missing or empty, no dues date, and empty aliases when the column is absent |
| Routes.CsvMembersExact | server/routes.ts:180-184 | exactly the CSV rows with a callsign become members, each with an upper-case callsign and no dues date |
| Routes.CsvActiveFlag | server/routes.ts:182 | a CSV member is active exactly when its flag is `Y` or `1` |
| Routes.UploadRoster | server/routes.ts:168-198 | the member table is replaced by the mapped rows, or left empty with an error when the insert fails; contest data is unchanged |
| Routes.SyncMembers | server/routes.ts:210-217 | one active, upper-cased member per scraped row, in order |
| Routes.SyncedDuesCurrent | server/routes.ts:210-217 | a synced member is active, upper-case, and dues-current exactly when its scraped date passes the dues rule |
| Routes.SyncRoster | server/routes.ts:200-233 | an empty scrape fails and changes nothing; otherwise the members are replaced and a count and sample of three are returned |
| Routes.RequestedSeason | server/routes.ts:238 | the requested season, or the current year when it is absent or 0 |
| Routes.AdminRecompute | server/routes.ts:235-244 | the admin route recomputes the requested contest and season and changes nothing else |
| ClusterClient.ParseSpot | server/cluster-client.ts:170-187 | a parsed spot has non-empty, upper-case spotter and spotted calls, a trimmed comment and an `HHMM` time |
| ClusterClient.ParseSpotLine | server/cluster-client.ts:170-187 | the parser recovers each field of a well-formed `DX de` line |
| ClusterClient.FreqLengthOf | server/cluster-client.ts:173 | the frequency field ends at the first blank after it |
| ClusterClient.PaddedComment | server/cluster-client.ts:173-184 | a trimmed comment survives the padding around it |
| ClusterClient.IsLoginPrompt | server/cluster-client.ts:155 | a line is a login prompt when it contains `login:` or `call`, ignoring case |
| ClusterClient.CallCommentIsPrompt | server/cluster-client.ts:155-161 | a spot whose comment contains "call" is taken as a login prompt and never parsed |
| ClusterClient.IsAutomated | server/cluster-client.ts:192-198 | a spotter is automated when it contains `-` and the segment after its first `-` is non-empty and all digits |
| ClusterClient.NoDashNotAutomated | server/cluster-client.ts:192-198 | a spotter without a `-` is never treated as automated |
| ClusterClient.AutomatedSuffix | server/cluster-client.ts:192-198 | a spotter `base-suffix` is automated exactly when the suffix is non-empty and all digits |
| ClusterClient.AutomatedMiddle | server/cluster-client.ts:192-198 | only the segment after the first `-` is tested, whatever follows a second `-` |
| ClusterClient.AutomatedMeaning | server/cluster-client.ts:192-198 | a spotter is automated exactly when the segment after its first `-` is non-empty and all digits |
| ClusterClient.Verdict | server/cluster-client.ts:203-214 | points are awarded exactly when the spotter is in the eligible cache and the spotted call in the member cache |
| ClusterClient.ClassifyMeaning | server/cluster-client.ts:153-214 | a line earns points exactly when it is not a login prompt, parses as a spot, is not automated and passes both cache filters, and the award names the spotter; a login prompt is always reported as one |
| ClusterClient.ExpirationYear | server/cluster-client.ts:90-93 | a cache year is read only from a three-part dues string |
| ClusterClient.EligibleKeys | server/cluster-client.ts:86-99 | every eligible call has an expiration year at least the current year |
| ClusterClient.MemberKeysExact | server/cluster-client.ts:86-87 | the member cache holds exactly the upper-cased callsigns of the active members |
| ClusterClient.EligibleKeysExact | server/cluster-client.ts:86-99 | the eligible cache holds exactly the active members whose third dues part parses to a year no earlier than the current one |
| ClusterClient.EligibleAreMembers | server/cluster-client.ts:86-99 | every eligible call is in the member cache |
| ClusterClient.CacheLooserThanDuesRule | server/cluster-client.ts:93-94 | the cache admits `12/30/y` for year y although the dues rule rejects it: the cache compares years only |
| ClusterClient.Client.RefreshMemberCache | server/cluster-client.ts:73-106 | within five minutes of the last rebuild nothing changes; otherwise both caches are rebuilt and the rebuild time advances |
| ClusterClient.Client.ProcessSpot | server/cluster-client.ts:189-220 | an automated spot is skipped before the cache is touched; otherwise the cache is refreshed and the filters decide |
| ClusterClient.Client.HandleLine | server/cluster-client.ts:153-168 | a line's outcome is its classification; lines that never reach the filters leave the client unchanged |
| ClusterClient.Client.HandleParsed | server/cluster-client.ts:164-167 | a parsed line is classified against the caches, refreshed first when the filters run |
| ClusterClient.Client.TakeLines | server/cluster-client.ts:123-125 | the complete lines and the new buffer, re-joined with newlines, equal the old buffer plus the chunk; the buffer holds no newline |
| ClusterClient.Client.HandleLines | server/cluster-client.ts:126-129 | every framed line is trimmed and handled, an empty one included (it comes out as no spot); each outcome is that line's classification against the refreshed caches |
| ClusterClient.Client.HandleNext | server/cluster-client.ts:126-129 | one more line is classified against the same refreshed caches |
| ClusterClient.Client.OnData | server/cluster-client.ts:122-130 | a chunk is framed into lines without losing or inventing text, and every line is handled in order |
| ClusterClient.OutcomesEach | server/cluster-client.ts:126-129 | one outcome per line, each that line's classification |
| ClusterClient.ClassifyWithoutCaches | server/cluster-client.ts:155-198 | the outcome of a line that never reaches the filters does not depend on the caches |
| ClusterClient.FramingRoundTrip | server/cluster-client.ts:123-125 | the framed lines, each followed by a newline, plus the remainder rebuild the text; no framed line holds a newline |

## Left out

- SQL aggregation is executed by Postgres in the query itself and is not
  part of this model. This covers leaderboard sums with `ROUND(SUM(…))`,
  joins, `COUNT(DISTINCT …)`, contest results, history, available years,
  the list of all submissions and of unique contests, and the top-N
  queries. Only the TypeScript processing of fetched rows is modelled.
- Row order of a `SELECT` without `ORDER BY` is taken as insertion order.
  Ranking and top-N are proved for any input order, and their
  descending-order lemmas assume the order the SQL asks for.
- Networking, timers and logging are left out: the telnet socket, the
  login write, reconnect timers, `broadcast`, the websocket server, the
  scheduler and `console` output. `OnData` takes one clock value for a
  whole chunk.
- The cheerleader award itself (`awardCheerleaderPoints`) is left out. It
  calls `storage.incrementCheerleaderPoints`, which `server/storage.ts` does
  not define. The model stops at the `Award` decision.
- `fetchYCCCRoster` (an HTTPS fetch plus regular expressions over a web
  page) is left out: the sync route starts from the scraped rows.
- Multipart upload, CSV parsing and HTTP are library work and are left out.
  The upload starts from the decoded text and the roster route from parsed
  rows. Responses are datatypes.
- Exceptions are left out except where the model needs one. The one
  modelled is the duplicate-callsign failure of the members insert, by
  which the roster routes answer with an error after deleting the members.
- `server/email-service.ts`, `loadConfig` and all client code are left out:
  they are presentation and I/O.
- IEEE-754 arithmetic is not modelled. Divisions are exact reals, with
  `NonFinite` standing for the `Infinity`/`NaN` of a division by zero.
  Rounding error is not modelled.
- The database declares `individual_claimed` and `highest_single_claimed`
  as integers, while the engine writes reals. A fractional value such as
  500.5 is then more likely rejected by Postgres than rounded, which would
  make the write, and the request, fail. The model stores the reals and
  does not model this failure.
- Case mapping is ASCII only. Time zones and daylight saving are not
  modelled: dates are whole days counted from the epoch.
- Schema: the model follows the columns the storage and route code read and
  write, not `shared/schema.ts` as written. That file disagrees in two
  places, and the model does not capture what the code would do against
  it:
  - its `members` table (`shared/schema.ts:6-10`) has only `callsign`,
    `active_yn` and `aliases`. There is no `dues_expiration`, `first_name`
    or `last_name`, though `server/storage.ts:77` and `:95-97` name them and
    the dues checks (`server/scoring-engine.ts:54`,
    `server/cluster-client.ts:90`, `server/storage.ts:362`) read
    `duesExpiration`. Against that table most likely no dues date is
    stored or read back, so every matched operator counts as expired and
    no log is accepted;
  - its `baselines` unique key is (season, contest, mode)
    (`shared/schema.ts:44-46`). The upsert's `ON CONFLICT (season_year,
    contest_key)` (`server/storage.ts:334-335`) has no matching unique
    index, which Postgres refuses, so most likely every baseline upsert
    fails.
- First and last names of members are left out; nothing in the core reads
  them.
- Ids of point rows and raw logs are left out; nothing reads them.
- Concurrency is left out: each request is one atomic step, and there are
  no overlapping recomputes.
- RosterScraper.DuesMonotoneSeasons: holds from year 100 on only. The
  `Date` constructor maps years 0–99 to the 1900s
  (`RosterScraper.TwoDigitSeasonBreaksMonotone` shows the break).
- ScoringEngine.Quotient requires `effectiveOperators >= 1`. The code divides
  by that field without a guard. Every writer stores `validation.effectiveOperators || 1`,
  and the store invariant `DivisorsPositive` carries that fact.
- Routes.Upload and Routes.ReplaceExisting: model the deactivation with the
  season in its place, not the mode the route actually passes there (see
  above). As written, the upload most likely fails with a 500 after
  deleting the old row's points, and at best leaves the old row active.
- Storage.TopWithTies and Storage.TieCutoff: compare submission counts as
  numbers. The count is a Postgres `COUNT(DISTINCT …)`, a `bigint`, which
  the HTTP driver probably hands back as a decimal string despite the
  `sql<number>` annotation (`server/storage.ts:410`). The comparisons at
  `server/storage.ts:426-429` would then be between strings, which order
  lexicographically (`"12" >= "6"` is false), so a contest with a higher
  count could be dropped. The model does not capture that.
- The extra `mode` argument callers pass to storage functions is dropped,
  as JavaScript drops surplus arguments.
- ClusterClient.Client.RefreshMemberCache takes the year as `currentYear`,
  where the code reads its own clock at each rebuild.
- Routes.Upload takes two clocks: `currentYear` for the season and
  `clockYear` for the parser's fallback year. The code reads them at
  different times.
