/** The Cabrillo 3.0 log parser: header tags (`KEY: value` lines) into a
    record, with a mode resolved from CATEGORY-MODE / MODE / the contest name,
    an operator list, a claimed score with a QSO-count fallback, and the
    contest year read from the first dated QSO record. */
module CabrilloParser {
  import opened Js

  datatype CabrilloData = CabrilloData(
    contest: string,
    callsign: string,
    claimedScore: int,
    categoryOperator: string,
    categoryAssisted: string,
    categoryTransmitter: string,
    categoryBand: string,
    categoryMode: string,
    mode: string,
    operators: seq<string>,
    club: string,
    contestYear: int)

  datatype ParseResult = Parsed(data: CabrilloData) | ParseError(error: string)

  const MissingContest := "Missing CONTEST field in Cabrillo file"
  const MissingCallsign := "Missing CALLSIGN field in Cabrillo file"

  // ------------------------------------------------------------- contest key

  /** The grouping key for baselines: upper-cased and trimmed, nothing more. */
  function NormalizeContestKey(contest: string): (key: string)
    ensures NoLower(key) && IsTrimmed(key)
  {
    UpperFacts(contest);
    TrimOfNoLower(ToUpper(contest));
    Trim(ToUpper(contest))
  }

  lemma NormalizeContestKeyIdempotent(contest: string)
    ensures NormalizeContestKey(NormalizeContestKey(contest)) == NormalizeContestKey(contest)
  {
    var k := NormalizeContestKey(contest);
    UpperOfNoLower(k);
    TrimOfTrimmed(k);
  }

  /** A non-blank trimmed contest value keeps a non-empty key. */
  lemma NormalizeContestKeyOfTrimmed(contest: string)
    requires IsTrimmed(contest) && contest != ""
    ensures NormalizeContestKey(contest) == ToUpper(contest) != ""
  {
    UpperFacts(contest);
    assert IsTrimmed(ToUpper(contest));
    TrimOfTrimmed(ToUpper(contest));
  }

  // -------------------------------------------------------------------- mode

  const ModeKeywords: set<string> := {"CW", "SSB", "RTTY", "MIXED"}

  /** Mode resolution. A non-empty `categoryMode` is normalized and
      classified by `ClassifyCategoryMode`; an empty one falls back to the
      contest name, upper-cased, by `ClassifyContestName`. */
  function ExtractMode(categoryMode: string, contestName: string): (r: string)
    ensures NoLower(r) && IsTrimmed(r)
    ensures categoryMode == "" ==> r in ModeKeywords
    ensures r in ModeKeywords || r == NormalizeContestKey(categoryMode)
    ensures r !in ModeKeywords ==>
      && !Contains(r, "CW") && !Contains(r, "SSB") && !Contains(r, "PHONE")
      && !Contains(r, "RTTY") && !Contains(r, "DIGITAL") && !Contains(r, "MIXED")
  {
    if categoryMode != "" then ClassifyCategoryMode(NormalizeContestKey(categoryMode))
    else ClassifyContestName(ToUpper(contestName))
  }

  /** CW, then SSB or PHONE, then RTTY or DIGITAL, then MIXED; any other
      value passes through unchanged. */
  function ClassifyCategoryMode(mode: string): (r: string)
    ensures r in ModeKeywords || r == mode
    ensures NoLower(mode) ==> NoLower(r)
    ensures IsTrimmed(mode) ==> IsTrimmed(r)
  {
    if Contains(mode, "CW") then "CW"
    else if Contains(mode, "SSB") || Contains(mode, "PHONE") then "SSB"
    else if Contains(mode, "RTTY") || Contains(mode, "DIGITAL") then "RTTY"
    else if Contains(mode, "MIXED") then "MIXED"
    else mode
  }

  /** CW, then SSB or PHONE, then RTTY; MIXED otherwise. DIGITAL is not tested here. */
  function ClassifyContestName(name: string): (r: string)
    ensures r in ModeKeywords && NoLower(r) && IsTrimmed(r)
  {
    if Contains(name, "CW") then "CW"
    else if Contains(name, "SSB") || Contains(name, "PHONE") then "SSB"
    else if Contains(name, "RTTY") then "RTTY"
    else "MIXED"
  }

  /** CW wins over everything, and SSB (or PHONE) over everything but CW,
      whichever of the normalized CATEGORY-MODE or the upper-cased contest
      name is probed. A CATEGORY-MODE holding none of those keywords is MIXED
      when it contains MIXED and passes through otherwise; a contest name
      holding none of them is MIXED. */
  lemma {:induction false} ClassifyPriority(probe: string)
    ensures var r := ClassifyCategoryMode(probe);
      (r == "CW" <==> Contains(probe, "CW"))
      && (r == "SSB" <==> !Contains(probe, "CW") && (Contains(probe, "SSB") || Contains(probe, "PHONE")))
      && (r == "RTTY" <==> !Contains(probe, "CW") && !Contains(probe, "SSB") && !Contains(probe, "PHONE")
                            && (Contains(probe, "RTTY") || Contains(probe, "DIGITAL")))
    ensures !Contains(probe, "CW") && !Contains(probe, "SSB") && !Contains(probe, "PHONE")
            && !Contains(probe, "RTTY") && !Contains(probe, "DIGITAL")
        ==> ClassifyCategoryMode(probe) == if Contains(probe, "MIXED") then "MIXED" else probe
    ensures var r := ClassifyContestName(probe);
      (r == "CW" <==> Contains(probe, "CW"))
      && (r == "SSB" <==> !Contains(probe, "CW") && (Contains(probe, "SSB") || Contains(probe, "PHONE")))
      && (r == "RTTY" <==> !Contains(probe, "CW") && !Contains(probe, "SSB") && !Contains(probe, "PHONE")
                            && Contains(probe, "RTTY"))
      && (r == "MIXED" <==> !Contains(probe, "CW") && !Contains(probe, "SSB") && !Contains(probe, "PHONE")
                             && !Contains(probe, "RTTY"))
  {
    assert probe == "CW" ==> StartsWith(probe, "CW");
    assert probe == "SSB" ==> StartsWith(probe, "SSB");
    assert probe == "RTTY" ==> StartsWith(probe, "RTTY");
  }

  // --------------------------------------------------------------- operators

  predicate IsOperatorSeparator(c: char) { c == ',' || IsSpace(c) }

  /** `^[A-Z0-9]+$` */
  predicate IsCallToken(t: string) {
    |t| > 0 && forall i :: 0 <= i < |t| ==> IsUpper(t[i]) || IsDigit(t[i])
  }

  /** Upper-cases the pieces and keeps those that are plain call tokens, in order. */
  function OperatorCalls(pieces: seq<string>): (ops: seq<string>)
    ensures forall k :: 0 <= k < |ops| ==> IsCallToken(ops[k])
  {
    if |pieces| == 0 then [] else OperatorCall(pieces[0]) + OperatorCalls(pieces[1..])
  }

  /** One piece, trimmed and upper-cased, if it is a call token. */
  function OperatorCall(piece: string): (ops: seq<string>)
    ensures |ops| <= 1 && forall k :: 0 <= k < |ops| ==> IsCallToken(ops[k])
  {
    var op := ToUpper(Trim(piece));
    if IsCallToken(op) then [op] else []
  }

  /** The OPERATORS value split on runs of commas and whitespace, each piece
      trimmed and upper-cased, and only `^[A-Z0-9]+$` pieces kept. (Splitting
      on each separator character instead of on runs only adds empty pieces,
      which the filter drops.) */
  function ParseOperators(operatorLine: string): (ops: seq<string>)
    ensures forall k :: 0 <= k < |ops| ==> IsCallToken(ops[k])
  {
    OperatorCalls(Tokens(operatorLine, IsOperatorSeparator))
  }

  lemma {:induction false} OperatorCallsAppend(a: seq<string>, b: seq<string>)
    ensures OperatorCalls(a + b) == OperatorCalls(a) + OperatorCalls(b)
  {
    if |a| > 0 {
      assert (a + b)[1..] == a[1..] + b;
      OperatorCallsAppend(a[1..], b);
    } else {
      assert a + b == b;
    }
  }

  /** Order is kept and nothing is de-duplicated: the operators of two
      comma-joined lists are the operators of the first followed by those of
      the second. */
  lemma ParseOperatorsAppend(x: string, y: string)
    ensures ParseOperators(x + "," + y) == ParseOperators(x) + ParseOperators(y)
  {
    TokensAround(x, ',', y, IsOperatorSeparator);
    assert x + "," + y == x + [','] + y;
    OperatorCallsAppend(Tokens(x, IsOperatorSeparator), Tokens(y, IsOperatorSeparator));
  }

  /** A single token with a `/` or `-` in it (a portable or SSID suffix) is dropped. */
  lemma ParseOperatorsDropsSuffixed(t: string)
    requires |t| > 0 && forall i :: 0 <= i < |t| ==> !IsOperatorSeparator(t[i])
    requires '/' in t || '-' in t
    ensures ParseOperators(t) == []
  {
    TokensOfRun(t, IsOperatorSeparator);
    assert IsTrimmed(t);
    TrimOfTrimmed(t);
    var op := ToUpper(t);
    var i :| 0 <= i < |t| && (t[i] == '/' || t[i] == '-');
    assert op[i] == t[i];
    assert OperatorCall(t) == [];
    assert OperatorCalls([t]) == OperatorCall(t) + OperatorCalls([]);
  }

  /** A bare call token is its own operator list. */
  lemma ParseOperatorsOfCall(t: string)
    requires IsCallToken(t)
    ensures ParseOperators(t) == [t]
  {
    assert forall i :: 0 <= i < |t| ==> !IsOperatorSeparator(t[i]) by {
      forall i | 0 <= i < |t| ensures !IsOperatorSeparator(t[i]) { assert IsUpper(t[i]) || IsDigit(t[i]); }
    }
    TokensOfRun(t, IsOperatorSeparator);
    assert IsTrimmed(t);
    TrimOfTrimmed(t);
    assert NoLower(t) by {
      forall i | 0 <= i < |t| ensures !IsLower(t[i]) { assert IsUpper(t[i]) || IsDigit(t[i]); }
    }
    UpperOfNoLower(t);
    assert OperatorCall(t) == [t];
    assert OperatorCalls([t]) == OperatorCall(t) + OperatorCalls([]);
  }

  /** Nothing is de-duplicated: a call listed twice is kept twice. */
  lemma ParseOperatorsKeepsRepeats(t: string)
    requires IsCallToken(t)
    ensures ParseOperators(t + "," + t) == [t, t]
  {
    ParseOperatorsOfCall(t);
    ParseOperatorsAppend(t, t);
  }

  // ------------------------------------------------------------ QSO records

  predicate IsQsoLine(line: string) { StartsWith(line, "QSO:") }

  /** The number of lines that start with `QSO:`. */
  function QsoLineCount(lines: seq<string>): (n: nat)
    ensures n <= |lines|
  {
    if |lines| == 0 then 0
    else QsoLineCount(lines[..|lines| - 1]) + (if IsQsoLine(lines[|lines| - 1]) then 1 else 0)
  }

  lemma {:induction false} QsoLineCountAppend(a: seq<string>, b: seq<string>)
    ensures QsoLineCount(a + b) == QsoLineCount(a) + QsoLineCount(b)
    decreases |b|
  {
    if |b| == 0 {
      assert a + b == a;
    } else {
      assert (a + b)[..|a + b| - 1] == a + b[..|b| - 1];
      QsoLineCountAppend(a, b[..|b| - 1]);
    }
  }

  /** The fallback proxy score: two points per `QSO:` line. */
  method ComputeScore(lines: seq<string>) returns (score: int)
    ensures score == 2 * QsoLineCount(lines)
  {
    var count := 0;
    var i := 0;
    while i < |lines|
      invariant 0 <= i <= |lines|
      invariant count == QsoLineCount(lines[..i])
    {
      assert lines[..i + 1][..i] == lines[..i];
      if StartsWith(lines[i], "QSO:") {
        count := count + 1;
      }
      i := i + 1;
    }
    assert lines[..i] == lines;
    score := count * 2;
  }

  /** `^\d{4}-\d{2}-\d{2}$` */
  predicate IsDateToken(p: string) {
    |p| == 10 && p[4] == '-' && p[7] == '-'
    && IsDigit(p[0]) && IsDigit(p[1]) && IsDigit(p[2]) && IsDigit(p[3])
    && IsDigit(p[5]) && IsDigit(p[6]) && IsDigit(p[8]) && IsDigit(p[9])
  }

  /** `parseInt(part.substring(0, 4), 10)` of a date token. */
  function DateYear(p: string): int
    requires IsDateToken(p)
  {
    DigitsValue(p[..4])
  }

  predicate IsContestDate(p: string) {
    IsDateToken(p) && 1900 <= DateYear(p) <= 2100
  }

  /** The year of the first date token in range, if any. */
  function FirstDateYear(parts: seq<string>): (r: Option<int>)
    ensures r.Some? ==> 1900 <= r.value <= 2100
  {
    if |parts| == 0 then None
    else if IsContestDate(parts[0]) then Some(DateYear(parts[0]))
    else FirstDateYear(parts[1..])
  }

  /** No year exactly when no field is an in-range date. */
  lemma {:induction false} FirstDateYearNone(parts: seq<string>)
    ensures FirstDateYear(parts).None? <==> forall k :: 0 <= k < |parts| ==> !IsContestDate(parts[k])
  {
    if |parts| > 0 {
      FirstDateYearNone(parts[1..]);
      assert forall k :: 1 <= k < |parts| ==> parts[k] == parts[1..][k - 1];
    }
  }

  /** Otherwise the year is that of the first in-range date. */
  lemma {:induction false} FirstDateYearAt(parts: seq<string>, k: int)
    requires 0 <= k < |parts| && IsContestDate(parts[k])
    requires forall j :: 0 <= j < k ==> !IsContestDate(parts[j])
    ensures FirstDateYear(parts) == Some(DateYear(parts[k]))
  {
    if k > 0 {
      assert !IsContestDate(parts[0]);
      forall j | 0 <= j < k - 1 ensures !IsContestDate(parts[1..][j]) {
        assert parts[1..][j] == parts[j + 1];
      }
      assert parts[1..][k - 1] == parts[k];
      FirstDateYearAt(parts[1..], k - 1);
    }
  }

  /** The whitespace-separated fields of a line. */
  function Words(line: string): seq<string> {
    Tokens(line, IsSpace)
  }

  function QsoYear(line: string): Option<int> {
    if IsQsoLine(line) then FirstDateYear(Words(line)) else None
  }

  /** The contest year carried by the log body: that of the first `QSO:` line
      holding a date token whose year lies in [1900, 2100]. */
  function FirstQsoYear(lines: seq<string>): (r: Option<int>)
    ensures r.Some? ==> 1900 <= r.value <= 2100
  {
    if |lines| == 0 then None
    else if QsoYear(lines[0]).Some? then QsoYear(lines[0])
    else FirstQsoYear(lines[1..])
  }

  /** No year exactly when no `QSO:` line has an in-range date. */
  lemma {:induction false} FirstQsoYearNone(lines: seq<string>)
    ensures FirstQsoYear(lines).None? <==> forall i :: 0 <= i < |lines| ==> QsoYear(lines[i]).None?
  {
    if |lines| > 0 {
      FirstQsoYearNone(lines[1..]);
      assert forall i :: 1 <= i < |lines| ==> lines[i] == lines[1..][i - 1];
    }
  }

  /** Otherwise the year is that of the first such line. */
  lemma {:induction false} FirstQsoYearAt(lines: seq<string>, i: int)
    requires 0 <= i < |lines| && QsoYear(lines[i]).Some?
    requires forall j :: 0 <= j < i ==> QsoYear(lines[j]).None?
    ensures FirstQsoYear(lines) == QsoYear(lines[i])
  {
    if i > 0 {
      assert QsoYear(lines[0]).None?;
      forall j | 0 <= j < i - 1 ensures QsoYear(lines[1..][j]).None? {
        assert lines[1..][j] == lines[j + 1];
      }
      assert lines[1..][i - 1] == lines[i];
      FirstQsoYearAt(lines[1..], i - 1);
    }
  }

  /** The year of the first in-range date on a `QSO:` line, or the clock's year. */
  method ExtractContestYear(lines: seq<string>, clockYear: int) returns (year: int)
    ensures year == match FirstQsoYear(lines) case Some(y) => y case None => clockYear
  {
    var i := 0;
    while i < |lines|
      invariant 0 <= i <= |lines|
      invariant FirstQsoYear(lines) == FirstQsoYear(lines[i..])
    {
      assert lines[i..][1..] == lines[i + 1..];
      if StartsWith(lines[i], "QSO:") {
        var parts := Words(lines[i]);
        var j := 0;
        while j < |parts|
          invariant 0 <= j <= |parts|
          invariant FirstDateYear(parts) == FirstDateYear(parts[j..])
        {
          assert parts[j..][1..] == parts[j + 1..];
          var part := parts[j];
          if IsDateToken(part) {
            var y := DigitsValue(part[..4]);
            if 1900 <= y <= 2100 {
              return y;
            }
          }
          j := j + 1;
        }
      }
      i := i + 1;
    }
    return clockYear;
  }

  // ----------------------------------------------------------------- headers

  /** A line the header loop looks at: not blank and not a `#` comment. */
  predicate IsHeaderLine(line: string) { line != "" && !StartsWith(line, "#") }

  /** `line.split(/:\s*\/)`: the pieces between colons, each piece after the
      first without its leading whitespace. */
  function ColonPieces(line: string): (pieces: seq<string>)
    ensures |pieces| >= 1
  {
    var raw := Split(line, ':');
    [raw[0]] + seq(|raw| - 1, k requires 0 <= k < |raw| - 1 => TrimStart(raw[k + 1]))
  }

  /** The tag: the text before the first colon, upper-cased for the comparison. */
  function HeaderKey(line: string): string {
    ToUpper(ColonPieces(line)[0])
  }

  /** The remaining pieces re-joined with `:` and trimmed. */
  function HeaderValue(line: string): string {
    Trim(Join(ColonPieces(line)[1..], ":"))
  }

  /** The header tags the parser knows. */
  datatype Field = Contest | Callsign | ClaimedScore | CategoryOperator | CategoryAssisted
    | CategoryTransmitter | CategoryBand | CategoryMode | Mode | Operators | Club

  /** The field an upper-cased tag names, in the order the switch tests them. */
  function FieldOf(k: string): Option<Field> {
    if k == "CONTEST" then Some(Contest)
    else if k == "CALLSIGN" then Some(Callsign)
    else if k == "CLAIMED-SCORE" then Some(ClaimedScore)
    else if k == "CATEGORY-OPERATOR" then Some(CategoryOperator)
    else if k == "CATEGORY-ASSISTED" then Some(CategoryAssisted)
    else if k == "CATEGORY-TRANSMITTER" then Some(CategoryTransmitter)
    else if k == "CATEGORY-BAND" then Some(CategoryBand)
    else if k == "CATEGORY-MODE" then Some(CategoryMode)
    else if k == "MODE" then Some(Mode)
    else if k == "OPERATORS" then Some(Operators)
    else if k == "CLUB" then Some(Club)
    else None
  }

  /** What the header loop reads off one line: a known tag and its trimmed value. */
  datatype Tag = Tag(key: Field, value: string)

  function TagOf(line: string): (t: Option<Tag>)
    ensures t.Some? ==> IsHeaderLine(line) && IsTrimmed(t.value.value)
  {
    if IsHeaderLine(line) then
      match FieldOf(HeaderKey(line))
      case Some(f) => Some(Tag(f, HeaderValue(line)))
      case None => None
    else None
  }

  function Tags(lines: seq<string>): (tags: seq<Option<Tag>>)
    ensures |tags| == |lines|
  {
    if |lines| == 0 then [] else Tags(lines[..|lines| - 1]) + [TagOf(lines[|lines| - 1])]
  }

  lemma {:induction false} TagsAt(lines: seq<string>, i: int)
    requires 0 <= i < |lines|
    ensures Tags(lines)[i] == TagOf(lines[i])
  {
    var n := |lines| - 1;
    if i < n {
      TagsAt(lines[..n], i);
    }
  }

  /** A header line whose tag is `key`. */
  predicate Carries(t: Option<Tag>, key: Field) { t.Some? && t.value.key == key }

  /** The value of the last header line carrying tag `key`, if any: a later
      occurrence of a tag overrides an earlier one. */
  function LastValue(tags: seq<Option<Tag>>, key: Field): Option<string> {
    if |tags| == 0 then None
    else if Carries(tags[|tags| - 1], key) then Some(tags[|tags| - 1].value.value)
    else LastValue(tags[..|tags| - 1], key)
  }

  /** A tag has a value exactly when some header line carries it. */
  lemma {:induction false} LastValueSome(tags: seq<Option<Tag>>, key: Field)
    ensures LastValue(tags, key).Some? <==> exists i :: 0 <= i < |tags| && Carries(tags[i], key)
  {
    if |tags| > 0 {
      var n := |tags| - 1;
      LastValueSome(tags[..n], key);
      assert forall i :: 0 <= i < n ==> tags[i] == tags[..n][i];
    }
  }

  /** The value is that of the last line carrying the tag. */
  lemma {:induction false} LastValueAt(tags: seq<Option<Tag>>, key: Field, i: int)
    requires 0 <= i < |tags| && Carries(tags[i], key)
    requires forall j :: i < j < |tags| ==> !Carries(tags[j], key)
    ensures LastValue(tags, key) == Some(tags[i].value.value)
  {
    var n := |tags| - 1;
    if i < n {
      var front := tags[..n];
      assert forall j :: i < j < n ==> front[j] == tags[j];
      LastValueAt(front, key, i);
    }
  }

  /** Any value found is the value of some line carrying the tag; so, for
      the header lines, it is trimmed. */
  lemma {:induction false} LastValueFrom(lines: seq<string>, key: Field)
    requires LastValue(Tags(lines), key).Some?
    ensures IsTrimmed(LastValue(Tags(lines), key).value)
  {
    var tags := Tags(lines);
    LastValueSome(tags, key);
    var i :| 0 <= i < |tags| && Carries(tags[i], key);
    var k :| i <= k < |tags| && Carries(tags[k], key) && forall j :: k < j < |tags| ==> !Carries(tags[j], key) by {
      LastCarrier(tags, key, i);
    }
    LastValueAt(tags, key, k);
    TagsAt(lines, k);
  }

  /** From any line carrying a tag there is a last one. */
  lemma {:induction false} LastCarrier(tags: seq<Option<Tag>>, key: Field, i: int)
    requires 0 <= i < |tags| && Carries(tags[i], key)
    ensures exists k :: i <= k < |tags| && Carries(tags[k], key) && forall j :: k < j < |tags| ==> !Carries(tags[j], key)
    decreases |tags| - i
  {
    if exists m :: i < m < |tags| && Carries(tags[m], key) {
      var m :| i < m < |tags| && Carries(tags[m], key);
      LastCarrier(tags, key, m);
    } else {
      assert forall j :: i < j < |tags| ==> !Carries(tags[j], key);
    }
  }

  function ValueOr(v: Option<string>, default: string): string {
    match v
    case Some(x) => x
    case None => default
  }

  /** `parseInt(value, 10) || 0` */
  function ScoreValue(v: string): int {
    match ParseInt(v)
    case Some(n) => n
    case None => 0
  }

  /** The mutable record the header loop fills in. */
  datatype Header = Header(
    contest: string,
    callsign: string,
    claimedScore: int,
    categoryOperator: string,
    categoryAssisted: string,
    categoryTransmitter: string,
    categoryBand: string,
    categoryMode: string,
    mode: string,
    operators: seq<string>,
    club: string)

  /** What the header loop leaves after reading lines with these tags: each
      field comes from the last line carrying its tag, or keeps its initial
      value. */
  function HeaderOfTags(tags: seq<Option<Tag>>): Header {
    Header(
      contest := ValueOr(LastValue(tags, Contest), ""),
      callsign := ToUpper(ValueOr(LastValue(tags, Callsign), "")),
      claimedScore := match LastValue(tags, ClaimedScore) case Some(v) => ScoreValue(v) case None => 0,
      categoryOperator := ToUpper(ValueOr(LastValue(tags, CategoryOperator), "")),
      categoryAssisted := ToUpper(ValueOr(LastValue(tags, CategoryAssisted), "")),
      categoryTransmitter := ToUpper(ValueOr(LastValue(tags, CategoryTransmitter), "")),
      categoryBand := ToUpper(ValueOr(LastValue(tags, CategoryBand), "")),
      categoryMode := ToUpper(ValueOr(LastValue(tags, CategoryMode), "")),
      mode := ToUpper(ValueOr(LastValue(tags, Mode), "")),
      operators := match LastValue(tags, Operators) case Some(v) => ParseOperators(v) case None => [],
      club := ValueOr(LastValue(tags, Club), ""))
  }

  function HeaderOf(lines: seq<string>): Header {
    HeaderOfTags(Tags(lines))
  }

  /** One pass of the header loop's switch: the tag of a header line picks
      the field its value lands in; other lines and unknown tags change nothing. */
  function ApplyTag(h: Header, t: Option<Tag>): Header {
    match t
    case None => h
    case Some(Tag(f, value)) =>
      match f
      case Contest => h.(contest := value)
      case Callsign => h.(callsign := ToUpper(value))
      case ClaimedScore => h.(claimedScore := ScoreValue(value))
      case CategoryOperator => h.(categoryOperator := ToUpper(value))
      case CategoryAssisted => h.(categoryAssisted := ToUpper(value))
      case CategoryTransmitter => h.(categoryTransmitter := ToUpper(value))
      case CategoryBand => h.(categoryBand := ToUpper(value))
      case CategoryMode => h.(categoryMode := ToUpper(value))
      case Mode => h.(mode := ToUpper(value))
      case Operators => h.(operators := ParseOperators(value))
      case Club => h.(club := value)
  }

  /** The header loop as a fold of `ApplyTag` from the initial record. */
  function HeaderFold(tags: seq<Option<Tag>>): Header {
    if |tags| == 0 then Header("", "", 0, "", "", "", "", "", "", [], "")
    else ApplyTag(HeaderFold(tags[..|tags| - 1]), tags[|tags| - 1])
  }

  /** The fold and the last-tag-wins reading are the same record. */
  lemma {:induction false} HeaderFoldIsHeaderOf(tags: seq<Option<Tag>>)
    ensures HeaderFold(tags) == HeaderOfTags(tags)
  {
    if |tags| > 0 {
      var init, last := tags[..|tags| - 1], tags[|tags| - 1];
      assert init + [last] == tags;
      calc {
        HeaderFold(tags);
        ApplyTag(HeaderFold(init), last);
        { HeaderFoldIsHeaderOf(init); }
        ApplyTag(HeaderOfTags(init), last);
        { HeaderOfSnoc(init, last); }
        HeaderOfTags(tags);
      }
    }
  }

  /** A line appended at the end overrides the tag it carries. */
  lemma LastValueSnoc(tags: seq<Option<Tag>>, t: Option<Tag>, key: Field)
    ensures LastValue(tags + [t], key) == if Carries(t, key) then Some(t.value.value) else LastValue(tags, key)
  {
    assert (tags + [t])[..|tags|] == tags;
  }

  /** The last-tag-wins reading agrees with running the switch line by line. */
  lemma HeaderOfSnoc(tags: seq<Option<Tag>>, t: Option<Tag>)
    ensures HeaderOfTags(tags + [t]) == ApplyTag(HeaderOfTags(tags), t)
  {
    LastValueSnoc(tags, t, Contest);
    LastValueSnoc(tags, t, Callsign);
    LastValueSnoc(tags, t, ClaimedScore);
    LastValueSnoc(tags, t, CategoryOperator);
    LastValueSnoc(tags, t, CategoryAssisted);
    LastValueSnoc(tags, t, CategoryTransmitter);
    LastValueSnoc(tags, t, CategoryBand);
    LastValueSnoc(tags, t, CategoryMode);
    LastValueSnoc(tags, t, Mode);
    LastValueSnoc(tags, t, Operators);
    LastValueSnoc(tags, t, Club);
  }

  /** `content.split('\n').map(line => line.trim())` */
  function Lines(content: string): seq<string> {
    TrimAll(Split(content, '\n'))
  }

  function TrimAll(raw: seq<string>): (lines: seq<string>)
    ensures |lines| == |raw|
  {
    if |raw| == 0 then [] else TrimAll(raw[..|raw| - 1]) + [Trim(raw[|raw| - 1])]
  }

  /** The parse result, stated field by field over the last tag values. */
  function ParseSpec(content: string, clockYear: int): ParseResult {
    var lines := Lines(content);
    Finish(HeaderOf(lines), lines, clockYear)
  }

  /** The checks and fallbacks after the header loop, given its record. */
  function Finish(h: Header, lines: seq<string>, clockYear: int): ParseResult {
    if h.contest == "" then ParseError(MissingContest)
    else if h.callsign == "" then ParseError(MissingCallsign)
    else
      var year := match FirstQsoYear(lines) case Some(y) => y case None => clockYear;
      Parsed(CabrilloData(
        contest := NormalizeContestKey(h.contest),
        callsign := h.callsign,
        claimedScore := if h.claimedScore == 0 then 2 * QsoLineCount(lines) else h.claimedScore,
        categoryOperator := if h.categoryOperator != "" then h.categoryOperator else "SINGLE-OP",
        categoryAssisted := h.categoryAssisted,
        categoryTransmitter := h.categoryTransmitter,
        categoryBand := h.categoryBand,
        categoryMode := h.categoryMode,
        mode := ExtractMode(if h.categoryMode != "" then h.categoryMode else h.mode, h.contest),
        // `data.operators || [data.callsign]` never takes its right side: the
        // initial `[]` is truthy, so a log without OPERATORS keeps `[]`.
        operators := h.operators,
        club := h.club,
        contestYear := if year != 0 then year else clockYear))
  }

  /** The header loop: every line is looked at in order, and each known tag
      overwrites its field. */
  method ReadHeader(lines: seq<string>) returns (data: Header)
    ensures data == HeaderFold(Tags(lines))
  {
    data := Header("", "", 0, "", "", "", "", "", "", [], "");
    var i := 0;
    while i < |lines|
      invariant 0 <= i <= |lines|
      invariant data == HeaderFold(Tags(lines[..i]))
    {
      data := ReadLine(data, lines[i]);
      assert lines[..i + 1][..i] == lines[..i];
      i := i + 1;
    }
    assert lines[..i] == lines;
  }

  /** One pass of the loop body: skip blank and comment lines, split off
      the tag and its value. */
  method ReadLine(data: Header, line: string) returns (next: Header)
    ensures next == ApplyTag(data, TagOf(line))
  {
    next := data;
    if line != "" && !StartsWith(line, "#") {
      var pieces := ColonPieces(line);
      var key := pieces[0];
      var value := Trim(Join(pieces[1..], ":"));
      var k := ToUpper(key);
      assert k == HeaderKey(line) && value == HeaderValue(line);
      next := SetField(data, k, value);
    }
  }

  /** The switch on the upper-cased tag: `FieldOf` matches the case labels,
      and each case writes its field. */
  method SetField(data: Header, k: string, value: string) returns (next: Header)
    ensures next == ApplyTag(data, match FieldOf(k) case Some(f) => Some(Tag(f, value)) case None => None)
  {
    next := data;
    match FieldOf(k) {
      case Some(Contest) => next := data.(contest := value);
      case Some(Callsign) => next := data.(callsign := ToUpper(value));
      case Some(ClaimedScore) => next := data.(claimedScore := ScoreValue(value));
      case Some(CategoryOperator) => next := data.(categoryOperator := ToUpper(value));
      case Some(CategoryAssisted) => next := data.(categoryAssisted := ToUpper(value));
      case Some(CategoryTransmitter) => next := data.(categoryTransmitter := ToUpper(value));
      case Some(CategoryBand) => next := data.(categoryBand := ToUpper(value));
      case Some(CategoryMode) => next := data.(categoryMode := ToUpper(value));
      case Some(Mode) => next := data.(mode := ToUpper(value));
      case Some(Operators) => next := data.(operators := ParseOperators(value));
      case Some(Club) => next := data.(club := value);
      case None =>
    }
  }

  /** Parses a Cabrillo log. `clockYear` stands for `new Date().getFullYear()`. */
  method ParseCabrillo(content: string, clockYear: int) returns (r: ParseResult)
    ensures r == ParseSpec(content, clockYear)
  {
    var lines := Lines(content);
    var data := ReadHeader(lines);
    HeaderFoldIsHeaderOf(Tags(lines));
    r := Complete(data, lines, clockYear);
  }

  /** The required-field checks, the score fallback, the contest year and
      the mode, after the header loop. */
  method Complete(data: Header, lines: seq<string>, clockYear: int) returns (r: ParseResult)
    ensures r == Finish(data, lines, clockYear)
  {
    var data := data;
    if data.contest == "" {
      return ParseError(MissingContest);
    }
    if data.callsign == "" {
      return ParseError(MissingCallsign);
    }
    if data.claimedScore == 0 {
      var fallback := ComputeScore(lines);
      data := data.(claimedScore := fallback);
    }
    var contestYear := ExtractContestYear(lines, clockYear);
    var normalizedContest := NormalizeContestKey(data.contest);
    var extractedMode := ExtractMode(if data.categoryMode != "" then data.categoryMode else data.mode, data.contest);
    r := Parsed(CabrilloData(
      contest := normalizedContest,
      callsign := data.callsign,
      claimedScore := data.claimedScore,
      categoryOperator := if data.categoryOperator != "" then data.categoryOperator else "SINGLE-OP",
      categoryAssisted := data.categoryAssisted,
      categoryTransmitter := data.categoryTransmitter,
      categoryBand := data.categoryBand,
      categoryMode := data.categoryMode,
      mode := extractedMode,
      operators := data.operators,
      club := data.club,
      contestYear := if contestYear != 0 then contestYear else clockYear));
  }

  // ---------------------------------------------------------------- results

  /** CONTEST is checked first: a log whose last CONTEST tag is missing or
      blank fails with the CONTEST error, whatever else it holds. */
  lemma MissingContestFails(content: string, clockYear: int)
    ensures ParseSpec(content, clockYear) == ParseError(MissingContest)
        <==> LastValue(Tags(Lines(content)), Contest) in {None, Some("")}
  {
    var lines := Lines(content);
    var h := HeaderOf(lines);
    assert ParseSpec(content, clockYear) == Finish(h, lines, clockYear);
    assert h.contest == ValueOr(LastValue(Tags(lines), Contest), "");
    BlankValue(LastValue(Tags(lines), Contest));
    FinishErrors(h, lines, clockYear);
  }

  /** A tag value that is missing or blank reads as the empty string. */
  lemma BlankValue(c: Option<string>)
    ensures ValueOr(c, "") == "" <==> c in {None, Some("")}
  {
    if c.Some? && c.value == "" {
      assert c == Some("");
    }
  }

  /** The two failures of the checks after the header loop. */
  lemma FinishErrors(h: Header, lines: seq<string>, clockYear: int)
    ensures Finish(h, lines, clockYear) == ParseError(MissingContest) <==> h.contest == ""
    ensures Finish(h, lines, clockYear) == ParseError(MissingCallsign) <==> h.contest != "" && h.callsign == ""
  {
    assert MissingContest != MissingCallsign;
  }

  /** With a CONTEST value present, a missing or blank CALLSIGN is the failure. */
  lemma MissingCallsignFails(content: string, clockYear: int)
    ensures ParseSpec(content, clockYear) == ParseError(MissingCallsign)
        <==> LastValue(Tags(Lines(content)), Contest) !in {None, Some("")}
             && LastValue(Tags(Lines(content)), Callsign) in {None, Some("")}
  {
    var lines := Lines(content);
    var h := HeaderOf(lines);
    assert ParseSpec(content, clockYear) == Finish(h, lines, clockYear);
    assert h.contest == ValueOr(LastValue(Tags(lines), Contest), "");
    var v := ValueOr(LastValue(Tags(lines), Callsign), "");
    assert h.callsign == ToUpper(v);
    assert |ToUpper(v)| == |v|;
    BlankValue(LastValue(Tags(lines), Contest));
    BlankValue(LastValue(Tags(lines), Callsign));
    FinishErrors(h, lines, clockYear);
  }

  /** A successful parse carries the normalized, non-empty contest key: the
      upper-cased CONTEST value. */
  lemma ParsedContest(content: string, clockYear: int)
    requires ParseSpec(content, clockYear).Parsed?
    ensures var d := ParseSpec(content, clockYear).data;
      && d.contest != "" && NormalizeContestKey(d.contest) == d.contest
      && d.contest == ToUpper(ValueOr(LastValue(Tags(Lines(content)), Contest), ""))
  {
    var lines := Lines(content);
    var c := LastValue(Tags(lines), Contest);
    var v := ValueOr(c, "");
    assert v == HeaderOf(lines).contest;
    assert v != "";
    assert IsTrimmed(v) by { if c.Some? { LastValueFrom(lines, Contest); } }
    assert ParseSpec(content, clockYear).data.contest == NormalizeContestKey(v);
    NormalizeContestKeyOfTrimmed(v);
    NormalizeContestKeyIdempotent(v);
  }

  /** ... and an upper-case, non-empty callsign. */
  lemma ParsedCallsign(content: string, clockYear: int)
    requires ParseSpec(content, clockYear).Parsed?
    ensures var d := ParseSpec(content, clockYear).data;
      d.callsign != "" && NoLower(d.callsign)
  {
    UpperFacts(ValueOr(LastValue(Tags(Lines(content)), Callsign), ""));
  }

  /** ... the claimed score, or twice the QSO count when it is missing, zero
      or not a number. */
  lemma ParsedScore(content: string, clockYear: int)
    requires ParseSpec(content, clockYear).Parsed?
    ensures var d := ParseSpec(content, clockYear).data;
      var lines := Lines(content);
      var claimed := LastValue(Tags(lines), ClaimedScore);
      d.claimedScore == if claimed.None? || ScoreValue(claimed.value) == 0 then 2 * QsoLineCount(lines)
                        else ScoreValue(claimed.value)
  {
  }

  /** ... SINGLE-OP when no category is given, no operators when none are
      listed (the callsign is not put in their place), and call tokens only. */
  lemma ParsedDefaults(content: string, clockYear: int)
    requires ParseSpec(content, clockYear).Parsed?
    ensures var d := ParseSpec(content, clockYear).data;
      var lines := Lines(content);
      && (LastValue(Tags(lines), CategoryOperator) in {None, Some("")} ==> d.categoryOperator == "SINGLE-OP")
      && (LastValue(Tags(lines), Operators).None? ==> d.operators == [])
      && (forall k :: 0 <= k < |d.operators| ==> IsCallToken(d.operators[k]))
  {
  }

  /** ... the mode resolved from the last CATEGORY-MODE value, else the last
      MODE value, both upper-cased, else the raw CONTEST value ... */
  lemma ParsedMode(content: string, clockYear: int)
    requires ParseSpec(content, clockYear).Parsed?
    ensures var tags := Tags(Lines(content));
      var categoryMode := ToUpper(ValueOr(LastValue(tags, CategoryMode), ""));
      var mode := ToUpper(ValueOr(LastValue(tags, Mode), ""));
      ParseSpec(content, clockYear).data.mode
        == ExtractMode(if categoryMode != "" then categoryMode else mode, ValueOr(LastValue(tags, Contest), ""))
  {
    var lines := Lines(content);
    assert ParseSpec(content, clockYear) == Finish(HeaderOf(lines), lines, clockYear);
  }

  /** ... and the year of the first dated QSO line, or the clock's year. */
  lemma ParsedYear(content: string, clockYear: int)
    requires ParseSpec(content, clockYear).Parsed?
    ensures ParseSpec(content, clockYear).data.contestYear
        == match FirstQsoYear(Lines(content)) case Some(y) => y case None => clockYear
  {
    var lines := Lines(content);
    assert ParseSpec(content, clockYear) == Finish(HeaderOf(lines), lines, clockYear);
    var q := FirstQsoYear(lines);
    assert q.Some? ==> q.value != 0;
  }
}
