/** The DX-cluster client's spot filter: the framing of the telnet stream
    into lines, the login-prompt test, the spot-line parser, the automated
    spotter test, and the chain that decides whether a spot earns
    cheerleader points, reading a member cache it rebuilds at most every
    five minutes. The socket, the timers and the broadcasts are not part of
    this model; the clock, the calendar year and the store are parameters. */
module ClusterClient {
  import opened Js
  import opened Schema
  import Storage
  import RosterScraper

  /** How long a rebuilt member cache is used, in milliseconds. */
  const CacheTtl: int := 5 * 60 * 1000

  /** The fields of a spot line, as the parser returns them. */
  datatype Spot = Spot(spotter: string, frequency: string, spotted: string, comment: string, time: string)

  // ------------------------------------------------------------ spot lines

  /** `[A-Z0-9/-]` under the `i` flag. */
  predicate IsCallChar(c: char) {
    IsUpper(c) || IsLower(c) || IsDigit(c) || c == '/' || c == '-'
  }

  predicate NotSpace(c: char) { !IsSpace(c) }
  predicate NotCallChar(c: char) { !IsCallChar(c) }
  predicate NotDigit(c: char) { !IsDigit(c) }

  /** `(\d+\.?\d*)` at the start of `s`: the length it matches, 0 for none. */
  function FreqLength(s: string): (n: nat)
    ensures n <= |s|
  {
    var d := RunLength(s, NotDigit);
    if d > 0 && d < |s| && s[d] == '.' then d + 1 + RunLength(s[d + 1..], NotDigit) else d
  }

  /** `(\d{4}Z)` under the `i` flag. */
  predicate IsTime(t: string) {
    |t| == 5 && IsDigit(t[0]) && IsDigit(t[1]) && IsDigit(t[2]) && IsDigit(t[3]) && (t[4] == 'Z' || t[4] == 'z')
  }

  /** `\s+(.*?)\s+` matches the whole of `m`: whitespace at both ends, at
      least two characters, and no line terminator between the padding. */
  predicate IsPaddedComment(m: string) {
    |m| >= 2 && IsSpace(m[0]) && IsSpace(m[|m| - 1])
    && forall k :: 0 <= k < |Trim(m)| ==> !IsLineTerminator(Trim(m)[k])
  }

  /** The end of a spot line, after the spotted call: the padded comment
      and the time. */
  function SpotTail(spotter: string, frequency: string, spotted: string, tail: string): (r: Option<Spot>)
    ensures r.Some? ==> r.value.spotter == spotter && r.value.frequency == frequency && r.value.spotted == spotted
    ensures r.Some? ==> IsTrimmed(r.value.comment) && IsTime(r.value.time)
  {
    if |tail| < 5 then None
    else
      var middle := tail[..|tail| - 5];
      var time := tail[|tail| - 5..];
      if !IsPaddedComment(middle) || !IsTime(time) then None
      else
        TrimOfTrimmed(time);
        Some(Spot(spotter, frequency, spotted, Trim(middle), Trim(time)))
  }

  /** The call at the start of `s`, trimmed and upper-cased, when it is
      not empty. */
  lemma CallShape(s: string, n: nat)
    requires 0 < n <= |s| && forall i :: 0 <= i < n ==> IsCallChar(s[i])
    ensures var c := ToUpper(Trim(s[..n])); |c| == n && NoLower(c)
  {
    var call := s[..n];
    assert IsTrimmed(call) by { assert IsCallChar(call[0]) && IsCallChar(call[n - 1]); }
    TrimOfTrimmed(call);
    UpperFacts(call);
  }

  /** The spot line after the spotter's colon: the frequency, the spotted
      call, then the tail. */
  function SpotAfterSpotter(spotter: string, s3: string): (r: Option<Spot>)
    ensures r.Some? ==> r.value.spotter == spotter && r.value.spotted != "" && NoLower(r.value.spotted)
    ensures r.Some? ==> IsTrimmed(r.value.comment) && IsTime(r.value.time)
  {
    var w2 := RunLength(s3, NotSpace);
    var s4 := s3[w2..];
    var f := FreqLength(s4);
    if w2 == 0 || f == 0 then None
    else SpotAfterFrequency(spotter, Trim(s4[..f]), s4[f..])
  }

  /** The spot line after the frequency: the spotted call, then the tail. */
  function SpotAfterFrequency(spotter: string, frequency: string, s5: string): (r: Option<Spot>)
    ensures r.Some? ==> r.value.spotter == spotter && r.value.frequency == frequency
    ensures r.Some? ==> r.value.spotted != "" && NoLower(r.value.spotted)
    ensures r.Some? ==> IsTrimmed(r.value.comment) && IsTime(r.value.time)
  {
    var w3 := RunLength(s5, NotSpace);
    var s6 := s5[w3..];
    var m := RunLength(s6, NotCallChar);
    if w3 == 0 || m == 0 then None
    else
      CallShape(s6, m);
      SpotTail(spotter, frequency, ToUpper(Trim(s6[..m])), s6[m..])
  }

  /** A match of `^DX de\s+([A-Z0-9/-]+):\s+(\d+\.?\d*)\s+([A-Z0-9/-]+)\s+(.*?)\s+(\d{4}Z)$`
      under the `i` flag, read left to right: every quantifier but the
      comment's is followed by a character it cannot consume, so the match
      is the maximal run at each step, and the comment is what lies
      between the padding. The spotter and the spotted call come out
      upper-cased and every field trimmed. */
  function ParseSpot(line: string): (r: Option<Spot>)
    ensures r.Some? ==> r.value.spotter != "" && NoLower(r.value.spotter)
    ensures r.Some? ==> r.value.spotted != "" && NoLower(r.value.spotted)
    ensures r.Some? ==> IsTrimmed(r.value.comment) && IsTime(r.value.time)
  {
    if |line| < 5 || ToLower(line[..5]) != "dx de" then None
    else
      var s1 := line[5..];
      var w1 := RunLength(s1, NotSpace);
      var s2 := s1[w1..];
      var n := RunLength(s2, NotCallChar);
      if w1 == 0 || n == 0 || n == |s2| || s2[n] != ':' then None
      else
        CallShape(s2, n);
        SpotAfterSpotter(ToUpper(Trim(s2[..n])), s2[n + 1..])
  }

  /** The shape `(\d+\.?\d*)` accepts, stated on the whole string. */
  predicate IsFrequency(f: string) {
    var d := RunLength(f, NotDigit);
    d > 0 && (d == |f| || (f[d] == '.' && forall k :: d < k < |f| ==> IsDigit(f[k])))
  }

  predicate IsCall(s: string) {
    |s| > 0 && forall i :: 0 <= i < |s| ==> IsCallChar(s[i])
  }

  /** A spot line as a cluster node prints it, with single spaces. */
  function SpotLine(spotter: string, frequency: string, spotted: string, comment: string, time: string): string {
    "DX de" + (" " + (spotter + (":" + (" " + (frequency + (" " + (spotted + (" " + comment + " " + time))))))))
  }

  /** A run of non-separators ends at the separator after it. */
  lemma RunUntil(t: string, c: char, y: string, sep: char -> bool)
    requires forall i :: 0 <= i < |t| ==> !sep(t[i])
    requires sep(c)
    ensures RunLength(t + [c] + y, sep) == |t|
  {
    RunLengthBeforeSeparator(t, c, y, sep);
    RunLengthOfRun(t, sep);
  }

  lemma FreqLengthOf(f: string, y: string)
    requires IsFrequency(f) && |y| > 0 && IsSpace(y[0])
    ensures FreqLength(f + y) == |f|
  {
    var d := RunLength(f, NotDigit);
    if d == |f| {
      RunLengthOfRun(f, NotDigit);
      assert f + y == f + [y[0]] + y[1..];
      RunUntil(f, y[0], y[1..], NotDigit);
    } else {
      var a, b := f[..d], f[d + 1..];
      assert f + y == a + ['.'] + (b + y);
      RunUntil(a, '.', b + y, NotDigit);
      assert (f + y)[d + 1..] == b + [y[0]] + y[1..];
      RunUntil(b, y[0], y[1..], NotDigit);
    }
  }

  /** The padding around a trimmed comment is what `IsPaddedComment` accepts,
      and trimming gives the comment back. */
  lemma PaddedComment(comment: string)
    requires IsTrimmed(comment)
    ensures Trim(" " + comment + " ") == comment
  {
    var m := " " + comment + " ";
    var t := comment + " ";
    assert m[1..] == t;
    assert TrimStart(m) == TrimStart(t);
    if |comment| == 0 {
      assert t == " " && t[1..] == "";
      assert TrimStart(t) == "";
    } else {
      assert TrimStart(t) == t;
      assert t[..|t| - 1] == comment;
      assert TrimEnd(t) == TrimEnd(comment);
    }
  }

  /** `ToLower` of the line's first five characters. */
  lemma HeaderMatches(rest: string)
    ensures ("DX de" + rest)[..5] == "DX de"
    ensures ToLower("DX de") == "dx de"
  {
    assert ("DX de" + rest)[..5] == "DX de";
    var l := ToLower("DX de");
    assert l[0] == 'd' && l[1] == 'x' && l[2] == ' ' && l[3] == 'd' && l[4] == 'e';
  }

  /** The tail of a well-formed spot line: the padded comment and the time. */
  lemma SpotTailOf(spotter: string, frequency: string, spotted: string, comment: string, time: string)
    requires IsTrimmed(comment) && forall k :: 0 <= k < |comment| ==> !IsLineTerminator(comment[k])
    requires IsTime(time)
    ensures SpotTail(spotter, frequency, spotted, " " + comment + " " + time)
              == Some(Spot(spotter, frequency, spotted, comment, time))
  {
    var middle := " " + comment + " ";
    var F := middle + time;
    assert F[..|F| - 5] == middle;
    assert F[|F| - 5..] == time;
    PaddedComment(comment);
    TrimOfTrimmed(time);
  }

  /** A single space before a field: `\s+` takes exactly that space. */
  lemma OneSpace(x: string)
    requires |x| > 0 && !IsSpace(x[0])
    ensures RunLength(" " + x, NotSpace) == 1 && (" " + x)[1..] == x
  {
    assert (" " + x)[1..] == x;
  }

  /** A call followed by a character outside `[A-Z0-9/-]`: the run is the
      call, and trimming leaves it as it is. */
  lemma CallThen(call: string, c: char, rest: string)
    requires IsCall(call) && !IsCallChar(c)
    ensures var s := call + ([c] + rest);
      && RunLength(s, NotCallChar) == |call|
      && s[..|call|] == call && s[|call|..] == [c] + rest
      && Trim(call) == call
  {
    var s := call + ([c] + rest);
    assert s == call + [c] + rest;
    RunUntil(call, c, rest, NotCallChar);
    assert s[..|call|] == call;
    assert s[|call|..] == [c] + rest;
    assert IsTrimmed(call) by { assert IsCallChar(call[0]) && IsCallChar(call[|call| - 1]); }
    TrimOfTrimmed(call);
  }

  /** A well-formed spot line after the spotter's colon. */
  lemma SpotAfterSpotterOf(spotter: string, frequency: string, spotted: string, comment: string, time: string)
    requires IsFrequency(frequency) && IsCall(spotted)
    requires IsTrimmed(comment) && forall k :: 0 <= k < |comment| ==> !IsLineTerminator(comment[k])
    requires IsTime(time)
    ensures SpotAfterSpotter(spotter, " " + (frequency + (" " + (spotted + (" " + comment + " " + time)))))
              == Some(Spot(spotter, frequency, ToUpper(spotted), comment, time))
  {
    var E := " " + (spotted + (" " + comment + " " + time));
    var D := frequency + E;
    assert D[0] == frequency[0];
    OneSpace(D);
    FreqLengthOf(frequency, E);
    assert D[..|frequency|] == frequency;
    assert D[|frequency|..] == E;
    TrimOfTrimmed(frequency);
    SpotAfterFrequencyOf(spotter, frequency, spotted, comment, time);
  }

  /** A well-formed spot line after the frequency. */
  lemma SpotAfterFrequencyOf(spotter: string, frequency: string, spotted: string, comment: string, time: string)
    requires IsCall(spotted)
    requires IsTrimmed(comment) && forall k :: 0 <= k < |comment| ==> !IsLineTerminator(comment[k])
    requires IsTime(time)
    ensures SpotAfterFrequency(spotter, frequency, " " + (spotted + (" " + comment + " " + time)))
              == Some(Spot(spotter, frequency, ToUpper(spotted), comment, time))
  {
    var rest := comment + " " + time;
    assert " " + comment + " " + time == [' '] + rest;
    assert (spotted + (" " + comment + " " + time))[0] == spotted[0];
    OneSpace(spotted + (" " + comment + " " + time));
    CallThen(spotted, ' ', rest);
    SpotTailOf(spotter, frequency, ToUpper(spotted), comment, time);
  }

  /** A well-formed spot line parses back into its fields, with the two
      calls upper-cased. */
  lemma ParseSpotLine(spotter: string, frequency: string, spotted: string, comment: string, time: string)
    requires IsCall(spotter) && IsFrequency(frequency) && IsCall(spotted)
    requires IsTrimmed(comment) && forall k :: 0 <= k < |comment| ==> !IsLineTerminator(comment[k])
    requires IsTime(time)
    ensures ParseSpot(SpotLine(spotter, frequency, spotted, comment, time))
              == Some(Spot(ToUpper(spotter), frequency, ToUpper(spotted), comment, time))
  {
    var C := " " + (frequency + (" " + (spotted + (" " + comment + " " + time))));
    var B := spotter + (":" + C);
    var line := "DX de" + (" " + B);
    assert line == SpotLine(spotter, frequency, spotted, comment, time);
    HeaderMatches(" " + B);
    assert line[5..] == " " + B;
    assert B[0] == spotter[0];
    OneSpace(B);
    assert ":" + C == [':'] + C;
    CallThen(spotter, ':', C);
    assert B[|spotter| + 1..] == C;
    SpotAfterSpotterOf(ToUpper(spotter), frequency, spotted, comment, time);
  }

  // ------------------------------------------------------------- prompts

  /** Line 155 of the client's handler: a login prompt. */
  predicate IsLoginPrompt(line: string) {
    Contains(ToLower(line), "login:") || Contains(ToLower(line), "call")
  }

  lemma {:induction false} ContainsAt(s: string, sub: string, i: nat)
    requires i <= |s| && StartsWith(s[i..], sub)
    ensures Contains(s, sub)
  {
    if i > 0 {
      assert s[1..][i - 1..] == s[i..];
      ContainsAt(s[1..], sub, i - 1);
    } else {
      assert s[0..] == s;
    }
  }

  lemma {:induction false} ContainsIndex(s: string, sub: string) returns (i: nat)
    requires Contains(s, sub)
    ensures i <= |s| && StartsWith(s[i..], sub)
  {
    if StartsWith(s, sub) {
      i := 0;
      assert s[0..] == s;
    } else {
      var j := ContainsIndex(s[1..], sub);
      i := j + 1;
      assert s[1..][j..] == s[i..];
    }
  }

  /** Lower-casing distributes over concatenation. */
  lemma LowerConcat(a: string, b: string)
    ensures ToLower(a + b) == ToLower(a) + ToLower(b)
  {
  }

  /** A spot whose comment holds `call` in any case is taken for a login
      prompt, so it never reaches the spot parser, although it parses. */
  lemma CallCommentIsPrompt(spotter: string, frequency: string, spotted: string, comment: string, time: string)
    requires Contains(ToLower(comment), "call")
    ensures IsLoginPrompt(SpotLine(spotter, frequency, spotted, comment, time))
  {
    var pre := "DX de" + " " + spotter + ":" + " " + frequency + " " + spotted + " ";
    var post := " " + time;
    var line := SpotLine(spotter, frequency, spotted, comment, time);
    assert line == pre + comment + post;
    LowerConcat(pre + comment, post);
    LowerConcat(pre, comment);
    var lc := ToLower(comment);
    var j := ContainsIndex(lc, "call");
    var low := ToLower(line);
    assert low == ToLower(pre) + lc + ToLower(post);
    var i := |pre| + j;
    assert low[i..][..4] == lc[j..][..4];
    ContainsAt(low, "call", i);
  }

  // ------------------------------------------------------------- filters

  predicate AllDigits(s: string) {
    forall i :: 0 <= i < |s| ==> IsDigit(s[i])
  }

  /** Lines 192-198: the spotter's segment after its first `-` is a
      non-empty run of digits (a skimmer such as `K1AR-2`). */
  predicate IsAutomated(spotter: string) {
    Contains(spotter, "-")
    && var parts := Split(spotter, '-');
       |parts| > 1 && parts[1] != "" && AllDigits(parts[1])
  }

  /** A spotter without `-` is never automated. */
  lemma NoDashNotAutomated(spotter: string)
    requires '-' !in spotter
    ensures !IsAutomated(spotter)
  {
    NotContainsWithoutFirst(spotter, "-");
  }

  /** A `-` after a dash-free base. */
  lemma DashAfter(base: string, rest: string)
    ensures Contains(base + ['-'] + rest, "-")
  {
    var s := base + ['-'] + rest;
    assert s[|base|..][..1] == "-";
    ContainsAt(s, "-", |base|);
  }

  /** The automated test on a call `base-suffix`. */
  lemma AutomatedSuffix(base: string, suffix: string)
    requires '-' !in base && '-' !in suffix
    ensures IsAutomated(base + "-" + suffix) <==> suffix != "" && AllDigits(suffix)
  {
    assert base + "-" + suffix == base + ['-'] + suffix;
    DashAfter(base, suffix);
    SplitAfterPiece(base, '-', suffix);
    SplitNoSeparator(suffix, '-');
  }

  /** The automated test on a call `base-suffix-more`. */
  lemma AutomatedMiddle(base: string, suffix: string, more: string)
    requires '-' !in base && '-' !in suffix
    ensures IsAutomated(base + "-" + suffix + "-" + more) <==> suffix != "" && AllDigits(suffix)
  {
    assert base + "-" + suffix + "-" + more == base + ['-'] + (suffix + ['-'] + more);
    DashAfter(base, suffix + ['-'] + more);
    SplitAfterPiece(base, '-', suffix + ['-'] + more);
    SplitAfterPiece(suffix, '-', more);
  }

  /** The automated test on a call `base-suffix` or `base-suffix-more`: it
      holds exactly when the suffix is a non-empty run of digits. */
  lemma AutomatedMeaning(base: string, suffix: string, more: string)
    requires '-' !in base && '-' !in suffix
    ensures IsAutomated(base + "-" + suffix) <==> suffix != "" && AllDigits(suffix)
    ensures IsAutomated(base + "-" + suffix + "-" + more) <==> suffix != "" && AllDigits(suffix)
  {
    AutomatedSuffix(base, suffix);
    AutomatedMiddle(base, suffix, more);
  }

  datatype LineOutcome =
    | LoginPrompt
    | NotSpot
    | Automated
    | SpotterNotEligible
    | SpottedNotMember
    | Award(spotter: string)

  /** Lines 203-214: points go to an eligible spotter who spotted a member. */
  function Verdict(spot: Spot, members: set<string>, eligible: map<string, int>): (o: LineOutcome)
    ensures o.Award? <==> spot.spotter in eligible && spot.spotted in members
    ensures o.Award? ==> o.spotter == spot.spotter
  {
    if spot.spotter !in eligible then SpotterNotEligible
    else if spot.spotted !in members then SpottedNotMember
    else Award(spot.spotter)
  }

  /** What `processSpot` decides for a parsed spot, given the caches it
      reads. */
  function SpotOutcome(spot: Spot, members: set<string>, eligible: map<string, int>): LineOutcome {
    if IsAutomated(spot.spotter) then Automated else Verdict(spot, members, eligible)
  }

  /** What `handleLine` does with a trimmed line, given the caches a spot
      would be checked against. */
  function Classify(line: string, members: set<string>, eligible: map<string, int>): LineOutcome {
    if IsLoginPrompt(line) then LoginPrompt else ParsedOutcome(ParseSpot(line), members, eligible)
  }

  /** What `handleLine` does with the parser's answer on a line that is no
      login prompt. */
  function ParsedOutcome(spot: Option<Spot>, members: set<string>, eligible: map<string, int>): LineOutcome {
    if spot.None? then NotSpot else SpotOutcome(spot.value, members, eligible)
  }

  /** An award names the parsed spotter of a line that is no login prompt,
      whose spotter is not automated and eligible, and whose spotted call
      is a member; and a login prompt is never parsed. */
  lemma ClassifyMeaning(line: string, members: set<string>, eligible: map<string, int>)
    ensures var o := Classify(line, members, eligible);
      && (o.Award? <==>
            && !IsLoginPrompt(line) && ParseSpot(line).Some?
            && !IsAutomated(ParseSpot(line).value.spotter)
            && ParseSpot(line).value.spotter in eligible && ParseSpot(line).value.spotted in members)
      && (o.Award? ==> o.spotter == ParseSpot(line).value.spotter)
      && (IsLoginPrompt(line) ==> o == LoginPrompt)
  {
    if !IsLoginPrompt(line) && ParseSpot(line).Some? {
      var spot := ParseSpot(line).value;
      if !IsAutomated(spot.spotter) {
        assert Classify(line, members, eligible) == Verdict(spot, members, eligible);
      }
    }
  }

  /** The outcomes that read the caches. */
  predicate ConsultsCache(o: LineOutcome) {
    o.SpotterNotEligible? || o.SpottedNotMember? || o.Award?
  }

  // --------------------------------------------------------------- caches

  /** The member cache a rebuild computes: the upper-cased callsigns. */
  function MemberKeys(ms: seq<Member>): set<string> {
    if |ms| == 0 then {} else MemberKeys(ms[..|ms| - 1]) + {ToUpper(ms[|ms| - 1].callsign)}
  }

  /** The year the cache reads from an expiration date: the third of
      exactly three `/` parts, as `parseInt` reads it. */
  function ExpirationYear(duesExpiration: Option<string>): (r: Option<int>)
    ensures r.Some? ==> duesExpiration.Some? && |Split(duesExpiration.value, '/')| == 3
  {
    if duesExpiration.None? || duesExpiration.value == "" then None
    else
      var parts := Split(duesExpiration.value, '/');
      if |parts| == 3 then ParseInt(parts[2]) else None
  }

  /** A member the eligible cache admits: an expiration year no earlier
      than the current year. */
  predicate Qualifies(m: Member, currentYear: int) {
    var e := ExpirationYear(m.duesExpiration);
    e.Some? && e.value >= currentYear
  }

  /** A map keyed by upper-cased callsign, built member by member from a
      year reading: each member with a year maps its callsign to it, and a
      later member with the same upper-cased callsign overwrites an
      earlier one. */
  function YearIndex(ms: seq<Member>, year: Member -> Option<int>): map<string, int> {
    if |ms| == 0 then map[]
    else
      var prev := YearIndex(ms[..|ms| - 1], year);
      var m := ms[|ms| - 1];
      if year(m).Some? then prev[ToUpper(m.callsign) := year(m).value] else prev
  }

  lemma {:induction false} YearIndexExact(ms: seq<Member>, year: Member -> Option<int>, c: string)
    ensures c in YearIndex(ms, year) <==> exists i :: 0 <= i < |ms| && ToUpper(ms[i].callsign) == c && year(ms[i]).Some?
  {
    if |ms| > 0 {
      var init, last := ms[..|ms| - 1], ms[|ms| - 1];
      YearIndexExact(init, year, c);
      if c in YearIndex(init, year) {
        var i :| 0 <= i < |init| && ToUpper(init[i].callsign) == c && year(init[i]).Some?;
        assert ms[i] == init[i];
      }
      if exists i :: 0 <= i < |ms| && ToUpper(ms[i].callsign) == c && year(ms[i]).Some? {
        var i :| 0 <= i < |ms| && ToUpper(ms[i].callsign) == c && year(ms[i]).Some?;
        if i < |init| {
          assert init[i] == ms[i];
        }
      }
    }
  }

  /** Every stored year is one the reading gave, so a bound on the
      readings bounds the map. */
  lemma {:induction false} YearIndexAtLeast(ms: seq<Member>, year: Member -> Option<int>, bound: int)
    requires forall m :: year(m).Some? ==> year(m).value >= bound
    ensures forall c :: c in YearIndex(ms, year) ==> YearIndex(ms, year)[c] >= bound
  {
    if |ms| > 0 {
      YearIndexAtLeast(ms[..|ms| - 1], year, bound);
    }
  }

  /** The year the eligible cache stores for a member: its expiration
      year, when that is no earlier than the current year. */
  function CacheYear(currentYear: int): Member -> Option<int> {
    m => if Qualifies(m, currentYear) then ExpirationYear(m.duesExpiration) else None
  }

  /** The eligible cache a rebuild computes: each qualifying member's
      upper-cased callsign mapped to its expiration year; a later member
      with the same upper-cased callsign overwrites an earlier one. */
  function EligibleKeys(ms: seq<Member>, currentYear: int): (r: map<string, int>)
    ensures forall c :: c in r ==> r[c] >= currentYear
  {
    YearIndexAtLeast(ms, CacheYear(currentYear), currentYear);
    YearIndex(ms, CacheYear(currentYear))
  }

  lemma {:induction false} MemberKeysExact(ms: seq<Member>, c: string)
    ensures c in MemberKeys(ms) <==> exists i :: 0 <= i < |ms| && ToUpper(ms[i].callsign) == c
  {
    if |ms| > 0 {
      var init := ms[..|ms| - 1];
      MemberKeysExact(init, c);
      if c in MemberKeys(init) {
        var i :| 0 <= i < |init| && ToUpper(init[i].callsign) == c;
        assert ms[i] == init[i];
      }
      if exists i :: 0 <= i < |ms| && ToUpper(ms[i].callsign) == c {
        var i :| 0 <= i < |ms| && ToUpper(ms[i].callsign) == c;
        if i < |init| {
          assert init[i] == ms[i];
        }
      }
    }
  }

  /** A callsign is in the eligible cache exactly when some member with it
      qualifies. */
  lemma EligibleKeysExact(ms: seq<Member>, currentYear: int, c: string)
    ensures c in EligibleKeys(ms, currentYear) <==>
              exists i :: 0 <= i < |ms| && ToUpper(ms[i].callsign) == c && Qualifies(ms[i], currentYear)
  {
    YearIndexExact(ms, CacheYear(currentYear), c);
  }

  /** Every eligible callsign is in the member cache too. */
  lemma EligibleAreMembers(ms: seq<Member>, currentYear: int, c: string)
    requires c in EligibleKeys(ms, currentYear)
    ensures c in MemberKeys(ms)
  {
    EligibleKeysExact(ms, currentYear, c);
    MemberKeysExact(ms, c);
  }

  /** The cache reads the year only: dues ending on 30 December of the
      season make a spotter eligible in the cache although the roster's
      dues rule does not count them for that season. */
  lemma CacheLooserThanDuesRule(y: nat)
    requires 100 <= y <= 9999
    ensures ExpirationYear(Some(RosterScraper.DuesString(12, 30, y))) == Some(y)
    ensures !RosterScraper.IsDuesValidForYear(RosterScraper.DuesString(12, 30, y), y)
  {
    RosterScraper.SplitDuesString(12, 30, y);
    ParseIntOfNat(y, "");
    assert NatToString(y) + "" == NatToString(y);
    RosterScraper.DuesThroughSeason(y);
  }

  // --------------------------------------------------------------- client

  /** The client's state. `buffer` is the unterminated rest of the stream
      of the current connection. */
  class Client {
    var buffer: string
    var memberCache: set<string>
    var eligibleMemberCache: map<string, int>
    var lastCacheUpdate: int

    constructor()
      ensures buffer == "" && memberCache == {} && eligibleMemberCache == map[] && lastCacheUpdate == 0
    {
      buffer := "";
      memberCache := {};
      eligibleMemberCache := map[];
      lastCacheUpdate := 0;
    }

    /** Whether a refresh at `now` would rebuild. */
    predicate Stale(now: int)
      reads this
    {
      now - lastCacheUpdate >= CacheTtl
    }

    /** `refreshMemberCache` at time `now`: a rebuild from the store's
        active members when the cache is five minutes old, otherwise
        nothing. */
    method RefreshMemberCache(now: int, store: Storage.Store, currentYear: int)
      modifies this
      ensures buffer == old(buffer)
      ensures old(Stale(now)) ==>
        memberCache == MemberKeys(store.ActiveMembers())
        && eligibleMemberCache == EligibleKeys(store.ActiveMembers(), currentYear)
        && lastCacheUpdate == now
      ensures !old(Stale(now)) ==>
        memberCache == old(memberCache) && eligibleMemberCache == old(eligibleMemberCache)
        && lastCacheUpdate == old(lastCacheUpdate)
      ensures !Stale(now)
    {
      if now - lastCacheUpdate < CacheTtl {
        return;
      }
      var allMembers := store.ActiveMembers();
      memberCache := {};
      eligibleMemberCache := map[];
      for i := 0 to |allMembers|
        invariant memberCache == MemberKeys(allMembers[..i])
        invariant eligibleMemberCache == EligibleKeys(allMembers[..i], currentYear)
        invariant buffer == old(buffer)
      {
        assert allMembers[..i + 1][..i] == allMembers[..i];
        var member := allMembers[i];
        memberCache := memberCache + {ToUpper(member.callsign)};
        if member.duesExpiration.Some? && member.duesExpiration.value != "" {
          var parts := Split(member.duesExpiration.value, '/');
          if |parts| == 3 {
            var expirationYear := ParseInt(parts[2]);
            if expirationYear.Some? && expirationYear.value >= currentYear {
              eligibleMemberCache := eligibleMemberCache[ToUpper(member.callsign) := expirationYear.value];
            }
          }
        }
      }
      assert allMembers[..|allMembers|] == allMembers;
      lastCacheUpdate := now;
    }

    /** The caches a refresh at `now` leaves, as values. */
    function RefreshedMembers(now: int, store: Storage.Store): set<string>
      reads this, store
    {
      if Stale(now) then MemberKeys(store.ActiveMembers()) else memberCache
    }

    function RefreshedEligible(now: int, store: Storage.Store, currentYear: int): map<string, int>
      reads this, store
    {
      if Stale(now) then EligibleKeys(store.ActiveMembers(), currentYear) else eligibleMemberCache
    }

    /** `processSpot`: drop automated spotters, refresh the caches, then
        apply the two membership filters. */
    method ProcessSpot(spot: Spot, now: int, store: Storage.Store, currentYear: int) returns (o: LineOutcome)
      modifies this
      ensures buffer == old(buffer)
      ensures IsAutomated(spot.spotter) ==> o == Automated && unchanged(this)
      ensures !IsAutomated(spot.spotter) ==>
        && memberCache == old(RefreshedMembers(now, store))
        && eligibleMemberCache == old(RefreshedEligible(now, store, currentYear))
        && !Stale(now)
        && o == Verdict(spot, memberCache, eligibleMemberCache)
    {
      if IsAutomated(spot.spotter) {
        return Automated;
      }
      RefreshMemberCache(now, store, currentYear);
      if spot.spotter !in eligibleMemberCache {
        return SpotterNotEligible;
      }
      if spot.spotted !in memberCache {
        return SpottedNotMember;
      }
      o := Award(spot.spotter);
    }

    /** `handleLine` on a trimmed line: a login prompt is answered (the
        write is not modelled) and goes no further; a spot is processed. */
    method HandleLine(line: string, now: int, store: Storage.Store, currentYear: int) returns (o: LineOutcome)
      modifies this
      ensures buffer == old(buffer)
      ensures !ConsultsCache(o) ==> unchanged(this)
      ensures ConsultsCache(o) ==>
        && memberCache == old(RefreshedMembers(now, store))
        && eligibleMemberCache == old(RefreshedEligible(now, store, currentYear))
        && !Stale(now)
      ensures o == Classify(line, memberCache, eligibleMemberCache)
    {
      if IsLoginPrompt(line) {
        return LoginPrompt;
      }
      var spot := ParseSpot(line);
      o := HandleParsed(spot, now, store, currentYear);
    }

    /** The part of `handleLine` after the parser. */
    method HandleParsed(spot: Option<Spot>, now: int, store: Storage.Store, currentYear: int) returns (o: LineOutcome)
      modifies this
      ensures buffer == old(buffer)
      ensures !ConsultsCache(o) ==> unchanged(this)
      ensures ConsultsCache(o) ==>
        && memberCache == old(RefreshedMembers(now, store))
        && eligibleMemberCache == old(RefreshedEligible(now, store, currentYear))
        && !Stale(now)
      ensures o == ParsedOutcome(spot, memberCache, eligibleMemberCache)
    {
      if spot.None? {
        return NotSpot;
      }
      o := ProcessSpot(spot.value, now, store, currentYear);
    }

    /** Lines 123-125: the buffer plus the chunk is split on `\n`; the last
        piece becomes the buffer and the others, trimmed, are the lines to
        handle. */
    method TakeLines(chunk: string) returns (lines: seq<string>)
      modifies this
      ensures var pieces := Split(old(buffer) + chunk, '\n');
        && buffer == pieces[|pieces| - 1]
        && |lines| == |pieces| - 1
        && forall k :: 0 <= k < |lines| ==> lines[k] == Trim(pieces[k])
      ensures Terminated(Framed(old(buffer) + chunk)) + buffer == old(buffer) + chunk
      ensures '\n' !in buffer
      ensures memberCache == old(memberCache) && eligibleMemberCache == old(eligibleMemberCache)
      ensures lastCacheUpdate == old(lastCacheUpdate)
    {
      var text := buffer + chunk;
      var pieces := Split(text, '\n');
      FramingRoundTrip(text);
      buffer := pieces[|pieces| - 1];
      lines := [];
      for k := 0 to |pieces| - 1
        invariant |lines| == k
        invariant forall j :: 0 <= j < k ==> lines[j] == Trim(pieces[j])
      {
        lines := lines + [Trim(pieces[k])];
      }
    }

    /** Lines 127-129: every line handled in order. All of them are checked
        against the same caches, the ones a refresh at `now` leaves. */
    method HandleLines(lines: seq<string>, now: int, store: Storage.Store, currentYear: int)
      returns (outcomes: seq<LineOutcome>)
      modifies this
      ensures buffer == old(buffer)
      ensures outcomes == Outcomes(lines, old(RefreshedMembers(now, store)), old(RefreshedEligible(now, store, currentYear)))
      ensures AnyConsults(outcomes) ==>
        memberCache == old(RefreshedMembers(now, store))
        && eligibleMemberCache == old(RefreshedEligible(now, store, currentYear))
      ensures !AnyConsults(outcomes) ==>
        memberCache == old(memberCache) && eligibleMemberCache == old(eligibleMemberCache)
        && lastCacheUpdate == old(lastCacheUpdate)
    {
      var m0 := RefreshedMembers(now, store);
      var e0 := RefreshedEligible(now, store, currentYear);
      ghost var oldMembers, oldEligible, oldLast := memberCache, eligibleMemberCache, lastCacheUpdate;
      outcomes := [];
      for k := 0 to |lines|
        invariant buffer == old(buffer)
        invariant outcomes == Outcomes(lines[..k], m0, e0)
        invariant CachesAfter(AnyConsults(outcomes), m0, e0, now, oldMembers, oldEligible, oldLast)
        invariant RefreshedMembers(now, store) == m0 && RefreshedEligible(now, store, currentYear) == e0
      {
        var o := HandleNext(lines[k], now, store, currentYear, m0, e0, AnyConsults(outcomes));
        OutcomesSnoc(lines, k, m0, e0);
        AnyConsultsAppend(outcomes, o);
        outcomes := outcomes + [o];
      }
      assert lines[..|lines|] == lines;
    }

    /** Where the caches stand during a batch: refreshed once a line has read
        them, untouched before. */
    ghost predicate CachesAfter(refreshed: bool, members: set<string>, eligible: map<string, int>, now: int,
                                oldMembers: set<string>, oldEligible: map<string, int>, oldLast: int)
      reads this
    {
      if refreshed then memberCache == members && eligibleMemberCache == eligible && !Stale(now)
      else memberCache == oldMembers && eligibleMemberCache == oldEligible && lastCacheUpdate == oldLast
    }

    /** One line of a batch: the caches a refresh at `now` leaves decide
        it, whether or not an earlier line of the batch refreshed them. */
    method HandleNext(line: string, now: int, store: Storage.Store, currentYear: int,
                      members: set<string>, eligible: map<string, int>, ghost refreshed: bool)
      returns (o: LineOutcome)
      requires members == RefreshedMembers(now, store) && eligible == RefreshedEligible(now, store, currentYear)
      requires refreshed ==> memberCache == members && eligibleMemberCache == eligible && !Stale(now)
      modifies this
      ensures buffer == old(buffer)
      ensures o == Classify(line, members, eligible)
      ensures !ConsultsCache(o) ==> unchanged(this)
      ensures ConsultsCache(o) ==> memberCache == members && eligibleMemberCache == eligible && !Stale(now)
      ensures RefreshedMembers(now, store) == members && RefreshedEligible(now, store, currentYear) == eligible
    {
      o := HandleLine(line, now, store, currentYear);
      if !ConsultsCache(o) {
        ClassifyWithoutCaches(line, memberCache, eligibleMemberCache, members, eligible);
      }
    }

    /** The `data` handler (lines 122-130). */
    method OnData(chunk: string, now: int, store: Storage.Store, currentYear: int)
      returns (lines: seq<string>, outcomes: seq<LineOutcome>)
      modifies this
      ensures var pieces := Split(old(buffer) + chunk, '\n');
        && buffer == pieces[|pieces| - 1]
        && |lines| == |pieces| - 1
        && forall k :: 0 <= k < |lines| ==> lines[k] == Trim(pieces[k])
      ensures Terminated(Framed(old(buffer) + chunk)) + buffer == old(buffer) + chunk
      ensures '\n' !in buffer
      ensures outcomes == Outcomes(lines, old(RefreshedMembers(now, store)), old(RefreshedEligible(now, store, currentYear)))
    {
      lines := TakeLines(chunk);
      outcomes := HandleLines(lines, now, store, currentYear);
    }
  }

  /** Some line of the batch read the caches. */
  predicate AnyConsults(outcomes: seq<LineOutcome>) {
    exists k :: 0 <= k < |outcomes| && ConsultsCache(outcomes[k])
  }

  lemma AnyConsultsAppend(outcomes: seq<LineOutcome>, o: LineOutcome)
    ensures AnyConsults(outcomes + [o]) <==> AnyConsults(outcomes) || ConsultsCache(o)
  {
    var s := outcomes + [o];
    assert s[|outcomes|] == o;
    if AnyConsults(outcomes) {
      var k :| 0 <= k < |outcomes| && ConsultsCache(outcomes[k]);
      assert s[k] == outcomes[k];
    }
    if AnyConsults(s) {
      var k :| 0 <= k < |s| && ConsultsCache(s[k]);
      if k < |outcomes| { assert outcomes[k] == s[k]; }
    }
  }

  /** What handling `lines` one after the other decides, all against the
      same caches. */
  function Outcomes(lines: seq<string>, members: set<string>, eligible: map<string, int>): seq<LineOutcome> {
    if |lines| == 0 then []
    else Outcomes(lines[..|lines| - 1], members, eligible) + [Classify(lines[|lines| - 1], members, eligible)]
  }

  lemma OutcomesSnoc(lines: seq<string>, k: nat, members: set<string>, eligible: map<string, int>)
    requires k < |lines|
    ensures Outcomes(lines[..k + 1], members, eligible) == Outcomes(lines[..k], members, eligible) + [Classify(lines[k], members, eligible)]
  {
    assert lines[..k + 1][..k] == lines[..k];
  }

  /** One outcome per line, each the line's own classification. */
  lemma {:induction false} OutcomesEach(lines: seq<string>, members: set<string>, eligible: map<string, int>)
    ensures |Outcomes(lines, members, eligible)| == |lines|
    ensures forall k :: 0 <= k < |lines| ==> Outcomes(lines, members, eligible)[k] == Classify(lines[k], members, eligible)
  {
    if |lines| > 0 {
      var init := lines[..|lines| - 1];
      OutcomesEach(init, members, eligible);
      forall k | 0 <= k < |lines| - 1
        ensures Outcomes(lines, members, eligible)[k] == Classify(lines[k], members, eligible)
      {
        assert init[k] == lines[k];
      }
    }
  }

  /** The outcomes that do not read the caches do not depend on them. */
  lemma ParsedWithoutCaches(spot: Option<Spot>, members: set<string>, eligible: map<string, int>,
                            members2: set<string>, eligible2: map<string, int>)
    requires !ConsultsCache(ParsedOutcome(spot, members, eligible))
    ensures ParsedOutcome(spot, members2, eligible2) == ParsedOutcome(spot, members, eligible)
  {
  }

  lemma ClassifyWithoutCaches(line: string, members: set<string>, eligible: map<string, int>,
                              members2: set<string>, eligible2: map<string, int>)
    requires !ConsultsCache(Classify(line, members, eligible))
    ensures Classify(line, members2, eligible2) == Classify(line, members, eligible)
  {
    if !IsLoginPrompt(line) {
      ParsedWithoutCaches(ParseSpot(line), members, eligible, members2, eligible2);
    }
  }

  /** The complete lines of `text`: every piece of the split but the last. */
  function Framed(text: string): seq<string> {
    var pieces := Split(text, '\n');
    pieces[..|pieces| - 1]
  }

  /** Each complete line followed by `\n`. */
  function Terminated(lines: seq<string>): string {
    if |lines| == 0 then "" else lines[0] + "\n" + Terminated(lines[1..])
  }

  lemma {:induction false} JoinAsTerminated(lines: seq<string>, rest: string)
    ensures Join(lines + [rest], "\n") == Terminated(lines) + rest
  {
    if |lines| > 0 {
      JoinAsTerminated(lines[1..], rest);
      assert (lines + [rest])[1..] == lines[1..] + [rest];
    } else {
      assert lines + [rest] == [rest];
    }
  }

  lemma LastSplit<T>(xs: seq<T>)
    requires |xs| > 0
    ensures xs == xs[..|xs| - 1] + [xs[|xs| - 1]]
  {
  }

  /** The framing loses and invents nothing: the complete lines, each
      followed by `\n`, then the new buffer, spell the old buffer followed
      by the chunk, and no complete line holds a `\n`. */
  lemma FramingRoundTrip(text: string)
    ensures var pieces := Split(text, '\n');
      Terminated(Framed(text)) + pieces[|pieces| - 1] == text
    ensures forall k :: 0 <= k < |Framed(text)| ==> '\n' !in Framed(text)[k]
  {
    var pieces := Split(text, '\n');
    JoinSplit(text, '\n');
    LastSplit(pieces);
    JoinAsTerminated(Framed(text), pieces[|pieces| - 1]);
    forall k | 0 <= k < |Framed(text)| ensures '\n' !in Framed(text)[k] {
      assert Framed(text)[k] == pieces[k];
    }
  }
}
