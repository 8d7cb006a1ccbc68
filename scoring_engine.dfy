/** The scoring engine: the club and dues gate a submission must pass, and
    the normalisation of claimed scores against the highest single-operator
    score of the contest (the baseline). */
module ScoringEngine {
  import opened Js
  import opened Schema
  import opened Storage
  import RosterScraper

  const ExpectedClub: string := "YANKEE CLIPPER CONTEST CLUB"

  /** Normalised points are scaled so that the baseline scores one million. */
  const Scale: real := 1000000.0

  predicate NoDuplicates(xs: seq<string>) {
    forall i, j :: 0 <= i < j < |xs| ==> xs[i] != xs[j]
  }

  // ------------------------------------------------------------ member map

  /** Each comma-separated alias, trimmed and upper-cased. */
  function AliasKeys(pieces: seq<string>): seq<string> {
    if |pieces| == 0 then []
    else AliasKeys(pieces[..|pieces| - 1]) + [ToUpper(Trim(pieces[|pieces| - 1]))]
  }

  /** Maps every non-empty key to `m`, one key after the other. */
  function AddKeys(mm: map<string, Member>, keys: seq<string>, m: Member): map<string, Member> {
    if |keys| == 0 then mm
    else
      var r := AddKeys(mm, keys[..|keys| - 1], m);
      if keys[|keys| - 1] != "" then r[keys[|keys| - 1] := m] else r
  }

  /** One member's entries: the upper-cased callsign, then its aliases. */
  function Register(mm: map<string, Member>, m: Member): map<string, Member> {
    var withCall := mm[ToUpper(m.callsign) := m];
    if m.aliases != "" then AddKeys(withCall, AliasKeys(Split(m.aliases, ',')), m) else withCall
  }

  /** The lookup table built from the active roster, members in order; a
      later member replaces an earlier one on a shared key. */
  function MemberMap(ms: seq<Member>): map<string, Member> {
    if |ms| == 0 then map[] else Register(MemberMap(ms[..|ms| - 1]), ms[|ms| - 1])
  }

  /** The non-empty keys of a list. */
  function KeySet(keys: seq<string>): set<string> {
    if |keys| == 0 then {}
    else KeySet(keys[..|keys| - 1]) + (if keys[|keys| - 1] != "" then {keys[|keys| - 1]} else {})
  }

  /** The keys under which a member can be found. */
  function KeysOf(m: Member): set<string> {
    {ToUpper(m.callsign)} + (if m.aliases != "" then KeySet(AliasKeys(Split(m.aliases, ','))) else {})
  }

  /** Each member's keys, in roster order. */
  function KeySets(ms: seq<Member>): (r: seq<set<string>>)
    ensures |r| == |ms|
  {
    if |ms| == 0 then [] else KeySets(ms[..|ms| - 1]) + [KeysOf(ms[|ms| - 1])]
  }

  lemma {:induction false} KeySetsAt(ms: seq<Member>, j: nat)
    requires j < |ms|
    ensures KeySets(ms)[j] == KeysOf(ms[j])
  {
    if j < |ms| - 1 {
      KeySetsAt(ms[..|ms| - 1], j);
    }
  }

  /** The last position whose key set holds `k`. */
  function LastWithKey(ks: seq<set<string>>, k: string): (r: Option<nat>)
    ensures r.Some? ==> r.value < |ks| && k in ks[r.value] && forall j :: r.value < j < |ks| ==> k !in ks[j]
    ensures r.None? ==> forall j :: 0 <= j < |ks| ==> k !in ks[j]
  {
    if |ks| == 0 then None
    else if k in ks[|ks| - 1] then Some(|ks| - 1)
    else LastWithKey(ks[..|ks| - 1], k)
  }

  /** The last roster position whose member has key `k`. */
  function Owner(ms: seq<Member>, k: string): Option<nat> {
    LastWithKey(KeySets(ms), k)
  }

  /** The owner of a key has it, and no later member does; a key without
      an owner belongs to no member. */
  lemma OwnerMeaning(ms: seq<Member>, k: string, j: nat)
    requires j < |ms|
    ensures Owner(ms, k).Some? ==> Owner(ms, k).value < |ms| && k in KeysOf(ms[Owner(ms, k).value])
    ensures Owner(ms, k).Some? && Owner(ms, k).value < j ==> k !in KeysOf(ms[j])
    ensures Owner(ms, k).None? ==> k !in KeysOf(ms[j])
  {
    KeySetsAt(ms, j);
    if Owner(ms, k).Some? {
      KeySetsAt(ms, Owner(ms, k).value);
    }
  }

  lemma OwnerSnoc(ms: seq<Member>, k: string)
    requires |ms| > 0
    ensures Owner(ms, k) == if k in KeysOf(ms[|ms| - 1]) then Some(|ms| - 1) else Owner(ms[..|ms| - 1], k)
  {
    var ks := KeySets(ms);
    assert ks[..|ks| - 1] == KeySets(ms[..|ms| - 1]);
  }

  lemma {:induction false} AddKeysExact(mm: map<string, Member>, keys: seq<string>, m: Member, k: string)
    ensures k in AddKeys(mm, keys, m) <==> k in mm || k in KeySet(keys)
    ensures k in AddKeys(mm, keys, m) ==>
      AddKeys(mm, keys, m)[k] == if k in KeySet(keys) then m else mm[k]
  {
    if |keys| > 0 {
      AddKeysExact(mm, keys[..|keys| - 1], m, k);
    }
  }

  lemma RegisterExact(mm: map<string, Member>, m: Member, k: string)
    ensures k in Register(mm, m) <==> k in mm || k in KeysOf(m)
    ensures k in Register(mm, m) ==> Register(mm, m)[k] == if k in KeysOf(m) then m else mm[k]
  {
    var withCall := mm[ToUpper(m.callsign) := m];
    if m.aliases != "" {
      AddKeysExact(withCall, AliasKeys(Split(m.aliases, ',')), m, k);
    }
  }

  /** A key is in the table exactly when some member has it, and it leads to
      the last such member. */
  lemma {:induction false} MemberMapLookup(ms: seq<Member>, k: string)
    ensures k in MemberMap(ms) <==> Owner(ms, k).Some?
    ensures k in MemberMap(ms) ==> MemberMap(ms)[k] == ms[Owner(ms, k).value]
  {
    if |ms| > 0 {
      var init := ms[..|ms| - 1];
      MemberMapLookup(init, k);
      RegisterExact(MemberMap(init), ms[|ms| - 1], k);
      OwnerSnoc(ms, k);
      if Owner(init, k).Some? {
        assert init[Owner(init, k).value] == ms[Owner(init, k).value];
      }
    }
  }

  /** One member's turn of server/scoring-engine.ts:34-42. */
  method RegisterMember(mm0: map<string, Member>, m: Member) returns (mm: map<string, Member>)
    ensures mm == Register(mm0, m)
  {
    mm := mm0[ToUpper(m.callsign) := m];
    if m.aliases != "" {
      var aliases := Split(m.aliases, ',');
      ghost var withCall := mm;
      for j := 0 to |aliases|
        invariant mm == AddKeys(withCall, AliasKeys(aliases[..j]), m)
      {
        var alias := ToUpper(Trim(aliases[j]));
        if alias != "" {
          mm := mm[alias := m];
        }
        assert aliases[..j + 1][..j] == aliases[..j];
      }
      assert aliases[..|aliases|] == aliases;
    }
  }

  /** `validateSubmission`'s table (server/scoring-engine.ts:32-42). */
  method BuildMemberMap(ms: seq<Member>) returns (mm: map<string, Member>)
    ensures mm == MemberMap(ms)
  {
    mm := map[];
    for i := 0 to |ms|
      invariant mm == MemberMap(ms[..i])
    {
      mm := RegisterMember(mm, ms[i]);
      assert ms[..i + 1][..i] == ms[..i];
    }
    assert ms[..|ms|] == ms;
  }

  // -------------------------------------------------------- classification

  /** The callsigns whose dues hold (no repeats) and those whose dues do not
      (one entry per operator naming them). */
  datatype Classification = Classification(memberOps: seq<string>, expired: seq<string>)

  function ClassifyStep(mm: map<string, Member>, seasonYear: int, c: Classification, op: string): Classification {
    var key := ToUpper(op);
    if key !in mm then c
    else
      var m := mm[key];
      if !DuesCurrent(m, seasonYear) then Classification(c.memberOps, c.expired + [m.callsign])
      else if m.callsign in c.memberOps then c
      else Classification(c.memberOps + [m.callsign], c.expired)
  }

  function Classify(mm: map<string, Member>, seasonYear: int, ops: seq<string>): Classification {
    if |ops| == 0 then Classification([], [])
    else ClassifyStep(mm, seasonYear, Classify(mm, seasonYear, ops[..|ops| - 1]), ops[|ops| - 1])
  }

  /** Operator `op` names a member, called `x`, whose dues hold. */
  predicate Admits(mm: map<string, Member>, seasonYear: int, op: string, x: string) {
    ToUpper(op) in mm && DuesCurrent(mm[ToUpper(op)], seasonYear) && mm[ToUpper(op)].callsign == x
  }

  /** Operator `op` names a member whose dues hold. */
  predicate AdmitsSome(mm: map<string, Member>, seasonYear: int, op: string) {
    ToUpper(op) in mm && DuesCurrent(mm[ToUpper(op)], seasonYear)
  }

  /** Operator `op` names a member, called `x`, whose dues do not hold. */
  predicate Excludes(mm: map<string, Member>, seasonYear: int, op: string, x: string) {
    ToUpper(op) in mm && !DuesCurrent(mm[ToUpper(op)], seasonYear) && mm[ToUpper(op)].callsign == x
  }

  lemma {:induction false} ClassifyGrows(mm: map<string, Member>, seasonYear: int, ops: seq<string>, n: nat)
    requires n <= |ops|
    ensures var c := Classify(mm, seasonYear, ops[..n]);
      var d := Classify(mm, seasonYear, ops);
      (forall x :: x in c.memberOps ==> x in d.memberOps) && (forall x :: x in c.expired ==> x in d.expired)
    decreases |ops|
  {
    if n < |ops| {
      var init := ops[..|ops| - 1];
      assert ops[..n] == init[..n];
      ClassifyGrows(mm, seasonYear, init, n);
    } else {
      assert ops[..n] == ops;
    }
  }

  lemma ClassifyAdmitted(mm: map<string, Member>, seasonYear: int, ops: seq<string>, i: nat, x: string)
    requires i < |ops| && Admits(mm, seasonYear, ops[i], x)
    ensures x in Classify(mm, seasonYear, ops).memberOps
  {
    var pre := ops[..i + 1];
    assert pre[..i] == ops[..i];
    assert x in Classify(mm, seasonYear, pre).memberOps;
    ClassifyGrows(mm, seasonYear, ops, i + 1);
  }

  lemma ClassifyExcluded(mm: map<string, Member>, seasonYear: int, ops: seq<string>, i: nat, x: string)
    requires i < |ops| && Excludes(mm, seasonYear, ops[i], x)
    ensures x in Classify(mm, seasonYear, ops).expired
  {
    var pre := ops[..i + 1];
    assert pre[..i] == ops[..i];
    assert x in Classify(mm, seasonYear, pre).expired;
    ClassifyGrows(mm, seasonYear, ops, i + 1);
  }

  lemma {:induction false} AdmittedFrom(mm: map<string, Member>, seasonYear: int, ops: seq<string>, x: string) returns (i: nat)
    requires x in Classify(mm, seasonYear, ops).memberOps
    ensures i < |ops| && Admits(mm, seasonYear, ops[i], x)
  {
    var init := ops[..|ops| - 1];
    var op := ops[|ops| - 1];
    if x in Classify(mm, seasonYear, init).memberOps {
      i := AdmittedFrom(mm, seasonYear, init, x);
      assert init[i] == ops[i];
    } else {
      i := |ops| - 1;
    }
  }

  lemma {:induction false} ExcludedFrom(mm: map<string, Member>, seasonYear: int, ops: seq<string>, x: string) returns (i: nat)
    requires x in Classify(mm, seasonYear, ops).expired
    ensures i < |ops| && Excludes(mm, seasonYear, ops[i], x)
  {
    var init := ops[..|ops| - 1];
    if x in Classify(mm, seasonYear, init).expired {
      i := ExcludedFrom(mm, seasonYear, init, x);
      assert init[i] == ops[i];
    } else {
      i := |ops| - 1;
    }
  }

  /** A callsign is kept exactly when some operator names that member with
      dues that hold; a callsign is reported expired exactly when some
      operator names that member with dues that do not. */
  lemma ClassifyExact(mm: map<string, Member>, seasonYear: int, ops: seq<string>, x: string)
    ensures x in Classify(mm, seasonYear, ops).memberOps <==> exists i :: 0 <= i < |ops| && Admits(mm, seasonYear, ops[i], x)
    ensures x in Classify(mm, seasonYear, ops).expired <==> exists i :: 0 <= i < |ops| && Excludes(mm, seasonYear, ops[i], x)
  {
    if x in Classify(mm, seasonYear, ops).memberOps {
      var i := AdmittedFrom(mm, seasonYear, ops, x);
    }
    if x in Classify(mm, seasonYear, ops).expired {
      var i := ExcludedFrom(mm, seasonYear, ops, x);
    }
    forall i | 0 <= i < |ops| && Admits(mm, seasonYear, ops[i], x)
      ensures x in Classify(mm, seasonYear, ops).memberOps
    {
      ClassifyAdmitted(mm, seasonYear, ops, i, x);
    }
    forall i | 0 <= i < |ops| && Excludes(mm, seasonYear, ops[i], x)
      ensures x in Classify(mm, seasonYear, ops).expired
    {
      ClassifyExcluded(mm, seasonYear, ops, i, x);
    }
  }

  /** A member's callsign is kept once, however many operators name it. */
  lemma {:induction false} ClassifyDistinct(mm: map<string, Member>, seasonYear: int, ops: seq<string>)
    ensures NoDuplicates(Classify(mm, seasonYear, ops).memberOps)
    ensures |Classify(mm, seasonYear, ops).memberOps| <= |ops|
  {
    if |ops| > 0 {
      ClassifyDistinct(mm, seasonYear, ops[..|ops| - 1]);
    }
  }

  // ------------------------------------------------------------ validation

  datatype ValidationError =
    | ClubMismatch(club: string)
    | AllExpired(seasonYear: int, expired: seq<string>)
    | NoMemberOperators

  function ErrorMessage(e: ValidationError): string {
    match e
    case ClubMismatch(club) =>
      "CLUB must be 'Yankee Clipper Contest Club' (found: '" + club + "')"
    case AllExpired(seasonYear, expired) =>
      "All operators have expired dues for " + IntToString(seasonYear) + ": " + Join(expired, ", ")
      + ". At least one operator must have current dues through 12/31/" + IntToString(seasonYear) + "."
    case NoMemberOperators =>
      "No YCCC member operators found in submission."
  }

  function ExcludedReason(seasonYear: int, expired: seq<string>): string {
    "The following operators were excluded due to expired dues for " + IntToString(seasonYear) + ": "
    + Join(expired, ", ") + ". They must have current dues through 12/31/" + IntToString(seasonYear) + "."
  }

  /** The outcome of validation. The error text and the note on excluded
      operators are functions of it: `ErrorMessage` and `ExcludedNote`. */
  datatype ValidationResult =
    | Invalid(error: ValidationError)
    | Valid(memberOperators: seq<string>, effectiveOperators: int, excludedOperators: Option<seq<string>>)

  /** The `excludedReason` an accepted submission carries. */
  function ExcludedNote(seasonYear: int, r: ValidationResult): Option<string>
    requires r.Valid?
  {
    if r.excludedOperators.Some? then Some(ExcludedReason(seasonYear, r.excludedOperators.value)) else None
  }

  predicate IsMultiOp(categoryOperator: string) {
    Contains(categoryOperator, "MULTI") || Contains(categoryOperator, "M/") || categoryOperator == "CHECKLOG"
  }

  /** With no operator list the station callsign is checked. */
  function OperatorsToCheck(callsign: string, operators: seq<string>): seq<string> {
    if |operators| > 0 then operators else [callsign]
  }

  predicate ClubMatches(club: string) {
    ToUpper(Trim(club)) == ExpectedClub
  }

  /** `validateSubmission` against the active roster `roster`. */
  function Validation(callsign: string, operators: seq<string>, club: string, categoryOperator: string,
                      seasonYear: int, roster: seq<Member>): ValidationResult
  {
    if !ClubMatches(club) then Invalid(ClubMismatch(club))
    else
      var c := Classify(MemberMap(roster), seasonYear, OperatorsToCheck(callsign, operators));
      if |c.memberOps| == 0 then
        if |c.expired| > 0 then Invalid(AllExpired(seasonYear, c.expired)) else Invalid(NoMemberOperators)
      else
        Valid(c.memberOps,
              if IsMultiOp(categoryOperator) then |c.memberOps| else 1,
              if |c.expired| > 0 then Some(c.expired) else None)
  }

  /** The loop of server/scoring-engine.ts:48-60. */
  method ClassifyOperators(memberMap: map<string, Member>, seasonYear: int, toCheck: seq<string>)
    returns (memberOps: seq<string>, expired: seq<string>)
    ensures Classification(memberOps, expired) == Classify(memberMap, seasonYear, toCheck)
  {
    memberOps := [];
    expired := [];
    for i := 0 to |toCheck|
      invariant Classification(memberOps, expired) == Classify(memberMap, seasonYear, toCheck[..i])
    {
      var normalizedOp := ToUpper(toCheck[i]);
      if normalizedOp in memberMap {
        var member := memberMap[normalizedOp];
        if member.duesExpiration.None? || !RosterScraper.IsDuesValidForYear(member.duesExpiration.value, seasonYear) {
          expired := expired + [member.callsign];
        } else if member.callsign !in memberOps {
          memberOps := memberOps + [member.callsign];
        }
      }
      assert toCheck[..i + 1][..i] == toCheck[..i];
    }
    assert toCheck[..|toCheck|] == toCheck;
  }

  method ValidateSubmission(store: Store, callsign: string, operators: seq<string>, club: string,
                            categoryOperator: string, seasonYear: int) returns (r: ValidationResult)
    ensures r == Validation(callsign, operators, club, categoryOperator, seasonYear, store.ActiveMembers())
  {
    if !ClubMatches(club) {
      return Invalid(ClubMismatch(club));
    }
    var memberMap := BuildMemberMap(store.ActiveMembers());
    var toCheck := if |operators| > 0 then operators else [callsign];
    var memberOps, expired := ClassifyOperators(memberMap, seasonYear, toCheck);
    if |memberOps| == 0 {
      if |expired| > 0 {
        return Invalid(AllExpired(seasonYear, expired));
      }
      return Invalid(NoMemberOperators);
    }
    var effectiveOperators := if IsMultiOp(categoryOperator) then |memberOps| else 1;
    r := Valid(memberOps, effectiveOperators, if |expired| > 0 then Some(expired) else None);
  }

  /** A submission passes exactly when its club matches and at least one
      checked operator names a roster member whose dues hold for the season. */
  lemma ValidationAccepts(callsign: string, operators: seq<string>, club: string, categoryOperator: string,
                          seasonYear: int, roster: seq<Member>)
    ensures var mm := MemberMap(roster);
      var ops := OperatorsToCheck(callsign, operators);
      Validation(callsign, operators, club, categoryOperator, seasonYear, roster).Valid?
      <==> ClubMatches(club) && exists i :: 0 <= i < |ops| && AdmitsSome(mm, seasonYear, ops[i])
  {
    var mm := MemberMap(roster);
    var ops := OperatorsToCheck(callsign, operators);
    var c := Classify(mm, seasonYear, ops);
    if |c.memberOps| > 0 {
      var i := AdmittedFrom(mm, seasonYear, ops, c.memberOps[0]);
    }
    forall i | 0 <= i < |ops| && AdmitsSome(mm, seasonYear, ops[i])
      ensures |c.memberOps| > 0
    {
      ClassifyAdmitted(mm, seasonYear, ops, i, mm[ToUpper(ops[i])].callsign);
    }
  }

  /** What an accepted submission carries: the callsigns (each once) of the
      members with current dues that its operators name, the divisor (the
      number of those members for a multi-operator category, otherwise one),
      and the expired members, reported only when there are any. */
  lemma ValidationResultMeaning(callsign: string, operators: seq<string>, club: string, categoryOperator: string,
                                seasonYear: int, roster: seq<Member>, x: string)
    requires Validation(callsign, operators, club, categoryOperator, seasonYear, roster).Valid?
    ensures var r := Validation(callsign, operators, club, categoryOperator, seasonYear, roster);
      var mm := MemberMap(roster);
      var ops := OperatorsToCheck(callsign, operators);
      && 1 <= |r.memberOperators| <= |ops| && NoDuplicates(r.memberOperators)
      && (x in r.memberOperators <==> exists i :: 0 <= i < |ops| && Admits(mm, seasonYear, ops[i], x))
      && r.effectiveOperators == (if IsMultiOp(categoryOperator) then |r.memberOperators| else 1)
      && r.effectiveOperators >= 1
      && (r.excludedOperators.Some? ==>
            |r.excludedOperators.value| > 0
            && (x in r.excludedOperators.value <==> exists i :: 0 <= i < |ops| && Excludes(mm, seasonYear, ops[i], x)))
      && (r.excludedOperators.None? ==> forall i :: 0 <= i < |ops| ==> !Excludes(mm, seasonYear, ops[i], x))
  {
    var mm := MemberMap(roster);
    var ops := OperatorsToCheck(callsign, operators);
    ClassifyExact(mm, seasonYear, ops, x);
    ClassifyDistinct(mm, seasonYear, ops);
  }

  /** Why a submission fails: a club mismatch is checked first; past it, the
      error lists the expired members when the operators name any member,
      and says that no member was found when they name none. */
  lemma ValidationRejects(callsign: string, operators: seq<string>, club: string, categoryOperator: string,
                          seasonYear: int, roster: seq<Member>)
    ensures var r := Validation(callsign, operators, club, categoryOperator, seasonYear, roster);
      var mm := MemberMap(roster);
      var ops := OperatorsToCheck(callsign, operators);
      && (!ClubMatches(club) ==> r == Invalid(ClubMismatch(club)))
      && (r.Invalid? && ClubMatches(club) ==>
            (r.error.NoMemberOperators? <==> forall i :: 0 <= i < |ops| ==> ToUpper(ops[i]) !in mm)
            && (r.error.AllExpired? ==> r.error.seasonYear == seasonYear && |r.error.expired| > 0))
  {
    var mm := MemberMap(roster);
    var ops := OperatorsToCheck(callsign, operators);
    var c := Classify(mm, seasonYear, ops);
    var r := Validation(callsign, operators, club, categoryOperator, seasonYear, roster);
    if r.Invalid? && ClubMatches(club) {
      assert |c.memberOps| == 0;
      if |c.expired| > 0 {
        var i := ExcludedFrom(mm, seasonYear, ops, c.expired[0]);
      }
      forall i | 0 <= i < |ops| && ToUpper(ops[i]) in mm
        ensures |c.expired| > 0
      {
        var m := mm[ToUpper(ops[i])];
        if DuesCurrent(m, seasonYear) {
          ClassifyAdmitted(mm, seasonYear, ops, i, m.callsign);
        } else {
          ClassifyExcluded(mm, seasonYear, ops, i, m.callsign);
        }
      }
    }
  }

  // ---------------------------------------------------------------- points

  /** `claimedScore / effectiveOperators`: each operator's share. */
  function Quotient(s: Submission): real
    requires s.effectiveOperators >= 1
  {
    s.claimedScore as real / s.effectiveOperators as real
  }

  function Claims(subs: seq<Submission>): (r: seq<int>)
    ensures |r| == |subs| && forall i :: 0 <= i < |subs| ==> r[i] == subs[i].claimedScore
  {
    if |subs| == 0 then [] else Claims(subs[..|subs| - 1]) + [subs[|subs| - 1].claimedScore]
  }

  function Quotients(subs: seq<Submission>): (r: seq<real>)
    requires DivisorsPositive(subs)
    ensures |r| == |subs| && forall i :: 0 <= i < |subs| ==> r[i] == Quotient(subs[i])
  {
    if |subs| == 0 then [] else Quotients(subs[..|subs| - 1]) + [Quotient(subs[|subs| - 1])]
  }

  /** `Math.max(...xs)` on a non-empty list. */
  function MaxInt(xs: seq<int>): (r: int)
    requires |xs| > 0
    ensures r in xs && forall i :: 0 <= i < |xs| ==> xs[i] <= r
  {
    if |xs| == 1 then xs[0]
    else
      var m := MaxInt(xs[..|xs| - 1]);
      assert xs[..|xs| - 1] == xs[..|xs| - 1];
      if xs[|xs| - 1] > m then xs[|xs| - 1] else m
  }

  /** `Math.max(...xs)`: `None` for an empty list, where JavaScript gives
      minus infinity. */
  function MaxReal(xs: seq<real>): (r: Option<real>)
    ensures r.Some? <==> |xs| > 0
    ensures r.Some? ==> r.value in xs && forall i :: 0 <= i < |xs| ==> xs[i] <= r.value
  {
    if |xs| == 0 then None
    else match MaxReal(xs[..|xs| - 1])
      case None => Some(xs[|xs| - 1])
      case Some(m) => Some(if xs[|xs| - 1] > m then xs[|xs| - 1] else m)
  }

  /** The single-operator submissions: a divisor of one. */
  function SingleOps(subs: seq<Submission>): seq<Submission> {
    Filter(subs, (s: Submission) => s.effectiveOperators == 1)
  }

  lemma SingleOpsExact(subs: seq<Submission>, x: Submission)
    ensures x in SingleOps(subs) <==> x in subs && x.effectiveOperators == 1
  {
    FilterMember(subs, (s: Submission) => s.effectiveOperators == 1, x);
  }

  /** A filtered list of rows keeps the store's row invariants. */
  lemma {:induction false} FilterKeepsInvariants(subs: seq<Submission>, p: Submission -> bool)
    requires IdsDistinct(subs) && DivisorsPositive(subs)
    ensures IdsDistinct(Filter(subs, p)) && DivisorsPositive(Filter(subs, p))
  {
    if |subs| > 0 {
      var init := subs[..|subs| - 1];
      var last := subs[|subs| - 1];
      var f := Filter(init, p);
      FilterKeepsInvariants(init, p);
      forall i | 0 <= i < |f|
        ensures f[i].id != last.id && f[i].effectiveOperators >= 1
      {
        FilterMember(init, p, f[i]);
        var j :| 0 <= j < |init| && init[j] == f[i];
        assert subs[j] == f[i];
      }
    }
  }

  datatype PointsOutcome = PointsOutcome(points: Num, upsert: Option<int>)

  /** `computeNormalizedPoints`: the submission's points, given the stored
      baseline and the contest's active rows, and the baseline it upserts
      when there was none. */
  function NormalizedPoints(baseline: Option<int>, active: seq<Submission>, sub: Submission): PointsOutcome
    requires sub.effectiveOperators >= 1 && DivisorsPositive(active)
  {
    var individual := Quotient(sub);
    if baseline.None? || baseline.value == 0 then
      var singles := SingleOps(active);
      if |singles| == 0 then
        var maxIndividual := MaxReal(Quotients(active));
        PointsOutcome(if maxIndividual.Some? && maxIndividual.value > 0.0
                      then Fin(individual / maxIndividual.value * Scale) else Fin(Scale), None)
      else
        var maxSingle := MaxInt(Claims(singles));
        PointsOutcome(Times(Div(individual, maxSingle as real), Scale), Some(maxSingle))
    else
      PointsOutcome(Fin(Round(individual / baseline.value as real * Scale) as real), None)
  }

  method ComputeNormalizedPoints(store: Store, submission: Submission, seasonYear: int) returns (points: Num)
    modifies store
    requires store.Valid() && submission.effectiveOperators >= 1
    ensures DivisorsPositive(old(ActiveByContest(store.submissions, seasonYear, submission.contestKey)))
    ensures var o := NormalizedPoints(old(store.GetBaseline(seasonYear, submission.contestKey)),
                                      old(ActiveByContest(store.submissions, seasonYear, submission.contestKey)), submission);
      points == o.points
      && store.baselines == if o.upsert.Some?
                            then old(store.baselines)[BaselineKey(seasonYear, submission.contestKey) := o.upsert.value]
                            else old(store.baselines)
    ensures store.members == old(store.members) && store.submissions == old(store.submissions)
    ensures store.rawLogs == old(store.rawLogs) && store.points == old(store.points) && store.nextId == old(store.nextId)
  {
    var individualClaimed := submission.claimedScore as real / submission.effectiveOperators as real;
    var baseline := store.GetBaseline(seasonYear, submission.contestKey);
    var allSubmissions := ActiveByContest(store.submissions, seasonYear, submission.contestKey);
    FilterKeepsInvariants(store.submissions, (s: Submission) => IsActiveFor(s, seasonYear, submission.contestKey));
    if baseline.None? || baseline.value == 0 {
      var singleOpSubmissions := SingleOps(allSubmissions);
      if |singleOpSubmissions| == 0 {
        var maxIndividual := MaxReal(Quotients(allSubmissions));
        return if maxIndividual.Some? && maxIndividual.value > 0.0
               then Fin(individualClaimed / maxIndividual.value * Scale) else Fin(Scale);
      }
      var maxSingleOp := MaxInt(Claims(singleOpSubmissions));
      store.UpsertBaseline(seasonYear, submission.contestKey, maxSingleOp);
      return Times(Div(individualClaimed, maxSingleOp as real), Scale);
    }
    points := Fin(Round(individualClaimed / baseline.value as real * Scale) as real);
  }

  /** With a non-zero stored baseline the points are the rounded share of
      it and nothing is written; a single operator who claimed exactly the
      baseline scores one million. */
  lemma StoredBaselinePoints(b: int, active: seq<Submission>, sub: Submission)
    requires sub.effectiveOperators >= 1 && DivisorsPositive(active) && b != 0
    ensures NormalizedPoints(Some(b), active, sub).upsert.None?
    ensures NormalizedPoints(Some(b), active, sub).points == Fin(Round(Quotient(sub) / b as real * Scale) as real)
    ensures sub.effectiveOperators == 1 && sub.claimedScore == b ==> NormalizedPoints(Some(b), active, sub).points == Fin(Scale)
  {
    if sub.effectiveOperators == 1 && sub.claimedScore == b {
      assert Quotient(sub) / b as real == 1.0;
    }
  }

  /** Without a usable baseline: the highest single-operator claim becomes
      the baseline when there is one; otherwise nothing is stored and the
      best share (or one million, when no share is positive) is the scale. */
  lemma MissingBaselinePoints(baseline: Option<int>, active: seq<Submission>, sub: Submission)
    requires sub.effectiveOperators >= 1 && DivisorsPositive(active)
    requires baseline.None? || baseline.value == 0
    ensures var o := NormalizedPoints(baseline, active, sub);
      && (o.upsert.Some? <==> exists i :: 0 <= i < |active| && active[i].effectiveOperators == 1)
      && (o.upsert.Some? ==>
            (exists i :: 0 <= i < |active| && active[i].effectiveOperators == 1 && active[i].claimedScore == o.upsert.value)
            && (forall i :: 0 <= i < |active| && active[i].effectiveOperators == 1 ==> active[i].claimedScore <= o.upsert.value))
      && (o.upsert.None? && (forall i :: 0 <= i < |active| ==> Quotient(active[i]) <= 0.0) ==> o.points == Fin(Scale))
  {
    var singles := SingleOps(active);
    forall i | 0 <= i < |active| && active[i].effectiveOperators == 1
      ensures active[i] in singles
    {
      SingleOpsExact(active, active[i]);
    }
    if |singles| > 0 {
      SingleOpsExact(active, singles[0]);
      var m := MaxInt(Claims(singles));
      var k :| 0 <= k < |singles| && Claims(singles)[k] == m;
      SingleOpsExact(active, singles[k]);
      forall i | 0 <= i < |active| && active[i].effectiveOperators == 1
        ensures active[i].claimedScore <= m
      {
        var j :| 0 <= j < |singles| && singles[j] == active[i];
        assert Claims(singles)[j] <= m;
      }
    }
  }

  // ------------------------------------------------------------- recompute

  /** The accepted rows among the contest's active rows. */
  function AcceptedOnly(subs: seq<Submission>): seq<Submission> {
    Filter(subs, (s: Submission) => s.status == Accepted)
  }

  function AcceptedFor(subs: seq<Submission>, seasonYear: int, contestKey: string): seq<Submission> {
    AcceptedOnly(ActiveByContest(subs, seasonYear, contestKey))
  }

  lemma AcceptedForInvariants(subs: seq<Submission>, seasonYear: int, contestKey: string)
    requires IdsDistinct(subs) && DivisorsPositive(subs)
    ensures IdsDistinct(AcceptedFor(subs, seasonYear, contestKey)) && DivisorsPositive(AcceptedFor(subs, seasonYear, contestKey))
  {
    FilterKeepsInvariants(subs, (s: Submission) => IsActiveFor(s, seasonYear, contestKey));
    FilterKeepsInvariants(ActiveByContest(subs, seasonYear, contestKey), (s: Submission) => s.status == Accepted);
  }

  /** The scale of a recomputation: the highest single-operator claim, or,
      when there is no single operator, the highest share. */
  function RecomputeScale(accepted: seq<Submission>): real
    requires |accepted| > 0 && DivisorsPositive(accepted)
  {
    var singles := SingleOps(accepted);
    if |singles| > 0 then MaxInt(Claims(singles)) as real else MaxReal(Quotients(accepted)).value
  }

  function BaselinesAfter(baselines: map<BaselineKey, int>, seasonYear: int, contestKey: string,
                          accepted: seq<Submission>): map<BaselineKey, int>
  {
    var singles := SingleOps(accepted);
    if |singles| > 0 then baselines[BaselineKey(seasonYear, contestKey) := MaxInt(Claims(singles))] else baselines
  }

  /** `memberOperators?.split(',') || []`. */
  function MemberPieces(memberOperators: Option<string>): seq<string> {
    if memberOperators.Some? then Split(memberOperators.value, ',') else []
  }

  /** The point row written for one listed member. */
  function PointRow(sub: Submission, piece: string, scale: real): OperatorPoints
    requires sub.effectiveOperators >= 1
  {
    OperatorPoints(sub.id, Trim(piece), Quotient(sub), RoundNum(Times(Div(Quotient(sub), scale), Scale)))
  }

  function PointRowsFor(sub: Submission, pieces: seq<string>, scale: real): (r: seq<OperatorPoints>)
    requires sub.effectiveOperators >= 1
    ensures |r| == |pieces| && forall k :: 0 <= k < |r| ==> r[k] == PointRow(sub, pieces[k], scale)
  {
    if |pieces| == 0 then []
    else PointRowsFor(sub, pieces[..|pieces| - 1], scale) + [PointRow(sub, pieces[|pieces| - 1], scale)]
  }

  /** The rows a recomputation writes, submission after submission. */
  function RowsFor(subs: seq<Submission>, scale: real): seq<OperatorPoints>
    requires DivisorsPositive(subs)
  {
    if |subs| == 0 then []
    else
      var last := subs[|subs| - 1];
      RowsFor(subs[..|subs| - 1], scale) + PointRowsFor(last, MemberPieces(last.memberOperators), scale)
  }

  function IdSet(subs: seq<Submission>): set<nat> {
    if |subs| == 0 then {} else IdSet(subs[..|subs| - 1]) + {subs[|subs| - 1].id}
  }

  /** The point table after a recomputation: the rows of other submissions
      in their order, then the freshly computed rows. */
  function RecomputedPoints(points: seq<OperatorPoints>, accepted: seq<Submission>, scale: real): seq<OperatorPoints>
    requires DivisorsPositive(accepted)
  {
    Purge(points, IdSet(accepted)) + RowsFor(accepted, scale)
  }

  lemma {:induction false} IdSetMember(subs: seq<Submission>, id: nat) returns (j: nat)
    requires id in IdSet(subs)
    ensures j < |subs| && subs[j].id == id
  {
    var init := subs[..|subs| - 1];
    if id in IdSet(init) {
      j := IdSetMember(init, id);
      assert init[j] == subs[j];
    } else {
      j := |subs| - 1;
    }
  }

  lemma {:induction false} RowsIds(subs: seq<Submission>, scale: real)
    requires DivisorsPositive(subs)
    ensures forall r :: 0 <= r < |RowsFor(subs, scale)| ==> RowsFor(subs, scale)[r].submissionId in IdSet(subs)
  {
    if |subs| > 0 {
      RowsIds(subs[..|subs| - 1], scale);
    }
  }

  lemma AppendAssociative<T>(a: seq<T>, b: seq<T>, c: seq<T>)
    ensures (a + b) + c == a + (b + c)
  {
  }

  lemma PrefixSnoc(accepted: seq<Submission>, i: nat, scale: real)
    requires DivisorsPositive(accepted) && i < |accepted|
    ensures IdSet(accepted[..i + 1]) == IdSet(accepted[..i]) + {accepted[i].id}
    ensures RowsFor(accepted[..i + 1], scale)
            == RowsFor(accepted[..i], scale) + PointRowsFor(accepted[i], MemberPieces(accepted[i].memberOperators), scale)
  {
    assert accepted[..i + 1][..i] == accepted[..i];
  }

  /** Deleting the next submission's rows leaves the rows already written,
      because submission ids are distinct. */
  lemma PurgeStep(p0: seq<OperatorPoints>, accepted: seq<Submission>, i: nat, scale: real)
    requires IdsDistinct(accepted) && DivisorsPositive(accepted) && i < |accepted|
    ensures WithoutSubmission(Purge(p0, IdSet(accepted[..i])) + RowsFor(accepted[..i], scale), accepted[i].id)
            == Purge(p0, IdSet(accepted[..i]) + {accepted[i].id}) + RowsFor(accepted[..i], scale)
  {
    var s := IdSet(accepted[..i]);
    var id := accepted[i].id;
    var rows := RowsFor(accepted[..i], scale);
    PurgeAppend(Purge(p0, s), rows, {id});
    PurgeTwice(p0, s, {id});
    if id in s {
      var j := IdSetMember(accepted[..i], id);
      assert false;
    }
    RowsIds(accepted[..i], scale);
    PurgeNone(rows, {id});
  }

  /** One pass of the loop: the table grows from one prefix of the accepted
      rows to the next. */
  lemma RecomputeStep(p0: seq<OperatorPoints>, accepted: seq<Submission>, i: nat, scale: real)
    requires IdsDistinct(accepted) && DivisorsPositive(accepted) && i < |accepted|
    ensures WithoutSubmission(Purge(p0, IdSet(accepted[..i])) + RowsFor(accepted[..i], scale), accepted[i].id)
            + PointRowsFor(accepted[i], MemberPieces(accepted[i].memberOperators), scale)
            == Purge(p0, IdSet(accepted[..i + 1])) + RowsFor(accepted[..i + 1], scale)
  {
    PurgeStep(p0, accepted, i, scale);
    PrefixSnoc(accepted, i, scale);
    var kept := Purge(p0, IdSet(accepted[..i + 1]));
    var rows := RowsFor(accepted[..i], scale);
    var added := PointRowsFor(accepted[i], MemberPieces(accepted[i].memberOperators), scale);
    AppendAssociative(kept, rows, added);
  }

  /** One pass of the loop of server/scoring-engine.ts:161-176: the
      submission's point rows are deleted and written anew. */
  method RewritePoints(store: Store, sub: Submission, maxScore: real)
    modifies store
    requires sub.effectiveOperators >= 1
    ensures store.points == WithoutSubmission(old(store.points), sub.id)
                            + PointRowsFor(sub, MemberPieces(sub.memberOperators), maxScore)
    ensures store.members == old(store.members) && store.submissions == old(store.submissions)
    ensures store.rawLogs == old(store.rawLogs) && store.nextId == old(store.nextId)
    ensures store.baselines == old(store.baselines)
  {
    store.DeleteOperatorPointsBySubmission(sub.id);
    var memberOps := MemberPieces(sub.memberOperators);
    var individualClaimed := sub.claimedScore as real / sub.effectiveOperators as real;
    var normalizedPoints := Times(Div(individualClaimed, maxScore), Scale);
    ghost var base := store.points;
    for j := 0 to |memberOps|
      invariant store.points == base + PointRowsFor(sub, memberOps[..j], maxScore)
      invariant store.baselines == old(store.baselines) && store.members == old(store.members)
      invariant store.submissions == old(store.submissions)
      invariant store.rawLogs == old(store.rawLogs) && store.nextId == old(store.nextId)
    {
      store.CreateOperatorPoints(OperatorPoints(sub.id, Trim(memberOps[j]), individualClaimed, RoundNum(normalizedPoints)));
      assert memberOps[..j + 1][..j] == memberOps[..j];
    }
    assert memberOps[..|memberOps|] == memberOps;
  }

  /** `recomputeBaseline`: rewrites the point rows of every accepted active
      submission of the contest, and the baseline when a single operator
      took part. */
  method RecomputeBaseline(store: Store, seasonYear: int, contestKey: string)
    modifies store
    requires store.Valid()
    ensures IdsDistinct(old(AcceptedFor(store.submissions, seasonYear, contestKey)))
    ensures DivisorsPositive(old(AcceptedFor(store.submissions, seasonYear, contestKey)))
    ensures var accepted := old(AcceptedFor(store.submissions, seasonYear, contestKey));
      if |accepted| == 0 then store.points == old(store.points) && store.baselines == old(store.baselines)
      else store.points == RecomputedPoints(old(store.points), accepted, RecomputeScale(accepted))
           && store.baselines == BaselinesAfter(old(store.baselines), seasonYear, contestKey, accepted)
    ensures store.members == old(store.members) && store.submissions == old(store.submissions)
    ensures store.rawLogs == old(store.rawLogs) && store.nextId == old(store.nextId)
  {
    var submissions := ActiveByContest(store.submissions, seasonYear, contestKey);
    var acceptedSubmissions := AcceptedOnly(submissions);
    AcceptedForInvariants(store.submissions, seasonYear, contestKey);
    if |acceptedSubmissions| == 0 {
      return;
    }
    var singleOpSubmissions := SingleOps(acceptedSubmissions);
    var maxScore: real;
    if |singleOpSubmissions| > 0 {
      var m := MaxInt(Claims(singleOpSubmissions));
      maxScore := m as real;
      store.UpsertBaseline(seasonYear, contestKey, m);
    } else {
      maxScore := MaxReal(Quotients(acceptedSubmissions)).value;
    }
    RewriteAll(store, acceptedSubmissions, maxScore);
  }

  /** The loop of server/scoring-engine.ts:161-176 over all accepted rows. */
  method RewriteAll(store: Store, accepted: seq<Submission>, maxScore: real)
    modifies store
    requires IdsDistinct(accepted) && DivisorsPositive(accepted)
    ensures store.points == RecomputedPoints(old(store.points), accepted, maxScore)
    ensures store.members == old(store.members) && store.submissions == old(store.submissions)
    ensures store.rawLogs == old(store.rawLogs) && store.nextId == old(store.nextId)
    ensures store.baselines == old(store.baselines)
  {
    ghost var p0 := store.points;
    PurgeNone(p0, {});
    for i := 0 to |accepted|
      invariant store.points == Purge(p0, IdSet(accepted[..i])) + RowsFor(accepted[..i], maxScore)
      invariant store.baselines == old(store.baselines) && store.members == old(store.members)
      invariant store.submissions == old(store.submissions)
      invariant store.rawLogs == old(store.rawLogs) && store.nextId == old(store.nextId)
    {
      RecomputeStep(p0, accepted, i, maxScore);
      RewritePoints(store, accepted[i], maxScore);
    }
    assert accepted[..|accepted|] == accepted;
  }

  /** Recomputing again with the same rows changes nothing: the second pass
      deletes exactly the rows the first wrote and writes them again. */
  lemma RecomputeIdempotent(points: seq<OperatorPoints>, accepted: seq<Submission>, scale: real)
    requires DivisorsPositive(accepted)
    ensures RecomputedPoints(RecomputedPoints(points, accepted, scale), accepted, scale)
            == RecomputedPoints(points, accepted, scale)
  {
    var ids := IdSet(accepted);
    var rows := RowsFor(accepted, scale);
    var kept := Purge(points, ids);
    PurgeAppend(kept, rows, ids);
    PurgeTwice(points, ids, ids);
    assert ids + ids == ids;
    RowsIds(accepted, scale);
    PurgeAll(rows, ids);
    assert Purge(kept + rows, ids) == kept + [];
    assert kept + [] == kept;
  }

  /** The second pass upserts the same baseline. */
  lemma BaselinesIdempotent(baselines: map<BaselineKey, int>, seasonYear: int, contestKey: string,
                            accepted: seq<Submission>)
    ensures BaselinesAfter(BaselinesAfter(baselines, seasonYear, contestKey, accepted), seasonYear, contestKey, accepted)
            == BaselinesAfter(baselines, seasonYear, contestKey, accepted)
  {
  }

  /** Point rows of submissions outside the recomputation survive it, and
      are the only rows of such submissions afterwards. */
  lemma RecomputeKeepsOthers(points: seq<OperatorPoints>, accepted: seq<Submission>, scale: real, x: OperatorPoints)
    requires DivisorsPositive(accepted)
    requires x.submissionId !in IdSet(accepted)
    ensures x in RecomputedPoints(points, accepted, scale) <==> x in points
  {
    PurgeExact(points, IdSet(accepted), x);
    RowsIds(accepted, scale);
  }

  /** A share of at most the scale rounds to at most one million points,
      and the scale itself to exactly one million. */
  lemma ScaledAtMost(q: real, scale: real)
    requires 0.0 < scale && q <= scale
    ensures RoundNum(Times(Div(q, scale), Scale)).Fin?
    ensures RoundNum(Times(Div(q, scale), Scale)).value <= Scale
    ensures q == scale ==> RoundNum(Times(Div(q, scale), Scale)) == Fin(Scale)
  {
    var x := q / scale;
    assert x * scale == q;
    assert x <= 1.0;
    assert x * Scale <= Scale;
    if q == scale {
      assert x == 1.0;
      assert Round(x * Scale) == 1000000;
    }
  }

  /** With single operators present, the one with the highest claim scores
      exactly one million, and every single operator at most that. */
  lemma SingleOpPointsAtMostScale(accepted: seq<Submission>, sub: Submission, piece: string)
    requires |accepted| > 0 && DivisorsPositive(accepted)
    requires |SingleOps(accepted)| > 0 && RecomputeScale(accepted) > 0.0
    requires sub in accepted && sub.effectiveOperators == 1
    ensures PointRow(sub, piece, RecomputeScale(accepted)).normalizedPoints.Fin?
    ensures PointRow(sub, piece, RecomputeScale(accepted)).normalizedPoints.value <= Scale
    ensures sub.claimedScore as real == RecomputeScale(accepted) ==>
              PointRow(sub, piece, RecomputeScale(accepted)).normalizedPoints == Fin(Scale)
  {
    var scale := RecomputeScale(accepted);
    var singles := SingleOps(accepted);
    SingleOpsExact(accepted, sub);
    var j :| 0 <= j < |singles| && singles[j] == sub;
    assert Claims(singles)[j] == sub.claimedScore;
    assert Quotient(sub) == sub.claimedScore as real;
    ScaledAtMost(Quotient(sub), scale);
  }
}
