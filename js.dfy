/** The few JavaScript runtime primitives the server code relies on, stated
    exactly enough for the rules built on them: `trim`, `toUpperCase` and
    `toLowerCase` (on ASCII letters), `split` with a one-character separator,
    `join`, `includes`, `startsWith`, `parseInt(s, 10)`, `String(n)` for
    integers, `Math.round`, and division that may leave the finite numbers. */
module Js {

  datatype Option<T> = None | Some(value: T)

  /** A JavaScript number as far as this model needs one: a finite value held
      exactly, or one of Infinity, -Infinity, NaN (from a division by zero). */
  datatype Num = Fin(value: real) | NonFinite

  // ---------------------------------------------------------------- characters

  /** The ECMAScript WhiteSpace and LineTerminator code points: the set that
      the regular-expression class `\s` matches and `trim` removes. */
  predicate IsSpace(c: char) {
    c == '\t' || c == '\n' || c == '\U{000B}' || c == '\U{000C}' || c == '\r' || c == ' '
    || c == '\U{00A0}' || c == '\U{1680}' || ('\U{2000}' <= c <= '\U{200A}')
    || c == '\U{2028}' || c == '\U{2029}' || c == '\U{202F}' || c == '\U{205F}'
    || c == '\U{3000}' || c == '\U{FEFF}'
  }

  /** The LineTerminator code points, which `.` in a regular expression does not match. */
  predicate IsLineTerminator(c: char) {
    c == '\n' || c == '\r' || c == '\U{2028}' || c == '\U{2029}'
  }

  predicate IsDigit(c: char) { '0' <= c <= '9' }
  predicate IsLower(c: char) { 'a' <= c <= 'z' }
  predicate IsUpper(c: char) { 'A' <= c <= 'Z' }

  function UpperChar(c: char): (u: char)
    ensures !IsLower(u)
    ensures IsSpace(u) <==> IsSpace(c)
    ensures !IsLower(c) ==> u == c
  {
    if IsLower(c) then (c as int - 32) as char else c
  }

  function LowerChar(c: char): (l: char)
    ensures !IsUpper(l)
    ensures !IsUpper(c) ==> l == c
  {
    if IsUpper(c) then (c as int + 32) as char else c
  }

  predicate AllSpace(s: string) { forall i :: 0 <= i < |s| ==> IsSpace(s[i]) }
  predicate NoLower(s: string) { forall i :: 0 <= i < |s| ==> !IsLower(s[i]) }

  /** No whitespace at either end: what `trim` produces. */
  predicate IsTrimmed(s: string) {
    |s| == 0 || (!IsSpace(s[0]) && !IsSpace(s[|s| - 1]))
  }

  // ------------------------------------------------------------------- strings

  /** `s.toUpperCase()`, on ASCII letters. */
  function ToUpper(s: string): (r: string)
    ensures |r| == |s|
  {
    seq(|s|, i requires 0 <= i < |s| => UpperChar(s[i]))
  }

  /** Upper-casing leaves no lower-case letter and moves no whitespace. */
  lemma UpperFacts(s: string)
    ensures NoLower(ToUpper(s))
    ensures forall i :: 0 <= i < |s| ==> (IsSpace(ToUpper(s)[i]) <==> IsSpace(s[i]))
  {
  }

  lemma UpperOfNoLower(s: string)
    requires NoLower(s)
    ensures ToUpper(s) == s
  {
  }

  /** `s.toLowerCase()`, on ASCII letters. */
  function ToLower(s: string): (r: string)
    ensures |r| == |s|
    ensures forall i :: 0 <= i < |s| ==> !IsUpper(r[i])
  {
    seq(|s|, i requires 0 <= i < |s| => LowerChar(s[i]))
  }

  function TrimStart(s: string): (r: string)
    ensures |r| <= |s|
    ensures AllSpace(s[..|s| - |r|])
    ensures |r| > 0 ==> !IsSpace(r[0])
  {
    if |s| > 0 && IsSpace(s[0]) then TrimStart(s[1..]) else s
  }

  function TrimEnd(s: string): (r: string)
    ensures |r| <= |s|
    ensures AllSpace(s[|r|..])
    ensures |r| > 0 ==> !IsSpace(r[|r| - 1])
  {
    if |s| > 0 && IsSpace(s[|s| - 1]) then TrimEnd(s[..|s| - 1]) else s
  }

  /** `trimStart` keeps a suffix. */
  lemma {:induction false} TrimStartSuffix(s: string)
    ensures TrimStart(s) == s[|s| - |TrimStart(s)|..]
  {
    if |s| > 0 && IsSpace(s[0]) {
      TrimStartSuffix(s[1..]);
    }
  }

  /** `trimEnd` keeps a prefix. */
  lemma {:induction false} TrimEndPrefix(s: string)
    ensures TrimEnd(s) == s[..|TrimEnd(s)|]
  {
    if |s| > 0 && IsSpace(s[|s| - 1]) {
      TrimEndPrefix(s[..|s| - 1]);
    }
  }

  /** `s.trim()`: the whitespace at both ends removed, and nothing else. */
  function Trim(s: string): (r: string)
    ensures IsTrimmed(r) && |r| <= |s|
  {
    var t := TrimStart(s);
    var r := TrimEnd(t);
    assert IsTrimmed(r) by {
      TrimEndPrefix(t);
      if |r| > 0 { assert r[0] == t[0]; }
    }
    r
  }

  lemma SliceOfSuffix<T>(s: seq<T>, i: nat, n: nat)
    requires i + n <= |s|
    ensures s[i..][..n] == s[i..i + n] && s[i..][n..] == s[i + n..]
  {
  }

  /** `trim` removes a whitespace prefix and a whitespace suffix and nothing else. */
  lemma TrimIsInfix(s: string) returns (i: nat)
    ensures var r := Trim(s);
      i <= |s| - |r| && r == s[i..i + |r|] && AllSpace(s[..i]) && AllSpace(s[i + |r|..])
  {
    var t := TrimStart(s);
    i := |s| - |t|;
    TrimStartSuffix(s);
    var r := TrimEnd(t);
    TrimEndPrefix(t);
    SliceOfSuffix(s, i, |r|);
    assert Trim(s) == r;
  }

  lemma TrimOfNoLower(s: string)
    requires NoLower(s)
    ensures NoLower(Trim(s))
  {
    var i := TrimIsInfix(s);
    forall k | 0 <= k < |Trim(s)|
      ensures !IsLower(Trim(s)[k])
    {
      assert Trim(s)[k] == s[i + k];
    }
  }

  lemma TrimOfTrimmed(s: string)
    requires IsTrimmed(s)
    ensures Trim(s) == s
  {
  }

  lemma {:induction false} TrimStartUpper(s: string)
    ensures TrimStart(ToUpper(s)) == ToUpper(TrimStart(s))
  {
    if |s| > 0 && IsSpace(s[0]) {
      assert ToUpper(s)[1..] == ToUpper(s[1..]);
      TrimStartUpper(s[1..]);
    }
  }

  lemma {:induction false} TrimEndUpper(s: string)
    ensures TrimEnd(ToUpper(s)) == ToUpper(TrimEnd(s))
  {
    if |s| > 0 && IsSpace(s[|s| - 1]) {
      assert ToUpper(s)[..|s| - 1] == ToUpper(s[..|s| - 1]);
      TrimEndUpper(s[..|s| - 1]);
    }
  }

  lemma TrimUpperCommute(s: string)
    ensures Trim(ToUpper(s)) == ToUpper(Trim(s))
  {
    TrimStartUpper(s);
    TrimEndUpper(TrimStart(s));
  }

  lemma UpperIdempotent(s: string)
    ensures ToUpper(ToUpper(s)) == ToUpper(s)
  {
    UpperFacts(s);
    UpperOfNoLower(ToUpper(s));
  }

  lemma TrimIdempotent(s: string)
    ensures Trim(Trim(s)) == Trim(s)
  {
    TrimOfTrimmed(Trim(s));
  }

  /** `s.includes(sub)`: `sub` starts at some position of `s`. */
  predicate Contains(s: string, sub: string)
    decreases |s|
  {
    StartsWith(s, sub) || (|s| > 0 && Contains(s[1..], sub))
  }

  /** A pattern whose first character never occurs in `s` does not occur in `s`. */
  lemma {:induction false} NotContainsWithoutFirst(s: string, sub: string)
    requires |sub| > 0 && sub[0] !in s
    ensures !Contains(s, sub)
  {
    if |s| > 0 {
      assert s[0] != sub[0];
      NotContainsWithoutFirst(s[1..], sub);
    }
  }

  /** `s.startsWith(p)`. */
  predicate StartsWith(s: string, p: string) {
    |p| <= |s| && s[..|p|] == p
  }

  /** `s.split(c)` for a one-character separator: the pieces between the
      occurrences of `c`, in order, empty ones included. */
  function Split(s: string, c: char): (r: seq<string>)
    ensures |r| >= 1
    ensures forall k :: 0 <= k < |r| ==> c !in r[k]
  {
    if |s| == 0 then [""]
    else
      var rest := Split(s[1..], c);
      if s[0] == c then [""] + rest else [[s[0]] + rest[0]] + rest[1..]
  }

  /** `parts.join(sep)`. */
  function Join(parts: seq<string>, sep: string): string {
    if |parts| == 0 then ""
    else if |parts| == 1 then parts[0]
    else parts[0] + sep + Join(parts[1..], sep)
  }

  lemma {:induction false} JoinSplit(s: string, c: char)
    ensures Join(Split(s, c), [c]) == s
  {
    if |s| > 0 {
      var rest := Split(s[1..], c);
      JoinSplit(s[1..], c);
      if s[0] == c {
        assert Split(s, c) == [""] + rest;
        assert Join([""] + rest, [c]) == "" + [c] + Join(rest, [c]) by {
          assert ([""] + rest)[1..] == rest;
        }
        assert s == [c] + s[1..];
      } else {
        var r := [[s[0]] + rest[0]] + rest[1..];
        assert Split(s, c) == r;
        if |rest| == 1 {
          assert Join(r, [c]) == [s[0]] + rest[0];
        } else {
          assert r[1..] == rest[1..];
          assert Join(r, [c]) == [s[0]] + rest[0] + [c] + Join(rest[1..], [c]);
          assert Join(rest, [c]) == rest[0] + [c] + Join(rest[1..], [c]);
        }
        assert s == [s[0]] + s[1..];
      }
    }
  }

  lemma {:induction false} SplitNoSeparator(s: string, c: char)
    requires c !in s
    ensures Split(s, c) == [s]
  {
    if |s| > 0 {
      assert c !in s[1..] by { forall k | 0 <= k < |s| - 1 ensures s[1..][k] != c { assert s[1..][k] == s[k + 1]; } }
      SplitNoSeparator(s[1..], c);
      assert [s[0]] + s[1..] == s;
    }
  }

  lemma {:induction false} SplitAfterPiece(a: string, c: char, t: string)
    requires c !in a
    ensures Split(a + [c] + t, c) == [a] + Split(t, c)
  {
    if |a| == 0 {
      assert a + [c] + t == [c] + t;
      assert ([c] + t)[1..] == t;
    } else {
      var s := a + [c] + t;
      assert s[1..] == a[1..] + [c] + t;
      assert c !in a[1..] by { forall k | 0 <= k < |a| - 1 ensures a[1..][k] != c { assert a[1..][k] == a[k + 1]; } }
      SplitAfterPiece(a[1..], c, t);
      assert [a[0]] + a[1..] == a;
    }
  }

  /** Joining pieces that do not contain the separator and splitting again
      gives the pieces back. */
  lemma {:induction false} SplitJoin(xs: seq<string>, c: char)
    requires |xs| >= 1
    requires forall k :: 0 <= k < |xs| ==> c !in xs[k]
    ensures Split(Join(xs, [c]), c) == xs
  {
    if |xs| == 1 {
      SplitNoSeparator(xs[0], c);
    } else {
      SplitJoin(xs[1..], c);
      SplitAfterPiece(xs[0], c, Join(xs[1..], [c]));
      assert Join(xs, [c]) == xs[0] + [c] + Join(xs[1..], [c]);
      assert [xs[0]] + xs[1..] == xs;
    }
  }

  /** The length of the longest prefix of `s` free of separator characters. */
  function RunLength(s: string, sep: char -> bool): (n: nat)
    ensures n <= |s|
    ensures forall i :: 0 <= i < n ==> !sep(s[i])
    ensures n < |s| ==> sep(s[n])
  {
    if |s| > 0 && !sep(s[0]) then 1 + RunLength(s[1..], sep) else 0
  }

  /** The maximal non-empty runs of non-separator characters, in order: what
      `s.split(/[seps]+/).filter(p => p.length > 0)` yields. */
  function Tokens(s: string, sep: char -> bool): (r: seq<string>)
    ensures forall k :: 0 <= k < |r| ==> |r[k]| > 0
    ensures forall k, i :: 0 <= k < |r| && 0 <= i < |r[k]| ==> !sep(r[k][i])
    decreases |s|
  {
    if |s| == 0 then []
    else if sep(s[0]) then Tokens(s[1..], sep)
    else
      var n := RunLength(s, sep);
      [s[..n]] + Tokens(s[n..], sep)
  }

  lemma {:induction false} RunLengthBeforeSeparator(x: string, c: char, y: string, sep: char -> bool)
    requires sep(c)
    ensures RunLength(x + [c] + y, sep) == RunLength(x, sep)
  {
    if |x| > 0 && !sep(x[0]) {
      assert (x + [c] + y)[1..] == x[1..] + [c] + y;
      RunLengthBeforeSeparator(x[1..], c, y, sep);
    }
  }

  /** A separator splits the token sequence in two. */
  lemma {:induction false} TokensAround(x: string, c: char, y: string, sep: char -> bool)
    requires sep(c)
    ensures Tokens(x + [c] + y, sep) == Tokens(x, sep) + Tokens(y, sep)
    decreases |x|
  {
    if |x| == 0 {
      var s := x + [c] + y;
      assert s == [c] + y;
      assert s[1..] == y;
    } else if sep(x[0]) {
      TokensAround(x[1..], c, y, sep);
      TokensAroundSeparator(x, c, y, sep);
    } else {
      var n := RunLength(x, sep);
      TokensAround(x[n..], c, y, sep);
      TokensAroundRun(x, c, y, sep);
    }
  }

  /** The step of `TokensAround` past a leading separator. */
  lemma TokensAroundSeparator(x: string, c: char, y: string, sep: char -> bool)
    requires |x| > 0 && sep(x[0])
    requires Tokens(x[1..] + [c] + y, sep) == Tokens(x[1..], sep) + Tokens(y, sep)
    ensures Tokens(x + [c] + y, sep) == Tokens(x, sep) + Tokens(y, sep)
  {
    var s := x + [c] + y;
    assert s[0] == x[0];
    assert s[1..] == x[1..] + [c] + y;
  }

  /** The step of `TokensAround` past a leading run. */
  lemma TokensAroundRun(x: string, c: char, y: string, sep: char -> bool)
    requires sep(c) && |x| > 0 && !sep(x[0])
    requires var n := RunLength(x, sep);
      Tokens(x[n..] + [c] + y, sep) == Tokens(x[n..], sep) + Tokens(y, sep)
    ensures Tokens(x + [c] + y, sep) == Tokens(x, sep) + Tokens(y, sep)
  {
    var n := RunLength(x, sep);
    RunLengthBeforeSeparator(x, c, y, sep);
    TokensOfLonger(x, c, y, sep);
    TokensStep(x, sep);
    ConsAppend(Tokens(x + [c] + y, sep), Tokens(x, sep), x[..n], Tokens(x[n..], sep), Tokens(y, sep));
  }

  /** The first token of `x + [c] + y`, when the run of `x` stops at `c`. */
  lemma TokensOfLonger(x: string, c: char, y: string, sep: char -> bool)
    requires |x| > 0 && !sep(x[0]) && RunLength(x + [c] + y, sep) == RunLength(x, sep)
    ensures var n := RunLength(x, sep);
      Tokens(x + [c] + y, sep) == [x[..n]] + Tokens(x[n..] + [c] + y, sep)
  {
    var s := x + [c] + y;
    var n := RunLength(x, sep);
    TokensStep(s, sep);
    assert s[..n] == x[..n];
    assert s[n..] == x[n..] + [c] + y;
  }

  lemma TokensStep(s: string, sep: char -> bool)
    requires |s| > 0 && !sep(s[0])
    ensures Tokens(s, sep) == [s[..RunLength(s, sep)]] + Tokens(s[RunLength(s, sep)..], sep)
  {
  }

  lemma ConsAppend<T>(l: seq<T>, r: seq<T>, h: T, a: seq<T>, b: seq<T>)
    requires l == [h] + (a + b) && r == [h] + a
    ensures l == r + b
  {
  }

  lemma {:induction false} RunLengthOfRun(t: string, sep: char -> bool)
    requires forall i :: 0 <= i < |t| ==> !sep(t[i])
    ensures RunLength(t, sep) == |t|
  {
    if |t| > 0 {
      RunLengthOfRun(t[1..], sep);
    }
  }

  lemma TokensOfRun(t: string, sep: char -> bool)
    requires |t| > 0
    requires forall i :: 0 <= i < |t| ==> !sep(t[i])
    ensures Tokens(t, sep) == [t]
  {
    RunLengthOfRun(t, sep);
    assert t[..|t|] == t;
    assert t[|t|..] == "";
  }

  // ------------------------------------------------------------------- numbers

  function DigitValue(c: char): (d: nat)
    requires IsDigit(c)
    ensures d < 10
  {
    c as int - '0' as int
  }

  /** The longest prefix of `s` made of decimal digits. */
  function DigitPrefix(s: string): (d: string)
    ensures |d| <= |s| && d == s[..|d|]
    ensures forall i :: 0 <= i < |d| ==> IsDigit(d[i])
    ensures |d| < |s| ==> !IsDigit(s[|d|])
  {
    if |s| > 0 && IsDigit(s[0]) then [s[0]] + DigitPrefix(s[1..]) else ""
  }

  /** The value of a string of decimal digits. */
  function DigitsValue(d: string): nat
    requires forall i :: 0 <= i < |d| ==> IsDigit(d[i])
  {
    if |d| == 0 then 0 else 10 * DigitsValue(d[..|d| - 1]) + DigitValue(d[|d| - 1])
  }

  /** `parseInt(s, 10)`: leading whitespace skipped, an optional sign, then the
      longest run of decimal digits; `None` stands for NaN (no digit there). */
  function ParseInt(s: string): (r: Option<int>)
    ensures r.None? <==> |DigitPrefix(SignStripped(TrimStart(s)))| == 0
  {
    var t := TrimStart(s);
    var d := DigitPrefix(SignStripped(t));
    var v: int := if |d| == 0 then 0 else DigitsValue(d);
    if |d| == 0 then None
    else if |t| > 0 && t[0] == '-' then Some(-v)
    else Some(v)
  }

  function SignStripped(t: string): string {
    if |t| > 0 && (t[0] == '-' || t[0] == '+') then t[1..] else t
  }

  /** The digits of a natural number, most significant first (`String(n)`). */
  function NatToString(n: nat): (s: string)
    ensures |s| >= 1
    ensures forall i :: 0 <= i < |s| ==> IsDigit(s[i])
  {
    if n < 10 then [('0' as int + n) as char]
    else NatToString(n / 10) + [('0' as int + n % 10) as char]
  }

  /** `String(n)` for an integer (one below 10^21 in magnitude). */
  function IntToString(n: int): string {
    if n < 0 then "-" + NatToString(-n) else NatToString(n)
  }

  lemma {:induction false} NatToStringValue(n: nat)
    ensures DigitsValue(NatToString(n)) == n
  {
    var s := NatToString(n);
    if n >= 10 {
      NatToStringValue(n / 10);
      assert s[..|s| - 1] == NatToString(n / 10);
    }
  }

  /** The digit prefix of digits followed by a non-digit is those digits. */
  lemma {:induction false} DigitPrefixOfDigits(s: string, rest: string)
    requires forall i :: 0 <= i < |s| ==> IsDigit(s[i])
    requires |rest| == 0 || !IsDigit(rest[0])
    ensures DigitPrefix(s + rest) == s
  {
    if |s| > 0 {
      assert forall i :: 0 <= i < |s| - 1 ==> IsDigit(s[1..][i]) by {
        forall i | 0 <= i < |s| - 1 ensures IsDigit(s[1..][i]) { assert s[1..][i] == s[i + 1]; }
      }
      DigitPrefixOfDigits(s[1..], rest);
      assert (s + rest)[1..] == s[1..] + rest;
      assert [s[0]] + s[1..] == s;
    } else {
      assert s + rest == rest;
    }
  }

  /** `parseInt` reads the leading digits and ignores what follows them. */
  lemma ParseIntOfDigits(s: string, rest: string)
    requires |s| >= 1 && forall i :: 0 <= i < |s| ==> IsDigit(s[i])
    requires |rest| == 0 || !IsDigit(rest[0])
    ensures ParseInt(s + rest) == Some(DigitsValue(s))
  {
    DigitPrefixOfDigits(s, rest);
    ParseIntOfUnsigned(s + rest);
  }

  /** `parseInt` of a string starting with a digit is the value of its digit prefix. */
  lemma ParseIntOfUnsigned(t: string)
    requires |t| >= 1 && IsDigit(t[0])
    ensures ParseInt(t) == Some(DigitsValue(DigitPrefix(t)))
  {
    var c := t[0];
    assert !IsSpace(c) && c != '-' && c != '+';
    assert TrimStart(t) == t;
    assert SignStripped(t) == t;
  }

  /** `parseInt(String(n) + rest, 10)` gives `n` back when `rest` does not
      start with a digit (so `parseInt("12x")` is 12). */
  lemma ParseIntOfNat(n: nat, rest: string)
    requires |rest| == 0 || !IsDigit(rest[0])
    ensures ParseInt(NatToString(n) + rest) == Some(n)
  {
    ParseIntOfDigits(NatToString(n), rest);
    NatToStringValue(n);
  }

  /** `Math.round(x)` on a finite number: the nearest integer, halves upwards. */
  function Round(x: real): (r: int)
    ensures x - 0.5 < r as real <= x + 0.5
  {
    (x + 0.5).Floor
  }

  /** `a / b`: finite unless `b` is zero. */
  function Div(a: real, b: real): (r: Num)
    ensures r.Fin? <==> b != 0.0
  {
    if b == 0.0 then NonFinite else Fin(a / b)
  }

  function Times(n: Num, k: real): Num {
    match n
    case Fin(x) => Fin(x * k)
    case NonFinite => NonFinite
  }

  function RoundNum(n: Num): (r: Num)
    ensures r.Fin? <==> n.Fin?
    ensures r.Fin? ==> r.value == Round(n.value) as real
  {
    match n
    case Fin(x) => Fin(Round(x) as real)
    case NonFinite => NonFinite
  }

  // -------------------------------------------------------------- arrays

  /** `xs.filter(p)`: the elements satisfying `p`, in their order. */
  function Filter<T>(xs: seq<T>, p: T -> bool): (r: seq<T>)
    ensures |r| <= |xs|
  {
    if |xs| == 0 then []
    else Filter(xs[..|xs| - 1], p) + (if p(xs[|xs| - 1]) then [xs[|xs| - 1]] else [])
  }

  lemma {:induction false} FilterMember<T>(xs: seq<T>, p: T -> bool, x: T)
    ensures x in Filter(xs, p) <==> x in xs && p(x)
  {
    if |xs| > 0 {
      var init := xs[..|xs| - 1];
      FilterMember(init, p, x);
      assert xs == init + [xs[|xs| - 1]];
    }
  }

  lemma {:induction false} FilterAppend<T>(xs: seq<T>, ys: seq<T>, p: T -> bool)
    ensures Filter(xs + ys, p) == Filter(xs, p) + Filter(ys, p)
    decreases |ys|
  {
    if |ys| == 0 {
      assert xs + ys == xs;
    } else {
      var init := ys[..|ys| - 1];
      assert (xs + ys)[..|xs + ys| - 1] == xs + init;
      FilterAppend(xs, init, p);
    }
  }

  /** Filtering keeps everything when every element passes. */
  lemma {:induction false} FilterAll<T>(xs: seq<T>, p: T -> bool)
    requires forall i :: 0 <= i < |xs| ==> p(xs[i])
    ensures Filter(xs, p) == xs
  {
    if |xs| > 0 {
      FilterAll(xs[..|xs| - 1], p);
    }
  }
}
