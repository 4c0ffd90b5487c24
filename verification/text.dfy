/**
 * The string operations the storefront borrows from JavaScript: case mapping,
 * `includes`, `trim`, `split`, `Number.prototype.toString` on whole numbers and
 * `parseInt`. Strings are sequences of characters; case mapping is ASCII.
 */
module Text {
  import opened Wrappers

  // ---------------------------------------------------------------- case

  function LowerChar(c: char): char {
    if 'A' <= c <= 'Z' then (c as int + 32) as char else c
  }

  function UpperChar(c: char): char {
    if 'a' <= c <= 'z' then (c as int - 32) as char else c
  }

  /** `s.toLowerCase()` on the ASCII letters. */
  function Lower(s: string): string {
    seq(|s|, i requires 0 <= i < |s| => LowerChar(s[i]))
  }

  /** `s.toUpperCase()` on the ASCII letters. */
  function Upper(s: string): string {
    seq(|s|, i requires 0 <= i < |s| => UpperChar(s[i]))
  }

  lemma UpperIdempotent(s: string)
    ensures Upper(Upper(s)) == Upper(s)
  {
  }

  // ---------------------------------------------------------------- search

  /** `s.includes(t)`: `t` occurs in `s` as a contiguous piece (the empty string occurs everywhere). */
  predicate Contains(s: string, t: string) {
    exists i :: 0 <= i <= |s| - |t| && OccursAt(s, t, i)
  }

  predicate OccursAt(s: string, t: string, i: int)
    requires 0 <= i <= |s| - |t|
  {
    s[i..i + |t|] == t
  }

  // ---------------------------------------------------------------- whitespace

  /** The characters `trim` and `parseInt` skip: ECMAScript WhiteSpace and LineTerminator. */
  predicate IsJsWhitespace(c: char) {
    var n := c as int;
    n == 0x09 || n == 0x0A || n == 0x0B || n == 0x0C || n == 0x0D || n == 0x20 ||
    n == 0xA0 || n == 0x1680 || (0x2000 <= n <= 0x200A) || n == 0x2028 || n == 0x2029 ||
    n == 0x202F || n == 0x205F || n == 0x3000 || n == 0xFEFF
  }

  /** `!s.trim()`: the string is empty once surrounding whitespace is removed. */
  predicate IsBlank(s: string) {
    forall i :: 0 <= i < |s| ==> IsJsWhitespace(s[i])
  }

  /** Leading whitespace removed, as `parseInt` does first. */
  function TrimStart(s: string): (r: string)
    ensures |r| <= |s| && r == s[|s| - |r|..]
    ensures r != [] ==> !IsJsWhitespace(r[0])
  {
    if s != [] && IsJsWhitespace(s[0]) then TrimStart(s[1..]) else s
  }

  // ---------------------------------------------------------------- split

  /** The number of occurrences of `c` in `s`. */
  function Occurrences(s: string, c: char): nat {
    if s == [] then 0 else (if s[0] == c then 1 else 0) + Occurrences(s[1..], c)
  }

  /** `s.split(sep)` for a one-character separator: the pieces between separators. */
  function Split(s: string, sep: char): (pieces: seq<string>)
    ensures |pieces| >= 1
  {
    if s == [] then [[]]
    else
      var rest := Split(s[1..], sep);
      if s[0] == sep then [[]] + rest else [[s[0]] + rest[0]] + rest[1..]
  }

  /** `pieces.join(sep)`. */
  function Join(pieces: seq<string>, sep: char): string
    requires |pieces| >= 1
  {
    if |pieces| == 1 then pieces[0] else pieces[0] + [sep] + Join(pieces[1..], sep)
  }

  /** Splitting yields one piece more than there are separators. */
  lemma {:induction false} SplitCount(s: string, sep: char)
    ensures |Split(s, sep)| == Occurrences(s, sep) + 1
  {
    if s != [] {
      SplitCount(s[1..], sep);
    }
  }

  /** No piece contains the separator. */
  lemma {:induction false} SplitPiecesFree(s: string, sep: char)
    ensures forall k :: 0 <= k < |Split(s, sep)| ==> sep !in Split(s, sep)[k]
  {
    if s != [] {
      SplitPiecesFree(s[1..], sep);
    }
  }

  /** Joining the pieces with the separator gives back the string. */
  lemma {:induction false} JoinSplit(s: string, sep: char)
    ensures Join(Split(s, sep), sep) == s
  {
    if s != [] {
      var rest := Split(s[1..], sep);
      JoinSplit(s[1..], sep);
      if s[0] == sep {
        JoinEmptyFirst(rest, sep);
      } else {
        JoinGlueFirst(s[0], rest, sep);
      }
      assert s == [s[0]] + s[1..];
    }
  }

  /** An empty first piece contributes only its separator. */
  lemma JoinEmptyFirst(rest: seq<string>, sep: char)
    requires |rest| >= 1
    ensures Join([[]] + rest, sep) == [sep] + Join(rest, sep)
  {
    assert ([[]] + rest)[1..] == rest;
  }

  /** A character glued to the first piece comes first in the joined string. */
  lemma JoinGlueFirst(c: char, rest: seq<string>, sep: char)
    requires |rest| >= 1
    ensures Join([[c] + rest[0]] + rest[1..], sep) == [c] + Join(rest, sep)
  {
    var pieces := [[c] + rest[0]] + rest[1..];
    if |rest| > 1 {
      assert pieces[1..] == rest[1..];
    }
  }

  // ---------------------------------------------------------------- numbers

  predicate IsDigit(c: char) {
    '0' <= c <= '9'
  }

  function DigitChar(d: int): char
    requires 0 <= d < 10
  {
    ('0' as int + d) as char
  }

  function Pow10(k: nat): (p: nat)
    ensures p >= 1
  {
    if k == 0 then 1 else 10 * Pow10(k - 1)
  }

  /** `n.toString()` for a non-negative whole number: decimal digits, no leading zero. */
  function NatToString(n: nat): (r: string)
    ensures |r| >= 1
    ensures forall i :: 0 <= i < |r| ==> IsDigit(r[i])
    ensures r[0] == '0' <==> n == 0
  {
    if n < 10 then [DigitChar(n)] else NatToString(n / 10) + [DigitChar(n % 10)]
  }

  /** `n.toString()` for a whole number of either sign. */
  function IntToString(n: int): string {
    if n < 0 then "-" + NatToString(-n) else NatToString(n)
  }

  /** A number has at least `k + 1` decimal digits exactly when it is at least `10^k`. */
  lemma {:induction false} NatToStringLength(n: nat, k: nat)
    requires k >= 1
    ensures |NatToString(n)| >= k + 1 <==> n >= Pow10(k)
  {
    if n >= 10 && k >= 2 {
      NatToStringLength(n / 10, k - 1);
      assert n / 10 >= Pow10(k - 1) <==> n >= 10 * Pow10(k - 1);
    }
  }

  // parseInt ----------------------------------------------------------------

  predicate IsRadixDigit(c: char, radix: nat) {
    if radix == 16 then IsDigit(c) || 'a' <= c <= 'f' || 'A' <= c <= 'F' else IsDigit(c)
  }

  function DigitValue(c: char): nat {
    if IsDigit(c) then c as int - '0' as int
    else if 'a' <= c <= 'f' then c as int - 'a' as int + 10
    else if 'A' <= c <= 'F' then c as int - 'A' as int + 10
    else 0
  }

  /** The longest prefix of `s` made of digits in `radix`. */
  function LeadingDigits(s: string, radix: nat): (z: string)
    ensures |z| <= |s| && z == s[..|z|]
    ensures forall i :: 0 <= i < |z| ==> IsRadixDigit(z[i], radix)
  {
    if s != [] && IsRadixDigit(s[0], radix) then [s[0]] + LeadingDigits(s[1..], radix) else []
  }

  /** The number a digit string denotes in `radix`, most significant digit first. */
  function DigitsValue(ds: string, radix: nat): nat {
    if ds == [] then 0 else DigitsValue(ds[..|ds| - 1], radix) * radix + DigitValue(ds[|ds| - 1])
  }

  /** The text after an optional leading `+` or `-`. */
  function StripSign(t: string): string {
    if t != [] && (t[0] == '-' || t[0] == '+') then t[1..] else t
  }

  predicate HasHexPrefix(u: string) {
    |u| >= 2 && u[0] == '0' && (u[1] == 'x' || u[1] == 'X')
  }

  /** The magnitude `parseInt` reads after the sign; `None` when no digit follows. */
  function ParseMagnitude(u: string): Option<nat> {
    var radix := if HasHexPrefix(u) then 16 else 10;
    var z := LeadingDigits(if HasHexPrefix(u) then u[2..] else u, radix);
    if z == [] then None else Some(DigitsValue(z, radix))
  }

  /**
   * `parseInt(s)` with no radix argument: leading whitespace skipped, an optional
   * sign, a `0x`/`0X` prefix switching to hexadecimal, then the longest run of
   * digits. `None` is NaN (no digits at all).
   */
  function ParseInt(s: string): (r: Option<int>)
    ensures r.None? <==> var u := StripSign(TrimStart(s));
      if HasHexPrefix(u) then |u| == 2 || !IsRadixDigit(u[2], 16) else u == [] || !IsDigit(u[0])
    ensures r.Some? && r.value < 0 ==> TrimStart(s) != [] && TrimStart(s)[0] == '-'
  {
    var t := TrimStart(s);
    match ParseMagnitude(StripSign(t))
    case None => None
    case Some(v) => Some(if t != [] && t[0] == '-' then -(v as int) else v as int)
  }

  /** `parseInt(s) || 0`: NaN (and the negative zero) become 0. */
  function ParseIntOrZero(s: string): (n: int)
    ensures ParseInt(s).None? ==> n == 0
    ensures ParseInt(s).Some? ==> n == ParseInt(s).value
  {
    ParseInt(s).GetOr(0)
  }

  lemma {:induction false} LeadingDigitsAll(s: string, radix: nat)
    requires forall i :: 0 <= i < |s| ==> IsRadixDigit(s[i], radix)
    ensures LeadingDigits(s, radix) == s
  {
    if s != [] {
      LeadingDigitsAll(s[1..], radix);
    }
  }

  lemma {:induction false} DigitsValueOfNatToString(n: nat)
    ensures DigitsValue(NatToString(n), 10) == n
  {
    if n >= 10 {
      var r := NatToString(n);
      DigitsValueOfNatToString(n / 10);
      assert r[..|r| - 1] == NatToString(n / 10);
    }
  }

  lemma ParseMagnitudeOfDigits(r: string)
    requires r != [] && forall i :: 0 <= i < |r| ==> IsDigit(r[i])
    ensures ParseMagnitude(r) == Some(DigitsValue(r, 10))
  {
    assert !HasHexPrefix(r) by {
      if |r| >= 2 { assert IsDigit(r[1]); }
    }
    LeadingDigitsAll(r, 10);
  }

  lemma DigitNotSpace(c: char)
    requires IsDigit(c)
    ensures !IsJsWhitespace(c) && c != '-' && c != '+'
  {
  }

  /** Text that starts with a digit is left alone by the whitespace and sign steps. */
  lemma DigitsNotStripped(r: string)
    requires r != [] && IsDigit(r[0])
    ensures TrimStart(r) == r && StripSign(r) == r
  {
    DigitNotSpace(r[0]);
  }

  /** A leading minus survives whitespace trimming and is removed as the sign. */
  lemma MinusNotStripped(r: string)
    ensures TrimStart("-" + r) == "-" + r && StripSign("-" + r) == r
  {
    var m := "-" + r;
    assert m[0] == '-' && !IsJsWhitespace(m[0]);
    assert m[1..] == r;
  }

  lemma ParseIntFromMagnitude(t: string, v: nat)
    requires TrimStart(t) == t && t != [] && t[0] != '-'
    requires ParseMagnitude(StripSign(t)) == Some(v)
    ensures ParseInt(t) == Some(v as int)
  {
  }

  lemma ParseIntFromNegatedMagnitude(t: string, v: nat)
    requires TrimStart(t) == t && t != [] && t[0] == '-'
    requires ParseMagnitude(StripSign(t)) == Some(v)
    ensures ParseInt(t) == Some(-(v as int))
  {
  }

  /** `parseInt` on a plain digit string reads it in decimal. */
  lemma ParseIntOfDigits(r: string)
    requires r != [] && forall i :: 0 <= i < |r| ==> IsDigit(r[i])
    ensures ParseInt(r) == Some(DigitsValue(r, 10) as int)
  {
    DigitsNotStripped(r);
    DigitNotSpace(r[0]);
    ParseMagnitudeOfDigits(r);
    ParseIntFromMagnitude(r, DigitsValue(r, 10));
  }

  /** `parseInt` on a minus sign and a digit string reads the negated decimal value. */
  lemma ParseIntOfNegatedDigits(r: string, m: string)
    requires r != [] && forall i :: 0 <= i < |r| ==> IsDigit(r[i])
    requires m == "-" + r
    ensures ParseInt(m) == Some(-(DigitsValue(r, 10) as int))
  {
    MinusNotStripped(r);
    ParseMagnitudeOfDigits(r);
    ParseIntFromNegatedMagnitude(m, DigitsValue(r, 10));
  }

  /** `parseInt` reads back what `toString` printed. */
  lemma ParseIntOfNatToString(n: nat)
    ensures ParseInt(NatToString(n)) == Some(n as int)
    ensures ParseInt("-" + NatToString(n)) == Some(-(n as int))
  {
    DigitsValueOfNatToString(n);
    ParseIntOfDigits(NatToString(n));
    ParseIntOfNegatedDigits(NatToString(n), "-" + NatToString(n));
  }

  /** Arithmetic step: the last `k + 1` digits are the last `k` digits of `n / 10` and then `n % 10`. */
  lemma ModStep(n: nat, m: nat)
    requires m >= 1
    ensures (n / 10) % m * 10 + n % 10 == n % (10 * m)
  {
    var q, r0 := n / 10, n % 10;
    var a, b := q / m, q % m;
    assert n == 10 * q + r0;
    assert q == m * a + b;
    assert n == (10 * m) * a + (10 * b + r0);
    assert 0 <= 10 * b + r0 < 10 * m;
    DivModUnique(n, 10 * m, a, 10 * b + r0);
  }

  lemma DivModUnique(n: int, d: int, q: int, r: int)
    requires d > 0 && 0 <= r < d && n == d * q + r
    ensures n % d == r
  {
    var q0, r0 := n / d, n % d;
    assert n == d * q0 + r0;
    if q0 > q {
      MulMono(d, q + 1, q0);
      MulSucc(d, q);
    } else if q0 < q {
      MulMono(d, q0 + 1, q);
      MulSucc(d, q0);
    }
  }

  lemma MulSucc(d: int, q: int)
    ensures d * (q + 1) == d * q + d
  {
  }

  lemma MulMono(d: int, x: int, y: int)
    requires d > 0 && x <= y
    ensures d * x <= d * y
  {
  }

  lemma DigitsValueSnoc(a: string, c: char)
    ensures DigitsValue(a + [c], 10) == DigitsValue(a, 10) * 10 + DigitValue(c)
  {
    assert (a + [c])[..|a|] == a;
  }

  /** The last `k` characters of a number's decimal form denote it modulo `10^k`. */
  lemma {:induction false} SuffixDigitsValue(n: nat, k: nat)
    requires k <= |NatToString(n)|
    ensures DigitsValue(NatToString(n)[|NatToString(n)| - k..], 10) == n % Pow10(k)
  {
    var r := NatToString(n);
    if k == 0 {
      assert r[|r| - k..] == [];
      assert n % Pow10(0) == 0;
    } else if n < 10 {
      SingleDigit(n, k);
    } else {
      SuffixSplit(n, k);
      SuffixDigitsValue(n / 10, k - 1);
      SuffixDigitsStep(n, k);
    }
  }

  /** One more digit: from the last `k - 1` digits of `n / 10` to the last `k` digits of `n`. */
  lemma SuffixDigitsStep(n: nat, k: nat)
    requires n >= 10 && 1 <= k <= |NatToString(n)|
    requires DigitsValue(NatToString(n / 10)[|NatToString(n / 10)| - (k - 1)..], 10) == (n / 10) % Pow10(k - 1)
    ensures DigitsValue(NatToString(n)[|NatToString(n)| - k..], 10) == n % Pow10(k)
  {
    var r, front := NatToString(n), NatToString(n / 10);
    var d := DigitChar(n % 10);
    var frontTail := front[|front| - (k - 1)..];
    SuffixSplit(n, k);
    DigitsValueSnoc(frontTail, d);
    assert DigitValue(d) == n % 10;
    SuffixStep(n, Pow10(k - 1), Pow10(k), DigitsValue(frontTail, 10), DigitValue(d), DigitsValue(r[|r| - k..], 10));
  }

  /** `v`, the value of the last digits, read as `front` then `digit`, is `n` modulo `p = 10 * m`. */
  lemma SuffixStep(n: nat, m: nat, p: nat, front: nat, digit: nat, v: nat)
    requires m >= 1 && p == 10 * m && front == (n / 10) % m && digit == n % 10 && v == front * 10 + digit
    ensures v == n % p
  {
    ModStep(n, m);
  }

  lemma SingleDigit(n: nat, k: nat)
    requires n < 10 && 1 <= k <= |NatToString(n)|
    ensures DigitsValue(NatToString(n)[|NatToString(n)| - k..], 10) == n % Pow10(k)
  {
    var r := NatToString(n);
    assert k == 1 && Pow10(1) == 10;
    assert r[|r| - k..] == [] + [DigitChar(n)];
    DigitsValueSnoc([], DigitChar(n));
  }

  /** The last `k` digits of `n` are the last `k - 1` digits of `n / 10` followed by the last digit. */
  lemma SuffixSplit(n: nat, k: nat)
    requires n >= 10 && 1 <= k <= |NatToString(n)|
    ensures |NatToString(n)| == |NatToString(n / 10)| + 1
    ensures NatToString(n)[|NatToString(n)| - k..] ==
      NatToString(n / 10)[|NatToString(n / 10)| - (k - 1)..] + [DigitChar(n % 10)]
  {
    var front := NatToString(n / 10);
    assert NatToString(n) == front + [DigitChar(n % 10)];
    SliceAppend(front, [DigitChar(n % 10)], |front| - (k - 1));
  }

  lemma SliceAppend(a: string, b: string, i: nat)
    requires i <= |a|
    ensures (a + b)[i..] == a[i..] + b
  {
  }
}
