/** The slice of JavaScript value semantics that the modelled code relies on:
    null/undefined, truthiness, the string methods it calls, `Number(...)` on
    decimal text, integer-to-text conversion, `toFixed(2)` and `Math.round`
    on exact reals, and the UTF-16 code-unit order used by `sort()`. */
module Js {

  /** A possibly missing value: `None` is `undefined` (or a missing key). */
  datatype Option<+T> = None | Some(value: T) {
    function GetOr(default: T): T { if Some? then value else default }
    /** `this ?? other` where `this` cannot be `null` */
    function Or(other: Option<T>): Option<T> { if Some? then this else other }
  }

  /** A scalar JSON value as read from a payload: `null`, a string or a finite number. */
  datatype Val = Null | Str(s: string) | Num(x: real)

  /** A field that the code tests with `Array.isArray`: missing or null, present but
      not an array, or an array. */
  datatype Field<+T> = Missing | NotArray | Arr(items: seq<T>)

  predicate IsNullish(v: Option<Val>) { v.None? || v.value.Null? }

  /** `a ?? b` on JSON values. */
  function Coalesce(a: Option<Val>, b: Option<Val>): Option<Val> {
    if IsNullish(a) then b else a
  }

  /** `vs[0] ?? vs[1] ?? ...`: the first value that is neither missing nor null, or the
      last one when all are. */
  function CoalesceAll(vs: seq<Option<Val>>): Option<Val> {
    if |vs| == 0 then None
    else if |vs| == 1 then vs[0]
    else Coalesce(vs[0], CoalesceAll(vs[1..]))
  }

  lemma {:induction false} CoalesceAllIsFirst(vs: seq<Option<Val>>)
    ensures IsNullish(CoalesceAll(vs)) <==> forall k :: 0 <= k < |vs| ==> IsNullish(vs[k])
    ensures !IsNullish(CoalesceAll(vs)) ==>
              exists k :: 0 <= k < |vs| && vs[k] == CoalesceAll(vs) && forall j :: 0 <= j < k ==> IsNullish(vs[j])
  {
    if |vs| > 1 {
      CoalesceAllIsFirst(vs[1..]);
      if IsNullish(vs[0]) && !IsNullish(CoalesceAll(vs)) {
        var k :| 0 <= k < |vs| - 1 && vs[1..][k] == CoalesceAll(vs[1..]) && forall j :: 0 <= j < k ==> IsNullish(vs[1..][j]);
        assert vs[k + 1] == CoalesceAll(vs);
        forall j | 0 <= j < k + 1 ensures IsNullish(vs[j]) {
          if j > 0 { assert vs[j] == vs[1..][j - 1]; }
        }
      }
      if IsNullish(CoalesceAll(vs)) {
        forall k | 0 <= k < |vs| ensures IsNullish(vs[k]) {
          if k > 0 { assert vs[k] == vs[1..][k - 1]; }
        }
      }
    }
  }

  /** Truthiness of an optional string: present and not empty. */
  predicate Truthy(s: Option<string>) { s.Some? && s.value != "" }

  /** `a || b` on optional strings. */
  function OrElse(a: Option<string>, b: Option<string>): Option<string> {
    if Truthy(a) then a else b
  }

  // ---------------------------------------------------------------- characters

  /** JavaScript's `\s` and the characters `trim()` removes (WhiteSpace and LineTerminator). */
  predicate IsWs(c: char) {
    c == ' ' || c == '\t' || c == '\n' || c == '\r' || c == '\U{000B}' || c == '\U{000C}'
    || c == '\U{00A0}' || c == '\U{1680}' || ('\U{2000}' <= c <= '\U{200A}')
    || c == '\U{2028}' || c == '\U{2029}' || c == '\U{202F}' || c == '\U{205F}'
    || c == '\U{3000}' || c == '\U{FEFF}'
  }

  predicate IsUpper(c: char) { 'A' <= c <= 'Z' }

  /** `toLowerCase` restricted to ASCII letters. */
  function LowerChar(c: char): char {
    if IsUpper(c) then (c as int + 32) as char else c
  }

  function Lower(s: string): (r: string)
    ensures |r| == |s|
  {
    seq(|s|, i requires 0 <= i < |s| => LowerChar(s[i]))
  }

  /** A suffix of `s` with no leading white space. */
  function TrimStart(s: string): (r: string)
    ensures |r| <= |s| && r == s[|s| - |r|..]
    ensures |r| > 0 ==> !IsWs(r[0])
    ensures |s| > 0 && IsWs(s[0]) ==> |r| < |s|
  {
    if |s| > 0 && IsWs(s[0]) then TrimStart(s[1..]) else s
  }

  /** A prefix of `s` with no trailing white space. */
  function TrimEnd(s: string): (r: string)
    ensures |r| <= |s| && r == s[..|r|]
    ensures |r| > 0 ==> !IsWs(r[|r| - 1])
  {
    if |s| > 0 && IsWs(s[|s| - 1]) then TrimEnd(s[..|s| - 1]) else s
  }

  /** `String.prototype.trim` */
  function Trim(s: string): string { TrimEnd(TrimStart(s)) }

  predicate StartsWith(s: string, p: string) { |p| <= |s| && s[..|p|] == p }

  predicate EndsWith(s: string, p: string) { |p| <= |s| && s[|s| - |p|..] == p }

  /** `String.prototype.includes` */
  predicate Contains(s: string, sub: string) {
    exists i :: 0 <= i <= |s| - |sub| && OccursAt(s, sub, i)
  }

  predicate OccursAt(s: string, sub: string, i: int) {
    0 <= i && i + |sub| <= |s| && s[i..i + |sub|] == sub
  }

  /** `s.replace(c, r)` for a one-character pattern: only the first occurrence. */
  function ReplaceFirst(s: string, c: char, r: string): string {
    if |s| == 0 then ""
    else if s[0] == c then r + s[1..]
    else [s[0]] + ReplaceFirst(s[1..], c, r)
  }

  /** Replacing one character by one character keeps the length, and a text without the
      character is left as it is. */
  lemma {:induction false} ReplaceFirstByChar(s: string, c: char, r: char)
    ensures |ReplaceFirst(s, c, [r])| == |s|
    ensures c !in s ==> ReplaceFirst(s, c, [r]) == s
  {
    if |s| > 0 && s[0] != c {
      ReplaceFirstByChar(s[1..], c, r);
      assert c in s[1..] ==> c in s;
      assert s == [s[0]] + s[1..];
    }
  }

  lemma ConcatEnds(a: string, b: string)
    ensures StartsWith(a + b, a) && EndsWith(a + b, b)
  {
    assert (a + b)[..|a|] == a;
    assert (a + b)[|a + b| - |b|..] == b;
  }

  lemma EndsWithPart(s: string, p: string, q: string)
    requires EndsWith(s, p + q)
    ensures EndsWith(s, q)
  {
    assert s[|s| - |q|..] == s[|s| - |p + q|..][|p|..];
  }

  // ---------------------------------------------------------------- numbers from text

  predicate IsDigit(c: char) { '0' <= c <= '9' }

  predicate AllDigits(s: string) { forall i :: 0 <= i < |s| ==> IsDigit(s[i]) }

  function DigitsValue(s: string): nat
    requires AllDigits(s)
  {
    if |s| == 0 then 0
    else DigitsValue(s[..|s| - 1]) * 10 + (s[|s| - 1] as int - '0' as int)
  }

  /** The position of the first `c` in `s`, or `|s|` when there is none. */
  function IndexOf(s: string, c: char): (k: nat)
    ensures k <= |s|
    ensures k < |s| ==> s[k] == c
    ensures forall i :: 0 <= i < k ==> s[i] != c
  {
    if |s| == 0 then 0 else if s[0] == c then 0 else 1 + IndexOf(s[1..], c)
  }

  /** A decimal numeral: optional sign, digits, optional fraction, at least one digit. */
  function ParseDecimal(s: string): Option<real> {
    if |s| > 0 && (s[0] == '-' || s[0] == '+') then
      match ParseUnsigned(s[1..])
      case None => None
      case Some(m) => Some(if s[0] == '-' then -m else m)
    else ParseUnsigned(s)
  }

  /** Digits with an optional fraction part, at least one digit in all. */
  function ParseUnsigned(body: string): Option<real> {
    var k := IndexOf(body, '.');
    var ip := body[..k];
    var fp := if k < |body| then body[k + 1..] else "";
    if AllDigits(ip) && AllDigits(fp) && (|ip| > 0 || |fp| > 0) then
      Some(DigitsValue(ip) as real + Fraction(fp))
    else None
  }

  /** The value of the digits after the decimal point. */
  function Fraction(fp: string): real
    requires AllDigits(fp)
  {
    if |fp| == 0 then 0.0 else ((fp[0] as int - '0' as int) as real + Fraction(fp[1..])) / 10.0
  }

  /** `Number(s)` on a string: surrounding white space is ignored and blank text is 0;
      `None` stands for NaN. */
  function JsNumber(s: string): Option<real> {
    var t := Trim(s);
    if t == "" then Some(0.0) else ParseDecimal(t)
  }

  /** `Number(v)`: undefined is NaN (`None`), null is 0. */
  function NumberOf(v: Option<Val>): Option<real> {
    match v
    case None => None
    case Some(Null) => Some(0.0)
    case Some(Str(s)) => JsNumber(s)
    case Some(Num(x)) => Some(x)
  }

  // ---------------------------------------------------------------- numbers to text

  function DigitChar(d: nat): char
    requires d < 10
  {
    ('0' as int + d) as char
  }

  /** Decimal text of a natural number, as template literals print it. */
  function NatToString(n: nat): (r: string)
    ensures |r| > 0 && AllDigits(r)
  {
    if n < 10 then [DigitChar(n)] else NatToString(n / 10) + [DigitChar(n % 10)]
  }

  function IntToString(i: int): string {
    if i < 0 then "-" + NatToString(-i) else NatToString(i)
  }

  /** The integer `toFixed(2)` rounds `|x|` to, in hundredths (ties go up). */
  function Hundredths(x: real): nat {
    var y := if x < 0.0 then -x else x;
    (y * 100.0 + 0.5).Floor
  }

  /** `+x.toFixed(2)` on an exact real: round to two decimals, ties away from zero. */
  function Round2(x: real): real {
    var h := Hundredths(x) as real / 100.0;
    if x < 0.0 then -h else h
  }

  /** `x.toFixed(2)` on an exact real. */
  function Fixed2(x: real): string {
    var h := Hundredths(x);
    (if x < 0.0 then "-" else "") + NatToString(h / 100) + "." + [DigitChar((h % 100) / 10), DigitChar(h % 10)]
  }

  /** `Math.round`: ties go towards +infinity. */
  function MathRound(x: real): int { (x + 0.5).Floor }

  // ---------------------------------------------------------------- string order

  /** The UTF-16 code units of a character: itself below U+10000, else a surrogate pair. */
  function Utf16(c: char): (u: seq<int>)
    ensures 1 <= |u| <= 2
  {
    var n := c as int;
    if n < 0x1_0000 then [n]
    else [0xD800 + (n - 0x1_0000) / 0x400, 0xDC00 + (n - 0x1_0000) % 0x400]
  }

  /** The code units of a string, as JavaScript stores it. */
  function Units(s: string): seq<int> {
    if |s| == 0 then [] else Utf16(s[0]) + Units(s[1..])
  }

  /** Lexicographic order of code-unit sequences, the comparison of `Array.prototype.sort()`. */
  predicate UnitsLe(u: seq<int>, v: seq<int>) {
    if |u| == 0 then true
    else if |v| == 0 then false
    else if u[0] < v[0] then true
    else if u[0] > v[0] then false
    else UnitsLe(u[1..], v[1..])
  }

  /** The place of a character in code-unit order: the characters below the surrogate block
      come first, then those above U+FFFF (whose first unit is a surrogate), then the rest
      of the basic plane. */
  function Utf16Rank(c: char): int {
    var n := c as int;
    if n < 0xD800 then n
    else if n >= 0x1_0000 then n - 0x1_0000 + 0xD800
    else n - 0xE000 + 0x10_D800
  }

  /** Code-unit order of strings, compared one character at a time by `Utf16Rank`;
      `StrLeIsUnitOrder` proves it is the order `Array.prototype.sort()` uses. */
  predicate StrLe(a: string, b: string) {
    if |a| == 0 then true
    else if |b| == 0 then false
    else if Utf16Rank(a[0]) < Utf16Rank(b[0]) then true
    else if Utf16Rank(a[0]) > Utf16Rank(b[0]) then false
    else StrLe(a[1..], b[1..])
  }

  lemma RankInjective(a: char, b: char)
    requires Utf16Rank(a) == Utf16Rank(b)
    ensures a == b
  {
    assert a as int == b as int;
  }

  /** A shared prefix of code units does not change the comparison. */
  lemma {:induction false} UnitsLeCommonPrefix(x: seq<int>, u: seq<int>, v: seq<int>)
    ensures UnitsLe(x + u, x + v) == UnitsLe(u, v)
  {
    if |x| > 0 {
      assert (x + u)[0] == x[0] == (x + v)[0];
      assert (x + u)[1..] == x[1..] + u && (x + v)[1..] == x[1..] + v;
      UnitsLeCommonPrefix(x[1..], u, v);
      assert UnitsLe(x + u, x + v) == UnitsLe(x[1..] + u, x[1..] + v);
    } else {
      assert x + u == u && x + v == v;
    }
  }

  /** Two different first characters decide the comparison within their own code units. */
  lemma CharDecides(a: char, b: char, u: seq<int>, v: seq<int>)
    requires a != b
    ensures UnitsLe(Utf16(a) + u, Utf16(b) + v) == (Utf16Rank(a) < Utf16Rank(b))
  {
    var n, m := a as int, b as int;
    var x, y := Utf16(a) + u, Utf16(b) + v;
    assert x[0] == Utf16(a)[0] && y[0] == Utf16(b)[0];
    if n >= 0x1_0000 && m >= 0x1_0000 && (n - 0x1_0000) / 0x400 == (m - 0x1_0000) / 0x400 {
      var q := (n - 0x1_0000) / 0x400;
      assert n - 0x1_0000 == q * 0x400 + (n - 0x1_0000) % 0x400;
      assert m - 0x1_0000 == q * 0x400 + (m - 0x1_0000) % 0x400;
      assert x[1..][0] == Utf16(a)[1] && y[1..][0] == Utf16(b)[1];
    } else if n >= 0x1_0000 && m >= 0x1_0000 {
      var p, q := (n - 0x1_0000) / 0x400, (m - 0x1_0000) / 0x400;
      assert n - 0x1_0000 == p * 0x400 + (n - 0x1_0000) % 0x400;
      assert m - 0x1_0000 == q * 0x400 + (m - 0x1_0000) % 0x400;
      assert p < q <==> n < m;
    }
  }

  /** `StrLe` is the lexicographic order of the strings' UTF-16 code units. */
  lemma {:induction false} StrLeIsUnitOrder(a: string, b: string)
    ensures StrLe(a, b) <==> UnitsLe(Units(a), Units(b))
  {
    if |a| > 0 && |b| > 0 {
      if a[0] == b[0] {
        StrLeIsUnitOrder(a[1..], b[1..]);
        UnitsLeCommonPrefix(Utf16(a[0]), Units(a[1..]), Units(b[1..]));
      } else {
        CharDecides(a[0], b[0], Units(a[1..]), Units(b[1..]));
        if Utf16Rank(a[0]) == Utf16Rank(b[0]) { RankInjective(a[0], b[0]); }
      }
    }
  }

  /** A character above U+FFFF sorts before one from U+E000 to U+FFFF, though its code
      point is larger. */
  lemma AstralBeforeHighPlane()
    ensures StrLe("\U{1F600}", "\U{FF5E}") && !StrLe("\U{FF5E}", "\U{1F600}")
  {
  }

  lemma {:induction false} StrLeTotal(a: string, b: string)
    ensures StrLe(a, b) || StrLe(b, a)
  {
    if |a| > 0 && |b| > 0 && Utf16Rank(a[0]) == Utf16Rank(b[0]) { StrLeTotal(a[1..], b[1..]); }
  }

  lemma {:induction false} StrLeTrans(a: string, b: string, c: string)
    requires StrLe(a, b) && StrLe(b, c)
    ensures StrLe(a, c)
  {
    if |a| > 0 && |b| > 0 && |c| > 0 && Utf16Rank(a[0]) == Utf16Rank(b[0]) == Utf16Rank(c[0]) {
      StrLeTrans(a[1..], b[1..], c[1..]);
    }
  }

  lemma {:induction false} StrLeAntisym(a: string, b: string)
    requires StrLe(a, b) && StrLe(b, a)
    ensures a == b
  {
    if |a| > 0 && |b| > 0 {
      RankInjective(a[0], b[0]);
      StrLeAntisym(a[1..], b[1..]);
      assert a == [a[0]] + a[1..] && b == [b[0]] + b[1..];
    }
  }

  // ---------------------------------------------------------------- properties

  lemma {:induction false} DigitsValueOfNatToString(n: nat)
    ensures DigitsValue(NatToString(n)) == n
  {
    var s := NatToString(n);
    if n >= 10 {
      DigitsValueOfNatToString(n / 10);
      assert s[..|s| - 1] == NatToString(n / 10);
    }
  }

  lemma TrimOfDigits(s: string)
    requires AllDigits(s)
    ensures Trim(s) == s
  {
    assert TrimStart(s) == s by { if |s| > 0 { assert !IsWs(s[0]); } }
    if |s| > 0 { assert !IsWs(s[|s| - 1]); }
  }

  /** Printing a natural number and reading it back with `Number` gives the number. */
  lemma NatToStringRoundTrip(n: nat)
    ensures JsNumber(NatToString(n)) == Some(n as real)
  {
    var s := NatToString(n);
    TrimOfDigits(s);
    DigitsValueOfNatToString(n);
    ParseDecimalOfDigits(s);
  }

  lemma ParseDecimalOfDigits(s: string)
    requires |s| > 0 && AllDigits(s)
    ensures ParseDecimal(s) == Some(DigitsValue(s) as real)
  {
    assert IsDigit(s[0]);
    assert ParseDecimal(s) == ParseUnsigned(s);
    NoDotInDigits(s);
    ParseUnsignedWithoutDot(s);
  }

  lemma ParseUnsignedWithoutDot(s: string)
    requires |s| > 0 && AllDigits(s) && IndexOf(s, '.') == |s|
    ensures ParseUnsigned(s) == Some(DigitsValue(s) as real)
  {
    assert s[..|s|] == s;
    var e: string := "";
    assert AllDigits(e) && Fraction(e) == 0.0;
    assert ParseUnsigned(s) == Some(DigitsValue(s) as real + Fraction(e));
  }

  lemma {:induction false} NoDotInDigits(s: string)
    requires AllDigits(s)
    ensures IndexOf(s, '.') == |s|
  {
    if |s| > 0 {
      assert IsDigit(s[0]);
      assert AllDigits(s[1..]) by {
        forall i | 0 <= i < |s| - 1 ensures IsDigit(s[1..][i]) { assert s[1..][i] == s[i + 1]; }
      }
      NoDotInDigits(s[1..]);
    }
  }

  lemma {:induction false} IndexOfAfterDigits(a: string, b: string)
    requires AllDigits(a)
    ensures IndexOf(a + b, '.') == |a| + IndexOf(b, '.')
  {
    if |a| > 0 {
      assert IsDigit(a[0]);
      assert (a + b)[1..] == a[1..] + b;
      assert AllDigits(a[1..]) by {
        forall i | 0 <= i < |a| - 1 ensures IsDigit(a[1..][i]) { assert a[1..][i] == a[i + 1]; }
      }
      IndexOfAfterDigits(a[1..], b);
    } else {
      assert a + b == b;
    }
  }

  /** `Number` reads digits, a point and digits back as the value they write. */
  lemma ReadDecimal(ip: string, fp: string)
    requires |ip| > 0 && AllDigits(ip) && AllDigits(fp)
    ensures JsNumber(ip + "." + fp) == Some(DigitsValue(ip) as real + Fraction(fp))
  {
    var s := ip + "." + fp;
    NumeralEnds(ip, fp);
    TrimNumeral(s);
    ParseAtPoint(ip, fp);
  }

  lemma NumeralEnds(ip: string, fp: string)
    requires |ip| > 0 && AllDigits(ip) && AllDigits(fp)
    ensures var s := ip + "." + fp; |s| > 0 && !IsWs(s[0]) && !IsWs(s[|s| - 1]) && IsDigit(s[0])
  {
    var s := ip + "." + fp;
    assert s[0] == ip[0];
    DigitNotWs(ip[0]);
    if |fp| > 0 {
      assert s[|s| - 1] == fp[|fp| - 1];
      DigitNotWs(fp[|fp| - 1]);
    }
  }

  lemma ParseAtPoint(ip: string, fp: string)
    requires |ip| > 0 && AllDigits(ip) && AllDigits(fp)
    ensures ParseDecimal(ip + "." + fp) == Some(DigitsValue(ip) as real + Fraction(fp))
  {
    var s := ip + "." + fp;
    SplitAtPoint(ip, fp);
    UnsignedAt(s, |ip|);
  }

  lemma SplitAtPoint(ip: string, fp: string)
    requires |ip| > 0 && AllDigits(ip) && AllDigits(fp)
    ensures var s := ip + "." + fp;
            && IndexOf(s, '.') == |ip| < |s| && s[..|ip|] == ip && s[|ip| + 1..] == fp && IsDigit(s[0])
  {
    var s := ip + ("." + fp);
    assert ip + "." + fp == s;
    assert s[0] == ip[0];
    IndexOfAfterDigits(ip, "." + fp);
    assert s[..|ip|] == ip;
    assert s[|ip| + 1..] == fp;
  }

  lemma UnsignedAt(s: string, k: nat)
    requires IndexOf(s, '.') == k < |s| && 0 < k
    requires AllDigits(s[..k]) && AllDigits(s[k + 1..]) && IsDigit(s[0])
    ensures ParseDecimal(s) == Some(DigitsValue(s[..k]) as real + Fraction(s[k + 1..]))
  {
    Unsigned(s);
    UnsignedSplit(s, k);
  }

  lemma Unsigned(s: string)
    requires |s| > 0 && IsDigit(s[0])
    ensures ParseDecimal(s) == ParseUnsigned(s)
  {
  }

  lemma UnsignedSplit(s: string, k: nat)
    requires IndexOf(s, '.') == k < |s| && 0 < k
    requires AllDigits(s[..k]) && AllDigits(s[k + 1..])
    ensures ParseUnsigned(s) == Some(DigitsValue(s[..k]) as real + Fraction(s[k + 1..]))
  {
    var ip, fp := s[..k], s[k + 1..];
    assert |ip| > 0;
    var v := DigitsValue(ip) as real + Fraction(fp);
    assert ParseUnsigned(s) == if AllDigits(ip) && AllDigits(fp) && (|ip| > 0 || |fp| > 0) then Some(v) else None;
  }

  lemma DigitNotWs(c: char)
    requires IsDigit(c)
    ensures !IsWs(c)
  {
  }

  lemma TrimNumeral(s: string)
    requires |s| > 0 && !IsWs(s[0]) && !IsWs(s[|s| - 1])
    ensures JsNumber(s) == ParseDecimal(s)
  {
    assert TrimStart(s) == s;
    assert TrimEnd(s) == s;
  }

  /** `+x.toFixed(2)` is within half a hundredth of `x`. */
  lemma Round2Error(x: real)
    ensures -0.005 <= Round2(x) - x <= 0.005
  {
    var y := if x < 0.0 then -x else x;
    var f := (y * 100.0 + 0.5).Floor;
    assert f as real <= y * 100.0 + 0.5 < f as real + 1.0;
  }

  /** Rounding keeps the sign, so non-negative data never produces a negative average. */
  lemma Round2NonNegative(x: real)
    requires x >= 0.0
    ensures Round2(x) >= 0.0
  {
  }

  /** Two-decimal text and two-decimal rounding agree: the text is `Round2(x)` written out. */
  lemma Fixed2Digits(x: real)
    ensures var h := Hundredths(x);
            (if x < 0.0 then -1.0 else 1.0) * ((h / 100) as real + ((h % 100) as real) / 100.0) == Round2(x)
  {
    var h := Hundredths(x);
    assert h as real == (h / 100) as real * 100.0 + (h % 100) as real;
  }
}
