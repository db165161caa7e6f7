/** The slice of the PHP runtime the plugin relies on: its values, their
    truthiness and integer conversion, and the string builtins it calls
    (explode, implode, str_replace on one character, strtolower, trim,
    rtrim, stripslashes). Strings are byte strings, modelled as seq<char>. */
module Php {

  datatype Option<+T> = None | Some(value: T)

  /** A PHP value as the plugin sees it. Arrays are string-keyed ordered
      maps in PHP; here they are maps, so key order is not modelled. */
  datatype Value =
    | Null
    | Bool(b: bool)
    | Int(i: int)
    | Str(s: string)
    | Arr(entries: map<string, Value>)

  /** PHP's boolean conversion; `empty($v)` is its negation. */
  predicate Truthy(v: Value) {
    match v
    case Null => false
    case Bool(b) => b
    case Int(i) => i != 0
    case Str(s) => s != "" && s != "0"
    case Arr(m) => |m| > 0
  }

  predicate IsDigit(c: char) { '0' <= c <= '9' }

  /** Whitespace PHP skips before a numeric string. */
  predicate IsNumericSpace(c: char) {
    c == ' ' || c == '\t' || c == '\n' || c == '\r' || c == '\U{B}' || c == '\U{C}'
  }

  /** Value of the longest run of decimal digits at the head of `s`, read
      after the digits already accumulated in `acc`. */
  function DigitRun(s: string, acc: nat): (r: nat)
    ensures (s == [] || !IsDigit(s[0])) ==> r == acc
    decreases |s|
  {
    if s != [] && IsDigit(s[0]) then DigitRun(s[1..], acc * 10 + (s[0] as int - '0' as int))
    else acc
  }

  /** The number of decimal digits at the head of `s`. */
  function DigitCount(s: string): (n: nat)
    ensures n <= |s|
    ensures forall i :: 0 <= i < n ==> IsDigit(s[i])
    ensures n < |s| ==> !IsDigit(s[n])
    decreases |s|
  {
    if s != [] && IsDigit(s[0]) then 1 + DigitCount(s[1..]) else 0
  }

  predicate AllDigits(s: string) {
    forall i :: 0 <= i < |s| ==> IsDigit(s[i])
  }

  function Pow10(k: nat): (r: nat)
    ensures r >= 1
  {
    if k == 0 then 1 else 10 * Pow10(k - 1)
  }

  function SkipNumericSpace(s: string): (r: string)
    ensures |r| <= |s| && r == s[|s| - |r|..]
    ensures r != [] ==> !IsNumericSpace(r[0])
    decreases |s|
  {
    if s != [] && IsNumericSpace(s[0]) then SkipNumericSpace(s[1..]) else s
  }

  /** The exponent part of a numeric string: `e` or `E`, an optional sign
      and at least one digit; 0 when there is none. */
  function Exponent(s: string): int {
    if s == [] || (s[0] != 'e' && s[0] != 'E') then 0
    else
      var x := s[1..];
      var y := if x != [] && (x[0] == '-' || x[0] == '+') then x[1..] else x;
      if DigitCount(y) == 0 then 0
      else if x[0] == '-' then 0 - DigitRun(y, 0)
      else DigitRun(y, 0)
  }

  /** `m * 10^e`, truncated toward zero when `e` is negative. */
  function Scale(m: nat, e: int): int {
    if e >= 0 then m * Pow10(e) else m / Pow10(0 - e)
  }

  /** The value of the unsigned numeric prefix of `u`, truncated toward
      zero: digits, optionally a point and more digits (at least one digit
      in all), optionally an exponent. Anything else gives 0. */
  function UnsignedPrefix(u: string): int {
    var n := DigitCount(u);
    var rest := u[n..];
    var point := rest != [] && rest[0] == '.';
    var f := if point then DigitCount(rest[1..]) else 0;
    var fraction := if point then rest[1..1 + f] else "";
    var after := if point then rest[1 + f..] else rest;
    if n == 0 && f == 0 then 0
    else Scale(DigitRun(u[..n] + fraction, 0), Exponent(after) - f)
  }

  /** The range of a PHP integer on a 64-bit platform. */
  const IntMin: int := -0x8000_0000_0000_0000
  const IntMax: int := 0x7FFF_FFFF_FFFF_FFFF

  /** The conversion of an out-of-range number saturates. */
  function Clamp64(v: int): (r: int)
    ensures IntMin <= r <= IntMax
    ensures IntMin <= v <= IntMax ==> r == v
  {
    if v < IntMin then IntMin else if v > IntMax then IntMax else v
  }

  /** `(int) $s` (PHP 7.1 on): leading whitespace, an optional sign, then
      the longest numeric prefix, in integer, decimal or exponent form,
      truncated toward zero and saturated to 64 bits; no numeric prefix
      gives 0. */
  function StrToInt(s: string): (r: int)
    ensures s == "" ==> r == 0
    ensures IntMin <= r <= IntMax
  {
    var t := SkipNumericSpace(s);
    if t != [] && t[0] == '-' then Clamp64(0 - UnsignedPrefix(t[1..]))
    else if t != [] && t[0] == '+' then Clamp64(UnsignedPrefix(t[1..]))
    else Clamp64(UnsignedPrefix(t))
  }

  /** Reading digits continues the number read so far. */
  lemma {:induction false} DigitRunAppend(a: string, b: string, acc: nat)
    requires AllDigits(a)
    ensures DigitRun(a + b, acc) == DigitRun(b, DigitRun(a, acc))
    decreases |a|
  {
    if a == [] {
      assert a + b == b;
    } else {
      assert (a + b)[0] == a[0];
      assert (a + b)[1..] == a[1..] + b;
      assert AllDigits(a[1..]) by {
        forall i | 0 <= i < |a| - 1 ensures IsDigit(a[1..][i]) {
          assert a[1..][i] == a[i + 1];
        }
      }
      DigitRunAppend(a[1..], b, acc * 10 + (a[0] as int - '0' as int));
    }
  }

  /** The digits of `b` shift what came before them by `|b|` places, and
      their own value needs no more than `|b|` places. */
  lemma {:induction false} DigitRunShift(b: string, acc: nat)
    requires AllDigits(b)
    ensures DigitRun(b, acc) == acc * Pow10(|b|) + DigitRun(b, 0)
    ensures DigitRun(b, 0) < Pow10(|b|)
    decreases |b|
  {
    if b != [] {
      var t := b[1..];
      var d := b[0] as int - '0' as int;
      assert 0 <= d <= 9;
      assert AllDigits(t) by {
        forall i | 0 <= i < |t| ensures IsDigit(t[i]) {
          assert t[i] == b[i + 1];
        }
      }
      var p := Pow10(|t|);
      var r := DigitRun(t, 0);
      DigitRunShift(t, acc * 10 + d);
      DigitRunShift(t, d);
      assert Pow10(|b|) == 10 * p;
      ShiftArith(acc, d, p, r);
    }
  }

  lemma ShiftArith(acc: nat, d: nat, p: nat, r: nat)
    requires d <= 9 && r < p
    ensures (acc * 10 + d) * p + r == acc * (10 * p) + (d * p + r)
    ensures d * p + r < 10 * p
  {
    assert (d + 1) * p == d * p + p;
    assert (d + 1) * p <= 10 * p;
  }

  lemma MulAtLeast(a: int, p: int)
    requires a >= 1 && p >= 0
    ensures a * p >= p
  {
    assert a * p == (a - 1) * p + p;
  }

  /** Whole division undoes a shift by `p` places. */
  lemma DivShift(x: nat, p: nat, r: nat)
    requires 0 <= r < p
    ensures (x * p + r) / p == x
  {
    var m := x * p + r;
    var q := m / p;
    var k := m % p;
    assert m == q * p + k && 0 <= k < p;
    if q < x {
      assert (x - q) * p == x * p - q * p;
      MulAtLeast(x - q, p);
    } else if q > x {
      assert (q - x) * p == q * p - x * p;
      MulAtLeast(q - x, p);
    }
  }

  /** A digit string followed by a non-digit splits there. */
  lemma DigitsThen(d: string, rest: string)
    requires AllDigits(d) && (rest == [] || !IsDigit(rest[0]))
    ensures DigitCount(d + rest) == |d|
    ensures (d + rest)[..|d|] == d && (d + rest)[|d|..] == rest
  {
    var u := d + rest;
    assert forall i :: 0 <= i < |d| ==> IsDigit(u[i]) by {
      forall i | 0 <= i < |d| ensures IsDigit(u[i]) {
        assert u[i] == d[i];
      }
    }
    if |d| < |u| {
      assert u[|d|] == rest[0];
    }
  }

  /** A string opening with a digit has neither whitespace nor sign. */
  lemma Unsigned(u: string)
    requires u != [] && IsDigit(u[0])
    ensures StrToInt(u) == Clamp64(UnsignedPrefix(u))
  {
    assert !IsNumericSpace(u[0]);
    assert SkipNumericSpace(u) == u;
    assert u[0] != '-' && u[0] != '+';
  }

  /** A plain digit string has its decimal value as its numeric prefix. */
  lemma PlainPrefix(d: string)
    requires AllDigits(d)
    ensures UnsignedPrefix(d) == DigitRun(d, 0)
  {
    DigitsThen(d, "");
    assert d + "" == d;
    assert d[..|d|] + "" == d;
  }

  /** A plain digit string reads as its decimal value, when that fits. */
  lemma DecimalString(d: string)
    requires d != [] && AllDigits(d)
    requires DigitRun(d, 0) <= IntMax
    ensures StrToInt(d) == DigitRun(d, 0)
  {
    Unsigned(d);
    PlainPrefix(d);
  }

  /** Digits, a point and more digits: the mantissa is all the digits,
      scaled down by the number after the point. */
  lemma PointThenDigits(d: string, f: string)
    requires AllDigits(d) && AllDigits(f)
    ensures UnsignedPrefix(d + ("." + f)) == Scale(DigitRun(d + f, 0), 0 - |f|)
  {
    var rest := "." + f;
    DigitsThen(d, rest);
    assert rest[1..] == f;
    DigitsThen(f, "");
    assert f + "" == f;
    assert rest[1..1 + |f|] == f && rest[1 + |f|..] == "";
  }

  /** Scaling down by the digits after the point leaves the whole part. */
  lemma DropFraction(d: string, f: string)
    requires AllDigits(d) && AllDigits(f)
    ensures Scale(DigitRun(d + f, 0), 0 - |f|) == DigitRun(d, 0)
  {
    DigitRunAppend(d, f, 0);
    DigitRunShift(f, DigitRun(d, 0));
    DivShift(DigitRun(d, 0), Pow10(|f|), DigitRun(f, 0));
  }

  /** A fractional part never changes the integer read: the value is
      truncated toward zero. */
  lemma FractionTruncated(d: string, f: string)
    requires d != [] && AllDigits(d) && AllDigits(f)
    ensures StrToInt(d + "." + f) == StrToInt(d)
  {
    var u := d + ("." + f);
    assert u == d + "." + f;
    assert u[0] == d[0];
    Unsigned(u);
    Unsigned(d);
    PlainPrefix(d);
    PointThenDigits(d, f);
    DropFraction(d, f);
  }

  /** An exponent of plain digits is their value. */
  lemma ExponentOf(x: string)
    requires x != [] && AllDigits(x)
    ensures Exponent("e" + x) == DigitRun(x, 0)
  {
    assert ("e" + x)[1..] == x;
  }

  /** Digits without a point, then anything but a point or a digit: the
      mantissa is the digits and the rest is read as the exponent. */
  lemma WholeThenExponent(d: string, rest: string)
    requires d != [] && AllDigits(d) && rest != [] && !IsDigit(rest[0]) && rest[0] != '.'
    ensures UnsignedPrefix(d + rest) == Scale(DigitRun(d, 0), Exponent(rest))
  {
    DigitsThen(d, rest);
    assert d + "" == d;
  }

  /** An exponent scales the mantissa by a power of ten. */
  lemma ExponentScales(d: string, x: string)
    requires d != [] && AllDigits(d) && x != [] && AllDigits(x)
    ensures StrToInt(d + "e" + x) == Clamp64(DigitRun(d, 0) * Pow10(DigitRun(x, 0)))
  {
    var u := d + ("e" + x);
    assert u == d + "e" + x;
    assert u[0] == d[0];
    Unsigned(u);
    WholeThenExponent(d, "e" + x);
    ExponentOf(x);
  }

  /** PHP `intval($v)`. */
  function IntVal(v: Value): int {
    match v
    case Null => 0
    case Bool(b) => if b then 1 else 0
    case Int(i) => i
    case Str(s) => StrToInt(s)
    case Arr(m) => if |m| == 0 then 0 else 1
  }

  /** `str_replace($from, $to, $s)` for one-character search and replacement. */
  function ReplaceChar(s: string, from: char, to: char): (r: string)
    ensures |r| == |s|
    ensures forall i :: 0 <= i < |s| ==> r[i] == (if s[i] == from then to else s[i])
    ensures from != to ==> from !in r
  {
    seq(|s|, i requires 0 <= i < |s| => if s[i] == from then to else s[i])
  }

  /** Replacement works character by character, so it distributes over
      concatenation. */
  lemma ReplaceCharAppend(a: string, b: string, from: char, to: char)
    ensures ReplaceChar(a + b, from, to) == ReplaceChar(a, from, to) + ReplaceChar(b, from, to)
  {
  }

  function LowerChar(c: char): char {
    if 'A' <= c <= 'Z' then (c as int - 'A' as int + 'a' as int) as char else c
  }

  /** `strtolower`: ASCII letters only, as PHP 8 does. */
  function Lower(s: string): (r: string)
    ensures |r| == |s|
    ensures forall i :: 0 <= i < |s| ==> r[i] == LowerChar(s[i])
    ensures forall i :: 0 <= i < |r| ==> !('A' <= r[i] <= 'Z')
  {
    seq(|s|, i requires 0 <= i < |s| => LowerChar(s[i]))
  }

  /** `stripslashes`: a backslash is dropped and the character after it is
      kept verbatim, except that `\0` becomes a NUL byte; a lone trailing
      backslash disappears. A string without backslashes is left as it is. */
  function StripSlashes(s: string): (r: string)
    ensures |r| <= |s|
    ensures '\\' !in s ==> r == s
    decreases |s|
  {
    if s == [] then []
    else if s[0] == '\\' then
      if |s| == 1 then []
      else (if s[1] == '0' then "\0" else [s[1]]) + StripSlashes(s[2..])
    else [s[0]] + StripSlashes(s[1..])
  }

  /** Whether `sep` occurs somewhere in `s`. */
  predicate Contains(s: string, sep: string)
    decreases |s|
  {
    |s| >= |sep| && (s[..|sep|] == sep || (s != [] && Contains(s[1..], sep)))
  }

  /** `explode($sep, $s)`: the pieces between the occurrences of `sep`
      found left to right without overlap. */
  function Explode(s: string, sep: string): (parts: seq<string>)
    requires sep != ""
    ensures |parts| >= 1
    decreases |s|
  {
    if |s| < |sep| then [s]
    else if s[..|sep|] == sep then [""] + Explode(s[|sep|..], sep)
    else
      var rest := Explode(s[1..], sep);
      [[s[0]] + rest[0]] + rest[1..]
  }

  /** `implode($sep, $parts)`, the partner of Explode. */
  function Implode(parts: seq<string>, sep: string): (s: string)
    requires |parts| >= 1
    decreases |parts|
  {
    if |parts| == 1 then parts[0] else parts[0] + sep + Implode(parts[1..], sep)
  }

  lemma ImplodeCons(c: char, parts: seq<string>, sep: string)
    requires |parts| >= 1
    ensures Implode([[c] + parts[0]] + parts[1..], sep) == [c] + Implode(parts, sep)
  {
    var ps := [[c] + parts[0]] + parts[1..];
    assert ps[1..] == parts[1..];
  }

  /** Joining the pieces of an explode with the separator gives back the
      original string: explode loses nothing. */
  lemma {:induction false} ImplodeExplode(s: string, sep: string)
    requires sep != ""
    ensures Implode(Explode(s, sep), sep) == s
    decreases |s|
  {
    if |s| < |sep| {
    } else if s[..|sep|] == sep {
      var rest := Explode(s[|sep|..], sep);
      var parts := [""] + rest;
      assert Explode(s, sep) == parts;
      ImplodeExplode(s[|sep|..], sep);
      assert parts[1..] == rest;
      calc {
        Implode(parts, sep);
        "" + sep + Implode(rest, sep);
        sep + s[|sep|..];
        s;
      }
    } else {
      var rest := Explode(s[1..], sep);
      ImplodeExplode(s[1..], sep);
      ImplodeCons(s[0], rest, sep);
      assert s == [s[0]] + s[1..];
    }
  }

  /** A string without the separator explodes into itself alone. */
  lemma {:induction false} ExplodeWithoutSep(s: string, sep: string)
    requires sep != "" && !Contains(s, sep)
    ensures Explode(s, sep) == [s]
    decreases |s|
  {
    if |s| >= |sep| {
      assert s[..|sep|] != sep;
      ExplodeWithoutSep(s[1..], sep);
      assert [s[0]] + s[1..] == s;
    }
  }

  /** A string without a character does not contain that character as a
      one-character separator. */
  lemma {:induction false} NoCharNoContains(s: string, c: char)
    requires c !in s
    ensures !Contains(s, [c])
    decreases |s|
  {
    if s != [] {
      assert s[..1] == [s[0]];
      NoCharNoContains(s[1..], c);
    }
  }

  /** The first piece of an explode on a one-character separator stops
      before the first occurrence of that character. */
  lemma {:induction false} ExplodeFirstPiece(s: string, c: char)
    ensures c !in Explode(s, [c])[0]
    decreases |s|
  {
    if |s| >= 1 && s[..1] != [c] {
      assert s[0] != c;
      ExplodeFirstPiece(s[1..], c);
    }
  }

  /** A string free of the separator's first character holds no occurrence
      of the separator, even with all but the last separator character
      appended. */
  lemma {:induction false} NoHeadNoContains(x: string, sep: string)
    requires sep != "" && sep[0] !in x
    ensures !Contains(x + sep[..|sep| - 1], sep)
    decreases |x|
  {
    var s := x + sep[..|sep| - 1];
    if x != [] {
      assert s[0] == x[0];
      assert s[1..] == x[1..] + sep[..|sep| - 1];
      NoHeadNoContains(x[1..], sep);
    }
  }

  /** Explode cuts at the first occurrence of the separator: when no
      occurrence starts inside `x`, the first piece is `x` itself. */
  lemma {:induction false} ExplodeAtFirst(x: string, sep: string, y: string)
    requires sep != "" && !Contains(x + sep[..|sep| - 1], sep)
    ensures Explode(x + sep + y, sep) == [x] + Explode(y, sep)
    decreases |x|
  {
    var s := x + sep + y;
    var p := x + sep[..|sep| - 1];
    if x == [] {
      assert s == sep + y;
      assert s[..|sep|] == sep && s[|sep|..] == y;
    } else {
      assert s[..|sep|] == p[..|sep|];
      assert p[1..] == x[1..] + sep[..|sep| - 1];
      assert s[1..] == x[1..] + sep + y;
      ExplodeAtFirst(x[1..], sep, y);
      assert [x[0]] + x[1..] == x;
    }
  }

  /** A piece that cannot start the separator is cut off whole at the
      separator that follows it. */
  lemma ExplodeAfterPiece(x: string, sep: string, y: string)
    requires sep != "" && sep[0] !in x
    ensures Explode(x + sep + y, sep) == [x] + Explode(y, sep)
  {
    NoHeadNoContains(x, sep);
    ExplodeAtFirst(x, sep, y);
  }

  /** Characters `trim` removes by default. */
  predicate IsTrimChar(c: char) {
    c == ' ' || c == '\t' || c == '\n' || c == '\r' || c == '\0' || c == '\U{B}'
  }

  function TrimLeft(s: string): (r: string)
    ensures |r| <= |s| && r == s[|s| - |r|..]
    ensures forall i :: 0 <= i < |s| - |r| ==> IsTrimChar(s[i])
    ensures r != [] ==> !IsTrimChar(r[0])
    decreases |s|
  {
    if s != [] && IsTrimChar(s[0]) then TrimLeft(s[1..]) else s
  }

  function TrimRight(s: string): (r: string)
    ensures |r| <= |s| && r == s[..|r|]
    ensures forall i :: |r| <= i < |s| ==> IsTrimChar(s[i])
    ensures r != [] ==> !IsTrimChar(r[|r| - 1])
    decreases |s|
  {
    if s != [] && IsTrimChar(s[|s| - 1]) then TrimRight(s[..|s| - 1]) else s
  }

  /** `trim($s)`: the longest middle part of `s` that neither starts nor
      ends with a whitespace or NUL character. */
  function Trim(s: string): (r: string)
    ensures |r| <= |s|
    ensures r != [] ==> !IsTrimChar(r[0]) && !IsTrimChar(r[|r| - 1])
    ensures s != [] && !IsTrimChar(s[0]) && !IsTrimChar(s[|s| - 1]) ==> r == s
  {
    TrimRight(TrimLeft(s))
  }

  /** `rtrim($s, $chars)`. */
  function RTrim(s: string, chars: set<char>): (r: string)
    ensures |r| <= |s| && r == s[..|r|]
    ensures r != [] ==> r[|r| - 1] !in chars
    ensures forall i :: |r| <= i < |s| ==> s[i] in chars
    decreases |s|
  {
    if s != [] && s[|s| - 1] in chars then RTrim(s[..|s| - 1], chars) else s
  }
}
